/**
 The tree of health checks (`newCheckTree` in core/web/health_controller.go): nested maps, filled in place.
 A map is reached by reference, so the maps live in a heap here and a node holds the reference of its `Subs`.
 */
module CheckTree {
  import opened Options
  import opened SetFacts
  import opened Strings

  datatype Check = Check(name: string, status: string, output: string)

  type Ref = nat
  type Path = seq<string>

  datatype CheckNode = CheckNode(check: Check, subs: Ref)

  type Heap = map<Ref, map<string, CheckNode>>

  /** What a node holds that was made only to lead to others. */
  const NOTHING := Check("", "", "")

  function NameOf(c: Check): string {
    c.name
  }

  function PathOf(c: Check): (path: Path)
    ensures path != []
  {
    Split(c.name)
  }

  /** The node of that name in a map, if there is such a map. */
  function Entry(heap: Heap, r: Option<Ref>, short: string): Option<CheckNode> {
    if r.Some? && r.value in heap && short in heap[r.value] then Some(heap[r.value][short]) else None
  }

  /** The map at the end of a path. */
  function Reach(heap: Heap, root: Ref, path: Path): Option<Ref> {
    if path == [] then Some(root)
    else
      var n := |path| - 1;
      var entry := Entry(heap, Reach(heap, root, path[..n]), path[n]);
      if entry.Some? then Some(entry.value.subs) else None
  }

  function NodeAt(heap: Heap, root: Ref, path: Path): Option<CheckNode>
    requires path != []
  {
    var n := |path| - 1;
    Entry(heap, Reach(heap, root, path[..n]), path[n])
  }

  /** What the tree shows at a path. */
  function Shown(heap: Heap, root: Ref, path: Path): Option<Check>
    requires path != []
  {
    var node := NodeAt(heap, root, path);
    if node.Some? then Some(node.value.check) else None
  }

  /** Every map has one place: nodes never share their `Subs`. */
  ghost predicate IsTree(heap: Heap, root: Ref, places: map<Ref, Path>) {
    && places.Keys == heap.Keys && root in heap && places[root] == []
    && (forall r, short :: r in heap && short in heap[r] ==>
          heap[r][short].subs in heap && places[heap[r][short].subs] == places[r] + [short])
  }

  /** The maps after `node[short] = checkNode{..., Subs: make(checkTree)}`. */
  function Assign(heap: Heap, node: Ref, short: string, check: Check, empty: Ref): Heap
    requires node in heap
  {
    heap[empty := map[]][node := heap[node][short := CheckNode(check, empty)]]
  }

  lemma {:induction false} ReachedPlace(heap: Heap, root: Ref, places: map<Ref, Path>, path: Path)
    requires IsTree(heap, root, places) && Reach(heap, root, path).Some?
    ensures Reach(heap, root, path).value in heap && places[Reach(heap, root, path).value] == path
  {
    if path != [] {
      var n := |path| - 1;
      ReachedPlace(heap, root, places, path[..n]);
      assert path == path[..n] + [path[n]];
    }
  }

  lemma AssignKeepsTree(heap: Heap, root: Ref, places: map<Ref, Path>, at: Path, node: Ref, short: string,
      check: Check, empty: Ref)
    requires IsTree(heap, root, places) && Reach(heap, root, at) == Some(node) && empty !in heap
    ensures node in heap && IsTree(Assign(heap, node, short, check, empty), root, places[empty := at + [short]])
  {
    ReachedPlace(heap, root, places, at);
  }

  /** An assignment moves the paths through it to the new, empty map, and no other. */
  lemma {:induction false} ReachAfterAssign(heap: Heap, root: Ref, places: map<Ref, Path>, at: Path, node: Ref,
      short: string, check: Check, empty: Ref, path: Path)
    requires IsTree(heap, root, places) && Reach(heap, root, at) == Some(node) && node in heap && empty !in heap
    ensures Reach(Assign(heap, node, short, check, empty), root, path) ==
        Moved(Reach(heap, root, path), at + [short], empty, path)
    decreases |path|
  {
    if path != [] {
      var before := path[..|path| - 1];
      ReachAfterAssign(heap, root, places, at, node, short, check, empty, before);
      NodeAfterAssign(heap, root, places, at, node, short, check, empty, path);
    }
  }

  /** What is found at a path once the map at `own` is the empty map `empty`. */
  function Moved(before: Option<Ref>, own: Path, empty: Ref, path: Path): Option<Ref> {
    if path == own then Some(empty) else if own <= path then None else before
  }

  /** No two paths lead to one map. */
  lemma ReachedOnce(heap: Heap, root: Ref, places: map<Ref, Path>, at: Path, node: Ref, path: Path)
    requires IsTree(heap, root, places) && Reach(heap, root, at) == Some(node)
    ensures Reach(heap, root, path).Some? ==> Reach(heap, root, path).value in heap
    ensures Reach(heap, root, path) == Some(node) ==> path == at
  {
    ReachedPlace(heap, root, places, at);
    if Reach(heap, root, path).Some? {
      ReachedPlace(heap, root, places, path);
    }
  }

  lemma EntryAfterAssign(heap: Heap, node: Ref, short: string, check: Check, empty: Ref, r: Option<Ref>, part: string)
    requires node in heap && empty !in heap && (r.Some? ==> r.value in heap)
    ensures var after := Assign(heap, node, short, check, empty);
            && Entry(after, Some(empty), part) == None
            && Entry(after, r, part) ==
               if r == Some(node) && part == short then Some(CheckNode(check, empty)) else Entry(heap, r, part)
  {
  }

  /** An assignment puts a node at one path, takes away those below, and leaves all others. */
  lemma NodeAfterAssign(heap: Heap, root: Ref, places: map<Ref, Path>, at: Path, node: Ref, short: string,
      check: Check, empty: Ref, path: Path)
    requires IsTree(heap, root, places) && Reach(heap, root, at) == Some(node) && node in heap && empty !in heap
    requires path != []
    requires var before := path[..|path| - 1];
             Reach(Assign(heap, node, short, check, empty), root, before) ==
             Moved(Reach(heap, root, before), at + [short], empty, before)
    ensures NodeAt(Assign(heap, node, short, check, empty), root, path) ==
            if path == at + [short] then Some(CheckNode(check, empty))
            else if at + [short] <= path then None
            else NodeAt(heap, root, path)
  {
    var n := |path| - 1;
    var before := path[..n];
    PassesThrough(at + [short], path);
    ReachedOnce(heap, root, places, at, node, before);
    EntryAfterAssign(heap, node, short, check, empty, Reach(heap, root, before), path[n]);
    assert path == before + [path[n]];
    assert path == at + [short] <==> before == at && path[n] == short;
  }

  /** A path goes through another when its parent does, or when it is that path. */
  lemma PassesThrough(a: Path, path: Path)
    requires path != []
    ensures a <= path <==> a <= path[..|path| - 1] || a == path
  {
    var before := path[..|path| - 1];
    if a <= path && |a| < |path| {
      assert before[..|a|] == path[..|a|];
    }
  }

  lemma ShownAfterAssign(heap: Heap, root: Ref, places: map<Ref, Path>, at: Path, node: Ref, short: string,
                         check: Check, empty: Ref, path: Path)
    requires IsTree(heap, root, places) && Reach(heap, root, at) == Some(node) && node in heap && empty !in heap
        && path != []
    ensures Shown(Assign(heap, node, short, check, empty), root, path) ==
            if path == at + [short] then Some(check)
            else if at + [short] <= path then None
            else Shown(heap, root, path)
  {
    var before := path[..|path| - 1];
    ReachAfterAssign(heap, root, places, at, node, short, check, empty, before);
    NodeAfterAssign(heap, root, places, at, node, short, check, empty, path);
  }

  /** Nothing is shown below a path that shows nothing. */
  lemma {:induction false} NothingBelow(heap: Heap, root: Ref, at: Path, path: Path)
    requires at != [] && at <= path && Reach(heap, root, at).None?
    ensures Reach(heap, root, path).None? && Shown(heap, root, path).None?
    decreases |path|
  {
    if at != path {
      var n := |path| - 1;
      assert at <= path[..n];
      NothingBelow(heap, root, at, path[..n]);
    } else {
      assert at == path;
    }
  }

  /** What a path shows once the checks were put in one after the other. */
  function At(checks: seq<Check>, path: Path): Option<Check> {
    if checks == [] then None
    else
      var n := |checks| - 1;
      var before := At(checks[..n], path);
      var own := PathOf(checks[n]);
      if path == own then Some(checks[n])
      else if own <= path then None
      else if path <= own && before.None? then Some(NOTHING)
      else before
  }

  ghost predicate Shows(heap: Heap, root: Ref, checks: seq<Check>) {
    forall path :: path != [] ==> Shown(heap, root, path) == At(checks, path)
  }

  /** In between: the first `i` parts of the next path have been walked. */
  function AtWalked(checks: seq<Check>, parts: Path, i: nat, path: Path): Option<Check>
    requires i <= |parts|
  {
    if path <= parts[..i] && At(checks, path).None? then Some(NOTHING) else At(checks, path)
  }

  ghost predicate ShowsWalked(heap: Heap, root: Ref, checks: seq<Check>, parts: Path, i: nat)
    requires i <= |parts|
  {
    forall path :: path != [] ==> Shown(heap, root, path) == AtWalked(checks, parts, i, path)
  }

  lemma ReachShown(heap: Heap, root: Ref, path: Path)
    requires path != []
    ensures Reach(heap, root, path).Some? <==> Shown(heap, root, path).Some?
  {
  }

  /** A part that is there already. */
  lemma WalkOn(heap: Heap, root: Ref, checks: seq<Check>, parts: Path, i: nat)
    requires i < |parts| && ShowsWalked(heap, root, checks, parts, i) && Reach(heap, root, parts[..i + 1]).Some?
    ensures ShowsWalked(heap, root, checks, parts, i + 1)
  {
    ReachShown(heap, root, parts[..i + 1]);
    forall path: Path | path != [] ensures Shown(heap, root, path) == AtWalked(checks, parts, i + 1, path) {
      if path <= parts[..i + 1] && path != parts[..i + 1] {
        assert path == parts[..|path|] && path <= parts[..i];
      }
      assert parts[..i] <= parts[..i + 1];
    }
  }

  /** A part that has to be made on the way. */
  lemma WalkMakes(heap: Heap, root: Ref, places: map<Ref, Path>, checks: seq<Check>, parts: Path, i: nat, node: Ref,
      empty: Ref)
    requires i < |parts| && ShowsWalked(heap, root, checks, parts, i) && IsTree(heap, root, places)
    requires Reach(heap, root, parts[..i]) == Some(node) && node in heap && parts[i] !in heap[node] && empty !in heap
    ensures ShowsWalked(Assign(heap, node, parts[i], NOTHING, empty), root, checks, parts, i + 1)
  {
    var here := parts[..i] + [parts[i]];
    assert here == parts[..i + 1] && here[..i] == parts[..i];
    var after := Assign(heap, node, parts[i], NOTHING, empty);
    forall path: Path | path != [] ensures Shown(after, root, path) == AtWalked(checks, parts, i + 1, path) {
      ShownAfterAssign(heap, root, places, parts[..i], node, parts[i], NOTHING, empty, path);
      assert Shown(heap, root, path) == AtWalked(checks, parts, i, path);
      if here <= path {
        NothingBelow(heap, root, here, path);
        assert path <= here ==> path == here;
      } else if path <= here {
        assert path == parts[..|path|] && path <= parts[..i];
      }
    }
  }

  /** The last part is always assigned, whatever was there. */
  lemma PutsCheck(heap: Heap, root: Ref, places: map<Ref, Path>, checks: seq<Check>, check: Check, node: Ref,
      empty: Ref)
    requires var parts := PathOf(check);
             && ShowsWalked(heap, root, checks, parts, |parts| - 1) && IsTree(heap, root, places)
             && Reach(heap, root, parts[..|parts| - 1]) == Some(node) && node in heap && empty !in heap
    ensures Shows(Assign(heap, node, PathOf(check)[|PathOf(check)| - 1], check, empty), root, checks + [check])
  {
    var parts := PathOf(check);
    var n := |parts| - 1;
    assert parts[..n] + [parts[n]] == parts;
    var after := Assign(heap, node, parts[n], check, empty);
    assert (checks + [check])[..|checks|] == checks;
    forall path: Path | path != [] ensures Shown(after, root, path) == At(checks + [check], path) {
      ShownAfterAssign(heap, root, places, parts[..n], node, parts[n], check, empty, path);
      assert Shown(heap, root, path) == AtWalked(checks, parts, n, path);
      if path <= parts && path != parts {
        assert path == parts[..|path|] && path <= parts[..n];
      }
      assert path <= parts[..n] ==> path <= parts;
    }
  }

  /** One check of the loop. */
  method Put(heap0: Heap, root: Ref, c: Check, ghost places0: map<Ref, Path>, ghost before: seq<Check>)
    returns (heap: Heap, ghost places: map<Ref, Path>)
    requires IsTree(heap0, root, places0) && Shows(heap0, root, before)
    ensures IsTree(heap, root, places) && Shows(heap, root, before + [c])
  {
    heap, places := heap0, places0;
    var parts := PathOf(c);
    var node := root;
    for i := 0 to |parts| - 1
      invariant IsTree(heap, root, places)
      invariant Reach(heap, root, parts[..i]) == Some(node)
      invariant ShowsWalked(heap, root, before, parts, i)
    {
      var short := parts[i];
      ReachedPlace(heap, root, places, parts[..i]);
      assert parts[..i + 1][..i] == parts[..i];
      if short !in heap[node] {
        var subs := Unused(heap);
        WalkMakes(heap, root, places, before, parts, i, node, subs);
        AssignKeepsTree(heap, root, places, parts[..i], node, short, NOTHING, subs);
        ReachAfterAssign(heap, root, places, parts[..i], node, short, NOTHING, subs, parts[..i + 1]);
        assert parts[..i] + [short] == parts[..i + 1];
        heap, places := Assign(heap, node, short, NOTHING, subs), places[subs := parts[..i] + [short]];
        node := subs;
      } else {
        WalkOn(heap, root, before, parts, i);
        node := heap[node][short].subs;
      }
    }
    var n := |parts| - 1;
    ReachedPlace(heap, root, places, parts[..n]);
    var subs := Unused(heap);
    PutsCheck(heap, root, places, before, c, node, subs);
    AssignKeepsTree(heap, root, places, parts[..n], node, parts[n], c, subs);
    heap, places := Assign(heap, node, parts[n], c, subs), places[subs := parts[..n] + [parts[n]]];
  }

  /** `make(checkTree)`: a reference nobody holds. */
  method Unused(heap: Heap) returns (r: Ref)
    ensures r !in heap
  {
    var rest := heap.Keys;
    r := 0;
    while rest != {}
      invariant rest <= heap.Keys
      invariant forall k :: k in heap && k !in rest ==> k < r
      decreases rest
    {
      var k := PickAny(rest);
      rest := rest - {k};
      r := if k >= r then k + 1 else r;
    }
    assert r !in rest;
  }

  /** The whole tree, over the checks as they come out of the sort. */
  method NewCheckTree(checks: seq<Check>) returns (heap: Heap, root: Ref, ghost sorted: seq<Check>)
    ensures SortedByName(sorted, NameOf) && multiset(sorted) == multiset(checks)
    ensures Shows(heap, root, sorted)
    ensures DistinctNames(checks) ==> forall c :: c in checks ==> Shown(heap, root, PathOf(c)) == Some(c)
  {
    var inOrder := SortByName(checks, NameOf);
    sorted := inOrder;
    root := 0;
    heap := map[root := map[]];
    ghost var places: map<Ref, Path> := map[root := []];
    EmptyShows(heap, root);
    for i := 0 to |inOrder|
      invariant IsTree(heap, root, places) && Shows(heap, root, inOrder[..i])
    {
      heap, places := Put(heap, root, inOrder[i], places, inOrder[..i]);
      assert inOrder[..i + 1] == inOrder[..i] + [inOrder[i]];
    }
    assert inOrder[..|inOrder|] == inOrder;
    if DistinctNames(checks) {
      StillDistinct(checks, sorted);
      forall c | c in checks ensures Shown(heap, root, PathOf(c)) == Some(c) {
        assert c in multiset(sorted);
        var i :| 0 <= i < |sorted| && sorted[i] == c;
        SortedLosesNothing(sorted, i);
      }
    }
  }

  lemma {:induction false} AtMostOnce(s: seq<Check>, c: Check)
    requires DistinctNames(s)
    ensures multiset(s)[c] <= 1
  {
    if s != [] {
      var n := |s| - 1;
      assert s == s[..n] + [s[n]];
      AtMostOnce(s[..n], c);
      if s[n] == c {
        assert c !in s[..n];
        assert multiset(s[..n])[c] == 0;
      }
    }
  }

  lemma AtLeastTwice(s: seq<Check>, i: nat, j: nat)
    requires i < j < |s| && s[i] == s[j]
    ensures multiset(s)[s[i]] >= 2
  {
    assert s == s[..j] + s[j..];
    assert s[..j][i] == s[i] && s[j..][0] == s[i];
    assert s[i] in multiset(s[..j]) && s[i] in multiset(s[j..]);
  }

  lemma StillDistinct(s: seq<Check>, t: seq<Check>)
    requires DistinctNames(s) && multiset(t) == multiset(s)
    ensures DistinctNames(t)
  {
    forall i, j | 0 <= i < j < |t| ensures t[i].name != t[j].name {
      assert t[i] in multiset(s) && t[j] in multiset(s);
      if t[i] == t[j] {
        AtLeastTwice(t, i, j);
        AtMostOnce(s, t[i]);
        assert false;
      }
      var i' :| 0 <= i' < |s| && s[i'] == t[i];
      var j' :| 0 <= j' < |s| && s[j'] == t[j];
      assert i' < j' || j' < i';
    }
  }

  lemma EmptyShows(heap: Heap, root: Ref)
    requires heap == map[root := map[]]
    ensures Shows(heap, root, [])
  {
    forall path: Path | path != [] ensures Shown(heap, root, path).None? {
      NoReach(heap, root, path[..|path| - 1]);
    }
  }

  lemma NoReach(heap: Heap, root: Ref, path: Path)
    requires heap == map[root := map[]]
    ensures path != [] ==> Reach(heap, root, path).None?
  {
    if path != [] {
      NoReach(heap, root, path[..|path| - 1]);
    }
  }

  ghost predicate DistinctNames(checks: seq<Check>) {
    forall i, j :: 0 <= i < j < |checks| ==> checks[i].name != checks[j].name
  }

  /** A later check overwrites this one, or the node above it. */
  predicate Covers(later: Check, check: Check) {
    PathOf(later) <= PathOf(check)
  }

  /** A check is still in the tree exactly when none of those after it sits at its path or above. */
  lemma {:induction false} SurvivesUnlessCovered(checks: seq<Check>, i: nat)
    requires i < |checks| && DistinctNames(checks)
    ensures At(checks, PathOf(checks[i])) == Some(checks[i]) <==>
        forall j :: i < j < |checks| ==> !Covers(checks[j], checks[i])
    ensures At(checks, PathOf(checks[i])) != Some(checks[i]) ==>
              At(checks, PathOf(checks[i])).None? || At(checks, PathOf(checks[i])).value == NOTHING
              || exists j :: i < j < |checks| && At(checks, PathOf(checks[i])).value == checks[j]
    decreases |checks|
  {
    var n := |checks| - 1;
    var before := checks[..n];
    if i < n {
      SurvivesUnlessCovered(before, i);
      assert before[i] == checks[i] && forall j :: 0 <= j < n ==> before[j] == checks[j];
      if PathOf(checks[n]) == PathOf(checks[i]) {
        SplitPrefixIsLeq(checks[n].name, checks[i].name);
        assert false;
      }
    }
  }

  /** In the order of their names every check is there: a parent comes before its descendants. */
  lemma SortedLosesNothing(checks: seq<Check>, i: nat)
    requires i < |checks| && DistinctNames(checks) && SortedByName(checks, NameOf)
    ensures At(checks, PathOf(checks[i])) == Some(checks[i])
  {
    SurvivesUnlessCovered(checks, i);
    forall j | i < j < |checks| ensures !Covers(checks[j], checks[i]) {
      if Covers(checks[j], checks[i]) {
        SplitPrefixIsLeq(checks[j].name, checks[i].name);
        assert Leq(NameOf(checks[i]), NameOf(checks[j]));
        LeqAntisymmetric(checks[i].name, checks[j].name);
        assert false;
      }
    }
  }

  /** Nor is anything made up: every node is a check at its own path, or leads to one. */
  lemma {:induction false} NothingMadeUp(checks: seq<Check>, path: Path)
    requires path != [] && At(checks, path).Some?
    ensures exists c :: c in checks && path <= PathOf(c)
                        && (At(checks, path).value == NOTHING
                            || (At(checks, path).value == c && path == PathOf(c)))
  {
    var n := |checks| - 1;
    var own := PathOf(checks[n]);
    if path == own || (!(own <= path) && path <= own && At(checks[..n], path).None?) {
      assert checks[n] in checks;
    } else {
      NothingMadeUp(checks[..n], path);
    }
  }

  /** Left unsorted, a parent that comes after its child overwrites it. */
  lemma UnsortedLoses()
    ensures var checks := [Check("a.b", "passing", ""), Check("a", "passing", "")];
            DistinctNames(checks) && At(checks, PathOf(checks[0])).None?
  {
    var child, parent := Check("a.b", "passing", ""), Check("a", "passing", "");
    var checks := [child, parent];
    SplitFirst('b', "");
    SplitFirst('.', "b");
    SplitFirst('a', ".b");
    SplitFirst('a', "");
    assert ['b'] + "" == "b" && ['.'] + "b" == ".b" && ['a'] + ".b" == "a.b" && ['a'] + "" == "a";
    assert Split(child.name) == ["a", "b"] && Split(parent.name) == ["a"];
    assert PathOf(parent) == PathOf(child)[..1];
    assert Covers(parent, child);
  }
}
