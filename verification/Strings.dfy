/** Strings as Go compares, splits and sorts them. */
module Strings {
  /** Byte-wise lexicographic order. */
  predicate Leq(a: string, b: string) {
    a == "" || (b != "" && (a[0] < b[0] || (a[0] == b[0] && Leq(a[1..], b[1..]))))
  }

  lemma {:induction false} LeqTotal(a: string, b: string)
    ensures Leq(a, b) || Leq(b, a)
  {
    if a != "" && b != "" {
      LeqTotal(a[1..], b[1..]);
    }
  }

  lemma {:induction false} LeqTransitive(a: string, b: string, c: string)
    requires Leq(a, b) && Leq(b, c)
    ensures Leq(a, c)
  {
    if a != "" && a[0] == b[0] == c[0] {
      LeqTransitive(a[1..], b[1..], c[1..]);
    }
  }

  lemma {:induction false} LeqAntisymmetric(a: string, b: string)
    requires Leq(a, b) && Leq(b, a)
    ensures a == b
  {
    if a != "" {
      LeqAntisymmetric(a[1..], b[1..]);
      assert a == [a[0]] + a[1..] && b == [b[0]] + b[1..];
    }
  }

  lemma {:induction false} PrefixIsLeq(a: string, rest: string)
    ensures Leq(a, a + rest)
  {
    if a != "" {
      assert (a + rest)[1..] == a[1..] + rest;
      PrefixIsLeq(a[1..], rest);
    }
  }

  /** By a name that each item has. */
  ghost predicate SortedByName<T>(s: seq<T>, name: T -> string) {
    forall i, j :: 0 <= i < j < |s| ==> Leq(name(s[i]), name(s[j]))
  }

  method InsertByName<T>(s: seq<T>, x: T, name: T -> string) returns (r: seq<T>)
    requires SortedByName(s, name)
    ensures SortedByName(r, name) && multiset(r) == multiset(s) + multiset{x}
  {
    var n := |s|;
    while n > 0 && !Leq(name(s[n - 1]), name(x))
      invariant 0 <= n <= |s| && forall i :: n <= i < |s| ==> Leq(name(x), name(s[i]))
    {
      LeqTotal(name(s[n - 1]), name(x));
      n := n - 1;
    }
    r := s[..n] + [x] + s[n..];
    assert s == s[..n] + s[n..];
    StaysSorted(s, n, x, name);
  }

  lemma StaysSorted<T>(s: seq<T>, n: nat, x: T, name: T -> string)
    requires SortedByName(s, name) && n <= |s|
    requires n > 0 ==> Leq(name(s[n - 1]), name(x))
    requires forall i :: n <= i < |s| ==> Leq(name(x), name(s[i]))
    ensures SortedByName(s[..n] + [x] + s[n..], name)
  {
    var r := s[..n] + [x] + s[n..];
    forall i | 0 <= i < n ensures Leq(name(s[i]), name(x)) {
      if i < n - 1 {
        LeqTransitive(name(s[i]), name(s[n - 1]), name(x));
      }
    }
    forall i, j | 0 <= i < j < |r| ensures Leq(name(r[i]), name(r[j])) {
      assert r[i] == if i < n then s[i] else if i == n then x else s[i - 1];
      assert r[j] == if j < n then s[j] else if j == n then x else s[j - 1];
    }
  }

  method SortByName<T>(s: seq<T>, name: T -> string) returns (r: seq<T>)
    ensures SortedByName(r, name) && multiset(r) == multiset(s)
  {
    r := [];
    for i := 0 to |s|
      invariant SortedByName(r, name) && multiset(r) == multiset(s[..i])
    {
      r := InsertByName(r, s[i], name);
      assert s[..i + 1] == s[..i] + [s[i]];
    }
    assert s[..|s|] == s;
  }

  /** `strings.Split` at every dot. */
  function Split(s: string): (parts: seq<string>)
    ensures parts != []
  {
    if s == "" then [""]
    else if s[0] == '.' then [""] + Split(s[1..])
    else
      var rest := Split(s[1..]);
      [[s[0]] + rest[0]] + rest[1..]
  }

  lemma SplitFirst(c: char, s: string)
    ensures Split([c] + s) == if c == '.' then [""] + Split(s) else [[c] + Split(s)[0]] + Split(s)[1..]
  {
    assert ([c] + s)[1..] == s;
  }

  function Join(parts: seq<string>): string
    requires parts != []
  {
    if |parts| == 1 then parts[0] else parts[0] + "." + Join(parts[1..])
  }

  lemma {:induction false} JoinSplit(s: string)
    ensures Join(Split(s)) == s
  {
    if s != "" {
      JoinSplit(s[1..]);
      assert s == [s[0]] + s[1..];
      if s[0] == '.' {
        JoinAfterDot(Split(s[1..]));
      } else {
        JoinFirst([s[0]], Split(s[1..]));
      }
    }
  }

  lemma JoinAfterDot(rest: seq<string>)
    requires rest != []
    ensures Join([""] + rest) == ['.'] + Join(rest)
  {
    assert ([""] + rest)[1..] == rest;
  }

  lemma JoinFirst(c: string, rest: seq<string>)
    requires rest != []
    ensures Join([c + rest[0]] + rest[1..]) == c + Join(rest)
  {
    var parts := [c + rest[0]] + rest[1..];
    assert parts[1..] == rest[1..];
    if |rest| > 1 {
      assert c + rest[0] + "." + Join(rest[1..]) == c + (rest[0] + "." + Join(rest[1..]));
    }
  }

  lemma {:induction false} JoinConcat(a: seq<string>, b: seq<string>)
    requires a != [] && b != []
    ensures Join(a + b) == Join(a) + "." + Join(b)
  {
    if |a| == 1 {
      assert (a + b)[1..] == b;
    } else {
      assert (a + b)[1..] == a[1..] + b;
      JoinConcat(a[1..], b);
      assert Join(a + b) == a[0] + "." + (Join(a[1..]) + "." + Join(b));
      assert Join(a) + "." + Join(b) == a[0] + "." + Join(a[1..]) + "." + Join(b);
    }
  }

  /** A name whose parts begin with those of another comes after it. */
  lemma SplitPrefixIsLeq(a: string, b: string)
    requires Split(a) <= Split(b)
    ensures Leq(a, b)
    ensures Split(a) == Split(b) ==> a == b
  {
    JoinSplit(a);
    JoinSplit(b);
    var rest := Split(b)[|Split(a)|..];
    assert Split(b) == Split(a) + rest;
    JoinPrefixIsLeq(Split(a), rest);
  }

  lemma JoinPrefixIsLeq(parts: seq<string>, rest: seq<string>)
    requires parts != []
    ensures Leq(Join(parts), Join(parts + rest))
  {
    if rest == [] {
      assert parts + rest == parts;
      LeqTotal(Join(parts), Join(parts));
    } else {
      JoinConcat(parts, rest);
      PrefixIsLeq(Join(parts), "." + Join(rest));
      assert Join(parts) + ("." + Join(rest)) == Join(parts) + "." + Join(rest);
    }
  }
}
