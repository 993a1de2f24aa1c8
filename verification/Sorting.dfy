/** The sorts of Go's library, by an integer key. */
module Sorting {
  predicate SortedBy<T>(s: seq<T>, key: T -> int) {
    forall i, j :: 0 <= i < j < |s| ==> key(s[i]) <= key(s[j])
  }

  /** The elements with this key, in their order. */
  function WithKey<T>(s: seq<T>, key: T -> int, k: int): seq<T> {
    if s == [] then [] else (if key(s[0]) == k then [s[0]] else []) + WithKey(s[1..], key, k)
  }

  lemma {:induction false} WithKeyConcat<T>(s: seq<T>, t: seq<T>, key: T -> int, k: int)
    ensures WithKey(s + t, key, k) == WithKey(s, key, k) + WithKey(t, key, k)
  {
    if s == [] {
      assert s + t == t;
    } else {
      assert (s + t)[1..] == s[1..] + t;
      WithKeyConcat(s[1..], t, key, k);
    }
  }

  /** Inserts after every element with the same or a smaller key. */
  method Insert<T>(s: seq<T>, x: T, key: T -> int) returns (r: seq<T>)
    requires SortedBy(s, key)
    ensures SortedBy(r, key) && |r| == |s| + 1
    ensures multiset(r) == multiset(s) + multiset{x}
    ensures forall k :: WithKey(r, key, k) == WithKey(s + [x], key, k)
  {
    var below, above := s, [];
    while |below| > 0 && key(below[|below| - 1]) > key(x)
      invariant s == below + above
      invariant forall y :: y in above ==> key(y) > key(x)
    {
      var n := |below| - 1;
      assert below == below[..n] + [below[n]];
      below, above := below[..n], [below[n]] + above;
    }
    r := below + [x] + above;
    Between(below, above, x, key);
  }

  lemma Between<T>(below: seq<T>, above: seq<T>, x: T, key: T -> int)
    requires SortedBy(below + above, key)
    requires below != [] ==> key(below[|below| - 1]) <= key(x)
    requires forall y :: y in above ==> key(y) > key(x)
    ensures SortedBy(below + [x] + above, key)
    ensures multiset(below + [x] + above) == multiset(below + above) + multiset{x}
    ensures forall k :: WithKey(below + [x] + above, key, k) == WithKey(below + above + [x], key, k)
  {
    SortedBetween(below, above, x, key);
    forall k ensures WithKey(below + [x] + above, key, k) == WithKey(below + above + [x], key, k) {
      MoveBack(below, above, x, key, k);
    }
  }

  lemma SortedBetween<T>(below: seq<T>, above: seq<T>, x: T, key: T -> int)
    requires SortedBy(below + above, key)
    requires below != [] ==> key(below[|below| - 1]) <= key(x)
    requires forall y :: y in above ==> key(y) > key(x)
    ensures SortedBy(below + [x] + above, key)
  {
    var s, r, n := below + above, below + [x] + above, |below|;
    forall i, j | 0 <= i < j < |r| ensures key(r[i]) <= key(r[j]) {
      var i', j' := if i <= n then i else i - 1, if j <= n then j else j - 1;
      if i < n && j == n {
        assert s[i] == below[i] && s[n - 1] == below[n - 1];
      } else if i == n {
        assert r[j] in above;
      } else {
        assert r[i] == s[i'] && r[j] == s[j'];
      }
    }
  }

  /** An element may pass those with another key. */
  lemma MoveBack<T>(a: seq<T>, b: seq<T>, x: T, key: T -> int, k: int)
    requires forall y :: y in b ==> key(y) != key(x)
    ensures WithKey(a + [x] + b, key, k) == WithKey(a + b + [x], key, k)
  {
    WithKeyConcat(a + [x], b, key, k);
    WithKeyConcat(a, [x], key, k);
    WithKeyConcat(a + b, [x], key, k);
    WithKeyConcat(a, b, key, k);
    if k == key(x) {
      WithKeyNone(b, key, k);
    } else {
      WithKeyNone([x], key, k);
    }
  }

  lemma {:induction false} WithKeyNone<T>(s: seq<T>, key: T -> int, k: int)
    requires forall y :: y in s ==> key(y) != k
    ensures WithKey(s, key, k) == []
  {
    if s != [] {
      WithKeyNone(s[1..], key, k);
    }
  }

  /** A stable sort; claims that do not use the last clause also hold for what `sort.Slice` may do with ties. */
  method Sort<T>(s: seq<T>, key: T -> int) returns (r: seq<T>)
    ensures SortedBy(r, key) && |r| == |s|
    ensures multiset(r) == multiset(s)
    ensures forall k :: WithKey(r, key, k) == WithKey(s, key, k)
  {
    r := [];
    for i := 0 to |s|
      invariant SortedBy(r, key) && |r| == i
      invariant multiset(r) == multiset(s[..i])
      invariant forall k :: WithKey(r, key, k) == WithKey(s[..i], key, k)
    {
      var grown := Insert(r, s[i], key);
      assert s[..i + 1] == s[..i] + [s[i]];
      forall k ensures WithKey(grown, key, k) == WithKey(s[..i + 1], key, k) {
        WithKeyConcat(r, [s[i]], key, k);
        WithKeyConcat(s[..i], [s[i]], key, k);
      }
      r := grown;
    }
    assert s[..|s|] == s;
  }
}
