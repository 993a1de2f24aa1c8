/** Facts about finite sets that every counting argument here needs. */
module SetFacts {
  lemma {:induction false} SubsetCardinality<T>(a: set<T>, b: set<T>)
    requires a <= b
    ensures |a| <= |b|
  {
    if x :| x in a {
      SubsetCardinality(a - {x}, b - {x});
    } else {
      assert a == {};
    }
  }

  method PickAny<T>(s: set<T>) returns (x: T)
    requires s != {}
    ensures x in s
  {
    x :| x in s;
  }

  lemma CoverCardinality<T>(a: set<T>, b: set<T>, more: set<T>)
    requires a <= b + more
    ensures |a| <= |b| + |more|
  {
    assert |b + more| <= |b| + |more|;
    SubsetCardinality(a, b + more);
  }

  lemma {:induction false} Maximum<T>(candidates: set<T>, value: T -> int) returns (best: T)
    requires candidates != {}
    ensures best in candidates && forall j :: j in candidates ==> value(j) <= value(best)
  {
    var x :| x in candidates;
    best := x;
    var others := candidates - {x};
    if others != {} {
      var rest := Maximum(others, value);
      best := if value(rest) <= value(x) then x else rest;
    } else {
      assert candidates == {x};
    }
  }
}
