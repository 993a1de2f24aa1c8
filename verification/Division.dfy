/** Quotients and remainders, for the rotation of the selectors. */
module Division {
  lemma MulLess(a: int, b: int, len: nat)
    requires a < b
    ensures a * len + len <= b * len
    decreases b - a
  {
    NextMultiple(b - 1, len);
    if a < b - 1 {
      MulLess(a, b - 1, len);
    }
  }

  lemma QuotientIs(n: nat, len: nat, q: nat, r: nat)
    requires len > 0 && r < len && n == q * len + r
    ensures n / len == q && n % len == r
  {
    var q', r' := n / len, n % len;
    assert n == q' * len + r';
    if q' > q {
      MulLess(q, q', len);
    } else if q' < q {
      MulLess(q', q, len);
    }
  }

  /** How many numbers below `n` leave the remainder `place`. */
  function Below(n: nat, len: nat, place: nat): nat
    requires place < len
  {
    if n == 0 then 0 else Below(n - 1, len, place) + if (n - 1) % len == place then 1 else 0
  }

  lemma BelowNext(n: nat, len: nat, place: nat)
    requires place < len
    ensures Below(n + 1, len, place) == Below(n, len, place) + if n % len == place then 1 else 0
  {
  }

  lemma {:induction false} BelowIsQuotient(n: nat, len: nat, place: nat)
    requires place < len
    ensures Below(n, len, place) == (n + len - 1 - place) / len
  {
    if n == 0 {
      QuotientIs(len - 1 - place, len, 0, len - 1 - place);
    } else {
      BelowIsQuotient(n - 1, len, place);
      QuotientStep(n - 1, len, place);
    }
  }

  lemma QuotientStep(n: nat, len: nat, place: nat)
    requires place < len
    ensures (n + len - place) / len == (n + len - 1 - place) / len + (if n % len == place then 1 else 0)
  {
    var q, r := Parts(n, len);
    NextMultiple(q, len);
    if r > place {
      QuotientIs(n + len - 1 - place, len, q + 1, r - 1 - place);
      QuotientIs(n + len - place, len, q + 1, r - place);
    } else if r == place {
      QuotientIs(n + len - 1 - place, len, q, len - 1);
      QuotientIs(n + len - place, len, q + 1, 0);
    } else {
      QuotientIs(n + len - 1 - place, len, q, r + len - 1 - place);
      QuotientIs(n + len - place, len, q, r + len - place);
    }
  }

  lemma Parts(n: nat, len: nat) returns (q: nat, r: nat)
    requires len > 0
    ensures q == n / len && r == n % len && r < len && n == q * len + r
  {
    q, r := n / len, n % len;
  }

  lemma NextMultiple(q: int, len: nat)
    ensures (q + 1) * len == q * len + len
  {
  }

  lemma SumOfParts(a: nat, m: nat, len: nat, q: nat, r: nat, q': nat, r': nat)
    requires r < len && r' < len && a == q * len + r && m == q' * len + r'
    ensures (a + m) / len == if r + r' < len then q + q' else q + q' + 1
  {
    assert (q + q') * len == q * len + q' * len;
    NextMultiple(q + q', len);
    if r + r' < len {
      QuotientIs(a + m, len, q + q', r + r');
    } else {
      QuotientIs(a + m, len, q + q' + 1, r + r' - len);
    }
  }

  /** Among `m` numbers in a row, every remainder turns up equally often, give or take one. */
  lemma BelowSpread(n: nat, m: nat, len: nat, place: nat)
    requires place < len
    ensures var times := Below(n + m, len, place) - Below(n, len, place);
            times == m / len || (times == m / len + 1 && m % len != 0)
  {
    BelowIsQuotient(n, len, place);
    BelowIsQuotient(n + m, len, place);
    var a := n + len - 1 - place;
    var q, r := Parts(a, len);
    var q', r' := Parts(m, len);
    SumOfParts(a, m, len, q, r, q', r');
    assert a + m == n + m + len - 1 - place;
  }

  /** Starting over at zero after `n - 1` is unnoticed in the remainders exactly when `len` divides `n`. */
  lemma StartOver(n: nat, len: nat)
    requires 0 < n && 0 < len
    ensures ((n - 1) % len + 1) % len == 0 <==> n % len == 0
  {
    var q, r := (n - 1) / len, (n - 1) % len;
    assert n == q * len + r + 1;
    assert (q + 1) * len == q * len + len;
    if r + 1 == len {
      QuotientIs(n, len, q + 1, 0);
      QuotientIs(len, len, 1, 0);
    } else {
      QuotientIs(n, len, q, r + 1);
      QuotientIs(r + 1, len, 0, r + 1);
    }
  }
}
