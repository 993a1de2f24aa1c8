/** A run over the table: the rows after every step, and what each step was. */
module Runs {
  import opened TxStore

  datatype Run<C> = Begin(rows: Rows) | Then(before: Run<C>, cause: C, rows: Rows)

  /** The run has gone on from there. */
  ghost predicate Since<C>(earlier: Run<C>, run: Run<C>) {
    run == earlier || (run.Then? && Since(earlier, run.before))
  }

  lemma {:induction false} SinceTransitive<C>(a: Run<C>, b: Run<C>, c: Run<C>)
    requires Since(a, b) && Since(b, c)
    ensures Since(a, c)
  {
    if b != c {
      SinceTransitive(a, b, c.before);
    }
  }

  function Depth<C>(run: Run<C>): nat {
    if run.Begin? then 0 else Depth(run.before) + 1
  }

  lemma {:induction false} SinceIsDeeper<C>(earlier: Run<C>, run: Run<C>)
    requires Since(earlier, run)
    ensures Depth(earlier) <= Depth(run)
  {
    if run != earlier {
      SinceIsDeeper(earlier, run.before);
    }
  }
}
