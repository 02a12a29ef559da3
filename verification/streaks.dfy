/** The three consecutive-outcome counters `consecutive403`, `consecutive500`, `consecutiveTimeout`. */
module Streaks {
  import opened Outcomes
  import opened Config

  datatype Streaks = Streaks(c403: nat, c500: nat, cTimeout: nat)

  /** Every counter at its initial value. */
  const Zero: Streaks := Streaks(0, 0, 0)

  function Get(st: Streaks, cat: Category): nat
  {
    match cat
    case Forbidden => st.c403
    case ServerError => st.c500
    case Timeout => st.cTimeout
  }

  /** Overwrites the counter of `cat`; the other two keep their values. */
  function Set(st: Streaks, cat: Category, n: nat): (r: Streaks)
    ensures Get(r, cat) == n
    ensures forall other: Category :: other != cat ==> Get(r, other) == Get(st, other)
  {
    match cat
    case Forbidden => st.(c403 := n)
    case ServerError => st.(c500 := n)
    case Timeout => st.(cTimeout := n)
  }

  /** Every counter is below its category's threshold. */
  predicate Within(cfg: Config, st: Streaks)
  {
    forall cat: Category :: Get(st, cat) < PolicyFor(cfg, cat).retrytimes
  }

  lemma ZeroIsWithin(cfg: Config)
    requires Positive(cfg)
    ensures Within(cfg, Zero)
    ensures forall cat: Category :: Get(Zero, cat) == 0
  {
  }
}
