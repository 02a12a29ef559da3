/**
 * Properties of the supervisor over whole event sequences: the invariant
 * every step keeps, the arithmetic of streaks and breaches, and the
 * child-tracking guarantee and its one exception.
 */
module Runs {
  import opened Wrappers
  import opened Outcomes
  import opened Config
  import opened Effects
  import opened Process
  import opened Streaks
  import opened Monitor

  /** The number of probes in `evs` that fall in failure category `cat`. */
  function Failures(evs: seq<Event>, cat: Category): nat
  {
    if evs == [] then 0
    else (if evs[0] == Probe(ProbeFor(cat)) then 1 else 0) + Failures(evs[1..], cat)
  }

  /** No probe in `evs` answered with status 200. */
  predicate NoSuccess(evs: seq<Event>)
  {
    forall i :: 0 <= i < |evs| ==> evs[i] != Probe(Response(200))
  }

  /** Every probe in `evs` is a failure of `cat`, a connection error or an unexpected status. */
  predicate OnlyCategory(evs: seq<Event>, cat: Category)
  {
    forall i :: 0 <= i < |evs| ==> evs[i].Probe? ==> Classify(evs[i].result) in {Failure(cat), ConnectionFailure, Ignored}
  }

  /** Running the concatenation is running one part after the other. */
  lemma RunAppend(cfg: Config, s: State, a: seq<Event>, b: seq<Event>)
    ensures Run(cfg, s, a + b).next == Run(cfg, Run(cfg, s, a).next, b).next
    ensures Run(cfg, s, a + b).effects == Run(cfg, s, a).effects + Run(cfg, Run(cfg, s, a).next, b).effects
  {
    FoldAppend((x: State, e: Event) => Step(cfg, x, e), s, a, b);
  }

  /** A non-empty run is its first step followed by the run of the rest. */
  lemma RunCons(cfg: Config, s: State, evs: seq<Event>)
    requires evs != []
    ensures
      var first := Step(cfg, s, evs[0]);
      var rest := Run(cfg, first.next, evs[1..]);
      Run(cfg, s, evs) == Out(rest.next, first.effects + rest.effects)
  {
  }

  /** Every step keeps the counters below their thresholds and the process bookkeeping valid. */
  lemma StepKeepsGood(cfg: Config, s: State, e: Event)
    requires Positive(cfg) && Good(cfg, s)
    ensures Good(cfg, Step(cfg, s, e).next)
  {
  }

  /** With thresholds of at least one, every counter stays in `[0, retrytimes - 1]` forever. */
  lemma {:induction false} RunKeepsGood(cfg: Config, s: State, evs: seq<Event>)
    requires Positive(cfg) && Good(cfg, s)
    ensures Good(cfg, Run(cfg, s, evs).next)
    ensures forall cat: Category :: Get(Run(cfg, s, evs).next.streaks, cat) < PolicyFor(cfg, cat).retrytimes
    decreases |evs|
  {
    if evs != [] {
      StepKeepsGood(cfg, s, evs[0]);
      RunKeepsGood(cfg, Step(cfg, s, evs[0]).next, evs[1..]);
    }
  }

  /**
   * One step's contribution to the streak of `cat`: the counter grows by
   * one for a failure of `cat`, and a breach (logged with a count that
   * reached the threshold) takes the full threshold away.
   */
  lemma StepStreak(cfg: Config, s: State, e: Event, cat: Category)
    requires Positive(cfg) && Within(cfg, s.streaks) && e != Probe(Response(200))
    ensures
      var o := Step(cfg, s, e);
      var t := PolicyFor(cfg, cat).retrytimes;
      && Breaches(o.effects, cat, t) * t + Get(o.next.streaks, cat)
         == Get(s.streaks, cat) + (if e == Probe(ProbeFor(cat)) then 1 else 0)
      && (Breaches(o.effects, cat, t) == 1 <==> e == Probe(ProbeFor(cat)) && Breach(cfg, s, cat))
      && Breaches(o.effects, cat, t) <= 1
      && Within(cfg, o.next.streaks)
  {
    var o := Step(cfg, s, e);
    var t := PolicyFor(cfg, cat).retrytimes;
    match e
    case ChildExit(pid) =>
      LifecycleHasNoBreach(o.effects, cat, t);
    case Probe(r) =>
      ClassifyInvertsProbeFor(cat, r);
      match Classify(r)
      case Success =>
        assert false;
      case Failure(c) =>
        assert r == ProbeFor(c);
        FailureStreak(cfg, s, c, cat);
      case ConnectionFailure =>
        assert o.effects[1..] == [];
      case Ignored =>
  }

  /** A failure of category `c` counts towards `cat` only when the two agree. */
  lemma FailureStreak(cfg: Config, s: State, c: Category, cat: Category)
    requires Positive(cfg) && Within(cfg, s.streaks)
    ensures
      var o := ProbeStep(cfg, s, ProbeFor(c));
      var t := PolicyFor(cfg, cat).retrytimes;
      && Breaches(o.effects, cat, t) * t + Get(o.next.streaks, cat)
         == Get(s.streaks, cat) + (if c == cat then 1 else 0)
      && (Breaches(o.effects, cat, t) == 1 <==> c == cat && Breach(cfg, s, cat))
      && Breaches(o.effects, cat, t) <= 1
      && Within(cfg, o.next.streaks)
  {
    FailureBreaches(cfg, s, c, cat);
  }

  /** The breaches of `cat` logged by a failure of category `c`. */
  lemma FailureBreaches(cfg: Config, s: State, c: Category, cat: Category)
    ensures
      var o := ProbeStep(cfg, s, ProbeFor(c));
      var t := PolicyFor(cfg, cat).retrytimes;
      Breaches(o.effects, cat, t) == (if c == cat && Get(s.streaks, c) + 1 >= t then 1 else 0)
  {
    var o := ProbeStep(cfg, s, ProbeFor(c));
    var t := PolicyFor(cfg, cat).retrytimes;
    var count := Get(s.streaks, c) + 1;
    var policy := PolicyFor(cfg, c);
    var logged := [Log(Error, StreakCount(c, count))];
    var acted := if count >= policy.retrytimes && ParseAction(policy.action) == Restart then Process.Restart(s.proc) else Out(s.proc, []);
    assert o.effects == logged + acted.effects;
    BreachesAppend(logged, acted.effects, cat, t);
    LifecycleHasNoBreach(acted.effects, cat, t);
    assert logged[1..] == [];
    assert Breaches(logged, cat, t) == (if IsBreach(logged[0], cat, t) then 1 else 0);
  }

  /**
   * Over any stretch without a status 200, the counter of `cat` and the
   * breaches logged for it account for every failure of `cat`:
   * breaches * retrytimes + counter == initial counter + failures,
   * whatever probes of the other categories and exits come in between.
   */
  lemma {:induction false} StreakArithmetic(cfg: Config, s: State, evs: seq<Event>, cat: Category)
    requires Positive(cfg) && Within(cfg, s.streaks) && NoSuccess(evs)
    ensures
      var o := Run(cfg, s, evs);
      var t := PolicyFor(cfg, cat).retrytimes;
      && Breaches(o.effects, cat, t) * t + Get(o.next.streaks, cat) == Get(s.streaks, cat) + Failures(evs, cat)
      && Get(o.next.streaks, cat) < t
    decreases |evs|
  {
    if evs != [] {
      var t := PolicyFor(cfg, cat).retrytimes;
      var first := Step(cfg, s, evs[0]);
      StreakUnroll(cfg, s, evs, cat);
      StreakArithmetic(cfg, first.next, evs[1..], cat);
      var rest := Run(cfg, first.next, evs[1..]);
      Accumulate(Breaches(first.effects, cat, t), Breaches(rest.effects, cat, t), t,
                 Get(s.streaks, cat), Get(first.next.streaks, cat), Get(rest.next.streaks, cat),
                 Failures(evs, cat) - Failures(evs[1..], cat), Failures(evs[1..], cat));
    }
  }

  /** The first step of a stretch without a status 200, split off from the rest. */
  lemma StreakUnroll(cfg: Config, s: State, evs: seq<Event>, cat: Category)
    requires Positive(cfg) && Within(cfg, s.streaks) && NoSuccess(evs) && evs != []
    ensures
      var t := PolicyFor(cfg, cat).retrytimes;
      var first := Step(cfg, s, evs[0]);
      var rest := Run(cfg, first.next, evs[1..]);
      && Within(cfg, first.next.streaks)
      && NoSuccess(evs[1..])
      && Run(cfg, s, evs).next == rest.next
      && Breaches(Run(cfg, s, evs).effects, cat, t) == Breaches(first.effects, cat, t) + Breaches(rest.effects, cat, t)
      && Breaches(first.effects, cat, t) * t + Get(first.next.streaks, cat)
         == Get(s.streaks, cat) + (Failures(evs, cat) - Failures(evs[1..], cat))
  {
    var t := PolicyFor(cfg, cat).retrytimes;
    var first := Step(cfg, s, evs[0]);
    var rest := Run(cfg, first.next, evs[1..]);
    NoSuccessTail(evs);
    StepStreak(cfg, s, evs[0], cat);
    RunCons(cfg, s, evs);
    BreachesAppend(first.effects, rest.effects, cat, t);
  }

  /** The rest of a stretch without a status 200 has none either. */
  lemma NoSuccessTail(evs: seq<Event>)
    requires evs != [] && NoSuccess(evs)
    ensures evs[0] != Probe(Response(200)) && NoSuccess(evs[1..])
  {
  }

  /** Two accounting steps chain into one. */
  lemma Accumulate(b1: int, b2: int, t: int, c0: int, c1: int, c2: int, d: int, n: int)
    requires b1 * t + c1 == c0 + d && b2 * t + c2 == c1 + n
    ensures (b1 + b2) * t + c2 == c0 + (d + n)
  {
  }

  /** The same accounting, stated with division and remainder. */
  lemma StreakDivMod(cfg: Config, s: State, evs: seq<Event>, cat: Category)
    requires Positive(cfg) && Within(cfg, s.streaks) && NoSuccess(evs)
    ensures
      var o := Run(cfg, s, evs);
      var t := PolicyFor(cfg, cat).retrytimes;
      && Get(o.next.streaks, cat) == (Get(s.streaks, cat) + Failures(evs, cat)) % t
      && Breaches(o.effects, cat, t) == (Get(s.streaks, cat) + Failures(evs, cat)) / t
  {
    StreakArithmetic(cfg, s, evs, cat);
    var o := Run(cfg, s, evs);
    var t := PolicyFor(cfg, cat).retrytimes;
    DivModUnique(Get(s.streaks, cat) + Failures(evs, cat), t, Breaches(o.effects, cat, t), Get(o.next.streaks, cat));
  }

  /** A positive multiple of `t` is at least `t`. */
  lemma MultipleAtLeast(a: int, t: int)
    requires a >= 1 && t >= 1
    ensures a * t >= t
  {
  }

  /** Quotient and remainder are the only pair that rebuilds `x`. */
  lemma DivModUnique(x: nat, t: int, q: nat, r: nat)
    requires t >= 1 && q * t + r == x && r < t
    ensures q == x / t && r == x % t
  {
    var q', r' := x / t, x % t;
    assert q' * t + r' == x;
    if q > q' {
      assert q * t - q' * t == (q - q') * t;
      MultipleAtLeast(q - q', t);
    } else if q < q' {
      assert q' * t - q * t == (q' - q) * t;
      MultipleAtLeast(q' - q, t);
    }
  }

  /**
   * Exactly `retrytimes` failures of `cat` without an intervening status
   * 200, starting from a zero counter, give exactly one breach and leave
   * the counter at zero.
   */
  lemma ThresholdFailuresBreachOnce(cfg: Config, s: State, evs: seq<Event>, cat: Category)
    requires Positive(cfg) && Within(cfg, s.streaks) && NoSuccess(evs)
    requires Get(s.streaks, cat) == 0 && Failures(evs, cat) == PolicyFor(cfg, cat).retrytimes
    ensures Breaches(Run(cfg, s, evs).effects, cat, PolicyFor(cfg, cat).retrytimes) == 1
    ensures Get(Run(cfg, s, evs).next.streaks, cat) == 0
  {
    StreakArithmetic(cfg, s, evs, cat);
    var o := Run(cfg, s, evs);
    var t := PolicyFor(cfg, cat).retrytimes;
    SingleQuotient(Breaches(o.effects, cat, t), t, Get(o.next.streaks, cat));
  }

  /** The only way to rebuild `t` from multiples of `t` and a remainder below `t`. */
  lemma SingleQuotient(b: nat, t: int, c: nat)
    requires t >= 1 && b * t + c == t && c < t
    ensures b == 1 && c == 0
  {
  }

  /**
   * When only `cat` can fail, the child is spawned once per breach of
   * `cat` if its configured action is exactly "restart", and never otherwise.
   */
  lemma {:induction false} RestartsFollowBreaches(cfg: Config, s: State, evs: seq<Event>, cat: Category)
    requires Positive(cfg) && Within(cfg, s.streaks) && NoSuccess(evs) && OnlyCategory(evs, cat)
    ensures
      var o := Run(cfg, s, evs);
      var t := PolicyFor(cfg, cat).retrytimes;
      |Spawned(o.effects)| == (if PolicyFor(cfg, cat).action == "restart" then Breaches(o.effects, cat, t) else 0)
    decreases |evs|
  {
    var t := PolicyFor(cfg, cat).retrytimes;
    if evs != [] {
      var e := evs[0];
      var first := Step(cfg, s, e);
      StepStreak(cfg, s, e, cat);
      assert NoSuccess(evs[1..]) && OnlyCategory(evs[1..], cat) by {
        forall i | 0 <= i < |evs[1..]|
          ensures evs[1..][i] != Probe(Response(200))
          ensures evs[1..][i].Probe? ==> Classify(evs[1..][i].result) in {Failure(cat), ConnectionFailure, Ignored}
        {
          assert evs[1..][i] == evs[i + 1];
        }
      }
      assert Within(cfg, first.next.streaks);
      RestartsFollowBreaches(cfg, first.next, evs[1..], cat);
      var rest := Run(cfg, first.next, evs[1..]);
      BreachesAppend(first.effects, rest.effects, cat, t);
      SpawnedAppend(first.effects, rest.effects);
      match e
      case ChildExit(pid) =>
        QuietSpawnsNothing(first.effects);
      case Probe(r) =>
        assert Classify(r) in {Failure(cat), ConnectionFailure, Ignored};
        ClassifyInvertsProbeFor(cat, r);
        if Classify(r) != Failure(cat) {
          QuietSpawnsNothing(first.effects);
        }
    }
  }

  /** Probes that end in a connection error or an unexpected status change nothing and spawn nothing. */
  lemma {:induction false} UnclassifiedProbesAreInert(cfg: Config, s: State, evs: seq<Event>)
    requires forall i :: 0 <= i < |evs| ==> evs[i].Probe? && Classify(evs[i].result) in {ConnectionFailure, Ignored}
    ensures Run(cfg, s, evs).next == s
    ensures Spawned(Run(cfg, s, evs).effects) == [] && Killed(Run(cfg, s, evs).effects) == []
    decreases |evs|
  {
    if evs != [] {
      var first := Step(cfg, s, evs[0]);
      assert first.next == s && Quiet(first.effects);
      QuietSpawnsNothing(first.effects);
      assert forall i :: 0 <= i < |evs[1..]| ==> evs[1..][i] == evs[i + 1];
      UnclassifiedProbesAreInert(cfg, s, evs[1..]);
      SpawnedAppend(first.effects, Run(cfg, s, evs[1..]).effects);
    }
  }

  /**
   * After the last status 200, the counter of `cat` depends only on the
   * failures of `cat` that came later, whatever came before.
   */
  lemma CounterSinceLastSuccess(cfg: Config, s: State, before: seq<Event>, after: seq<Event>, cat: Category)
    requires Positive(cfg) && NoSuccess(after)
    ensures
      Get(Run(cfg, s, before + [Probe(Response(200))] + after).next.streaks, cat)
      == Failures(after, cat) % PolicyFor(cfg, cat).retrytimes
  {
    var mid := Run(cfg, s, before).next;
    var healthy := Probe(Response(200));
    RunAppend(cfg, s, before, [healthy]);
    RunAppend(cfg, s, before + [healthy], after);
    var cleared := Run(cfg, s, before + [healthy]).next;
    RunCons(cfg, mid, [healthy]);
    assert [healthy][1..] == [];
    assert cleared == Step(cfg, mid, healthy).next;
    assert cleared.streaks == Zero;
    ZeroIsWithin(cfg);
    StreakDivMod(cfg, cleared, after, cat);
  }

  /**
   * From a state where the handle tracks every running child, a step keeps
   * it so exactly when the step is not the late exit of a signalled child.
   */
  lemma StepKeepsTrackedIffNotLate(cfg: Config, s: State, e: Event)
    requires Valid(s.proc) && Tracked(s.proc)
    ensures Tracked(Step(cfg, s, e).next.proc) <==> !(e.ChildExit? && LateExit(s.proc, e.pid))
  {
    match e
    case ChildExit(pid) =>
      ExitKeepsTrackedIffNotLate(s.proc, pid);
    case Probe(r) =>
      StartRestartKeepTracked(s.proc);
  }

  /**
   * Every restart that kills a child makes that child's exit a late exit.
   * The killed child can only report its exit after the restart has stored
   * the new handle, so its exit clears that handle while the new child
   * keeps running. A probe that does not restart never does this.
   */
  lemma RestartMakesOldExitLate(cfg: Config, s: State, r: ProbeResult)
    requires Valid(s.proc) && s.proc.handle.Some?
    ensures
      var current := s.proc.handle.value;
      var p := ProbeStep(cfg, s, r).next.proc;
      && (LateExit(p, current) <==> Classify(r).Failure? && Restarts(cfg, s, Classify(r).cat))
      && (LateExit(p, current) ==>
            && Exit(p, current).next.handle.None?
            && p.handle.value in Running(Exit(p, current).next))
  {
  }

  /** No exit in `evs` is a late exit at the moment it arrives. */
  predicate NoLateExits(cfg: Config, s: State, evs: seq<Event>)
  {
    forall i :: 0 <= i < |evs| ==> !(evs[i].ChildExit? && LateExit(Run(cfg, s, evs[..i]).next.proc, evs[i].pid))
  }

  /** A run without late exits starts with a step that is not one, and continues without any. */
  lemma NoLateExitsTail(cfg: Config, s: State, evs: seq<Event>)
    requires evs != [] && NoLateExits(cfg, s, evs)
    ensures !(evs[0].ChildExit? && LateExit(s.proc, evs[0].pid))
    ensures NoLateExits(cfg, Step(cfg, s, evs[0]).next, evs[1..])
  {
    var first := Step(cfg, s, evs[0]);
    assert evs[..0] == [];
    forall i | 0 <= i < |evs[1..]|
      ensures !(evs[1..][i].ChildExit? && LateExit(Run(cfg, first.next, evs[1..][..i]).next.proc, evs[1..][i].pid))
    {
      var prefix := evs[..i + 1];
      assert prefix[0] == evs[0] && prefix[1..] == evs[1..][..i];
      RunCons(cfg, s, prefix);
      assert evs[1..][i] == evs[i + 1];
    }
  }

  /** Without late exits, at most one child is ever running. */
  lemma {:induction false} RunKeepsTracked(cfg: Config, s: State, evs: seq<Event>)
    requires Valid(s.proc) && Tracked(s.proc)
    requires NoLateExits(cfg, s, evs)
    ensures Tracked(Run(cfg, s, evs).next.proc)
    ensures |Running(Run(cfg, s, evs).next.proc)| <= 1
    decreases |evs|
  {
    if evs != [] {
      var first := Step(cfg, s, evs[0]);
      NoLateExitsTail(cfg, s, evs);
      StepKeepsTrackedIffNotLate(cfg, s, evs[0]);
      StepKeepsGoodProc(cfg, s, evs[0]);
      RunKeepsTracked(cfg, first.next, evs[1..]);
      RunCons(cfg, s, evs);
    } else {
      assert Running(s.proc) == AsSet(s.proc.handle);
    }
  }

  /** Every step keeps the process bookkeeping valid. */
  lemma StepKeepsGoodProc(cfg: Config, s: State, e: Event)
    requires Valid(s.proc)
    ensures Valid(Step(cfg, s, e).next.proc)
  {
  }
}
