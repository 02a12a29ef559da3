/**
 * What a step of the supervisor does to the outside world: log lines,
 * child spawns and kill signals, in the order the source performs them.
 */
module Effects {
  import opened Outcomes

  datatype Level = Info | Error

  /** The log lines the supervisor writes (timestamps are not modelled). */
  datatype Message =
    | AlreadyRunning
    | Starting
    | Exited(pid: nat)
    | Restarting
    | Healthy
    | StreakCount(cat: Category, count: int)
    | ConnectionRefused

  datatype Effect = Log(level: Level, msg: Message) | Spawn(pid: nat) | Kill(pid: nat)

  /** A successor value together with the effects that produced it. */
  datatype Out<+S> = Out(next: S, effects: seq<Effect>)

  /** The pids spawned by `effs`, in order. */
  function Spawned(effs: seq<Effect>): seq<nat>
  {
    if effs == [] then []
    else (if effs[0].Spawn? then [effs[0].pid] else []) + Spawned(effs[1..])
  }

  /** The pids signalled by `effs`, in order. */
  function Killed(effs: seq<Effect>): seq<nat>
  {
    if effs == [] then []
    else (if effs[0].Kill? then [effs[0].pid] else []) + Killed(effs[1..])
  }

  /** True when `effs` neither spawns nor kills a child. */
  predicate Quiet(effs: seq<Effect>)
  {
    forall i :: 0 <= i < |effs| ==> effs[i].Log?
  }

  /** True when `e` is the streak log line for `cat` with a count that reached `threshold`. */
  predicate IsBreach(e: Effect, cat: Category, threshold: int)
  {
    match e
    case Log(Error, StreakCount(c, n)) => c == cat && n >= threshold
    case _ => false
  }

  /** True when no effect of `effs` is a streak log line: lifecycle effects only. */
  predicate Lifecycle(effs: seq<Effect>)
  {
    forall i :: 0 <= i < |effs| ==> !(effs[i].Log? && effs[i].msg.StreakCount?)
  }

  /** The number of streak log lines for `cat` whose count reached `threshold`. */
  function Breaches(effs: seq<Effect>, cat: Category, threshold: int): nat
  {
    if effs == [] then 0
    else (if IsBreach(effs[0], cat, threshold) then 1 else 0) + Breaches(effs[1..], cat, threshold)
  }

  /** Spawned and Killed of a two-effect sequence. */
  lemma SpawnedPair(a: Effect, b: Effect)
    ensures Spawned([a, b]) == (if a.Spawn? then [a.pid] else []) + (if b.Spawn? then [b.pid] else [])
    ensures Killed([a, b]) == (if a.Kill? then [a.pid] else []) + (if b.Kill? then [b.pid] else [])
  {
    assert [a, b][1..] == [b];
    assert [b][1..] == [];
    var sb: seq<nat> := if b.Spawn? then [b.pid] else [];
    var kb: seq<nat> := if b.Kill? then [b.pid] else [];
    assert Spawned([b]) == sb + [] == sb;
    assert Killed([b]) == kb + [] == kb;
  }

  lemma {:induction false} SpawnedConcat(a: seq<Effect>, b: seq<Effect>)
    ensures Spawned(a + b) == Spawned(a) + Spawned(b)
    decreases |a|
  {
    if a == [] {
      assert a + b == b;
    } else {
      var head: seq<nat> := if a[0].Spawn? then [a[0].pid] else [];
      assert (a + b)[0] == a[0];
      assert (a + b)[1..] == a[1..] + b;
      assert Spawned(a + b) == head + Spawned(a[1..] + b);
      SpawnedConcat(a[1..], b);
      assert head + (Spawned(a[1..]) + Spawned(b)) == (head + Spawned(a[1..])) + Spawned(b);
    }
  }

  lemma {:induction false} KilledConcat(a: seq<Effect>, b: seq<Effect>)
    ensures Killed(a + b) == Killed(a) + Killed(b)
    decreases |a|
  {
    if a == [] {
      assert a + b == b;
    } else {
      var head: seq<nat> := if a[0].Kill? then [a[0].pid] else [];
      assert (a + b)[0] == a[0];
      assert (a + b)[1..] == a[1..] + b;
      assert Killed(a + b) == head + Killed(a[1..] + b);
      KilledConcat(a[1..], b);
      assert head + (Killed(a[1..]) + Killed(b)) == (head + Killed(a[1..])) + Killed(b);
    }
  }

  lemma QuietConcat(a: seq<Effect>, b: seq<Effect>)
    ensures Quiet(a + b) <==> Quiet(a) && Quiet(b)
  {
    if Quiet(a + b) {
      forall i | 0 <= i < |a|
        ensures a[i].Log?
      {
        assert a[i] == (a + b)[i];
      }
      forall i | 0 <= i < |b|
        ensures b[i].Log?
      {
        assert b[i] == (a + b)[|a| + i];
      }
    }
    if Quiet(a) && Quiet(b) {
      forall i | 0 <= i < |a + b|
        ensures (a + b)[i].Log?
      {
        if i < |a| {
          assert (a + b)[i] == a[i];
        } else {
          assert (a + b)[i] == b[i - |a|];
        }
      }
    }
  }

  /** Spawns, kills and quietness of a concatenation come from its parts. */
  lemma SpawnedAppend(a: seq<Effect>, b: seq<Effect>)
    ensures Spawned(a + b) == Spawned(a) + Spawned(b)
    ensures Killed(a + b) == Killed(a) + Killed(b)
    ensures Quiet(a + b) <==> Quiet(a) && Quiet(b)
  {
    SpawnedConcat(a, b);
    KilledConcat(a, b);
    QuietConcat(a, b);
  }

  lemma {:induction false} BreachesAppend(a: seq<Effect>, b: seq<Effect>, cat: Category, threshold: int)
    ensures Breaches(a + b, cat, threshold) == Breaches(a, cat, threshold) + Breaches(b, cat, threshold)
    decreases |a|
  {
    if a == [] {
      assert a + b == b;
    } else {
      assert (a + b)[1..] == a[1..] + b;
      BreachesAppend(a[1..], b, cat, threshold);
    }
  }

  /** Lifecycle effects record no breach. */
  lemma {:induction false} LifecycleHasNoBreach(effs: seq<Effect>, cat: Category, threshold: int)
    requires Lifecycle(effs)
    ensures Breaches(effs, cat, threshold) == 0
    decreases |effs|
  {
    if effs != [] {
      assert !IsBreach(effs[0], cat, threshold);
      LifecycleHasNoBreach(effs[1..], cat, threshold);
    }
  }

  /** Effects that only log neither spawn nor kill anything. */
  lemma {:induction false} QuietSpawnsNothing(effs: seq<Effect>)
    requires Quiet(effs)
    ensures Spawned(effs) == [] && Killed(effs) == []
    decreases |effs|
  {
    if effs != [] {
      QuietSpawnsNothing(effs[1..]);
    }
  }

  /** Applies `step` to each event of `evs` in turn, concatenating the effects. */
  function Fold<S, E>(step: (S, E) -> Out<S>, s: S, evs: seq<E>): Out<S>
    decreases |evs|
  {
    if evs == [] then Out(s, [])
    else
      var first := step(s, evs[0]);
      var rest := Fold(step, first.next, evs[1..]);
      Out(rest.next, first.effects + rest.effects)
  }

  /** Folding a concatenation is folding one part after the other. */
  lemma {:induction false} FoldAppend<S, E>(step: (S, E) -> Out<S>, s: S, a: seq<E>, b: seq<E>)
    ensures Fold(step, s, a + b).next == Fold(step, Fold(step, s, a).next, b).next
    ensures Fold(step, s, a + b).effects == Fold(step, s, a).effects + Fold(step, Fold(step, s, a).next, b).effects
    decreases |a|
  {
    if a == [] {
      assert a + b == b;
    } else {
      assert (a + b)[0] == a[0];
      assert (a + b)[1..] == a[1..] + b;
      FoldAppend(step, step(s, a[0]).next, a[1..], b);
    }
  }
}
