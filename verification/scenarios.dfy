/**
 * Concrete runs of the supervisor: two threshold examples, and the late
 * exit that lets a second child run unsupervised.
 */
module Scenarios {
  import opened Wrappers
  import opened Outcomes
  import opened Config
  import opened Effects
  import opened Process
  import opened Streaks
  import opened Monitor
  import opened Runs

  /** Every category restarts after `n` consecutive failures. */
  function RestartAfter(n: int): Config
  {
    Config(Policy(n, "restart"), Policy(n, "restart"), Policy(n, "restart"))
  }

  const Forbid: Event := Probe(Response(403))
  const Healthy200: Event := Probe(Response(200))

  /** Three 403s in a row with threshold 3: one restart, and the 403 counter is back at 0. */
  lemma ThreeForbiddenRestartOnce()
    ensures
      var o := Run(RestartAfter(3), StartMonitoring().next, [Forbid, Forbid, Forbid]);
      |Spawned(o.effects)| == 1 && Get(o.next.streaks, Forbidden) == 0
  {
    var cfg := RestartAfter(3);
    var s := StartMonitoring().next;
    var evs := [Forbid, Forbid, Forbid];
    assert Positive(cfg);
    ZeroIsWithin(cfg);
    assert evs[1..] == [Forbid, Forbid] && evs[1..][1..] == [Forbid] && evs[1..][1..][1..] == [];
    assert Forbid == Probe(ProbeFor(Forbidden));
    assert Failures(evs[1..][1..], Forbidden) == 1;
    assert Failures(evs[1..], Forbidden) == 2;
    assert Failures(evs, Forbidden) == 3;
    ThresholdFailuresBreachOnce(cfg, s, evs, Forbidden);
    RestartsFollowBreaches(cfg, s, evs, Forbidden);
  }

  /** 403, 403, 200, 403 with threshold 3: no restart, and the 403 counter ends at 1. */
  lemma SuccessBreaksStreak()
    ensures
      var o := Run(RestartAfter(3), StartMonitoring().next, [Forbid, Forbid, Healthy200, Forbid]);
      Spawned(o.effects) == [] && Get(o.next.streaks, Forbidden) == 1
  {
    var cfg := RestartAfter(3);
    var s0 := StartMonitoring().next;
    var evs := [Forbid, Forbid, Healthy200, Forbid];
    var o1 := Step(cfg, s0, Forbid);
    var o2 := Step(cfg, o1.next, Forbid);
    var o3 := Step(cfg, o2.next, Healthy200);
    var o4 := Step(cfg, o3.next, Forbid);
    assert Get(o1.next.streaks, Forbidden) == 1 && Spawned(o1.effects) == [];
    assert Get(o2.next.streaks, Forbidden) == 2 && Spawned(o2.effects) == [];
    assert o3.next.streaks == Zero && Quiet(o3.effects);
    QuietSpawnsNothing(o3.effects);
    assert Get(o4.next.streaks, Forbidden) == 1 && Spawned(o4.effects) == [];
    RunCons(cfg, s0, evs);
    RunCons(cfg, o1.next, evs[1..]);
    RunCons(cfg, o2.next, evs[2..]);
    RunCons(cfg, o3.next, evs[3..]);
    assert evs[1..][1..] == evs[2..] && evs[2..][1..] == evs[3..] && evs[3..][1..] == [];
    var tail := Run(cfg, o3.next, evs[3..]);
    assert tail.next == o4.next && tail.effects == o4.effects + [];
    SpawnedAppend(o3.effects, tail.effects);
    SpawnedAppend(o2.effects, o3.effects + tail.effects);
    SpawnedAppend(o1.effects, o2.effects + (o3.effects + tail.effects));
  }

  /** A run of three events is its three steps in turn. */
  lemma RunThree(cfg: Config, s: State, e1: Event, e2: Event, e3: Event)
    ensures
      var o1 := Step(cfg, s, e1);
      var o2 := Step(cfg, o1.next, e2);
      var o3 := Step(cfg, o2.next, e3);
      && Run(cfg, s, [e1, e2, e3]).next == o3.next
      && Run(cfg, s, [e1, e2, e3]).effects == o1.effects + (o2.effects + o3.effects)
  {
    var evs := [e1, e2, e3];
    var o1 := Step(cfg, s, e1);
    var o2 := Step(cfg, o1.next, e2);
    assert evs[1..] == [e2, e3] && evs[1..][1..] == [e3] && evs[1..][1..][1..] == [];
    RunCons(cfg, s, evs);
    RunCons(cfg, o1.next, evs[1..]);
    RunCons(cfg, o2.next, evs[1..][1..]);
    var o3 := Step(cfg, o2.next, e3);
    assert o3.effects + [] == o3.effects;
  }

  /** Threshold 1, child 0 running: a 403 kills child 0 and spawns child 1. */
  lemma FirstRestart()
    ensures
      var o := Step(RestartAfter(1), StartMonitoring().next, Forbid);
      && o.next.proc == Proc(Some(1), {0, 1}, {0}, 2)
      && Spawned(o.effects) == [1] && Killed(o.effects) == [0]
  {
    assert StartMonitoring().next.proc == Proc(Some(0), {0}, {}, 1);
  }

  /** The late exit of child 0 clears the handle of child 1. */
  lemma LateExitOfKilledChild(s: State)
    requires s.proc == Proc(Some(1), {0, 1}, {0}, 2)
    ensures
      var o := Step(RestartAfter(1), s, ChildExit(0));
      && o.next.proc == Proc(None, {1}, {}, 2)
      && Spawned(o.effects) == [] && Killed(o.effects) == []
  {
    QuietSpawnsNothing(Step(RestartAfter(1), s, ChildExit(0)).effects);
  }

  /** With no handle, a 403 at threshold 1 spawns child 2 without killing anything. */
  lemma SecondRestart(s: State)
    requires s.proc == Proc(None, {1}, {}, 2)
    ensures
      var o := Step(RestartAfter(1), s, Forbid);
      && o.next.proc == Proc(Some(2), {1, 2}, {}, 3)
      && Spawned(o.effects) == [2] && Killed(o.effects) == []
  {
  }

  /**
   * Threshold 1: a 403 restarts child 0 into child 1; the late exit of the
   * killed child 0 clears child 1's handle; the next 403 then spawns child
   * 2 while child 1, never signalled, is still running.
   */
  lemma LateExitLeavesTwoChildren()
    ensures
      var o := Run(RestartAfter(1), StartMonitoring().next, [Forbid, ChildExit(0), Forbid]);
      && Running(o.next.proc) == {1, 2}
      && o.next.proc.handle == Some(2)
      && Spawned(o.effects) == [1, 2]
      && Killed(o.effects) == [0]
  {
    var cfg := RestartAfter(1);
    var s0 := StartMonitoring().next;
    var o1 := Step(cfg, s0, Forbid);
    FirstRestart();
    var o2 := Step(cfg, o1.next, ChildExit(0));
    LateExitOfKilledChild(o1.next);
    var o3 := Step(cfg, o2.next, Forbid);
    SecondRestart(o2.next);
    RunThree(cfg, s0, Forbid, ChildExit(0), Forbid);
    SpawnedAppend(o2.effects, o3.effects);
    SpawnedAppend(o1.effects, o2.effects + o3.effects);
    assert Spawned(o1.effects + (o2.effects + o3.effects)) == [1] + ([] + [2]) == [1, 2];
    assert Killed(o1.effects + (o2.effects + o3.effects)) == [0] + ([] + []) == [0];
    assert Running(o3.next.proc) == {1, 2};
  }
}
