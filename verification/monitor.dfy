/**
 * The availability supervisor as a transition system: `monitorServer`
 * handling one completed probe, and the child's `exit` notification,
 * each taken as one atomic event.
 */
module Monitor {
  import opened Wrappers
  import opened Outcomes
  import opened Config
  import opened Effects
  import opened Process
  import opened Streaks

  datatype Event = Probe(result: ProbeResult) | ChildExit(pid: Pid)

  datatype State = State(streaks: Streaks, proc: Proc)

  /** Counters at zero, no child. */
  const Init: State := State(Zero, Idle)

  /** The invariant a reachable state keeps under a configuration with positive thresholds. */
  predicate Good(cfg: Config, s: State)
  {
    Within(cfg, s.streaks) && Valid(s.proc)
  }

  /** The probe that completes a streak of `cat`: its counter, once bumped, reaches the threshold. */
  predicate Breach(cfg: Config, s: State, cat: Category)
  {
    Get(s.streaks, cat) + 1 >= PolicyFor(cfg, cat).retrytimes
  }

  /** True when the probe step for `cat` in state `s` invokes `restartUBS`. */
  predicate Restarts(cfg: Config, s: State, cat: Category)
  {
    Breach(cfg, s, cat) && ParseAction(PolicyFor(cfg, cat).action) == Restart
  }

  /** `startMonitoring`'s first action: start the child from the initial state. */
  function StartMonitoring(): (o: Out<State>)
    ensures o.next.streaks == Zero
    ensures o.next.proc.handle.Some? && Spawned(o.effects) == [o.next.proc.handle.value]
    ensures Valid(o.next.proc) && Tracked(o.next.proc)
  {
    var started := Start(Init.proc);
    assert Running(started.next) == {started.next.handle.value};
    Out(Init.(proc := started.next), started.effects)
  }

  /** `monitorServer` once the probe has completed with result `r`. */
  function ProbeStep(cfg: Config, s: State, r: ProbeResult): (o: Out<State>)
    // Status 200 clears every counter and never restarts.
    ensures Classify(r) == Success ==>
      && (forall cat: Category :: Get(o.next.streaks, cat) == 0)
      && o.next.proc == s.proc
      && Quiet(o.effects)
    // A failure touches its own counter only; on a breach that counter
    // returns to 0, and the child restarts exactly when the action says so.
    ensures Classify(r).Failure? ==>
      var cat := Classify(r).cat;
      && (forall other: Category :: other != cat ==> Get(o.next.streaks, other) == Get(s.streaks, other))
      && (Breach(cfg, s, cat) ==> Get(o.next.streaks, cat) == 0)
      && (!Breach(cfg, s, cat) ==> Get(o.next.streaks, cat) == Get(s.streaks, cat) + 1)
      && |Spawned(o.effects)| == (if Restarts(cfg, s, cat) then 1 else 0)
      && (!Restarts(cfg, s, cat) ==> o.next.proc == s.proc && Quiet(o.effects))
      && (Restarts(cfg, s, cat) ==>
            && o.next.proc.handle.Some?
            && Spawned(o.effects) == [o.next.proc.handle.value]
            && Killed(o.effects) == (if s.proc.handle.Some? then [s.proc.handle.value] else []))
      && |o.effects| > 0 && o.effects[0] == Log(Error, StreakCount(cat, Get(s.streaks, cat) + 1))
    // A connection error or an unexpected status changes nothing.
    ensures Classify(r) == ConnectionFailure ==> o.next == s && o.effects == [Log(Error, ConnectionRefused)]
    ensures Classify(r) == Ignored ==> o.next == s && o.effects == []
    ensures Positive(cfg) && Within(cfg, s.streaks) ==> Within(cfg, o.next.streaks)
    ensures Valid(s.proc) ==> Valid(o.next.proc)
  {
    match Classify(r)
    case Success =>
      var effs := [Log(Info, Healthy)];
      Out(State(Zero, s.proc), effs)
    case Failure(cat) =>
      var count := Get(s.streaks, cat) + 1;
      var policy := PolicyFor(cfg, cat);
      var logged := [Log(Error, StreakCount(cat, count))];
      if count >= policy.retrytimes then
        var acted := if ParseAction(policy.action) == Restart then Process.Restart(s.proc) else Out(s.proc, []);
        SpawnedAppend(logged, acted.effects);
        Out(State(Set(s.streaks, cat, 0), acted.next), logged + acted.effects)
      else
        Out(State(Set(s.streaks, cat, count), s.proc), logged)
    case ConnectionFailure =>
      Out(s, [Log(Error, ConnectionRefused)])
    case Ignored =>
      Out(s, [])
  }

  /** The `exit` listener of child `pid`; the counters are not involved. */
  function ExitStep(s: State, pid: Pid): (o: Out<State>)
    ensures o.next.streaks == s.streaks
    ensures pid in s.proc.live ==> o.next.proc.handle.None?
    ensures Valid(s.proc) ==> Valid(o.next.proc)
    ensures Quiet(o.effects) && Lifecycle(o.effects)
  {
    var exited := Exit(s.proc, pid);
    Out(State(s.streaks, exited.next), exited.effects)
  }

  function Step(cfg: Config, s: State, e: Event): Out<State>
  {
    match e
    case Probe(r) => ProbeStep(cfg, s, r)
    case ChildExit(pid) => ExitStep(s, pid)
  }

  /** The events of `evs` handled one after another, effects concatenated. */
  function Run(cfg: Config, s: State, evs: seq<Event>): Out<State>
  {
    Fold((x: State, e: Event) => Step(cfg, x, e), s, evs)
  }
}
