/**
 * The child-process lifecycle: `startUBS`, `restartUBS` and the `exit`
 * listener each spawned child carries, over an optional process handle.
 *
 * Besides the handle, the model keeps two sets the source does not store
 * but the operating system does: `live`, the children spawned whose exit
 * has not been reported yet, and `killed`, those of them already sent a
 * kill signal. Pids are drawn from a counter, so each spawn is fresh.
 */
module Process {
  import opened Wrappers
  import opened Effects

  type Pid = nat

  datatype Proc = Proc(handle: Option<Pid>, live: set<Pid>, killed: set<Pid>, nextPid: Pid)

  /** No child yet (`ubsProcess = null`). */
  const Idle: Proc := Proc(None, {}, {}, 0)

  /** Bookkeeping facts every reachable process state satisfies. */
  predicate Valid(p: Proc)
  {
    && (forall q :: q in p.live ==> q < p.nextPid)
    && p.killed <= p.live
    && (p.handle.Some? ==> p.handle.value in p.live && p.handle.value !in p.killed)
  }

  /** Children still running: spawned, not yet exited and never signalled. */
  function Running(p: Proc): set<Pid>
  {
    p.live - p.killed
  }

  /** The handle accounts for every running child, and for nothing else. */
  predicate Tracked(p: Proc)
  {
    Running(p) == AsSet(p.handle)
  }

  /** `startUBS`: refuse when a handle is present, otherwise spawn one child and keep its handle. */
  function Start(p: Proc): (o: Out<Proc>)
    ensures p.handle.Some? ==> o.next == p && o.effects == [Log(Error, AlreadyRunning)]
    ensures p.handle.Some? ==> Spawned(o.effects) == [] && Killed(o.effects) == []
    ensures p.handle.None? ==> o.next.handle.Some? && Spawned(o.effects) == [o.next.handle.value]
    ensures p.handle.None? ==> Killed(o.effects) == []
    ensures p.handle.None? ==> o.next.live == p.live + {o.next.handle.value} && o.next.killed == p.killed
    ensures p.handle.None? && Valid(p) ==> o.next.handle.value !in p.live
    ensures Valid(p) ==> Valid(o.next)
    ensures Lifecycle(o.effects)
  {
    match p.handle
    case Some(_) =>
      Out(p, [Log(Error, AlreadyRunning)])
    case None =>
      var pid := p.nextPid;
      var effs := [Log(Info, Starting), Spawn(pid)];
      SpawnedPair(Log(Info, Starting), Spawn(pid));
      Out(Proc(Some(pid), p.live + {pid}, p.killed, pid + 1), effs)
  }

  /**
   * `restartUBS`: signal the child behind the handle (if any), forget the
   * handle, then start. The signalled child stays live until its exit is
   * reported.
   */
  function Restart(p: Proc): (o: Out<Proc>)
    ensures p.handle.None? ==> o == Start(p)
    ensures o.next.handle.Some? && Spawned(o.effects) == [o.next.handle.value]
    ensures p.handle.Some? ==>
      && |o.effects| == 4
      && o.effects[1] == Kill(p.handle.value)
      && o.effects[3] == Spawn(o.next.handle.value)
      && Killed(o.effects) == [p.handle.value]
    ensures o.next.live == p.live + {o.next.handle.value}
    ensures o.next.killed == p.killed + AsSet(p.handle)
    ensures Valid(p) ==> Valid(o.next) && o.next.handle.value !in p.live
    ensures Valid(p) && p.handle.Some? ==> o.next.handle.value != p.handle.value
    ensures Valid(p) ==> Running(o.next) == Running(p) - AsSet(p.handle) + {o.next.handle.value}
    ensures Lifecycle(o.effects)
  {
    match p.handle
    case None =>
      Start(p)
    case Some(current) =>
      var stopped := p.(handle := None, killed := p.killed + {current});
      var started := Start(stopped);
      var effs := [Log(Info, Restarting), Kill(current)];
      SpawnedPair(Log(Info, Restarting), Kill(current));
      SpawnedAppend(effs, started.effects);
      Out(started.next, effs + started.effects)
  }

  /**
   * The `exit` listener of child `pid`: log and clear the handle, whichever
   * child the handle refers to. A pid with no live child has no listener.
   */
  function Exit(p: Proc, pid: Pid): (o: Out<Proc>)
    ensures pid !in p.live ==> o == Out(p, [])
    ensures pid in p.live ==> o.next.handle.None? && o.effects == [Log(Error, Exited(pid))]
    ensures pid in p.live ==> o.next.live == p.live - {pid} && o.next.killed == p.killed - {pid}
    ensures Valid(p) ==> Valid(o.next)
    ensures Lifecycle(o.effects)
  {
    if pid in p.live then
      Out(p.(handle := None, live := p.live - {pid}, killed := p.killed - {pid}), [Log(Error, Exited(pid))])
    else
      Out(p, [])
  }

  /** The exit of a child that was already signalled, while a newer child holds the handle. */
  predicate LateExit(p: Proc, pid: Pid)
  {
    pid in p.killed && p.handle.Some?
  }

  /** Start and restart keep every running child tracked by the handle. */
  lemma StartRestartKeepTracked(p: Proc)
    requires Valid(p) && Tracked(p)
    ensures Tracked(Start(p).next)
    ensures Tracked(Restart(p).next)
    ensures |Running(Restart(p).next)| == 1
  {
    var q := Restart(p).next;
    assert Running(q) == {q.handle.value};
  }

  /**
   * An exit notification keeps the handle tracking the running children
   * exactly when it is not the late exit of a signalled child.
   */
  lemma ExitKeepsTrackedIffNotLate(p: Proc, pid: Pid)
    requires Valid(p) && Tracked(p)
    ensures Tracked(Exit(p, pid).next) <==> !LateExit(p, pid)
  {
    var q := Exit(p, pid).next;
    if LateExit(p, pid) {
      assert p.handle.value in Running(q);
    } else if pid in p.live {
      assert pid !in p.killed ==> pid in Running(p);
    }
  }
}
