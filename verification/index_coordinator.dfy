/**
 The coordinator object: mutable fields and the methods that update them. Each method
 runs from one suspension point to the next and is proved against the lane function of
 the same block; `Lease` runs a whole nested program and is proved against `Exec`.
 */
module IndexCoordinator {
  import opened Wrappers
  import opened IndexLane
  import opened LeasePrograms

  class IndexMaintenanceCoordinator {
    const allowConcurrentWrites: bool
    var taskLeases: map<Task, IndexLane.Lease>
    var exclusiveOwner: Option<Task>
    var activeSharedCount: int
    var waitingExclusiveCount: int
    var activeOperation: Option<string>
    var condition: map<Task, Waiter>

    function View(): Lane
      reads this
    {
      Lane(taskLeases, exclusiveOwner, activeSharedCount, waitingExclusiveCount, activeOperation, condition)
    }

    constructor (allowConcurrentWrites: bool)
      ensures View() == Empty && this.allowConcurrentWrites == allowConcurrentWrites
    {
      this.allowConcurrentWrites := allowConcurrentWrites;
      taskLeases := map[];
      exclusiveOwner := None;
      activeSharedCount := 0;
      waitingExclusiveCount := 0;
      activeOperation := None;
      condition := map[];
    }

    method EnterShared(t: Task, name: string)
      modifies this
      ensures View() == Grant(old(View()), t, name, Shared)
    {
      taskLeases := taskLeases[t := IndexLane.Lease(Shared, name, 1)];
      activeSharedCount := activeSharedCount + 1;
    }

    method EnterExclusive(t: Task, name: string)
      modifies this
      ensures View() == Grant(old(View()), t, name, Exclusive)
    {
      taskLeases := taskLeases[t := IndexLane.Lease(Exclusive, name, 1)];
      exclusiveOwner := Some(t);
      activeOperation := Some(name);
    }

    method AcquireLocal(t: Task, name: string, wait: bool, mode: Mode) returns (r: Reply)
      modifies this
      ensures (View(), r) == Acquire(old(View()), t, name, wait, mode)
    {
      if t in taskLeases {
        var existing := taskLeases[t];
        if existing.mode.Shared? && mode.Exclusive? {
          return UpgradeRefused;
        }
        taskLeases := taskLeases[t := existing.(depth := existing.depth + 1)];
        return Granted(false, existing.mode);
      }
      if mode.Shared? {
        if exclusiveOwner.Some? || waitingExclusiveCount > 0 {
          condition := condition[t := Waiter(Shared, name, false)];
          return Parked;
        }
        EnterShared(t, name);
        return Granted(true, Shared);
      }
      if !(exclusiveOwner.None? && activeSharedCount == 0) {
        if !wait {
          return Conflict;
        }
        waitingExclusiveCount := waitingExclusiveCount + 1;
        condition := condition[t := Waiter(Exclusive, name, false)];
        return Parked;
      }
      EnterExclusive(t, name);
      return Granted(true, Exclusive);
    }

    /** A short write asks for a lease and queues for it. */
    method AcquireForWrite(t: Task, name: string) returns (r: Reply)
      modifies this
      ensures (View(), r) == Acquire(old(View()), t, name, true, WriteMode(allowConcurrentWrites))
    {
      r := AcquireLocal(t, name, true, WriteMode(allowConcurrentWrites));
    }

    /** `Condition.wait` raises: it passes a notification on to `heir`, then the wait loop is left. */
    method CancelWait(t: Task, heir: Option<Task>)
      requires t in condition
      modifies this
      ensures View() == IndexLane.CancelWait(old(View()), t, heir)
    {
      if heir.Some? && heir.value in condition {
        condition := condition[heir.value := condition[heir.value].(notified := true)];
      }
      LeaveLoop(t);
    }

    /** Out of the wait loop; an exclusive waiter is no longer counted. */
    method LeaveLoop(t: Task)
      requires t in condition
      modifies this
      ensures View() == LeaveWait(old(View()), t)
    {
      if condition[t].mode.Exclusive? {
        waitingExclusiveCount := waitingExclusiveCount - 1;
      }
      condition := condition - {t};
    }

    method ResumeWait(t: Task) returns (r: Reply)
      requires t in condition
      modifies this
      ensures (View(), r) == Resume(old(View()), t)
    {
      var w := condition[t];
      if MayEnter(View(), w.mode) {
        LeaveLoop(t);
        if w.mode.Shared? {
          EnterShared(t, w.name);
        } else {
          EnterExclusive(t, w.name);
        }
        return Granted(true, w.mode);
      }
      condition := condition[t := w.(notified := false)];
      return Parked;
    }

    method ReleaseLocal(t: Task) returns (r: Reply)
      modifies this
      ensures (View(), r) == Release(old(View()), t)
    {
      if t !in taskLeases {
        return Unmatched;
      }
      var lease := taskLeases[t];
      if lease.depth - 1 > 0 {
        taskLeases := taskLeases[t := lease.(depth := lease.depth - 1)];
        return Released;
      }
      taskLeases := taskLeases - {t};
      if lease.mode.Exclusive? {
        exclusiveOwner := None;
        activeOperation := None;
      } else {
        activeSharedCount := activeSharedCount - 1;
      }
      condition := map u | u in condition :: condition[u].(notified := true);
      return Released;
    }

    /** The other tasks of the process run while `t` is suspended. */
    method RunOthers(t: Task, acts: seq<Act>)
      modifies this
      ensures View() == Others(old(View()), t, acts)
    {
      var i := 0;
      while i < |acts|
        invariant i <= |acts|
        invariant Others(View(), t, acts[i..]) == Others(old(View()), t, acts)
      {
        var a := acts[i];
        assert acts[i..][1..] == acts[i + 1..];
        if a.t != t && Enabled(View(), a) {
          match a
          case DoAcquire(u, name, wait, mode) => var _ := AcquireLocal(u, name, wait, mode);
          case DoResume(u) => var _ := ResumeWait(u);
          case DoCancel(u, heir) => CancelWait(u, heir);
          case DoRelease(u) => var _ := ReleaseLocal(u);
        }
        i := i + 1;
      }
    }

    /** The wait loop of a parked task, until it enters or is cancelled. */
    method WaitLoop(t: Task, turns: seq<seq<Act>>, heir: Option<Task>) returns (granted: bool)
      modifies this
      ensures (View(), granted) == WaitTurns(old(View()), t, turns, heir)
    {
      var i := 0;
      while i < |turns| && t in condition
        invariant i <= |turns|
        invariant WaitTurns(View(), t, turns[i..], heir) == WaitTurns(old(View()), t, turns, heir)
      {
        assert turns[i..][1..] == turns[i + 1..];
        RunOthers(t, turns[i]);
        if t in condition && condition[t].notified {
          var r := ResumeWait(t);
          if r.Granted? {
            return true;
          }
        }
        i := i + 1;
      }
      if t in condition {
        CancelWait(t, heir);
      }
      return false;
    }

    method FinallyRelease(t: Task, o: Outcome) returns (o': Outcome)
      modifies this
      ensures (View(), o') == Finish(old(View()), t, o)
    {
      var r := ReleaseLocal(t);
      o' := if r.Unmatched? || o.BrokenRelease? then BrokenRelease else o;
    }

    /** Runs one program of nested leases on this coordinator. */
    method Lease(t: Task, c: Code) returns (o: Outcome)
      modifies this
      ensures (View(), o) == Exec(old(View()), t, c)
      decreases c
    {
      match c
      case Pause(others) =>
        RunOthers(t, others);
        o := Normal;
      case Fail =>
        o := Raised;
      case Then(first, second) =>
        o := Lease(t, first);
        if o.Normal? {
          o := Lease(t, second);
        }
      case Catch(body) =>
        o := Lease(t, body);
        if o.Raised? {
          o := Normal;
        }
      case With(name, wait, mode, turns, heir, locking, fate, body, unlocking, unlockFails) =>
        var r := AcquireLocal(t, name, wait, mode);
        if r.Parked? {
          var granted := WaitLoop(t, turns, heir);
          if !granted {
            return Raised;
          }
        } else if r.Granted? && !r.outermost {
          o := Lease(t, body);
          o := FinallyRelease(t, o);
          return;
        } else if !r.Granted? {
          return Raised;
        }
        RunOthers(t, locking);
        if fate.Acquired? {
          o := Lease(t, body);
          RunOthers(t, unlocking);
          if o.Normal? && unlockFails {
            o := Raised;
          }
        } else {
          o := Raised;
        }
        o := FinallyRelease(t, o);
    }
  }
}
