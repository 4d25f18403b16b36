/**
 What one task does to the lane when it runs a tree of nested `operation` and
 `write_operation` blocks while other tasks run at every await.

 A `Code` value is one execution: the program of the task together with everything the
 environment decides, that is what the other tasks do at each await, how often a parked
 task gets a turn before it is cancelled, who is notified then, and how the process lock
 answers.
 */
module LeasePrograms {
  import opened Wrappers
  import opened IndexLane

  datatype LockFate = Acquired | Busy | CancelledWhileLocking

  datatype Code =
    | Pause(others: seq<Act>)
    | Fail
    | Then(first: Code, second: Code)
    | Catch(body: Code)
    | With(name: string, wait: bool, mode: Mode, turns: seq<seq<Act>>, heir: Option<Task>,
           locking: seq<Act>, fate: LockFate, body: Code, unlocking: seq<Act>, unlockFails: bool)

  datatype Outcome = Normal | Raised | BrokenRelease

  /** The other tasks act; an action of `t` itself or one that cannot happen is passed over. */
  function Others(l: Lane, t: Task, acts: seq<Act>): Lane
    decreases |acts|
  {
    if acts == [] then l
    else Others(if acts[0].t != t && Enabled(l, acts[0]) then Next(l, acts[0]) else l, t, acts[1..])
  }

  /** A parked task takes its turns; when they run out it is cancelled in the wait and `heir` is notified. */
  function WaitTurns(l: Lane, t: Task, turns: seq<seq<Act>>, heir: Option<Task>): (Lane, bool)
    decreases |turns|
  {
    if t !in l.waiters then (l, false)
    else if turns == [] then (CancelWait(l, t, heir), false)
    else
      var before := Others(l, t, turns[0]);
      if t in before.waiters && before.waiters[t].notified then
        var (after, reply) := Resume(before, t);
        if reply.Granted? then (after, true) else WaitTurns(after, t, turns[1..], heir)
      else WaitTurns(before, t, turns[1..], heir)
  }

  function Finish(l: Lane, t: Task, outcome: Outcome): (Lane, Outcome) {
    var (after, reply) := Release(l, t);
    (after, if reply.Unmatched? || outcome.BrokenRelease? then BrokenRelease else outcome)
  }

  function Exec(l: Lane, t: Task, c: Code): (Lane, Outcome)
    decreases c
  {
    match c
    case Pause(others) => (Others(l, t, others), Normal)
    case Fail => (l, Raised)
    case Then(first, second) =>
      var (mid, o) := Exec(l, t, first);
      if o.Normal? then Exec(mid, t, second) else (mid, o)
    case Catch(body) =>
      var (after, o) := Exec(l, t, body);
      (after, if o.Raised? then Normal else o)
    case With(name, wait, mode, turns, heir, locking, fate, body, unlocking, unlockFails) =>
      var (entered, reply) := Acquire(l, t, name, wait, mode);
      match reply
      case Parked =>
        var (after, granted) := WaitTurns(entered, t, turns, heir);
        if granted then ExecOutermost(after, t, c) else (after, Raised)
      case Granted(outermost, _) =>
        if outermost then ExecOutermost(entered, t, c)
        else
          var (after, o) := Exec(entered, t, body);
          Finish(after, t, o)
      case _ => (entered, Raised)
  }

  /** The outermost block holds the process lock around its body. */
  function ExecOutermost(l: Lane, t: Task, c: Code): (Lane, Outcome)
    requires c.With?
    decreases c, 0
  {
    var locked := Others(l, t, c.locking);
    if !c.fate.Acquired? then Finish(locked, t, Raised)
    else
      var (after, o) := Exec(locked, t, c.body);
      Finish(Others(after, t, c.unlocking), t, if o.Normal? && c.unlockFails then Raised else o)
  }

  // ---------- restoration ----------

  lemma {:induction false} OthersFrame(l: Lane, t: Task, acts: seq<Act>)
    requires Consistent(l)
    ensures var n := Others(l, t, acts); Consistent(n) && SameLease(l, n, t) && SameWait(l, n, t)
    decreases |acts|
  {
    if acts != [] {
      var n := l;
      if acts[0].t != t && Enabled(l, acts[0]) {
        n := Next(l, acts[0]);
        StepConsistent(l, acts[0]);
        StepFramesOthers(l, t, acts[0]);
      }
      OthersFrame(n, t, acts[1..]);
    }
  }

  lemma {:induction false} WaitTurnsEnds(l: Lane, t: Task, turns: seq<seq<Act>>, heir: Option<Task>, mode: Mode)
    requires Consistent(l) && t in l.waiters && l.waiters[t].mode == mode
    ensures var (n, granted) := WaitTurns(l, t, turns, heir);
            && Consistent(n) && t !in n.waiters
            && (granted ==> t in n.leases && n.leases[t].depth == 1 && n.leases[t].mode == mode)
            && (!granted ==> t !in n.leases)
    decreases |turns|
  {
    if turns == [] {
      CancelWaitConsistent(l, t, heir);
    } else {
      var before := Others(l, t, turns[0]);
      OthersFrame(l, t, turns[0]);
      if before.waiters[t].notified {
        StepConsistent(before, DoResume(t));
        var (after, reply) := Resume(before, t);
        if !reply.Granted? {
          WaitTurnsEnds(after, t, turns[1..], heir, mode);
        }
      } else {
        WaitTurnsEnds(before, t, turns[1..], heir, mode);
      }
    }
  }

  /** The task is back where it was: the same lease and depth, and not in any wait loop. */
  ghost predicate Restored(l: Lane, t: Task, r: (Lane, Outcome)) {
    Consistent(r.0) && t !in r.0.waiters && SameLease(l, r.0, t) && !r.1.BrokenRelease?
  }

  /**
   Any tree of nested blocks, with bodies that raise, refused upgrades, fail-fast and
   process-lock conflicts, cancellation at every await and any interleaving of other
   tasks, leaves the task's lease and depth as it found them, leaks no waiting count and
   never raises the unmatched-release error.
   */
  lemma {:induction false} ProgramRestoresLease(l: Lane, t: Task, c: Code)
    requires Consistent(l) && t !in l.waiters
    ensures Restored(l, t, Exec(l, t, c))
    decreases c, 2
  {
    match c
    case Pause(others) => OthersFrame(l, t, others);
    case Fail =>
    case Then(first, second) =>
      ProgramRestoresLease(l, t, first);
      ProgramRestoresLease(Exec(l, t, first).0, t, second);
    case Catch(body) => ProgramRestoresLease(l, t, body);
    case With(_, _, _, _, _, _, _, _, _, _) => BlockRestoresLease(l, t, c);
  }

  lemma {:induction false} BlockRestoresLease(l: Lane, t: Task, c: Code)
    requires c.With? && Consistent(l) && t !in l.waiters
    ensures Restored(l, t, Exec(l, t, c))
    decreases c, 1
  {
    StepConsistent(l, DoAcquire(t, c.name, c.wait, c.mode));
    var (entered, reply) := Acquire(l, t, c.name, c.wait, c.mode);
    if reply.Parked? {
      WaitTurnsEnds(entered, t, c.turns, c.heir, c.mode);
      var (after, granted) := WaitTurns(entered, t, c.turns, c.heir);
      if granted {
        OutermostLeaves(after, t, c);
      }
    } else if reply.Granted? && reply.outermost {
      OutermostLeaves(entered, t, c);
    } else if reply.Granted? {
      ProgramRestoresLease(entered, t, c.body);
      var (after, o) := Exec(entered, t, c.body);
      FinishLeaves(after, t, o);
    }
  }

  lemma {:induction false} OutermostLeaves(l: Lane, t: Task, c: Code)
    requires c.With? && Consistent(l) && t !in l.waiters && t in l.leases && l.leases[t].depth == 1
    ensures var r := ExecOutermost(l, t, c);
            Consistent(r.0) && t !in r.0.waiters && t !in r.0.leases && !r.1.BrokenRelease?
    decreases c, 0
  {
    var locked := Others(l, t, c.locking);
    OthersFrame(l, t, c.locking);
    if c.fate.Acquired? {
      ProgramRestoresLease(locked, t, c.body);
      var (after, o) := Exec(locked, t, c.body);
      OthersFrame(after, t, c.unlocking);
      FinishLeaves(Others(after, t, c.unlocking), t, if o.Normal? && c.unlockFails then Raised else o);
    } else {
      FinishLeaves(locked, t, Raised);
    }
  }

  /** The `finally` gives up exactly one level of the lease. */
  lemma FinishLeaves(l: Lane, t: Task, o: Outcome)
    requires Consistent(l) && t !in l.waiters && t in l.leases && !o.BrokenRelease?
    ensures var r := Finish(l, t, o);
            && Consistent(r.0) && t !in r.0.waiters && r.1 == o
            && (l.leases[t].depth == 1 ==> t !in r.0.leases)
            && (l.leases[t].depth > 1 ==> t in r.0.leases && r.0.leases[t] == l.leases[t].(depth := l.leases[t].depth - 1))
  {
    ReleaseConsistent(l, t);
  }

  // ---------- how a wait ends ----------

  /** The lane after the others had their time and the task its turn, if it was notified. */
  function AfterTurn(l: Lane, t: Task, others: seq<Act>): Lane {
    var before := Others(l, t, others);
    if t in before.waiters && before.waiters[t].notified then Resume(before, t).0 else before
  }

  function AfterTurns(l: Lane, t: Task, turns: seq<seq<Act>>, k: nat): Lane
    requires k <= |turns|
    decreases k
  {
    if k == 0 then l else AfterTurns(AfterTurn(l, t, turns[0]), t, turns[1..], k - 1)
  }

  /** At turn `k` the task still waits, has been notified and finds its guard open. */
  predicate ReadyAt(l: Lane, t: Task, turns: seq<seq<Act>>, k: nat)
    requires k < |turns|
  {
    var before := Others(AfterTurns(l, t, turns, k), t, turns[k]);
    t in before.waiters && before.waiters[t].notified && MayEnter(before, before.waiters[t].mode)
  }

  /** A wait is granted exactly if some turn finds the task notified and its guard open; else it ends cancelled. */
  lemma {:induction false} WaitIsGrantedExactlyWhen(l: Lane, t: Task, turns: seq<seq<Act>>, heir: Option<Task>)
    requires Consistent(l) && t in l.waiters
    ensures WaitTurns(l, t, turns, heir).1 <==> exists k :: 0 <= k < |turns| && ReadyAt(l, t, turns, k)
    decreases |turns|
  {
    if turns != [] {
      OthersFrame(l, t, turns[0]);
      var before := Others(l, t, turns[0]);
      var next := AfterTurn(l, t, turns[0]);
      ResumeIsExact(before, t);
      if ReadyAt(l, t, turns, 0) {
        assert WaitTurns(l, t, turns, heir).1;
      } else {
        if before.waiters[t].notified {
          StepConsistent(before, DoResume(t));
        }
        assert WaitTurns(l, t, turns, heir) == WaitTurns(next, t, turns[1..], heir);
        WaitIsGrantedExactlyWhen(next, t, turns[1..], heir);
        forall k: nat | 0 < k < |turns| ensures ReadyAt(l, t, turns, k) <==> ReadyAt(next, t, turns[1..], k - 1) {
          assert turns[1..][k - 1] == turns[k];
        }
        if k :| 0 <= k < |turns[1..]| && ReadyAt(next, t, turns[1..], k) {
          assert ReadyAt(l, t, turns, k + 1);
        }
      }
    }
  }

  // ---------- how a block ends ----------

  /** The lane and whether the task got in, after an acquire and the wait that may follow it. */
  function Admission(l: Lane, t: Task, c: Code): (Lane, bool)
    requires c.With?
  {
    var (entered, reply) := Acquire(l, t, c.name, c.wait, c.mode);
    if reply.Parked? then WaitTurns(entered, t, c.turns, c.heir) else (entered, reply.Granted?)
  }

  /**
   The block of a task without a lease whose process lock is not acquired never runs its body and
   ends in an error, with nothing held.
   */
  lemma NoBodyWithoutProcessLock(l: Lane, t: Task, c: Code, other: Code)
    requires c.With? && Consistent(l) && t !in l.leases && t !in l.waiters && !c.fate.Acquired?
    ensures Exec(l, t, c).1 == Raised
    ensures Exec(l, t, c.(body := other)) == Exec(l, t, c)
    ensures t !in Exec(l, t, c).0.leases
  {
    AcquireIsExact(l, t, c.name, c.wait, c.mode);
    ProgramRestoresLease(l, t, c);
  }

  /** Nor does a block that is not admitted: a conflict, a refused upgrade or a cancelled wait. */
  lemma NoBodyWithoutAdmission(l: Lane, t: Task, c: Code, other: Code)
    requires c.With? && !Admission(l, t, c).1
    ensures Exec(l, t, c) == (Admission(l, t, c).0, Raised)
    ensures Exec(l, t, c.(body := other)) == Exec(l, t, c)
  {
  }

  /** An inner block does not touch the process lock: neither its fate nor its answers matter. */
  lemma InnerBlockNeedsNoProcessLock(l: Lane, t: Task, c: Code, locking: seq<Act>, fate: LockFate, unlocking: seq<Act>, unlockFails: bool)
    requires c.With? && t in l.leases
    ensures Exec(l, t, c) == Exec(l, t, c.(locking := locking, fate := fate, unlocking := unlocking, unlockFails := unlockFails))
  {
    AcquireIsExact(l, t, c.name, c.wait, c.mode);
  }

  /**
   An admitted block of a task without a lease runs its body under a lease of its mode and under the
   process lock, and ends as the body does, except that a failing unlock turns a normal end into an error.
   */
  lemma OutermostBlockEnds(l: Lane, t: Task, c: Code)
    requires c.With? && Consistent(l) && t !in l.leases && t !in l.waiters && Admission(l, t, c).1 && c.fate.Acquired?
    ensures var inside := Others(Admission(l, t, c).0, t, c.locking);
            && t in inside.leases && inside.leases[t].depth == 1 && inside.leases[t].mode == c.mode
            && Exec(l, t, c).1 == if Exec(inside, t, c.body).1.Normal? && c.unlockFails then Raised else Exec(inside, t, c.body).1
  {
    StepConsistent(l, DoAcquire(t, c.name, c.wait, c.mode));
    AcquireIsExact(l, t, c.name, c.wait, c.mode);
    var (entered, reply) := Acquire(l, t, c.name, c.wait, c.mode);
    if reply.Parked? {
      WaitTurnsEnds(entered, t, c.turns, c.heir, c.mode);
    }
    var admitted := Admission(l, t, c).0;
    OutermostEnds(admitted, t, c);
  }

  lemma OutermostEnds(l: Lane, t: Task, c: Code)
    requires c.With? && Consistent(l) && t !in l.waiters && t in l.leases && l.leases[t].depth == 1 && c.fate.Acquired?
    ensures var inside := Others(l, t, c.locking);
            && t in inside.leases && inside.leases[t] == l.leases[t]
            && ExecOutermost(l, t, c).1 == if Exec(inside, t, c.body).1.Normal? && c.unlockFails then Raised else Exec(inside, t, c.body).1
  {
    var inside := Others(l, t, c.locking);
    OthersFrame(l, t, c.locking);
    ProgramRestoresLease(inside, t, c.body);
    var (after, o) := Exec(inside, t, c.body);
    OthersFrame(after, t, c.unlocking);
    FinishLeaves(Others(after, t, c.unlocking), t, if o.Normal? && c.unlockFails then Raised else o);
  }

  /** An inner block runs its body one level deeper and ends as it does. */
  lemma InnerBlockEnds(l: Lane, t: Task, c: Code)
    requires c.With? && Consistent(l) && t in l.leases && t !in l.waiters
    requires !(l.leases[t].mode.Shared? && c.mode.Exclusive?)
    ensures var inside := l.(leases := l.leases[t := l.leases[t].(depth := l.leases[t].depth + 1)]);
            Exec(l, t, c).1 == Exec(inside, t, c.body).1
  {
    AcquireIsExact(l, t, c.name, c.wait, c.mode);
    StepConsistent(l, DoAcquire(t, c.name, c.wait, c.mode));
    var inside := Acquire(l, t, c.name, c.wait, c.mode).0;
    ProgramRestoresLease(inside, t, c.body);
    FinishLeaves(Exec(inside, t, c.body).0, t, Exec(inside, t, c.body).1);
  }

  /** Sequencing is associative, an error skips what follows it, and a caught program does not raise. */
  lemma ControlFlow(l: Lane, t: Task, a: Code, b: Code, c: Code)
    ensures Exec(l, t, Then(Then(a, b), c)) == Exec(l, t, Then(a, Then(b, c)))
    ensures Exec(l, t, Then(Pause([]), a)) == Exec(l, t, a)
    ensures Exec(l, t, Then(a, Pause([]))) == Exec(l, t, a)
    ensures Exec(l, t, Then(Fail, a)) == (l, Raised)
    ensures !Exec(l, t, Catch(a)).1.Raised? && Exec(l, t, Catch(a)).0 == Exec(l, t, a).0
    ensures !Exec(l, t, a).1.Raised? ==> Exec(l, t, Catch(a)) == Exec(l, t, a)
  {
  }
}
