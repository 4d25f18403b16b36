/**
 The local lane of the index maintenance coordinator: a re-entrant shared/exclusive
 lock on one condition variable, in one process.

 The condition's mutex is never held across a suspension point, so every stretch of
 code between two awaits is one atomic block. Each block is one function of this
 module; a waiter is the continuation of a task suspended in `Condition.wait`, and
 `notified` says that it has been notified since it was suspended. A wait that is cancelled
 passes one notification on before it raises, as `asyncio` does from Python 3.13 on; which
 of the sleeping waiters gets it is an argument.
 */
module IndexLane {
  import opened Wrappers

  datatype Task = Task(pid: nat, id: nat)

  datatype Mode = Shared | Exclusive

  datatype Lease = Lease(mode: Mode, name: string, depth: int)

  datatype Waiter = Waiter(mode: Mode, name: string, notified: bool)

  datatype Lane = Lane(
    leases: map<Task, Lease>,
    owner: Option<Task>,
    activeShared: int,
    waitingExclusive: int,
    activeOperation: Option<string>,
    waiters: map<Task, Waiter>)

  datatype Reply =
    | Granted(outermost: bool, mode: Mode)
    | Parked
    | Conflict
    | UpgradeRefused
    | Cancelled
    | Released
    | Unmatched

  const Empty := Lane(map[], None, 0, 0, None, map[])

  /** The lease a short write asks for. */
  function WriteMode(allowConcurrentWrites: bool): Mode {
    if allowConcurrentWrites then Shared else Exclusive
  }

  // ---------- the atomic blocks ----------

  predicate ExclusiveAvailable(l: Lane) {
    l.owner.None? && l.activeShared == 0
  }

  predicate SharedBlocked(l: Lane) {
    l.owner.Some? || l.waitingExclusive > 0
  }

  predicate MayEnter(l: Lane, mode: Mode) {
    match mode
    case Shared => !SharedBlocked(l)
    case Exclusive => ExclusiveAvailable(l)
  }

  function Grant(l: Lane, t: Task, name: string, mode: Mode): Lane {
    var leases := l.leases[t := Lease(mode, name, 1)];
    match mode
    case Shared => l.(leases := leases, activeShared := l.activeShared + 1)
    case Exclusive => l.(leases := leases, owner := Some(t), activeOperation := Some(name))
  }

  function SetDepth(l: Lane, t: Task, depth: int): Lane
    requires t in l.leases
  {
    l.(leases := l.leases[t := l.leases[t].(depth := depth)])
  }

  function Park(l: Lane, t: Task, name: string, mode: Mode): Lane {
    l.(waiters := l.waiters[t := Waiter(mode, name, false)])
  }

  /** From the call of `_acquire_local` to its return, its exception or its first wait. */
  function Acquire(l: Lane, t: Task, name: string, wait: bool, mode: Mode): (Lane, Reply) {
    if t in l.leases then
      var lease := l.leases[t];
      if lease.mode.Shared? && mode.Exclusive? then (l, UpgradeRefused)
      else (SetDepth(l, t, lease.depth + 1), Granted(false, lease.mode))
    else if MayEnter(l, mode) then (Grant(l, t, name, mode), Granted(true, mode))
    else if mode.Shared? then (Park(l, t, name, mode), Parked)
    else if !wait then (l, Conflict)
    else (Park(l.(waitingExclusive := l.waitingExclusive + 1), t, name, mode), Parked)
  }

  /** A waiter leaves the wait loop; an exclusive one runs its `finally` on the way out. */
  function LeaveWait(l: Lane, t: Task): Lane
    requires t in l.waiters
  {
    var gone := l.(waiters := l.waiters - {t});
    if l.waiters[t].mode.Exclusive? then gone.(waitingExclusive := l.waitingExclusive - 1) else gone
  }

  /** `heir` may get the notification of a cancelled wait: a sleeping waiter, or nobody if none is asleep. */
  predicate PassesOn(l: Lane, t: Task, heir: Option<Task>) {
    match heir
    case Some(u) => u != t && u in l.waiters && !l.waiters[u].notified
    case None => forall u :: u in l.waiters && u != t ==> l.waiters[u].notified
  }

  function Notify(l: Lane, heir: Option<Task>): Lane {
    if heir.Some? && heir.value in l.waiters then
      l.(waiters := l.waiters[heir.value := l.waiters[heir.value].(notified := true)])
    else l
  }

  /** A cancelled wait: `Condition.wait` passes a notification on and raises, then the task leaves the loop. */
  function CancelWait(l: Lane, t: Task, heir: Option<Task>): Lane
    requires t in l.waiters
  {
    LeaveWait(Notify(l, heir), t)
  }

  /** One turn of the wait loop: the guard is read again, then the task enters or waits again. */
  function Resume(l: Lane, t: Task): (Lane, Reply)
    requires t in l.waiters
  {
    var w := l.waiters[t];
    if MayEnter(l, w.mode) then (Grant(LeaveWait(l, t), t, w.name, w.mode), Granted(true, w.mode))
    else (Park(l, t, w.name, w.mode), Parked)
  }

  function NotifyAll(l: Lane): Lane {
    l.(waiters := map u | u in l.waiters :: l.waiters[u].(notified := true))
  }

  function Release(l: Lane, t: Task): (Lane, Reply) {
    if t !in l.leases then (l, Unmatched)
    else
      var lease := l.leases[t];
      if lease.depth - 1 > 0 then
        (SetDepth(l, t, lease.depth - 1), Released)
      else (NotifyAll(Drop(l, t)), Released)
  }

  /** The last level of a lease is gone. */
  function Drop(l: Lane, t: Task): Lane
    requires t in l.leases
  {
    var freed := l.(leases := l.leases - {t});
    if l.leases[t].mode.Exclusive? then freed.(owner := None, activeOperation := None)
    else freed.(activeShared := l.activeShared - 1)
  }

  // ---------- runs ----------

  datatype Act =
    | DoAcquire(t: Task, name: string, wait: bool, mode: Mode)
    | DoResume(t: Task)
    | DoCancel(t: Task, heir: Option<Task>)
    | DoRelease(t: Task)

  predicate Enabled(l: Lane, a: Act) {
    match a
    case DoAcquire(t, _, _, _) => t !in l.waiters
    case DoResume(t) => t in l.waiters && l.waiters[t].notified
    case DoCancel(t, heir) => t in l.waiters && PassesOn(l, t, heir)
    case DoRelease(t) => t in l.leases
  }

  function Next(l: Lane, a: Act): Lane
    requires Enabled(l, a)
  {
    match a
    case DoAcquire(t, name, wait, mode) => Acquire(l, t, name, wait, mode).0
    case DoResume(t) => Resume(l, t).0
    case DoCancel(t, heir) => CancelWait(l, t, heir)
    case DoRelease(t) => Release(l, t).0
  }

  /** `states` is what a lane goes through when the actions happen one after the other. */
  ghost predicate IsRun(states: seq<Lane>, acts: seq<Act>) {
    && |states| == |acts| + 1
    && forall i :: 0 <= i < |acts| ==> Enabled(states[i], acts[i]) && states[i + 1] == Next(states[i], acts[i])
  }

  // ---------- bookkeeping ----------

  function Holding(leases: map<Task, Lease>, mode: Mode): set<Task> {
    set t | t in leases && leases[t].mode == mode
  }

  function Waiting(waiters: map<Task, Waiter>, mode: Mode): set<Task> {
    set t | t in waiters && waiters[t].mode == mode
  }

  lemma HoldingAfter(leases: map<Task, Lease>, t: Task, lease: Lease, mode: Mode)
    ensures Holding(leases[t := lease], mode) == Holding(leases, mode) - {t} + (if lease.mode == mode then {t} else {})
    ensures Holding(leases - {t}, mode) == Holding(leases, mode) - {t}
  {
  }

  lemma WaitingAfter(waiters: map<Task, Waiter>, t: Task, w: Waiter, mode: Mode)
    ensures Waiting(waiters[t := w], mode) == Waiting(waiters, mode) - {t} + (if w.mode == mode then {t} else {})
    ensures Waiting(waiters - {t}, mode) == Waiting(waiters, mode) - {t}
  {
  }

  lemma WaitingNotified(l: Lane, mode: Mode)
    ensures Waiting(NotifyAll(l).waiters, mode) == Waiting(l.waiters, mode)
  {
  }

  ghost predicate Consistent(l: Lane) {
    && (forall t :: t in l.leases ==> t !in l.waiters)
    && (l.owner.None? ==> forall t :: t in l.leases ==> l.leases[t].mode.Shared?)
    && (l.owner.Some? ==> l.owner.value in l.leases && l.leases[l.owner.value].mode.Exclusive?)
    && (l.owner.Some? ==> forall t :: t in l.leases ==> t == l.owner.value)
    && l.activeShared == |Holding(l.leases, Shared)|
    && l.waitingExclusive == |Waiting(l.waiters, Exclusive)|
    && (forall t :: t in l.leases ==> l.leases[t].depth >= 1)
    && (l.owner.None? ==> l.activeOperation.None?)
    && (l.owner.Some? ==> l.activeOperation == Some(l.leases[l.owner.value].name))
  }

  lemma GrantSharedConsistent(l: Lane, t: Task, name: string)
    requires Consistent(l) && t !in l.leases && t !in l.waiters && l.owner.None?
    ensures Consistent(Grant(l, t, name, Shared))
  {
    HoldingAfter(l.leases, t, Lease(Shared, name, 1), Shared);
  }

  lemma GrantExclusiveConsistent(l: Lane, t: Task, name: string)
    requires Consistent(l) && t !in l.leases && t !in l.waiters && ExclusiveAvailable(l)
    ensures Consistent(Grant(l, t, name, Exclusive))
  {
    HoldingAfter(l.leases, t, Lease(Exclusive, name, 1), Shared);
    assert l.leases.Keys == Holding(l.leases, Shared);
  }

  lemma LeaveWaitConsistent(l: Lane, t: Task)
    requires Consistent(l) && t in l.waiters
    ensures Consistent(LeaveWait(l, t))
  {
    WaitingAfter(l.waiters, t, l.waiters[t], Exclusive);
  }

  lemma CancelWaitConsistent(l: Lane, t: Task, heir: Option<Task>)
    requires Consistent(l) && t in l.waiters
    ensures Consistent(CancelWait(l, t, heir))
  {
    if heir.Some? && heir.value in l.waiters {
      WaitingAfter(l.waiters, heir.value, l.waiters[heir.value].(notified := true), Exclusive);
    }
    LeaveWaitConsistent(Notify(l, heir), t);
  }

  /** The count matches again once a new exclusive waiter is parked; parking again changes nothing. */
  lemma ParkConsistent(l: Lane, t: Task, name: string, mode: Mode, isNew: int)
    requires Consistent(l) && t !in l.leases
    requires t in l.waiters ==> l.waiters[t].mode == mode
    requires isNew == if mode.Exclusive? && t !in l.waiters then 1 else 0
    ensures Consistent(Park(l.(waitingExclusive := l.waitingExclusive + isNew), t, name, mode))
  {
    WaitingAfter(l.waiters, t, Waiter(mode, name, false), Exclusive);
  }

  lemma SetDepthConsistent(l: Lane, t: Task, depth: int)
    requires Consistent(l) && t in l.leases && depth >= 1
    ensures Consistent(SetDepth(l, t, depth))
  {
    HoldingAfter(l.leases, t, l.leases[t].(depth := depth), Shared);
  }

  lemma NotifyConsistent(l: Lane)
    requires Consistent(l)
    ensures Consistent(NotifyAll(l))
  {
    WaitingNotified(l, Exclusive);
  }

  lemma DropConsistent(l: Lane, t: Task)
    requires Consistent(l) && t in l.leases
    ensures Consistent(Drop(l, t))
  {
    HoldingAfter(l.leases, t, l.leases[t], Shared);
  }

  lemma ReleaseConsistent(l: Lane, t: Task)
    requires Consistent(l) && t in l.leases
    ensures Consistent(Release(l, t).0)
  {
    if l.leases[t].depth > 1 {
      SetDepthConsistent(l, t, l.leases[t].depth - 1);
    } else {
      DropConsistent(l, t);
      NotifyConsistent(Drop(l, t));
    }
  }

  lemma AcquireConsistent(l: Lane, t: Task, name: string, wait: bool, mode: Mode)
    requires Consistent(l) && t !in l.waiters
    ensures Consistent(Acquire(l, t, name, wait, mode).0)
  {
    if t in l.leases {
      SetDepthConsistent(l, t, l.leases[t].depth + 1);
    } else if MayEnter(l, mode) {
      if mode.Shared? { GrantSharedConsistent(l, t, name); } else { GrantExclusiveConsistent(l, t, name); }
    } else if mode.Shared? || wait {
      ParkConsistent(l, t, name, mode, if mode.Exclusive? then 1 else 0);
    }
  }

  /** Every atomic block of the coordinator keeps the bookkeeping. */
  lemma StepConsistent(l: Lane, a: Act)
    requires Consistent(l) && Enabled(l, a)
    ensures Consistent(Next(l, a))
  {
    match a
    case DoAcquire(t, name, wait, mode) => AcquireConsistent(l, t, name, wait, mode);
    case DoResume(t) =>
      var w := l.waiters[t];
      if MayEnter(l, w.mode) {
        LeaveWaitConsistent(l, t);
        var n := LeaveWait(l, t);
        if w.mode.Shared? { GrantSharedConsistent(n, t, w.name); } else { GrantExclusiveConsistent(n, t, w.name); }
      } else {
        ParkConsistent(l, t, w.name, w.mode, 0);
      }
    case DoCancel(t, heir) => CancelWaitConsistent(l, t, heir);
    case DoRelease(t) => ReleaseConsistent(l, t);
  }

  /** The bookkeeping holds in every state of every run, cancellations included. */
  lemma {:induction false} RunConsistent(states: seq<Lane>, acts: seq<Act>, k: nat)
    requires IsRun(states, acts) && Consistent(states[0]) && k < |states|
    ensures Consistent(states[k])
  {
    if k > 0 {
      RunConsistent(states, acts, k - 1);
      StepConsistent(states[k - 1], acts[k - 1]);
    }
  }

  /** An owner exists exactly when the single lease is that task's exclusive lease. */
  lemma OwnerIffSoleExclusiveLease(states: seq<Lane>, acts: seq<Act>, k: nat, t: Task)
    requires IsRun(states, acts) && states[0] == Empty && k < |states|
    ensures states[k].owner == Some(t) <==>
            states[k].leases.Keys == {t} && states[k].leases[t].mode.Exclusive?
    ensures t in states[k].leases && states[k].leases[t].mode.Exclusive? ==> states[k].leases.Keys == {t}
  {
    EmptyConsistent();
    RunConsistent(states, acts, k);
    var l := states[k];
    if l.leases.Keys == {t} {
      assert t in l.leases;
      if l.owner.Some? {
        assert l.owner.value in l.leases.Keys;
      }
    }
  }

  lemma EmptyConsistent()
    ensures Consistent(Empty)
  {
    assert Holding(Empty.leases, Shared) == {} && Waiting(Empty.waiters, Exclusive) == {};
  }

  // ---------- what a step does to one task ----------

  ghost predicate SameLease(l: Lane, n: Lane, t: Task) {
    && (t in l.leases <==> t in n.leases)
    && (t in l.leases ==> n.leases[t] == l.leases[t])
  }

  /** The wait goes on as it was, but it may have been notified. */
  ghost predicate SameWait(l: Lane, n: Lane, t: Task) {
    && (t in l.waiters <==> t in n.waiters)
    && (t in l.waiters ==> n.waiters[t] == l.waiters[t] || n.waiters[t] == l.waiters[t].(notified := true))
  }

  lemma StepFramesOthers(l: Lane, t: Task, a: Act)
    requires Consistent(l) && Enabled(l, a) && a.t != t
    ensures SameLease(l, Next(l, a), t) && SameWait(l, Next(l, a), t)
  {
    match a
    case DoAcquire(u, name, wait, mode) =>
      AcquireIsExact(l, u, name, wait, mode);
      GrantIsExact(l, u, name, mode);
    case DoResume(u) =>
    case DoCancel(u, heir) =>
    case DoRelease(u) => ReleaseIsExact(l, u);
  }

  /** What a step does to the acting task: it holds a lease, waits, or does neither. */
  lemma StepMovesActor(l: Lane, a: Act)
    requires Consistent(l) && Enabled(l, a)
    ensures var n := Next(l, a);
            && !(a.t in n.leases && a.t in n.waiters)
            && (a.t in l.leases && a.DoAcquire? ==>
                  a.t in n.leases &&
                  n.leases[a.t] == if l.leases[a.t].mode.Shared? && a.mode.Exclusive? then l.leases[a.t]
                                   else l.leases[a.t].(depth := l.leases[a.t].depth + 1))
            && (a.t !in l.leases && a.t in n.leases ==> n.leases[a.t].depth == 1)
            && (a.DoResume? ==> a.t in n.leases || a.t in n.waiters)
            && (a.DoCancel? ==> a.t !in n.leases && a.t !in n.waiters)
            && (a.DoRelease? ==> a.t !in n.waiters && (a.t in n.leases <==> l.leases[a.t].depth > 1))
            && (a.DoRelease? && a.t in n.leases ==> n.leases[a.t] == l.leases[a.t].(depth := l.leases[a.t].depth - 1))
  {
  }

  // ---------- what a task is told ----------

  /**
   The answer of an acquire, and the whole lane after it. The outermost lease is granted exactly
   to a task without one that finds the guard open; a task with a lease gets another level of
   it, in the mode it holds, unless it asks for exclusive under shared; otherwise it waits, or
   is told of the conflict when it asked not to.
   */
  lemma AcquireIsExact(l: Lane, t: Task, name: string, wait: bool, mode: Mode)
    ensures var (n, reply) := Acquire(l, t, name, wait, mode);
            var open := l.owner == None && if mode.Shared? then l.waitingExclusive <= 0 else l.activeShared == 0;
            var upgrade := t in l.leases && l.leases[t].mode.Shared? && mode.Exclusive?;
            && (reply == Granted(true, mode) <==> t !in l.leases && open)
            && (reply.Granted? && reply.outermost ==> n == Grant(l, t, name, mode))
            && (reply.Granted? && !reply.outermost <==> t in l.leases && !upgrade)
            && (t in l.leases && !upgrade ==>
                  && reply == Granted(false, l.leases[t].mode)
                  && n == l.(leases := l.leases[t := l.leases[t].(depth := l.leases[t].depth + 1)]))
            && (reply == UpgradeRefused <==> upgrade)
            && (reply == Conflict <==> t !in l.leases && !open && mode.Exclusive? && !wait)
            && (reply == Parked <==> t !in l.leases && !open && (mode.Shared? || wait))
            && (reply.UpgradeRefused? || reply.Conflict? ==> n == l)
            && (reply.Parked? ==>
                  n == l.(waiters := l.waiters[t := Waiter(mode, name, false)],
                          waitingExclusive := l.waitingExclusive + if mode.Exclusive? then 1 else 0))
  {
  }

  /** What a new outermost lease is: depth 1, in this mode and name, counted or recorded as the owner's. */
  lemma GrantIsExact(l: Lane, t: Task, name: string, mode: Mode)
    ensures var n := Grant(l, t, name, mode);
            && n.leases.Keys == l.leases.Keys + {t} && n.leases[t] == Lease(mode, name, 1)
            && (forall u :: u in l.leases && u != t ==> n.leases[u] == l.leases[u])
            && n.waiters == l.waiters && n.waitingExclusive == l.waitingExclusive
            && (mode.Shared? ==> n.activeShared == l.activeShared + 1 && n.owner == l.owner && n.activeOperation == l.activeOperation)
            && (mode.Exclusive? ==> n.activeShared == l.activeShared && n.owner == Some(t) && n.activeOperation == Some(name))
  {
  }

  /** A turn of the wait loop grants what the waiter asked for exactly when the guard is open, and parks it again otherwise. */
  lemma ResumeIsExact(l: Lane, t: Task)
    requires t in l.waiters
    ensures var w := l.waiters[t];
            var (n, reply) := Resume(l, t);
            var open := l.owner == None && if w.mode.Shared? then l.waitingExclusive <= 0 else l.activeShared == 0;
            && (open ==>
                  && reply == Granted(true, w.mode) && t !in n.waiters && t in n.leases && n.leases[t] == Lease(w.mode, w.name, 1)
                  && n.waitingExclusive == l.waitingExclusive - if w.mode.Exclusive? then 1 else 0)
            && (!open ==> reply == Parked && n == l.(waiters := l.waiters[t := Waiter(w.mode, w.name, false)]))
  {
  }

  /** A release is unmatched exactly without a lease; the last level frees the lane and notifies every waiter. */
  lemma ReleaseIsExact(l: Lane, t: Task)
    ensures var (n, reply) := Release(l, t);
            && (reply == Unmatched <==> t !in l.leases)
            && (reply == Released <==> t in l.leases)
            && (t !in l.leases ==> n == l)
            && (t in l.leases && l.leases[t].depth > 1 ==>
                  n == l.(leases := l.leases[t := l.leases[t].(depth := l.leases[t].depth - 1)]))
            && (t in l.leases && l.leases[t].depth <= 1 ==>
                  && n.leases == l.leases - {t} && n.waiters.Keys == l.waiters.Keys && n.waitingExclusive == l.waitingExclusive
                  && (forall u :: u in l.waiters ==> n.waiters[u] == Waiter(l.waiters[u].mode, l.waiters[u].name, true))
                  && (if l.leases[t].mode.Exclusive? then n.owner == None && n.activeOperation == None && n.activeShared == l.activeShared
                      else n.activeShared == l.activeShared - 1 && n.owner == l.owner && n.activeOperation == l.activeOperation))
  {
  }

  // ---------- preference for exclusive waiters ----------

  /** While an exclusive waiter is registered, a step never adds a shared holder. */
  lemma StepAddsNoSharedHolder(l: Lane, a: Act)
    requires Consistent(l) && Enabled(l, a) && l.waitingExclusive > 0
    ensures Holding(Next(l, a).leases, Shared) <= Holding(l.leases, Shared)
    ensures Next(l, a).activeShared <= l.activeShared
  {
  }

  /**
   From the moment an exclusive waiter registers and for as long as some exclusive
   waiter is left, no task gets a new outermost shared lease, and the active shared
   count never rises, whatever the other tasks do.
   */
  lemma {:induction false} ExclusivePreference(states: seq<Lane>, acts: seq<Act>, i: nat, j: nat)
    requires IsRun(states, acts) && Consistent(states[0]) && i <= j < |states|
    requires forall k :: i <= k < j ==> states[k].waitingExclusive > 0
    ensures Holding(states[j].leases, Shared) <= Holding(states[i].leases, Shared)
    ensures states[j].activeShared <= states[i].activeShared
  {
    if i < j {
      ExclusivePreference(states, acts, i, j - 1);
      RunConsistent(states, acts, j - 1);
      StepAddsNoSharedHolder(states[j - 1], acts[j - 1]);
    }
  }

  // ---------- wake-ups ----------

  /** No waiter sleeps through a moment at which it could enter. */
  ghost predicate NoLostWakeup(l: Lane) {
    forall t :: t in l.waiters && !l.waiters[t].notified ==> !MayEnter(l, l.waiters[t].mode)
  }

  function SleepingShared(l: Lane): set<Task> {
    set t | t in l.waiters && l.waiters[t].mode.Shared? && !l.waiters[t].notified
  }

  /** Cancels the last exclusive waiter of a lane without owner while several shared waiters sleep. */
  predicate LosesWakeup(l: Lane, a: Act) {
    && a.DoCancel? && a.t in l.waiters && l.waiters[a.t].mode.Exclusive?
    && l.owner.None? && l.waitingExclusive == 1 && |SleepingShared(l)| >= 2
  }

  lemma LastExclusive(l: Lane, t: Task)
    requires Consistent(l) && l.waitingExclusive == 1 && t in l.waiters && l.waiters[t].mode.Exclusive?
    ensures forall u :: u in l.waiters && u != t ==> l.waiters[u].mode.Shared?
  {
    var e := Waiting(l.waiters, Exclusive);
    assert |e - {t}| == 0;
    forall u | u in l.waiters && u != t ensures l.waiters[u].mode.Shared? {
      assert u !in e - {t};
    }
  }

  lemma NoExclusiveWaiter(l: Lane)
    requires Consistent(l) && l.waitingExclusive == 0
    ensures forall u :: u in l.waiters ==> l.waiters[u].mode.Shared?
  {
    forall u | u in l.waiters ensures l.waiters[u].mode.Shared? {
      assert u !in Waiting(l.waiters, Exclusive);
    }
  }

  lemma SeveralSleep(sleepers: set<Task>, u: Task) returns (v: Task)
    requires |sleepers| >= 2
    ensures v in sleepers && v != u
  {
    assert |sleepers - {u}| >= 1;
    v :| v in sleepers - {u};
  }

  /**
   A cancelled waiter passes one notification on. A wake-up is lost for a while exactly when
   the last exclusive waiter is cancelled, nobody owns the lane and at least two shared waiters
   sleep: only one of them is woken, whichever it is.
   */
  lemma CancelLosesWakeupExactlyWhen(l: Lane, t: Task, heir: Option<Task>)
    requires Consistent(l) && NoLostWakeup(l) && Enabled(l, DoCancel(t, heir))
    ensures !NoLostWakeup(CancelWait(l, t, heir)) <==> LosesWakeup(l, DoCancel(t, heir))
  {
    var n := CancelWait(l, t, heir);
    CancelWaitConsistent(l, t, heir);
    if LosesWakeup(l, DoCancel(t, heir)) {
      var v := SeveralSleep(SleepingShared(l), if heir.Some? then heir.value else t);
      assert v in n.waiters && !n.waiters[v].notified && MayEnter(n, Shared);
    }
    if !NoLostWakeup(n) {
      var u :| u in n.waiters && !n.waiters[u].notified && MayEnter(n, n.waiters[u].mode);
      assert u in l.waiters && l.waiters[u] == n.waiters[u] && !MayEnter(l, l.waiters[u].mode);
      assert heir.Some?;
      LastExclusive(l, t);
      assert {u, heir.value} <= SleepingShared(l);
      assert |SleepingShared(l) - {u, heir.value}| == |SleepingShared(l)| - 2;
    }
  }

  lemma StepKeepsWakeups(l: Lane, a: Act)
    requires Consistent(l) && NoLostWakeup(l) && Enabled(l, a) && !LosesWakeup(l, a)
    ensures NoLostWakeup(Next(l, a))
  {
    if a.DoCancel? {
      CancelLosesWakeupExactlyWhen(l, a.t, a.heir);
    } else if a.DoResume? && MayEnter(l, l.waiters[a.t].mode) && l.waiters[a.t].mode.Shared? {
      NoExclusiveWaiter(l);
    }
  }

  lemma ReachableConsistent(states: seq<Lane>, acts: seq<Act>, k: nat)
    requires IsRun(states, acts) && states[0] == Empty && k < |states|
    ensures Consistent(states[k])
  {
    EmptyConsistent();
    RunConsistent(states, acts, k);
  }

  /** From a moment without lost wake-ups on, none is lost until a cancellation that loses one. */
  lemma {:induction false} WakeupsStay(states: seq<Lane>, acts: seq<Act>, i: nat, k: nat)
    requires IsRun(states, acts) && states[0] == Empty && i <= k < |states| && NoLostWakeup(states[i])
    requires forall j :: i <= j < k ==> !LosesWakeup(states[j], acts[j])
    ensures NoLostWakeup(states[k])
  {
    if i < k {
      WakeupsStay(states, acts, i, k - 1);
      var l, a, n := states[k - 1], acts[k - 1], states[k];
      assert !LosesWakeup(l, a) && Enabled(l, a) && n == Next(l, a);
      ReachableConsistent(states, acts, k - 1);
      StepKeepsWakeups(l, a);
    }
  }

  ghost predicate WakeupsKept(states: seq<Lane>) {
    forall k :: 0 <= k < |states| ==> NoLostWakeup(states[k])
  }

  /** Over whole runs no waiter sleeps where it could enter exactly if no cancellation is of that one kind. */
  lemma RunKeepsWakeupsExactlyWhen(states: seq<Lane>, acts: seq<Act>)
    requires IsRun(states, acts) && states[0] == Empty
    ensures WakeupsKept(states) <==> forall i :: 0 <= i < |acts| ==> !LosesWakeup(states[i], acts[i])
  {
    EmptyConsistent();
    if WakeupsKept(states) {
      forall i | 0 <= i < |acts| ensures !LosesWakeup(states[i], acts[i]) {
        RunConsistent(states, acts, i);
        if acts[i].DoCancel? {
          assert NoLostWakeup(states[i + 1]);
          CancelLosesWakeupExactlyWhen(states[i], acts[i].t, acts[i].heir);
        }
      }
    } else if forall i :: 0 <= i < |acts| ==> !LosesWakeup(states[i], acts[i]) {
      forall k | 0 <= k < |states| ensures NoLostWakeup(states[k]) {
        WakeupsStay(states, acts, 0, k);
      }
    }
  }

  predicate EndsLease(l: Lane, a: Act) {
    a.DoRelease? && a.t in l.leases && l.leases[a.t].depth == 1
  }

  /** A lost wake-up is made up for when the next lease ends. */
  lemma LeaseEndWakesAll(states: seq<Lane>, acts: seq<Act>, i: nat, k: nat)
    requires IsRun(states, acts) && states[0] == Empty && i < k < |states| && EndsLease(states[i], acts[i])
    requires forall j :: i < j < k ==> !LosesWakeup(states[j], acts[j])
    ensures var l := states[i + 1]; forall t :: t in l.waiters ==> l.waiters[t].notified
    ensures NoLostWakeup(states[k])
  {
    WakeupsStay(states, acts, i + 1, k);
  }

  /** That kind of cancellation happens: a rebuild gives up behind a write, with two writes behind it. */
  lemma LostWakeupIsReachable(writer: Task, rebuild: Task, first: Task, second: Task) returns (states: seq<Lane>, acts: seq<Act>)
    requires |{writer, rebuild, first, second}| == 4
    ensures IsRun(states, acts) && states[0] == Empty
    ensures var l := states[|acts|]; second in l.waiters && !l.waiters[second].notified && MayEnter(l, Shared)
  {
    assert writer != rebuild && writer != first && writer != second && rebuild != first && rebuild != second && first != second;
    acts := [DoAcquire(writer, "write", true, Shared), DoAcquire(rebuild, "rebuild", true, Exclusive),
             DoAcquire(first, "write", true, Shared), DoAcquire(second, "write", true, Shared), DoCancel(rebuild, Some(first))];
    var s1 := Next(Empty, acts[0]);
    var s2 := Next(s1, acts[1]);
    var s3 := Next(s2, acts[2]);
    var s4 := Next(s3, acts[3]);
    states := [Empty, s1, s2, s3, s4, Next(s4, acts[4])];
  }

  // ---------- an idle lane is never asleep ----------

  predicate Idle(l: Lane) {
    l.leases == map[]
  }

  /** Nobody holds the lane, yet every waiter is asleep and only a new caller can wake it. */
  ghost predicate Stuck(l: Lane) {
    Idle(l) && l.waiters != map[] && forall t :: t in l.waiters ==> !l.waiters[t].notified
  }

  /** A sleeping exclusive waiter could not enter. */
  ghost predicate ExclusiveSleepersBlocked(l: Lane) {
    forall t :: t in l.waiters && l.waiters[t].mode.Exclusive? && !l.waiters[t].notified ==> !ExclusiveAvailable(l)
  }

  lemma StepKeepsExclusiveSleepers(l: Lane, a: Act)
    requires Consistent(l) && ExclusiveSleepersBlocked(l) && Enabled(l, a)
    ensures ExclusiveSleepersBlocked(Next(l, a))
  {
  }

  /** On an idle lane that is not asleep some notified waiter takes a lease at its next turn. */
  lemma ReadyWaiter(l: Lane) returns (t: Task)
    requires Consistent(l) && ExclusiveSleepersBlocked(l) && !Stuck(l) && Idle(l) && l.waiters != map[]
    ensures t in l.waiters && l.waiters[t].notified && Resume(l, t).1 == Granted(true, l.waiters[t].mode)
    ensures l.waitingExclusive > 0 ==> l.waiters[t].mode.Exclusive?
  {
    assert Holding(l.leases, Shared) == {};
    if Waiting(l.waiters, Exclusive) == {} {
      t :| t in l.waiters && l.waiters[t].notified;
      assert t !in Waiting(l.waiters, Exclusive);
    } else {
      t :| t in Waiting(l.waiters, Exclusive);
    }
  }

  /** Whatever happens, an idle lane with waiters has a notified one. */
  lemma StepIsNotStuck(l: Lane, a: Act)
    requires Consistent(l) && ExclusiveSleepersBlocked(l) && !Stuck(l) && Enabled(l, a)
    ensures !Stuck(Next(l, a))
  {
    var n := Next(l, a);
    if Idle(l) && l.waiters != map[] {
      var t := ReadyWaiter(l);
      StepConsistent(l, a);
      if a.DoCancel? && a.t == t && n.waiters != map[] {
        CancelledHeir(l, a);
      } else if !a.DoResume? || a.t != t {
        assert t in n.waiters ==> n.waiters[t].notified;
      }
    }
  }

  /** The notification of a cancelled waiter is not lost on an idle lane. */
  lemma CancelledHeir(l: Lane, a: Act)
    requires Enabled(l, a) && a.DoCancel? && Next(l, a).waiters != map[]
    ensures exists u :: u in Next(l, a).waiters && Next(l, a).waiters[u].notified
  {
    var n := Next(l, a);
    var u :| u in n.waiters;
    if a.heir.Some? {
      assert a.heir.value in n.waiters && n.waiters[a.heir.value].notified;
    } else {
      assert u in l.waiters && u != a.t;
      assert n.waiters[u].notified;
    }
  }

  /** In every run, whatever is cancelled, no exclusive waiter loses a wake-up and no idle lane is asleep. */
  lemma {:induction false} RunIsNotStuck(states: seq<Lane>, acts: seq<Act>, k: nat)
    requires IsRun(states, acts) && states[0] == Empty && k < |states|
    ensures Consistent(states[k]) && ExclusiveSleepersBlocked(states[k]) && !Stuck(states[k])
  {
    EmptyConsistent();
    if k > 0 {
      RunIsNotStuck(states, acts, k - 1);
      RunConsistent(states, acts, k);
      StepKeepsExclusiveSleepers(states[k - 1], acts[k - 1]);
      StepIsNotStuck(states[k - 1], acts[k - 1]);
    }
  }

  /**
   In every state of every run, with cancellation at every await: a lane that nobody holds
   but somebody waits for has a notified waiter that takes a lease at its next turn, an
   exclusive one if any is registered.
   */
  lemma IdleLaneHasReadyWaiter(states: seq<Lane>, acts: seq<Act>, k: nat) returns (t: Task)
    requires IsRun(states, acts) && states[0] == Empty && k < |states| && Idle(states[k]) && states[k].waiters != map[]
    ensures var l := states[k];
            && t in l.waiters && l.waiters[t].notified && Resume(l, t).1 == Granted(true, l.waiters[t].mode)
            && (l.waitingExclusive > 0 ==> l.waiters[t].mode.Exclusive?)
  {
    RunIsNotStuck(states, acts, k);
    t := ReadyWaiter(states[k]);
  }
}
