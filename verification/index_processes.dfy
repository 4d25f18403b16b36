/**
 Any number of processes, each with its own lane, over one PostgreSQL advisory lock.

 A step is one atomic block of one task. A task that holds its outermost local lease
 checks a connection out of a pool, polls for the advisory lock, runs its body, unlocks
 (or has the connection invalidated), returns the connection and then releases the lease.
 */
module IndexProcesses {
  import opened Finite
  import opened Wrappers
  import opened IndexLane
  import opened AdvisoryLock

  datatype Stage =
    | Parking
    | Connecting(wait: bool)
    | Polling(wait: bool, conn: Conn)
    | Body(conn: Conn)
    | Unlocking(conn: Conn)
    | Invalidating(conn: Conn)
    | Closing(conn: Conn)
    | Releasing

  datatype World = World(
    lanes: map<nat, Lane>,
    stages: map<Task, Stage>,
    checkedOut: map<Conn, Task>,
    locks: Table,
    closed: set<Conn>)

  datatype UnlockFate = Answered | LostBefore | LostAfter

  datatype Move =
    | Enter(t: Task, name: string, wait: bool, mode: Mode)
    | Turn(t: Task)
    | Cancel(t: Task, heir: Option<Task>)
    | Connect(t: Task, conn: Conn)
    | Poll(t: Task)
    | Exit(t: Task)
    | SendUnlock(t: Task, fate: UnlockFate)
    | Invalidate(t: Task)
    | Close(t: Task)
    | Leave(t: Task)

  const Start := World(map[], map[], map[], map[], {})

  function LaneOf(w: World, pid: nat): Lane {
    if pid in w.lanes then w.lanes[pid] else IndexLane.Empty
  }

  function OwnLane(w: World, t: Task): Lane {
    LaneOf(w, t.pid)
  }

  predicate UsesConn(s: Stage) {
    !s.Parking? && !s.Connecting? && !s.Releasing?
  }

  predicate MayHoldLock(s: Stage) {
    s.Body? || s.Unlocking? || s.Invalidating?
  }

  predicate MoveEnabled(w: World, m: Move) {
    match m
    case Enter(t, _, _, _) => t in w.stages ==> w.stages[t].Body?
    case Turn(t) => t in w.stages && w.stages[t].Parking? && t in OwnLane(w, t).waiters && OwnLane(w, t).waiters[t].notified
    case Cancel(t, heir) =>
      t in w.stages &&
      match w.stages[t] {
        case Parking => Enabled(OwnLane(w, t), DoCancel(t, heir))
        case Connecting(_) => heir.None?
        case Polling(_, _) => heir.None?
        case _ => false
      }
    case Connect(t, c) => t in w.stages && w.stages[t].Connecting? && c !in w.checkedOut && c !in w.closed
    case Poll(t) => t in w.stages && w.stages[t].Polling?
    case Exit(t) => t in w.stages && w.stages[t].Body?
    case SendUnlock(t, _) => t in w.stages && w.stages[t].Unlocking?
    case Invalidate(t) => t in w.stages && w.stages[t].Invalidating?
    case Close(t) => t in w.stages && w.stages[t].Closing?
    case Leave(t) => t in w.stages && w.stages[t].Releasing?
  }

  /** The mode the process lock is asked for: the mode of the outermost lease. */
  function ModeOf(w: World, t: Task): Mode {
    if t in OwnLane(w, t).leases then OwnLane(w, t).leases[t].mode else Shared
  }

  predicate PollGranted(w: World, t: Task)
    requires t in w.stages && w.stages[t].Polling?
  {
    TryLock(w.locks, w.stages[t].conn, ModeOf(w, t)).1
  }

  predicate ExitsInnerBlock(w: World, t: Task) {
    t in OwnLane(w, t).leases && OwnLane(w, t).leases[t].depth > 1
  }

  /** The block of the mover's own lane that a move runs, if any. */
  function LaneAct(w: World, m: Move): Option<Act>
    requires MoveEnabled(w, m)
  {
    match m
    case Enter(t, name, wait, mode) => Some(DoAcquire(t, name, wait, mode))
    case Turn(t) => Some(DoResume(t))
    case Cancel(t, heir) => if w.stages[t].Parking? then Some(DoCancel(t, heir)) else None
    case Exit(t) => if ExitsInnerBlock(w, t) then Some(DoRelease(t)) else None
    case Leave(t) => Some(DoRelease(t))
    case _ => None
  }

  /** The mover's lane after the move; an unmatched release raises and changes nothing. */
  function LaneAfter(w: World, m: Move): Lane
    requires MoveEnabled(w, m)
  {
    var l := OwnLane(w, m.t);
    var act := LaneAct(w, m);
    if act.Some? && Enabled(l, act.value) then Next(l, act.value) else l
  }

  /** Where the mover stands after the move; `None` is outside every block. */
  function NextStage(w: World, m: Move, after: Lane): Option<Stage>
    requires MoveEnabled(w, m)
  {
    match m
    case Enter(t, _, wait, _) =>
      if t in w.stages then Some(w.stages[t])
      else if t in after.leases then Some(Connecting(wait))
      else if t in after.waiters then Some(Parking)
      else None
    case Turn(t) => if t in after.leases then Some(Connecting(true)) else Some(Parking)
    case Cancel(t, _) => if w.stages[t].Parking? then None else Some(Releasing)
    case Connect(t, c) => Some(Polling(w.stages[t].wait, c))
    case Poll(t) =>
      if PollGranted(w, t) then Some(Body(w.stages[t].conn))
      else if w.stages[t].wait then Some(w.stages[t])
      else Some(Releasing)
    case Exit(t) => if ExitsInnerBlock(w, t) then Some(w.stages[t]) else Some(Unlocking(w.stages[t].conn))
    case SendUnlock(t, fate) =>
      if fate.Answered? && Unlock(w.locks, w.stages[t].conn, ModeOf(w, t)).1 then Some(Closing(w.stages[t].conn))
      else Some(Invalidating(w.stages[t].conn))
    case Invalidate(t) => Some(Closing(w.stages[t].conn))
    case Close(t) => Some(Releasing)
    case Leave(t) => None
  }

  function NextLocks(w: World, m: Move): Table
    requires MoveEnabled(w, m)
  {
    match m
    case Poll(t) => TryLock(w.locks, w.stages[t].conn, ModeOf(w, t)).0
    case SendUnlock(t, fate) => if fate.LostBefore? then w.locks else Unlock(w.locks, w.stages[t].conn, ModeOf(w, t)).0
    case Invalidate(t) => CloseSession(w.locks, w.stages[t].conn)
    case _ => w.locks
  }

  /** A connection is checked out by `Connect` and returned when its user is done with it. */
  function NextCheckedOut(w: World, m: Move, stage: Option<Stage>): map<Conn, Task>
    requires MoveEnabled(w, m)
  {
    if m.Connect? then w.checkedOut[m.conn := m.t]
    else if m.t in w.stages && UsesConn(w.stages[m.t]) && !(stage.Some? && UsesConn(stage.value)) then
      w.checkedOut - {w.stages[m.t].conn}
    else w.checkedOut
  }

  function PutStage(stages: map<Task, Stage>, t: Task, stage: Option<Stage>): map<Task, Stage> {
    if stage.Some? then stages[t := stage.value] else stages - {t}
  }

  function MoveNext(w: World, m: Move): World
    requires MoveEnabled(w, m)
  {
    var after := LaneAfter(w, m);
    var stage := NextStage(w, m, after);
    World(
      w.lanes[m.t.pid := after],
      PutStage(w.stages, m.t, stage),
      NextCheckedOut(w, m, stage),
      NextLocks(w, m),
      if m.Invalidate? then w.closed + {w.stages[m.t].conn} else w.closed)
  }

  ghost predicate IsHistory(worlds: seq<World>, moves: seq<Move>) {
    && |worlds| == |moves| + 1
    && worlds[0] == Start
    && forall i :: 0 <= i < |moves| ==> MoveEnabled(worlds[i], moves[i]) && worlds[i + 1] == MoveNext(worlds[i], moves[i])
  }

  // ---------- each process runs its lane ----------

  function StageOf(w: World, t: Task): Option<Stage> {
    if t in w.stages then Some(w.stages[t]) else None
  }

  /** The task's stage says what its lane holds for it. */
  predicate TaskAgrees(stage: Option<Stage>, l: Lane, t: Task) {
    match stage
    case None => t !in l.leases && t !in l.waiters
    case Some(Parking) => t in l.waiters
    case Some(Body(_)) => t in l.leases
    case Some(_) => t in l.leases && l.leases[t].depth == 1
  }

  ghost predicate LanesAgree(w: World) {
    && (forall pid :: Consistent(LaneOf(w, pid)))
    && (forall t, pid :: t in LaneOf(w, pid).leases || t in LaneOf(w, pid).waiters ==> t.pid == pid)
    && (forall t :: TaskAgrees(StageOf(w, t), OwnLane(w, t), t))
  }

  /** A move is one enabled block of the mover's lane or leaves it alone, and touches no other lane. */
  lemma MoveIsLaneStep(w: World, m: Move)
    requires LanesAgree(w) && MoveEnabled(w, m)
    ensures LaneAct(w, m).Some? ==> LaneAct(w, m).value.t == m.t && Enabled(OwnLane(w, m.t), LaneAct(w, m).value)
    ensures OwnLane(MoveNext(w, m), m.t) == LaneAfter(w, m)
    ensures forall pid :: pid != m.t.pid ==> LaneOf(MoveNext(w, m), pid) == LaneOf(w, pid)
  {
    assert TaskAgrees(StageOf(w, m.t), OwnLane(w, m.t), m.t);
  }

  lemma ActorAgrees(w: World, m: Move, l: Lane)
    requires MoveEnabled(w, m) && l == OwnLane(w, m.t) && Consistent(l)
    requires TaskAgrees(StageOf(w, m.t), l, m.t)
    ensures TaskAgrees(NextStage(w, m, LaneAfter(w, m)), LaneAfter(w, m), m.t)
  {
    var act := LaneAct(w, m);
    if act.Some? {
      StepMovesActor(l, act.value);
    }
  }

  lemma LaneAfterFrames(w: World, m: Move, l: Lane, u: Task)
    requires MoveEnabled(w, m) && l == OwnLane(w, m.t) && Consistent(l) && u != m.t
    ensures Consistent(LaneAfter(w, m)) && SameLease(l, LaneAfter(w, m), u) && SameWait(l, LaneAfter(w, m), u)
  {
    var act := LaneAct(w, m);
    if act.Some? && Enabled(l, act.value) {
      StepConsistent(l, act.value);
      StepFramesOthers(l, u, act.value);
    }
  }

  lemma TaskStillAgrees(w: World, m: Move, u: Task)
    requires LanesAgree(w) && MoveEnabled(w, m)
    ensures TaskAgrees(StageOf(MoveNext(w, m), u), OwnLane(MoveNext(w, m), u), u)
  {
    var l := OwnLane(w, m.t);
    assert TaskAgrees(StageOf(w, m.t), l, m.t) && TaskAgrees(StageOf(w, u), OwnLane(w, u), u);
    if u == m.t {
      ActorAgrees(w, m, l);
    } else {
      LaneAfterFrames(w, m, l, u);
    }
  }

  lemma LaneStaysLocal(w: World, m: Move, pid: nat, u: Task)
    requires LanesAgree(w) && MoveEnabled(w, m)
    ensures Consistent(LaneOf(MoveNext(w, m), pid))
    ensures u in LaneOf(MoveNext(w, m), pid).leases || u in LaneOf(MoveNext(w, m), pid).waiters ==> u.pid == pid
  {
    MoveIsLaneStep(w, m);
    assert TaskAgrees(StageOf(w, m.t), OwnLane(w, m.t), m.t);
    if pid == m.t.pid {
      var other := if u == m.t then Task(pid, m.t.id + 1) else u;
      LaneAfterFrames(w, m, OwnLane(w, m.t), other);
    }
  }

  lemma MoveKeepsLanes(w: World, m: Move)
    requires LanesAgree(w) && MoveEnabled(w, m)
    ensures LanesAgree(MoveNext(w, m))
  {
    forall u ensures TaskAgrees(StageOf(MoveNext(w, m), u), OwnLane(MoveNext(w, m), u), u) {
      TaskStillAgrees(w, m, u);
    }
    forall pid, u
      ensures Consistent(LaneOf(MoveNext(w, m), pid))
      ensures u in LaneOf(MoveNext(w, m), pid).leases || u in LaneOf(MoveNext(w, m), pid).waiters ==> u.pid == pid
    {
      LaneStaysLocal(w, m, pid, u);
    }
  }

  /** Where a task stands after asking for a lease is what its lane answered. */
  lemma EnterFollowsAnswer(w: World, t: Task, name: string, wait: bool, mode: Mode)
    requires LanesAgree(w) && MoveEnabled(w, Enter(t, name, wait, mode))
    ensures var reply := Acquire(OwnLane(w, t), t, name, wait, mode).1;
            var stage := StageOf(MoveNext(w, Enter(t, name, wait, mode)), t);
            && (t in w.stages ==> stage == StageOf(w, t) && reply != Granted(true, mode))
            && (t !in w.stages ==>
                  && (stage == Some(Connecting(wait)) <==> reply == Granted(true, mode))
                  && (stage == Some(Parking) <==> reply == Parked)
                  && (stage == None <==> reply == Conflict))
  {
    assert TaskAgrees(StageOf(w, t), OwnLane(w, t), t);
    AcquireIsExact(OwnLane(w, t), t, name, wait, mode);
    GrantIsExact(OwnLane(w, t), t, name, mode);
  }

  /** A waiter that is granted its lease at its turn goes on to a connection and will wait for the lock; otherwise it stays. */
  lemma TurnFollowsAnswer(w: World, t: Task)
    requires LanesAgree(w) && MoveEnabled(w, Turn(t))
    ensures var l := OwnLane(w, t);
            var stage := StageOf(MoveNext(w, Turn(t)), t);
            && (stage == Some(Connecting(true)) <==> Resume(l, t).1 == Granted(true, l.waiters[t].mode))
            && (stage == Some(Parking) <==> Resume(l, t).1 == Parked)
  {
    assert TaskAgrees(StageOf(w, t), OwnLane(w, t), t);
    ResumeIsExact(OwnLane(w, t), t);
  }

  /** A refused poll keeps polling when the task waits, and otherwise gives the connection back at once. */
  lemma RefusedPollEnds(w: World, t: Task)
    requires LanesAgree(w) && LocksAgree(w) && PollRefused(w, t)
    ensures var n := MoveNext(w, Poll(t));
            && n.locks == w.locks && n.closed == w.closed
            && (w.stages[t].wait ==> n.stages == w.stages && n.checkedOut == w.checkedOut)
            && (!w.stages[t].wait ==> n.stages == w.stages[t := Releasing] && n.checkedOut == w.checkedOut - {w.stages[t].conn})
  {
  }

  // ---------- connections and session locks ----------

  predicate HoldsAsStaged(s: Stage, held: Held, mode: Mode) {
    match s
    case Body(_) => held == One(mode)
    case Unlocking(_) => held == One(mode)
    case Invalidating(_) => held == One(mode) || held == NoLocks
    case _ => held == NoLocks
  }

  /** A checked-out connection holds what its user's stage says; any other holds nothing. */
  predicate ConnAgrees(w: World, c: Conn) {
    if c in w.checkedOut then
      var t := w.checkedOut[c];
      && t in w.stages
      && UsesConn(w.stages[t])
      && w.stages[t].conn == c
      && HoldsAsStaged(w.stages[t], HeldBy(w.locks, c), ModeOf(w, t))
    else HeldBy(w.locks, c) == NoLocks
  }

  ghost predicate LocksAgree(w: World) {
    && Safe(w.locks)
    && (forall c :: ConnAgrees(w, c))
    && (forall t :: t in w.stages && UsesConn(w.stages[t]) ==>
          w.stages[t].conn in w.checkedOut && w.checkedOut[w.stages[t].conn] == t)
  }

  /** The mode of an outermost lease does not change while the task holds it. */
  lemma ModeIsStable(w: World, m: Move, u: Task)
    requires LanesAgree(w) && MoveEnabled(w, m) && u in w.stages && UsesConn(w.stages[u])
    requires StageOf(MoveNext(w, m), u).Some?
    ensures ModeOf(MoveNext(w, m), u) == ModeOf(w, u)
  {
    MoveIsLaneStep(w, m);
    assert TaskAgrees(StageOf(w, u), OwnLane(w, u), u);
    if u != m.t {
      LaneAfterFrames(w, m, OwnLane(w, m.t), u);
    }
  }

  /** A move changes the locks of the mover's own connection only. */
  lemma LocksFrame(w: World, m: Move, c: Conn)
    requires MoveEnabled(w, m)
    requires m.t in w.stages && UsesConn(w.stages[m.t]) ==> c != w.stages[m.t].conn
    ensures HeldBy(NextLocks(w, m), c) == HeldBy(w.locks, c)
  {
  }

  lemma MoverConnAgrees(w: World, m: Move)
    requires LanesAgree(w) && LocksAgree(w) && MoveEnabled(w, m)
    requires m.t in w.stages && UsesConn(w.stages[m.t])
    ensures ConnAgrees(MoveNext(w, m), w.stages[m.t].conn)
  {
    var c := w.stages[m.t].conn;
    var n := MoveNext(w, m);
    assert ConnAgrees(w, c);
    assert HoldsAsStaged(w.stages[m.t], HeldBy(w.locks, c), ModeOf(w, m.t));
    if StageOf(n, m.t).Some? && UsesConn(n.stages[m.t]) {
      ModeIsStable(w, m, m.t);
      assert c in n.checkedOut && n.checkedOut[c] == m.t && n.stages[m.t].conn == c;
    } else {
      assert c !in n.checkedOut;
    }
  }

  lemma OtherConnAgrees(w: World, m: Move, c: Conn)
    requires LanesAgree(w) && LocksAgree(w) && MoveEnabled(w, m)
    requires m.t in w.stages && UsesConn(w.stages[m.t]) ==> c != w.stages[m.t].conn
    requires c in w.checkedOut
    ensures ConnAgrees(MoveNext(w, m), c)
  {
    assert ConnAgrees(w, c);
    var u := w.checkedOut[c];
    OtherUserStays(w, m, c);
    LocksFrame(w, m, c);
    ModeIsStable(w, m, u);
    assert HoldsAsStaged(w.stages[u], HeldBy(NextLocks(w, m), c), ModeOf(MoveNext(w, m), u));
  }

  lemma OtherUserStays(w: World, m: Move, c: Conn)
    requires LocksAgree(w) && MoveEnabled(w, m) && c in w.checkedOut
    requires m.t in w.stages && UsesConn(w.stages[m.t]) ==> c != w.stages[m.t].conn
    ensures var n, u := MoveNext(w, m), w.checkedOut[c];
            c in n.checkedOut && n.checkedOut[c] == u && u in w.stages && u in n.stages && n.stages[u] == w.stages[u]
  {
    assert ConnAgrees(w, c);
  }

  lemma FreeConnAgrees(w: World, m: Move, c: Conn)
    requires LanesAgree(w) && LocksAgree(w) && MoveEnabled(w, m)
    requires c !in w.checkedOut
    ensures ConnAgrees(MoveNext(w, m), c)
  {
    assert ConnAgrees(w, c);
    LocksFrame(w, m, c);
  }

  lemma ConnStillAgrees(w: World, m: Move, c: Conn)
    requires LanesAgree(w) && LocksAgree(w) && MoveEnabled(w, m)
    ensures ConnAgrees(MoveNext(w, m), c)
  {
    if m.t in w.stages && UsesConn(w.stages[m.t]) && c == w.stages[m.t].conn {
      MoverConnAgrees(w, m);
    } else if c in w.checkedOut {
      OtherConnAgrees(w, m, c);
    } else {
      FreeConnAgrees(w, m, c);
    }
  }

  lemma UserStillChecksOut(w: World, m: Move, u: Task)
    requires LocksAgree(w) && MoveEnabled(w, m)
    ensures var n := MoveNext(w, m);
            u in n.stages && UsesConn(n.stages[u]) ==> n.stages[u].conn in n.checkedOut && n.checkedOut[n.stages[u].conn] == u
  {
    var n := MoveNext(w, m);
    if u != m.t && u in n.stages && UsesConn(n.stages[u]) {
      var c := w.stages[u].conn;
      assert n.stages[u] == w.stages[u] && c in w.checkedOut && w.checkedOut[c] == u;
      if m.t in w.stages && UsesConn(w.stages[m.t]) {
        assert w.checkedOut[w.stages[m.t].conn] == m.t;
      }
      OtherUserStays(w, m, c);
    }
  }

  lemma MoveKeepsLocks(w: World, m: Move)
    requires LanesAgree(w) && LocksAgree(w) && MoveEnabled(w, m)
    ensures LocksAgree(MoveNext(w, m))
  {
    forall c ensures ConnAgrees(MoveNext(w, m), c) {
      ConnStillAgrees(w, m, c);
    }
    forall u ensures var n := MoveNext(w, m);
                     u in n.stages && UsesConn(n.stages[u]) ==> n.stages[u].conn in n.checkedOut && n.checkedOut[n.stages[u].conn] == u {
      UserStillChecksOut(w, m, u);
    }
  }

  lemma {:induction false} HistoryAgrees(worlds: seq<World>, moves: seq<Move>, k: nat)
    requires IsHistory(worlds, moves) && k < |worlds|
    ensures LanesAgree(worlds[k]) && LocksAgree(worlds[k])
  {
    if k == 0 {
      EmptyConsistent();
    } else {
      HistoryAgrees(worlds, moves, k - 1);
      MoveKeepsLanes(worlds[k - 1], moves[k - 1]);
      MoveKeepsLocks(worlds[k - 1], moves[k - 1]);
    }
  }

  // ---------- mutual exclusion ----------

  /**
   Across all processes: while one task runs a body under an exclusive lease, no other
   task in any process is inside a body. Shared bodies are not restricted.
   */
  lemma MutualExclusion(worlds: seq<World>, moves: seq<Move>, k: nat, t: Task, u: Task)
    requires IsHistory(worlds, moves) && k < |worlds|
    requires t in worlds[k].stages && worlds[k].stages[t].Body? && ModeOf(worlds[k], t).Exclusive?
    requires u in worlds[k].stages && worlds[k].stages[u].Body?
    ensures u == t
  {
    HistoryAgrees(worlds, moves, k);
    var w := worlds[k];
    assert ConnAgrees(w, w.stages[t].conn) && ConnAgrees(w, w.stages[u].conn);
  }

  /** A connection in the pool, never opened or closed holds no advisory lock. */
  lemma PooledConnectionHoldsNothing(worlds: seq<World>, moves: seq<Move>, k: nat, c: Conn)
    requires IsHistory(worlds, moves) && k < |worlds|
    requires HeldBy(worlds[k].locks, c) != NoLocks
    ensures c in worlds[k].checkedOut && worlds[k].checkedOut[c] in worlds[k].stages
    ensures MayHoldLock(worlds[k].stages[worlds[k].checkedOut[c]])
  {
    HistoryAgrees(worlds, moves, k);
    assert ConnAgrees(worlds[k], c);
  }

  /** Every release the coordinator runs finds its lease. */
  lemma ReleaseIsNeverUnmatched(worlds: seq<World>, moves: seq<Move>, k: nat)
    requires IsHistory(worlds, moves) && k < |moves|
    requires LaneAct(worlds[k], moves[k]).Some? && LaneAct(worlds[k], moves[k]).value.DoRelease?
    ensures Release(OwnLane(worlds[k], moves[k].t), moves[k].t).1.Released?
  {
    HistoryAgrees(worlds, moves, k);
    MoveIsLaneStep(worlds[k], moves[k]);
  }

  lemma ExtendHistory(worlds: seq<World>, moves: seq<Move>, m: Move) returns (worlds': seq<World>, moves': seq<Move>)
    requires IsHistory(worlds, moves) && MoveEnabled(worlds[|moves|], m)
    ensures IsHistory(worlds', moves') && worlds'[|moves'|] == MoveNext(worlds[|moves|], m)
  {
    var last := worlds[|moves|];
    var next := MoveNext(last, m);
    worlds', moves' := worlds + [next], moves + [m];
    forall i | 0 <= i < |moves'| ensures MoveEnabled(worlds'[i], moves'[i]) && worlds'[i + 1] == MoveNext(worlds'[i], moves'[i]) {
      if i < |moves| {
        assert worlds'[i] == worlds[i] && worlds'[i + 1] == worlds[i + 1] && moves'[i] == moves[i];
      } else {
        assert worlds'[i] == last && worlds'[i + 1] == next && moves'[i] == m;
      }
    }
  }

  /** No exclusive lease or lock is held or waited for. */
  ghost predicate OnlySharing(w: World) {
    && (forall pid :: !SharedBlocked(LaneOf(w, pid)))
    && (forall c :: c in w.locks ==> w.locks[c].exclusive == 0)
  }

  /** A writer enters its shared body, whoever else shares, in its own process or in others. */
  lemma WriterEnters(worlds: seq<World>, moves: seq<Move>, t: Task, c: Conn) returns (worlds': seq<World>, moves': seq<Move>)
    requires IsHistory(worlds, moves) && OnlySharing(worlds[|moves|])
    requires t !in worlds[|moves|].stages && c !in worlds[|moves|].checkedOut && c !in worlds[|moves|].closed
    ensures IsHistory(worlds', moves') && OnlySharing(worlds'[|moves'|])
    ensures var w, n := worlds[|moves|], worlds'[|moves'|];
            n.stages == w.stages[t := Body(c)] && n.checkedOut == w.checkedOut[c := t] && n.closed == w.closed
  {
    var w := worlds[|moves|];
    HistoryAgrees(worlds, moves, |moves|);
    assert TaskAgrees(StageOf(w, t), OwnLane(w, t), t);
    worlds', moves' := ExtendHistory(worlds, moves, Enter(t, "write", true, Shared));
    WriterGetsLease(w, t);
    var w1 := worlds'[|moves'|];
    WriterConnects(w1, t, c);
    worlds', moves' := ExtendHistory(worlds', moves', Connect(t, c));
    var w2 := worlds'[|moves'|];
    WriterIsAdmitted(w2, t, c);
    worlds', moves' := ExtendHistory(worlds', moves', Poll(t));
    assert w.stages[t := Connecting(true)][t := Polling(true, c)][t := Body(c)] == w.stages[t := Body(c)];
  }

  lemma WriterConnects(w: World, t: Task, c: Conn)
    requires OnlySharing(w) && t in w.stages && w.stages[t] == Connecting(true) && ModeOf(w, t).Shared?
    requires c !in w.checkedOut && c !in w.closed
    ensures var n := MoveNext(w, Connect(t, c));
            && OnlySharing(n) && n.stages == w.stages[t := Polling(true, c)] && ModeOf(n, t).Shared?
            && n.checkedOut == w.checkedOut[c := t] && n.closed == w.closed
  {
    forall pid ensures LaneOf(MoveNext(w, Connect(t, c)), pid) == LaneOf(w, pid) {}
  }

  lemma WriterIsAdmitted(w: World, t: Task, c: Conn)
    requires OnlySharing(w) && t in w.stages && w.stages[t] == Polling(true, c) && ModeOf(w, t).Shared?
    ensures var n := MoveNext(w, Poll(t));
            && PollGranted(w, t) && OnlySharing(n) && n.stages == w.stages[t := Body(c)]
            && n.checkedOut == w.checkedOut && n.closed == w.closed
  {
    forall pid ensures LaneOf(MoveNext(w, Poll(t)), pid) == LaneOf(w, pid) {}
  }

  lemma WriterGetsLease(w: World, t: Task)
    requires LanesAgree(w) && OnlySharing(w) && t !in w.stages
    ensures var n := MoveNext(w, Enter(t, "write", true, Shared));
            && OnlySharing(n) && n.stages == w.stages[t := Connecting(true)] && ModeOf(n, t).Shared?
            && n.checkedOut == w.checkedOut && n.closed == w.closed && n.locks == w.locks
  {
    var m := Enter(t, "write", true, Shared);
    assert TaskAgrees(StageOf(w, t), OwnLane(w, t), t);
    MoveIsLaneStep(w, m);
    assert !SharedBlocked(LaneOf(w, t.pid));
    assert LaneAfter(w, m) == Grant(OwnLane(w, t), t, "write", Shared);
    forall pid ensures !SharedBlocked(LaneOf(MoveNext(w, m), pid)) {
      assert !SharedBlocked(LaneOf(w, pid));
    }
  }

  lemma UnusedConn(used: set<Conn>) returns (c: Conn)
    ensures c !in used
  {
    var candidates := Range(0, |used| + 1);
    if candidates <= used {
      Smaller(candidates, used);
    }
    c :| c in candidates && c !in used;
  }

  /** Any number of shared bodies, of whatever processes, can overlap. */
  lemma {:induction false} SharedBodiesOverlap(tasks: seq<Task>) returns (worlds: seq<World>, moves: seq<Move>)
    requires forall i, j :: 0 <= i < j < |tasks| ==> tasks[i] != tasks[j]
    ensures IsHistory(worlds, moves) && OnlySharing(worlds[|moves|])
    ensures forall t :: t in worlds[|moves|].stages <==> t in tasks
    ensures forall t :: t in tasks ==> worlds[|moves|].stages[t].Body?
  {
    if tasks == [] {
      worlds, moves := [Start], [];
    } else {
      var last := |tasks| - 1;
      worlds, moves := SharedBodiesOverlap(tasks[..last]);
      var w := worlds[|moves|];
      var c := UnusedConn(w.checkedOut.Keys + w.closed);
      assert tasks == tasks[..last] + [tasks[last]];
      worlds, moves := WriterEnters(worlds, moves, tasks[last], c);
    }
  }

  // ---------- progress ----------

  /** In every process: exclusive waiters lose no wake-up, and an idle lane is not asleep. */
  ghost predicate LanesAwake(w: World) {
    forall pid :: ExclusiveSleepersBlocked(LaneOf(w, pid)) && !Stuck(LaneOf(w, pid))
  }

  lemma {:induction false} HistoryStaysAwake(worlds: seq<World>, moves: seq<Move>, k: nat)
    requires IsHistory(worlds, moves) && k < |worlds|
    ensures LanesAwake(worlds[k])
  {
    if k > 0 {
      HistoryStaysAwake(worlds, moves, k - 1);
      HistoryAgrees(worlds, moves, k - 1);
      var w, m := worlds[k - 1], moves[k - 1];
      MoveIsLaneStep(w, m);
      if LaneAct(w, m).Some? {
        StepKeepsExclusiveSleepers(OwnLane(w, m.t), LaneAct(w, m).value);
        StepIsNotStuck(OwnLane(w, m.t), LaneAct(w, m).value);
      }
      forall pid ensures ExclusiveSleepersBlocked(LaneOf(worlds[k], pid)) && !Stuck(LaneOf(worlds[k], pid)) {}
    }
  }

  predicate Asleep(w: World, t: Task) {
    t in OwnLane(w, t).waiters && !OwnLane(w, t).waiters[t].notified
  }

  predicate PollRefused(w: World, t: Task) {
    t in w.stages && w.stages[t].Polling? && !PollGranted(w, t)
  }

  /** The task cannot go on until somebody else moves. */
  predicate Blocked(w: World, t: Task) {
    Asleep(w, t) || PollRefused(w, t)
  }

  /** Whom a blocked task waits for. */
  ghost predicate WaitsFor(w: World, t: Task, u: Task) {
    var l := OwnLane(w, t);
    || (Asleep(w, t) && u in l.leases)
    || (Asleep(w, t) && l.waiters[t].mode.Shared? && u in l.waiters && l.waiters[u].mode.Exclusive?)
    || (Asleep(w, t) && u in l.waiters && l.waiters[u].notified)
    || (PollRefused(w, t) && u != t && u in w.stages && MayHoldLock(w.stages[u]))
  }

  /** Sleeping writer, sleeping maintenance, notified or process-lock waiter, holder. */
  function Rank(w: World, t: Task): nat {
    var l := OwnLane(w, t);
    if t in l.waiters && !l.waiters[t].notified then (if l.waiters[t].mode.Shared? then 3 else 2)
    else if t in w.stages && MayHoldLock(w.stages[t]) then 0
    else 1
  }

  /** Waiting always points down the ranks. */
  lemma WaitsForDescends(w: World, t: Task, u: Task)
    requires LanesAgree(w) && WaitsFor(w, t, u)
    ensures Rank(w, t) > Rank(w, u)
  {
    assert TaskAgrees(StageOf(w, t), OwnLane(w, t), t) && TaskAgrees(StageOf(w, u), OwnLane(w, u), u);
  }

  /** No chain of waiting tasks comes back to where it began. */
  lemma {:induction false} NoWaitingCycle(w: World, chain: seq<Task>)
    requires LanesAgree(w) && |chain| >= 2
    requires forall i :: 0 <= i < |chain| - 1 ==> WaitsFor(w, chain[i], chain[i + 1])
    ensures Rank(w, chain[0]) > Rank(w, chain[|chain| - 1]) && chain[0] != chain[|chain| - 1]
  {
    WaitsForDescends(w, chain[0], chain[1]);
    if |chain| > 2 {
      NoWaitingCycle(w, chain[1..]);
    }
  }

  /** Every blocked task waits for some task. */
  lemma BlockedWaitsForSomeone(w: World, t: Task) returns (u: Task)
    requires LanesAgree(w) && LocksAgree(w) && LanesAwake(w) && Blocked(w, t)
    ensures WaitsFor(w, t, u)
  {
    var l := OwnLane(w, t);
    assert !Stuck(l) && TaskAgrees(StageOf(w, t), l, t);
    if Asleep(w, t) {
      if l.leases.Keys != {} {
        u :| u in l.leases.Keys;
      } else {
        u :| u in l.waiters && l.waiters[u].notified;
      }
    } else {
      var d :| d in w.locks && d != w.stages[t].conn && w.locks[d] != NoLocks;
      assert ConnAgrees(w, d);
      u := w.checkedOut[d];
    }
  }

  /** As long as any task is inside some block, some task is not blocked. */
  lemma {:induction false} SomeoneCanMove(w: World, t: Task) returns (u: Task)
    requires LanesAgree(w) && LocksAgree(w) && LanesAwake(w) && t in w.stages
    ensures u in w.stages && !Blocked(w, u)
    decreases Rank(w, t)
  {
    if Blocked(w, t) {
      var v := BlockedWaitsForSomeone(w, t);
      WaitsForDescends(w, t, v);
      assert TaskAgrees(StageOf(w, v), OwnLane(w, v), v);
      u := SomeoneCanMove(w, v);
    } else {
      u := t;
    }
  }

  /** A task that is not blocked has a move of its own, other than being cancelled, that changes the world. */
  lemma UnblockedMoves(w: World, u: Task) returns (m: Move)
    requires LanesAgree(w) && u in w.stages && !Blocked(w, u)
    ensures m.t == u && !m.Cancel? && MoveEnabled(w, m) && MoveNext(w, m) != w
  {
    assert TaskAgrees(StageOf(w, u), OwnLane(w, u), u);
    match w.stages[u]
    case Parking =>
      m := Turn(u);
    case Connecting(_) =>
      var c := UnusedConn(w.checkedOut.Keys + w.closed);
      m := Connect(u, c);
      assert MoveNext(w, m).stages[u].Polling?;
    case Polling(_, _) =>
      m := Poll(u);
      assert MoveNext(w, m).stages[u].Body?;
    case Body(_) =>
      m := Exit(u);
      ExitChanges(w, u);
    case Unlocking(_) =>
      m := SendUnlock(u, Answered);
      assert !MoveNext(w, m).stages[u].Unlocking?;
    case Invalidating(_) =>
      m := Invalidate(u);
      assert MoveNext(w, m).stages[u].Closing?;
    case Closing(_) =>
      m := Close(u);
      assert MoveNext(w, m).stages[u].Releasing?;
    case Releasing =>
      m := Leave(u);
      assert u !in MoveNext(w, m).stages;
  }

  lemma ExitChanges(w: World, u: Task)
    requires LanesAgree(w) && MoveEnabled(w, Exit(u))
    ensures MoveNext(w, Exit(u)) != w
  {
    MoveIsLaneStep(w, Exit(u));
    if ExitsInnerBlock(w, u) {
      assert LaneAfter(w, Exit(u)).leases[u].depth != OwnLane(w, u).leases[u].depth;
    } else {
      assert MoveNext(w, Exit(u)).stages[u].Unlocking?;
    }
  }

  /**
   In no run, with cancellation at every await, do the processes deadlock: while any task is
   inside a block, some task can make a move, other than being cancelled, that changes the world.
   */
  lemma NoDeadlock(worlds: seq<World>, moves: seq<Move>, k: nat, t: Task) returns (u: Task, m: Move)
    requires IsHistory(worlds, moves) && k < |worlds| && t in worlds[k].stages
    ensures u in worlds[k].stages && !Blocked(worlds[k], u)
    ensures m.t == u && !m.Cancel? && MoveEnabled(worlds[k], m) && MoveNext(worlds[k], m) != worlds[k]
  {
    HistoryAgrees(worlds, moves, k);
    HistoryStaysAwake(worlds, moves, k);
    u := SomeoneCanMove(worlds[k], t);
    m := UnblockedMoves(worlds[k], u);
  }
}
