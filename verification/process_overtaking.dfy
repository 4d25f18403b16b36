/**
 How long an exclusive waiter can be kept waiting across processes. PostgreSQL's try-lock
 keeps no queue, so nothing makes a writer of another process wait for a rebuild that polls.
 */
module ProcessOvertaking {
  import opened Wrappers
  import opened IndexLane
  import opened AdvisoryLock
  import opened IndexProcesses

  /** `u` holds the process lock in a mode that excludes what `t` polls for. */
  predicate Excludes(w: World, t: Task, u: Task) {
    && u != t && u in w.stages && MayHoldLock(w.stages[u])
    && HeldBy(w.locks, w.stages[u].conn) != NoLocks
    && (ModeOf(w, t).Exclusive? || ModeOf(w, u).Exclusive?)
  }

  /**
   In every reachable world a poll is refused exactly while some other task, of whatever
   process, holds the lock in an incompatible mode: earlier requests make no difference.
   */
  lemma PollIsRefusedExactlyWhen(worlds: seq<World>, moves: seq<Move>, k: nat, t: Task)
    requires IsHistory(worlds, moves) && k < |worlds| && t in worlds[k].stages && worlds[k].stages[t].Polling?
    ensures PollRefused(worlds[k], t) <==> exists u :: Excludes(worlds[k], t, u)
  {
    HistoryAgrees(worlds, moves, k);
    var w := worlds[k];
    if PollRefused(w, t) {
      var d :| d in w.locks && d != w.stages[t].conn &&
               !(w.locks[d].exclusive == 0 && (ModeOf(w, t).Exclusive? ==> w.locks[d].shared == 0));
      HolderExcludes(w, t, d);
    }
    forall u | Excludes(w, t, u) ensures PollRefused(w, t) {
      ExcludedIsRefused(w, t, u);
    }
  }

  lemma HolderExcludes(w: World, t: Task, d: Conn)
    requires LocksAgree(w) && t in w.stages && w.stages[t].Polling? && d in w.locks && d != w.stages[t].conn
    requires !(w.locks[d].exclusive == 0 && (ModeOf(w, t).Exclusive? ==> w.locks[d].shared == 0))
    ensures d in w.checkedOut && Excludes(w, t, w.checkedOut[d])
  {
    assert ConnAgrees(w, d);
    assert w.checkedOut[d] != t;
  }

  lemma ExcludedIsRefused(w: World, t: Task, u: Task)
    requires LocksAgree(w) && t in w.stages && w.stages[t].Polling? && Excludes(w, t, u)
    ensures PollRefused(w, t)
  {
    var d := w.stages[u].conn;
    assert ConnAgrees(w, d);
    assert d in w.locks;
    assert w.checkedOut[w.stages[t].conn] == t;
  }

  // ---------- overtaking ----------

  /** Another task gets the process lock while `t` polls for it. */
  predicate Overtakes(w: World, m: Move, t: Task)
    requires MoveEnabled(w, m)
  {
    t in w.stages && w.stages[t].Polling? && m.Poll? && m.t != t && PollGranted(w, m.t)
  }

  predicate RefusedPoll(w: World, m: Move, t: Task) {
    m == Poll(t) && PollRefused(w, t)
  }

  function Overtakings(worlds: seq<World>, moves: seq<Move>, t: Task, n: nat): nat
    requires IsHistory(worlds, moves) && n <= |moves|
  {
    if n == 0 then 0 else Overtakings(worlds, moves, t, n - 1) + if Overtakes(worlds[n - 1], moves[n - 1], t) then 1 else 0
  }

  function Refusals(worlds: seq<World>, moves: seq<Move>, t: Task, n: nat): nat
    requires IsHistory(worlds, moves) && n <= |moves|
  {
    if n == 0 then 0 else Refusals(worlds, moves, t, n - 1) + if RefusedPoll(worlds[n - 1], moves[n - 1], t) then 1 else 0
  }

  ghost predicate Tally(worlds: seq<World>, moves: seq<Move>, t: Task, overtakings: nat, refusals: nat) {
    && IsHistory(worlds, moves)
    && (forall i :: 0 <= i < |moves| ==> !moves[i].Cancel?)
    && Overtakings(worlds, moves, t, |moves|) == overtakings
    && Refusals(worlds, moves, t, |moves|) == refusals
  }

  lemma {:induction false} CountsFrame(worlds: seq<World>, moves: seq<Move>, worlds': seq<World>, moves': seq<Move>, t: Task, n: nat)
    requires IsHistory(worlds, moves) && IsHistory(worlds', moves') && n <= |moves| <= |moves'|
    requires worlds'[..|worlds|] == worlds && moves'[..|moves|] == moves
    ensures Overtakings(worlds', moves', t, n) == Overtakings(worlds, moves, t, n)
    ensures Refusals(worlds', moves', t, n) == Refusals(worlds, moves, t, n)
  {
    if n > 0 {
      CountsFrame(worlds, moves, worlds', moves', t, n - 1);
      assert worlds'[..|worlds|][n - 1] == worlds'[n - 1] && moves'[..|moves|][n - 1] == moves'[n - 1];
    }
  }

  lemma Go(worlds: seq<World>, moves: seq<Move>, t: Task, o: nat, r: nat, m: Move) returns (worlds': seq<World>, moves': seq<Move>)
    requires Tally(worlds, moves, t, o, r) && MoveEnabled(worlds[|moves|], m) && !m.Cancel?
    ensures Tally(worlds', moves', t, o + (if Overtakes(worlds[|moves|], m, t) then 1 else 0),
                  r + (if RefusedPoll(worlds[|moves|], m, t) then 1 else 0))
    ensures worlds'[|moves'|] == MoveNext(worlds[|moves|], m)
  {
    var last := worlds[|moves|];
    var next := MoveNext(last, m);
    worlds', moves' := worlds + [next], moves + [m];
    forall i | 0 <= i < |moves'| ensures MoveEnabled(worlds'[i], moves'[i]) && worlds'[i + 1] == MoveNext(worlds'[i], moves'[i]) {
      if i < |moves| {
        assert worlds'[i] == worlds[i] && worlds'[i + 1] == worlds[i + 1] && moves'[i] == moves[i];
      } else {
        assert worlds'[i] == last && worlds'[i + 1] == next && moves'[i] == m;
      }
    }
    CountsFrame(worlds, moves, worlds', moves', t, |moves|);
  }

  // ---------- the shapes of one lap ----------

  function Writing(a: Task): Lane {
    Grant(IndexLane.Empty, a, "write", Shared)
  }

  /** The lane of a process when `a`, and then perhaps `b`, write, each in its own process. */
  function WritersLane(a: Task, b: Option<Task>, pid: nat): Lane {
    var l := if a.pid == pid then Writing(a) else IndexLane.Empty;
    if b.Some? && b.value.pid == pid then Grant(l, b.value, "write", Shared) else l
  }

  /** The rebuild of one process polls; the rest of the world is what the arguments say. */
  ghost predicate Shape(w: World, t: Task, stages: map<Task, Stage>, users: map<Conn, Task>, a: Task, b: Option<Task>, holding: set<Conn>) {
    && w.stages == stages[t := Polling(true, 0)] && w.checkedOut == users[0 := t] && w.closed == {}
    && OwnLane(w, t) == Grant(IndexLane.Empty, t, "rebuild", Exclusive)
    && (forall pid :: pid != t.pid ==> LaneOf(w, pid) == WritersLane(a, b, pid))
    && (forall c :: HeldBy(w.locks, c) == if c in holding then One(Shared) else NoLocks)
  }

  /** One writer is inside its body. */
  ghost predicate Contended(w: World, t: Task, a: Task, c: Conn) {
    c != 0 && a.pid != t.pid && Shape(w, t, map[a := Body(c)], map[c := a], a, None, {c})
  }

  /** Two are, of one process or of two. */
  ghost predicate Shared2(w: World, t: Task, a: Task, c: Conn, b: Task, d: Conn) {
    && c != 0 && d != 0 && c != d && a.pid != t.pid && b.pid != t.pid && a != b
    && Shape(w, t, map[a := Body(c), b := Body(d)], map[c := a, d := b], a, Some(b), {c, d})
  }

  ghost predicate Arriving(w: World, t: Task, a: Task, c: Conn, b: Task, s: Stage, users: map<Conn, Task>) {
    && c != 0 && a.pid != t.pid && b.pid != t.pid && a != b
    && Shape(w, t, map[a := Body(c), b := s], users, a, Some(b), {c})
  }

  lemma ArrivalBegins(w: World, t: Task, a: Task, c: Conn, b: Task)
    requires Contended(w, t, a, c) && b.pid != t.pid && b != a
    ensures var m := Enter(b, "write", true, Shared);
            MoveEnabled(w, m) && Arriving(MoveNext(w, m), t, a, c, b, Connecting(true), map[c := a])
  {
    var m := Enter(b, "write", true, Shared);
    assert LaneOf(w, b.pid) == WritersLane(a, None, b.pid);
    assert LaneAfter(w, m) == WritersLane(a, Some(b), b.pid);
    forall pid | pid != t.pid ensures LaneOf(MoveNext(w, m), pid) == WritersLane(a, Some(b), pid) {
      if pid != b.pid {
        assert LaneOf(MoveNext(w, m), pid) == LaneOf(w, pid) == WritersLane(a, None, pid);
      }
    }
    assert MoveNext(w, m).stages == map[a := Body(c), b := Connecting(true)][t := Polling(true, 0)];
  }

  lemma ArrivalConnects(w: World, t: Task, a: Task, c: Conn, b: Task, d: Conn)
    requires Arriving(w, t, a, c, b, Connecting(true), map[c := a]) && d != c && d != 0
    ensures var m := Connect(b, d);
            MoveEnabled(w, m) && Arriving(MoveNext(w, m), t, a, c, b, Polling(true, d), map[c := a, d := b])
  {
    var m := Connect(b, d);
    assert MoveNext(w, m).stages == map[a := Body(c), b := Polling(true, d)][t := Polling(true, 0)];
    assert MoveNext(w, m).checkedOut == map[c := a, d := b][0 := t];
  }

  lemma ArrivalEnters(w: World, t: Task, a: Task, c: Conn, b: Task, d: Conn)
    requires Arriving(w, t, a, c, b, Polling(true, d), map[c := a, d := b]) && d != c && d != 0
    ensures MoveEnabled(w, Poll(b)) && Overtakes(w, Poll(b), t) && Shared2(MoveNext(w, Poll(b)), t, a, c, b, d)
  {
    forall e | e in w.locks && e != d ensures w.locks[e].exclusive == 0 {
      assert HeldBy(w.locks, e) == w.locks[e];
    }
    assert HeldBy(w.locks, d) == NoLocks;
    assert MoveNext(w, Poll(b)).stages == map[a := Body(c), b := Body(d)][t := Polling(true, 0)];
  }

  /** Whoever holds the lock shared, the rebuild's poll is refused and changes nothing. */
  lemma PollInVain(w: World, t: Task, stages: map<Task, Stage>, users: map<Conn, Task>, a: Task, b: Option<Task>, holding: set<Conn>, c: Conn)
    requires Shape(w, t, stages, users, a, b, holding) && c in holding && 0 !in holding
    ensures MoveEnabled(w, Poll(t)) && RefusedPoll(w, Poll(t), t) && Shape(MoveNext(w, Poll(t)), t, stages, users, a, b, holding)
  {
    assert HeldBy(w.locks, c) == One(Shared);
    assert c in w.locks && w.locks[c].shared > 0;
    forall pid ensures LaneOf(MoveNext(w, Poll(t)), pid) == LaneOf(w, pid) {}
  }

  ghost predicate Leaving(w: World, t: Task, a: Task, b: Task, d: Conn, s: Stage, users: map<Conn, Task>, holding: set<Conn>) {
    && d != 0 && a.pid != t.pid && b.pid != t.pid && a != b
    && Shape(w, t, map[a := s, b := Body(d)], users, a, Some(b), holding)
  }

  /** The one who leaves holds one shared level, and without it the lane is as if the other wrote alone. */
  lemma LeaverSharesAlone(a: Task, b: Task)
    requires a != b
    ensures var l := WritersLane(a, Some(b), a.pid);
            && a in l.leases && l.leases[a] == Lease(Shared, "write", 1)
            && Release(l, a).0 == WritersLane(b, None, a.pid)
  {
    var l := WritersLane(a, Some(b), a.pid);
    assert Release(l, a).0.leases == WritersLane(b, None, a.pid).leases;
  }

  lemma LeaverExits(w: World, t: Task, a: Task, c: Conn, b: Task, d: Conn)
    requires Shared2(w, t, a, c, b, d)
    ensures MoveEnabled(w, Exit(a)) && Leaving(MoveNext(w, Exit(a)), t, a, b, d, Unlocking(c), map[c := a, d := b], {c, d})
  {
    LeaverSharesAlone(a, b);
    assert OwnLane(w, a) == WritersLane(a, Some(b), a.pid);
    assert MoveNext(w, Exit(a)).stages == map[a := Unlocking(c), b := Body(d)][t := Polling(true, 0)];
    forall pid ensures LaneOf(MoveNext(w, Exit(a)), pid) == LaneOf(w, pid) {}
  }

  lemma LeaverUnlocks(w: World, t: Task, a: Task, c: Conn, b: Task, d: Conn)
    requires Leaving(w, t, a, b, d, Unlocking(c), map[c := a, d := b], {c, d}) && c != d && c != 0
    ensures var m := SendUnlock(a, Answered);
            MoveEnabled(w, m) && Leaving(MoveNext(w, m), t, a, b, d, Closing(c), map[c := a, d := b], {d})
  {
    var m := SendUnlock(a, Answered);
    LeaverSharesAlone(a, b);
    assert OwnLane(w, a) == WritersLane(a, Some(b), a.pid);
    assert HeldBy(w.locks, c) == One(Shared);
    forall e ensures HeldBy(NextLocks(w, m), e) == if e == d then One(Shared) else NoLocks {
      assert HeldBy(w.locks, e) == if e in {c, d} then One(Shared) else NoLocks;
    }
    assert MoveNext(w, m).stages == map[a := Closing(c), b := Body(d)][t := Polling(true, 0)];
    forall pid ensures LaneOf(MoveNext(w, m), pid) == LaneOf(w, pid) {}
  }

  lemma LeaverCloses(w: World, t: Task, a: Task, c: Conn, b: Task, d: Conn)
    requires Leaving(w, t, a, b, d, Closing(c), map[c := a, d := b], {d}) && c != d && c != 0
    ensures MoveEnabled(w, Close(a)) && Leaving(MoveNext(w, Close(a)), t, a, b, d, Releasing, map[d := b], {d})
  {
    assert MoveNext(w, Close(a)).stages == map[a := Releasing, b := Body(d)][t := Polling(true, 0)];
    assert MoveNext(w, Close(a)).checkedOut == map[d := b][0 := t];
    forall pid ensures LaneOf(MoveNext(w, Close(a)), pid) == LaneOf(w, pid) {}
  }

  lemma LeaverLeaves(w: World, t: Task, a: Task, b: Task, d: Conn)
    requires Leaving(w, t, a, b, d, Releasing, map[d := b], {d})
    ensures MoveEnabled(w, Leave(a)) && Contended(MoveNext(w, Leave(a)), t, b, d)
  {
    var n := MoveNext(w, Leave(a));
    LeaverSharesAlone(a, b);
    assert OwnLane(w, a) == WritersLane(a, Some(b), a.pid);
    assert LaneAfter(w, Leave(a)) == WritersLane(b, None, a.pid);
    assert n.stages == map[b := Body(d)][t := Polling(true, 0)];
    forall pid | pid != t.pid ensures LaneOf(n, pid) == WritersLane(b, None, pid) {
      if pid != a.pid {
        assert LaneOf(n, pid) == LaneOf(w, pid);
      }
    }
  }

  /** The next writer comes in, the rebuild polls in vain, the last one leaves, and it polls in vain again. */
  lemma Lap(worlds: seq<World>, moves: seq<Move>, t: Task, o: nat, r: nat, a: Task, c: Conn, b: Task, d: Conn)
    returns (worlds': seq<World>, moves': seq<Move>)
    requires Tally(worlds, moves, t, o, r) && Contended(worlds[|moves|], t, a, c)
    requires b.pid != t.pid && b != a && d != 0 && d != c
    ensures Tally(worlds', moves', t, o + 1, r + 2) && Contended(worlds'[|moves'|], t, b, d)
  {
    worlds', moves' := Arrive(worlds, moves, t, o, r, a, c, b, d);
    worlds', moves' := PollAmongTwo(worlds', moves', t, o + 1, r, a, c, b, d);
    worlds', moves' := Depart(worlds', moves', t, o + 1, r + 1, a, c, b, d);
    worlds', moves' := PollBehindOne(worlds', moves', t, o + 1, r + 1, b, d);
  }

  lemma PollAmongTwo(worlds: seq<World>, moves: seq<Move>, t: Task, o: nat, r: nat, a: Task, c: Conn, b: Task, d: Conn)
    returns (worlds': seq<World>, moves': seq<Move>)
    requires Tally(worlds, moves, t, o, r) && Shared2(worlds[|moves|], t, a, c, b, d)
    ensures Tally(worlds', moves', t, o, r + 1) && Shared2(worlds'[|moves'|], t, a, c, b, d)
  {
    PollInVain(worlds[|moves|], t, map[a := Body(c), b := Body(d)], map[c := a, d := b], a, Some(b), {c, d}, c);
    worlds', moves' := Go(worlds, moves, t, o, r, Poll(t));
  }

  lemma PollBehindOne(worlds: seq<World>, moves: seq<Move>, t: Task, o: nat, r: nat, b: Task, d: Conn)
    returns (worlds': seq<World>, moves': seq<Move>)
    requires Tally(worlds, moves, t, o, r) && Contended(worlds[|moves|], t, b, d)
    ensures Tally(worlds', moves', t, o, r + 1) && Contended(worlds'[|moves'|], t, b, d)
  {
    PollInVain(worlds[|moves|], t, map[b := Body(d)], map[d := b], b, None, {d}, d);
    worlds', moves' := Go(worlds, moves, t, o, r, Poll(t));
  }

  lemma Arrive(worlds: seq<World>, moves: seq<Move>, t: Task, o: nat, r: nat, a: Task, c: Conn, b: Task, d: Conn)
    returns (worlds': seq<World>, moves': seq<Move>)
    requires Tally(worlds, moves, t, o, r) && Contended(worlds[|moves|], t, a, c)
    requires b.pid != t.pid && b != a && d != 0 && d != c
    ensures Tally(worlds', moves', t, o + 1, r) && Shared2(worlds'[|moves'|], t, a, c, b, d)
  {
    ArrivalBegins(worlds[|moves|], t, a, c, b);
    worlds', moves' := Go(worlds, moves, t, o, r, Enter(b, "write", true, Shared));
    ArrivalConnects(worlds'[|moves'|], t, a, c, b, d);
    worlds', moves' := Go(worlds', moves', t, o, r, Connect(b, d));
    ArrivalEnters(worlds'[|moves'|], t, a, c, b, d);
    worlds', moves' := Go(worlds', moves', t, o, r, Poll(b));
  }

  lemma Depart(worlds: seq<World>, moves: seq<Move>, t: Task, o: nat, r: nat, a: Task, c: Conn, b: Task, d: Conn)
    returns (worlds': seq<World>, moves': seq<Move>)
    requires Tally(worlds, moves, t, o, r) && Shared2(worlds[|moves|], t, a, c, b, d)
    ensures Tally(worlds', moves', t, o, r) && Contended(worlds'[|moves'|], t, b, d)
  {
    LeaverExits(worlds[|moves|], t, a, c, b, d);
    worlds', moves' := Go(worlds, moves, t, o, r, Exit(a));
    LeaverUnlocks(worlds'[|moves'|], t, a, c, b, d);
    worlds', moves' := Go(worlds', moves', t, o, r, SendUnlock(a, Answered));
    LeaverCloses(worlds'[|moves'|], t, a, c, b, d);
    worlds', moves' := Go(worlds', moves', t, o, r, Close(a));
    LeaverLeaves(worlds'[|moves'|], t, a, b, d);
    worlds', moves' := Go(worlds', moves', t, o, r, Leave(a));
  }

  /** Only one writer is anywhere. */
  ghost predicate Alone(w: World, a: Task, s: Stage, users: map<Conn, Task>, locks: Table) {
    w == World(map[a.pid := Writing(a)], map[a := s], users, locks, {})
  }

  lemma FirstSteps(a: Task)
    ensures var m := Enter(a, "write", true, Shared);
            MoveEnabled(Start, m) && Alone(MoveNext(Start, m), a, Connecting(true), map[], map[])
  {
    assert LaneAfter(Start, Enter(a, "write", true, Shared)) == Writing(a);
  }

  lemma FirstConnects(w: World, a: Task)
    requires Alone(w, a, Connecting(true), map[], map[])
    ensures MoveEnabled(w, Connect(a, 1)) && Alone(MoveNext(w, Connect(a, 1)), a, Polling(true, 1), map[1 := a], map[])
  {
  }

  lemma FirstIsAdmitted(w: World, a: Task)
    requires Alone(w, a, Polling(true, 1), map[1 := a], map[])
    ensures MoveEnabled(w, Poll(a)) && Alone(MoveNext(w, Poll(a)), a, Body(1), map[1 := a], map[1 := One(Shared)])
  {
    assert ModeOf(w, a).Shared?;
  }

  lemma FirstWriter(t: Task, a: Task) returns (worlds: seq<World>, moves: seq<Move>)
    requires a.pid != t.pid
    ensures Tally(worlds, moves, t, 0, 0) && Alone(worlds[|moves|], a, Body(1), map[1 := a], map[1 := One(Shared)])
  {
    FirstSteps(a);
    worlds, moves := Go([Start], [], t, 0, 0, Enter(a, "write", true, Shared));
    FirstConnects(worlds[|moves|], a);
    worlds, moves := Go(worlds, moves, t, 0, 0, Connect(a, 1));
    FirstIsAdmitted(worlds[|moves|], a);
    worlds, moves := Go(worlds, moves, t, 0, 0, Poll(a));
  }

  lemma RebuildEnters(w: World, t: Task, a: Task)
    requires Alone(w, a, Body(1), map[1 := a], map[1 := One(Shared)]) && a.pid != t.pid
    ensures var m := Enter(t, "rebuild", true, Exclusive);
            && MoveEnabled(w, m)
            && MoveNext(w, m) == World(map[a.pid := Writing(a), t.pid := Grant(IndexLane.Empty, t, "rebuild", Exclusive)],
                                       map[a := Body(1), t := Connecting(true)], map[1 := a], map[1 := One(Shared)], {})
  {
    var m := Enter(t, "rebuild", true, Exclusive);
    assert OwnLane(w, t) == IndexLane.Empty;
    assert LaneAfter(w, m) == Grant(IndexLane.Empty, t, "rebuild", Exclusive);
  }

  lemma RebuildConnects(w: World, t: Task, a: Task)
    requires a.pid != t.pid
    requires w == World(map[a.pid := Writing(a), t.pid := Grant(IndexLane.Empty, t, "rebuild", Exclusive)],
                        map[a := Body(1), t := Connecting(true)], map[1 := a], map[1 := One(Shared)], {})
    ensures MoveEnabled(w, Connect(t, 0)) && Contended(MoveNext(w, Connect(t, 0)), t, a, 1)
  {
    var n := MoveNext(w, Connect(t, 0));
    assert n.stages == map[a := Body(1)][t := Polling(true, 0)];
    assert n.checkedOut == map[1 := a][0 := t];
    forall pid ensures LaneOf(n, pid) == LaneOf(w, pid) {}
  }

  /** The first writer is in its body when the rebuild of another process begins to poll. */
  lemma Beginning(t: Task, a: Task) returns (worlds: seq<World>, moves: seq<Move>)
    requires a.pid != t.pid
    ensures Tally(worlds, moves, t, 0, 0) && Contended(worlds[|moves|], t, a, 1)
  {
    worlds, moves := FirstWriter(t, a);
    RebuildEnters(worlds[|moves|], t, a);
    worlds, moves := Go(worlds, moves, t, 0, 0, Enter(t, "rebuild", true, Exclusive));
    RebuildConnects(worlds[|moves|], t, a);
    worlds, moves := Go(worlds, moves, t, 0, 0, Connect(t, 0));
  }

  /** Two connections take turns. */
  function ConnFor(n: nat): (c: Conn)
    ensures c == 1 || c == 2
  {
    if n == 0 then 2 else 3 - ConnFor(n - 1)
  }

  /**
   None is of the rebuild's process, whose lane the rebuild holds, and each is another task than
   the one before it, which is still writing when it comes: a nested block does not ask again.
   */
  ghost predicate FromOtherProcesses(writers: seq<Task>, t: Task) {
    && (forall i :: 0 <= i < |writers| ==> writers[i].pid != t.pid)
    && (forall i :: 0 < i < |writers| ==> writers[i] != writers[i - 1])
  }

  lemma {:induction false} FirstOvertake(writers: seq<Task>, t: Task, n: nat) returns (worlds: seq<World>, moves: seq<Move>)
    requires 1 <= n <= |writers| && FromOtherProcesses(writers, t)
    ensures Tally(worlds, moves, t, n - 1, 2 * (n - 1)) && Contended(worlds[|moves|], t, writers[n - 1], ConnFor(n))
  {
    if n == 1 {
      worlds, moves := Beginning(t, writers[0]);
      assert ConnFor(0) == 2 && ConnFor(1) == 1;
    } else {
      worlds, moves := FirstOvertake(writers, t, n - 1);
      assert ConnFor(n) == 3 - ConnFor(n - 1);
      worlds, moves := Lap(worlds, moves, t, n - 2, 2 * (n - 2), writers[n - 2], ConnFor(n - 1), writers[n - 1], ConnFor(n));
    }
  }

  /**
   Even with concurrent writes, and nothing cancelled: a rebuild that polls while the first of
   any number of writers is in its body is overtaken by all others and refused twice for each.
   */
  lemma WritersOvertakeAcrossProcesses(writers: seq<Task>, t: Task) returns (worlds: seq<World>, moves: seq<Move>)
    requires |writers| >= 1 && FromOtherProcesses(writers, t)
    ensures Tally(worlds, moves, t, |writers| - 1, 2 * (|writers| - 1))
    ensures t in worlds[|moves|].stages && worlds[|moves|].stages[t].Polling?
  {
    worlds, moves := FirstOvertake(writers, t, |writers|);
  }
}
