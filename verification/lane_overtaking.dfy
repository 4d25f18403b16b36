/**
 How long an exclusive waiter can be kept waiting in one lane. Shared leases never pass it,
 but an exclusive request does whenever it finds the lane free before the waiter has had its
 turn: the guard of `_acquire_exclusive` does not look at the waiting count.
 */
module LaneOvertaking {
  import opened Wrappers
  import opened IndexLane

  /** The mode of a new outermost lease the block asks for. */
  function Asks(l: Lane, a: Act): Option<Mode>
    requires Enabled(l, a)
  {
    match a
    case DoAcquire(t, _, _, mode) => if t in l.leases then None else Some(mode)
    case DoResume(t) => Some(l.waiters[t].mode)
    case _ => None
  }

  predicate Enters(l: Lane, a: Act)
    requires Enabled(l, a)
  {
    a.t !in l.leases && a.t in Next(l, a).leases
  }

  predicate GrantsExclusive(l: Lane, a: Act)
    requires Enabled(l, a)
  {
    Enters(l, a) && Next(l, a).leases[a.t].mode.Exclusive?
  }

  predicate WaitsExclusively(l: Lane, t: Task) {
    t in l.waiters && l.waiters[t].mode.Exclusive?
  }

  /**
   Who can pass a registered exclusive waiter: exactly a task that asks for an exclusive
   lease itself, at a moment when nobody holds the lane.
   */
  lemma PassesExactlyWhen(l: Lane, t: Task, a: Act)
    requires Consistent(l) && Enabled(l, a) && WaitsExclusively(l, t) && a.t != t
    ensures Enters(l, a) <==> Asks(l, a) == Some(Exclusive) && ExclusiveAvailable(l)
    ensures Enters(l, a) ==> GrantsExclusive(l, a)
  {
    assert t in Waiting(l.waiters, Exclusive);
  }

  ghost predicate AnExclusiveGrant(states: seq<Lane>, acts: seq<Act>, i: nat, j: nat)
    requires IsRun(states, acts) && i <= j < |states|
  {
    exists k :: i <= k < j && GrantsExclusive(states[k], acts[k])
  }

  lemma {:induction false} NoNewHolders(states: seq<Lane>, acts: seq<Act>, i: nat, j: nat)
    requires IsRun(states, acts) && states[0] == Empty && i <= j < |states|
    requires forall k :: i <= k <= j ==> states[k].waitingExclusive > 0
    requires !AnExclusiveGrant(states, acts, i, j)
    ensures states[j].leases.Keys <= states[i].leases.Keys
  {
    if i < j {
      forall k | i <= k < j - 1 ensures !GrantsExclusive(states[k], acts[k]) {
        assert i <= k < j;
      }
      NoNewHolders(states, acts, i, j - 1);
      RunIsNotStuck(states, acts, j - 1);
    }
  }

  /** Some exclusive waiter has been notified and enters at its next turn. */
  ghost predicate ExclusiveIsReady(l: Lane) {
    exists t :: WaitsExclusively(l, t) && l.waiters[t].notified && Resume(l, t).1 == Granted(true, Exclusive)
  }

  /**
   In every run, whatever is cancelled, while exclusive waiters are registered: once those
   who held the lane at `i` have left, an exclusive lease has been granted meanwhile or an
   exclusive waiter enters at its next turn, however many writers arrived.
   */
  lemma ExclusiveIsNext(states: seq<Lane>, acts: seq<Act>, i: nat, j: nat)
    requires IsRun(states, acts) && states[0] == Empty && i <= j < |states|
    requires forall k :: i <= k <= j ==> states[k].waitingExclusive > 0
    requires forall u :: u in states[i].leases ==> u !in states[j].leases
    ensures AnExclusiveGrant(states, acts, i, j) || ExclusiveIsReady(states[j])
  {
    if !AnExclusiveGrant(states, acts, i, j) {
      NoNewHolders(states, acts, i, j);
      RunIsNotStuck(states, acts, j);
      var l := states[j];
      assert l.leases.Keys == {};
      assert Holding(l.leases, Shared) == {};
      var t :| t in Waiting(l.waiters, Exclusive);
      assert WaitsExclusively(l, t) && l.waiters[t].notified;
    }
  }

  // ---------- overtaking ----------

  /** The step gives another task the lane while `t` is registered as an exclusive waiter. */
  predicate OvertakenAt(states: seq<Lane>, acts: seq<Act>, t: Task, k: nat)
    requires k < |acts| && k < |states| && Enabled(states[k], acts[k])
  {
    WaitsExclusively(states[k], t) && acts[k].t != t && Enters(states[k], acts[k])
  }

  function Overtakings(states: seq<Lane>, acts: seq<Act>, t: Task, n: nat): nat
    requires n <= |acts| <= |states| && forall i :: 0 <= i < |acts| ==> Enabled(states[i], acts[i])
  {
    if n == 0 then 0 else Overtakings(states, acts, t, n - 1) + if OvertakenAt(states, acts, t, n - 1) then 1 else 0
  }

  /** How often the task has had its turn in the wait loop. */
  function Turns(acts: seq<Act>, t: Task, n: nat): nat
    requires n <= |acts|
  {
    if n == 0 then 0 else Turns(acts, t, n - 1) + if acts[n - 1] == DoResume(t) then 1 else 0
  }

  /** Besides what `t` does, all requests are those of write operations, and nothing is cancelled. */
  ghost predicate OnlyWritesBeside(acts: seq<Act>, t: Task, allowConcurrentWrites: bool) {
    forall i :: 0 <= i < |acts| ==>
      && !acts[i].DoCancel?
      && (acts[i].DoAcquire? && acts[i].t != t ==> acts[i].wait && acts[i].mode == WriteMode(allowConcurrentWrites))
  }

  const WRITE := "write"
  const REBUILD := "rebuild"

  /** One serialized write holds the lane and a rebuild sleeps behind it. */
  function Behind(w: Task, t: Task): Lane {
    Lane(map[w := Lease(Exclusive, WRITE, 1)], Some(w), 0, 1, Some(WRITE), map[t := Waiter(Exclusive, REBUILD, false)])
  }

  ghost predicate OvertakingRun(states: seq<Lane>, acts: seq<Act>, t: Task, last: Task, overtakings: nat) {
    && IsRun(states, acts) && states[0] == Empty && states[|acts|] == Behind(last, t)
    && OnlyWritesBeside(acts, t, false)
    && Overtakings(states, acts, t, |acts|) == overtakings && Turns(acts, t, |acts|) == overtakings
  }

  lemma {:induction false} CountsFrame(states: seq<Lane>, acts: seq<Act>, states': seq<Lane>, acts': seq<Act>, t: Task, n: nat)
    requires n <= |acts| <= |states| && forall i :: 0 <= i < |acts| ==> Enabled(states[i], acts[i])
    requires |acts| <= |acts'| <= |states'| && forall i :: 0 <= i < |acts'| ==> Enabled(states'[i], acts'[i])
    requires forall i :: 0 <= i < |acts| ==> states'[i] == states[i] && acts'[i] == acts[i]
    ensures Overtakings(states', acts', t, n) == Overtakings(states, acts, t, n)
    ensures Turns(acts', t, n) == Turns(acts, t, n)
  {
    if n > 0 {
      CountsFrame(states, acts, states', acts', t, n - 1);
    }
  }

  /** The write leaves, the next one comes first, and the rebuild has its turn in vain. */
  lemma OneMoreWrite(states: seq<Lane>, acts: seq<Act>, t: Task, w: Task, next: Task, n: nat) returns (states': seq<Lane>, acts': seq<Act>)
    requires OvertakingRun(states, acts, t, w, n) && w != t && next != t
    ensures OvertakingRun(states', acts', t, next, n + 1)
  {
    var lap := [DoRelease(w), DoAcquire(next, WRITE, true, WriteMode(false)), DoResume(t)];
    var l0 := Behind(w, t);
    var l1 := Next(l0, lap[0]);
    assert l1 == Lane(map[], None, 0, 1, None, map[t := Waiter(Exclusive, REBUILD, true)]);
    var l2 := Next(l1, lap[1]);
    var l3 := Next(l2, lap[2]);
    assert l3 == Behind(next, t);
    states', acts' := states + [l1, l2, l3], acts + lap;
    var m := |acts|;
    assert states'[m] == l0 && states'[m + 1] == l1 && states'[m + 2] == l2 && states'[m + 3] == l3;
    assert acts'[m] == lap[0] && acts'[m + 1] == lap[1] && acts'[m + 2] == lap[2];
    forall i | 0 <= i < |acts'| ensures Enabled(states'[i], acts'[i]) && states'[i + 1] == Next(states'[i], acts'[i]) {
      if i < m {
        assert states'[i] == states[i] && states'[i + 1] == states[i + 1] && acts'[i] == acts[i];
      }
    }
    CountsFrame(states, acts, states', acts', t, m);
    LapCounts(states', acts', t, m);
  }

  lemma LapCounts(states: seq<Lane>, acts: seq<Act>, t: Task, m: nat)
    requires m + 3 == |acts| <= |states| && forall i :: 0 <= i < |acts| ==> Enabled(states[i], acts[i])
    requires !OvertakenAt(states, acts, t, m) && OvertakenAt(states, acts, t, m + 1) && !OvertakenAt(states, acts, t, m + 2)
    requires acts[m] != DoResume(t) && acts[m + 1] != DoResume(t) && acts[m + 2] == DoResume(t)
    ensures Overtakings(states, acts, t, m + 3) == Overtakings(states, acts, t, m) + 1
    ensures Turns(acts, t, m + 3) == Turns(acts, t, m) + 1
  {
    assert Overtakings(states, acts, t, m + 1) == Overtakings(states, acts, t, m);
    assert Overtakings(states, acts, t, m + 2) == Overtakings(states, acts, t, m) + 1;
    assert Turns(acts, t, m + 2) == Turns(acts, t, m + 1) == Turns(acts, t, m);
  }

  /**
   With serialized writes, a rebuild that queued behind the first of any number of writes is
   overtaken by every other one, although it has its turn after each.
   */
  lemma {:induction false} SerializedWritesOvertake(writers: seq<Task>, t: Task) returns (states: seq<Lane>, acts: seq<Act>)
    requires |writers| >= 1 && t !in writers
    ensures OvertakingRun(states, acts, t, writers[|writers| - 1], |writers| - 1)
  {
    var last := |writers| - 1;
    if last == 0 {
      acts := [DoAcquire(writers[0], WRITE, true, WriteMode(false)), DoAcquire(t, REBUILD, true, Exclusive)];
      var l1 := Next(Empty, acts[0]);
      var l2 := Next(l1, acts[1]);
      states := [Empty, l1, l2];
      assert l2 == Behind(writers[0], t);
      assert Overtakings(states, acts, t, 0) == 0 && Turns(acts, t, 0) == 0;
      assert !OvertakenAt(states, acts, t, 0) && !OvertakenAt(states, acts, t, 1);
      assert Overtakings(states, acts, t, 1) == 0 && Turns(acts, t, 1) == 0;
    } else {
      states, acts := SerializedWritesOvertake(writers[..last], t);
      states, acts := OneMoreWrite(states, acts, t, writers[last - 1], writers[last], last - 1);
    }
  }

  // ---------- exactly when writes overtake ----------

  predicate SharesAt(l: Lane, u: Task) {
    (u in l.leases ==> l.leases[u].mode.Shared?) && (u in l.waiters ==> l.waiters[u].mode.Shared?)
  }

  ghost predicate OthersShare(l: Lane, t: Task) {
    forall u :: u != t ==> SharesAt(l, u)
  }

  lemma {:induction false} ConcurrentWritesShare(states: seq<Lane>, acts: seq<Act>, t: Task, k: nat)
    requires IsRun(states, acts) && states[0] == Empty && OnlyWritesBeside(acts, t, true) && k < |states|
    ensures Consistent(states[k]) && OthersShare(states[k], t)
  {
    RunIsNotStuck(states, acts, k);
    if k > 0 {
      ConcurrentWritesShare(states, acts, t, k - 1);
      StepKeepsSharing(states[k - 1], acts[k - 1], t);
    }
  }

  lemma StepKeepsSharingOf(l: Lane, a: Act, t: Task, u: Task)
    requires Consistent(l) && OthersShare(l, t) && Enabled(l, a) && u != t
    requires a.DoAcquire? && a.t != t ==> a.mode.Shared?
    ensures SharesAt(Next(l, a), u)
  {
    assert SharesAt(l, u);
    if a.t != u {
      StepFramesOthers(l, u, a);
    }
  }

  lemma StepKeepsSharing(l: Lane, a: Act, t: Task)
    requires Consistent(l) && OthersShare(l, t) && Enabled(l, a)
    requires a.DoAcquire? && a.t != t ==> a.mode.Shared?
    ensures OthersShare(Next(l, a), t)
  {
    forall u | u != t ensures SharesAt(Next(l, a), u) {
      StepKeepsSharingOf(l, a, t, u);
    }
  }

  ghost predicate IsOvertaken(states: seq<Lane>, acts: seq<Act>, t: Task)
    requires IsRun(states, acts)
  {
    exists k :: 0 <= k < |acts| && OvertakenAt(states, acts, t, k)
  }

  lemma {:induction false} SomeOvertaking(states: seq<Lane>, acts: seq<Act>, t: Task, n: nat)
    requires IsRun(states, acts) && n <= |acts| && Overtakings(states, acts, t, n) > 0
    ensures IsOvertaken(states, acts, t)
  {
    if !OvertakenAt(states, acts, t, n - 1) {
      SomeOvertaking(states, acts, t, n - 1);
    }
  }

  /** Beside write operations alone, a rebuild can be overtaken exactly when they do not run concurrently. */
  lemma WritesOvertakeExactlyWhen(t: Task, allowConcurrentWrites: bool)
    ensures (exists states: seq<Lane>, acts: seq<Act> ::
               IsRun(states, acts) && states[0] == Empty && OnlyWritesBeside(acts, t, allowConcurrentWrites) && IsOvertaken(states, acts, t))
            <==> !allowConcurrentWrites
  {
    if allowConcurrentWrites {
      forall states: seq<Lane>, acts: seq<Act>, k: nat
        | IsRun(states, acts) && states[0] == Empty && OnlyWritesBeside(acts, t, true) && k < |acts|
        ensures !OvertakenAt(states, acts, t, k)
      {
        ConcurrentWritesShare(states, acts, t, k);
        if WaitsExclusively(states[k], t) && acts[k].t != t {
          assert SharesAt(states[k], acts[k].t);
          PassesExactlyWhen(states[k], t, acts[k]);
        }
      }
    } else {
      var w := Task(t.pid, t.id + 1);
      var states, acts := SerializedWritesOvertake([w, w], t);
      SomeOvertaking(states, acts, t, |acts|);
    }
  }
}
