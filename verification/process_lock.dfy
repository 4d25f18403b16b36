/**
 The process lock object: polling for the session lock, and releasing it or discarding
 the connection. `sleeps` lists what other sessions do during each pause between polls;
 when it runs out the caller has been cancelled in its sleep.
 */
module ProcessLock {
  import opened IndexLane
  import opened AdvisoryLock

  datatype SessionAct = Takes(conn: Conn, mode: Mode) | Gives(conn: Conn, mode: Mode) | Ends(conn: Conn)

  datatype Fate = Answered | LostBefore | LostAfter

  datatype Verdict = Ran | Busy | CancelledInSleep | ReleaseFailed

  /** Other sessions act; nothing but its own session touches what `c` holds. */
  function Others(table: Table, c: Conn, acts: seq<SessionAct>): (r: Table)
    ensures HeldBy(r, c) == HeldBy(table, c)
    ensures Safe(table) ==> Safe(r)
    decreases |acts|
  {
    if acts == [] then table
    else
      var a := acts[0];
      var next :=
        if a.conn == c then table
        else match a
          case Takes(d, mode) => TryLock(table, d, mode).0
          case Gives(d, mode) => Unlock(table, d, mode).0
          case Ends(d) => CloseSession(table, d);
      Others(next, c, acts[1..])
  }

  function PollUntil(table: Table, c: Conn, mode: Mode, sleeps: seq<seq<SessionAct>>): (r: (Table, bool))
    ensures Safe(table) ==> Safe(r.0)
    ensures HeldBy(table, c) == NoLocks ==> HeldBy(r.0, c) == if r.1 then One(mode) else NoLocks
    decreases |sleeps|
  {
    var (taken, granted) := TryLock(table, c, mode);
    if granted then (taken, true)
    else if sleeps == [] then (table, false)
    else PollUntil(Others(table, c, sleeps[0]), c, mode, sleeps[1..])
  }

  /** The poll gives up only if every attempt it made was refused. */
  lemma {:induction false} PollTakesFirstChance(table: Table, c: Conn, mode: Mode, sleeps: seq<seq<SessionAct>>, k: nat)
    requires k <= |sleeps| && Admits(After(table, c, sleeps, k), c, mode)
    ensures PollUntil(table, c, mode, sleeps).1
    decreases |sleeps|
  {
    if k > 0 && !TryLock(table, c, mode).1 {
      PollTakesFirstChance(Others(table, c, sleeps[0]), c, mode, sleeps[1..], k - 1);
    }
  }

  /** It goes on exactly until an attempt is admitted, and gives up exactly if none of them is. */
  lemma {:induction false} PollSucceedsExactlyWhen(table: Table, c: Conn, mode: Mode, sleeps: seq<seq<SessionAct>>)
    ensures PollUntil(table, c, mode, sleeps).1 <==> exists k :: 0 <= k <= |sleeps| && Admits(After(table, c, sleeps, k), c, mode)
    decreases |sleeps|
  {
    if k :| 0 <= k <= |sleeps| && Admits(After(table, c, sleeps, k), c, mode) {
      PollTakesFirstChance(table, c, mode, sleeps, k);
    }
    if PollUntil(table, c, mode, sleeps).1 {
      if Admits(table, c, mode) {
        assert After(table, c, sleeps, 0) == table;
      } else {
        PollSucceedsExactlyWhen(Others(table, c, sleeps[0]), c, mode, sleeps[1..]);
        var k: nat :| k <= |sleeps[1..]| && Admits(After(Others(table, c, sleeps[0]), c, sleeps[1..], k), c, mode);
        assert After(table, c, sleeps, k + 1) == After(Others(table, c, sleeps[0]), c, sleeps[1..], k);
      }
    }
  }

  /** The table after `k` pauses in which this session got nothing. */
  function After(table: Table, c: Conn, sleeps: seq<seq<SessionAct>>, k: nat): Table
    requires k <= |sleeps|
    decreases k
  {
    if k == 0 then table else After(Others(table, c, sleeps[0]), c, sleeps[1..], k - 1)
  }

  class PostgresServer {
    var table: Table

    constructor ()
      ensures table == map[]
    {
      table := map[];
    }
  }

  class PostgresAdvisoryLock {
    const server: PostgresServer

    constructor (server: PostgresServer)
      ensures this.server == server
    {
      this.server := server;
    }

    method WaitUntilAcquired(c: Conn, mode: Mode, sleeps: seq<seq<SessionAct>>) returns (acquired: bool)
      modifies server
      ensures (server.table, acquired) == PollUntil(old(server.table), c, mode, sleeps)
    {
      var i := 0;
      while true
        invariant i <= |sleeps|
        invariant PollUntil(server.table, c, mode, sleeps[i..]) == PollUntil(old(server.table), c, mode, sleeps)
        decreases |sleeps| - i
      {
        var (taken, granted) := TryLock(server.table, c, mode);
        if granted {
          server.table := taken;
          return true;
        }
        if i == |sleeps| {
          return false;
        }
        assert sleeps[i..][1..] == sleeps[i + 1..];
        server.table := Others(server.table, c, sleeps[i]);
        i := i + 1;
      }
    }

    /** Unlocks, or drops the session when the answer is not a matched release. */
    method ReleaseOrInvalidate(c: Conn, mode: Mode, fate: Fate) returns (invalidated: bool)
      modifies server
      ensures old(HeldBy(server.table, c)) == One(mode) ==> HeldBy(server.table, c) == NoLocks
      ensures Safe(old(server.table)) ==> Safe(server.table)
      ensures forall d :: d != c ==> HeldBy(server.table, d) == HeldBy(old(server.table), d)
      ensures invalidated <==> !fate.Answered? || !Unlock(old(server.table), c, mode).1
    {
      var (table, released) := Unlock(server.table, c, mode);
      if fate.LostBefore? {
        released := false;
      } else {
        server.table := table;
      }
      if !fate.Answered? || !released {
        server.table := CloseSession(server.table, c);
        return true;
      }
      return false;
    }

    /**
     One whole use of the lock around a body during which other sessions do `during`.
     However it ends, the connection goes back holding nothing; the body runs only while
     the session holds exactly the requested lock and no incompatible session does.
     */
    method Operation(c: Conn, wait: bool, mode: Mode, sleeps: seq<seq<SessionAct>>, during: seq<SessionAct>, fate: Fate)
      returns (verdict: Verdict, atEntry: Table, atExit: Table)
      requires Safe(server.table) && HeldBy(server.table, c) == NoLocks
      modifies server
      ensures Safe(server.table) && HeldBy(server.table, c) == NoLocks
      ensures verdict.Ran? || verdict.ReleaseFailed? ==>
                HeldBy(atEntry, c) == One(mode) && Safe(atEntry) && HeldBy(atExit, c) == One(mode) && Safe(atExit)
      ensures verdict.Ran? || verdict.ReleaseFailed? <==>
                PollUntil(old(server.table), c, mode, if wait then sleeps else []).1
      ensures !wait && !Admits(old(server.table), c, mode) ==> verdict.Busy? && server.table == old(server.table)
    {
      var acquired := false;
      atEntry, atExit := server.table, server.table;
      if wait {
        acquired := WaitUntilAcquired(c, mode, sleeps);
        if !acquired {
          return CancelledInSleep, atEntry, atExit;
        }
      } else {
        var (taken, granted) := TryLock(server.table, c, mode);
        if !granted {
          return Busy, atEntry, atExit;
        }
        TryLockSafe(server.table, c, mode);
        server.table := taken;
      }
      atEntry := server.table;
      server.table := Others(server.table, c, during);
      atExit := server.table;
      var invalidated := ReleaseOrInvalidate(c, mode, fate);
      verdict := if invalidated then ReleaseFailed else Ran;
    }
  }
}
