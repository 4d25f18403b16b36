/**
 PostgreSQL session-level advisory locks on one key, as a table from connection
 (session) to the locks that session holds. A session's own locks never conflict with
 each other and they stack, so a connection that went back to the pool with a live lock
 would let its next user in past everybody else.
 */
module AdvisoryLock {
  import opened IndexLane

  type Conn = nat

  datatype Held = Held(shared: nat, exclusive: nat)

  type Table = map<Conn, Held>

  const NoLocks := Held(0, 0)

  function HeldBy(table: Table, c: Conn): Held {
    if c in table then table[c] else NoLocks
  }

  function One(mode: Mode): Held {
    match mode
    case Shared => Held(1, 0)
    case Exclusive => Held(0, 1)
  }

  predicate Admits(table: Table, c: Conn, mode: Mode) {
    forall d :: d in table && d != c ==>
      table[d].exclusive == 0 && (mode.Exclusive? ==> table[d].shared == 0)
  }

  /** `pg_try_advisory_lock` and its shared form: the new table and whether it was granted. */
  function TryLock(table: Table, c: Conn, mode: Mode): (Table, bool) {
    if !Admits(table, c, mode) then (table, false)
    else
      var h := HeldBy(table, c);
      (table[c := if mode.Shared? then h.(shared := h.shared + 1) else h.(exclusive := h.exclusive + 1)], true)
  }

  /** `pg_advisory_unlock` and its shared form: false reports an unmatched release. */
  function Unlock(table: Table, c: Conn, mode: Mode): (Table, bool) {
    var h := HeldBy(table, c);
    if mode.Shared? && h.shared > 0 then (table[c := h.(shared := h.shared - 1)], true)
    else if mode.Exclusive? && h.exclusive > 0 then (table[c := h.(exclusive := h.exclusive - 1)], true)
    else (table, false)
  }

  /** Closing the session drops everything it held. */
  function CloseSession(table: Table, c: Conn): Table {
    table - {c}
  }

  /**
   A lock is granted exactly when no other session holds an exclusive one and, for an exclusive
   one, no other session holds any; granted, the session holds one more of its mode.
   */
  lemma TryLockIsExact(table: Table, c: Conn, mode: Mode)
    ensures var (n, granted) := TryLock(table, c, mode);
            && (granted <==> forall d :: d != c ==>
                  HeldBy(table, d).exclusive == 0 && (mode.Exclusive? ==> HeldBy(table, d) == NoLocks))
            && (!granted ==> n == table)
            && (granted ==>
                  && HeldBy(n, c).shared == HeldBy(table, c).shared + (if mode.Shared? then 1 else 0)
                  && HeldBy(n, c).exclusive == HeldBy(table, c).exclusive + (if mode.Exclusive? then 1 else 0)
                  && (forall d :: d != c ==> HeldBy(n, d) == HeldBy(table, d)))
  {
    if forall d :: d != c ==> HeldBy(table, d).exclusive == 0 && (mode.Exclusive? ==> HeldBy(table, d) == NoLocks) {
      forall d | d in table && d != c ensures table[d].exclusive == 0 && (mode.Exclusive? ==> table[d].shared == 0) {
        assert HeldBy(table, d) == table[d];
      }
    }
  }

  /** A release matches exactly a lock the session holds in that mode, and takes one of them. */
  lemma UnlockIsExact(table: Table, c: Conn, mode: Mode)
    ensures var (n, matched) := Unlock(table, c, mode);
            && (matched <==> if mode.Shared? then HeldBy(table, c).shared > 0 else HeldBy(table, c).exclusive > 0)
            && (!matched ==> n == table)
            && (matched ==>
                  && HeldBy(n, c).shared == HeldBy(table, c).shared - (if mode.Shared? then 1 else 0)
                  && HeldBy(n, c).exclusive == HeldBy(table, c).exclusive - (if mode.Exclusive? then 1 else 0)
                  && (forall d :: d != c ==> HeldBy(n, d) == HeldBy(table, d)))
  {
  }

  /** An exclusive session holds alone. */
  ghost predicate Safe(table: Table) {
    forall c, d :: c in table && d in table && c != d && table[c].exclusive > 0 ==> table[d] == NoLocks
  }

  lemma TryLockSafe(table: Table, c: Conn, mode: Mode)
    requires Safe(table)
    ensures Safe(TryLock(table, c, mode).0)
  {
  }

  /** Unlocking undoes a granted lock: every session holds what it held before. */
  lemma UnlockUndoesTryLock(table: Table, c: Conn, mode: Mode, d: Conn)
    requires TryLock(table, c, mode).1
    ensures Unlock(TryLock(table, c, mode).0, c, mode).1
    ensures HeldBy(Unlock(TryLock(table, c, mode).0, c, mode).0, d) == HeldBy(table, d)
  {
  }
}
