/**
 Approval calls in flight. A call checks the request, decides, and records a failure, in
 three separate transactions, with other calls and any other transaction in between.
 */
module OAuthAttempts {
  import opened Finite
  import opened Wrappers
  import opened OAuthStore

  datatype Stage = Deciding | Recording

  datatype InFlight = InFlight(request: string, stage: Stage)

  datatype World = World(store: Store, calls: map<nat, InFlight>)

  const Start := World(NoRows, map[])

  datatype Act =
    | Check(call: nat, request: string, now: Epoch)
    | DecideApprove(call: nat, codeHash: string, codeExpiresAt: Epoch, now: Epoch, pairing: Option<string>)
    | DecideDeny(call: nat, now: Epoch, pairing: Option<string>)
    | Record(call: nat, now: Epoch)
    | Drop(call: nat)
    | Other(tx: Tx)

  /** Transactions that do not belong to an approval call. */
  predicate IsOther(tx: Tx) {
    !tx.TxRecordFailed? && !tx.TxApprove? && !tx.TxDeny?
  }

  predicate Enabled(w: World, a: Act) {
    match a
    case Check(call, _, _) => call !in w.calls
    case DecideApprove(call, _, _, _, _) => call in w.calls && w.calls[call].stage.Deciding?
    case DecideDeny(call, _, _) => call in w.calls && w.calls[call].stage.Deciding?
    case Record(call, _) => call in w.calls && w.calls[call].stage.Recording?
    case Drop(call) => call in w.calls
    case Other(tx) => IsOther(tx)
  }

  /** The request can still be decided and is not locked. */
  predicate CheckPasses(s: Store, max: nat, id: string, now: Epoch) {
    RequestPending(s, id, now) && s.requests[id].attempts < max
  }

  function Settle(w: World, call: nat, s: Store, decided: bool): World
    requires call in w.calls
  {
    World(s, if decided then w.calls - {call} else w.calls[call := w.calls[call].(stage := Recording)])
  }

  function Next(w: World, max: nat, a: Act): World
    requires Enabled(w, a)
  {
    match a
    case Check(call, id, now) =>
      if CheckPasses(w.store, max, id, now) then w.(calls := w.calls[call := InFlight(id, Deciding)]) else w
    case DecideApprove(call, codeHash, codeExpiresAt, now, pairing) =>
      var (s, issued) := Approve(w.store, w.calls[call].request, codeHash, codeExpiresAt, now, pairing);
      Settle(w, call, s, issued.Some?)
    case DecideDeny(call, now, pairing) =>
      var (s, denied) := Deny(w.store, w.calls[call].request, now, pairing);
      Settle(w, call, s, denied)
    case Record(call, now) => World(RecordFailedApproval(w.store, w.calls[call].request, now).0, w.calls - {call})
    case Drop(call) => w.(calls := w.calls - {call})
    case Other(tx) => w.(store := Commit(w.store, tx))
  }

  /** The calls between their check and their end on one request. */
  function Flight(calls: map<nat, InFlight>, id: string): set<nat> {
    set c | c in calls && calls[c].request == id
  }

  lemma FlightAfter(calls: map<nat, InFlight>, call: nat, f: InFlight, id: string)
    ensures Flight(calls[call := f], id) == Flight(calls, id) - {call} + (if f.request == id then {call} else {})
    ensures Flight(calls - {call}, id) == Flight(calls, id) - {call}
  {
  }

  ghost predicate IsRun(worlds: seq<World>, max: nat, acts: seq<Act>) {
    && max >= 1
    && |worlds| == |acts| + 1
    && worlds[0] == Start
    && forall i :: 0 <= i < |acts| ==> Enabled(worlds[i], acts[i]) && worlds[i + 1] == Next(worlds[i], max, acts[i])
  }

  /** Attempts already counted and attempts still to come stay under the bound together. */
  ghost predicate Bounded(w: World, max: nat, k: nat, id: string) {
    id in w.store.requests ==> w.store.requests[id].attempts + |Flight(w.calls, id)| <= max - 1 + k
  }

  /** No transaction but a recorded failure raises a count; new requests start at zero. */
  lemma TxKeepsAttempts(s: Store, tx: Tx, id: string)
    requires !tx.TxRecordFailed? && id in Commit(s, tx).requests
    ensures Commit(s, tx).requests[id].attempts == if id in s.requests then s.requests[id].attempts else 0
  {
  }

  lemma DecideStaysBounded(w: World, max: nat, k: nat, call: nat, tx: Tx, decided: bool, id: string)
    requires max >= 1 && Bounded(w, max, k, id) && call in w.calls && |Flight(w.calls, id)| <= k && !tx.TxRecordFailed?
    ensures Bounded(Settle(w, call, Commit(w.store, tx), decided), max, k, id)
  {
    FlightAfter(w.calls, call, w.calls[call].(stage := Recording), id);
    if id in Commit(w.store, tx).requests {
      TxKeepsAttempts(w.store, tx, id);
    }
  }

  lemma StepStaysBounded(w: World, max: nat, k: nat, a: Act, id: string)
    requires max >= 1 && Bounded(w, max, k, id) && Enabled(w, a)
    requires |Flight(w.calls, id)| <= k && |Flight(Next(w, max, a).calls, id)| <= k
    ensures Bounded(Next(w, max, a), max, k, id)
  {
    match a
    case Check(call, request, now) => FlightAfter(w.calls, call, InFlight(request, Deciding), id);
    case DecideApprove(call, codeHash, expiresAt, now, pairing) =>
      var request := w.calls[call].request;
      DecideStaysBounded(w, max, k, call, TxApprove(request, codeHash, expiresAt, now, pairing),
                         Approve(w.store, request, codeHash, expiresAt, now, pairing).1.Some?, id);
    case DecideDeny(call, now, pairing) =>
      var request := w.calls[call].request;
      DecideStaysBounded(w, max, k, call, TxDeny(request, now, pairing), Deny(w.store, request, now, pairing).1, id);
    case Record(call, now) => FlightAfter(w.calls, call, w.calls[call], id);
    case Drop(call) => FlightAfter(w.calls, call, w.calls[call], id);
    case Other(tx) =>
      if id in Commit(w.store, tx).requests {
        TxKeepsAttempts(w.store, tx, id);
      }
  }

  ghost predicate FlightsWithin(worlds: seq<World>, id: string, k: nat) {
    forall i :: 0 <= i < |worlds| ==> |Flight(worlds[i].calls, id)| <= k
  }

  lemma {:induction false} RunStaysBounded(worlds: seq<World>, max: nat, acts: seq<Act>, k: nat, id: string, n: nat)
    requires IsRun(worlds, max, acts) && n < |worlds| && FlightsWithin(worlds, id, k)
    ensures Bounded(worlds[n], max, k, id)
  {
    if n > 0 {
      RunStaysBounded(worlds, max, acts, k, id, n - 1);
      assert worlds[n] == Next(worlds[n - 1], max, acts[n - 1]);
      assert |Flight(worlds[n].calls, id)| <= k;
      StepStaysBounded(worlds[n - 1], max, k, acts[n - 1], id);
    }
  }

  /**
   With at most `k` calls in flight on a request at any moment, its attempts never exceed
   the maximum minus one plus `k`: sequential use never exceeds the maximum.
   */
  lemma AttemptsAreBounded(worlds: seq<World>, max: nat, acts: seq<Act>, k: nat, id: string, n: nat)
    requires IsRun(worlds, max, acts) && n < |worlds| && id in worlds[n].store.requests
    requires FlightsWithin(worlds, id, k)
    ensures worlds[n].store.requests[id].attempts <= max - 1 + k
  {
    RunStaysBounded(worlds, max, acts, k, id, n);
  }

  // ---------- the bound is reached ----------

  /** A pending request with this many attempts, and the first `c` calls at this stage, nothing else in flight. */
  ghost predicate Burst(w: World, id: string, attempts: nat, lo: nat, hi: nat, stage: Stage) {
    && RequestPending(w.store, id, 0) && w.store.requests[id].attempts == attempts
    && w.store.pairings == map[]
    && (forall c :: c in w.calls <==> lo <= c < hi)
    && (forall c :: c in w.calls ==> w.calls[c] == InFlight(id, stage))
  }

  ghost predicate BurstRun(worlds: seq<World>, max: nat, acts: seq<Act>, id: string, k: nat) {
    IsRun(worlds, max, acts) && FlightsWithin(worlds, id, k)
  }

  lemma Extend(worlds: seq<World>, max: nat, acts: seq<Act>, a: Act, id: string, k: nat) returns (worlds': seq<World>, acts': seq<Act>)
    requires BurstRun(worlds, max, acts, id, k) && Enabled(worlds[|acts|], a)
    requires |Flight(Next(worlds[|acts|], max, a).calls, id)| <= k
    ensures BurstRun(worlds', max, acts', id, k) && worlds'[|acts'|] == Next(worlds[|acts|], max, a)
  {
    var last := worlds[|acts|];
    var next := Next(last, max, a);
    worlds', acts' := worlds + [next], acts + [a];
    forall i | 0 <= i < |acts'| ensures Enabled(worlds'[i], acts'[i]) && worlds'[i + 1] == Next(worlds'[i], max, acts'[i]) {
      if i < |acts| {
        assert worlds'[i] == worlds[i] && worlds'[i + 1] == worlds[i + 1] && acts'[i] == acts[i];
      } else {
        assert worlds'[i] == last && worlds'[i + 1] == next && acts'[i] == a;
      }
    }
  }

  /** As many calls are in flight on a request as there are calls at all. */
  lemma FewCalls(calls: map<nat, InFlight>, id: string, lo: nat, hi: nat)
    requires lo <= hi && forall c :: c in calls ==> lo <= c < hi
    ensures |Flight(calls, id)| <= hi - lo
  {
    Smaller(Flight(calls, id), Range(lo, hi));
  }

  lemma OpenRequest(max: nat, id: string, grant: Grant, k: nat) returns (worlds: seq<World>, acts: seq<Act>)
    requires max >= 1
    ensures BurstRun(worlds, max, acts, id, k) && Burst(worlds[|acts|], id, 0, 0, 0, Deciding)
  {
    FewCalls(map[], id, 0, 0);
    worlds, acts := Extend([Start], max, [], Other(TxSaveClient(grant.client)), id, k);
    worlds, acts := Extend(worlds, max, acts, Other(TxCreateRequest(id, grant, None, 1)), id, k);
  }

  /** The first `n` calls all pass their check before any decides. */
  lemma {:induction false} AllCheck(worlds: seq<World>, max: nat, acts: seq<Act>, id: string, attempts: nat, n: nat, k: nat)
    returns (worlds': seq<World>, acts': seq<Act>)
    requires BurstRun(worlds, max, acts, id, k) && attempts < max && n <= k && Burst(worlds[|acts|], id, attempts, 0, 0, Deciding)
    ensures BurstRun(worlds', max, acts', id, k) && Burst(worlds'[|acts'|], id, attempts, 0, n, Deciding)
  {
    if n == 0 {
      worlds', acts' := worlds, acts;
    } else {
      worlds', acts' := AllCheck(worlds, max, acts, id, attempts, n - 1, k);
      FewCalls(Next(worlds'[|acts'|], max, Check(n - 1, id, 0)).calls, id, 0, n);
      worlds', acts' := Extend(worlds', max, acts', Check(n - 1, id, 0), id, k);
    }
  }

  /** One call is refused for want of a pairing code and records its failure. */
  lemma OneFails(worlds: seq<World>, max: nat, acts: seq<Act>, id: string, attempts: nat, lo: nat, hi: nat, k: nat)
    returns (worlds': seq<World>, acts': seq<Act>)
    requires BurstRun(worlds, max, acts, id, k) && lo < hi <= lo + k && Burst(worlds[|acts|], id, attempts, lo, hi, Deciding)
    ensures BurstRun(worlds', max, acts', id, k) && Burst(worlds'[|acts'|], id, attempts + 1, lo + 1, hi, Deciding)
  {
    var deny, record := DecideDeny(lo, 0, Some("no such code")), Record(lo, 0);
    FewCalls(Next(worlds[|acts|], max, deny).calls, id, lo, hi);
    worlds', acts' := Extend(worlds, max, acts, deny, id, k);
    FewCalls(Next(worlds'[|acts'|], max, record).calls, id, lo, hi);
    worlds', acts' := Extend(worlds', max, acts', record, id, k);
  }

  lemma {:induction false} AllFail(worlds: seq<World>, max: nat, acts: seq<Act>, id: string, attempts: nat, lo: nat, hi: nat, k: nat)
    returns (worlds': seq<World>, acts': seq<Act>)
    requires BurstRun(worlds, max, acts, id, k) && lo <= hi <= lo + k && Burst(worlds[|acts|], id, attempts, lo, hi, Deciding)
    ensures BurstRun(worlds', max, acts', id, k) && Burst(worlds'[|acts'|], id, attempts + hi - lo, hi, hi, Deciding)
    decreases hi - lo
  {
    if lo == hi {
      worlds', acts' := worlds, acts;
    } else {
      worlds', acts' := OneFails(worlds, max, acts, id, attempts, lo, hi, k);
      worlds', acts' := AllFail(worlds', max, acts', id, attempts + 1, lo + 1, hi, k);
    }
  }

  /** A request is brought to `n` attempts by one call after the other. */
  lemma {:induction false} FailInTurn(max: nat, id: string, grant: Grant, n: nat, k: nat) returns (worlds: seq<World>, acts: seq<Act>)
    requires n <= max && max >= 1 && k >= 1
    ensures BurstRun(worlds, max, acts, id, k) && Burst(worlds[|acts|], id, n, 0, 0, Deciding)
  {
    if n == 0 {
      worlds, acts := OpenRequest(max, id, grant, k);
    } else {
      worlds, acts := FailInTurn(max, id, grant, n - 1, k);
      worlds, acts := AllCheck(worlds, max, acts, id, n - 1, 1, k);
      worlds, acts := AllFail(worlds, max, acts, id, n - 1, 0, 1, k);
    }
  }

  /** For every `k` some run with never more than `k` calls in flight counts exactly the bound. */
  lemma AttemptBoundIsReached(max: nat, id: string, grant: Grant, k: nat) returns (worlds: seq<World>, acts: seq<Act>)
    requires max >= 1 && k >= 1
    ensures IsRun(worlds, max, acts) && FlightsWithin(worlds, id, k) && id in worlds[|acts|].store.requests
    ensures worlds[|acts|].store.requests[id].attempts == max - 1 + k
  {
    worlds, acts := FailInTurn(max, id, grant, max - 1, k);
    worlds, acts := AllCheck(worlds, max, acts, id, max - 1, k, k);
    worlds, acts := AllFail(worlds, max, acts, id, max - 1, 0, k, k);
  }
}
