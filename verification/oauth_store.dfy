/**
 The durable state of local OAuth approval and its transactions, each one atomic: a
 transaction that hits a constraint is rolled back and leaves the state alone.

 Epochs are seconds. Hashes stand for the values they are taken of. `decisions` is
 history: every committed approval or denial, in order; `AuthCode.decision` points into it.
 */
module OAuthStore {
  import opened Wrappers

  type Epoch = int

  /** What a client asks for and what its code must carry. */
  datatype Grant = Grant(
    client: string,
    scopes: seq<string>,
    codeChallenge: string,
    redirectUri: string,
    redirectUriExplicit: bool,
    resource: string)

  datatype AuthRequest = AuthRequest(grant: Grant, state: Option<string>, expiresAt: Epoch, attempts: nat, consumedAt: Option<Epoch>)

  datatype PairingCode = PairingCode(expiresAt: Epoch, consumedAt: Option<Epoch>, createdAt: Epoch)

  datatype AuthCode = AuthCode(grant: Grant, expiresAt: Epoch, consumedAt: Option<Epoch>, decision: nat)

  datatype Decision = Decision(request: string, code: Option<string>, pairing: Option<string>, at: Epoch)

  datatype Store = Store(
    clients: set<string>,
    requests: map<string, AuthRequest>,
    pairings: map<string, PairingCode>,
    codes: map<string, AuthCode>,
    tokens: map<string, string>,
    decisions: seq<Decision>)

  const NoRows := Store({}, map[], map[], map[], map[], [])

  // ---------- transactions ----------

  function SaveClient(s: Store, client: string): (Store, bool) {
    if client in s.clients then (s, false) else (s.(clients := s.clients + {client}), true)
  }

  /** Refused without a registered client or under a request id already there. */
  function CreateRequest(s: Store, id: string, grant: Grant, state: Option<string>, expiresAt: Epoch): (Store, bool) {
    if grant.client !in s.clients || id in s.requests then (s, false)
    else (s.(requests := s.requests[id := AuthRequest(grant, state, expiresAt, 0, None)]), true)
  }

  predicate RequestPending(s: Store, id: string, now: Epoch) {
    id in s.requests && s.requests[id].consumedAt.None? && s.requests[id].expiresAt > now
  }

  predicate PairingUsable(s: Store, hash: string, now: Epoch) {
    hash in s.pairings && s.pairings[hash].consumedAt.None? && s.pairings[hash].expiresAt > now
  }

  /** One more failed attempt on a pending request; 0 says there was none to count. */
  function RecordFailedApproval(s: Store, id: string, now: Epoch): (Store, int) {
    if !RequestPending(s, id, now) then (s, 0)
    else
      var r := s.requests[id];
      (s.(requests := s.requests[id := r.(attempts := r.attempts + 1)]), r.attempts + 1)
  }

  function Retire(p: PairingCode, now: Epoch): PairingCode {
    if p.consumedAt.None? then p.(consumedAt := Some(now)) else p
  }

  /** Every active code is consumed, then the new one is added. */
  function CreatePairing(s: Store, hash: string, expiresAt: Epoch, now: Epoch): (Store, bool) {
    if hash in s.pairings then (s, false)
    else
      var retired := map h | h in s.pairings :: Retire(s.pairings[h], now);
      (s.(pairings := retired[hash := PairingCode(expiresAt, None, now)]), true)
  }

  /** Whether a decision goes through: the request is pending and the pairing code, if one is needed, usable. */
  predicate Decidable(s: Store, id: string, now: Epoch, pairing: Option<string>) {
    RequestPending(s, id, now) && (pairing.Some? ==> PairingUsable(s, pairing.value, now))
  }

  function Consume(s: Store, id: string, now: Epoch, pairing: Option<string>, code: Option<string>): Store
    requires Decidable(s, id, now, pairing)
  {
    s.(requests := s.requests[id := s.requests[id].(consumedAt := Some(now))],
       pairings := if pairing.Some? then s.pairings[pairing.value := s.pairings[pairing.value].(consumedAt := Some(now))] else s.pairings,
       decisions := s.decisions + [Decision(id, code, pairing, now)])
  }

  function Approve(s: Store, id: string, codeHash: string, codeExpiresAt: Epoch, now: Epoch, pairing: Option<string>): (Store, Option<AuthCode>) {
    if !Decidable(s, id, now, pairing) || codeHash in s.codes then (s, None)
    else
      var code := AuthCode(s.requests[id].grant, codeExpiresAt, None, |s.decisions|);
      (Consume(s, id, now, pairing, Some(codeHash)).(codes := s.codes[codeHash := code]), Some(code))
  }

  function Deny(s: Store, id: string, now: Epoch, pairing: Option<string>): (Store, bool) {
    if !Decidable(s, id, now, pairing) then (s, false) else (Consume(s, id, now, pairing, None), true)
  }

  /** The client's rows go with it. */
  function DeleteClient(s: Store, client: string): (Store, bool) {
    if client !in s.clients then (s, false)
    else
      (s.(clients := s.clients - {client},
          requests := map id | id in s.requests && s.requests[id].grant.client != client :: s.requests[id],
          codes := map h | h in s.codes && s.codes[h].grant.client != client :: s.codes[h],
          tokens := map h | h in s.tokens && s.tokens[h] != client :: s.tokens[h]), true)
  }

  /** A code is exchanged once, for an access and a refresh token of its client. */
  function ExchangeCode(s: Store, codeHash: string, access: string, refresh: string, now: Epoch): (Store, bool) {
    if codeHash !in s.codes || s.codes[codeHash].consumedAt.Some? || s.codes[codeHash].expiresAt <= now then (s, false)
    else if access in s.tokens || refresh in s.tokens || access == refresh then (s, false)
    else
      var c := s.codes[codeHash];
      (s.(codes := s.codes[codeHash := c.(consumedAt := Some(now))],
          tokens := s.tokens[access := c.grant.client][refresh := c.grant.client]), true)
  }

  // ---------- runs ----------

  datatype Tx =
    | TxSaveClient(client: string)
    | TxCreateRequest(id: string, grant: Grant, state: Option<string>, expiresAt: Epoch)
    | TxRecordFailed(id: string, now: Epoch)
    | TxCreatePairing(hash: string, expiresAt: Epoch, now: Epoch)
    | TxApprove(id: string, codeHash: string, codeExpiresAt: Epoch, now: Epoch, pairing: Option<string>)
    | TxDeny(id: string, now: Epoch, pairing: Option<string>)
    | TxDeleteClient(client: string)
    | TxExchange(codeHash: string, access: string, refresh: string, now: Epoch)

  /** Request ids and authorization codes are random values: one that was decided or issued never comes again. */
  ghost predicate Fresh(s: Store, tx: Tx) {
    match tx
    case TxCreateRequest(id, _, _, _) => forall i :: 0 <= i < |s.decisions| ==> s.decisions[i].request != id
    case TxApprove(_, codeHash, _, _, _) => forall i :: 0 <= i < |s.decisions| ==> s.decisions[i].code != Some(codeHash)
    case _ => true
  }

  function Commit(s: Store, tx: Tx): Store {
    match tx
    case TxSaveClient(client) => SaveClient(s, client).0
    case TxCreateRequest(id, grant, state, expiresAt) => CreateRequest(s, id, grant, state, expiresAt).0
    case TxRecordFailed(id, now) => RecordFailedApproval(s, id, now).0
    case TxCreatePairing(hash, expiresAt, now) => CreatePairing(s, hash, expiresAt, now).0
    case TxApprove(id, codeHash, codeExpiresAt, now, pairing) => Approve(s, id, codeHash, codeExpiresAt, now, pairing).0
    case TxDeny(id, now, pairing) => Deny(s, id, now, pairing).0
    case TxDeleteClient(client) => DeleteClient(s, client).0
    case TxExchange(codeHash, access, refresh, now) => ExchangeCode(s, codeHash, access, refresh, now).0
  }

  ghost predicate IsRun(stores: seq<Store>, txs: seq<Tx>) {
    && |stores| == |txs| + 1
    && stores[0] == NoRows
    && forall i :: 0 <= i < |txs| ==> Fresh(stores[i], txs[i]) && stores[i + 1] == Commit(stores[i], txs[i])
  }

  // ---------- what every transaction keeps ----------

  ghost predicate OnePairingActive(s: Store) {
    forall g, h :: g in s.pairings && h in s.pairings && s.pairings[g].consumedAt.None? && s.pairings[h].consumedAt.None? ==> g == h
  }

  ghost predicate ClientsRegistered(s: Store) {
    && (forall id :: id in s.requests ==> s.requests[id].grant.client in s.clients)
    && (forall h :: h in s.codes ==> s.codes[h].grant.client in s.clients)
    && (forall h :: h in s.tokens ==> s.tokens[h] in s.clients)
  }

  /** A committed decision consumed its request and its pairing code, and an approval's code is there. */
  predicate DecisionKept(s: Store, i: nat)
    requires i < |s.decisions|
  {
    var d := s.decisions[i];
    && (d.request in s.requests ==> s.requests[d.request].consumedAt == Some(d.at))
    && (d.request in s.requests && d.code.Some? ==> d.code.value in s.codes && s.codes[d.code.value].decision == i)
    && (d.pairing.Some? ==> d.pairing.value in s.pairings && s.pairings[d.pairing.value].consumedAt == Some(d.at))
  }

  predicate DecisionsDiffer(a: Decision, b: Decision) {
    && a.request != b.request
    && (a.pairing.Some? ==> a.pairing != b.pairing)
    && (a.code.Some? ==> a.code != b.code)
  }

  /** A code was issued by an approval of a request that is still there, and carries that request's grant. */
  predicate CodeKept(s: Store, h: string)
    requires h in s.codes
  {
    var c := s.codes[h];
    && c.decision < |s.decisions|
    && s.decisions[c.decision].code == Some(h)
    && s.decisions[c.decision].request in s.requests
    && s.requests[s.decisions[c.decision].request].grant == c.grant
  }

  /** A consumed request was decided. */
  ghost predicate RequestKept(s: Store, id: string)
    requires id in s.requests
  {
    s.requests[id].consumedAt.Some? ==> exists i :: 0 <= i < |s.decisions| && s.decisions[i].request == id
  }

  ghost predicate DecisionsKept(s: Store) {
    && (forall i: nat :: i < |s.decisions| ==> DecisionKept(s, i))
    && (forall i: nat, j: nat :: i < j < |s.decisions| ==> DecisionsDiffer(s.decisions[i], s.decisions[j]))
    && (forall h :: h in s.codes ==> CodeKept(s, h))
    && (forall id :: id in s.requests ==> RequestKept(s, id))
  }

  ghost predicate Inv(s: Store) {
    OnePairingActive(s) && ClientsRegistered(s) && DecisionsKept(s)
  }

  lemma CommitKeepsPairingActive(s: Store, tx: Tx)
    requires OnePairingActive(s)
    ensures OnePairingActive(Commit(s, tx))
  {
  }

  lemma CommitKeepsClients(s: Store, tx: Tx)
    requires ClientsRegistered(s)
    ensures ClientsRegistered(Commit(s, tx))
  {
  }

  lemma CommitKeepsOldDecision(s: Store, tx: Tx, i: nat)
    requires Inv(s) && Fresh(s, tx) && i < |s.decisions|
    ensures i < |Commit(s, tx).decisions| && Commit(s, tx).decisions[i] == s.decisions[i]
    ensures DecisionKept(Commit(s, tx), i)
  {
    DecisionsGrow(s, tx);
    assert Commit(s, tx).decisions[..|s.decisions|][i] == s.decisions[i];
    match tx
    case TxApprove(id, codeHash, codeExpiresAt, now, pairing) => ApproveKeepsDecision(s, id, codeHash, codeExpiresAt, now, pairing, i);
    case TxDeny(id, now, pairing) => DenyKeepsDecision(s, id, now, pairing, i);
    case TxDeleteClient(client) => DeleteKeepsDecision(s, client, i);
    case _ => OthersKeepDecision(s, tx, i);
  }

  lemma ApproveKeepsDecision(s: Store, id: string, codeHash: string, codeExpiresAt: Epoch, now: Epoch, pairing: Option<string>, i: nat)
    requires i < |s.decisions| && DecisionKept(s, i)
    ensures DecisionKept(Approve(s, id, codeHash, codeExpiresAt, now, pairing).0, i)
  {
  }

  lemma DenyKeepsDecision(s: Store, id: string, now: Epoch, pairing: Option<string>, i: nat)
    requires i < |s.decisions| && DecisionKept(s, i)
    ensures DecisionKept(Deny(s, id, now, pairing).0, i)
  {
  }

  lemma OthersKeepDecision(s: Store, tx: Tx, i: nat)
    requires !tx.TxApprove? && !tx.TxDeny? && !tx.TxDeleteClient? && Fresh(s, tx)
    requires i < |s.decisions| && DecisionKept(s, i)
    ensures i < |Commit(s, tx).decisions| && DecisionKept(Commit(s, tx), i)
  {
  }

  lemma DeleteKeepsDecision(s: Store, client: string, i: nat)
    requires Inv(s) && i < |s.decisions|
    ensures DecisionKept(DeleteClient(s, client).0, i)
  {
    assert DecisionKept(s, i);
    var d := s.decisions[i];
    if d.request in s.requests && d.code.Some? {
      assert CodeKept(s, d.code.value);
    }
  }

  lemma CommitKeepsCode(s: Store, tx: Tx, h: string)
    requires Inv(s) && Fresh(s, tx) && h in Commit(s, tx).codes
    ensures CodeKept(Commit(s, tx), h)
  {
    if h in s.codes {
      assert CodeKept(s, h) && DecisionKept(s, s.codes[h].decision);
      OldCodeKept(s, tx, h);
    }
  }

  lemma OldCodeKept(s: Store, tx: Tx, h: string)
    requires h in s.codes && CodeKept(s, h) && h in Commit(s, tx).codes
    requires DecisionKept(s, s.codes[h].decision)
    ensures CodeKept(Commit(s, tx), h)
  {
  }

  /** A new decision differs from every earlier one in its request, its pairing code and its code. */
  lemma NewDecisionDiffers(s: Store, tx: Tx, i: nat)
    requires Inv(s) && Fresh(s, tx) && i < |s.decisions| < |Commit(s, tx).decisions|
    ensures DecisionsDiffer(s.decisions[i], Commit(s, tx).decisions[|s.decisions|])
  {
    assert DecisionKept(s, i);
  }

  lemma CommitKeepsRequest(s: Store, tx: Tx, id: string)
    requires Inv(s) && id in Commit(s, tx).requests
    ensures RequestKept(Commit(s, tx), id)
  {
    var n := Commit(s, tx);
    DecisionsGrow(s, tx);
    if id in s.requests && s.requests[id].consumedAt.Some? {
      assert RequestKept(s, id);
      var i :| 0 <= i < |s.decisions| && s.decisions[i].request == id;
      assert n.decisions[i] == s.decisions[i];
    } else if n.requests[id].consumedAt.Some? {
      assert n.decisions[|s.decisions|].request == id;
    }
  }

  lemma NewDecisionKept(s: Store, tx: Tx)
    requires Inv(s) && Fresh(s, tx) && |s.decisions| < |Commit(s, tx).decisions|
    ensures DecisionKept(Commit(s, tx), |s.decisions|)
  {
  }

  lemma DecisionsGrow(s: Store, tx: Tx)
    ensures |s.decisions| <= |Commit(s, tx).decisions| <= |s.decisions| + 1
    ensures Commit(s, tx).decisions[..|s.decisions|] == s.decisions
  {
  }

  lemma CommitKeepsInv(s: Store, tx: Tx)
    requires Inv(s) && Fresh(s, tx)
    ensures Inv(Commit(s, tx))
  {
    CommitKeepsPairingActive(s, tx);
    CommitKeepsClients(s, tx);
    DecisionsGrow(s, tx);
    var n := Commit(s, tx);
    forall i: nat | i < |n.decisions| ensures DecisionKept(n, i) {
      if i < |s.decisions| {
        CommitKeepsOldDecision(s, tx, i);
      } else {
        NewDecisionKept(s, tx);
      }
    }
    forall i: nat, j: nat | i < j < |n.decisions| ensures DecisionsDiffer(n.decisions[i], n.decisions[j]) {
      assert n.decisions[i] == s.decisions[i];
      if j < |s.decisions| {
        assert n.decisions[j] == s.decisions[j];
      } else {
        NewDecisionDiffers(s, tx, i);
      }
    }
    forall h | h in n.codes ensures CodeKept(n, h) {
      CommitKeepsCode(s, tx, h);
    }
    forall id | id in n.requests ensures RequestKept(n, id) {
      CommitKeepsRequest(s, tx, id);
    }
  }

  lemma {:induction false} RunKeepsInv(stores: seq<Store>, txs: seq<Tx>, k: nat)
    requires IsRun(stores, txs) && k < |stores|
    ensures Inv(stores[k])
  {
    if k > 0 {
      RunKeepsInv(stores, txs, k - 1);
      CommitKeepsInv(stores[k - 1], txs[k - 1]);
    }
  }

  // ---------- what runs guarantee ----------

  /** At most one pairing code is unconsumed. */
  lemma OnePairingCodeIsActive(stores: seq<Store>, txs: seq<Tx>, k: nat, g: string, h: string)
    requires IsRun(stores, txs) && k < |stores| && g in stores[k].pairings && h in stores[k].pairings
    requires stores[k].pairings[g].consumedAt.None? && stores[k].pairings[h].consumedAt.None?
    ensures g == h
  {
    RunKeepsInv(stores, txs, k);
  }

  /** No pairing code backs two decisions, no request is decided twice, no code is issued twice. */
  lemma DecisionsAreSingleUse(stores: seq<Store>, txs: seq<Tx>, k: nat, i: nat, j: nat)
    requires IsRun(stores, txs) && k < |stores| && i < j < |stores[k].decisions|
    ensures var a, b := stores[k].decisions[i], stores[k].decisions[j];
            a.request != b.request && (a.pairing.Some? ==> a.pairing != b.pairing) && (a.code.Some? ==> a.code != b.code)
  {
    RunKeepsInv(stores, txs, k);
    assert DecisionsDiffer(stores[k].decisions[i], stores[k].decisions[j]);
  }

  /** While its request is registered: consumed exactly when decided, with a code exactly when approved. */
  lemma RequestIsDecidedOnce(stores: seq<Store>, txs: seq<Tx>, k: nat, id: string)
    requires IsRun(stores, txs) && k < |stores| && id in stores[k].requests
    ensures var s := stores[k];
            && (s.requests[id].consumedAt.Some? <==> exists i :: 0 <= i < |s.decisions| && s.decisions[i].request == id)
            && (forall i :: 0 <= i < |s.decisions| && s.decisions[i].request == id ==>
                  (s.decisions[i].code.Some? <==> exists h :: h in s.codes && s.codes[h].decision == i))
  {
    RunKeepsInv(stores, txs, k);
    var s := stores[k];
    assert RequestKept(s, id);
    forall i: nat | i < |s.decisions| && s.decisions[i].request == id
      ensures s.requests[id].consumedAt.Some?
      ensures s.decisions[i].code.Some? <==> exists h :: h in s.codes && s.codes[h].decision == i
    {
      assert DecisionKept(s, i);
      if h :| h in s.codes && s.codes[h].decision == i {
        assert CodeKept(s, h);
      }
    }
  }

  /** Every code carries its request's client, scopes, challenge, redirect and resource. */
  lemma CodeCarriesItsRequest(stores: seq<Store>, txs: seq<Tx>, k: nat, h: string) returns (id: string)
    requires IsRun(stores, txs) && k < |stores| && h in stores[k].codes
    ensures id in stores[k].requests && stores[k].requests[id].grant == stores[k].codes[h].grant
    ensures exists i :: 0 <= i < |stores[k].decisions| && stores[k].decisions[i].request == id && stores[k].decisions[i].code == Some(h)
  {
    RunKeepsInv(stores, txs, k);
    assert CodeKept(stores[k], h);
    id := stores[k].decisions[stores[k].codes[h].decision].request;
  }

  /** Every request, code and token belongs to a registered client, also after clients were deleted. */
  lemma RowsHaveRegisteredClients(stores: seq<Store>, txs: seq<Tx>, k: nat)
    requires IsRun(stores, txs) && k < |stores|
    ensures ClientsRegistered(stores[k])
  {
    RunKeepsInv(stores, txs, k);
  }

  lemma PairingTimeStays(s: Store, tx: Tx, h: string)
    requires h in s.pairings && s.pairings[h].consumedAt.Some?
    ensures h in Commit(s, tx).pairings && Commit(s, tx).pairings[h].consumedAt == s.pairings[h].consumedAt
  {
  }

  /** The consumed time of a code row is never overwritten. */
  lemma CodeTimeStays(s: Store, tx: Tx, h: string)
    requires h in s.codes && s.codes[h].consumedAt.Some? && h in Commit(s, tx).codes
    ensures Commit(s, tx).codes[h].consumedAt == s.codes[h].consumedAt
  {
  }

  /** The consumed time of a pairing code is never written again, in any later state of the run. */
  lemma {:induction false} PairingConsumedOnce(stores: seq<Store>, txs: seq<Tx>, i: nat, j: nat, h: string)
    requires IsRun(stores, txs) && i <= j < |stores|
    requires h in stores[i].pairings && stores[i].pairings[h].consumedAt.Some?
    ensures h in stores[j].pairings && stores[j].pairings[h].consumedAt == stores[i].pairings[h].consumedAt
  {
    if i < j {
      PairingConsumedOnce(stores, txs, i, j - 1, h);
      PairingTimeStays(stores[j - 1], txs[j - 1], h);
    }
  }

  /** Decided stays decided: the history of decisions only grows. */
  lemma {:induction false} DecisionStays(stores: seq<Store>, txs: seq<Tx>, i: nat, j: nat, d: nat)
    requires IsRun(stores, txs) && i <= j < |stores| && d < |stores[i].decisions|
    ensures d < |stores[j].decisions| && stores[j].decisions[d] == stores[i].decisions[d]
  {
    if i < j {
      DecisionStays(stores, txs, i, j - 1, d);
      DecisionsGrow(stores[j - 1], txs[j - 1]);
      assert stores[j].decisions[..|stores[j - 1].decisions|][d] == stores[j - 1].decisions[d];
    }
  }

  /** A decided request, as long as it exists, keeps the consumed time of its decision. */
  lemma RequestConsumedOnce(stores: seq<Store>, txs: seq<Tx>, i: nat, j: nat, id: string)
    requires IsRun(stores, txs) && i <= j < |stores|
    requires id in stores[i].requests && stores[i].requests[id].consumedAt.Some? && id in stores[j].requests
    ensures stores[j].requests[id].consumedAt == stores[i].requests[id].consumedAt
  {
    RunKeepsInv(stores, txs, i);
    RunKeepsInv(stores, txs, j);
    assert RequestKept(stores[i], id);
    var d: nat :| d < |stores[i].decisions| && stores[i].decisions[d].request == id;
    DecisionStays(stores, txs, i, j, d);
    assert DecisionKept(stores[i], d) && DecisionKept(stores[j], d);
  }

  // ---------- registration and deletion ----------

  /** A request is opened exactly for a registered client under a new id; it keeps what was asked and is undecided. */
  lemma CreateRequestIsExact(s: Store, id: string, grant: Grant, state: Option<string>, expiresAt: Epoch)
    ensures var (n, ok) := CreateRequest(s, id, grant, state, expiresAt);
            && (ok <==> grant.client in s.clients && id !in s.requests)
            && (!ok ==> n == s)
            && (ok ==> id in n.requests && n == s.(requests := n.requests) && n.requests - {id} == s.requests)
            && (ok ==> var row := n.requests[id];
                       row.grant == grant && row.state == state && row.expiresAt == expiresAt && row.attempts == 0 && row.consumedAt == None)
  {
  }

  /** Deleting a client takes exactly its own rows: everybody else's stay as they are. */
  lemma DeleteClientIsExact(s: Store, client: string)
    ensures var (n, existed) := DeleteClient(s, client);
            && (existed <==> client in s.clients) && n.clients == s.clients - {client}
            && n.pairings == s.pairings && n.decisions == s.decisions
    ensures forall id :: var n := DeleteClient(s, client).0;
              && (id in n.requests ==> id in s.requests && n.requests[id] == s.requests[id])
              && (id in s.requests ==> (id in n.requests <==> client !in s.clients || s.requests[id].grant.client != client))
    ensures forall h :: var n := DeleteClient(s, client).0;
              && (h in n.codes ==> h in s.codes && n.codes[h] == s.codes[h])
              && (h in s.codes ==> (h in n.codes <==> client !in s.clients || s.codes[h].grant.client != client))
    ensures forall h :: var n := DeleteClient(s, client).0;
              && (h in n.tokens ==> h in s.tokens && n.tokens[h] == s.tokens[h])
              && (h in s.tokens ==> (h in n.tokens <==> client !in s.clients || s.tokens[h] != client))
  {
  }

  /** A new pairing code is the only active one: every older one that was active is consumed now. */
  lemma CreatePairingIsExact(s: Store, hash: string, expiresAt: Epoch, now: Epoch)
    ensures var (n, ok) := CreatePairing(s, hash, expiresAt, now);
            && (ok <==> hash !in s.pairings)
            && (!ok ==> n == s)
            && (ok ==>
                  && n == s.(pairings := n.pairings) && n.pairings.Keys == s.pairings.Keys + {hash}
                  && n.pairings[hash] == PairingCode(expiresAt, None, now)
                  && (forall h :: h in s.pairings && s.pairings[h].consumedAt.Some? ==> n.pairings[h] == s.pairings[h])
                  && (forall h :: h in s.pairings && s.pairings[h].consumedAt.None? ==> n.pairings[h] == s.pairings[h].(consumedAt := Some(now))))
  {
  }

  // ---------- decisions ----------

  /**
   A decision goes through exactly on a registered, undecided and unexpired request with, where a
   pairing code is needed, an unused and unexpired one; otherwise nothing changes.
   */
  lemma DecisionIsExact(s: Store, id: string, codeHash: string, codeExpiresAt: Epoch, now: Epoch, pairing: Option<string>)
    ensures var (approved, issued) := Approve(s, id, codeHash, codeExpiresAt, now, pairing);
            var (refused, denied) := Deny(s, id, now, pairing);
            && (denied <==>
                  && id in s.requests && s.requests[id].consumedAt == None && now < s.requests[id].expiresAt
                  && (pairing.Some? ==>
                        && pairing.value in s.pairings && s.pairings[pairing.value].consumedAt == None
                        && now < s.pairings[pairing.value].expiresAt))
            && (issued.Some? <==> denied && codeHash !in s.codes)
            && (!denied ==> refused == s)
            && (issued.None? ==> approved == s)
  {
  }

  /** A failed attempt counts exactly on an open request, and by one. */
  lemma RecordIsExact(s: Store, id: string, now: Epoch)
    ensures var (n, attempts) := RecordFailedApproval(s, id, now);
            if id in s.requests && s.requests[id].consumedAt == None && now < s.requests[id].expiresAt then
              && attempts == s.requests[id].attempts + 1 && n == s.(requests := n.requests) && n.requests.Keys == s.requests.Keys
              && n.requests[id] == s.requests[id].(attempts := attempts)
              && (forall other :: other in s.requests && other != id ==> n.requests[other] == s.requests[other])
            else attempts == 0 && n == s
  {
  }

  // ---------- exchange ----------

  /**
   An exchange succeeds exactly for a code that is there, unconsumed and unexpired, with new
   token names. It consumes that code, adds two tokens of its client and changes nothing else.
   */
  lemma ExchangeIsExact(s: Store, h: string, access: string, refresh: string, now: Epoch)
    ensures var (n, ok) := ExchangeCode(s, h, access, refresh, now);
            && (ok <==>
                  && h in s.codes && s.codes[h].consumedAt == None && now < s.codes[h].expiresAt
                  && access !in s.tokens && refresh !in s.tokens && access != refresh)
            && (!ok ==> n == s)
            && (ok ==>
                  && n == s.(codes := n.codes, tokens := n.tokens)
                  && n.codes.Keys == s.codes.Keys && n.codes[h] == s.codes[h].(consumedAt := Some(now))
                  && (forall g :: g in s.codes && g != h ==> n.codes[g] == s.codes[g])
                  && n.tokens.Keys == s.tokens.Keys + {access, refresh}
                  && n.tokens[access] == s.codes[h].grant.client && n.tokens[refresh] == s.codes[h].grant.client
                  && (forall g :: g in s.tokens ==> n.tokens[g] == s.tokens[g]))
  {
  }

  /** The code was issued, by the decision at `d`, and is no longer there to be exchanged. */
  predicate Spent(s: Store, h: string, d: nat) {
    && d < |s.decisions| && s.decisions[d].code == Some(h)
    && (h in s.codes ==> s.codes[h].consumedAt.Some?)
  }

  lemma SpentStays(s: Store, tx: Tx, h: string, d: nat)
    requires Spent(s, h, d) && Fresh(s, tx)
    ensures Spent(Commit(s, tx), h, d)
  {
    DecisionsGrow(s, tx);
    assert Commit(s, tx).decisions[..|s.decisions|][d] == s.decisions[d];
    if h in s.codes && h in Commit(s, tx).codes {
      CodeTimeStays(s, tx, h);
    }
  }

  lemma {:induction false} StaysSpent(stores: seq<Store>, txs: seq<Tx>, i: nat, j: nat, h: string, d: nat)
    requires IsRun(stores, txs) && i <= j < |stores| && Spent(stores[i], h, d)
    ensures Spent(stores[j], h, d)
  {
    if i < j {
      StaysSpent(stores, txs, i, j - 1, h, d);
      SpentStays(stores[j - 1], txs[j - 1], h, d);
    }
  }

  /** The step exchanges the code for tokens. */
  predicate Exchanges(s: Store, tx: Tx, h: string) {
    tx.TxExchange? && tx.codeHash == h && ExchangeCode(s, h, tx.access, tx.refresh, tx.now).1
  }

  /** In every run a code is exchanged at most once, whatever is deleted and issued in between. */
  lemma CodeIsExchangedOnce(stores: seq<Store>, txs: seq<Tx>, i: nat, j: nat, h: string)
    requires IsRun(stores, txs) && i < j < |txs| && Exchanges(stores[i], txs[i], h)
    ensures !Exchanges(stores[j], txs[j], h)
  {
    RunKeepsInv(stores, txs, i);
    ExchangeIsExact(stores[i], h, txs[i].access, txs[i].refresh, txs[i].now);
    assert CodeKept(stores[i], h);
    StaysSpent(stores, txs, i + 1, j, h, stores[i].codes[h].decision);
  }
}
