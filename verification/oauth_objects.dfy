/**
 Pairing-code text, the repository object whose methods are the transactions of `OAuthStore`,
 and the approval service. Between two awaits of a service call any other transactions may
 commit: an `Interleaving` says which, and when the call's own steps run.
 */
module OAuthObjects {
  import opened Wrappers
  import OAuthAttempts
  import opened OAuthStore

  // ---------- pairing-code text ----------

  function Upper(c: char): char {
    if 'a' <= c <= 'z' then (c as int - 'a' as int + 'A' as int) as char else c
  }

  predicate IsAlnum(c: char) {
    '0' <= c <= '9' || 'A' <= c <= 'Z' || 'a' <= c <= 'z'
  }

  function Kept(c: char): string {
    if IsAlnum(Upper(c)) then [Upper(c)] else ""
  }

  /** Upper case, letters and digits only. */
  function Compact(s: string): string {
    if s == "" then "" else Kept(s[0]) + Compact(s[1..])
  }

  /** Four characters, a hyphen, and the rest. */
  function Grouped(compact: string): string
    requires |compact| >= 4
  {
    compact[..4] + "-" + compact[4..]
  }

  function Normalize(s: string): string {
    var compact := Compact(s);
    if |compact| != 8 then compact else Grouped(compact)
  }

  /** The capitals but I and O, and the digits but 0 and 1. */
  predicate InAlphabet(c: char) {
    ('A' <= c <= 'Z' && c != 'I' && c != 'O') || '2' <= c <= '9'
  }

  /** Eight random choices from the alphabet. */
  predicate Generated(compact: string) {
    |compact| == 8 && forall i :: 0 <= i < 8 ==> InAlphabet(compact[i])
  }

  /** None for the operator key itself, otherwise the look-up value of the typed code. */
  function PairingCodeHash(key: string, typed: string): Option<string> {
    if typed == key then None else Some(Normalize(typed))
  }

  predicate IsCompact(s: string) {
    forall i :: 0 <= i < |s| ==> IsAlnum(s[i]) && Upper(s[i]) == s[i]
  }

  lemma {:induction false} CompactIsCompact(s: string)
    ensures IsCompact(Compact(s))
  {
    if s != "" {
      CompactIsCompact(s[1..]);
    }
  }

  lemma {:induction false} CompactKeeps(s: string)
    requires IsCompact(s)
    ensures Compact(s) == s
  {
    if s != "" {
      CompactKeeps(s[1..]);
    }
  }

  lemma Reassociate(a: string, b: string, c: string)
    ensures a + (b + c) == a + b + c
  {
  }

  lemma {:induction false} CompactOfConcat(a: string, b: string)
    ensures Compact(a + b) == Compact(a) + Compact(b)
  {
    if a == "" {
      assert a + b == b;
    } else {
      CompactOfConcat(a[1..], b);
      assert (a + b)[1..] == a[1..] + b;
      Reassociate(Kept(a[0]), Compact(a[1..]), Compact(b));
    }
  }

  /** Grouping only adds a separator. */
  lemma CompactOfGrouped(s: string)
    requires IsCompact(s) && |s| >= 4
    ensures Compact(Grouped(s)) == s
  {
    var front, back := s[..4], s[4..];
    CompactOfConcat(front + "-", back);
    CompactOfConcat(front, "-");
    CompactKeeps(front);
    CompactKeeps(back);
    assert Compact("-") == "";
  }

  /**
   Two typed codes are looked up alike exactly when they agree up to case and separators,
   and normalizing twice is normalizing once.
   */
  lemma NormalizeForgetsCaseAndSeparators(a: string, b: string)
    ensures Normalize(a) == Normalize(b) <==> Compact(a) == Compact(b)
    ensures Normalize(Normalize(a)) == Normalize(a)
  {
    CompactOfNormalized(a);
    CompactOfNormalized(b);
  }

  lemma CompactOfNormalized(s: string)
    ensures Compact(Normalize(s)) == Compact(s)
  {
    CompactIsCompact(s);
    if |Compact(s)| == 8 {
      CompactOfGrouped(Compact(s));
    } else {
      CompactKeeps(Compact(s));
    }
  }

  /**
   What typing counts, character by character: capitals and digits stand for themselves, small
   letters for their capitals, and nothing else counts.
   */
  lemma CompactLaws(a: string, c: char, b: string)
    ensures Compact("") == ""
    ensures 'A' <= c <= 'Z' || '0' <= c <= '9' ==> Compact(a + [c] + b) == Compact(a) + [c] + Compact(b)
    ensures 'a' <= c <= 'z' ==> Compact(a + [c] + b) == Compact(a + [(c as int - 32) as char] + b)
    ensures !('A' <= c <= 'Z' || 'a' <= c <= 'z' || '0' <= c <= '9') ==> Compact(a + [c] + b) == Compact(a + b)
  {
    CompactAround(a, c, b);
    CompactOfConcat(a, b);
    if 'a' <= c <= 'z' {
      CompactAround(a, (c as int - 32) as char, b);
    }
    assert Compact(a) + "" == Compact(a);
  }

  lemma CompactAround(a: string, c: char, b: string)
    ensures Compact(a + [c] + b) == Compact(a) + Kept(c) + Compact(b)
  {
    CompactOfConcat(a + [c], b);
    CompactOfConcat(a, [c]);
    assert [c][1..] == "" && Kept(c) + "" == Kept(c);
  }

  /** A code is stored under what typing it back, in any case and spacing, is looked up by. */
  lemma TypedCodeIsFound(compact: string, typed: string)
    requires Generated(compact)
    ensures Normalize(typed) == Grouped(compact) <==> Compact(typed) == compact
  {
    assert IsCompact(compact);
    CompactOfGrouped(compact);
    CompactOfNormalized(typed);
  }

  /**
   Right after a pairing code is created, a pending request can be decided by exactly the
   operator key and the texts that spell the new code: every older code is retired.
   */
  lemma OnlyTheNewCodeOpens(s: Store, key: string, compact: string, expiresAt: Epoch, createdAt: Epoch, id: string, now: Epoch, typed: string)
    requires Generated(compact) && Grouped(compact) !in s.pairings
    requires RequestPending(s, id, now) && now < expiresAt
    ensures Decidable(CreatePairing(s, Grouped(compact), expiresAt, createdAt).0, id, now, PairingCodeHash(key, typed))
            <==> typed == key || Compact(typed) == compact
  {
    TypedCodeIsFound(compact, typed);
  }

  // ---------- the repository ----------

  /** The transactions of others, one after the other. */
  function Commits(s: Store, txs: seq<Tx>): Store
    decreases |txs|
  {
    if txs == [] then s else Commits(Commit(s, txs[0]), txs[1..])
  }

  class LocalMcpOAuthRepository {
    var clients: set<string>
    var requests: map<string, AuthRequest>
    var pairings: map<string, PairingCode>
    var codes: map<string, AuthCode>
    var tokens: map<string, string>
    var decisions: seq<Decision>

    function View(): Store
      reads this
    {
      Store(clients, requests, pairings, codes, tokens, decisions)
    }

    constructor ()
      ensures View() == NoRows
    {
      clients, requests, pairings, codes, tokens, decisions := {}, map[], map[], map[], map[], [];
    }

    method SaveClient(client: string) returns (ok: bool)
      modifies this
      ensures (View(), ok) == OAuthStore.SaveClient(old(View()), client)
    {
      if client in clients {
        return false;
      }
      clients := clients + {client};
      return true;
    }

    method CreateAuthorizationRequest(id: string, grant: Grant, state: Option<string>, expiresAt: Epoch) returns (ok: bool)
      modifies this
      ensures (View(), ok) == CreateRequest(old(View()), id, grant, state, expiresAt)
    {
      if grant.client !in clients || id in requests {
        return false;
      }
      requests := requests[id := AuthRequest(grant, state, expiresAt, 0, None)];
      return true;
    }

    method GetAuthorizationRequest(id: string) returns (row: Option<AuthRequest>)
      ensures row == if id in requests then Some(requests[id]) else None
    {
      row := if id in requests then Some(requests[id]) else None;
    }

    method RecordFailedApproval(id: string, now: Epoch) returns (attempts: int)
      modifies this
      ensures (View(), attempts) == OAuthStore.RecordFailedApproval(old(View()), id, now)
    {
      if id !in requests || requests[id].consumedAt.Some? || requests[id].expiresAt <= now {
        return 0;
      }
      var row := requests[id];
      requests := requests[id := row.(attempts := row.attempts + 1)];
      return row.attempts + 1;
    }

    /** The retirements are rolled back when the new row is refused. */
    method CreatePairingCode(hash: string, expiresAt: Epoch, now: Epoch) returns (ok: bool)
      modifies this
      ensures (View(), ok) == CreatePairing(old(View()), hash, expiresAt, now)
    {
      var before := pairings;
      pairings := map h | h in pairings :: Retire(pairings[h], now);
      if hash in pairings {
        pairings := before;
        return false;
      }
      pairings := pairings[hash := PairingCode(expiresAt, None, now)];
      return true;
    }

    /** Consumes the pairing code, when one is needed, on the way to a decision. */
    method TakePairing(pairing: Option<string>, now: Epoch) returns (ok: bool)
      modifies this`pairings
      ensures ok <==> (pairing.Some? ==> PairingUsable(old(View()), pairing.value, now))
      ensures pairings == if ok && pairing.Some? then old(pairings)[pairing.value := old(pairings)[pairing.value].(consumedAt := Some(now))]
                          else old(pairings)
    {
      if pairing.None? {
        return true;
      }
      var hash := pairing.value;
      if hash !in pairings || pairings[hash].consumedAt.Some? || pairings[hash].expiresAt <= now {
        return false;
      }
      pairings := pairings[hash := pairings[hash].(consumedAt := Some(now))];
      return true;
    }

    /** A code row that is refused takes both consumptions back. */
    method ApproveAuthorizationRequest(id: string, codeHash: string, codeExpiresAt: Epoch, now: Epoch, pairing: Option<string>)
      returns (issued: Option<AuthCode>)
      modifies this
      ensures (View(), issued) == Approve(old(View()), id, codeHash, codeExpiresAt, now, pairing)
    {
      if id !in requests || requests[id].consumedAt.Some? || requests[id].expiresAt <= now {
        return None;
      }
      var before := pairings;
      var taken := TakePairing(pairing, now);
      if !taken {
        return None;
      }
      if codeHash in codes {
        pairings := before;
        return None;
      }
      requests := requests[id := requests[id].(consumedAt := Some(now))];
      var code := AuthCode(requests[id].grant, codeExpiresAt, None, |decisions|);
      codes := codes[codeHash := code];
      decisions := decisions + [Decision(id, Some(codeHash), pairing, now)];
      return Some(code);
    }

    method DenyAuthorizationRequest(id: string, now: Epoch, pairing: Option<string>) returns (denied: bool)
      modifies this
      ensures (View(), denied) == Deny(old(View()), id, now, pairing)
    {
      if id !in requests || requests[id].consumedAt.Some? || requests[id].expiresAt <= now {
        return false;
      }
      var taken := TakePairing(pairing, now);
      if !taken {
        return false;
      }
      requests := requests[id := requests[id].(consumedAt := Some(now))];
      decisions := decisions + [Decision(id, None, pairing, now)];
      return true;
    }

    /** The child rows go first, table by table. */
    method DeleteClient(client: string) returns (existed: bool)
      modifies this
      ensures (View(), existed) == OAuthStore.DeleteClient(old(View()), client)
    {
      if client !in clients {
        return false;
      }
      requests := map id | id in requests && requests[id].grant.client != client :: requests[id];
      codes := map h | h in codes && codes[h].grant.client != client :: codes[h];
      tokens := map h | h in tokens && tokens[h] != client :: tokens[h];
      clients := clients - {client};
      return true;
    }

    method ExchangeCode(codeHash: string, access: string, refresh: string, now: Epoch) returns (ok: bool)
      modifies this
      ensures (View(), ok) == OAuthStore.ExchangeCode(old(View()), codeHash, access, refresh, now)
    {
      if codeHash !in codes || codes[codeHash].consumedAt.Some? || codes[codeHash].expiresAt <= now {
        return false;
      }
      if access in tokens || refresh in tokens || access == refresh {
        return false;
      }
      var client := codes[codeHash].grant.client;
      codes := codes[codeHash := codes[codeHash].(consumedAt := Some(now))];
      tokens := tokens[access := client][refresh := client];
      return true;
    }

    method CommitOne(tx: Tx)
      modifies this
      ensures View() == Commit(old(View()), tx)
    {
      match tx
      case TxSaveClient(client) => var _ := SaveClient(client);
      case TxCreateRequest(id, grant, state, expiresAt) => var _ := CreateAuthorizationRequest(id, grant, state, expiresAt);
      case TxRecordFailed(id, now) => var _ := RecordFailedApproval(id, now);
      case TxCreatePairing(hash, expiresAt, now) => var _ := CreatePairingCode(hash, expiresAt, now);
      case TxApprove(id, codeHash, codeExpiresAt, now, pairing) => var _ := ApproveAuthorizationRequest(id, codeHash, codeExpiresAt, now, pairing);
      case TxDeny(id, now, pairing) => var _ := DenyAuthorizationRequest(id, now, pairing);
      case TxDeleteClient(client) => var _ := DeleteClient(client);
      case TxExchange(codeHash, access, refresh, now) => var _ := ExchangeCode(codeHash, access, refresh, now);
    }

    method RunOthers(txs: seq<Tx>)
      modifies this
      ensures View() == Commits(old(View()), txs)
    {
      var i := 0;
      while i < |txs|
        invariant i <= |txs|
        invariant Commits(View(), txs[i..]) == Commits(old(View()), txs)
      {
        assert txs[i..][1..] == txs[i + 1..];
        CommitOne(txs[i]);
        i := i + 1;
      }
    }
  }

  // ---------- the approval service ----------

  datatype ApprovalError = InvalidOrExpired | Locked | NoLongerAvailable | InvalidCode {
    /** The HTTP status of the answer. */
    function Status(): int {
      match this
      case InvalidOrExpired => 400
      case Locked => 429
      case NoLongerAvailable => 400
      case InvalidCode => 403
    }
  }

  datatype Redirect = Granted(uri: string, code: string, state: Option<string>) | Denied(uri: string, state: Option<string>)

  datatype Interleaving = Interleaving(checkAt: Epoch, beforeDecision: seq<Tx>, decideAt: Epoch, beforeRecord: seq<Tx>, recordAt: Epoch) {
    /** Request ids are random: nobody creates a second request under this id. */
    ghost predicate NeverRecreates(id: string) {
      forall i :: 0 <= i < |beforeDecision| ==> !(beforeDecision[i].TxCreateRequest? && beforeDecision[i].id == id)
    }
  }

  function Pending(s: Store, max: nat, id: string, now: Epoch): Result<AuthRequest, ApprovalError> {
    if !RequestPending(s, id, now) then Err(InvalidOrExpired)
    else if s.requests[id].attempts >= max then Err(Locked)
    else Ok(s.requests[id])
  }

  function Refuse(s: Store, max: nat, id: string, now: Epoch): (Store, ApprovalError) {
    var (s', attempts) := RecordFailedApproval(s, id, now);
    (s', if attempts == 0 then NoLongerAvailable else if attempts >= max then Locked else InvalidCode)
  }

  /** One whole approval, with the transactions of others between its steps. */
  function ApproveCall(s: Store, max: nat, id: string, pairing: Option<string>, code: string, ttl: int, il: Interleaving)
    : (Store, Result<Redirect, ApprovalError>)
  {
    var record := Pending(s, max, id, il.checkAt);
    if record.Err? then (s, Err(record.error))
    else
      var (s', issued) := Approve(Commits(s, il.beforeDecision), id, code, il.decideAt + ttl, il.decideAt, pairing);
      if issued.None? then
        var (s'', error) := Refuse(Commits(s', il.beforeRecord), max, id, il.recordAt);
        (s'', Err(error))
      else (s', Ok(Granted(record.value.grant.redirectUri, code, record.value.state)))
  }

  function DenyCall(s: Store, max: nat, id: string, pairing: Option<string>, il: Interleaving): (Store, Result<Redirect, ApprovalError>) {
    var record := Pending(s, max, id, il.checkAt);
    if record.Err? then (s, Err(record.error))
    else
      var (s', denied) := Deny(Commits(s, il.beforeDecision), id, il.decideAt, pairing);
      if !denied then
        var (s'', error) := Refuse(Commits(s', il.beforeRecord), max, id, il.recordAt);
        (s'', Err(error))
      else (s', Ok(Denied(record.value.grant.redirectUri, record.value.state)))
  }

  lemma CommitKeepsGrant(s: Store, tx: Tx, id: string)
    requires id in s.requests && id in Commit(s, tx).requests
    ensures Commit(s, tx).requests[id].grant == s.requests[id].grant
    ensures Commit(s, tx).requests[id].state == s.requests[id].state
  {
  }

  /** What a client asked for never changes while its request exists. */
  lemma {:induction false} GrantStays(s: Store, txs: seq<Tx>, id: string)
    requires id in s.requests && id in Commits(s, txs).requests
    requires forall i :: 0 <= i < |txs| ==> !(txs[i].TxCreateRequest? && txs[i].id == id)
    ensures Commits(s, txs).requests[id].grant == s.requests[id].grant
    ensures Commits(s, txs).requests[id].state == s.requests[id].state
    decreases |txs|
  {
    if txs != [] {
      var next := Commit(s, txs[0]);
      if id in next.requests {
        CommitKeepsGrant(s, txs[0], id);
        GrantStays(next, txs[1..], id);
      } else {
        GoneStaysGone(next, txs[1..], id);
      }
    }
  }

  lemma {:induction false} GoneStaysGone(s: Store, txs: seq<Tx>, id: string)
    requires id !in s.requests
    requires forall i :: 0 <= i < |txs| ==> !(txs[i].TxCreateRequest? && txs[i].id == id)
    ensures id !in Commits(s, txs).requests
    decreases |txs|
  {
    if txs != [] {
      assert id !in Commit(s, txs[0]).requests;
      GoneStaysGone(Commit(s, txs[0]), txs[1..], id);
    }
  }

  /**
   Whatever others commit meanwhile: an approval answers with a redirect exactly when it
   passed its check and the request is undecided, and the pairing code usable, at the moment
   of decision. Then it adds exactly its own decision, the code in the redirect is issued with
   the request's grant, and the redirect goes where that grant says.
   */
  lemma ApprovalIsExact(s: Store, max: nat, id: string, pairing: Option<string>, code: string, ttl: int, il: Interleaving)
    requires il.NeverRecreates(id) && code !in Commits(s, il.beforeDecision).codes
    ensures var (after, answer) := ApproveCall(s, max, id, pairing, code, ttl, il);
            var meanwhile := Commits(s, il.beforeDecision);
            && (answer.Ok? <==>
                  && id in s.requests && s.requests[id].consumedAt == None && il.checkAt < s.requests[id].expiresAt
                  && s.requests[id].attempts < max
                  && id in meanwhile.requests && meanwhile.requests[id].consumedAt == None && il.decideAt < meanwhile.requests[id].expiresAt
                  && (pairing.Some? ==>
                        && pairing.value in meanwhile.pairings && meanwhile.pairings[pairing.value].consumedAt == None
                        && il.decideAt < meanwhile.pairings[pairing.value].expiresAt))
            && (answer.Ok? ==>
                  && after.decisions == meanwhile.decisions + [Decision(id, Some(code), pairing, il.decideAt)]
                  && code in after.codes && after.codes[code].grant == s.requests[id].grant
                  && answer.value == Granted(after.codes[code].grant.redirectUri, code, s.requests[id].state))
  {
    if RequestPending(s, id, il.checkAt) && id in Commits(s, il.beforeDecision).requests {
      GrantStays(s, il.beforeDecision, id);
    }
  }

  /**
   A granted approval changes three rows: the request and its pairing code are consumed at
   the decision, and the new code is unused, lives its time from then on and carries the grant.
   */
  lemma ApprovalTouchesThreeRows(s: Store, max: nat, id: string, pairing: Option<string>, code: string, ttl: int, il: Interleaving)
    requires ApproveCall(s, max, id, pairing, code, ttl, il).1.Ok?
    ensures var after, meanwhile := ApproveCall(s, max, id, pairing, code, ttl, il).0, Commits(s, il.beforeDecision);
            && id in meanwhile.requests && meanwhile.requests[id].consumedAt.None? && code !in meanwhile.codes
            && after.requests == meanwhile.requests[id := meanwhile.requests[id].(consumedAt := Some(il.decideAt))]
            && after.codes == meanwhile.codes[code := AuthCode(meanwhile.requests[id].grant, il.decideAt + ttl, None, |meanwhile.decisions|)]
            && PairingAfter(meanwhile.pairings, after.pairings, pairing, il.decideAt)
            && after.clients == meanwhile.clients && after.tokens == meanwhile.tokens
  {
  }

  /** The pairing code a decision names was active and is consumed at this moment; no other code changes. */
  predicate PairingAfter(before: map<string, PairingCode>, after: map<string, PairingCode>, pairing: Option<string>, now: Epoch) {
    match pairing
    case None => after == before
    case Some(hash) =>
      && hash in before && before[hash].consumedAt.None? && before[hash].expiresAt > now
      && after == before[hash := before[hash].(consumedAt := Some(now))]
  }

  /** A denial is answered exactly when an approval would be, and issues no code. */
  lemma DenialIsExact(s: Store, max: nat, id: string, pairing: Option<string>, il: Interleaving)
    requires il.NeverRecreates(id)
    ensures var (after, answer) := DenyCall(s, max, id, pairing, il);
            var meanwhile := Commits(s, il.beforeDecision);
            && (answer.Ok? <==>
                  && id in s.requests && s.requests[id].consumedAt == None && il.checkAt < s.requests[id].expiresAt
                  && s.requests[id].attempts < max
                  && id in meanwhile.requests && meanwhile.requests[id].consumedAt == None && il.decideAt < meanwhile.requests[id].expiresAt
                  && (pairing.Some? ==>
                        && pairing.value in meanwhile.pairings && meanwhile.pairings[pairing.value].consumedAt == None
                        && il.decideAt < meanwhile.pairings[pairing.value].expiresAt))
            && (answer.Ok? ==>
                  && after.decisions == meanwhile.decisions + [Decision(id, None, pairing, il.decideAt)]
                  && after.codes == meanwhile.codes && PairingAfter(meanwhile.pairings, after.pairings, pairing, il.decideAt)
                  && answer.value == Denied(meanwhile.requests[id].grant.redirectUri, s.requests[id].state))
  {
    if RequestPending(s, id, il.checkAt) && id in Commits(s, il.beforeDecision).requests {
      GrantStays(s, il.beforeDecision, id);
    }
  }

  /**
   The check, for approvals and denials alike: 400 exactly when the request is not registered,
   decided or expired, 429 when all its attempts are used, even for the operator key or the right
   code; nothing changes in either case.
   */
  lemma CheckIsExact(s: Store, max: nat, id: string, pairing: Option<string>, code: string, ttl: int, il: Interleaving)
    ensures var approval, denial := ApproveCall(s, max, id, pairing, code, ttl, il), DenyCall(s, max, id, pairing, il);
            var open := id in s.requests && s.requests[id].consumedAt == None && il.checkAt < s.requests[id].expiresAt;
            && (approval.1 == Err(InvalidOrExpired) <==> !open)
            && (denial.1 == Err(InvalidOrExpired) <==> !open)
            && (!open ==> approval.0 == s && denial.0 == s)
            && (open && s.requests[id].attempts >= max ==> approval == (s, Err(Locked)) && denial == (s, Err(Locked)))
    ensures InvalidOrExpired.Status() == 400 && Locked.Status() == 429
  {
  }

  /** The check that bounds the attempts is the one the service makes. */
  lemma CheckStepIsTheServices(w: OAuthAttempts.World, max: nat, call: nat, id: string, now: Epoch)
    requires call !in w.calls
    ensures var check := OAuthAttempts.Check(call, id, now);
            var n := OAuthAttempts.Next(w, max, check);
            var open := id in w.store.requests && w.store.requests[id].consumedAt == None && now < w.store.requests[id].expiresAt;
            && n.store == w.store
            && (call in n.calls <==> open && w.store.requests[id].attempts < max)
            && (call in n.calls <==> Pending(w.store, max, id, now).Ok?)
            && (Pending(w.store, max, id, now) == Err(Locked) <==> open && w.store.requests[id].attempts >= max)
            && (Pending(w.store, max, id, now) == Err(InvalidOrExpired) <==> !open)
  {
  }

  /** Why a call that passed its check decided nothing: 400, 429 or 403. */
  ghost predicate Refused(max: nat, id: string, now: Epoch, last: Store, after: Store, error: ApprovalError) {
    var open := id in last.requests && last.requests[id].consumedAt == None && now < last.requests[id].expiresAt;
    && after == last.(requests := after.requests)
    && (error.Status() == 400 <==> !open)
    && (error.Status() == 429 <==> open && last.requests[id].attempts >= max - 1)
    && (error.Status() == 403 <==> open && last.requests[id].attempts < max - 1)
    && after.requests == if open then last.requests[id := last.requests[id].(attempts := last.requests[id].attempts + 1)] else last.requests
  }

  lemma RefuseIsExact(s: Store, max: nat, id: string, now: Epoch)
    ensures Refused(max, id, now, s, Refuse(s, max, id, now).0, Refuse(s, max, id, now).1)
  {
    RecordIsExact(s, id, now);
  }

  /**
   A refused approval decides nothing and says why: 400 when the request is gone, expired or
   decided, 429 from the attempt that reaches the maximum on, 403 below it. Each 403 and
   each late 429 counted exactly one attempt, and nothing else changes.
   */
  lemma RefusalIsExact(s: Store, max: nat, id: string, pairing: Option<string>, code: string, ttl: int, il: Interleaving)
    requires id in s.requests && s.requests[id].consumedAt == None && il.checkAt < s.requests[id].expiresAt && s.requests[id].attempts < max
    ensures var (after, answer) := ApproveCall(s, max, id, pairing, code, ttl, il);
            answer.Err? ==> Refused(max, id, il.recordAt, Commits(Commits(s, il.beforeDecision), il.beforeRecord), after, answer.error)
  {
    var meanwhile := Commits(s, il.beforeDecision);
    DecisionIsExact(meanwhile, id, code, il.decideAt + ttl, il.decideAt, pairing);
    RefuseIsExact(Commits(meanwhile, il.beforeRecord), max, id, il.recordAt);
  }

  /** A refused denial answers and counts the same way. */
  lemma DenialRefusalIsExact(s: Store, max: nat, id: string, pairing: Option<string>, il: Interleaving)
    requires id in s.requests && s.requests[id].consumedAt == None && il.checkAt < s.requests[id].expiresAt && s.requests[id].attempts < max
    ensures var (after, answer) := DenyCall(s, max, id, pairing, il);
            answer.Err? ==> Refused(max, id, il.recordAt, Commits(Commits(s, il.beforeDecision), il.beforeRecord), after, answer.error)
  {
    var meanwhile := Commits(s, il.beforeDecision);
    DecisionIsExact(meanwhile, id, "", 0, il.decideAt, pairing);
    RefuseIsExact(Commits(meanwhile, il.beforeRecord), max, id, il.recordAt);
  }

  class LocalMcpOAuthApprovalService {
    const repository: LocalMcpOAuthRepository
    const approvalKey: string
    const maxApprovalAttempts: nat
    const pairingTtl: int
    const codeTtl: int

    constructor (repository: LocalMcpOAuthRepository, approvalKey: string, maxApprovalAttempts: nat, pairingTtl: int, codeTtl: int)
      ensures this.repository == repository && this.approvalKey == approvalKey && this.maxApprovalAttempts == maxApprovalAttempts
      ensures this.pairingTtl == pairingTtl && this.codeTtl == codeTtl
    {
      this.repository, this.approvalKey, this.maxApprovalAttempts := repository, approvalKey, maxApprovalAttempts;
      this.pairingTtl, this.codeTtl := pairingTtl, codeTtl;
    }

    method PendingAuthorization(id: string, now: Epoch) returns (r: Result<AuthRequest, ApprovalError>)
      ensures r == Pending(repository.View(), maxApprovalAttempts, id, now)
    {
      var record := repository.GetAuthorizationRequest(id);
      if record.None? || record.value.consumedAt.Some? || record.value.expiresAt <= now {
        return Err(InvalidOrExpired);
      }
      if record.value.attempts >= maxApprovalAttempts {
        return Err(Locked);
      }
      return Ok(record.value);
    }

    /** Replaces every active code by the grouped form of eight random choices. */
    method CreatePairingCode(compact: string, now: Epoch) returns (code: Option<string>)
      requires Generated(compact)
      modifies repository
      ensures repository.View() == CreatePairing(old(repository.View()), Grouped(compact), now + pairingTtl, now).0
      ensures code == if Grouped(compact) in old(repository.View()).pairings then None else Some(Grouped(compact))
      ensures code.Some? ==> |code.value| == 9 && code.value[..4] == compact[..4] && code.value[4] == '-' && code.value[5..] == compact[4..]
    {
      var ok := repository.CreatePairingCode(Grouped(compact), now + pairingTtl, now);
      return if ok then Some(Grouped(compact)) else None;
    }

    method RaiseFailedApproval(id: string, now: Epoch) returns (error: ApprovalError)
      modifies repository
      ensures (repository.View(), error) == Refuse(old(repository.View()), maxApprovalAttempts, id, now)
    {
      var attempts := repository.RecordFailedApproval(id, now);
      if attempts == 0 {
        return NoLongerAvailable;
      }
      if attempts >= maxApprovalAttempts {
        return Locked;
      }
      return InvalidCode;
    }

    method ApproveAuthorization(id: string, typed: string, code: string, il: Interleaving) returns (r: Result<Redirect, ApprovalError>)
      modifies repository
      ensures (repository.View(), r) ==
              ApproveCall(old(repository.View()), maxApprovalAttempts, id, PairingCodeHash(approvalKey, typed), code, codeTtl, il)
    {
      var record := PendingAuthorization(id, il.checkAt);
      if record.Err? {
        return Err(record.error);
      }
      repository.RunOthers(il.beforeDecision);
      var issued := repository.ApproveAuthorizationRequest(id, code, il.decideAt + codeTtl, il.decideAt, PairingCodeHash(approvalKey, typed));
      if issued.None? {
        repository.RunOthers(il.beforeRecord);
        var error := RaiseFailedApproval(id, il.recordAt);
        return Err(error);
      }
      return Ok(Granted(record.value.grant.redirectUri, code, record.value.state));
    }

    method DenyAuthorization(id: string, typed: string, il: Interleaving) returns (r: Result<Redirect, ApprovalError>)
      modifies repository
      ensures (repository.View(), r) ==
              DenyCall(old(repository.View()), maxApprovalAttempts, id, PairingCodeHash(approvalKey, typed), il)
    {
      var record := PendingAuthorization(id, il.checkAt);
      if record.Err? {
        return Err(record.error);
      }
      repository.RunOthers(il.beforeDecision);
      var denied := repository.DenyAuthorizationRequest(id, il.decideAt, PairingCodeHash(approvalKey, typed));
      if !denied {
        repository.RunOthers(il.beforeRecord);
        var error := RaiseFailedApproval(id, il.recordAt);
        return Err(error);
      }
      return Ok(Denied(record.value.grant.redirectUri, record.value.state));
    }
  }
}
