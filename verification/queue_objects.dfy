/**
 The queue's objects over one mutable Redis: the two scripts, the submitter, the consumer
 and the worker loop. `answers` says how many more commands the connection serves before
 one fails, so a method can be cut off between any two of its commands; its contract says
 what Redis holds then, where the worker stands and how many answers are left.
 */
module QueueObjects {
  import opened Wrappers
  import opened JobCodec
  import opened FixedWindow
  import opened RedisServer
  import opened QueueRuns
  import opened QueueDelivery
  import opened QueueLetters
  import opened QueueSubmission

  function TtlSeconds(ttlMs: int): int {
    (ttlMs + 500) / 1000
  }

  function RetryAfter(ttlMs: int): int {
    if TtlSeconds(ttlMs) < 1 then 1 else TtlSeconds(ttlMs)
  }

  /** Whole seconds to the nearest, and never none. */
  lemma RetryAfterIsExact(ttlMs: int)
    requires ttlMs >= 0
    ensures var s := RetryAfter(ttlMs); s >= 1 && 1000 * s <= (if ttlMs < 500 then 1000 else ttlMs + 500) && ttlMs < 1000 * s + 500
  {
  }

  /**
   A caller refused for its rate that waits the seconds it was told is refused again exactly when
   Redis rounded the rest of the window down to them.
   */
  lemma RetryIsEarlyExactlyWhen(cfg: Config, worlds: seq<World>, acts: seq<Act>, k: nat, job: nat, req: Request, again: nat)
    requires IsRun(cfg, worlds, acts) && k < |worlds| && Enqueue(cfg, worlds[k].redis, job, req).1.RateLimited?
    ensures var (n, reply) := Enqueue(cfg, worlds[k].redis, job, req);
            Enqueue(cfg, n.(now := n.now + 1000 * RetryAfter(reply.ttlMs)), again, req).1.RateLimited? <==>
            reply.ttlMs > 1000 && 0 < reply.ttlMs % 1000 < 500
  {
    var (n, reply) := Enqueue(cfg, worlds[k].redis, job, req);
    RefusalEnds(cfg, worlds, acts, k, job, req, n.now + 1000 * RetryAfter(reply.ttlMs), again);
    RetryAfterIsExact(reply.ttlMs);
  }

  // ---------- the standalone limiter ----------

  datatype Decision = Decision(allowed: bool, remaining: int, retryAfterSeconds: int)

  datatype LimiterError = InvalidLimit | InvalidWindow

  class RedisFixedWindowRateLimiter {
    var counters: map<string, Limiter>
    var now: int

    constructor (now: int)
      ensures counters == map[] && this.now == now
    {
      counters := map[];
      this.now := now;
    }

    function LimiterOf(key: string): Limiter
      reads this
    {
      if key in counters then counters[key] else Fresh
    }

    /** Consumes one permit of `scope:subject`, refused arguments consuming none. */
    method Acquire(scope: string, subject: string, limit: int, windowSeconds: int) returns (r: Result<Decision, LimiterError>)
      modifies this`counters
      ensures limit < 1 ==> r == Err(InvalidLimit) && counters == old(counters)
      ensures limit >= 1 && windowSeconds < 1 ==> r == Err(InvalidWindow) && counters == old(counters)
      ensures limit >= 1 && windowSeconds >= 1 ==>
                var key := scope + ":" + subject;
                var hit := Hit(old(LimiterOf(key)), now, limit, 1000 * windowSeconds);
                && counters == old(counters)[key := hit]
                && r.Ok?
                && (r.value.allowed <==> Last(hit).admitted)
                && (r.value.allowed ==> r.value.remaining == limit - hit.window.value.count)
                && (!r.value.allowed ==> r.value.remaining == 0)
                && r.value.retryAfterSeconds == RetryAfter(hit.window.value.expiresAt - now)
    {
      if limit < 1 {
        return Err(InvalidLimit);
      }
      if windowSeconds < 1 {
        return Err(InvalidWindow);
      }
      var key := scope + ":" + subject;
      var l := LimiterOf(key);
      var current, expiresAt;
      if Alive(l.window, now) {
        current, expiresAt := l.window.value.count + 1, l.window.value.expiresAt;
      } else {
        current, expiresAt := 1, now + 1000 * windowSeconds;
      }
      var first := if Alive(l.window, now) && l.log != [] then Last(l).first else |l.log|;
      var call := Call(now, expiresAt - 1000 * windowSeconds, first, current <= limit);
      counters := counters[key := Limiter(Some(Window(current, expiresAt)), l.log + [call])];
      return Ok(Decision(current <= limit, if limit < current then 0 else limit - current, RetryAfter(expiresAt - now)));
    }
  }

  // ---------- one connection to Redis ----------

  class RedisClient {
    var db: Redis
    var answers: nat

    constructor (db: Redis, answers: nat)
      ensures this.db == db && this.answers == answers
    {
      this.db, this.answers := db, answers;
    }

    /** A command is answered while any answers are left. */
    method Serve() returns (ok: bool)
      modifies this`answers
      ensures ok <==> old(answers) > 0
      ensures answers == if ok then old(answers) - 1 else 0
    {
      if answers == 0 {
        return false;
      }
      answers := answers - 1;
      return true;
    }

    /** The enqueue script, command by command. */
    method EvalEnqueue(cfg: Config, job: nat, req: Request) returns (reply: EnqueueReply)
      modifies this`db
      ensures (db, reply) == Enqueue(cfg, old(db), job, req)
    {
      var dedupKey, rateKey := DedupMaterial(req), RateMaterial(req);
      var existing := DedupOf(db, dedupKey);
      if existing.Some? {
        return Deduplicated(existing.value.job);
      }
      var limiter := RateOf(db, rateKey);
      var alive := Alive(limiter.window, db.now);
      var current := if alive then limiter.window.value.count + 1 else 1;
      var expiresAt := if alive then limiter.window.value.expiresAt else db.now + cfg.windowMs;
      var first := if alive && limiter.log != [] then Last(limiter).first else |limiter.log|;
      var call := Call(db.now, expiresAt - cfg.windowMs, first, current <= cfg.submissionLimit);
      db := db.(rate := db.rate[rateKey := Limiter(Some(Window(current, expiresAt)), limiter.log + [call])]);
      if current > cfg.submissionLimit {
        return RateLimited(expiresAt - db.now);
      }
      var id := |db.stream|;
      db := db.(stream := db.stream + [Entry(job, req, db.now, |limiter.log|)]);
      db := db.(hashes := db.hashes[job := StatusHash(Some(req), Some(Status.Queued), 0, false, NoMarks, None)]);
      db := db.(hashes := db.hashes[job := db.hashes[job].(expiresAt := Some(db.now + cfg.statusTtlMs))]);
      db := db.(dedup := db.dedup[dedupKey := Dedup(job, db.now + cfg.cooldownMs, id)]);
      PutAgain(old(db), job, StatusHash(Some(req), Some(Status.Queued), 0, false, NoMarks, None),
               StatusHash(Some(req), Some(Status.Queued), 0, false, NoMarks, Some(db.now + cfg.statusTtlMs)));
      return Accepted(job, id);
    }
  }

  datatype SubmitError = TooManySubmissions(retryAfterSeconds: int) | QueueIsUnavailable

  datatype Submitted = Submitted(job: nat, hash: StatusHash, deduplicated: bool)

  class RedisMaintenanceJobSubmitter {
    const client: RedisClient
    const cfg: Config

    constructor (client: RedisClient, cfg: Config)
      ensures this.client == client && this.cfg == cfg
    {
      this.client, this.cfg := client, cfg;
    }

    /** Reads one status; an incomplete one is an error, not an absence. */
    method Get(job: nat) returns (r: Result<Option<StatusHash>, SubmitError>)
      modifies client`answers
      ensures client.answers <= old(client.answers)
      ensures old(client.answers) == 0 ==> r == Err(QueueIsUnavailable)
      ensures old(client.answers) > 0 ==>
                r == (match HashOf(client.db, job)
                      case None => Ok(None)
                      case Some(h) => if Readable(h) then Ok(Some(h)) else Err(QueueIsUnavailable))
    {
      var ok := client.Serve();
      if !ok {
        return Err(QueueIsUnavailable);
      }
      var h := HashOf(client.db, job);
      if h.None? {
        return Ok(None);
      }
      return if Readable(h.value) then Ok(Some(h.value)) else Err(QueueIsUnavailable);
    }

    /**
     Submits one job. The script either ran completely or not at all; a caller told that
     the queue is unavailable may still have queued a job.
     */
    method Submit(job: nat, req: Request) returns (r: Result<Submitted, SubmitError>)
      modifies client
      ensures old(client.answers) == 0 ==> r == Err(QueueIsUnavailable) && client.db == old(client.db)
      ensures old(client.answers) > 0 ==> client.db == Enqueue(cfg, old(client.db), job, req).0
      ensures old(client.answers) > 0 ==>
                match Enqueue(cfg, old(client.db), job, req).1
                case RateLimited(ttl) => r == Err(TooManySubmissions(RetryAfter(ttl)))
                case Accepted(j, _) => r.Ok? ==> r.value.job == j && !r.value.deduplicated && HashOf(client.db, j) == Some(r.value.hash)
                case Deduplicated(j) => r.Ok? ==> r.value.job == j && r.value.deduplicated && HashOf(client.db, j) == Some(r.value.hash)
      ensures r.Ok? ==> Readable(r.value.hash)
      ensures old(client.answers) > 1 && !Enqueue(cfg, old(client.db), job, req).1.RateLimited? ==>
                var j := Enqueue(cfg, old(client.db), job, req).1.job;
                (r.Ok? <==> HashOf(client.db, j).Some? && Readable(HashOf(client.db, j).value))
    {
      var ok := client.Serve();
      if !ok {
        return Err(QueueIsUnavailable);
      }
      var reply := client.EvalEnqueue(cfg, job, req);
      if reply.RateLimited? {
        return Err(TooManySubmissions(RetryAfter(reply.ttlMs)));
      }
      var snapshot := Get(reply.job);
      if snapshot.Err? || snapshot.value.None? {
        return Err(QueueIsUnavailable);
      }
      return Ok(Submitted(reply.job, snapshot.value.value, reply.Deduplicated?));
    }
  }

  // ---------- the consumer ----------

  /** Going on from `at` ends the round where going on from `pc` did before. */
  ghost predicate CarriedOn(cfg: Config, r: Redis, pc: Pc, answers: nat, c: Choice, r': Redis, at: Pc, answers': nat) {
    Carry(cfg, r, pc, c, answers) == Carry(cfg, r', at, c, answers')
  }

  /** Dead letters, stream and clock are as they were. */
  predicate OnlyHashes(r: Redis, n: Redis) {
    n.dead == r.dead && n.stream == r.stream && n.now == r.now
  }

  lemma StatusCommandsFrame(r: Redis, job: nat, status: Status, text: string, ttlMs: int)
    ensures OnlyHashes(r, HSetStatus(r, job, status, text)) && OnlyHashes(r, ExpireStatus(HSetStatus(r, job, status, text), job, ttlMs))
  {
  }

  class RedisMaintenanceJobConsumer {
    const client: RedisClient
    const cfg: Config

    constructor (client: RedisClient, cfg: Config)
      ensures this.client == client && this.cfg == cfg
    {
      this.client, this.cfg := client, cfg;
    }

    /**
     Claims one stale pending entry or reads one new one. `c.claim` is the entry XAUTOCLAIM
     picks, if any. `at` is the worker's place afterwards: `Incrementing` with a delivery.
     */
    method Receive(c: Choice) returns (delivery: Option<nat>, at: Pc)
      modifies client
      ensures RoundFrom(cfg, old(client.db), c, old(client.answers)) == Carry(cfg, client.db, at, c, client.answers)
      ensures delivery.Some? <==> at.Incrementing?
      ensures delivery.Some? ==> at == Incrementing(delivery.value) && HashOf(client.db, JobAt(client.db, delivery.value)).Some?
      ensures delivery.None? ==> at.Ready? || (client.answers == 0 && NeedsAnswer(at))
    {
      var ok := client.Serve();
      if !ok {
        return None, Ready;
      }
      client.db := CreateGroup(client.db);
      ok := client.Serve();
      if !ok {
        return None, Claiming;
      }
      if c.claim.Some? && Claimable(client.db, cfg, c.claim.value) {
        CarryOn(cfg, client.db, Claiming, c, client.answers + 1);
        client.db := AutoClaim(client.db, c.claim.value);
        delivery, at := LookUp(c.claim.value, c);
      } else {
        CarryOn(cfg, client.db, Claiming, c, client.answers + 1);
        delivery, at := Read(c);
      }
    }

    /** Reads one new entry, if there is one. */
    method Read(c: Choice) returns (delivery: Option<nat>, at: Pc)
      modifies client
      ensures CarriedOn(cfg, old(client.db), Reading, old(client.answers), c, client.db, at, client.answers)
      ensures delivery.Some? <==> at.Incrementing?
      ensures delivery.Some? ==> at == Incrementing(delivery.value) && HashOf(client.db, JobAt(client.db, delivery.value)).Some?
      ensures delivery.None? ==> at.Ready? || (client.answers == 0 && NeedsAnswer(at))
    {
      var ok := client.Serve();
      if !ok {
        return None, Reading;
      }
      CarryOn(cfg, client.db, Reading, c, client.answers + 1);
      if client.db.delivered >= |client.db.stream| {
        return None, Ready;
      }
      var id := client.db.delivered;
      client.db := ReadNew(client.db);
      delivery, at := LookUp(id, c);
    }

    /** Reads the status of an entry; an entry whose status is gone is acknowledged. */
    method LookUp(id: nat, c: Choice) returns (delivery: Option<nat>, at: Pc)
      modifies client
      ensures CarriedOn(cfg, old(client.db), Looking(id), old(client.answers), c, client.db, at, client.answers)
      ensures delivery.Some? <==> at.Incrementing?
      ensures delivery.Some? ==> at == Incrementing(delivery.value) && HashOf(client.db, JobAt(client.db, delivery.value)).Some?
      ensures delivery.None? ==> at.Ready? || (client.answers == 0 && NeedsAnswer(at))
    {
      var ok := client.Serve();
      if !ok {
        return None, Looking(id);
      }
      CarryOn(cfg, client.db, Looking(id), c, client.answers + 1);
      var h := HashOf(client.db, JobAt(client.db, id));
      if h.Some? {
        return if Readable(h.value) then Some(id) else None, if Readable(h.value) then Incrementing(id) else Ready;
      }
      ok := client.Serve();
      if !ok {
        return None, AckingMissing(id);
      }
      CarryOn(cfg, client.db, AckingMissing(id), c, client.answers + 1);
      client.db := XAck(client.db, id);
      return None, Ready;
    }

    /** Counts the attempt, writes RUNNING and renews the status. */
    method MarkRunning(id: nat, ghost c: Choice) returns (attempt: Option<int>, at: Pc)
      modifies client
      ensures CarriedOn(cfg, old(client.db), Incrementing(id), old(client.answers), c, client.db, at, client.answers)
      ensures attempt.Some? ==> at == Executing(id, attempt.value)
      ensures attempt.Some? ==> attempt.value == Base(old(client.db), JobAt(old(client.db), id)).attempts + 1
      ensures attempt.None? ==> client.answers == 0 && NeedsAnswer(at)
    {
      var n := Base(client.db, JobAt(client.db, id)).attempts + 1;
      var ok := client.Serve();
      if !ok {
        return None, Incrementing(id);
      }
      CarryOn(cfg, client.db, Incrementing(id), c, client.answers + 1);
      client.db := HIncrAttempts(client.db, JobAt(client.db, id));
      at := WriteRunning(id, n, c);
      return if at.Executing? then Some(n) else None, at;
    }

    /** Writes RUNNING and renews the status. */
    method WriteRunning(id: nat, n: int, ghost c: Choice) returns (at: Pc)
      modifies client
      ensures CarriedOn(cfg, old(client.db), MarkingRunning(id, n), old(client.answers), c, client.db, at, client.answers)
      ensures at == Executing(id, n) || (client.answers == 0 && NeedsAnswer(at))
    {
      var job := JobAt(client.db, id);
      var ok := client.Serve();
      if !ok {
        return MarkingRunning(id, n);
      }
      CarryOn(cfg, client.db, MarkingRunning(id, n), c, client.answers + 1);
      client.db := HSetStatus(client.db, job, Running, "");
      ok := client.Serve();
      if !ok {
        return ExpiringRunning(id, n);
      }
      CarryOn(cfg, client.db, ExpiringRunning(id, n), c, client.answers + 1);
      client.db := ExpireStatus(client.db, job, cfg.statusTtlMs);
      return Executing(id, n);
    }

    /** Writes SUCCEEDED with the result, renews the status and acknowledges the entry. */
    method MarkSucceeded(id: nat, ghost c: Choice) returns (at: Pc)
      modifies client
      ensures (client.db, at, client.answers) == Carry(cfg, old(client.db), SettingSucceeded(id), c, old(client.answers))
    {
      var job := JobAt(client.db, id);
      var ok := client.Serve();
      if !ok {
        return SettingSucceeded(id);
      }
      CarryOn(cfg, client.db, SettingSucceeded(id), c, client.answers + 1);
      client.db := HSetStatus(client.db, job, Succeeded, "");
      ok := client.Serve();
      if !ok {
        return ExpiringSucceeded(id);
      }
      CarryOn(cfg, client.db, ExpiringSucceeded(id), c, client.answers + 1);
      client.db := ExpireStatus(client.db, job, cfg.statusTtlMs);
      ok := client.Serve();
      if !ok {
        return AckingSucceeded(id);
      }
      CarryOn(cfg, client.db, AckingSucceeded(id), c, client.answers + 1);
      client.db := XAck(client.db, id);
      return Ready;
    }

    /** Keeps retryable work pending, or moves a job that ran out of attempts to the dead-letter stream. */
    method MarkFailed(id: nat, attempt: int, c: Choice) returns (terminal: Option<bool>, at: Pc)
      modifies client
      ensures (client.db, at, client.answers) == Carry(cfg, old(client.db), SettingFailed(id, attempt), c, old(client.answers))
      ensures terminal == if at.Ready? then Some(attempt >= cfg.maxAttempts) else None
      ensures terminal == Some(true) ==> AddsLetter(old(client.db), client.db, id, attempt, c.summary)
      ensures terminal == Some(false) ==> client.db.dead == old(client.db.dead)
    {
      at := WriteFailure(id, attempt, c);
      if !at.AddingLetter? {
        return if at.Ready? then Some(false) else None, at;
      }
      at := MoveToDeadLetters(id, attempt, c);
      return if at.Ready? then Some(true) else None, at;
    }

    /** Writes FAILED or RETRYING and renews the status. */
    method WriteFailure(id: nat, attempt: int, c: Choice) returns (at: Pc)
      modifies client
      ensures CarriedOn(cfg, old(client.db), SettingFailed(id, attempt), old(client.answers), c, client.db, at, client.answers)
      ensures at.Ready? ==> attempt < cfg.maxAttempts
      ensures at.AddingLetter? ==> at == AddingLetter(id, attempt) && attempt >= cfg.maxAttempts
      ensures OnlyHashes(old(client.db), client.db)
      ensures !at.Ready? && !at.AddingLetter? ==> client.answers == 0 && NeedsAnswer(at)
    {
      var job := JobAt(client.db, id);
      var ok := client.Serve();
      if !ok {
        return SettingFailed(id, attempt);
      }
      CarryOn(cfg, client.db, SettingFailed(id, attempt), c, client.answers + 1);
      StatusCommandsFrame(client.db, job, if attempt >= cfg.maxAttempts then Failed else Retrying, c.summary, cfg.statusTtlMs);
      client.db := HSetStatus(client.db, job, if attempt >= cfg.maxAttempts then Failed else Retrying, c.summary);
      ok := client.Serve();
      if !ok {
        return ExpiringFailed(id, attempt);
      }
      CarryOn(cfg, client.db, ExpiringFailed(id, attempt), c, client.answers + 1);
      client.db := ExpireStatus(client.db, job, cfg.statusTtlMs);
      return if attempt >= cfg.maxAttempts then AddingLetter(id, attempt) else Ready;
    }

    /** Writes the dead letter first and acknowledges the entry after it. */
    method MoveToDeadLetters(id: nat, attempt: int, c: Choice) returns (at: Pc)
      modifies client
      ensures (client.db, at, client.answers) == Carry(cfg, old(client.db), AddingLetter(id, attempt), c, old(client.answers))
      ensures at.Ready? ==> AddsLetter(old(client.db), client.db, id, attempt, c.summary)
    {
      var ok := client.Serve();
      if !ok {
        return AddingLetter(id, attempt);
      }
      CarryOn(cfg, client.db, AddingLetter(id, attempt), c, client.answers + 1);
      client.db := XAddDead(client.db, LetterFor(client.db, id, attempt, c.summary));
      ok := client.Serve();
      if !ok {
        return AckingFailed(id);
      }
      CarryOn(cfg, client.db, AckingFailed(id), c, client.answers + 1);
      client.db := XAck(client.db, id);
      return Ready;
    }

    /**
     One delivery: start the attempt, run the job (which ends as `c` says), record the
     outcome. With enough answers it does exactly what a whole delivery does.
     */
    method ProcessDelivery(id: nat, c: Choice) returns (at: Pc)
      requires ValidConfig(cfg) && HashOf(client.db, JobAt(client.db, id)).Some?
      modifies client
      ensures (client.db, at, client.answers) == Carry(cfg, old(client.db), Incrementing(id), c, old(client.answers))
      ensures old(client.answers) >= DeliveryCommands(cfg, old(client.db.hashes[JobAt(client.db, id)].attempts) + 1, c) ==>
                at.Ready? && client.db == Delivered(cfg, old(client.db), id, c)
    {
      ghost var r0, answers0 := client.db, client.answers;
      var attempt;
      attempt, at := MarkRunning(id, c);
      if attempt.Some? {
        at := Conclude(id, attempt.value, c);
      }
      if answers0 >= DeliveryCommands(cfg, r0.hashes[JobAt(r0, id)].attempts + 1, c) {
        DeliveryConcludes(cfg, r0, id, c, answers0);
      }
    }

    /** Runs the job and records how it ended. */
    method Conclude(id: nat, n: int, c: Choice) returns (at: Pc)
      modifies client
      ensures (client.db, at, client.answers) == Carry(cfg, old(client.db), Executing(id, n), c, old(client.answers))
    {
      if c.succeeds {
        at := MarkSucceeded(id, c);
      } else {
        var _, stop := MarkFailed(id, n, c);
        at := stop;
      }
    }

    /** Receives at most one entry and processes it, as far as the answers go. */
    method RunRound(c: Choice) returns (at: Pc)
      requires ValidConfig(cfg)
      modifies client
      ensures (client.db, at, client.answers) == RoundFrom(cfg, old(client.db), c, old(client.answers))
    {
      var delivery;
      delivery, at := Receive(c);
      if delivery.Some? {
        at := ProcessDelivery(delivery.value, c);
      }
    }

    /**
     The worker loop: each round waits, receives at most one entry and processes it, on a
     connection that gives `round.answers` answers; a round cut off by an error ends there.
     */
    method ConsumerLoop(rounds: seq<Round>)
      requires ValidConfig(cfg)
      modifies client
      ensures client.db == AfterRounds(cfg, old(client.db), rounds)
    {
      var i := 0;
      while i < |rounds|
        invariant i <= |rounds|
        invariant AfterRounds(cfg, client.db, rounds[i..]) == AfterRounds(cfg, old(client.db), rounds)
      {
        ghost var before := client.db;
        assert rounds[i..][0] == rounds[i] && rounds[i..][1..] == rounds[i + 1..];
        client.db := client.db.(now := client.db.now + rounds[i].wait);
        client.answers := rounds[i].answers;
        var _ := RunRound(rounds[i].choice);
        assert client.db == AfterRound(cfg, before, rounds[i]);
        i := i + 1;
      }
    }
  }
}
