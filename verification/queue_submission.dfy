/**
 What the enqueue script guarantees over whole runs: cooldown between equal requests,
 the rate bound on admitted entries and a readable status behind every live deduplication key.
 */
module QueueSubmission {
  import opened Wrappers
  import opened JobCodec
  import opened FixedWindow
  import opened RedisServer
  import opened QueueRuns

  function DedupKey(r: Redis, i: nat): string
    requires i < |r.stream|
  {
    DedupMaterial(r.stream[i].request)
  }

  function RateKey(r: Redis, i: nat): string
    requires i < |r.stream|
  {
    RateMaterial(r.stream[i].request)
  }

  /** The key of an entry is held by the latest entry with that key. */
  predicate KeyHeld(cfg: Config, r: Redis, i: nat)
    requires i < |r.stream|
  {
    var key := DedupKey(r, i);
    && r.stream[i].at <= r.now
    && key in r.dedup
    && i <= r.dedup[key].entry < |r.stream|
    && DedupKey(r, r.dedup[key].entry) == key
    && r.dedup[key].job == r.stream[r.dedup[key].entry].job
    && r.dedup[key].expiresAt == r.stream[r.dedup[key].entry].at + cfg.cooldownMs
  }

  predicate Spaced(cfg: Config, r: Redis, i: nat, j: nat)
    requires i < |r.stream| && j < |r.stream|
  {
    DedupKey(r, i) == DedupKey(r, j) ==> r.stream[i].at + cfg.cooldownMs <= r.stream[j].at
  }

  /** The status hash of an entry lives at least the status time to live, complete all that time. */
  predicate StatusBacked(cfg: Config, r: Redis, i: nat)
    requires i < |r.stream|
  {
    var e := r.stream[i];
    && e.job in r.hashes
    && (r.hashes[e.job].expiresAt.None? || r.hashes[e.job].expiresAt.value >= e.at + cfg.statusTtlMs)
    && (r.now < e.at + cfg.statusTtlMs ==> r.hashes[e.job].request == Some(e.request) && r.hashes[e.job].status.Some?)
  }

  ghost predicate KeysKept(cfg: Config, r: Redis) {
    && (forall i: nat :: i < |r.stream| ==> KeyHeld(cfg, r, i))
    && (forall i: nat, j: nat :: i < j < |r.stream| ==> Spaced(cfg, r, i, j))
    && (forall key :: key in r.dedup ==> r.dedup[key].entry < |r.stream| && DedupKey(r, r.dedup[key].entry) == key)
  }

  ghost predicate StatusesKept(cfg: Config, r: Redis) {
    && (forall i: nat, j: nat :: i < j < |r.stream| ==> r.stream[i].job != r.stream[j].job)
    && (forall i: nat :: i < |r.stream| ==> StatusBacked(cfg, r, i))
  }

  // ---------- deduplication ----------

  lemma AdmitHoldsKey(cfg: Config, r: Redis, job: nat, req: Request, limiter: Limiter, i: nat)
    requires KeysKept(cfg, r) && i <= |r.stream|
    ensures KeyHeld(cfg, Admit(cfg, r, job, req, limiter), i)
  {
    if i < |r.stream| {
      assert KeyHeld(cfg, r, i);
    }
  }

  /** When a key is free, every entry under it is at least a cooldown old. */
  lemma FreeKeyIsCold(cfg: Config, r: Redis, i: nat)
    requires i < |r.stream| && KeyHeld(cfg, r, i) && DedupOf(r, DedupKey(r, i)).None? && cfg.cooldownMs >= 0
    requires var e := r.dedup[DedupKey(r, i)].entry; i < e ==> Spaced(cfg, r, i, e)
    ensures r.stream[i].at + cfg.cooldownMs <= r.now
  {
  }

  lemma AdmitIsSpaced(cfg: Config, r: Redis, job: nat, req: Request, limiter: Limiter, i: nat)
    requires ValidConfig(cfg) && KeysKept(cfg, r) && i < |r.stream| && DedupOf(r, DedupMaterial(req)).None?
    ensures Spaced(cfg, Admit(cfg, r, job, req, limiter), i, |r.stream|)
  {
    if DedupKey(r, i) == DedupMaterial(req) {
      assert KeyHeld(cfg, r, i);
      var e := r.dedup[DedupKey(r, i)].entry;
      assert i < e ==> Spaced(cfg, r, i, e);
      FreeKeyIsCold(cfg, r, i);
    }
  }

  lemma AdmitKeepsKeys(cfg: Config, r: Redis, job: nat, req: Request, limiter: Limiter)
    requires ValidConfig(cfg) && KeysKept(cfg, r) && DedupOf(r, DedupMaterial(req)).None?
    ensures KeysKept(cfg, Admit(cfg, r, job, req, limiter))
  {
    var n := Admit(cfg, r, job, req, limiter);
    forall i: nat | i < |n.stream| ensures KeyHeld(cfg, n, i) {
      AdmitHoldsKey(cfg, r, job, req, limiter, i);
    }
    forall i: nat, j: nat | i < j < |n.stream| ensures Spaced(cfg, n, i, j) {
      if j < |r.stream| {
        assert Spaced(cfg, r, i, j);
      } else {
        AdmitIsSpaced(cfg, r, job, req, limiter, i);
      }
    }
  }

  lemma EnqueueKeepsKeys(cfg: Config, r: Redis, job: nat, req: Request)
    requires ValidConfig(cfg) && KeysKept(cfg, r)
    ensures KeysKept(cfg, Enqueue(cfg, r, job, req).0)
  {
    var (n, reply) := Enqueue(cfg, r, job, req);
    if reply.Accepted? {
      AdmitKeepsKeys(cfg, r, job, req, Hit(RateOf(r, RateMaterial(req)), r.now, cfg.submissionLimit, cfg.windowMs));
    } else {
      SameKeysKept(cfg, r, n);
    }
  }

  lemma SameKeysKept(cfg: Config, r: Redis, n: Redis)
    requires KeysKept(cfg, r) && n.stream == r.stream && n.dedup == r.dedup && n.now >= r.now
    ensures KeysKept(cfg, n)
  {
    forall i: nat | i < |n.stream| ensures KeyHeld(cfg, n, i) {
      assert KeyHeld(cfg, r, i);
    }
    forall i: nat, j: nat | i < j < |n.stream| ensures Spaced(cfg, n, i, j) {
      assert Spaced(cfg, r, i, j);
    }
  }

  /** A worker's command touches neither the stream, the keys nor the clock. */
  lemma CommandFrames(cfg: Config, r: Redis, pc: Pc, c: Choice)
    ensures var n := Command(cfg, r, pc, c);
            n.stream == r.stream && n.dedup == r.dedup && n.rate == r.rate && n.now == r.now
  {
  }

  lemma StepKeepsKeys(cfg: Config, w: World, a: Act)
    requires ValidConfig(cfg) && KeysKept(cfg, w.redis) && Enabled(w, a)
    ensures KeysKept(cfg, Next(cfg, w, a).redis)
  {
    match a
    case Submit(job, req) => EnqueueKeepsKeys(cfg, w.redis, job, req);
    case Replay(d, job) => EnqueueKeepsKeys(cfg, w.redis, job, Replayable(w.redis, d).value);
    case Work(worker, c) =>
      CommandFrames(cfg, w.redis, PcOf(w, worker), c);
      SameKeysKept(cfg, w.redis, Next(cfg, w, a).redis);
    case _ => SameKeysKept(cfg, w.redis, Next(cfg, w, a).redis);
  }

  lemma {:induction false} RunKeepsKeys(cfg: Config, worlds: seq<World>, acts: seq<Act>, k: nat)
    requires IsRun(cfg, worlds, acts) && k < |worlds|
    ensures KeysKept(cfg, worlds[k].redis)
  {
    if k > 0 {
      RunKeepsKeys(cfg, worlds, acts, k - 1);
      StepKeepsKeys(cfg, worlds[k - 1], acts[k - 1]);
    }
  }

  /** Two entries for the same request key are at least one cooldown apart, in every run. */
  lemma EqualRequestsAreSpaced(cfg: Config, worlds: seq<World>, acts: seq<Act>, k: nat, i: nat, j: nat)
    requires IsRun(cfg, worlds, acts) && k < |worlds| && i < j < |worlds[k].redis.stream|
    requires worlds[k].redis.stream[i].request == worlds[k].redis.stream[j].request
    ensures worlds[k].redis.stream[i].at + cfg.cooldownMs <= worlds[k].redis.stream[j].at
  {
    RunKeepsKeys(cfg, worlds, acts, k);
    assert Spaced(cfg, worlds[k].redis, i, j);
  }

  /**
   A deduplicated submission changes nothing, so it spends no rate permit, and answers
   with the job of the latest entry under its key, admitted less than a cooldown ago. For
   text without U+001F that entry carries the submitted request itself.
   */
  lemma DeduplicatedNamesLatestEntry(cfg: Config, worlds: seq<World>, acts: seq<Act>, k: nat, job: nat, req: Request) returns (i: nat)
    requires IsRun(cfg, worlds, acts) && k < |worlds|
    requires Enqueue(cfg, worlds[k].redis, job, req).1.Deduplicated?
    ensures var r := worlds[k].redis;
            && Enqueue(cfg, r, job, req).0 == r
            && i < |r.stream| && r.stream[i].job == Enqueue(cfg, r, job, req).1.job
            && DedupKey(r, i) == DedupMaterial(req) && r.now < r.stream[i].at + cfg.cooldownMs
            && (!HasSeparator(req) ==> r.stream[i].request == req)
  {
    RunKeepsKeys(cfg, worlds, acts, k);
    var r := worlds[k].redis;
    i := r.dedup[DedupMaterial(req)].entry;
    assert KeyHeld(cfg, r, i);
    if !HasSeparator(req) {
      CleanMaterialIsUnique(req, r.stream[i].request);
    }
  }

  // ---------- status behind a live key ----------

  /** One hash write of a worker: the fields it may touch, and a time to live that only moves on. */
  ghost predicate WritesHash(cfg: Config, r: Redis, n: Redis, job: nat) {
    && n.stream == r.stream && n.now == r.now
    && job in n.hashes && (forall j :: j != job ==> (j in n.hashes <==> j in r.hashes) && (j in r.hashes ==> n.hashes[j] == r.hashes[j]))
    && var b, h := Base(r, job), n.hashes[job];
       && h.request == b.request && (b.status.Some? ==> h.status.Some?)
       && (h.expiresAt == b.expiresAt || h.expiresAt == Some(r.now + cfg.statusTtlMs))
  }

  lemma FieldWritesHash(cfg: Config, r: Redis, job: nat, status: Status, summary: string)
    ensures WritesHash(cfg, r, HIncrAttempts(r, job), job)
    ensures WritesHash(cfg, r, HSetStatus(r, job, status, summary), job)
  {
  }

  lemma ExpiryWritesHash(cfg: Config, r: Redis, job: nat)
    ensures ExpireStatus(r, job, cfg.statusTtlMs) == r || WritesHash(cfg, r, ExpireStatus(r, job, cfg.statusTtlMs), job)
  {
  }

  lemma CommandWritesHash(cfg: Config, r: Redis, pc: Pc, c: Choice)
    ensures var n := Command(cfg, r, pc, c);
            n.hashes == r.hashes || (HoldsEntry(pc) && WritesHash(cfg, r, n, JobAt(r, pc.id)))
  {
    match pc
    case Incrementing(id) => FieldWritesHash(cfg, r, JobAt(r, id), Running, "");
    case MarkingRunning(id, _) => FieldWritesHash(cfg, r, JobAt(r, id), Running, "");
    case ExpiringRunning(id, _) => ExpiryWritesHash(cfg, r, JobAt(r, id));
    case SettingSucceeded(id) => FieldWritesHash(cfg, r, JobAt(r, id), Succeeded, "");
    case ExpiringSucceeded(id) => ExpiryWritesHash(cfg, r, JobAt(r, id));
    case SettingFailed(id, n) => FieldWritesHash(cfg, r, JobAt(r, id), if n >= cfg.maxAttempts then Failed else Retrying, c.summary);
    case ExpiringFailed(id, _) => ExpiryWritesHash(cfg, r, JobAt(r, id));
    case _ => assert Command(cfg, r, pc, c).hashes == r.hashes;
  }

  lemma EnqueueBacks(cfg: Config, r: Redis, job: nat, req: Request, i: nat)
    requires ValidConfig(cfg) && StatusesKept(cfg, r) && FreshJob(r, job)
    requires i < |Enqueue(cfg, r, job, req).0.stream|
    ensures StatusBacked(cfg, Enqueue(cfg, r, job, req).0, i)
  {
    if i < |r.stream| {
      assert StatusBacked(cfg, r, i);
    }
  }

  lemma WorkBacks(cfg: Config, w: World, worker: nat, c: Choice, i: nat)
    requires i < |w.redis.stream| && StatusBacked(cfg, w.redis, i) && w.redis.stream[i].at <= w.redis.now
    ensures i < |Next(cfg, w, Work(worker, c)).redis.stream| && StatusBacked(cfg, Next(cfg, w, Work(worker, c)).redis, i)
  {
    var r, pc := w.redis, PcOf(w, worker);
    CommandFrames(cfg, r, pc, c);
    CommandWritesHash(cfg, r, pc, c);
  }

  lemma StepKeepsStatuses(cfg: Config, w: World, a: Act)
    requires ValidConfig(cfg) && KeysKept(cfg, w.redis) && StatusesKept(cfg, w.redis) && Enabled(w, a)
    ensures StatusesKept(cfg, Next(cfg, w, a).redis)
  {
    var n := Next(cfg, w, a).redis;
    if a.Work? {
      CommandFrames(cfg, w.redis, PcOf(w, a.worker), a.choice);
    }
    forall i: nat | i < |n.stream| ensures StatusBacked(cfg, n, i) {
      match a
      case Submit(job, req) => EnqueueBacks(cfg, w.redis, job, req, i);
      case Replay(d, job) => EnqueueBacks(cfg, w.redis, job, Replayable(w.redis, d).value, i);
      case Work(worker, c) =>
        assert KeyHeld(cfg, w.redis, i) && StatusBacked(cfg, w.redis, i);
        WorkBacks(cfg, w, worker, c, i);
      case _ => assert StatusBacked(cfg, w.redis, i);
    }
  }

  lemma {:induction false} RunKeepsStatuses(cfg: Config, worlds: seq<World>, acts: seq<Act>, k: nat)
    requires IsRun(cfg, worlds, acts) && k < |worlds|
    ensures StatusesKept(cfg, worlds[k].redis)
  {
    if k > 0 {
      RunKeepsStatuses(cfg, worlds, acts, k - 1);
      RunKeepsKeys(cfg, worlds, acts, k - 1);
      StepKeepsStatuses(cfg, worlds[k - 1], acts[k - 1]);
    }
  }

  /** Every live deduplication key names a live status hash of its entry's request. */
  ghost predicate KeysAreBacked(r: Redis) {
    forall key :: DedupOf(r, key).Some? ==>
      && r.dedup[key].entry < |r.stream|
      && HashOf(r, r.dedup[key].job).Some?
      && r.hashes[r.dedup[key].job].request == Some(r.stream[r.dedup[key].entry].request)
      && r.hashes[r.dedup[key].job].status.Some?
  }

  lemma LiveKeyIsBacked(cfg: Config, worlds: seq<World>, acts: seq<Act>, k: nat)
    requires IsRun(cfg, worlds, acts) && k < |worlds| && cfg.statusTtlMs >= cfg.cooldownMs
    ensures KeysAreBacked(worlds[k].redis)
  {
    RunKeepsKeys(cfg, worlds, acts, k);
    RunKeepsStatuses(cfg, worlds, acts, k);
    var r := worlds[k].redis;
    forall key | DedupOf(r, key).Some?
      ensures r.dedup[key].entry < |r.stream| && HashOf(r, r.dedup[key].job).Some?
      ensures r.hashes[r.dedup[key].job].request == Some(r.stream[r.dedup[key].entry].request)
      ensures r.hashes[r.dedup[key].job].status.Some?
    {
      var i := r.dedup[key].entry;
      assert KeyHeld(cfg, r, i) && StatusBacked(cfg, r, i);
    }
  }

  /** With a shorter status time to live, one job and a tick give a live key without a status. */
  lemma ShortStatusLeavesKeyUnbacked(cfg: Config, req: Request) returns (worlds: seq<World>, acts: seq<Act>)
    requires ValidConfig(cfg) && cfg.statusTtlMs < cfg.cooldownMs
    ensures IsRun(cfg, worlds, acts) && !KeysAreBacked(worlds[|acts|].redis)
  {
    acts := [Submit(0, req), Tick(cfg.statusTtlMs)];
    var w1 := Next(cfg, Start, acts[0]);
    var w2 := Next(cfg, w1, acts[1]);
    worlds := [Start, w1, w2];
    assert DedupOf(w2.redis, DedupMaterial(req)) == Some(Dedup(0, cfg.cooldownMs, 0));
    assert HashOf(w2.redis, 0).None?;
  }

  /**
   A live deduplication key always names a readable status, in every state of every run,
   exactly when statuses are configured to live at least as long as the cooldown.
   */
  lemma KeysAreBackedExactlyWhen(cfg: Config)
    requires ValidConfig(cfg)
    ensures (forall worlds: seq<World>, acts: seq<Act>, k: nat :: IsRun(cfg, worlds, acts) && k < |worlds| ==> KeysAreBacked(worlds[k].redis)) <==>
            cfg.statusTtlMs >= cfg.cooldownMs
  {
    if cfg.statusTtlMs >= cfg.cooldownMs {
      forall worlds: seq<World>, acts: seq<Act>, k: nat | IsRun(cfg, worlds, acts) && k < |worlds| ensures KeysAreBacked(worlds[k].redis) {
        LiveKeyIsBacked(cfg, worlds, acts, k);
      }
    } else {
      var worlds, acts := ShortStatusLeavesKeyUnbacked(cfg, Request(EmbeddingReindex, "operator", "all", 1, false));
      assert IsRun(cfg, worlds, acts) && |acts| < |worlds|;
    }
  }

  /**
   `enqueue` finds the snapshot of a queued or deduplicated answer, and it carries the
   text the key stands for, as long as that text is nonblank.
   */
  lemma EnqueueFindsSnapshot(cfg: Config, worlds: seq<World>, acts: seq<Act>, k: nat, job: nat, req: Request)
    requires IsRun(cfg, worlds, acts) && k < |worlds| && cfg.statusTtlMs >= cfg.cooldownMs
    requires FreshJob(worlds[k].redis, job)
    ensures var (n, reply) := Enqueue(cfg, worlds[k].redis, job, req);
            !reply.RateLimited? ==>
              && HashOf(n, reply.job).Some?
              && HashOf(n, reply.job).value.request.Some?
              && DedupMaterial(HashOf(n, reply.job).value.request.value) == DedupMaterial(req)
              && (!HasSeparator(req) ==> HashOf(n, reply.job).value.request.value == req)
              && (!HasSeparator(req) && Nonblank(req) ==> Readable(HashOf(n, reply.job).value))
  {
    var r := worlds[k].redis;
    var (n, reply) := Enqueue(cfg, r, job, req);
    if reply.Deduplicated? {
      LiveKeyIsBacked(cfg, worlds, acts, k);
      RunKeepsKeys(cfg, worlds, acts, k);
      var key := DedupMaterial(req);
      var i := r.dedup[key].entry;
      assert KeyHeld(cfg, r, i) && DedupKey(r, i) == key;
      if !HasSeparator(req) {
        CleanMaterialIsUnique(req, r.stream[i].request);
      }
    }
  }

  /** For its whole time to live an entry's status can be read and shows the entry's request. */
  lemma StatusLivesItsTime(cfg: Config, worlds: seq<World>, acts: seq<Act>, k: nat, i: nat)
    requires IsRun(cfg, worlds, acts) && k < |worlds| && i < |worlds[k].redis.stream|
    requires worlds[k].redis.now < worlds[k].redis.stream[i].at + cfg.statusTtlMs
    ensures var r := worlds[k].redis;
            HashOf(r, r.stream[i].job).Some? && HashOf(r, r.stream[i].job).value.request == Some(r.stream[i].request)
  {
    RunKeepsStatuses(cfg, worlds, acts, k);
    assert StatusBacked(cfg, worlds[k].redis, i);
  }

  // ---------- the submission rate ----------

  /** An admitted entry is one admitted call of its rate key, and later entries are later calls. */
  predicate CallMatched(r: Redis, i: nat)
    requires i < |r.stream|
  {
    var e, log := r.stream[i], RateOf(r, RateKey(r, i)).log;
    0 <= e.call < |log| && log[e.call].at == e.at && log[e.call].admitted
  }

  predicate CallsOrdered(r: Redis, i: nat, j: nat)
    requires i < |r.stream| && j < |r.stream|
  {
    RateKey(r, i) == RateKey(r, j) ==> r.stream[i].call < r.stream[j].call
  }

  ghost predicate RatesKept(cfg: Config, r: Redis) {
    && (forall key :: key in r.rate ==> Valid(r.rate[key], cfg.submissionLimit, cfg.windowMs))
    && (forall key :: key in r.rate ==> r.rate[key].log != [] && Last(r.rate[key]).at <= r.now)
    && (forall i: nat :: i < |r.stream| ==> CallMatched(r, i))
    && (forall i: nat, j: nat :: i < j < |r.stream| ==> CallsOrdered(r, i, j))
  }

  lemma FreshLimiterValid(limit: int, length: int)
    requires limit >= 0
    ensures Valid(Fresh, limit, length)
  {
    assert forall s :: InWindow(Fresh.log, s) == {};
  }

  lemma HitValid(cfg: Config, r: Redis, key: string)
    requires ValidConfig(cfg) && RatesKept(cfg, r)
    ensures Valid(Hit(RateOf(r, key), r.now, cfg.submissionLimit, cfg.windowMs), cfg.submissionLimit, cfg.windowMs)
  {
    FreshLimiterValid(cfg.submissionLimit, cfg.windowMs);
    HitKeepsValid(RateOf(r, key), r.now, cfg.submissionLimit, cfg.windowMs);
  }

  lemma EnqueueMatchesCalls(cfg: Config, r: Redis, job: nat, req: Request, i: nat)
    requires RatesKept(cfg, r) && i < |Enqueue(cfg, r, job, req).0.stream|
    ensures CallMatched(Enqueue(cfg, r, job, req).0, i)
  {
    if i < |r.stream| {
      assert CallMatched(r, i);
    }
  }

  lemma EnqueueOrdersCalls(cfg: Config, r: Redis, job: nat, req: Request, i: nat, j: nat)
    requires RatesKept(cfg, r) && i < j < |Enqueue(cfg, r, job, req).0.stream|
    ensures CallsOrdered(Enqueue(cfg, r, job, req).0, i, j)
  {
    assert CallMatched(r, i);
    if j < |r.stream| {
      assert CallsOrdered(r, i, j);
    }
  }

  lemma EnqueueKeepsLimiters(cfg: Config, r: Redis, job: nat, req: Request, key: string)
    requires ValidConfig(cfg) && RatesKept(cfg, r) && key in Enqueue(cfg, r, job, req).0.rate
    ensures var n := Enqueue(cfg, r, job, req).0;
            Valid(n.rate[key], cfg.submissionLimit, cfg.windowMs) && n.rate[key].log != [] && Last(n.rate[key]).at <= n.now
  {
    HitValid(cfg, r, RateMaterial(req));
  }

  lemma EnqueueKeepsRates(cfg: Config, r: Redis, job: nat, req: Request)
    requires ValidConfig(cfg) && RatesKept(cfg, r)
    ensures RatesKept(cfg, Enqueue(cfg, r, job, req).0)
  {
    var n := Enqueue(cfg, r, job, req).0;
    forall key | key in n.rate
      ensures Valid(n.rate[key], cfg.submissionLimit, cfg.windowMs) && n.rate[key].log != [] && Last(n.rate[key]).at <= n.now
    {
      EnqueueKeepsLimiters(cfg, r, job, req, key);
    }
    forall i: nat | i < |n.stream| ensures CallMatched(n, i) {
      EnqueueMatchesCalls(cfg, r, job, req, i);
    }
    forall i: nat, j: nat | i < j < |n.stream| ensures CallsOrdered(n, i, j) {
      EnqueueOrdersCalls(cfg, r, job, req, i, j);
    }
  }

  lemma SameRatesKept(cfg: Config, r: Redis, n: Redis)
    requires RatesKept(cfg, r) && n.stream == r.stream && n.rate == r.rate && n.now >= r.now
    ensures RatesKept(cfg, n)
  {
    forall i: nat | i < |n.stream| ensures CallMatched(n, i) {
      assert CallMatched(r, i);
    }
    forall i: nat, j: nat | i < j < |n.stream| ensures CallsOrdered(n, i, j) {
      assert CallsOrdered(r, i, j);
    }
  }

  lemma {:induction false} RunKeepsRates(cfg: Config, worlds: seq<World>, acts: seq<Act>, k: nat)
    requires IsRun(cfg, worlds, acts) && k < |worlds|
    ensures RatesKept(cfg, worlds[k].redis)
  {
    if k > 0 {
      RunKeepsRates(cfg, worlds, acts, k - 1);
      var w := worlds[k - 1];
      match acts[k - 1] {
        case Submit(job, req) => EnqueueKeepsRates(cfg, w.redis, job, req);
        case Replay(d, job) => EnqueueKeepsRates(cfg, w.redis, job, Replayable(w.redis, d).value);
        case Work(worker, c) =>
          CommandFrames(cfg, w.redis, PcOf(w, worker), c);
          SameRatesKept(cfg, w.redis, worlds[k].redis);
        case _ => SameRatesKept(cfg, w.redis, worlds[k].redis);
      }
    }
  }

  /**
   A submission that is refused for its rate is told how long: until then its key stays refused,
   and from then on it is not, whoever asks in between.
   */
  lemma RefusalEnds(cfg: Config, worlds: seq<World>, acts: seq<Act>, k: nat, job: nat, req: Request, later: int, again: nat)
    requires IsRun(cfg, worlds, acts) && k < |worlds| && Enqueue(cfg, worlds[k].redis, job, req).1.RateLimited? && later >= worlds[k].redis.now
    ensures var (n, reply) := Enqueue(cfg, worlds[k].redis, job, req);
            && 1 <= reply.ttlMs <= cfg.windowMs
            && (Enqueue(cfg, n.(now := later), again, req).1.RateLimited? <==> later < worlds[k].redis.now + reply.ttlMs)
            && n == worlds[k].redis.(rate := n.rate)
  {
    RunKeepsRates(cfg, worlds, acts, k);
    var r := worlds[k].redis;
    var l := RateOf(r, RateMaterial(req));
    assert l.log != [] && FixedWindow.Placed(l.log, |l.log| - 1, cfg.windowMs);
  }

  /** The entries of one kind and requester admitted in an interval. */
  function EntriesIn(r: Redis, key: string, lo: int, hi: int): set<nat> {
    set i: nat | i < |r.stream| && RateKey(r, i) == key && lo <= r.stream[i].at < hi
  }

  lemma {:induction false} EntriesAreCalls(r: Redis, key: string, entries: set<nat>, calls: set<nat>)
    requires forall i: nat, j: nat :: i < j < |r.stream| ==> CallsOrdered(r, i, j)
    requires forall i :: i in entries ==> i < |r.stream| && RateKey(r, i) == key && r.stream[i].call >= 0 && r.stream[i].call in calls
    ensures |entries| <= |calls|
    decreases |entries|
  {
    if i :| i in entries {
      forall j | j in entries && j != i ensures r.stream[j].call != r.stream[i].call {
        assert if j < i then CallsOrdered(r, j, i) else CallsOrdered(r, i, j);
      }
      EntriesAreCalls(r, key, entries - {i}, calls - {r.stream[i].call});
    }
  }

  lemma EntriesMatch(r: Redis, key: string, lo: int, hi: int)
    requires forall i: nat :: i < |r.stream| ==> CallMatched(r, i)
    ensures forall i :: i in EntriesIn(r, key, lo, hi) ==>
              r.stream[i].call >= 0 && r.stream[i].call in AdmittedIn(RateOf(r, key).log, lo, hi)
  {
    forall i | i in EntriesIn(r, key, lo, hi)
      ensures r.stream[i].call >= 0 && r.stream[i].call in AdmittedIn(RateOf(r, key).log, lo, hi)
    {
      assert CallMatched(r, i);
    }
  }

  /**
   For any kind and requester, any half-open interval of one submission window, and in
   every run: fewer than twice the limit of new jobs are admitted.
   */
  lemma SubmissionsAreBounded(cfg: Config, worlds: seq<World>, acts: seq<Act>, k: nat, key: string, lo: int)
    requires IsRun(cfg, worlds, acts) && k < |worlds|
    ensures |EntriesIn(worlds[k].redis, key, lo, lo + cfg.windowMs)| <= 2 * cfg.submissionLimit - 1
  {
    RunKeepsRates(cfg, worlds, acts, k);
    var r := worlds[k].redis;
    FreshLimiterValid(cfg.submissionLimit, cfg.windowMs);
    var limiter := RateOf(r, key);
    FewerThanTwiceTheLimit(limiter, cfg.submissionLimit, cfg.windowMs, lo);
    var entries, calls := EntriesIn(r, key, lo, lo + cfg.windowMs), AdmittedIn(limiter.log, lo, lo + cfg.windowMs);
    EntriesMatch(r, key, lo, lo + cfg.windowMs);
    EntriesAreCalls(r, key, entries, calls);
  }

  /** A live rate key expires one window after its first increment. */
  lemma RateKeyExpires(cfg: Config, worlds: seq<World>, acts: seq<Act>, k: nat, key: string)
    requires IsRun(cfg, worlds, acts) && k < |worlds| && key in worlds[k].redis.rate
    ensures var l := worlds[k].redis.rate[key];
            l.window.Some? && l.log != [] && Last(l).first < |l.log| &&
            l.window.value.expiresAt == l.log[Last(l).first].at + cfg.windowMs
  {
    RunKeepsRates(cfg, worlds, acts, k);
    var l := worlds[k].redis.rate[key];
    assert FixedWindow.Placed(l.log, |l.log| - 1, cfg.windowMs);
  }
}
