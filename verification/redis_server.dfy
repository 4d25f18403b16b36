/**
 The part of Redis the maintenance queue uses, as one state and one function a command.

 Times are milliseconds of the server clock. A stream entry is identified by its
 position, so nothing is ever trimmed here. A key that expires at `e` is absent from `e`
 on. `Dedup.entry` and `Entry.call` are history: which stream entry and which rate call
 a key or an entry came from.
 */
module RedisServer {
  import opened Wrappers
  import opened JobCodec
  import opened FixedWindow

  datatype Config = Config(
    maxAttempts: nat,
    windowMs: int,
    submissionLimit: int,
    statusTtlMs: int,
    cooldownMs: int,
    retryIdleMs: int)

  ghost predicate ValidConfig(cfg: Config) {
    cfg.maxAttempts >= 1 && cfg.windowMs >= 1 && cfg.submissionLimit >= 1 &&
    cfg.statusTtlMs >= 1 && cfg.cooldownMs >= 1 && cfg.retryIdleMs >= 1
  }

  datatype Entry = Entry(job: nat, request: Request, at: int, call: int)

  /** What a status says about its latest attempt; an empty summary says nothing. */
  datatype Marks = Marks(startedAt: Option<int>, finishedAt: Option<int>, summary: string)

  const NoMarks := Marks(None, None, "")

  /** `request` is present when the script's identity fields are in the hash. */
  datatype StatusHash = StatusHash(
    request: Option<Request>,
    status: Option<Status>,
    attempts: int,
    hasResult: bool,
    marks: Marks,
    expiresAt: Option<int>)

  datatype Dedup = Dedup(job: nat, expiresAt: int, entry: nat)

  datatype DeadLetter = DeadLetter(source: nat, job: nat, kind: Kind, attempts: int, failedAt: int, summary: string)

  datatype Redis = Redis(
    now: int,
    stream: seq<Entry>,
    group: bool,
    delivered: nat,
    pending: map<nat, int>,
    hashes: map<nat, StatusHash>,
    dedup: map<string, Dedup>,
    rate: map<string, Limiter>,
    dead: seq<DeadLetter>)

  const Boot := Redis(0, [], false, 0, map[], map[], map[], map[], [])

  // ---------- reads ----------

  predicate Lives(expiresAt: Option<int>, now: int) {
    expiresAt.None? || now < expiresAt.value
  }

  function HashOf(r: Redis, job: nat): Option<StatusHash> {
    if job in r.hashes && Lives(r.hashes[job].expiresAt, r.now) then Some(r.hashes[job]) else None
  }

  function DedupOf(r: Redis, key: string): Option<Dedup> {
    if key in r.dedup && r.now < r.dedup[key].expiresAt then Some(r.dedup[key]) else None
  }

  function RateOf(r: Redis, key: string): Limiter {
    if key in r.rate then r.rate[key] else Fresh
  }

  /** Whether the snapshot decoder accepts the hash. */
  predicate Readable(h: StatusHash) {
    h.request.Some? && Nonblank(h.request.value) && h.status.Some?
  }

  // ---------- hash commands ----------

  const BlankHash := StatusHash(None, None, 0, false, NoMarks, None)

  /** What a write to the key starts from: an expired key is gone, with its time to live. */
  function Base(r: Redis, job: nat): StatusHash {
    if HashOf(r, job).Some? then r.hashes[job] else BlankHash
  }

  function HIncrAttempts(r: Redis, job: nat): Redis {
    var h := Base(r, job);
    r.(hashes := r.hashes[job := h.(attempts := h.attempts + 1)])
  }

  function Bounded(summary: string): string {
    if |summary| > 1000 then summary[..1000] else summary
  }

  /** The times and the summary that are written with a status; the other fields stay. */
  function Marked(m: Marks, status: Status, now: int, summary: string): Marks {
    match status
    case Queued => m
    case Running => Marks(Some(now), None, "")
    case Succeeded => Marks(m.startedAt, Some(now), "")
    case Failed => Marks(m.startedAt, Some(now), Bounded(summary))
    case Retrying => Marks(m.startedAt, m.finishedAt, Bounded(summary))
  }

  /** One HSET with a new status, and the result if it is SUCCEEDED. */
  function HSetStatus(r: Redis, job: nat, status: Status, summary: string): Redis {
    var h := Base(r, job);
    r.(hashes := r.hashes[job := h.(status := Some(status), hasResult := h.hasResult || status.Succeeded?,
                                    marks := Marked(h.marks, status, r.now, summary))])
  }

  function ExpireStatus(r: Redis, job: nat, ttlMs: int): Redis {
    if HashOf(r, job).None? then r
    else r.(hashes := r.hashes[job := r.hashes[job].(expiresAt := Some(r.now + ttlMs))])
  }

  // ---------- stream commands ----------

  /** XGROUP CREATE at 0-0, or BUSYGROUP: entries added before the group are still undelivered. */
  function CreateGroup(r: Redis): Redis {
    if r.group then r else r.(group := true, delivered := 0)
  }

  predicate Claimable(r: Redis, cfg: Config, id: nat) {
    id in r.pending && r.now - r.pending[id] >= cfg.retryIdleMs
  }

  function AutoClaim(r: Redis, id: nat): Redis {
    r.(pending := r.pending[id := r.now])
  }

  function ReadNew(r: Redis): Redis {
    r.(delivered := r.delivered + 1, pending := r.pending[r.delivered := r.now])
  }

  function XAck(r: Redis, id: nat): Redis {
    r.(pending := r.pending - {id})
  }

  function XAddDead(r: Redis, letter: DeadLetter): Redis {
    r.(dead := r.dead + [letter])
  }

  // ---------- the enqueue script ----------

  datatype EnqueueReply = Accepted(job: nat, id: nat) | Deduplicated(job: nat) | RateLimited(ttlMs: int)

  /** What the script adds when the job is admitted. */
  function Admit(cfg: Config, r: Redis, job: nat, req: Request, limiter: Limiter): Redis {
    r.(stream := r.stream + [Entry(job, req, r.now, |limiter.log| - 1)],
       hashes := r.hashes[job := StatusHash(Some(req), Some(Status.Queued), 0, false, NoMarks, Some(r.now + cfg.statusTtlMs))],
       dedup := r.dedup[DedupMaterial(req) := Dedup(job, r.now + cfg.cooldownMs, |r.stream|)],
       rate := r.rate[RateMaterial(req) := limiter])
  }

  function Enqueue(cfg: Config, r: Redis, job: nat, req: Request): (Redis, EnqueueReply)
  {
    var live := DedupOf(r, DedupMaterial(req));
    if live.Some? then (r, Deduplicated(live.value.job))
    else
      var limiter := Hit(RateOf(r, RateMaterial(req)), r.now, cfg.submissionLimit, cfg.windowMs);
      if !Last(limiter).admitted then
        (r.(rate := r.rate[RateMaterial(req) := limiter]), RateLimited(limiter.window.value.expiresAt - r.now))
      else (Admit(cfg, r, job, req, limiter), Accepted(job, |r.stream|))
  }
}
