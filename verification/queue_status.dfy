/**
 The times and the error summary a status carries, over whole runs. Starting an attempt
 clears what the last one left; an attempt that ends writes its own.
 */
module QueueStatus {
  import opened Wrappers
  import opened JobCodec
  import opened RedisServer
  import opened QueueRuns
  import opened QueueSettlement
  import opened QueueSubmission
  import opened QueueLetters

  predicate InOrder(m: Marks, now: int) {
    && |m.summary| <= 1000
    && (m.startedAt.Some? ==> m.startedAt.value <= now)
    && (m.finishedAt.Some? ==> m.finishedAt.value <= now)
    && (m.startedAt.Some? && m.finishedAt.Some? ==> m.startedAt.value <= m.finishedAt.value)
  }

  /** What the status of a job says about its latest attempt. */
  predicate Stamped(h: StatusHash, now: int) {
    && InOrder(h.marks, now)
    && match h.status {
         case None => h.marks == NoMarks && !h.hasResult
         case Some(Queued) => h.marks == NoMarks && !h.hasResult
         case Some(Running) => h.marks.startedAt.Some? && h.marks.finishedAt.None? && h.marks.summary == ""
         case Some(Succeeded) => h.marks.finishedAt.Some? && h.marks.summary == "" && h.hasResult
         case Some(Failed) => h.marks.finishedAt.Some?
         case Some(Retrying) => true
       }
  }

  predicate StampedAt(r: Redis, job: nat) {
    job in r.hashes ==> Stamped(r.hashes[job], r.now)
  }

  /** A write of a status other than QUEUED stamps it. */
  lemma WriteStamps(h: StatusHash, status: Status, now: int, summary: string)
    requires Stamped(h, now) && !status.Queued?
    ensures Stamped(h.(status := Some(status), hasResult := h.hasResult || status.Succeeded?, marks := Marked(h.marks, status, now, summary)), now)
  {
    assert InOrder(Marked(h.marks, status, now, summary), now);
  }

  lemma CountStaysStamped(r: Redis, job: nat, other: nat)
    requires StampedAt(r, job) && StampedAt(r, other)
    ensures StampedAt(HIncrAttempts(r, job), other)
  {
  }

  lemma WriteStaysStamped(r: Redis, job: nat, status: Status, summary: string, other: nat)
    requires StampedAt(r, job) && StampedAt(r, other) && !status.Queued?
    ensures StampedAt(HSetStatus(r, job, status, summary), other)
  {
    var h := Base(r, job);
    assert Stamped(h, r.now);
    WriteStamps(h, status, r.now, summary);
  }

  lemma ExpiryStaysStamped(r: Redis, job: nat, ttlMs: int, other: nat)
    requires StampedAt(r, job) && StampedAt(r, other)
    ensures StampedAt(ExpireStatus(r, job, ttlMs), other)
  {
  }

  lemma CommandStaysStamped(cfg: Config, r: Redis, pc: Pc, c: Choice, job: nat)
    requires forall j: nat :: StampedAt(r, j)
    ensures StampedAt(Command(cfg, r, pc, c), job)
  {
    assert StampedAt(r, job);
    if HoldsEntry(pc) {
      var own := JobAt(r, pc.id);
      assert StampedAt(r, own);
      match pc
      case Incrementing(_) => CountStaysStamped(r, own, job);
      case MarkingRunning(_, _) => WriteStaysStamped(r, own, Running, "", job);
      case SettingSucceeded(_) => WriteStaysStamped(r, own, Succeeded, "", job);
      case SettingFailed(_, n) => WriteStaysStamped(r, own, if n >= cfg.maxAttempts then Failed else Retrying, c.summary, job);
      case ExpiringRunning(_, _) => ExpiryStaysStamped(r, own, cfg.statusTtlMs, job);
      case ExpiringSucceeded(_) => ExpiryStaysStamped(r, own, cfg.statusTtlMs, job);
      case ExpiringFailed(_, _) => ExpiryStaysStamped(r, own, cfg.statusTtlMs, job);
      case _ =>
    }
  }

  lemma EnqueueStaysStamped(cfg: Config, r: Redis, added: nat, req: Request, job: nat)
    requires StampedAt(r, job)
    ensures StampedAt(Enqueue(cfg, r, added, req).0, job)
  {
    assert Enqueue(cfg, r, added, req).1.Accepted? ==>
             Enqueue(cfg, r, added, req).0.hashes == r.hashes[added := StatusHash(Some(req), Some(Queued), 0, false, NoMarks, Some(r.now + cfg.statusTtlMs))];
  }

  lemma StepStaysStamped(cfg: Config, w: World, a: Act, job: nat)
    requires Enabled(w, a) && forall j: nat :: StampedAt(w.redis, j)
    ensures StampedAt(Next(cfg, w, a).redis, job)
  {
    assert StampedAt(w.redis, job);
    match a
    case Submit(added, req) => EnqueueStaysStamped(cfg, w.redis, added, req, job);
    case Replay(d, added) => EnqueueStaysStamped(cfg, w.redis, added, Replayable(w.redis, d).value, job);
    case Work(worker, c) => CommandStaysStamped(cfg, w.redis, PcOf(w, worker), c, job);
    case _ =>
  }

  /**
   In every state of every run, with any number of workers: a queued job has no times and no
   summary, a running one has a start and neither an end nor a summary, a succeeded one an end,
   a result and no summary, a failed one an end; and no start is later than the end beside it.
   */
  lemma {:induction false} StatusesAreStamped(cfg: Config, worlds: seq<World>, acts: seq<Act>, k: nat, job: nat)
    requires IsRun(cfg, worlds, acts) && k < |worlds|
    ensures StampedAt(worlds[k].redis, job)
  {
    if k > 0 {
      var r := worlds[k - 1].redis;
      forall j: nat ensures StampedAt(r, j) {
        StatusesAreStamped(cfg, worlds, acts, k - 1, j);
      }
      StepStaysStamped(cfg, worlds[k - 1], acts[k - 1], job);
    }
  }

  // ---------- a retry ----------

  predicate Unfinished(r: Redis, job: nat) {
    job in r.hashes ==> r.hashes[job].marks.finishedAt.None?
  }

  predicate RetryUnfinished(r: Redis, job: nat) {
    job in r.hashes && r.hashes[job].status == Some(Retrying) ==> r.hashes[job].marks.finishedAt.None?
  }

  /** Between the RUNNING of an attempt and the record of its end. */
  predicate UnderWay(pc: Pc) {
    pc.ExpiringRunning? || pc.Executing? || pc.SettingSucceeded? || pc.SettingFailed?
  }

  ghost predicate RetriesUnfinished(w: World) {
    && (forall job: nat :: RetryUnfinished(w.redis, job))
    && (UnderWay(PcOf(w, 0)) ==> Unfinished(w.redis, JobAt(w.redis, PcOf(w, 0).id)))
  }

  lemma CommandKeepsUnfinished(cfg: Config, r: Redis, pc: Pc, c: Choice, job: nat)
    requires RetryUnfinished(r, job)
    requires UnderWay(pc) ==> Unfinished(r, JobAt(r, pc.id))
    ensures RetryUnfinished(Command(cfg, r, pc, c), job)
    ensures var next := Goto(cfg, r, pc, c); UnderWay(next) ==> Unfinished(Command(cfg, r, pc, c), JobAt(r, next.id))
  {
  }

  lemma AddKeepsUnfinished(cfg: Config, w: World, added: nat, req: Request, root: nat, job: nat)
    requires RetryUnfinished(w.redis, job)
    ensures var n := Add(cfg, w, added, req, root).redis;
            RetryUnfinished(n, job) && (Unfinished(w.redis, job) ==> Unfinished(n, job))
  {
  }

  lemma StepKeepsUnfinished(cfg: Config, w: World, a: Act, job: nat)
    requires NothingLost(cfg, w) && RetriesUnfinished(w) && Enabled(w, a) && ByLoopZero(a)
    ensures RetryUnfinished(Next(cfg, w, a).redis, job)
    ensures var n := Next(cfg, w, a); UnderWay(PcOf(n, 0)) ==> Unfinished(n.redis, JobAt(n.redis, PcOf(n, 0).id))
  {
    var pc := PcOf(w, 0);
    assert WorkerJustified(cfg, w, 0) && RetryUnfinished(w.redis, job);
    var own := if UnderWay(pc) then JobAt(w.redis, pc.id) else job;
    assert RetryUnfinished(w.redis, own);
    match a
    case Submit(added, req) =>
      AddKeepsUnfinished(cfg, w, added, req, |w.redis.stream|, job);
      AddKeepsUnfinished(cfg, w, added, req, |w.redis.stream|, own);
    case Replay(d, added) =>
      AddKeepsUnfinished(cfg, w, added, Replayable(w.redis, d).value, SourceOf(w, d), job);
      AddKeepsUnfinished(cfg, w, added, Replayable(w.redis, d).value, SourceOf(w, d), own);
    case Work(_, c) =>
      CommandFrames(cfg, w.redis, pc, c);
      CommandKeepsUnfinished(cfg, w.redis, pc, c, job);
    case _ =>
  }

  /** With one worker loop a job that waits for its retry never shows the end of an earlier attempt. */
  lemma {:induction false} RetryingIsUnfinished(cfg: Config, worlds: seq<World>, acts: seq<Act>, k: nat)
    requires IsOneLoopRun(cfg, worlds, acts) && k < |worlds|
    ensures RetriesUnfinished(worlds[k])
  {
    if k > 0 {
      RetryingIsUnfinished(cfg, worlds, acts, k - 1);
      NoEntryIsLost(cfg, worlds, acts, k - 1);
      assert ByLoopZero(acts[k - 1]);
      forall job: nat ensures RetryUnfinished(worlds[k].redis, job) {
        StepKeepsUnfinished(cfg, worlds[k - 1], acts[k - 1], job);
      }
      StepKeepsUnfinished(cfg, worlds[k - 1], acts[k - 1], 0);
    }
  }

  // ---------- one status write ----------

  /**
   What one status write leaves of a live hash, by the status: a start forgets the last attempt,
   an end is stamped with the time of the write, and an error text is cut to 1000 characters.
   */
  lemma StatusWriteIsExact(r: Redis, job: nat, status: Status, text: string)
    requires HashOf(r, job).Some?
    ensures var h, n := r.hashes[job], HSetStatus(r, job, status, text);
            job in n.hashes && var g := n.hashes[job];
            && n == r.(hashes := n.hashes) && n.hashes == r.hashes[job := g]
            && g.request == h.request && g.attempts == h.attempts && g.expiresAt == h.expiresAt && g.status == Some(status)
            && (g.hasResult <==> h.hasResult || status == Succeeded)
            && (g.marks.startedAt == if status == Running then Some(r.now) else h.marks.startedAt)
            && (status == Running ==> g.marks.finishedAt == None && g.marks.summary == "")
            && (status == Succeeded ==> g.marks.finishedAt == Some(r.now) && g.marks.summary == "")
            && (status == Failed ==> g.marks.finishedAt == Some(r.now) && Summarizes(g.marks.summary, text))
            && (status == Retrying ==> g.marks.finishedAt == h.marks.finishedAt && Summarizes(g.marks.summary, text))
  {
  }

  /** Counting an attempt adds one to a live hash and starts an expired one anew; renewing sets the whole time to live. */
  lemma CounterAndExpiryAreExact(r: Redis, job: nat, ttlMs: int)
    ensures var live := job in r.hashes && (r.hashes[job].expiresAt.None? || r.now < r.hashes[job].expiresAt.value);
            var n, m := HIncrAttempts(r, job), ExpireStatus(r, job, ttlMs);
            && n == r.(hashes := n.hashes)
            && (live ==> n.hashes == r.hashes[job := r.hashes[job].(attempts := r.hashes[job].attempts + 1)])
            && (!live ==> n.hashes == r.hashes[job := StatusHash(None, None, 1, false, NoMarks, None)])
            && (live ==> m == r.(hashes := r.hashes[job := r.hashes[job].(expiresAt := Some(r.now + ttlMs))]))
            && (!live ==> m == r)
  {
  }
}
