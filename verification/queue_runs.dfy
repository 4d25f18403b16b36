/**
 Any number of submitters and worker loops over one Redis. A step is one Redis command of
 one worker, one run of the enqueue script, a tick of the clock, or a worker that loses
 its place (a crash, a cancellation or a Redis error) between two commands.
 */
module QueueRuns {
  import opened Wrappers
  import opened JobCodec
  import opened FixedWindow
  import opened RedisServer

  /** The next command of a worker loop; `id` is the stream entry it holds. */
  datatype Pc =
    | Ready
    | Claiming
    | Reading
    | Looking(id: nat)
    | AckingMissing(id: nat)
    | Incrementing(id: nat)
    | MarkingRunning(id: nat, attempt: int)
    | ExpiringRunning(id: nat, attempt: int)
    | Executing(id: nat, attempt: int)
    | SettingSucceeded(id: nat)
    | ExpiringSucceeded(id: nat)
    | AckingSucceeded(id: nat)
    | SettingFailed(id: nat, attempt: int)
    | ExpiringFailed(id: nat, attempt: int)
    | AddingLetter(id: nat, attempt: int)
    | AckingFailed(id: nat)

  predicate HoldsEntry(pc: Pc) {
    !pc.Ready? && !pc.Claiming? && !pc.Reading?
  }

  /** What happens outside the worker's control: the entry XAUTOCLAIM picks, and how the job ends. */
  datatype Choice = Choice(claim: Option<nat>, succeeds: bool, summary: string)

  /** What has ever been done about one stream entry. */
  datatype History = History(
    starts: nat, lost: nat, succeeded: bool, failed: bool, missing: bool, acked: bool, root: nat)

  datatype World = World(redis: Redis, workers: map<nat, Pc>, history: seq<History>)

  const Start := World(Boot, map[], [])

  datatype Act =
    | Submit(job: nat, request: Request)
    | Replay(letter: nat, job: nat)
    | Tick(now: int)
    | Work(worker: nat, choice: Choice)
    | Lose(worker: nat)

  function PcOf(w: World, worker: nat): Pc {
    if worker in w.workers then w.workers[worker] else Ready
  }

  function JobAt(r: Redis, id: nat): nat {
    if id < |r.stream| then r.stream[id].job else 0
  }

  /** The Redis side of a worker's next command. */
  function Command(cfg: Config, r: Redis, pc: Pc, c: Choice): Redis {
    match pc
    case Ready => CreateGroup(r)
    case Claiming => if c.claim.Some? && Claimable(r, cfg, c.claim.value) then AutoClaim(r, c.claim.value) else r
    case Reading => if r.delivered < |r.stream| then ReadNew(r) else r
    case Looking(_) => r
    case AckingMissing(id) => XAck(r, id)
    case Incrementing(id) => HIncrAttempts(r, JobAt(r, id))
    case MarkingRunning(id, _) => HSetStatus(r, JobAt(r, id), Running, "")
    case ExpiringRunning(id, _) => ExpireStatus(r, JobAt(r, id), cfg.statusTtlMs)
    case Executing(_, _) => r
    case SettingSucceeded(id) => HSetStatus(r, JobAt(r, id), Succeeded, "")
    case ExpiringSucceeded(id) => ExpireStatus(r, JobAt(r, id), cfg.statusTtlMs)
    case AckingSucceeded(id) => XAck(r, id)
    case SettingFailed(id, n) => HSetStatus(r, JobAt(r, id), if n >= cfg.maxAttempts then Failed else Retrying, c.summary)
    case ExpiringFailed(id, _) => ExpireStatus(r, JobAt(r, id), cfg.statusTtlMs)
    case AddingLetter(id, n) => XAddDead(r, LetterFor(r, id, n, c.summary))
    case AckingFailed(id) => XAck(r, id)
  }

  function LetterFor(r: Redis, id: nat, attempt: int, summary: string): DeadLetter {
    DeadLetter(id, JobAt(r, id), if id < |r.stream| then r.stream[id].request.kind else EmbeddingReindex, attempt, r.now,
               Bounded(summary))
  }

  /** Where the worker stands once the command has been answered. */
  function Goto(cfg: Config, r: Redis, pc: Pc, c: Choice): Pc {
    match pc
    case Ready => Claiming
    case Claiming => if c.claim.Some? && Claimable(r, cfg, c.claim.value) then Looking(c.claim.value) else Reading
    case Reading => if r.delivered < |r.stream| then Looking(r.delivered) else Ready
    case Looking(id) =>
      var h := HashOf(r, JobAt(r, id));
      if h.None? then AckingMissing(id) else if Readable(h.value) then Incrementing(id) else Ready
    case AckingMissing(_) => Ready
    case Incrementing(id) => MarkingRunning(id, Base(r, JobAt(r, id)).attempts + 1)
    case MarkingRunning(id, n) => ExpiringRunning(id, n)
    case ExpiringRunning(id, n) => Executing(id, n)
    case Executing(id, n) => if c.succeeds then SettingSucceeded(id) else SettingFailed(id, n)
    case SettingSucceeded(id) => ExpiringSucceeded(id)
    case ExpiringSucceeded(id) => AckingSucceeded(id)
    case AckingSucceeded(_) => Ready
    case SettingFailed(id, n) => ExpiringFailed(id, n)
    case ExpiringFailed(id, n) => if n >= cfg.maxAttempts then AddingLetter(id, n) else Ready
    case AddingLetter(id, _) => AckingFailed(id)
    case AckingFailed(_) => Ready
  }

  /**
   After reading the status of an entry a worker goes on with the delivery exactly if the status is
   complete; it acknowledges an entry without one, and leaves an entry with an incomplete one pending.
   */
  lemma LookIsExact(cfg: Config, r: Redis, id: nat, c: Choice)
    ensures var job, next := JobAt(r, id), Goto(cfg, r, Looking(id), c);
            var live := job in r.hashes && (r.hashes[job].expiresAt.None? || r.now < r.hashes[job].expiresAt.value);
            && Command(cfg, r, Looking(id), c) == r
            && (next == AckingMissing(id) <==> !live)
            && (next == Incrementing(id) <==>
                  && live && r.hashes[job].request.Some? && r.hashes[job].status.Some?
                  && |r.hashes[job].request.value.requestedBy| > 0 && |r.hashes[job].request.value.sourceId| > 0)
            && (next != AckingMissing(id) && next != Incrementing(id) ==> next == Ready)
  {
  }

  function Note(cfg: Config, r: Redis, pc: Pc, h: History): History {
    match pc
    case Looking(id) => if HashOf(r, JobAt(r, id)).None? then h.(missing := true) else h
    case ExpiringRunning(_, _) => h.(starts := h.starts + 1)
    case SettingSucceeded(_) => h.(succeeded := true)
    case SettingFailed(_, n) => if n >= cfg.maxAttempts then h.(failed := true) else h
    case AckingMissing(_) => h.(acked := true)
    case AckingSucceeded(_) => h.(acked := true)
    case AckingFailed(_) => h.(acked := true)
    case _ => h
  }

  // ---------- steps ----------

  /** A job identifier nobody has used. */
  predicate FreshJob(r: Redis, job: nat) {
    job !in r.hashes && forall i :: 0 <= i < |r.stream| ==> r.stream[i].job != job
  }

  /** The request a replay of the dead letter submits, if it can be read back: see `QueueReplay.ReplayReadsExactly`. */
  function Replayable(r: Redis, d: nat): Option<Request> {
    if d < |r.dead| && r.dead[d].source < |r.stream| && Nonblank(r.stream[r.dead[d].source].request) then
      Some(r.stream[r.dead[d].source].request)
    else None
  }

  predicate Enabled(w: World, a: Act) {
    match a
    case Submit(job, _) => FreshJob(w.redis, job)
    case Replay(d, job) => FreshJob(w.redis, job) && Replayable(w.redis, d).Some?
    case Tick(now) => now >= w.redis.now
    case Work(_, _) => true
    case Lose(_) => true
  }

  function Add(cfg: Config, w: World, job: nat, req: Request, root: nat): World {
    var (r, reply) := Enqueue(cfg, w.redis, job, req);
    w.(redis := r, history := if reply.Accepted? then w.history + [History(0, 0, false, false, false, false, root)] else w.history)
  }

  function SourceOf(w: World, d: nat): nat {
    if d < |w.redis.dead| && w.redis.dead[d].source < |w.history| then w.history[w.redis.dead[d].source].root else 0
  }

  function Next(cfg: Config, w: World, a: Act): World
    requires Enabled(w, a)
  {
    match a
    case Submit(job, req) => Add(cfg, w, job, req, |w.redis.stream|)
    case Replay(d, job) => Add(cfg, w, job, Replayable(w.redis, d).value, SourceOf(w, d))
    case Tick(now) => w.(redis := w.redis.(now := now))
    case Work(worker, c) =>
      var pc := PcOf(w, worker);
      World(Command(cfg, w.redis, pc, c), w.workers[worker := Goto(cfg, w.redis, pc, c)],
            if HoldsEntry(pc) && pc.id < |w.history| then w.history[pc.id := Note(cfg, w.redis, pc, w.history[pc.id])] else w.history)
    case Lose(worker) =>
      var pc := PcOf(w, worker);
      w.(workers := w.workers[worker := Ready],
         history := if HoldsEntry(pc) && pc.id < |w.history| then
                      w.history[pc.id := w.history[pc.id].(lost := w.history[pc.id].lost + 1)] else w.history)
  }

  ghost predicate IsRun(cfg: Config, worlds: seq<World>, acts: seq<Act>) {
    && ValidConfig(cfg)
    && |worlds| == |acts| + 1
    && worlds[0] == Start
    && forall i :: 0 <= i < |acts| ==> Enabled(worlds[i], acts[i]) && worlds[i + 1] == Next(cfg, worlds[i], acts[i])
  }

  // ---------- no loss ----------

  /** How many dead letters name the entry. */
  function Letters(dead: seq<DeadLetter>, id: nat): nat {
    if dead == [] then 0
    else Letters(dead[..|dead| - 1], id) + (if dead[|dead| - 1].source == id then 1 else 0)
  }

  lemma LettersAfter(dead: seq<DeadLetter>, l: DeadLetter, id: nat)
    ensures Letters(dead + [l], id) == Letters(dead, id) + (if l.source == id then 1 else 0)
  {
    assert (dead + [l])[..|dead|] == dead;
  }

  /** Why an entry may have been acknowledged. */
  predicate Accounted(h: History, letters: nat) {
    h.succeeded || (h.failed && letters >= 1) || h.missing
  }

  /** What a worker standing at `pc` has already done about the entry it holds. */
  predicate PcJustified(cfg: Config, pc: Pc, h: History, letters: nat) {
    match pc
    case AckingMissing(_) => h.missing
    case ExpiringSucceeded(_) => h.succeeded
    case AckingSucceeded(_) => h.succeeded
    case ExpiringFailed(_, n) => n >= cfg.maxAttempts ==> h.failed
    case AddingLetter(_, n) => n >= cfg.maxAttempts && h.failed
    case AckingFailed(_) => h.failed && letters >= 1
    case _ => true
  }

  /** Each entry is undelivered, pending or acknowledged, and only one of these. */
  predicate Placed(w: World, id: nat)
    requires id < |w.history|
  {
    if id >= w.redis.delivered then id !in w.redis.pending && !w.history[id].acked
    else if id in w.redis.pending then !w.history[id].acked
    else w.history[id].acked && Accounted(w.history[id], Letters(w.redis.dead, id))
  }

  predicate WorkerJustified(cfg: Config, w: World, worker: nat) {
    var pc := PcOf(w, worker);
    && (!pc.Ready? ==> w.redis.group)
    && (HoldsEntry(pc) ==>
      && pc.id < w.redis.delivered && pc.id < |w.history|
      && PcJustified(cfg, pc, w.history[pc.id], Letters(w.redis.dead, pc.id)))
  }

  ghost predicate NothingLost(cfg: Config, w: World) {
    && |w.history| == |w.redis.stream|
    && w.redis.delivered <= |w.redis.stream|
    && (!w.redis.group ==> w.redis.delivered == 0)
    && (forall id :: id in w.redis.pending ==> id < w.redis.delivered)
    && (forall id: nat :: id < |w.history| ==> Placed(w, id))
    && (forall worker: nat :: WorkerJustified(cfg, w, worker))
  }

  /** A command of a worker changes the place of no entry but the one it holds, claims or reads. */
  lemma WorkKeepsOthers(cfg: Config, w: World, worker: nat, c: Choice, id: nat)
    requires NothingLost(cfg, w) && id < |w.history|
    requires var pc := PcOf(w, worker); !(HoldsEntry(pc) && pc.id == id)
    ensures Placed(Next(cfg, w, Work(worker, c)), id)
  {
    assert Placed(w, id);
    var pc := PcOf(w, worker);
    if pc.AddingLetter? {
      LettersAfter(w.redis.dead, LetterFor(w.redis, pc.id, pc.attempt, c.summary), id);
    }
  }

  lemma WorkKeepsHeld(cfg: Config, w: World, worker: nat, c: Choice)
    requires NothingLost(cfg, w) && HoldsEntry(PcOf(w, worker)) && PcOf(w, worker).id < |w.history|
    ensures Placed(Next(cfg, w, Work(worker, c)), PcOf(w, worker).id)
  {
    var pc := PcOf(w, worker);
    assert WorkerJustified(cfg, w, worker) && Placed(w, pc.id);
    if pc.AddingLetter? {
      LettersAfter(w.redis.dead, LetterFor(w.redis, pc.id, pc.attempt, c.summary), pc.id);
    }
  }

  lemma WorkJustifiesItself(cfg: Config, w: World, worker: nat, c: Choice)
    requires NothingLost(cfg, w)
    ensures WorkerJustified(cfg, Next(cfg, w, Work(worker, c)), worker)
  {
    var pc := PcOf(w, worker);
    assert WorkerJustified(cfg, w, worker);
    if pc.AddingLetter? {
      LettersAfter(w.redis.dead, LetterFor(w.redis, pc.id, pc.attempt, c.summary), pc.id);
    }
  }

  /** What has been noted about an entry, and its dead letters, are never taken back. */
  lemma WorkKeepsNotes(cfg: Config, w: World, worker: nat, c: Choice, id: nat)
    requires id < |w.history|
    ensures var n := Next(cfg, w, Work(worker, c));
            && |n.history| == |w.history|
            && (w.history[id].succeeded ==> n.history[id].succeeded)
            && (w.history[id].failed ==> n.history[id].failed)
            && (w.history[id].missing ==> n.history[id].missing)
            && Letters(n.redis.dead, id) >= Letters(w.redis.dead, id)
  {
    var pc := PcOf(w, worker);
    if pc.AddingLetter? {
      LettersAfter(w.redis.dead, LetterFor(w.redis, pc.id, pc.attempt, c.summary), id);
    }
  }

  lemma WorkJustifies(cfg: Config, w: World, worker: nat, c: Choice, other: nat)
    requires NothingLost(cfg, w)
    ensures WorkerJustified(cfg, Next(cfg, w, Work(worker, c)), other)
  {
    assert WorkerJustified(cfg, w, worker) && WorkerJustified(cfg, w, other);
    if other == worker {
      WorkJustifiesItself(cfg, w, worker, c);
    } else if HoldsEntry(PcOf(w, other)) {
      WorkKeepsNotes(cfg, w, worker, c, PcOf(w, other).id);
    }
  }

  lemma WorkLosesNothing(cfg: Config, w: World, worker: nat, c: Choice)
    requires NothingLost(cfg, w)
    ensures NothingLost(cfg, Next(cfg, w, Work(worker, c)))
  {
    var n := Next(cfg, w, Work(worker, c));
    var pc := PcOf(w, worker);
    assert WorkerJustified(cfg, w, worker);
    forall id: nat | id < |n.history| ensures Placed(n, id) {
      if HoldsEntry(pc) && pc.id == id {
        WorkKeepsHeld(cfg, w, worker, c);
      } else {
        WorkKeepsOthers(cfg, w, worker, c, id);
      }
    }
    forall other: nat ensures WorkerJustified(cfg, n, other) {
      WorkJustifies(cfg, w, worker, c, other);
    }
  }

  lemma AddLosesNothing(cfg: Config, w: World, job: nat, req: Request, root: nat)
    requires NothingLost(cfg, w)
    ensures NothingLost(cfg, Add(cfg, w, job, req, root))
  {
    var n := Add(cfg, w, job, req, root);
    forall id: nat | id < |n.history| ensures Placed(n, id) {
      if id < |w.history| {
        assert Placed(w, id);
      }
    }
    forall worker: nat ensures WorkerJustified(cfg, n, worker) {
      assert WorkerJustified(cfg, w, worker);
    }
  }

  lemma StepLosesNothing(cfg: Config, w: World, a: Act)
    requires NothingLost(cfg, w) && Enabled(w, a)
    ensures NothingLost(cfg, Next(cfg, w, a))
  {
    var n := Next(cfg, w, a);
    match a
    case Submit(job, req) => AddLosesNothing(cfg, w, job, req, |w.redis.stream|);
    case Replay(d, job) => AddLosesNothing(cfg, w, job, Replayable(w.redis, d).value, SourceOf(w, d));
    case Work(worker, c) => WorkLosesNothing(cfg, w, worker, c);
    case _ =>
      forall id: nat | id < |n.history| ensures Placed(n, id) {
        assert Placed(w, id);
      }
      forall worker: nat ensures WorkerJustified(cfg, n, worker) {
        assert WorkerJustified(cfg, w, worker);
      }
  }

  /**
   With any number of workers, a loss between any two commands and any clock, every
   admitted entry is undelivered, pending or acknowledged; and an acknowledged one had a
   success written, or a failure written and a dead letter naming it, or its status read
   as missing. Entries added before the group existed are covered.
   */
  lemma {:induction false} NoEntryIsLost(cfg: Config, worlds: seq<World>, acts: seq<Act>, k: nat)
    requires IsRun(cfg, worlds, acts) && k < |worlds|
    ensures NothingLost(cfg, worlds[k])
  {
    if k > 0 {
      NoEntryIsLost(cfg, worlds, acts, k - 1);
      StepLosesNothing(cfg, worlds[k - 1], acts[k - 1]);
    }
  }
}
