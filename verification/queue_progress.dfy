/**
 An admitted job reaches its end. Until it is delivered its status is what the enqueue script
 wrote; one worker that keeps reading gets to it, and by retrying it in time ends it. Deliveries
 of one entry are at least the idle time apart.
 */
module QueueProgress {
  import opened Wrappers
  import opened JobCodec
  import opened RedisServer
  import opened QueueRuns
  import opened QueueDelivery
  import opened QueueSubmission
  import opened QueueSettlement

  // ---------- before the first delivery ----------

  /** The status the enqueue script wrote for the entry. */
  function QueuedHash(cfg: Config, e: Entry): StatusHash {
    StatusHash(Some(e.request), Some(Queued), 0, false, NoMarks, Some(e.at + cfg.statusTtlMs))
  }

  predicate Untouched(cfg: Config, r: Redis, i: nat)
    requires i < |r.stream|
  {
    r.stream[i].job in r.hashes && r.hashes[r.stream[i].job] == QueuedHash(cfg, r.stream[i])
  }

  ghost predicate UndeliveredUntouched(cfg: Config, r: Redis) {
    && (forall i: nat :: r.delivered <= i < |r.stream| ==> Untouched(cfg, r, i))
    && (forall j :: 0 <= j < |r.dead| ==> r.dead[j].source < r.delivered)
  }

  lemma WorkLeavesUndelivered(cfg: Config, w: World, worker: nat, c: Choice, i: nat)
    requires NothingLost(cfg, w) && StatusesKept(cfg, w.redis) && UndeliveredUntouched(cfg, w.redis)
    requires var n := Command(cfg, w.redis, PcOf(w, worker), c); n.delivered <= i < |n.stream|
    ensures Untouched(cfg, Command(cfg, w.redis, PcOf(w, worker), c), i)
  {
    var r, pc := w.redis, PcOf(w, worker);
    CommandFrames(cfg, r, pc, c);
    CommandWritesHash(cfg, r, pc, c);
    assert WorkerJustified(cfg, w, worker) && Untouched(cfg, r, i);
    if HoldsEntry(pc) {
      assert r.stream[pc.id].job != r.stream[i].job;
    }
  }

  lemma EnqueueLeavesUndelivered(cfg: Config, r: Redis, job: nat, req: Request)
    requires UndeliveredUntouched(cfg, r) && FreshJob(r, job)
    ensures UndeliveredUntouched(cfg, Enqueue(cfg, r, job, req).0)
  {
    var n := Enqueue(cfg, r, job, req).0;
    forall i: nat | n.delivered <= i < |n.stream| ensures Untouched(cfg, n, i) {
      if i < |r.stream| {
        assert Untouched(cfg, r, i);
      }
    }
  }

  lemma StepLeavesUndelivered(cfg: Config, w: World, a: Act)
    requires NothingLost(cfg, w) && StatusesKept(cfg, w.redis) && UndeliveredUntouched(cfg, w.redis) && Enabled(w, a)
    ensures UndeliveredUntouched(cfg, Next(cfg, w, a).redis)
  {
    match a
    case Submit(job, req) => EnqueueLeavesUndelivered(cfg, w.redis, job, req);
    case Replay(d, job) => EnqueueLeavesUndelivered(cfg, w.redis, job, Replayable(w.redis, d).value);
    case Work(worker, c) =>
      assert WorkerJustified(cfg, w, worker);
      var n := Next(cfg, w, a).redis;
      forall i: nat | n.delivered <= i < |n.stream| ensures Untouched(cfg, n, i) {
        WorkLeavesUndelivered(cfg, w, worker, c, i);
      }
    case Tick(now) =>
      var n := Next(cfg, w, a).redis;
      forall i: nat | n.delivered <= i < |n.stream| ensures Untouched(cfg, n, i) {
        assert Untouched(cfg, w.redis, i);
      }
    case Lose(_) =>
  }

  /**
   In every run, with any number of workers: the status of an entry that has not been delivered
   is exactly what the enqueue script wrote, and no dead letter names it.
   */
  lemma {:induction false} UndeliveredIsUntouched(cfg: Config, worlds: seq<World>, acts: seq<Act>, k: nat)
    requires IsRun(cfg, worlds, acts) && k < |worlds|
    ensures UndeliveredUntouched(cfg, worlds[k].redis)
  {
    if k > 0 {
      UndeliveredIsUntouched(cfg, worlds, acts, k - 1);
      NoEntryIsLost(cfg, worlds, acts, k - 1);
      RunKeepsStatuses(cfg, worlds, acts, k - 1);
      StepLeavesUndelivered(cfg, worlds[k - 1], acts[k - 1]);
    }
  }

  // ---------- deliveries ----------

  /** The step hands the entry to a worker, by claiming or by reading it. */
  predicate Delivers(w: World, a: Act, n: World, id: nat) {
    && a.Work? && (PcOf(w, a.worker).Claiming? || PcOf(w, a.worker).Reading?)
    && PcOf(n, a.worker) == Looking(id)
  }

  /** The entry was handed out at this time or later. */
  predicate DeliveredSince(r: Redis, id: nat, time: int) {
    id < r.delivered && (id in r.pending ==> r.pending[id] >= time) && r.now >= time
  }

  lemma DeliveryStarts(cfg: Config, w: World, a: Act, id: nat)
    requires Enabled(w, a) && NothingLost(cfg, w) && Delivers(w, a, Next(cfg, w, a), id)
    ensures DeliveredSince(Next(cfg, w, a).redis, id, w.redis.now)
  {
    CommandFrames(cfg, w.redis, PcOf(w, a.worker), a.choice);
  }

  lemma StepKeepsDelivered(cfg: Config, w: World, a: Act, id: nat, time: int)
    requires Enabled(w, a) && NothingLost(cfg, w) && DeliveredSince(w.redis, id, time)
    ensures DeliveredSince(Next(cfg, w, a).redis, id, time)
  {
    if a.Work? {
      CommandFrames(cfg, w.redis, PcOf(w, a.worker), a.choice);
      assert WorkerJustified(cfg, w, a.worker);
    }
  }

  lemma {:induction false} StaysDelivered(cfg: Config, worlds: seq<World>, acts: seq<Act>, i: nat, k: nat, id: nat, time: int)
    requires IsRun(cfg, worlds, acts) && i <= k < |worlds| && DeliveredSince(worlds[i].redis, id, time)
    ensures DeliveredSince(worlds[k].redis, id, time)
  {
    if i < k {
      StaysDelivered(cfg, worlds, acts, i, k - 1, id, time);
      NoEntryIsLost(cfg, worlds, acts, k - 1);
      StepKeepsDelivered(cfg, worlds[k - 1], acts[k - 1], id, time);
    }
  }

  /** A delivery to one who comes later waits for the idle time. */
  lemma LaterDeliveryIsIdle(cfg: Config, w: World, a: Act, id: nat, time: int)
    requires Enabled(w, a) && DeliveredSince(w.redis, id, time) && Delivers(w, a, Next(cfg, w, a), id)
    ensures w.redis.now - time >= cfg.retryIdleMs
  {
  }

  /** In every run two deliveries of one entry, to whichever workers, are at least the idle time apart. */
  lemma DeliveriesAreSpaced(cfg: Config, worlds: seq<World>, acts: seq<Act>, i: nat, j: nat, id: nat)
    requires IsRun(cfg, worlds, acts) && i < j < |acts|
    requires Delivers(worlds[i], acts[i], worlds[i + 1], id) && Delivers(worlds[j], acts[j], worlds[j + 1], id)
    ensures worlds[j].redis.now - worlds[i].redis.now >= cfg.retryIdleMs
  {
    NoEntryIsLost(cfg, worlds, acts, i);
    DeliveryStarts(cfg, worlds[i], acts[i], id);
    StaysDelivered(cfg, worlds, acts, i + 1, j, id, worlds[i].redis.now);
    LaterDeliveryIsIdle(cfg, worlds[j], acts[j], id, worlds[i].redis.now);
  }

  // ---------- reading ----------

  /** The round finds nothing stale and is not cut off. */
  predicate ReadsNew(round: Round) {
    round.choice.claim.None? && round.answers >= ENOUGH
  }

  /** No more answers than these are needed from here to the end of a round. */
  function Needed(pc: Pc): nat {
    var phase := Phase(pc);
    if phase <= 4 then 11 - phase else if phase <= 8 then 12 - phase else 13 - phase
  }

  lemma {:induction false} CarryEnds(cfg: Config, r: Redis, pc: Pc, c: Choice, answers: nat)
    requires answers >= Needed(pc) && !pc.Claiming? && !pc.Reading?
    ensures var (n, at, _) := Carry(cfg, r, pc, c, answers);
            at.Ready? && n.delivered == r.delivered && n.stream == r.stream && (r.group ==> n.group)
    decreases 13 - Phase(pc)
  {
    if !pc.Ready? {
      CommandFrames(cfg, r, pc, c);
      CarryEnds(cfg, Command(cfg, r, pc, c), Goto(cfg, r, pc, c), c, if pc.Executing? then answers else answers - 1);
    }
  }

  /** An uncut round that claims nothing delivers exactly the next entry. */
  lemma ReadAdvances(cfg: Config, r: Redis, round: Round)
    requires ReadsNew(round) && (r.group || r.delivered == 0) && r.delivered < |r.stream|
    ensures var n := AfterRound(cfg, r, round);
            n.delivered == r.delivered + 1 && n.stream == r.stream && n.group && !IsCutOff(cfg, r, round)
  {
    var s := CreateGroup(r.(now := r.now + round.wait));
    var c := round.choice;
    assert s.delivered == r.delivered;
    CarryOn(cfg, s, Claiming, c, round.answers - 1);
    CarryOn(cfg, s, Reading, c, round.answers - 2);
    CarryEnds(cfg, ReadNew(s), Looking(s.delivered), c, round.answers - 3);
  }

  /** Uncut rounds that claim nothing get to every entry in turn. */
  lemma {:induction false} ReadsReach(cfg: Config, r: Redis, rounds: seq<Round>)
    requires (r.group || r.delivered == 0) && r.delivered + |rounds| <= |r.stream|
    requires forall i :: 0 <= i < |rounds| ==> ReadsNew(rounds[i])
    ensures var n := AfterRounds(cfg, r, rounds);
            n.delivered == r.delivered + |rounds| && n.stream == r.stream && CutOffs(cfg, r, rounds) == 0
    decreases |rounds|
  {
    if rounds != [] {
      ReadAdvances(cfg, r, rounds[0]);
      ReadsReach(cfg, AfterRound(cfg, r, rounds[0]), rounds[1..]);
    }
  }

  /** Reading an entry with a live, readable status delivers it. */
  lemma ReadDelivers(cfg: Config, r: Redis, c: Choice, answers: nat)
    requires ValidConfig(cfg) && r.group && r.delivered < |r.stream| && c.claim.None? && answers >= ENOUGH
    requires HashOf(r, JobAt(r, r.delivered)).Some? && Readable(HashOf(r, JobAt(r, r.delivered)).value)
    ensures RoundFrom(cfg, r, c, answers).0 == Delivered(cfg, ReadNew(r), r.delivered, c)
    ensures RoundFrom(cfg, r, c, answers).1 == Ready
  {
    var id := r.delivered;
    CarryOn(cfg, r, Claiming, c, answers - 1);
    CarryOn(cfg, r, Reading, c, answers - 2);
    CarryOn(cfg, ReadNew(r), Looking(id), c, answers - 3);
    DeliveryConcludes(cfg, ReadNew(r), id, c, answers - 4);
  }

  /** The first attempt at the next entry, while its status is still what the script wrote. */
  lemma FirstAttempt(cfg: Config, r: Redis, round: Round)
    requires ValidConfig(cfg) && r.group && r.delivered < |r.stream| && ReadsNew(round)
    requires Untouched(cfg, r, r.delivered) && Nonblank(r.stream[r.delivered].request)
    requires r.now + round.wait < r.stream[r.delivered].at + cfg.statusTtlMs
    ensures var s := ReadNew(r.(now := r.now + round.wait));
            Attempted(cfg, s, r.delivered, round.choice, AfterRound(cfg, r, round)) && AfterRound(cfg, r, round).now == s.now
    ensures !IsCutOff(cfg, r, round)
  {
    var s := r.(now := r.now + round.wait);
    ReadDelivers(cfg, s, round.choice, round.answers);
    DeliveredIsAttempted(cfg, ReadNew(s), r.delivered, round.choice);
  }

  /** The first round of a worker creates the group where there is none. */
  lemma GroupIsCreated(cfg: Config, r: Redis, round: Round)
    requires round.answers >= 1
    ensures AfterRound(cfg, r, round) == AfterRound(cfg, CreateGroup(r), round)
    ensures IsCutOff(cfg, r, round) <==> IsCutOff(cfg, CreateGroup(r), round)
  {
    var later := r.now + round.wait;
    assert CreateGroup(r.(now := later)) == CreateGroup(CreateGroup(r).(now := later));
  }

  // ---------- the whole life of a job ----------

  /** The job's end after `used` attempts. */
  ghost predicate Ended(cfg: Config, n: Redis, id: nat, attempts: seq<Round>, used: nat) {
    && 1 <= used <= |attempts| && used <= cfg.maxAttempts
    && (forall i :: 0 <= i < used - 1 ==> !attempts[i].choice.succeeds)
    && id !in n.pending && id < n.delivered && JobAt(n, id) in n.hashes
    && var h := n.hashes[JobAt(n, id)];
       && h.attempts == used
       && (if attempts[used - 1].choice.succeeds then h.status == Some(Succeeded) && h.hasResult && Letters(n.dead, id) == 0
           else used == cfg.maxAttempts && h.status == Some(Failed) && Letters(n.dead, id) == 1)
  }

  /** The job has been tried once: it is over, or pending with the rest of its attempts. */
  ghost predicate TriedOnce(cfg: Config, n: Redis, id: nat, e: Entry, c: Choice) {
    && n.group && id < n.delivered && id < |n.stream| && n.stream[id] == e
    && e.job in n.hashes && n.hashes[e.job] == HashAfter(cfg, n, QueuedHash(cfg, e), c)
    && (id in n.pending <==> !c.succeeds && cfg.maxAttempts > 1)
    && Letters(n.dead, id) == if !c.succeeds && cfg.maxAttempts == 1 then 1 else 0
  }

  /** A worker that reads the next entry in time tries it once. */
  lemma FirstDelivery(cfg: Config, worlds: seq<World>, acts: seq<Act>, worker: nat, read: Round)
    returns (worlds': seq<World>, acts': seq<Act>)
    requires IsRun(cfg, worlds, acts) && PcOf(worlds[|acts|], worker).Ready? && ReadsNew(read)
    requires var r := worlds[|acts|].redis;
             && r.delivered < |r.stream| && Nonblank(r.stream[r.delivered].request)
             && r.now + read.wait < r.stream[r.delivered].at + cfg.statusTtlMs
    ensures IsRun(cfg, worlds', acts') && Continues(worlds, acts, worlds', acts', worker) && PcOf(worlds'[|acts'|], worker).Ready?
    ensures Losses(acts', worker, |acts|) == 0
    ensures var r := worlds[|acts|].redis; TriedOnce(cfg, worlds'[|acts'|].redis, r.delivered, r.stream[r.delivered], read.choice)
  {
    var r := worlds[|acts|].redis;
    var id := r.delivered;
    NoEntryIsLost(cfg, worlds, acts, |acts|);
    UndeliveredIsUntouched(cfg, worlds, acts, |acts|);
    assert Untouched(cfg, r, id);
    UnknownHasNoLetters(r.dead, id);
    GroupIsCreated(cfg, r, read);
    ReadAdvances(cfg, r, read);
    FirstAttempt(cfg, CreateGroup(r), read);
    worlds', acts' := RoundIsARun(cfg, worlds, acts, worker, read);
  }

  lemma TriedOnceEnded(cfg: Config, n: Redis, id: nat, e: Entry, read: Round, retries: seq<Round>)
    requires ValidConfig(cfg) && TriedOnce(cfg, n, id, e, read.choice) && (read.choice.succeeds || cfg.maxAttempts == 1)
    ensures Ended(cfg, n, id, [read] + retries, 1)
  {
    assert ([read] + retries)[0] == read;
  }

  lemma RetriesEnd(cfg: Config, worlds: seq<World>, acts: seq<Act>, worker: nat, id: nat, e: Entry, read: Round, retries: seq<Round>)
    returns (worlds': seq<World>, acts': seq<Act>, used: nat)
    requires IsRun(cfg, worlds, acts) && PcOf(worlds[|acts|], worker).Ready? && Nonblank(e.request)
    requires TriedOnce(cfg, worlds[|acts|].redis, id, e, read.choice) && !read.choice.succeeds && cfg.maxAttempts > 1
    requires |retries| >= cfg.maxAttempts - 1 && forall i :: 0 <= i < |retries| ==> Retries(cfg, retries[i], id)
    ensures IsRun(cfg, worlds', acts') && Continues(worlds, acts, worlds', acts', worker) && Losses(acts', worker, |acts|) == 0
    ensures Ended(cfg, worlds'[|acts'|].redis, id, [read] + retries, used)
  {
    var more;
    worlds', acts', more := PendingJobEnds(cfg, worlds, acts, worker, id, retries);
    used := more + 1;
    UndeliveredIsUntouched(cfg, worlds', acts', |acts'|);
    var n := worlds'[|acts'|].redis;
    assert n.delivered <= id ==> Untouched(cfg, n, id);
    LaterAttempts(read, retries, more);
  }

  lemma LaterAttempts(read: Round, retries: seq<Round>, more: nat)
    requires 1 <= more <= |retries| && !read.choice.succeeds && forall i :: 0 <= i < more - 1 ==> !retries[i].choice.succeeds
    ensures var attempts := [read] + retries;
            attempts[more] == retries[more - 1] && forall i :: 0 <= i < more ==> !attempts[i].choice.succeeds
  {
    var attempts := [read] + retries;
    forall i | 0 <= i < more ensures !attempts[i].choice.succeeds {
      if i > 0 {
        assert attempts[i] == retries[i - 1];
      }
    }
  }

  /**
   From any state of any run: a worker that keeps running gets, after whatever rounds, cut off or
   not, to an entry that was not yet delivered, reads it before its status expires, and claims it
   again each time when it is stale. Then the job ends, after at most the configured number of
   attempts: SUCCEEDED with its result and no dead letter, or FAILED with exactly one.
   */
  lemma AdmittedJobEnds(cfg: Config, worlds: seq<World>, acts: seq<Act>, worker: nat, id: nat, before: seq<Round>, read: Round, retries: seq<Round>)
    returns (worlds': seq<World>, acts': seq<Act>, used: nat)
    requires IsRun(cfg, worlds, acts) && PcOf(worlds[|acts|], worker).Ready?
    requires var r := AfterRounds(cfg, worlds[|acts|].redis, before);
             && r.delivered == id < |r.stream| && Nonblank(r.stream[id].request)
             && r.now + read.wait < r.stream[id].at + cfg.statusTtlMs
    requires ReadsNew(read) && |retries| >= cfg.maxAttempts - 1
    requires forall i :: 0 <= i < |retries| ==> Retries(cfg, retries[i], id)
    ensures IsRun(cfg, worlds', acts') && Continues(worlds, acts, worlds', acts', worker)
    ensures Losses(acts', worker, |acts|) == CutOffs(cfg, worlds[|acts|].redis, before)
    ensures Ended(cfg, worlds'[|acts'|].redis, id, [read] + retries, used)
  {
    var w1, a1 := RoundsAreARun(cfg, worlds, acts, worker, before);
    var e := w1[|a1|].redis.stream[id];
    var w2, a2 := FirstDelivery(cfg, w1, a1, worker, read);
    ContinuesOn(worlds, acts, w1, a1, w2, a2, worker);
    if read.choice.succeeds || cfg.maxAttempts == 1 {
      worlds', acts', used := w2, a2, 1;
      TriedOnceEnded(cfg, w2[|a2|].redis, id, e, read, retries);
    } else {
      worlds', acts', used := RetriesEnd(cfg, w2, a2, worker, id, e, read, retries);
      ContinuesOn(worlds, acts, w2, a2, worlds', acts', worker);
    }
  }
}
