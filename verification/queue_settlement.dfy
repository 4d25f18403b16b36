/**
 One consumer loop (the default worker concurrency): how often a job is started, how it
 ends, and that it stays ended. All that is assumed of a run is that only loop 0 works:
 statuses may expire at any moment, in the middle of a delivery too.

 A status that expired and is written again has lost its request for good, so it can never
 be read again. Where it still has it, its attempt count says how often the job was tried.
 */
module QueueSettlement {
  import opened Wrappers
  import opened JobCodec
  import opened RedisServer
  import opened QueueRuns

  predicate ByLoopZero(a: Act) {
    (a.Work? ==> a.worker == 0) && (a.Lose? ==> a.worker == 0)
  }

  function HashAt(w: World, id: nat): StatusHash {
    if JobAt(w.redis, id) in w.redis.hashes then w.redis.hashes[JobAt(w.redis, id)] else BlankHash
  }

  /** The job was tried `attempts` times by a status that kept its request. */
  predicate Counted(cfg: Config, h: History, s: StatusHash, most: int) {
    && h.starts <= cfg.maxAttempts + h.lost
    && (s.request.Some? ==> h.starts <= s.attempts <= most)
  }

  /** An entry no loop holds: between attempts, one attempt short of the maximum plus the losses. */
  predicate Resting(cfg: Config, h: History, s: StatusHash, letters: nat) {
    && Counted(cfg, h, s, cfg.maxAttempts - 1 + h.lost)
    && (h.lost == 0 ==> letters == 0 && s.status != Some(Failed))
  }

  predicate Attempting(cfg: Config, h: History, s: StatusHash, letters: nat) {
    Counted(cfg, h, s, cfg.maxAttempts + h.lost) && (h.lost == 0 ==> letters == 0)
  }

  /** About to be started: the start that comes is not counted yet. */
  predicate Starting(cfg: Config, h: History, s: StatusHash, letters: nat, n: int) {
    && Attempting(cfg, h, s, letters) && h.starts < cfg.maxAttempts + h.lost
    && (s.request.Some? ==> s.attempts == n && h.starts < n)
  }

  /**
   An acknowledged entry: its status was found missing, or it is final; and without losses
   the dead letters match it.
   */
  predicate Settled(cfg: Config, h: History, s: StatusHash, letters: nat) {
    && Counted(cfg, h, s, cfg.maxAttempts + h.lost)
    && (h.missing || (s.status == Some(Succeeded) && s.hasResult) || (s.status == Some(Failed) && letters >= 1))
    && (h.lost == 0 ==> letters == if s.status == Some(Failed) then 1 else 0)
  }

  /** The entry the loop holds, by the command it is about to send. */
  predicate Working(cfg: Config, pc: Pc, h: History, s: StatusHash, letters: nat) {
    match pc
    case Looking(_) => Resting(cfg, h, s, letters)
    case AckingMissing(_) => Resting(cfg, h, s, letters) && h.missing
    case Incrementing(_) => Resting(cfg, h, s, letters) && h.starts < cfg.maxAttempts + h.lost
    case MarkingRunning(_, n) => Starting(cfg, h, s, letters, n)
    case ExpiringRunning(_, n) => Starting(cfg, h, s, letters, n)
    case Executing(_, n) => Attempting(cfg, h, s, letters) && (s.request.Some? ==> s.attempts == n)
    case SettingSucceeded(_) => Attempting(cfg, h, s, letters)
    case ExpiringSucceeded(_) => Attempting(cfg, h, s, letters) && s.status == Some(Succeeded) && s.hasResult
    case AckingSucceeded(_) => Attempting(cfg, h, s, letters) && s.status == Some(Succeeded) && s.hasResult
    case SettingFailed(_, n) => Attempting(cfg, h, s, letters) && (s.request.Some? ==> s.attempts == n)
    case ExpiringFailed(_, n) =>
      && Attempting(cfg, h, s, letters) && (s.request.Some? ==> s.attempts == n)
      && s.status == Some(if n >= cfg.maxAttempts then Failed else Retrying)
    case AddingLetter(_, n) => Attempting(cfg, h, s, letters) && s.status == Some(Failed)
    case AckingFailed(_) =>
      Counted(cfg, h, s, cfg.maxAttempts + h.lost) && s.status == Some(Failed) && letters >= 1 && (h.lost == 0 ==> letters == 1)
    case _ => true
  }

  predicate EntryOk(cfg: Config, w: World, id: nat)
    requires id < |w.history|
  {
    var h, s, letters := w.history[id], HashAt(w, id), Letters(w.redis.dead, id);
    var pc := PcOf(w, 0);
    && JobAt(w.redis, id) in w.redis.hashes
    && (if h.acked then Settled(cfg, h, s, letters)
        else if HoldsEntry(pc) && pc.id == id then Working(cfg, pc, h, s, letters)
        else Resting(cfg, h, s, letters))
    && (HoldsEntry(pc) && pc.id == id ==> !h.acked)
  }

  ghost predicate LettersKnown(w: World) {
    forall i :: 0 <= i < |w.redis.dead| ==> w.redis.dead[i].source < |w.history|
  }

  ghost predicate JobsDistinct(r: Redis) {
    forall i: nat, j: nat :: i < j < |r.stream| ==> r.stream[i].job != r.stream[j].job
  }

  ghost predicate OneLoop(cfg: Config, w: World) {
    && NothingLost(cfg, w)
    && JobsDistinct(w.redis)
    && LettersKnown(w)
    && (forall id: nat :: id < |w.history| ==> EntryOk(cfg, w, id))
    && (HoldsEntry(PcOf(w, 0)) ==> PcOf(w, 0).id < |w.history|)
  }

  // ---------- one step ----------

  /** A command on the held entry's job leaves every other job's hash alone. */
  lemma WorkFramesOthers(cfg: Config, w: World, c: Choice, id: nat)
    requires OneLoop(cfg, w) && id < |w.history|
    requires !(HoldsEntry(PcOf(w, 0)) && PcOf(w, 0).id == id)
    ensures var n := Next(cfg, w, Work(0, c));
            && n.history[id] == w.history[id]
            && (JobAt(w.redis, id) in n.redis.hashes <==> JobAt(w.redis, id) in w.redis.hashes)
            && HashAt(n, id) == HashAt(w, id)
            && Letters(n.redis.dead, id) == Letters(w.redis.dead, id)
  {
    var pc := PcOf(w, 0);
    if HoldsEntry(pc) {
      assert JobAt(w.redis, pc.id) != JobAt(w.redis, id) by {
        if pc.id < id {
          assert w.redis.stream[pc.id].job != w.redis.stream[id].job;
        } else {
          assert w.redis.stream[id].job != w.redis.stream[pc.id].job;
        }
      }
    }
    if pc.AddingLetter? {
      LettersAfter(w.redis.dead, LetterFor(w.redis, pc.id, pc.attempt, c.summary), id);
    }
  }

  lemma WorkKeepsOtherEntry(cfg: Config, w: World, c: Choice, id: nat)
    requires ValidConfig(cfg) && OneLoop(cfg, w) && id < |w.history|
    requires !(HoldsEntry(PcOf(w, 0)) && PcOf(w, 0).id == id)
    ensures EntryOk(cfg, Next(cfg, w, Work(0, c)), id)
  {
    assert EntryOk(cfg, w, id) && Placed(w, id);
    WorkFramesOthers(cfg, w, c, id);
  }

  lemma HeldIsReceived(cfg: Config, w: World, c: Choice)
    requires ValidConfig(cfg) && OneLoop(cfg, w) && HoldsEntry(PcOf(w, 0))
    requires var pc := PcOf(w, 0); pc.Looking? || pc.AckingMissing? || pc.Incrementing?
    ensures EntryOk(cfg, Next(cfg, w, Work(0, c)), PcOf(w, 0).id)
  {
    var pc := PcOf(w, 0);
    assert EntryOk(cfg, w, pc.id) && Placed(w, pc.id);
  }

  lemma HeldIsStarted(cfg: Config, w: World, c: Choice)
    requires ValidConfig(cfg) && OneLoop(cfg, w) && HoldsEntry(PcOf(w, 0))
    requires var pc := PcOf(w, 0); pc.MarkingRunning? || pc.ExpiringRunning? || pc.Executing?
    ensures EntryOk(cfg, Next(cfg, w, Work(0, c)), PcOf(w, 0).id)
  {
    var pc := PcOf(w, 0);
    assert EntryOk(cfg, w, pc.id) && Placed(w, pc.id);
  }

  lemma HeldSucceeds(cfg: Config, w: World, c: Choice)
    requires ValidConfig(cfg) && OneLoop(cfg, w) && HoldsEntry(PcOf(w, 0))
    requires var pc := PcOf(w, 0); pc.SettingSucceeded? || pc.ExpiringSucceeded? || pc.AckingSucceeded?
    ensures EntryOk(cfg, Next(cfg, w, Work(0, c)), PcOf(w, 0).id)
  {
    var pc := PcOf(w, 0);
    assert EntryOk(cfg, w, pc.id) && Placed(w, pc.id);
  }

  lemma HeldFails(cfg: Config, w: World, c: Choice)
    requires ValidConfig(cfg) && OneLoop(cfg, w) && HoldsEntry(PcOf(w, 0))
    requires var pc := PcOf(w, 0); pc.SettingFailed? || pc.ExpiringFailed?
    ensures EntryOk(cfg, Next(cfg, w, Work(0, c)), PcOf(w, 0).id)
  {
    var pc := PcOf(w, 0);
    assert EntryOk(cfg, w, pc.id) && Placed(w, pc.id);
  }

  lemma HeldIsBuried(cfg: Config, w: World, c: Choice)
    requires ValidConfig(cfg) && OneLoop(cfg, w) && HoldsEntry(PcOf(w, 0))
    requires var pc := PcOf(w, 0); pc.AddingLetter? || pc.AckingFailed?
    ensures EntryOk(cfg, Next(cfg, w, Work(0, c)), PcOf(w, 0).id)
  {
    var pc := PcOf(w, 0);
    assert EntryOk(cfg, w, pc.id) && Placed(w, pc.id);
    if pc.AddingLetter? {
      LettersAfter(w.redis.dead, LetterFor(w.redis, pc.id, pc.attempt, c.summary), pc.id);
    }
  }

  /** The heart of the protocol: one command on the held entry keeps what its place promises. */
  lemma WorkKeepsHeldEntry(cfg: Config, w: World, c: Choice)
    requires ValidConfig(cfg) && OneLoop(cfg, w) && HoldsEntry(PcOf(w, 0))
    ensures EntryOk(cfg, Next(cfg, w, Work(0, c)), PcOf(w, 0).id)
  {
    var pc := PcOf(w, 0);
    if pc.Looking? || pc.AckingMissing? || pc.Incrementing? {
      HeldIsReceived(cfg, w, c);
    } else if pc.MarkingRunning? || pc.ExpiringRunning? || pc.Executing? {
      HeldIsStarted(cfg, w, c);
    } else if pc.SettingSucceeded? || pc.ExpiringSucceeded? || pc.AckingSucceeded? {
      HeldSucceeds(cfg, w, c);
    } else if pc.SettingFailed? || pc.ExpiringFailed? {
      HeldFails(cfg, w, c);
    } else {
      HeldIsBuried(cfg, w, c);
    }
  }

  lemma WorkStaysOneLoop(cfg: Config, w: World, c: Choice)
    requires ValidConfig(cfg) && OneLoop(cfg, w)
    ensures OneLoop(cfg, Next(cfg, w, Work(0, c)))
  {
    var n := Next(cfg, w, Work(0, c));
    StepLosesNothing(cfg, w, Work(0, c));
    assert WorkerJustified(cfg, n, 0);
    forall id: nat | id < |n.history| ensures EntryOk(cfg, n, id) {
      if HoldsEntry(PcOf(w, 0)) && PcOf(w, 0).id == id {
        WorkKeepsHeldEntry(cfg, w, c);
      } else {
        WorkKeepsOtherEntry(cfg, w, c, id);
      }
    }
  }

  lemma {:induction false} UnknownHasNoLetters(dead: seq<DeadLetter>, id: nat)
    requires forall i :: 0 <= i < |dead| ==> dead[i].source < id
    ensures Letters(dead, id) == 0
  {
    if dead != [] {
      UnknownHasNoLetters(dead[..|dead| - 1], id);
    }
  }

  lemma AddKeepsEntry(cfg: Config, w: World, job: nat, req: Request, root: nat, id: nat)
    requires ValidConfig(cfg) && OneLoop(cfg, w) && FreshJob(w.redis, job)
    requires id < |Add(cfg, w, job, req, root).history|
    ensures EntryOk(cfg, Add(cfg, w, job, req, root), id)
  {
    if id < |w.history| {
      assert EntryOk(cfg, w, id);
      assert w.redis.stream[id].job != job;
    } else {
      UnknownHasNoLetters(w.redis.dead, id);
      assert WorkerJustified(cfg, w, 0);
    }
  }

  lemma AddStaysOneLoop(cfg: Config, w: World, job: nat, req: Request, root: nat)
    requires ValidConfig(cfg) && OneLoop(cfg, w) && FreshJob(w.redis, job)
    ensures OneLoop(cfg, Add(cfg, w, job, req, root))
  {
    var n := Add(cfg, w, job, req, root);
    AddLosesNothing(cfg, w, job, req, root);
    forall id: nat | id < |n.history| ensures EntryOk(cfg, n, id) {
      AddKeepsEntry(cfg, w, job, req, root, id);
    }
  }

  /** Losing its place leaves the entry between attempts, with one more loss on its account. */
  lemma LoseStaysOneLoop(cfg: Config, w: World)
    requires ValidConfig(cfg) && OneLoop(cfg, w)
    ensures OneLoop(cfg, Next(cfg, w, Lose(0)))
  {
    StepLosesNothing(cfg, w, Lose(0));
    var n := Next(cfg, w, Lose(0));
    forall id: nat | id < |n.history| ensures EntryOk(cfg, n, id) {
      assert EntryOk(cfg, w, id);
    }
  }

  lemma StepStaysOneLoop(cfg: Config, w: World, a: Act)
    requires ValidConfig(cfg) && OneLoop(cfg, w) && Enabled(w, a) && ByLoopZero(a)
    ensures OneLoop(cfg, Next(cfg, w, a))
  {
    match a
    case Submit(job, req) => AddStaysOneLoop(cfg, w, job, req, |w.redis.stream|);
    case Replay(d, job) => AddStaysOneLoop(cfg, w, job, Replayable(w.redis, d).value, SourceOf(w, d));
    case Tick(now) =>
      StepLosesNothing(cfg, w, a);
      var n := Next(cfg, w, a);
      forall id: nat | id < |n.history| ensures EntryOk(cfg, n, id) {
        assert EntryOk(cfg, w, id);
      }
    case Work(worker, c) => WorkStaysOneLoop(cfg, w, c);
    case Lose(worker) => LoseStaysOneLoop(cfg, w);
  }

  ghost predicate IsOneLoopRun(cfg: Config, worlds: seq<World>, acts: seq<Act>) {
    && IsRun(cfg, worlds, acts)
    && (forall i :: 0 <= i < |acts| ==> ByLoopZero(acts[i]))
  }

  lemma {:induction false} RunStaysOneLoop(cfg: Config, worlds: seq<World>, acts: seq<Act>, k: nat)
    requires IsOneLoopRun(cfg, worlds, acts) && k < |worlds|
    ensures OneLoop(cfg, worlds[k])
  {
    if k > 0 {
      RunStaysOneLoop(cfg, worlds, acts, k - 1);
      assert ByLoopZero(acts[k - 1]);
      StepStaysOneLoop(cfg, worlds[k - 1], acts[k - 1]);
    }
  }

  // ---------- what a run with one loop guarantees ----------

  /** A job is started at most the configured number of times plus once for every loss that hit it. */
  lemma StartsAreBounded(cfg: Config, worlds: seq<World>, acts: seq<Act>, k: nat, id: nat)
    requires IsOneLoopRun(cfg, worlds, acts) && k < |worlds| && id < |worlds[k].history|
    ensures worlds[k].history[id].starts <= cfg.maxAttempts + worlds[k].history[id].lost
  {
    RunStaysOneLoop(cfg, worlds, acts, k);
    assert EntryOk(cfg, worlds[k], id);
  }

  /**
   An acknowledged job ended SUCCEEDED with its result, or FAILED with a dead letter, or its
   status was found missing. When nothing was lost it has exactly one dead letter if it
   FAILED, and none otherwise.
   */
  lemma AcknowledgedIsSettled(cfg: Config, worlds: seq<World>, acts: seq<Act>, k: nat, id: nat)
    requires IsOneLoopRun(cfg, worlds, acts) && k < |worlds| && id < |worlds[k].history|
    requires worlds[k].history[id].acked
    ensures Settled(cfg, worlds[k].history[id], HashAt(worlds[k], id), Letters(worlds[k].redis.dead, id))
  {
    RunStaysOneLoop(cfg, worlds, acts, k);
    assert EntryOk(cfg, worlds[k], id);
  }

  lemma AddFramesOthers(cfg: Config, w: World, job: nat, req: Request, root: nat, id: nat)
    requires NothingLost(cfg, w) && FreshJob(w.redis, job) && id < |w.history|
    ensures var n := Add(cfg, w, job, req, root);
            && id < |n.history| && n.history[id] == w.history[id] && JobAt(n.redis, id) == JobAt(w.redis, id)
            && HashAt(n, id) == HashAt(w, id) && n.redis.dead == w.redis.dead
  {
    assert w.redis.stream[id].job != job;
  }

  lemma StepFreezesSettled(cfg: Config, w: World, a: Act, id: nat)
    requires ValidConfig(cfg) && OneLoop(cfg, w) && Enabled(w, a) && ByLoopZero(a)
    requires id < |w.history| && w.history[id].acked
    ensures var n := Next(cfg, w, a);
            && id < |n.history| && n.history[id].acked && JobAt(n.redis, id) == JobAt(w.redis, id)
            && HashAt(n, id) == HashAt(w, id) && Letters(n.redis.dead, id) == Letters(w.redis.dead, id)
  {
    assert EntryOk(cfg, w, id);
    match a
    case Work(_, c) => WorkFramesOthers(cfg, w, c, id);
    case Submit(job, req) => AddFramesOthers(cfg, w, job, req, |w.redis.stream|, id);
    case Replay(d, job) => AddFramesOthers(cfg, w, job, Replayable(w.redis, d).value, SourceOf(w, d), id);
    case _ =>
  }

  /** Once acknowledged, a job's status hash and its dead letters never change again. */
  lemma {:induction false} SettledStaysSettled(cfg: Config, worlds: seq<World>, acts: seq<Act>, i: nat, j: nat, id: nat)
    requires IsOneLoopRun(cfg, worlds, acts) && i <= j < |worlds| && id < |worlds[i].history|
    requires worlds[i].history[id].acked
    ensures id < |worlds[j].history| && worlds[j].history[id].acked
    ensures HashAt(worlds[j], id) == HashAt(worlds[i], id)
    ensures Letters(worlds[j].redis.dead, id) == Letters(worlds[i].redis.dead, id)
  {
    if i < j {
      SettledStaysSettled(cfg, worlds, acts, i, j - 1, id);
      RunStaysOneLoop(cfg, worlds, acts, j - 1);
      assert ByLoopZero(acts[j - 1]);
      StepFreezesSettled(cfg, worlds[j - 1], acts[j - 1], id);
    }
  }
}
