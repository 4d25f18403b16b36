/** What a dead letter says, over whole runs: which job failed, at which attempt, when and why. */
module QueueLetters {
  import opened Wrappers
  import opened JobCodec
  import opened RedisServer
  import opened QueueRuns
  import opened QueueSubmission

  /** The first 1000 characters of an error text. */
  predicate Summarizes(summary: string, text: string) {
    summary <= text && |summary| == if |text| <= 1000 then |text| else 1000
  }

  /** The letter's source is an entry of this job and kind, admitted no later than the failure. */
  predicate NamesEntry(r: Redis, d: DeadLetter) {
    d.source < |r.stream| && d.job == r.stream[d.source].job && d.kind == r.stream[d.source].request.kind && r.stream[d.source].at <= d.failedAt
  }

  // ---------- the attempt a worker is at ----------

  /** The attempt a worker works on, from the increment to the end. */
  function AttemptOf(pc: Pc): Option<int> {
    match pc
    case MarkingRunning(_, n) => Some(n)
    case ExpiringRunning(_, n) => Some(n)
    case Executing(_, n) => Some(n)
    case SettingFailed(_, n) => Some(n)
    case ExpiringFailed(_, n) => Some(n)
    case AddingLetter(_, n) => Some(n)
    case _ => None
  }

  /** The step is the HINCRBY of this worker on this entry, and leaves this count. */
  predicate Counts(w: World, a: Act, n: World, worker: nat, id: nat, attempt: int) {
    && a.Work? && a.worker == worker && PcOf(w, worker) == Incrementing(id)
    && JobAt(n.redis, id) in n.redis.hashes && n.redis.hashes[JobAt(n.redis, id)].attempts == attempt
  }

  /** An attempt number is the count some HINCRBY of the same worker on the same entry left. */
  lemma {:induction false} AttemptIsCounted(cfg: Config, worlds: seq<World>, acts: seq<Act>, k: nat, worker: nat) returns (i: nat)
    requires IsRun(cfg, worlds, acts) && k < |worlds| && AttemptOf(PcOf(worlds[k], worker)).Some?
    ensures i < k && Counts(worlds[i], acts[i], worlds[i + 1], worker, PcOf(worlds[k], worker).id, AttemptOf(PcOf(worlds[k], worker)).value)
  {
    var w, a := worlds[k - 1], acts[k - 1];
    if a.Work? && a.worker == worker && PcOf(w, worker).Incrementing? {
      i := k - 1;
      CommandFrames(cfg, w.redis, PcOf(w, worker), a.choice);
    } else {
      AttemptGoesOn(cfg, w, a, worker);
      i := AttemptIsCounted(cfg, worlds, acts, k - 1, worker);
    }
  }

  /** Between its increment and its end a worker keeps its entry and its attempt. */
  lemma AttemptGoesOn(cfg: Config, w: World, a: Act, worker: nat)
    requires Enabled(w, a) && AttemptOf(PcOf(Next(cfg, w, a), worker)).Some?
    requires !(a.Work? && a.worker == worker && PcOf(w, worker).Incrementing?)
    ensures var pc, next := PcOf(w, worker), PcOf(Next(cfg, w, a), worker);
            AttemptOf(pc) == AttemptOf(next) && HoldsEntry(pc) && HoldsEntry(next) && pc.id == next.id
  {
  }

  /** A letter is only written at an attempt that is at least the maximum. */
  lemma {:induction false} LettersAreLast(cfg: Config, worlds: seq<World>, acts: seq<Act>, k: nat, worker: nat)
    requires IsRun(cfg, worlds, acts) && k < |worlds| && PcOf(worlds[k], worker).AddingLetter?
    ensures PcOf(worlds[k], worker).attempt >= cfg.maxAttempts
  {
    NoEntryIsLost(cfg, worlds, acts, k);
    assert WorkerJustified(cfg, worlds[k], worker);
  }

  // ---------- letters ----------

  /** One letter about this attempt at the entry is appended. */
  ghost predicate AddsLetter(r: Redis, n: Redis, id: nat, attempt: int, text: string) {
    && |n.dead| == |r.dead| + 1 && n.dead[..|r.dead|] == r.dead
    && var d := n.dead[|r.dead|];
       && d.source == id && (id < |r.stream| ==> d.job == r.stream[id].job && d.kind == r.stream[id].request.kind)
       && d.attempts == attempt && d.failedAt == r.now && Summarizes(d.summary, text)
  }

  lemma LetterIsWritten(cfg: Config, w: World, worker: nat, c: Choice)
    requires PcOf(w, worker).AddingLetter?
    ensures AddsLetter(w.redis, Next(cfg, w, Work(worker, c)).redis, PcOf(w, worker).id, PcOf(w, worker).attempt, c.summary)
  {
  }

  lemma OthersWriteNoLetter(cfg: Config, w: World, a: Act)
    requires Enabled(w, a) && !(a.Work? && PcOf(w, a.worker).AddingLetter?)
    ensures Next(cfg, w, a).redis.dead == w.redis.dead
  {
    match a
    case Submit(job, req) => AddWritesNoLetter(cfg, w, job, req, |w.redis.stream|);
    case Replay(d, job) => AddWritesNoLetter(cfg, w, job, Replayable(w.redis, d).value, SourceOf(w, d));
    case Work(worker, c) => CommandWritesNoLetter(cfg, w.redis, PcOf(w, worker), c);
    case _ =>
  }

  lemma AddWritesNoLetter(cfg: Config, w: World, job: nat, req: Request, root: nat)
    ensures Add(cfg, w, job, req, root).redis.dead == w.redis.dead
  {
  }

  lemma CommandWritesNoLetter(cfg: Config, r: Redis, pc: Pc, c: Choice)
    requires !pc.AddingLetter?
    ensures Command(cfg, r, pc, c).dead == r.dead
  {
  }

  /** The letter was written at this step, by a worker that counted the attempt at step `from`. */
  ghost predicate WrittenAt(cfg: Config, worlds: seq<World>, acts: seq<Act>, d: DeadLetter, from: nat, i: nat)
    requires IsRun(cfg, worlds, acts)
  {
    && from < i < |acts| && acts[i].Work? && PcOf(worlds[i], acts[i].worker) == AddingLetter(d.source, d.attempts)
    && d.failedAt == worlds[i].redis.now && Summarizes(d.summary, acts[i].choice.summary)
    && Counts(worlds[from], acts[from], worlds[from + 1], acts[i].worker, d.source, d.attempts)
  }

  lemma NewLetter(cfg: Config, worlds: seq<World>, acts: seq<Act>, k: nat) returns (from: nat)
    requires IsRun(cfg, worlds, acts) && k < |acts| && acts[k].Work? && PcOf(worlds[k], acts[k].worker).AddingLetter?
    ensures var r, n := worlds[k].redis, worlds[k + 1].redis;
            && |n.dead| == |r.dead| + 1 && NamesEntry(r, n.dead[|r.dead|])
            && n.dead[|r.dead|].attempts >= cfg.maxAttempts && WrittenAt(cfg, worlds, acts, n.dead[|r.dead|], from, k)
  {
    var w, a := worlds[k], acts[k];
    NoEntryIsLost(cfg, worlds, acts, k);
    assert WorkerJustified(cfg, w, a.worker);
    LetterIsWritten(cfg, w, a.worker, a.choice);
    LettersAreLast(cfg, worlds, acts, k, a.worker);
    RunKeepsKeys(cfg, worlds, acts, k);
    assert KeyHeld(cfg, w.redis, PcOf(w, a.worker).id);
    from := AttemptIsCounted(cfg, worlds, acts, k, a.worker);
  }

  /**
   In every run each dead letter was written by some worker at step `i` after it counted the
   attempt at step `from`: it names its source entry's job and kind, that attempt, which is at
   least the maximum, the time of the step, not before the entry was admitted, and the first
   1000 characters of the error.
   */
  lemma {:induction false} LettersAreExact(cfg: Config, worlds: seq<World>, acts: seq<Act>, k: nat, j: nat) returns (i: nat, from: nat)
    requires IsRun(cfg, worlds, acts) && k < |worlds| && j < |worlds[k].redis.dead|
    ensures i < k && WrittenAt(cfg, worlds, acts, worlds[k].redis.dead[j], from, i)
    ensures NamesEntry(worlds[k].redis, worlds[k].redis.dead[j])
    ensures worlds[k].redis.dead[j].attempts >= cfg.maxAttempts >= 1
  {
    var w, a := worlds[k - 1], acts[k - 1];
    assert Enabled(w, a) && worlds[k] == Next(cfg, w, a);
    StreamGrows(cfg, w, a);
    if a.Work? && PcOf(w, a.worker).AddingLetter? && j == |w.redis.dead| {
      i := k - 1;
      from := NewLetter(cfg, worlds, acts, i);
    } else {
      NoEntryIsLost(cfg, worlds, acts, k - 1);
      LetterStays(cfg, w, a, j);
      i, from := LettersAreExact(cfg, worlds, acts, k - 1, j);
    }
  }

  lemma LetterStays(cfg: Config, w: World, a: Act, j: nat)
    requires Enabled(w, a) && NothingLost(cfg, w) && j < |Next(cfg, w, a).redis.dead|
    requires !(a.Work? && PcOf(w, a.worker).AddingLetter? && j == |w.redis.dead|)
    ensures j < |w.redis.dead| && Next(cfg, w, a).redis.dead[j] == w.redis.dead[j]
  {
    if a.Work? && PcOf(w, a.worker).AddingLetter? {
      assert WorkerJustified(cfg, w, a.worker);
      LetterIsWritten(cfg, w, a.worker, a.choice);
      assert Next(cfg, w, a).redis.dead[..|w.redis.dead|][j] == w.redis.dead[j];
    } else {
      OthersWriteNoLetter(cfg, w, a);
    }
  }

  lemma StreamGrows(cfg: Config, w: World, a: Act)
    requires Enabled(w, a)
    ensures w.redis.stream <= Next(cfg, w, a).redis.stream
  {
    if a.Work? {
      CommandFrames(cfg, w.redis, PcOf(w, a.worker), a.choice);
    }
  }
}
