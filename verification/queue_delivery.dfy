/**
 What one worker loop does between two suspensions of anybody else: a round receives at most
 one entry and processes it, on a connection that answers some number of commands and then
 fails. Cut off, it stops before the command that got no answer.
 */
module QueueDelivery {
  import opened Wrappers
  import opened JobCodec
  import opened RedisServer
  import opened QueueRuns

  /** How far into a round the worker is; `Ready` is its end. */
  function Phase(pc: Pc): (phase: nat)
    ensures phase <= 13 && (phase == 13 <==> pc.Ready?)
  {
    match pc
    case Claiming => 1
    case Reading => 2
    case Looking(_) => 3
    case AckingMissing(_) => 4
    case Incrementing(_) => 5
    case MarkingRunning(_, _) => 6
    case ExpiringRunning(_, _) => 7
    case Executing(_, _) => 8
    case SettingSucceeded(_) => 9
    case ExpiringSucceeded(_) => 10
    case AckingSucceeded(_) => 11
    case SettingFailed(_, _) => 9
    case ExpiringFailed(_, _) => 10
    case AddingLetter(_, _) => 11
    case AckingFailed(_) => 12
    case Ready => 13
  }

  /** The rest of a round: Redis, the worker's place and the answers left when it ends or is cut off. */
  function Carry(cfg: Config, r: Redis, pc: Pc, c: Choice, answers: nat): (Redis, Pc, nat)
    decreases 13 - Phase(pc)
  {
    if pc.Ready? then (r, pc, answers)
    else if pc.Executing? then Carry(cfg, r, Goto(cfg, r, pc, c), c, answers)
    else if answers == 0 then (r, pc, 0)
    else Carry(cfg, Command(cfg, r, pc, c), Goto(cfg, r, pc, c), c, answers - 1)
  }

  /** A whole round, from the creation of the group on. */
  function RoundFrom(cfg: Config, r: Redis, c: Choice, answers: nat): (Redis, Pc, nat) {
    if answers == 0 then (r, Ready, 0) else Carry(cfg, CreateGroup(r), Claiming, c, answers - 1)
  }

  /** Whether the worker cannot go on without an answer. */
  predicate NeedsAnswer(pc: Pc) {
    !pc.Ready? && !pc.Executing?
  }

  lemma CarryOn(cfg: Config, r: Redis, pc: Pc, c: Choice, answers: nat)
    requires NeedsAnswer(pc) && answers > 0
    ensures Carry(cfg, r, pc, c, answers) == Carry(cfg, Command(cfg, r, pc, c), Goto(cfg, r, pc, c), c, answers - 1)
  {
  }

  function Put(r: Redis, job: nat, h: StatusHash): Redis {
    r.(hashes := r.hashes[job := h])
  }

  lemma PutAgain(r: Redis, job: nat, h: StatusHash, h': StatusHash)
    ensures Put(Put(r, job, h), job, h') == Put(r, job, h')
  {
    assert r.hashes[job := h][job := h'] == r.hashes[job := h'];
  }

  // ---------- one delivery ----------

  /** The commands of one delivery, from HINCRBY to XACK or to the status write of a retry. */
  function DeliveryCommands(cfg: Config, attempt: int, c: Choice): nat {
    3 + EndingCommands(cfg, attempt, c)
  }

  function EndingCommands(cfg: Config, attempt: int, c: Choice): nat {
    if c.succeeds then 3 else if attempt >= cfg.maxAttempts then 4 else 2
  }

  /** The status hash the delivery leaves. */
  function HashAfter(cfg: Config, r: Redis, h: StatusHash, c: Choice): StatusHash {
    var attempt := h.attempts + 1;
    var terminal := attempt >= cfg.maxAttempts;
    StatusHash(
      h.request,
      Some(if c.succeeds then Succeeded else if terminal then Failed else Retrying),
      attempt,
      h.hasResult || c.succeeds,
      Marks(Some(r.now), if c.succeeds || terminal then Some(r.now) else None, if c.succeeds then "" else Bounded(c.summary)),
      Some(r.now + cfg.statusTtlMs))
  }

  /** What one whole delivery does to Redis. */
  function Delivered(cfg: Config, r: Redis, id: nat, c: Choice): Redis
    requires HashOf(r, JobAt(r, id)).Some?
  {
    var job := JobAt(r, id);
    var attempt := r.hashes[job].attempts + 1;
    var marked := Put(r, job, HashAfter(cfg, r, r.hashes[job], c));
    if c.succeeds then XAck(marked, id)
    else if attempt >= cfg.maxAttempts then XAck(XAddDead(marked, LetterFor(r, id, attempt, c.summary)), id)
    else marked
  }

  /** What a start writes: the time of it, and nothing of an earlier attempt. */
  function Started(r: Redis): Marks {
    Marks(Some(r.now), None, "")
  }

  lemma CarryMark(cfg: Config, r: Redis, id: nat, n: int, c: Choice, job: nat, h: StatusHash, answers: nat)
    requires job == JobAt(r, id) && HashOf(r, job) == Some(h) && answers >= 1
    ensures Carry(cfg, r, MarkingRunning(id, n), c, answers) ==
            Carry(cfg, Put(r, job, h.(status := Some(Running), marks := Started(r))), ExpiringRunning(id, n), c, answers - 1)
  {
    CarryOn(cfg, r, MarkingRunning(id, n), c, answers);
  }

  lemma CarryRenew(cfg: Config, r: Redis, id: nat, n: int, c: Choice, job: nat, h: StatusHash, answers: nat)
    requires job == JobAt(r, id) && HashOf(r, job) == Some(h) && answers >= 1
    ensures Carry(cfg, r, ExpiringRunning(id, n), c, answers) ==
            Carry(cfg, Put(r, job, h.(expiresAt := Some(r.now + cfg.statusTtlMs))), Executing(id, n), c, answers - 1)
  {
    CarryOn(cfg, r, ExpiringRunning(id, n), c, answers);
  }

  /** The commands up to the start of the job: one more attempt, RUNNING, a fresh time to live. */
  lemma StartPhase(cfg: Config, r: Redis, id: nat, c: Choice, job: nat, h: StatusHash, answers: nat)
    requires ValidConfig(cfg) && job == JobAt(r, id) && HashOf(r, job) == Some(h) && answers >= 3
    ensures Carry(cfg, r, Incrementing(id), c, answers) ==
            Carry(cfg, Put(r, job, h.(attempts := h.attempts + 1, status := Some(Running), marks := Started(r), expiresAt := Some(r.now + cfg.statusTtlMs))),
                  Executing(id, h.attempts + 1), c, answers - 3)
  {
    var n := h.attempts + 1;
    var h1 := h.(attempts := n);
    var h2 := h1.(status := Some(Running), marks := Started(r));
    var h3 := h2.(expiresAt := Some(r.now + cfg.statusTtlMs));
    CarryMark(cfg, Put(r, job, h1), id, n, c, job, h1, answers - 1);
    PutAgain(r, job, h1, h2);
    CarryRenew(cfg, Put(r, job, h2), id, n, c, job, h2, answers - 2);
    PutAgain(r, job, h2, h3);
  }

  lemma SuccessPhase(cfg: Config, r: Redis, id: nat, n: int, c: Choice, job: nat, h: StatusHash, answers: nat)
    requires c.succeeds && job == JobAt(r, id) && HashOf(r, job) == Some(h) && answers >= 3
    ensures Carry(cfg, r, Executing(id, n), c, answers) ==
            (XAck(Put(r, job, h.(status := Some(Succeeded), hasResult := true, marks := Marked(h.marks, Succeeded, r.now, ""), expiresAt := Some(r.now + cfg.statusTtlMs))), id), Ready, answers - 3)
  {
    var h1 := h.(status := Some(Succeeded), hasResult := true, marks := Marked(h.marks, Succeeded, r.now, ""));
    var h2 := h1.(expiresAt := Some(r.now + cfg.statusTtlMs));
    assert Carry(cfg, r, Executing(id, n), c, answers) == Carry(cfg, r, SettingSucceeded(id), c, answers);
    CarryOn(cfg, r, SettingSucceeded(id), c, answers);
    CarryOn(cfg, Put(r, job, h1), ExpiringSucceeded(id), c, answers - 1);
    PutAgain(r, job, h1, h2);
    CarryOn(cfg, Put(r, job, h2), AckingSucceeded(id), c, answers - 2);
  }

  lemma FailurePhase(cfg: Config, r: Redis, id: nat, n: int, c: Choice, job: nat, h: StatusHash, answers: nat)
    requires !c.succeeds && job == JobAt(r, id) && HashOf(r, job) == Some(h) && answers >= EndingCommands(cfg, n, c)
    ensures var terminal := n >= cfg.maxAttempts;
            var status := if terminal then Failed else Retrying;
            var marked := Put(r, job, h.(status := Some(status), marks := Marked(h.marks, status, r.now, c.summary), expiresAt := Some(r.now + cfg.statusTtlMs)));
            Carry(cfg, r, Executing(id, n), c, answers) ==
            (if terminal then XAck(XAddDead(marked, LetterFor(r, id, n, c.summary)), id) else marked, Ready, answers - EndingCommands(cfg, n, c))
  {
    var terminal := n >= cfg.maxAttempts;
    var status := if terminal then Failed else Retrying;
    var h1 := h.(status := Some(status), marks := Marked(h.marks, status, r.now, c.summary));
    var h2 := h1.(expiresAt := Some(r.now + cfg.statusTtlMs));
    assert Carry(cfg, r, Executing(id, n), c, answers) == Carry(cfg, r, SettingFailed(id, n), c, answers);
    CarryOn(cfg, r, SettingFailed(id, n), c, answers);
    CarryOn(cfg, Put(r, job, h1), ExpiringFailed(id, n), c, answers - 1);
    PutAgain(r, job, h1, h2);
    if terminal {
      BurialPhase(cfg, Put(r, job, h2), id, n, c, answers - 2);
      assert LetterFor(Put(r, job, h2), id, n, c.summary) == LetterFor(r, id, n, c.summary);
    }
  }

  lemma BurialPhase(cfg: Config, r: Redis, id: nat, n: int, c: Choice, answers: nat)
    requires answers >= 2
    ensures Carry(cfg, r, AddingLetter(id, n), c, answers) == (XAck(XAddDead(r, LetterFor(r, id, n, c.summary)), id), Ready, answers - 2)
  {
    CarryOn(cfg, r, AddingLetter(id, n), c, answers);
    CarryOn(cfg, XAddDead(r, LetterFor(r, id, n, c.summary)), AckingFailed(id), c, answers - 1);
  }

  /** A delivery whose commands are all answered runs to its end and does exactly `Delivered`. */
  lemma DeliveryConcludes(cfg: Config, r: Redis, id: nat, c: Choice, answers: nat)
    requires ValidConfig(cfg) && HashOf(r, JobAt(r, id)).Some?
    requires answers >= DeliveryCommands(cfg, r.hashes[JobAt(r, id)].attempts + 1, c)
    ensures Carry(cfg, r, Incrementing(id), c, answers) ==
            (Delivered(cfg, r, id, c), Ready, answers - DeliveryCommands(cfg, r.hashes[JobAt(r, id)].attempts + 1, c))
  {
    var job := JobAt(r, id);
    var h := r.hashes[job];
    StartPhase(cfg, r, id, c, job, h, answers);
    var h3 := h.(attempts := h.attempts + 1, status := Some(Running), marks := Started(r), expiresAt := Some(r.now + cfg.statusTtlMs));
    JobConcludes(cfg, r, id, c, job, h, h3, answers - 3);
  }

  lemma JobConcludes(cfg: Config, r: Redis, id: nat, c: Choice, job: nat, h: StatusHash, h3: StatusHash, answers: nat)
    requires ValidConfig(cfg) && job == JobAt(r, id) && HashOf(r, job) == Some(h)
    requires h3 == h.(attempts := h.attempts + 1, status := Some(Running), marks := Started(r), expiresAt := Some(r.now + cfg.statusTtlMs))
    requires answers >= EndingCommands(cfg, h3.attempts, c)
    ensures Carry(cfg, Put(r, job, h3), Executing(id, h3.attempts), c, answers) ==
            (Delivered(cfg, r, id, c), Ready, answers - EndingCommands(cfg, h3.attempts, c))
  {
    PutAgain(r, job, h3, HashAfter(cfg, r, h, c));
    if c.succeeds {
      SuccessPhase(cfg, Put(r, job, h3), id, h3.attempts, c, job, h3, answers);
    } else {
      FailurePhase(cfg, Put(r, job, h3), id, h3.attempts, c, job, h3, answers);
    }
  }

  // ---------- rounds ----------

  /** Time passes, then a round runs on a connection that gives this many answers. */
  datatype Round = Round(wait: nat, choice: Choice, answers: nat)

  function AfterRound(cfg: Config, r: Redis, round: Round): Redis {
    RoundFrom(cfg, r.(now := r.now + round.wait), round.choice, round.answers).0
  }

  function AfterRounds(cfg: Config, r: Redis, rounds: seq<Round>): Redis
    decreases |rounds|
  {
    if rounds == [] then r else AfterRounds(cfg, AfterRound(cfg, r, rounds[0]), rounds[1..])
  }

  /** More answers than any round needs. */
  const ENOUGH := 11

  /** A stale pending entry with a readable status is claimed and delivered. */
  lemma ClaimDelivers(cfg: Config, r: Redis, id: nat, c: Choice, answers: nat)
    requires ValidConfig(cfg) && r.group && Claimable(r, cfg, id) && c.claim == Some(id) && answers >= ENOUGH
    requires HashOf(r, JobAt(r, id)).Some? && Readable(HashOf(r, JobAt(r, id)).value)
    ensures RoundFrom(cfg, r, c, answers).0 == Delivered(cfg, AutoClaim(r, id), id, c)
    ensures RoundFrom(cfg, r, c, answers).1 == Ready
  {
    var a := AutoClaim(r, id);
    CarryOn(cfg, r, Claiming, c, answers - 1);
    CarryOn(cfg, a, Looking(id), c, answers - 2);
    DeliveryConcludes(cfg, a, id, c, answers - 3);
  }

  /** The entry is pending and its status readable once the next round's wait is over. */
  predicate Waiting(cfg: Config, r: Redis, id: nat, wait: nat) {
    var job := JobAt(r, id);
    && r.group && id in r.pending && r.pending[id] <= r.now
    && job in r.hashes && Readable(r.hashes[job]) && Lives(r.hashes[job].expiresAt, r.now + wait)
  }

  /** The round waits until the entry is stale, but not until its status is gone, claims it and is not cut off. */
  predicate Retries(cfg: Config, round: Round, id: nat) {
    && cfg.retryIdleMs <= round.wait < cfg.statusTtlMs
    && round.choice.claim == Some(id) && round.answers >= ENOUGH
  }

  /** How many more attempts a job has. */
  function Left(cfg: Config, h: StatusHash): nat {
    if h.attempts < cfg.maxAttempts then cfg.maxAttempts - h.attempts else 1
  }

  /** What a delivery leaves of the job. */
  ghost predicate Attempted(cfg: Config, r: Redis, id: nat, c: Choice, n: Redis) {
    var job := JobAt(r, id);
    && job in r.hashes && n.stream == r.stream && n.group == r.group
    && job in n.hashes && n.hashes[job] == HashAfter(cfg, n, r.hashes[job], c)
    && (id in n.pending <==> !c.succeeds && Left(cfg, r.hashes[job]) > 1)
    && (id in n.pending ==> n.pending[id] == n.now)
    && (c.succeeds || Left(cfg, r.hashes[job]) > 1 ==> n.dead == r.dead)
    && (!c.succeeds && Left(cfg, r.hashes[job]) == 1 ==> Letters(n.dead, id) == Letters(r.dead, id) + 1)
  }

  lemma DeliveredIsAttempted(cfg: Config, r: Redis, id: nat, c: Choice)
    requires HashOf(r, JobAt(r, id)).Some? && id in r.pending && r.pending[id] == r.now
    ensures Attempted(cfg, r, id, c, Delivered(cfg, r, id, c)) && Delivered(cfg, r, id, c).now == r.now
  {
    var h := r.hashes[JobAt(r, id)];
    var n := Delivered(cfg, r, id, c);
    assert n.now == r.now && HashAfter(cfg, n, h, c) == HashAfter(cfg, r, h, c);
    if !c.succeeds && Left(cfg, h) == 1 {
      LettersAfter(r.dead, LetterFor(r, id, h.attempts + 1, c.summary), id);
      assert n.dead == r.dead + [LetterFor(r, id, h.attempts + 1, c.summary)];
    }
  }

  lemma OneRetry(cfg: Config, r: Redis, id: nat, round: Round)
    requires ValidConfig(cfg) && Waiting(cfg, r, id, round.wait) && Retries(cfg, round, id)
    ensures Attempted(cfg, r, id, round.choice, AfterRound(cfg, r, round))
    ensures AfterRound(cfg, r, round).now == r.now + round.wait
  {
    var s := r.(now := r.now + round.wait);
    ClaimDelivers(cfg, s, id, round.choice, round.answers);
    DeliveredIsAttempted(cfg, AutoClaim(s, id), id, round.choice);
  }

  /**
   A pending job ends, after at most as many deliveries as it has attempts left: SUCCEEDED
   with its result and no new dead letter if one of them succeeds before the attempts run
   out, and FAILED with exactly one more otherwise. Between deliveries time passes.
   */
  lemma {:induction false} RedeliveryEnds(cfg: Config, r: Redis, id: nat, rounds: seq<Round>) returns (used: nat)
    requires ValidConfig(cfg) && rounds != [] && Waiting(cfg, r, id, rounds[0].wait)
    requires |rounds| >= Left(cfg, r.hashes[JobAt(r, id)])
    requires forall i :: 0 <= i < |rounds| ==> Retries(cfg, rounds[i], id)
    ensures 1 <= used <= Left(cfg, r.hashes[JobAt(r, id)]) && used <= |rounds|
    ensures forall i :: 0 <= i < used - 1 ==> !rounds[i].choice.succeeds
    ensures rounds[used - 1].choice.succeeds || used == Left(cfg, r.hashes[JobAt(r, id)])
    ensures var n, job := AfterRounds(cfg, r, rounds[..used]), JobAt(r, id);
            && n.stream == r.stream && id !in n.pending && job in n.hashes
            && n.hashes[job].attempts == r.hashes[job].attempts + used
            && (rounds[used - 1].choice.succeeds ==>
                  n.hashes[job].status == Some(Succeeded) && n.hashes[job].hasResult && n.dead == r.dead)
            && (!rounds[used - 1].choice.succeeds ==>
                  n.hashes[job].status == Some(Failed) && Letters(n.dead, id) == Letters(r.dead, id) + 1)
    decreases |rounds|
  {
    OneRetry(cfg, r, id, rounds[0]);
    var n := AfterRound(cfg, r, rounds[0]);
    if rounds[0].choice.succeeds || Left(cfg, r.hashes[JobAt(r, id)]) == 1 {
      used := 1;
      assert rounds[..1] == [rounds[0]];
      assert AfterRounds(cfg, r, rounds[..1]) == AfterRounds(cfg, n, []);
    } else {
      var more := RedeliveryEnds(cfg, n, id, rounds[1..]);
      used := more + 1;
      assert rounds[..used][1..] == rounds[1..][..more] && rounds[..used][0] == rounds[0];
      assert rounds[1..][more - 1] == rounds[used - 1];
      forall i | 0 <= i < used - 1 ensures !rounds[i].choice.succeeds {
        if i > 0 {
          assert rounds[1..][i - 1] == rounds[i];
        }
      }
    }
  }

  // ---------- rounds are runs ----------

  /** What a worker that is alone does: time passes, it works, and it loses its place when it is cut off. */
  predicate ByWorker(a: Act, worker: nat) {
    a.Tick? || (a.Work? && a.worker == worker) || a == Lose(worker)
  }

  /** `worlds` and `acts` grew, by acts of one worker alone. */
  ghost predicate Continues(worlds: seq<World>, acts: seq<Act>, worlds': seq<World>, acts': seq<Act>, worker: nat) {
    && worlds <= worlds' && acts <= acts'
    && forall i :: |acts| <= i < |acts'| ==> ByWorker(acts'[i], worker)
  }

  /** The worker lost its place so often since. */
  function Losses(acts: seq<Act>, worker: nat, from: nat): nat
    requires from <= |acts|
    decreases |acts| - from
  {
    if from == |acts| then 0 else (if acts[from] == Lose(worker) then 1 else 0) + Losses(acts, worker, from + 1)
  }

  lemma OneMoreAct(cfg: Config, worlds: seq<World>, acts: seq<Act>, worker: nat, a: Act) returns (worlds': seq<World>, acts': seq<Act>)
    requires IsRun(cfg, worlds, acts) && Enabled(worlds[|acts|], a) && ByWorker(a, worker)
    ensures IsRun(cfg, worlds', acts') && Continues(worlds, acts, worlds', acts', worker)
    ensures acts' == acts + [a] && worlds' == worlds + [Next(cfg, worlds[|acts|], a)]
  {
    var last := worlds[|acts|];
    var next := Next(cfg, last, a);
    worlds', acts' := worlds + [next], acts + [a];
    forall i | 0 <= i < |acts'| ensures Enabled(worlds'[i], acts'[i]) && worlds'[i + 1] == Next(cfg, worlds'[i], acts'[i]) {
      if i < |acts| {
        assert worlds'[i] == worlds[i] && worlds'[i + 1] == worlds[i + 1] && acts'[i] == acts[i];
      } else {
        assert worlds'[i] == last && worlds'[i + 1] == next && acts'[i] == a;
      }
    }
  }

  lemma ContinuesOn(w0: seq<World>, a0: seq<Act>, w1: seq<World>, a1: seq<Act>, w2: seq<World>, a2: seq<Act>, worker: nat)
    requires Continues(w0, a0, w1, a1, worker) && Continues(w1, a1, w2, a2, worker)
    ensures Continues(w0, a0, w2, a2, worker)
    ensures Losses(a2, worker, |a0|) == Losses(a1, worker, |a0|) + Losses(a2, worker, |a1|)
  {
    LossesSplit(a1, a2, worker, |a0|);
    forall i | |a0| <= i < |a2| ensures ByWorker(a2[i], worker) {
      if i < |a1| {
        assert a2[i] == a1[i];
      }
    }
  }

  lemma {:induction false} LossesSplit(a1: seq<Act>, a2: seq<Act>, worker: nat, from: nat)
    requires from <= |a1| && a1 <= a2
    ensures Losses(a2, worker, from) == Losses(a1, worker, from) + Losses(a2, worker, |a1|)
    decreases |a1| - from
  {
    if from < |a1| {
      LossesSplit(a1, a2, worker, from + 1);
    }
  }

  /** The rest of a round is a run of the step system in which the worker keeps its place until it is cut off. */
  lemma {:induction false} CarryIsARun(cfg: Config, worlds: seq<World>, acts: seq<Act>, worker: nat, c: Choice, answers: nat)
    returns (worlds': seq<World>, acts': seq<Act>)
    requires IsRun(cfg, worlds, acts)
    ensures IsRun(cfg, worlds', acts') && Continues(worlds, acts, worlds', acts', worker) && Losses(acts', worker, |acts|) == 0
    ensures var w, n := worlds[|acts|], worlds'[|acts'|];
            var (r, pc, left) := Carry(cfg, w.redis, PcOf(w, worker), c, answers);
            n.redis == r && PcOf(n, worker) == pc
    decreases 13 - Phase(PcOf(worlds[|acts|], worker))
  {
    var w := worlds[|acts|];
    var pc := PcOf(w, worker);
    if pc.Ready? || (NeedsAnswer(pc) && answers == 0) {
      worlds', acts' := worlds, acts;
    } else {
      var w1, a1 := OneMoreAct(cfg, worlds, acts, worker, Work(worker, c));
      assert Losses(a1, worker, |a1|) == 0;
      worlds', acts' := CarryIsARun(cfg, w1, a1, worker, c, if pc.Executing? then answers else answers - 1);
      ContinuesOn(worlds, acts, w1, a1, worlds', acts', worker);
    }
  }

  predicate IsCutOff(cfg: Config, r: Redis, round: Round) {
    !RoundFrom(cfg, r.(now := r.now + round.wait), round.choice, round.answers).1.Ready?
  }

  lemma TimePasses(cfg: Config, worlds: seq<World>, acts: seq<Act>, worker: nat, wait: nat) returns (worlds': seq<World>, acts': seq<Act>)
    requires IsRun(cfg, worlds, acts)
    ensures IsRun(cfg, worlds', acts') && Continues(worlds, acts, worlds', acts', worker) && Losses(acts', worker, |acts|) == 0
    ensures var w, n := worlds[|acts|], worlds'[|acts'|];
            n.redis == w.redis.(now := w.redis.now + wait) && n.workers == w.workers
  {
    worlds', acts' := OneMoreAct(cfg, worlds, acts, worker, Tick(worlds[|acts|].redis.now + wait));
    assert Losses(acts', worker, |acts'|) == 0;
  }

  lemma LoseIfCutOff(cfg: Config, worlds: seq<World>, acts: seq<Act>, worker: nat) returns (worlds': seq<World>, acts': seq<Act>)
    requires IsRun(cfg, worlds, acts)
    ensures IsRun(cfg, worlds', acts') && Continues(worlds, acts, worlds', acts', worker) && PcOf(worlds'[|acts'|], worker).Ready?
    ensures worlds'[|acts'|].redis == worlds[|acts|].redis
    ensures Losses(acts', worker, |acts|) == if PcOf(worlds[|acts|], worker).Ready? then 0 else 1
  {
    if PcOf(worlds[|acts|], worker).Ready? {
      worlds', acts' := worlds, acts;
    } else {
      worlds', acts' := OneMoreAct(cfg, worlds, acts, worker, Lose(worker));
      assert Losses(acts', worker, |acts'|) == 0;
    }
  }

  lemma WorkIsARun(cfg: Config, worlds: seq<World>, acts: seq<Act>, worker: nat, c: Choice, answers: nat)
    returns (worlds': seq<World>, acts': seq<Act>)
    requires IsRun(cfg, worlds, acts) && PcOf(worlds[|acts|], worker).Ready?
    ensures IsRun(cfg, worlds', acts') && Continues(worlds, acts, worlds', acts', worker) && PcOf(worlds'[|acts'|], worker).Ready?
    ensures worlds'[|acts'|].redis == RoundFrom(cfg, worlds[|acts|].redis, c, answers).0
    ensures Losses(acts', worker, |acts|) == if RoundFrom(cfg, worlds[|acts|].redis, c, answers).1.Ready? then 0 else 1
  {
    if answers == 0 {
      worlds', acts' := worlds, acts;
    } else {
      var w1, a1 := OneMoreAct(cfg, worlds, acts, worker, Work(worker, c));
      assert Losses(a1, worker, |a1|) == 0;
      var w2, a2 := CarryIsARun(cfg, w1, a1, worker, c, answers - 1);
      ContinuesOn(worlds, acts, w1, a1, w2, a2, worker);
      worlds', acts' := LoseIfCutOff(cfg, w2, a2, worker);
      ContinuesOn(worlds, acts, w2, a2, worlds', acts', worker);
    }
  }

  lemma RoundThen(cfg: Config, r: Redis, round: Round, later: Redis)
    requires later == r.(now := r.now + round.wait)
    ensures AfterRound(cfg, r, round) == RoundFrom(cfg, later, round.choice, round.answers).0
    ensures IsCutOff(cfg, r, round) <==> !RoundFrom(cfg, later, round.choice, round.answers).1.Ready?
  {
  }

  /** A round is a run in which time passes, the worker works, and it loses its place exactly if it is cut off. */
  lemma RoundIsARun(cfg: Config, worlds: seq<World>, acts: seq<Act>, worker: nat, round: Round) returns (worlds': seq<World>, acts': seq<Act>)
    requires IsRun(cfg, worlds, acts) && PcOf(worlds[|acts|], worker).Ready?
    ensures IsRun(cfg, worlds', acts') && Continues(worlds, acts, worlds', acts', worker) && PcOf(worlds'[|acts'|], worker).Ready?
    ensures worlds'[|acts'|].redis == AfterRound(cfg, worlds[|acts|].redis, round)
    ensures Losses(acts', worker, |acts|) == if IsCutOff(cfg, worlds[|acts|].redis, round) then 1 else 0
  {
    var w1, a1 := TimePasses(cfg, worlds, acts, worker, round.wait);
    RoundThen(cfg, worlds[|acts|].redis, round, w1[|a1|].redis);
    worlds', acts' := WorkIsARun(cfg, w1, a1, worker, round.choice, round.answers);
    ContinuesOn(worlds, acts, w1, a1, worlds', acts', worker);
  }

  function CutOffs(cfg: Config, r: Redis, rounds: seq<Round>): nat
    decreases |rounds|
  {
    if rounds == [] then 0
    else (if IsCutOff(cfg, r, rounds[0]) then 1 else 0) + CutOffs(cfg, AfterRound(cfg, r, rounds[0]), rounds[1..])
  }

  /**
   The rounds of a worker loop, from any state of any run in which the worker is between
   rounds, are a run again: it loses its place once for every round that is cut off.
   */
  lemma {:induction false} RoundsAreARun(cfg: Config, worlds: seq<World>, acts: seq<Act>, worker: nat, rounds: seq<Round>)
    returns (worlds': seq<World>, acts': seq<Act>)
    requires IsRun(cfg, worlds, acts) && PcOf(worlds[|acts|], worker).Ready?
    ensures IsRun(cfg, worlds', acts') && Continues(worlds, acts, worlds', acts', worker) && PcOf(worlds'[|acts'|], worker).Ready?
    ensures worlds'[|acts'|].redis == AfterRounds(cfg, worlds[|acts|].redis, rounds)
    ensures Losses(acts', worker, |acts|) == CutOffs(cfg, worlds[|acts|].redis, rounds)
    decreases |rounds|
  {
    if rounds == [] {
      worlds', acts' := worlds, acts;
    } else {
      var w1, a1 := RoundIsARun(cfg, worlds, acts, worker, rounds[0]);
      worlds', acts' := RoundsAreARun(cfg, w1, a1, worker, rounds[1..]);
      ContinuesOn(worlds, acts, w1, a1, worlds', acts', worker);
    }
  }

  // ---------- a pending job ends ----------

  /** Entries were delivered in the past. */
  predicate PendingPast(r: Redis) {
    forall id :: id in r.pending ==> r.pending[id] <= r.now
  }

  lemma CommandKeepsPendingPast(cfg: Config, r: Redis, pc: Pc, c: Choice)
    requires PendingPast(r)
    ensures PendingPast(Command(cfg, r, pc, c))
  {
    match pc
    case Claiming =>
    case Reading =>
    case AckingMissing(_) =>
    case AckingSucceeded(_) =>
    case AckingFailed(_) =>
    case _ => assert Command(cfg, r, pc, c).pending == r.pending && Command(cfg, r, pc, c).now == r.now;
  }

  lemma AddKeepsPending(cfg: Config, w: World, job: nat, req: Request, root: nat)
    ensures var r := Add(cfg, w, job, req, root).redis; r.pending == w.redis.pending && r.now == w.redis.now
  {
  }

  lemma StepKeepsPendingPast(cfg: Config, w: World, a: Act)
    requires Enabled(w, a) && PendingPast(w.redis)
    ensures PendingPast(Next(cfg, w, a).redis)
  {
    match a
    case Submit(job, req) => AddKeepsPending(cfg, w, job, req, |w.redis.stream|);
    case Replay(d, job) => AddKeepsPending(cfg, w, job, Replayable(w.redis, d).value, SourceOf(w, d));
    case Work(worker, c) => CommandKeepsPendingPast(cfg, w.redis, PcOf(w, worker), c);
    case _ =>
  }

  lemma {:induction false} PendingIsPast(cfg: Config, worlds: seq<World>, acts: seq<Act>, k: nat)
    requires IsRun(cfg, worlds, acts) && k < |worlds|
    ensures PendingPast(worlds[k].redis)
  {
    if k > 0 {
      PendingIsPast(cfg, worlds, acts, k - 1);
      StepKeepsPendingPast(cfg, worlds[k - 1], acts[k - 1]);
    }
  }

  /** Nothing is lost while the rounds run to their ends. */
  lemma {:induction false} RetriesAreNotCutOff(cfg: Config, r: Redis, id: nat, rounds: seq<Round>)
    requires ValidConfig(cfg) && rounds != [] && Waiting(cfg, r, id, rounds[0].wait)
    requires |rounds| <= Left(cfg, r.hashes[JobAt(r, id)])
    requires forall i :: 0 <= i < |rounds| ==> Retries(cfg, rounds[i], id)
    requires forall i :: 0 <= i < |rounds| - 1 ==> !rounds[i].choice.succeeds
    ensures CutOffs(cfg, r, rounds) == 0
    decreases |rounds|
  {
    var s := r.(now := r.now + rounds[0].wait);
    ClaimDelivers(cfg, s, id, rounds[0].choice, rounds[0].answers);
    OneRetry(cfg, r, id, rounds[0]);
    if |rounds| > 1 {
      RetriesAreNotCutOff(cfg, AfterRound(cfg, r, rounds[0]), id, rounds[1..]);
    }
  }

  /**
   From any state of any run: a worker between rounds that claims a pending job with a readable
   status again and again, each time when it is stale and before its status expires, brings it to
   its end in the step system, without a loss, in at most as many deliveries as it has attempts left.
   */
  lemma PendingJobEnds(cfg: Config, worlds: seq<World>, acts: seq<Act>, worker: nat, id: nat, rounds: seq<Round>)
    returns (worlds': seq<World>, acts': seq<Act>, used: nat)
    requires IsRun(cfg, worlds, acts) && PcOf(worlds[|acts|], worker).Ready?
    requires var r := worlds[|acts|].redis;
             && id in r.pending && JobAt(r, id) in r.hashes && Readable(r.hashes[JobAt(r, id)])
             && rounds != [] && Lives(r.hashes[JobAt(r, id)].expiresAt, r.now + rounds[0].wait)
             && |rounds| >= Left(cfg, r.hashes[JobAt(r, id)])
    requires forall i :: 0 <= i < |rounds| ==> Retries(cfg, rounds[i], id)
    ensures IsRun(cfg, worlds', acts') && Continues(worlds, acts, worlds', acts', worker) && Losses(acts', worker, |acts|) == 0
    ensures 1 <= used <= |rounds| && used <= Left(cfg, worlds[|acts|].redis.hashes[JobAt(worlds[|acts|].redis, id)])
    ensures forall i :: 0 <= i < used - 1 ==> !rounds[i].choice.succeeds
    ensures var r, n := worlds[|acts|].redis, worlds'[|acts'|].redis;
            var job := JobAt(r, id);
            && n.stream == r.stream && id !in n.pending && job in n.hashes
            && n.hashes[job].attempts == r.hashes[job].attempts + used
            && (rounds[used - 1].choice.succeeds ==>
                  n.hashes[job].status == Some(Succeeded) && n.hashes[job].hasResult && n.dead == r.dead)
            && (!rounds[used - 1].choice.succeeds ==>
                  && (forall i :: 0 <= i < used ==> !rounds[i].choice.succeeds) && used == Left(cfg, r.hashes[job])
                  && n.hashes[job].status == Some(Failed) && Letters(n.dead, id) == Letters(r.dead, id) + 1)
  {
    var r := worlds[|acts|].redis;
    PendingIsPast(cfg, worlds, acts, |acts|);
    NoEntryIsLost(cfg, worlds, acts, |acts|);
    used := RedeliveryEnds(cfg, r, id, rounds);
    RetriesAreNotCutOff(cfg, r, id, rounds[..used]);
    worlds', acts' := RoundsAreARun(cfg, worlds, acts, worker, rounds[..used]);
  }
}
