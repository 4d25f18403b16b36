/**
 Replaying dead letters: what a replay reads through the decoders, and that it submits the
 request of the submission it goes back to.
 */
module QueueReplay {
  import opened Wrappers
  import opened JobCodec
  import opened RedisServer
  import opened QueueRuns
  import QueueSubmission

  // ---------- what a replay reads ----------

  function IdText(id: nat): string {
    Decimal.IntText(id) + "-0"
  }

  function LetterText(l: DeadLetter, entryId: string): Letter {
    Letter(entryId, "job-" + Decimal.IntText(l.job), l.kind, l.attempts, "at-" + Decimal.IntText(l.failedAt), l.summary, IdText(l.source))
  }

  /** The entry with this identifier among the first `n`. */
  function FindEntry(stream: seq<Entry>, id: string, n: nat): (found: Option<nat>)
    requires n <= |stream|
    ensures found.Some? ==> found.value < n && IdText(found.value) == id
  {
    if n == 0 then None
    else if IdText(n - 1) == id then Some(n - 1)
    else FindEntry(stream, id, n - 1)
  }

  function RangeStream(stream: seq<Entry>, id: string): Reply {
    match FindEntry(stream, id, |stream|)
    case None => Items([])
    case Some(i) =>
      EntryReply(id, EntryPairs("job-" + Decimal.IntText(stream[i].job), stream[i].request, "at-" + Decimal.IntText(stream[i].at)))
  }

  function RangeDead(dead: seq<DeadLetter>, d: nat): Reply {
    if d < |dead| then Items([Items([Text(IdText(d)), Hash(LetterPairs(LetterText(dead[d], IdText(d))))])]) else Items([])
  }

  datatype ReplayError = NotFound | SourceGone | Unavailable

  /** What a replay reads and decodes before it submits. */
  function ReplayRequest(r: Redis, d: nat): Result<Request, ReplayError> {
    var raw := RangeDead(r.dead, d);
    if raw.items == [] then Err(NotFound)
    else match DecodeLetter(raw.items[0])
      case Err(_) => Err(Unavailable)
      case Ok(letter) =>
        match DecodeSourceRequest(RangeStream(r.stream, letter.sourceStreamId))
        case Err(_) => Err(Unavailable)
        case Ok(None) => Err(SourceGone)
        case Ok(Some(req)) => Ok(req)
  }

  lemma FindsItsEntry(stream: seq<Entry>, id: nat, n: nat)
    requires id < n <= |stream|
    ensures FindEntry(stream, IdText(id), n) == Some(id)
  {
    if IdText(n - 1) == IdText(id) {
      SameIdText(n - 1, id);
    } else {
      FindsItsEntry(stream, id, n - 1);
    }
  }

  lemma FindsNothing(stream: seq<Entry>, id: nat)
    requires id >= |stream|
    ensures FindEntry(stream, IdText(id), |stream|) == None
  {
    var found := FindEntry(stream, IdText(id), |stream|);
    if found.Some? {
      SameIdText(found.value, id);
    }
  }

  lemma SameIdText(a: nat, b: nat)
    requires IdText(a) == IdText(b)
    ensures a == b
  {
    assert Decimal.IntText(a) == IdText(a)[..|IdText(a)| - 2];
    assert Decimal.IntText(b) == IdText(b)[..|IdText(b)| - 2];
    Decimal.IntTextInjective(a, b);
  }

  /**
   Reading a dead letter and its source entry back through the decoders gives the request
   that was admitted, exactly when both are there and its text fields are nonblank; otherwise
   the replay fails and says why.
   */
  lemma ReplayReadsExactly(r: Redis, d: nat)
    ensures ReplayRequest(r, d) ==
            if d >= |r.dead| then Err(NotFound)
            else if r.dead[d].source >= |r.stream| then Err(SourceGone)
            else if !Nonblank(r.stream[r.dead[d].source].request) then Err(Unavailable)
            else Ok(r.stream[r.dead[d].source].request)
    ensures ReplayRequest(r, d).Ok? <==> Replayable(r, d).Some?
    ensures ReplayRequest(r, d).Ok? ==> ReplayRequest(r, d).value == Replayable(r, d).value
  {
    if d < |r.dead| {
      LetterReads(r, d);
      var i := r.dead[d].source;
      if i < |r.stream| {
        FindsItsEntry(r.stream, i, |r.stream|);
        EntryRoundTrip(IdText(i), "job-" + Decimal.IntText(r.stream[i].job), r.stream[i].request, "at-" + Decimal.IntText(r.stream[i].at));
      } else {
        FindsNothing(r.stream, i);
      }
    }
  }

  /** A dead letter is read back as the stream holds it, its error text stripped. */
  lemma LetterReads(r: Redis, d: nat)
    requires d < |r.dead|
    ensures |RangeDead(r.dead, d).items| == 1 && DecodeLetter(RangeDead(r.dead, d).items[0]).Ok?
    ensures var l := DecodeLetter(RangeDead(r.dead, d).items[0]).value;
            && l.entryId == IdText(d) && l.sourceStreamId == IdText(r.dead[d].source)
            && l.job == "job-" + Decimal.IntText(r.dead[d].job) && l.kind == r.dead[d].kind
            && l.attempts == r.dead[d].attempts && l.failedAt == "at-" + Decimal.IntText(r.dead[d].failedAt)
            && l.errorSummary == Strip(r.dead[d].summary)
  {
    var l := LetterText(r.dead[d], IdText(d));
    LetterRoundTrip(l);
    var raw := RangeDead(r.dead, d);
    assert raw.items == [Items([Text(IdText(d)), Hash(LetterPairs(l))])];
  }

  // ---------- replays over runs ----------

  predicate RootedAt(w: World, i: nat)
    requires i < |w.history| && |w.history| == |w.redis.stream|
  {
    var root := w.history[i].root;
    root <= i && w.history[root].root == root && w.redis.stream[root].request == w.redis.stream[i].request
  }

  ghost predicate Rooted(w: World) {
    && |w.history| == |w.redis.stream|
    && (forall d :: 0 <= d < |w.redis.dead| ==> w.redis.dead[d].source < |w.redis.stream|)
    && (forall i: nat :: i < |w.history| ==> RootedAt(w, i))
  }

  lemma AddStaysRooted(cfg: Config, w: World, job: nat, req: Request, root: nat)
    requires Rooted(w) && root <= |w.redis.stream|
    requires root < |w.redis.stream| ==> w.history[root].root == root && w.redis.stream[root].request == req
    ensures Rooted(Add(cfg, w, job, req, root))
  {
    var n := Add(cfg, w, job, req, root);
    forall i: nat | i < |n.history| ensures RootedAt(n, i) {
      if i < |w.history| {
        assert RootedAt(w, i);
      }
    }
  }

  lemma WorkStaysRooted(cfg: Config, w: World, a: Act)
    requires Rooted(w) && NothingLost(cfg, w) && (a.Work? || a.Lose? || a.Tick?) && Enabled(w, a)
    ensures Rooted(Next(cfg, w, a))
  {
    var n := Next(cfg, w, a);
    if a.Work? {
      QueueSubmission.CommandFrames(cfg, w.redis, PcOf(w, a.worker), a.choice);
      assert WorkerJustified(cfg, w, a.worker);
    }
    assert forall i: nat :: i < |n.history| ==> n.history[i].root == w.history[i].root;
    forall i: nat | i < |n.history| ensures RootedAt(n, i) {
      assert RootedAt(w, i);
    }
  }

  lemma {:induction false} RunStaysRooted(cfg: Config, worlds: seq<World>, acts: seq<Act>, k: nat)
    requires IsRun(cfg, worlds, acts) && k < |worlds|
    ensures Rooted(worlds[k])
  {
    if k > 0 {
      RunStaysRooted(cfg, worlds, acts, k - 1);
      var w, a := worlds[k - 1], acts[k - 1];
      match a {
        case Submit(job, req) => AddStaysRooted(cfg, w, job, req, |w.redis.stream|);
        case Replay(d, job) =>
          assert RootedAt(w, w.redis.dead[d].source);
          AddStaysRooted(cfg, w, job, Replayable(w.redis, d).value, SourceOf(w, d));
        case _ =>
          NoEntryIsLost(cfg, worlds, acts, k - 1);
          WorkStaysRooted(cfg, w, a);
      }
    }
  }

  /** The request of the submission the dead letter's entry goes back to. */
  function RootRequest(w: World, d: nat): Option<Request> {
    if d < |w.redis.dead| && w.redis.dead[d].source < |w.history| && SourceOf(w, d) < |w.redis.stream| then
      Some(w.redis.stream[SourceOf(w, d)].request)
    else None
  }

  /**
   However often jobs fail to the dead-letter stream and are replayed, and replays replayed
   again: every entry carries the request of the submission it goes back to, and whatever a
   replay reads through the decoders is the request of the submission its entry goes back to.
   */
  lemma ReplaysKeepTheRequest(cfg: Config, worlds: seq<World>, acts: seq<Act>, k: nat, d: nat)
    requires IsRun(cfg, worlds, acts) && k < |worlds|
    ensures Rooted(worlds[k])
    ensures ReplayRequest(worlds[k].redis, d).Ok? ==> RootRequest(worlds[k], d) == Some(ReplayRequest(worlds[k].redis, d).value)
  {
    RunStaysRooted(cfg, worlds, acts, k);
    ReplayReadsExactly(worlds[k].redis, d);
    RootHasTheRequest(worlds[k], d);
  }

  lemma RootHasTheRequest(w: World, d: nat)
    requires Rooted(w)
    ensures Replayable(w.redis, d).Some? ==> RootRequest(w, d) == Replayable(w.redis, d)
  {
    if d < |w.redis.dead| {
      assert RootedAt(w, w.redis.dead[d].source);
    }
  }
}
