/**
 Job requests as Redis text: the keys derived from a request, the fields of stream
 entries and status hashes, and the decoders that read them back.
 */
module JobCodec {
  import opened Wrappers
  import opened Decimal

  datatype Kind = EmbeddingReindex | BatchNoteWrite

  datatype Request = Request(kind: Kind, requestedBy: string, sourceId: string, limit: int, force: bool)

  datatype Status = Queued | Running | Retrying | Succeeded | Failed

  datatype Error = QueueUnavailable | UnknownEnumValue

  function KindText(k: Kind): string {
    match k
    case EmbeddingReindex => "embedding_reindex"
    case BatchNoteWrite => "batch_note_write"
  }

  function ParseKind(s: string): Result<Kind, Error> {
    if s == "embedding_reindex" then Ok(EmbeddingReindex)
    else if s == "batch_note_write" then Ok(BatchNoteWrite)
    else Err(UnknownEnumValue)
  }

  function StatusText(s: Status): string {
    match s
    case Queued => "QUEUED"
    case Running => "RUNNING"
    case Retrying => "RETRYING"
    case Succeeded => "SUCCEEDED"
    case Failed => "FAILED"
  }

  function ParseStatus(s: string): Result<Status, Error> {
    if s == "QUEUED" then Ok(Queued)
    else if s == "RUNNING" then Ok(Running)
    else if s == "RETRYING" then Ok(Retrying)
    else if s == "SUCCEEDED" then Ok(Succeeded)
    else if s == "FAILED" then Ok(Failed)
    else Err(UnknownEnumValue)
  }

  function FlagText(b: bool): string {
    if b then "1" else "0"
  }

  // ---------- keys ----------

  const SEP: char := '\U{1F}'

  /** What the deduplication digest is taken of. */
  function DedupMaterial(r: Request): string {
    KindText(r.kind) + [SEP] + (r.requestedBy + [SEP] + r.sourceId) + ([SEP] + IntText(r.limit) + [SEP] + FlagText(r.force))
  }

  /** What the rate digest is taken of. */
  function RateMaterial(r: Request): string {
    KindText(r.kind) + [SEP] + r.requestedBy
  }

  predicate HasSeparator(r: Request) {
    SEP in r.requestedBy || SEP in r.sourceId
  }

  /** Two texts that agree up to a separator absent from both fronts agree part by part. */
  lemma SplitAtFirst(a: string, x: string, b: string, y: string)
    requires SEP !in a && SEP !in b && a + [SEP] + x == b + [SEP] + y
    ensures a == b && x == y
  {
    var s := a + [SEP] + x;
    assert s[|a|] == SEP && s[|b|] == SEP;
    assert forall i :: 0 <= i < |a| ==> s[i] == a[i];
    assert forall i :: 0 <= i < |b| ==> s[i] == b[i];
    assert |a| == |b|;
    assert s[..|a|] == a && s[..|b|] == b;
    assert s[|a| + 1..] == x && s[|b| + 1..] == y;
  }

  lemma SplitAtLast(x: string, a: string, y: string, b: string)
    requires SEP !in a && SEP !in b && x + [SEP] + a == y + [SEP] + b
    ensures x == y && a == b
  {
    var s := x + [SEP] + a;
    assert s[|x|] == SEP && s[|y|] == SEP;
    assert forall i :: |x| < i < |s| ==> s[i] == a[i - |x| - 1];
    assert forall i :: |y| < i < |s| ==> s[i] == b[i - |y| - 1];
    assert |x| == |y|;
    assert s[..|x|] == x && s[..|y|] == y;
    assert s[|x| + 1..] == a && s[|y| + 1..] == b;
  }

  lemma TailHasNoSeparator(r: Request)
    ensures SEP !in IntText(r.limit) && SEP !in FlagText(r.force) && SEP !in KindText(r.kind)
  {
    if SEP in IntText(r.limit) {
      IntTextChars(r.limit, SEP);
    }
  }

  lemma MaterialSplits(a: Request, b: Request)
    requires DedupMaterial(a) == DedupMaterial(b)
    ensures a.kind == b.kind && a.limit == b.limit && a.force == b.force
    ensures a.requestedBy + [SEP] + a.sourceId == b.requestedBy + [SEP] + b.sourceId
  {
    MaterialParts(a);
    MaterialParts(b);
    TailHasNoSeparator(a);
    TailHasNoSeparator(b);
    SplitAtFirst(KindText(a.kind), Front(a) + [SEP] + FlagText(a.force), KindText(b.kind), Front(b) + [SEP] + FlagText(b.force));
    SplitAtLast(Front(a), FlagText(a.force), Front(b), FlagText(b.force));
    SplitAtLast(a.requestedBy + [SEP] + a.sourceId, IntText(a.limit), b.requestedBy + [SEP] + b.sourceId, IntText(b.limit));
    IntTextInjective(a.limit, b.limit);
    assert FlagText(a.force)[0] == FlagText(b.force)[0];
  }

  /** The material between the kind and the last separator. */
  function Front(r: Request): string {
    r.requestedBy + [SEP] + r.sourceId + [SEP] + IntText(r.limit)
  }

  lemma MaterialParts(r: Request)
    ensures DedupMaterial(r) == KindText(r.kind) + [SEP] + (Front(r) + [SEP] + FlagText(r.force))
  {
  }

  lemma CleanMaterialIsUnique(a: Request, b: Request)
    requires DedupMaterial(a) == DedupMaterial(b) && !HasSeparator(a)
    ensures a == b
  {
    MaterialSplits(a, b);
    var s := a.requestedBy + [SEP] + a.sourceId;
    assert s[|b.requestedBy|] == SEP;
    assert forall i :: 0 <= i < |a.requestedBy| ==> s[i] == a.requestedBy[i];
    assert forall i :: |a.requestedBy| < i < |s| ==> s[i] == a.sourceId[i - |a.requestedBy| - 1];
    assert |a.requestedBy| == |b.requestedBy|;
    assert s[..|a.requestedBy|] == a.requestedBy && s[..|b.requestedBy|] == b.requestedBy;
    assert s[|a.requestedBy| + 1..] == a.sourceId && s[|b.requestedBy| + 1..] == b.sourceId;
  }

  /** A request with the separator in its text shares its key with the text cut elsewhere. */
  lemma SeparatorCollides(a: Request) returns (b: Request)
    requires HasSeparator(a)
    ensures b != a && DedupMaterial(b) == DedupMaterial(a)
  {
    var s := a.requestedBy + [SEP] + a.sourceId;
    var p: nat;
    if SEP in a.requestedBy {
      p :| p < |a.requestedBy| && a.requestedBy[p] == SEP;
    } else {
      var q: nat :| q < |a.sourceId| && a.sourceId[q] == SEP;
      p := |a.requestedBy| + 1 + q;
    }
    assert s[p] == SEP && p != |a.requestedBy|;
    b := a.(requestedBy := s[..p], sourceId := s[p + 1..]);
    assert |b.requestedBy| == p;
    assert b.requestedBy + [SEP] + b.sourceId == s;
  }

  /** Some other request has the same deduplication key exactly when a text field holds U+001F. */
  lemma DedupKeyIsAmbiguousExactlyWhen(a: Request)
    ensures (exists b :: b != a && DedupMaterial(b) == DedupMaterial(a)) <==> HasSeparator(a)
  {
    if HasSeparator(a) {
      var b := SeparatorCollides(a);
    } else if b :| b != a && DedupMaterial(b) == DedupMaterial(a) {
      CleanMaterialIsUnique(a, b);
    }
  }

  /** The rate key identifies kind and requester, whatever the text. */
  lemma RateKeyIsExact(a: Request, b: Request)
    ensures RateMaterial(a) == RateMaterial(b) <==> a.kind == b.kind && a.requestedBy == b.requestedBy
  {
    TailHasNoSeparator(a);
    TailHasNoSeparator(b);
    if RateMaterial(a) == RateMaterial(b) {
      SplitAtFirst(KindText(a.kind), a.requestedBy, KindText(b.kind), b.requestedBy);
    }
  }

  // ---------- Redis replies ----------

  datatype Reply =
    | Text(s: string)
    | BadBytes
    | Number(n: int)
    | Items(items: seq<Reply>)
    | Hash(pairs: seq<(Reply, Reply)>)
    | Other

  type Fields = map<string, string>

  const STATUS_FIELDS: set<string> :=
    {"job_id", "kind", "status", "requested_by", "source_id", "limit", "force", "attempts", "submitted_at",
     "started_at", "finished_at", "stream_id", "result_json", "error_summary"}

  const LETTER_FIELDS: set<string> :=
    {"job_id", "kind", "attempts", "failed_at", "error_summary", "source_stream_id"}

  function AsText(r: Reply): Result<string, Error> {
    match r
    case Text(s) => Ok(s)
    case Number(n) => Ok(IntText(n))
    case _ => Err(QueueUnavailable)
  }

  function AsItems(r: Reply): Result<seq<Reply>, Error> {
    if r.Items? then Ok(r.items) else Err(QueueUnavailable)
  }

  /** The known fields of the first `n` pairs, later pairs winning. */
  function KnownFields(pairs: seq<(Reply, Reply)>, known: set<string>, n: nat): Result<Fields, Error>
    requires n <= |pairs|
  {
    if n == 0 then Ok(map[])
    else match KnownFields(pairs, known, n - 1)
      case Err(e) => Err(e)
      case Ok(before) =>
        match (AsText(pairs[n - 1].0), AsText(pairs[n - 1].1))
        case (Ok(key), Ok(value)) => Ok(if key in known then before[key := value] else before)
        case _ => Err(QueueUnavailable)
  }

  method NormalizeFields(raw: Reply, known: set<string>) returns (r: Result<Fields, Error>)
    ensures r == if raw.Hash? then KnownFields(raw.pairs, known, |raw.pairs|) else Err(QueueUnavailable)
  {
    if !raw.Hash? {
      return Err(QueueUnavailable);
    }
    var fields: Fields := map[];
    var i := 0;
    while i < |raw.pairs|
      invariant i <= |raw.pairs|
      invariant KnownFields(raw.pairs, known, i) == Ok(fields)
    {
      var key := AsText(raw.pairs[i].0);
      var value := AsText(raw.pairs[i].1);
      if key.Err? || value.Err? {
        BadPairFails(raw.pairs, known, i, |raw.pairs|);
        return Err(QueueUnavailable);
      }
      if key.value in known {
        fields := fields[key.value := value.value];
      }
      i := i + 1;
    }
    return Ok(fields);
  }

  lemma {:induction false} BadPairFails(pairs: seq<(Reply, Reply)>, known: set<string>, i: nat, n: nat)
    requires i < n <= |pairs| && (AsText(pairs[i].0).Err? || AsText(pairs[i].1).Err?)
    ensures KnownFields(pairs, known, n) == Err(QueueUnavailable)
    decreases n
  {
    if n > i + 1 {
      BadPairFails(pairs, known, i, n - 1);
    } else if KnownFields(pairs, known, n - 1).Err? {
      ErrorsAreUniform(pairs, known, n - 1);
    }
  }

  lemma {:induction false} ErrorsAreUniform(pairs: seq<(Reply, Reply)>, known: set<string>, n: nat)
    requires n <= |pairs| && KnownFields(pairs, known, n).Err?
    ensures KnownFields(pairs, known, n) == Err(QueueUnavailable)
  {
    if KnownFields(pairs, known, n - 1).Err? {
      ErrorsAreUniform(pairs, known, n - 1);
    }
  }

  function LastAt(pairs: seq<(Reply, Reply)>, key: string, n: nat): Option<nat>
    requires n <= |pairs|
  {
    if n == 0 then None
    else if AsText(pairs[n - 1].0) == Ok(key) then Some(n - 1)
    else LastAt(pairs, key, n - 1)
  }

  /** A field is present exactly when it is known and some pair names it, and reads as the last such pair. */
  lemma {:induction false} KnownFieldsMeaning(pairs: seq<(Reply, Reply)>, known: set<string>, n: nat, key: string)
    requires n <= |pairs| && KnownFields(pairs, known, n).Ok?
    ensures var f, last := KnownFields(pairs, known, n).value, LastAt(pairs, key, n);
            && (key in f <==> key in known && last.Some?)
            && (last.Some? ==> last.value < n)
            && (key in f ==> AsText(pairs[last.value].1) == Ok(f[key]))
  {
    if n > 0 {
      KnownFieldsMeaning(pairs, known, n - 1, key);
    }
  }

  function FieldsOf(raw: Reply, known: set<string>): Result<Fields, Error> {
    if raw.Hash? then KnownFields(raw.pairs, known, |raw.pairs|) else Err(QueueUnavailable)
  }

  function Required(f: Fields, key: string): Result<string, Error> {
    if key !in f || f[key] == "" then Err(QueueUnavailable) else Ok(f[key])
  }

  function RequiredInt(f: Fields, key: string): Result<int, Error> {
    match Required(f, key)
    case Err(e) => Err(e)
    case Ok(s) =>
      match ParseInt(s)
      case None => Err(QueueUnavailable)
      case Some(n) => Ok(n)
  }

  function RequiredKind(f: Fields): Result<Kind, Error> {
    match Required(f, "kind")
    case Err(e) => Err(e)
    case Ok(s) => ParseKind(s)
  }

  // ---------- stream entries ----------

  /** The fields the enqueue script writes into the stream. */
  function EntryPairs(job: string, r: Request, submittedAt: string): seq<(Reply, Reply)> {
    [(Text("job_id"), Text(job)), (Text("kind"), Text(KindText(r.kind))),
     (Text("requested_by"), Text(r.requestedBy)), (Text("source_id"), Text(r.sourceId)),
     (Text("limit"), Text(IntText(r.limit))), (Text("force"), Text(FlagText(r.force))),
     (Text("submitted_at"), Text(submittedAt))]
  }

  function EntryReply(id: string, pairs: seq<(Reply, Reply)>): Reply {
    Items([Items([Text(id), Hash(pairs)])])
  }

  function RequestOf(f: Fields): Result<Request, Error> {
    match RequiredKind(f)
    case Err(e) => Err(e)
    case Ok(kind) =>
      match (Required(f, "requested_by"), Required(f, "source_id"), RequiredInt(f, "limit"), Required(f, "force"))
      case (Ok(requester), Ok(source), Ok(limit), Ok(force)) => Ok(Request(kind, requester, source, limit, force == "1"))
      case _ => Err(QueueUnavailable)
  }

  function DecodeSourceRequest(raw: Reply): Result<Option<Request>, Error> {
    match AsItems(raw)
    case Err(e) => Err(e)
    case Ok(records) =>
      if records == [] then Ok(None)
      else match AsItems(records[0])
        case Err(e) => Err(e)
        case Ok(values) =>
          if |values| != 2 then Err(QueueUnavailable)
          else match FieldsOf(values[1], STATUS_FIELDS)
            case Err(e) => Err(e)
            case Ok(f) =>
              match RequestOf(f)
              case Err(e) => Err(e)
              case Ok(r) => Ok(Some(r))
  }

  predicate Nonblank(r: Request) {
    r.requestedBy != "" && r.sourceId != ""
  }

  function EntryFields(job: string, r: Request, submittedAt: string): Fields {
    map["job_id" := job, "kind" := KindText(r.kind), "requested_by" := r.requestedBy, "source_id" := r.sourceId,
        "limit" := IntText(r.limit), "force" := FlagText(r.force), "submitted_at" := submittedAt]
  }

  lemma EntryFieldsDecode(job: string, r: Request, submittedAt: string)
    ensures FieldsOf(Hash(EntryPairs(job, r, submittedAt)), STATUS_FIELDS) == Ok(EntryFields(job, r, submittedAt))
  {
    var p := EntryPairs(job, r, submittedAt);
    assert KnownFields(p, STATUS_FIELDS, 0) == Ok(map[]);
    assert KnownFields(p, STATUS_FIELDS, 1) == Ok(map["job_id" := job]);
    assert KnownFields(p, STATUS_FIELDS, 2) == Ok(map["job_id" := job, "kind" := KindText(r.kind)]);
    assert KnownFields(p, STATUS_FIELDS, 3) == Ok(map["job_id" := job, "kind" := KindText(r.kind), "requested_by" := r.requestedBy]);
    var f4 := map["job_id" := job, "kind" := KindText(r.kind), "requested_by" := r.requestedBy, "source_id" := r.sourceId];
    assert KnownFields(p, STATUS_FIELDS, 4) == Ok(f4);
    assert KnownFields(p, STATUS_FIELDS, 5) == Ok(f4["limit" := IntText(r.limit)]);
    assert KnownFields(p, STATUS_FIELDS, 6) == Ok(f4["limit" := IntText(r.limit)]["force" := FlagText(r.force)]);
    assert KnownFields(p, STATUS_FIELDS, 7) == Ok(f4["limit" := IntText(r.limit)]["force" := FlagText(r.force)]["submitted_at" := submittedAt]);
  }

  lemma EntryReplyDecodes(id: string, job: string, r: Request, submittedAt: string)
    ensures DecodeSourceRequest(EntryReply(id, EntryPairs(job, r, submittedAt))) ==
            match RequestOf(EntryFields(job, r, submittedAt)) case Err(e) => Err(e) case Ok(read) => Ok(Some(read))
  {
    EntryFieldsDecode(job, r, submittedAt);
    var values := [Text(id), Hash(EntryPairs(job, r, submittedAt))];
    assert EntryReply(id, EntryPairs(job, r, submittedAt)).items[0] == Items(values);
    assert values[1] == Hash(EntryPairs(job, r, submittedAt));
  }

  /** The request behind a stream entry reads back equal exactly when its text fields are nonblank. */
  lemma EntryRoundTrip(id: string, job: string, r: Request, submittedAt: string)
    ensures DecodeSourceRequest(EntryReply(id, EntryPairs(job, r, submittedAt))) ==
            if Nonblank(r) then Ok(Some(r)) else Err(QueueUnavailable)
  {
    EntryReplyDecodes(id, job, r, submittedAt);
    IntTextRoundTrip(r.limit);
    TextsReadBack(r, Queued);
  }

  // ---------- dead letters ----------

  datatype Letter = Letter(entryId: string, job: string, kind: Kind, attempts: int, failedAt: string,
                           errorSummary: string, sourceStreamId: string)

  function LetterPairs(l: Letter): seq<(Reply, Reply)> {
    [(Text("job_id"), Text(l.job)), (Text("kind"), Text(KindText(l.kind))), (Text("attempts"), Text(IntText(l.attempts))),
     (Text("failed_at"), Text(l.failedAt)), (Text("error_summary"), Text(l.errorSummary)),
     (Text("source_stream_id"), Text(l.sourceStreamId))]
  }

  predicate IsBlank(c: char) {
    IsSpace(c) || '\U{1C}' <= c <= '\U{1F}'
  }

  /** `str.strip` on ASCII text. */
  function Strip(s: string): string {
    if s != [] && IsBlank(s[0]) then Strip(s[1..])
    else if s != [] && IsBlank(s[|s| - 1]) then Strip(s[..|s| - 1])
    else s
  }

  function LetterOf(entryId: string, f: Fields): Result<Letter, Error> {
    match Required(f, "job_id")
    case Err(e) => Err(e)
    case Ok(job) =>
      match RequiredKind(f)
      case Err(e) => Err(e)
      case Ok(kind) =>
        match (RequiredInt(f, "attempts"), Required(f, "failed_at"), Required(f, "source_stream_id"))
        case (Ok(attempts), Ok(failedAt), Ok(source)) =>
          Ok(Letter(entryId, job, kind, attempts, failedAt, if "error_summary" in f then Strip(f["error_summary"]) else "", source))
        case _ => Err(QueueUnavailable)
  }

  function DecodeLetter(raw: Reply): Result<Letter, Error> {
    match AsItems(raw)
    case Err(e) => Err(e)
    case Ok(values) =>
      if |values| != 2 then Err(QueueUnavailable)
      else match FieldsOf(values[1], LETTER_FIELDS)
        case Err(e) => Err(e)
        case Ok(f) =>
          match AsText(values[0])
          case Err(e) => Err(e)
          case Ok(id) => LetterOf(id, f)
  }

  /** The decoded records in order, or the first error. */
  function DecodeAll<T>(decode: Reply -> Result<T, Error>, records: seq<Reply>, n: nat): Result<seq<T>, Error>
    requires n <= |records|
  {
    if n == 0 then Ok([])
    else match DecodeAll(decode, records, n - 1)
      case Err(e) => Err(e)
      case Ok(before) =>
        match decode(records[n - 1])
        case Err(e) => Err(e)
        case Ok(l) => Ok(before + [l])
  }

  lemma {:induction false} FirstErrorWins<T>(decode: Reply -> Result<T, Error>, records: seq<Reply>, i: nat, n: nat)
    requires i < n <= |records| && DecodeAll(decode, records, i).Ok? && decode(records[i]).Err?
    ensures DecodeAll(decode, records, n) == Err(decode(records[i]).error)
  {
    if n > i + 1 {
      FirstErrorWins(decode, records, i, n - 1);
    }
  }

  /** Decoding succeeds exactly when every reply decodes, and then gives one record per reply, in order. */
  lemma {:induction false} DecodeAllMeaning<T>(decode: Reply -> Result<T, Error>, records: seq<Reply>, n: nat)
    requires n <= |records|
    ensures DecodeAll(decode, records, n).Ok? <==> forall i :: 0 <= i < n ==> decode(records[i]).Ok?
    ensures DecodeAll(decode, records, n).Ok? ==>
              var r := DecodeAll(decode, records, n).value;
              |r| == n && forall i :: 0 <= i < n ==> decode(records[i]) == Ok(r[i])
  {
    if n > 0 {
      DecodeAllMeaning(decode, records, n - 1);
    }
  }

  method DecodeRecords<T>(decode: Reply -> Result<T, Error>, records: seq<Reply>) returns (r: Result<seq<T>, Error>)
    ensures r == DecodeAll(decode, records, |records|)
    ensures r.Ok? <==> forall i :: 0 <= i < |records| ==> decode(records[i]).Ok?
    ensures r.Ok? ==> |r.value| == |records| && forall i :: 0 <= i < |records| ==> decode(records[i]) == Ok(r.value[i])
  {
    DecodeAllMeaning(decode, records, |records|);
    var decoded: seq<T> := [];
    for i := 0 to |records|
      invariant DecodeAll(decode, records, i) == Ok(decoded)
    {
      var l := decode(records[i]);
      if l.Err? {
        FirstErrorWins(decode, records, i, |records|);
        return Err(l.error);
      }
      decoded := decoded + [l.value];
    }
    return Ok(decoded);
  }

  method DecodeDeadLetterEntries(raw: Reply) returns (r: Result<seq<Letter>, Error>)
    ensures r == if raw.Items? then DecodeAll(DecodeLetter, raw.items, |raw.items|) else Err(QueueUnavailable)
    ensures r.Ok? <==> raw.Items? && forall i :: 0 <= i < |raw.items| ==> DecodeLetter(raw.items[i]).Ok?
    ensures r.Ok? ==> |r.value| == |raw.items| && forall i :: 0 <= i < |raw.items| ==> DecodeLetter(raw.items[i]) == Ok(r.value[i])
  {
    if !raw.Items? {
      return Err(QueueUnavailable);
    }
    r := DecodeRecords(DecodeLetter, raw.items);
  }

  function LetterFields(l: Letter): Fields {
    map["job_id" := l.job, "kind" := KindText(l.kind), "attempts" := IntText(l.attempts), "failed_at" := l.failedAt,
        "error_summary" := l.errorSummary, "source_stream_id" := l.sourceStreamId]
  }

  lemma LetterFieldsDecode(l: Letter)
    ensures FieldsOf(Hash(LetterPairs(l)), LETTER_FIELDS) == Ok(LetterFields(l))
  {
    var p := LetterPairs(l);
    assert KnownFields(p, LETTER_FIELDS, 0) == Ok(map[]);
    assert KnownFields(p, LETTER_FIELDS, 1) == Ok(map["job_id" := l.job]);
    assert KnownFields(p, LETTER_FIELDS, 2) == Ok(map["job_id" := l.job, "kind" := KindText(l.kind)]);
    var f3 := map["job_id" := l.job, "kind" := KindText(l.kind), "attempts" := IntText(l.attempts)];
    assert KnownFields(p, LETTER_FIELDS, 3) == Ok(f3);
    assert KnownFields(p, LETTER_FIELDS, 4) == Ok(f3["failed_at" := l.failedAt]);
    assert KnownFields(p, LETTER_FIELDS, 5) == Ok(f3["failed_at" := l.failedAt]["error_summary" := l.errorSummary]);
    assert KnownFields(p, LETTER_FIELDS, 6) == Ok(f3["failed_at" := l.failedAt]["error_summary" := l.errorSummary]["source_stream_id" := l.sourceStreamId]);
  }

  /** A dead letter reads back as written, its error text stripped. */
  lemma LetterRoundTrip(l: Letter)
    requires l.job != "" && l.failedAt != "" && l.sourceStreamId != ""
    ensures DecodeLetter(Items([Text(l.entryId), Hash(LetterPairs(l))])) == Ok(l.(errorSummary := Strip(l.errorSummary)))
  {
    LetterFieldsDecode(l);
    IntTextRoundTrip(l.attempts);
    var values := [Text(l.entryId), Hash(LetterPairs(l))];
    assert values[1] == Hash(LetterPairs(l)) && values[0] == Text(l.entryId);
    assert KindText(l.kind)[0] == 'e' || KindText(l.kind)[0] == 'b';
    assert ParseKind(KindText(l.kind)) == Ok(l.kind);
  }

  // ---------- status hashes ----------

  /** What a snapshot shows beside the required fields; times and results are opaque text. */
  datatype Progress = Progress(
    startedAt: Option<string>, finishedAt: Option<string>, streamId: Option<string>, errorSummary: Option<string>, result: Option<string>)

  datatype Snapshot = Snapshot(job: string, request: Request, status: Status, attempts: int, submittedAt: string, progress: Progress)

  /** A field that is there and not blank, stripped. */
  function OptionalText(f: Fields, key: string): Option<string> {
    if key in f && Strip(f[key]) != "" then Some(Strip(f[key])) else None
  }

  function ProgressOf(f: Fields): Progress {
    Progress(OptionalText(f, "started_at"), OptionalText(f, "finished_at"), OptionalText(f, "stream_id"), OptionalText(f, "error_summary"),
             if "result_json" in f && f["result_json"] != "" then Some(f["result_json"]) else None)
  }

  /** Stripping takes blanks off both ends, and all of them. */
  lemma {:induction false} StripMeaning(s: string) returns (front: string, back: string)
    ensures s == front + Strip(s) + back
    ensures (forall c :: c in front ==> IsBlank(c)) && (forall c :: c in back ==> IsBlank(c))
    ensures Strip(s) != "" ==> !IsBlank(Strip(s)[0]) && !IsBlank(Strip(s)[|Strip(s)| - 1])
    decreases |s|
  {
    front, back := "", "";
    if s != [] && IsBlank(s[0]) {
      front, back := StripMeaning(s[1..]);
      front := [s[0]] + front;
    } else if s != [] && IsBlank(s[|s| - 1]) {
      front, back := StripMeaning(s[..|s| - 1]);
      back := back + [s[|s| - 1]];
    }
  }

  /** A text field is shown exactly when it is there and holds something that is not blank. */
  lemma OptionalTextIsExact(f: Fields, key: string)
    ensures OptionalText(f, key).Some? <==> key in f && exists c :: c in f[key] && !IsBlank(c)
    ensures OptionalText(f, key).Some? ==> OptionalText(f, key).value == Strip(f[key])
  {
    if key in f {
      var front, back := StripMeaning(f[key]);
      if Strip(f[key]) != "" {
        assert Strip(f[key])[0] in f[key];
      }
    }
  }

  /** Every part of the progress is read from its own field; a result is shown as it is. */
  lemma ProgressIsExact(f: Fields)
    ensures var p := ProgressOf(f);
            && p.startedAt == OptionalText(f, "started_at") && p.finishedAt == OptionalText(f, "finished_at")
            && p.streamId == OptionalText(f, "stream_id") && p.errorSummary == OptionalText(f, "error_summary")
            && (p.result.Some? <==> "result_json" in f && |f["result_json"]| > 0)
            && (p.result.Some? ==> p.result.value == f["result_json"])
  {
  }

  function RequiredStatus(f: Fields): Result<Status, Error> {
    match Required(f, "status")
    case Err(e) => Err(e)
    case Ok(s) => ParseStatus(s)
  }

  /** The snapshot of a status hash: nothing for an empty hash, an error for an incomplete one. */
  function SnapshotOf(f: Fields): Result<Option<Snapshot>, Error> {
    if f == map[] then Ok(None)
    else if Required(f, "job_id").Err? then Err(QueueUnavailable)
    else if RequiredKind(f).Err? then Err(RequiredKind(f).error)
    else if RequiredStatus(f).Err? then Err(RequiredStatus(f).error)
    else match RequestOf(f)
      case Err(e) => Err(e)
      case Ok(r) =>
        match (RequiredInt(f, "attempts"), Required(f, "submitted_at"))
        case (Ok(attempts), Ok(submittedAt)) => Ok(Some(Snapshot(f["job_id"], r, RequiredStatus(f).value, attempts, submittedAt, ProgressOf(f))))
        case _ => Err(QueueUnavailable)
  }

  /** A complete status hash, whatever else it holds. */
  function StatusFields(job: string, r: Request, status: Status, attempts: int, submittedAt: string, extra: Fields): Fields {
    extra + EntryFields(job, r, submittedAt) + map["status" := StatusText(status), "attempts" := IntText(attempts)]
  }

  /** The fields hold a request's texts. */
  ghost predicate Carries(f: Fields, r: Request) {
    && "kind" in f && "requested_by" in f && "source_id" in f && "limit" in f && "force" in f
    && f["kind"] == KindText(r.kind) && f["requested_by"] == r.requestedBy && f["source_id"] == r.sourceId
    && f["limit"] == IntText(r.limit) && f["force"] == FlagText(r.force)
  }

  lemma RequestReadsBack(f: Fields, r: Request)
    requires Carries(f, r)
    ensures RequestOf(f) == if Nonblank(r) then Ok(r) else Err(QueueUnavailable)
    ensures RequiredKind(f) == Ok(r.kind)
  {
    IntTextRoundTrip(r.limit);
    TextsReadBack(r, Queued);
  }

  lemma SnapshotReadsBack(f: Fields, job: string, r: Request, status: Status, attempts: int)
    requires Carries(f, r) && "job_id" in f && f["job_id"] == job != ""
    requires "status" in f && f["status"] == StatusText(status) && "attempts" in f && f["attempts"] == IntText(attempts)
    requires "submitted_at" in f && f["submitted_at"] != ""
    ensures SnapshotOf(f) ==
            if Nonblank(r) then Ok(Some(Snapshot(job, r, status, attempts, f["submitted_at"], ProgressOf(f)))) else Err(QueueUnavailable)
  {
    RequestReadsBack(f, r);
    IntTextRoundTrip(attempts);
    TextsReadBack(r, status);
  }

  /** A complete status hash reads back as written exactly when the request's text is nonblank. */
  lemma SnapshotRoundTrip(job: string, r: Request, status: Status, attempts: int, submittedAt: string, extra: Fields)
    requires job != "" && submittedAt != ""
    ensures SnapshotOf(StatusFields(job, r, status, attempts, submittedAt, extra)) ==
            if Nonblank(r) then Ok(Some(Snapshot(job, r, status, attempts, submittedAt, ProgressOf(extra)))) else Err(QueueUnavailable)
  {
    SnapshotReadsBack(StatusFields(job, r, status, attempts, submittedAt, extra), job, r, status, attempts);
    ProgressIsExtra(job, r, status, attempts, submittedAt, extra);
  }

  const OWN_FIELDS := {"job_id", "kind", "requested_by", "source_id", "limit", "force", "submitted_at", "status", "attempts"}

  lemma ForeignFieldStays(job: string, r: Request, status: Status, attempts: int, submittedAt: string, extra: Fields, key: string)
    requires key !in OWN_FIELDS
    ensures var f := StatusFields(job, r, status, attempts, submittedAt, extra);
            (key in f <==> key in extra) && (key in extra ==> f[key] == extra[key])
  {
    assert EntryFields(job, r, submittedAt).Keys <= OWN_FIELDS;
  }

  lemma ProgressIsExtra(job: string, r: Request, status: Status, attempts: int, submittedAt: string, extra: Fields)
    ensures ProgressOf(StatusFields(job, r, status, attempts, submittedAt, extra)) == ProgressOf(extra)
  {
    ForeignFieldStays(job, r, status, attempts, submittedAt, extra, "started_at");
    ForeignFieldStays(job, r, status, attempts, submittedAt, extra, "finished_at");
    ForeignFieldStays(job, r, status, attempts, submittedAt, extra, "stream_id");
    ForeignFieldStays(job, r, status, attempts, submittedAt, extra, "error_summary");
    ForeignFieldStays(job, r, status, attempts, submittedAt, extra, "result_json");
  }

  lemma TextsReadBack(r: Request, status: Status)
    ensures KindText(r.kind) != "" && ParseKind(KindText(r.kind)) == Ok(r.kind)
    ensures FlagText(r.force) != "" && (FlagText(r.force) == "1" <==> r.force)
    ensures StatusText(status) != "" && ParseStatus(StatusText(status)) == Ok(status)
  {
    assert KindText(r.kind)[0] == 'e' || KindText(r.kind)[0] == 'b';
    assert FlagText(r.force)[0] == (if r.force then '1' else '0');
    assert |"QUEUED"| == 6 && |"RUNNING"| == 7 && |"RETRYING"| == 8 && |"SUCCEEDED"| == 9;
    assert "FAILED"[0] == 'F' && "QUEUED"[0] == 'Q';
  }

  // ---------- what the decoders accept ----------

  predicate Filled(f: Fields, key: string) {
    key in f && |f[key]| > 0
  }

  /** Texts of kinds and statuses are read exactly, in their own spelling. */
  lemma EnumTextsAreExact(s: string, k: Kind, status: Status)
    ensures ParseKind(s) == Ok(k) <==> s == KindText(k)
    ensures ParseStatus(s) == Ok(status) <==> s == StatusText(status)
    ensures ParseKind(s).Err? <==> s != KindText(EmbeddingReindex) && s != KindText(BatchNoteWrite)
    ensures ParseStatus(s).Err? <==> forall t :: s != StatusText(t)
  {
    TextsReadBack(Request(k, "", "", 0, false), status);
    if ParseStatus(s).Ok? {
      assert s == StatusText(ParseStatus(s).value);
    }
    forall t | s == StatusText(t) ensures ParseStatus(s).Ok? {
      TextsReadBack(Request(k, "", "", 0, false), t);
    }
  }

  /** A request is read exactly from fields that are all filled, of a known kind and with a number, each from its own field. */
  lemma RequestIsExact(f: Fields)
    ensures RequestOf(f).Ok? <==>
            && Filled(f, "kind") && ParseKind(f["kind"]).Ok? && Filled(f, "requested_by") && Filled(f, "source_id")
            && Filled(f, "limit") && ParseInt(f["limit"]).Some? && Filled(f, "force")
    ensures RequestOf(f).Ok? ==>
            var r := RequestOf(f).value;
            && ParseKind(f["kind"]) == Ok(r.kind) && r.requestedBy == f["requested_by"] && r.sourceId == f["source_id"]
            && ParseInt(f["limit"]) == Some(r.limit) && (r.force <==> f["force"] == "1")
  {
  }

  /** A status is read exactly from an empty hash, as nothing, and from one whose required fields all are there. */
  lemma SnapshotIsExact(f: Fields)
    ensures SnapshotOf(f) == Ok(None) <==> f == map[]
    ensures SnapshotOf(f).Ok? && SnapshotOf(f).value.Some? <==>
            && Filled(f, "job_id") && Filled(f, "status") && ParseStatus(f["status"]).Ok? && RequestOf(f).Ok?
            && Filled(f, "attempts") && ParseInt(f["attempts"]).Some? && Filled(f, "submitted_at")
    ensures SnapshotOf(f).Ok? && SnapshotOf(f).value.Some? ==>
            var s := SnapshotOf(f).value.value;
            && s.job == f["job_id"] && Ok(s.request) == RequestOf(f) && Ok(s.status) == ParseStatus(f["status"])
            && Some(s.attempts) == ParseInt(f["attempts"]) && s.submittedAt == f["submitted_at"] && s.progress == ProgressOf(f)
  {
    RequestIsExact(f);
  }

  /** A dead letter is read exactly when its required fields all are there, each from its own; the error text may be missing. */
  lemma LetterIsExact(entryId: string, f: Fields)
    ensures LetterOf(entryId, f).Ok? <==>
            && Filled(f, "job_id") && Filled(f, "kind") && ParseKind(f["kind"]).Ok?
            && Filled(f, "attempts") && ParseInt(f["attempts"]).Some? && Filled(f, "failed_at") && Filled(f, "source_stream_id")
    ensures LetterOf(entryId, f).Ok? ==>
            var l := LetterOf(entryId, f).value;
            && l.entryId == entryId && l.job == f["job_id"] && Ok(l.kind) == ParseKind(f["kind"])
            && Some(l.attempts) == ParseInt(f["attempts"]) && l.failedAt == f["failed_at"] && l.sourceStreamId == f["source_stream_id"]
            && l.errorSummary == if "error_summary" in f then Strip(f["error_summary"]) else ""
  {
  }

  /** A reply is a record exactly when it is a pair of an identifier and a hash of readable fields. */
  lemma RecordsAreExact(raw: Reply)
    ensures DecodeSourceRequest(raw) == Ok(None) <==> raw == Items([])
    ensures forall r :: DecodeSourceRequest(raw) == Ok(Some(r)) <==>
              && raw.Items? && |raw.items| > 0 && raw.items[0].Items? && |raw.items[0].items| == 2
              && FieldsOf(raw.items[0].items[1], STATUS_FIELDS).Ok?
              && RequestOf(FieldsOf(raw.items[0].items[1], STATUS_FIELDS).value) == Ok(r)
    ensures forall l :: DecodeLetter(raw) == Ok(l) <==>
              && raw.Items? && |raw.items| == 2 && AsText(raw.items[0]).Ok? && FieldsOf(raw.items[1], LETTER_FIELDS).Ok?
              && LetterOf(AsText(raw.items[0]).value, FieldsOf(raw.items[1], LETTER_FIELDS).value) == Ok(l)
  {
  }

  /** A hash that only counts attempts, as HINCRBY leaves it after the key expired, is an error. */
  lemma CounterAloneIsUnreadable(attempts: int)
    ensures SnapshotOf(map["attempts" := IntText(attempts)]) == Err(QueueUnavailable)
  {
    assert "attempts" in map["attempts" := IntText(attempts)];
  }
}
