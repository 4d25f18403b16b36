/**
 Whole lives of a checkpoint directory: saves that return, raise or are cut short by a power
 loss, in any order, and the store object that loads what they leave.
 */
module CheckpointRuns {
  import opened CheckpointDisk
  import opened CheckpointStore
  import opened Finite
  import opened Wrappers

  datatype Event =
    | Saved(plan: Plan)
    | Raised(plan: Plan, failing: nat, partial: Content)
    | Lost(plan: Plan, calls: nat, crash: Crash)
    | PowerLoss(crash: Crash)
    | WrittenBack

  predicate IsSave(e: Event) {
    e.Saved? || e.Raised? || e.Lost?
  }

  /** Temporary names are chosen among those not taken. */
  predicate Enabled(d: Disk, e: Event) {
    && (IsSave(e) ==> e.plan.Tmp() !in Entries(d))
    && (e.Raised? ==> 1 <= e.failing <= CALLS)
    && (e.Lost? ==> e.calls <= CALLS)
  }

  function After(d: Disk, e: Event): Disk
    requires Enabled(d, e)
  {
    match e
    case Saved(p) => SaveOutcome(d, p, CALLS + 1, Garbage("")).0
    case Raised(p, failing, partial) => SaveOutcome(d, p, failing, partial).0
    case Lost(p, calls, c) => AfterCrash(Stage(d, p, calls), c)
    case PowerLoss(c) => AfterCrash(d, c)
    case WrittenBack => Flush(d)
  }

  /** A directory without checkpoints, there already or not. */
  predicate Blank(d: Disk) {
    d == Disk(d.present, d.present, map[], [], [])
  }

  ghost predicate IsRun(disks: seq<Disk>, events: seq<Event>) {
    && |disks| == |events| + 1
    && Blank(disks[0])
    && forall i :: 0 <= i < |events| ==> Enabled(disks[i], events[i]) && disks[i + 1] == After(disks[i], events[i])
  }

  // ---------- soundness over runs ----------

  function Passed(e: Event): History {
    if IsSave(e) then {(e.plan.Dst(), e.plan.content)} else {}
  }

  function AllPassed(events: seq<Event>): History {
    if events == [] then {} else AllPassed(events[..|events| - 1]) + Passed(events[|events| - 1])
  }

  lemma BeganSound(d: Disk, h: History, p: Plan, inode: Inode)
    requires CanSave(d, h, p)
    ensures Sound(Began(d, p, inode), h)
  {
    ExtendsKeepsSound(d.inodes, h, d.inodes + [inode], h, d.durable, d.pending);
    NamesDiffer(p, p.key);
  }

  lemma StageSound(d: Disk, h: History, p: Plan, n: nat)
    requires CanSave(d, h, p) && n <= CALLS
    ensures Sound(Stage(d, p, n), h + {(p.Dst(), p.content)})
  {
    var h' := h + {(p.Dst(), p.content)};
    NamesDiffer(p, p.key);
    ExtendsKeepsSound(d.inodes, h, d.inodes, h', d.durable, d.pending);
    if 2 <= n <= 4 {
      BeganSound(d, h', p, Inode(if n == 2 then Garbage("") else p.content, n == 4));
    } else if n == 5 {
      BeganSound(d, h', p, Inode(p.content, true));
    } else if n >= 6 {
      EntriesSound(d, h');
    }
  }

  lemma CrashSound(d: Disk, h: History, c: Crash)
    requires Sound(d, h)
    ensures Sound(AfterCrash(d, c), h)
  {
    SurviveSound(d.inodes, h, d.durable, d.pending, c.kept);
    ExtendsKeepsSound(d.inodes, h, Recovered(d.inodes, c), h, Survive(d.durable, d.pending, c.kept), []);
  }

  lemma WithdrawnSound(d: Disk, h: History, p: Plan, inode: Inode)
    requires CanSave(d, h, p)
    ensures Sound(Unlink(Began(d, p, inode), p.Tmp()), h)
  {
    BeganSound(d, h, p, inode);
    NamesDiffer(p, p.key);
  }

  lemma RaisedSound(d: Disk, h: History, p: Plan, failing: nat, partial: Content)
    requires CanSave(d, h, p) && 1 <= failing <= CALLS + 1
    ensures Sound(SaveOutcome(d, p, failing, partial).0, h + {(p.Dst(), p.content)})
  {
    if 3 <= failing <= 5 {
      var h' := h + {(p.Dst(), p.content)};
      ExtendsKeepsSound(d.inodes, h, d.inodes, h', d.durable, d.pending);
      WithdrawnSound(d, h', p, SavedPart(p, failing, partial));
    } else {
      StageSound(d, h, p, failing - 1);
    }
  }

  lemma FlushSound(d: Disk, h: History)
    requires Sound(d, h)
    ensures Sound(Flush(d), h)
  {
    EntriesSound(d, h);
    ExtendsKeepsSound(d.inodes, h, Flush(d).inodes, h, Entries(d), []);
  }

  lemma EventSound(d: Disk, h: History, e: Event)
    requires Sound(d, h) && Enabled(d, e)
    ensures Sound(After(d, e), h + Passed(e))
  {
    match e
    case Saved(p) => RaisedSound(d, h, p, CALLS + 1, Garbage(""));
    case Raised(p, failing, partial) => RaisedSound(d, h, p, failing, partial);
    case Lost(p, calls, c) =>
      StageSound(d, h, p, calls);
      CrashSound(Stage(d, p, calls), h + Passed(e), c);
    case PowerLoss(c) =>
      CrashSound(d, h, c);
      assert h + Passed(e) == h;
    case WrittenBack =>
      FlushSound(d, h);
      assert h + Passed(e) == h;
  }

  lemma {:induction false} RunSound(disks: seq<Disk>, events: seq<Event>, k: nat)
    requires IsRun(disks, events) && k < |disks|
    ensures Sound(disks[k], AllPassed(events[..k]))
  {
    if k > 0 {
      RunSound(disks, events, k - 1);
      EventSound(disks[k - 1], AllPassed(events[..k - 1]), events[k - 1]);
      assert events[..k][..k - 1] == events[..k - 1];
    }
  }

  lemma {:induction false} PassedByAnEvent(events: seq<Event>, key: string, content: Content)
    requires (Path(key), content) in AllPassed(events)
    ensures exists j :: 0 <= j < |events| && IsSave(events[j]) && events[j].plan.key == key && events[j].plan.content == content
  {
    var last := |events| - 1;
    if (Path(key), content) in Passed(events[last]) {
      NamesDiffer(events[last].plan, key);
    } else {
      PassedByAnEvent(events[..last], key, content);
    }
  }

  /**
   Whatever saves, errors and power losses came before: a key loads nothing, or a whole record
   that some earlier `save` of this very key was given.
   */
  lemma ReadsWereSaved(disks: seq<Disk>, events: seq<Event>, k: nat, key: string)
    requires IsRun(disks, events) && k < |disks| && Read(disks[k], key).Some?
    ensures exists j :: 0 <= j < k && IsSave(events[j]) && events[j].plan.key == key && Read(disks[k], key) == Some(events[j].plan.content)
  {
    RunSound(disks, events, k);
    EntriesSound(disks[k], AllPassed(events[..k]));
    var content := Read(disks[k], key).value;
    assert IsDestination(Path(key));
    assert EntrySound(disks[k].inodes, AllPassed(events[..k]), Path(key), Entries(disks[k])[Path(key)]);
    PassedByAnEvent(events[..k], key, content);
    var j :| 0 <= j < |events[..k]| && IsSave(events[..k][j]) && events[..k][j].plan.key == key && events[..k][j].plan.content == content;
    assert events[..k][j] == events[j];
  }

  // ---------- a returned save is kept ----------

  /** The record is on the disk, and no change waiting for a directory sync concerns it. */
  predicate Pinned(d: Disk, name: string, content: Content) {
    && d.present && d.anchored
    && name in d.durable && d.durable[name] < |d.inodes|
    && d.inodes[d.durable[name]] == Inode(content, true)
    && Untouched(d.pending, name)
  }

  lemma PinnedEntry(d: Disk, name: string, content: Content, kept: set<nat>)
    requires Pinned(d, name, content)
    ensures name in Survive(d.durable, d.pending, kept) && Survive(d.durable, d.pending, kept)[name] == d.durable[name]
  {
    UntouchedSurvives(d.durable, d.pending, kept, name);
  }

  lemma PinnedReads(d: Disk, key: string, content: Content)
    requires Pinned(d, Path(key), content)
    ensures Read(d, key) == Some(content)
  {
    PinnedEntry(d, Path(key), content, Range(0, |d.pending|));
  }

  lemma BeganPinned(d: Disk, p: Plan, inode: Inode, key: string, content: Content)
    requires Pinned(d, Path(key), content)
    ensures Pinned(Began(d, p, inode), Path(key), content)
  {
    NamesDiffer(p, key);
  }

  lemma StagePinned(d: Disk, p: Plan, n: nat, key: string, content: Content)
    requires Pinned(d, Path(key), content) && p.key != key && n <= CALLS
    ensures Pinned(Stage(d, p, n), Path(key), content)
  {
    NamesDiffer(p, key);
    if 2 <= n <= 5 {
      BeganPinned(d, p, Inode(if n == 2 then Garbage("") else p.content, n >= 4), key, content);
    } else if n >= 6 {
      PinnedEntry(d, Path(key), content, Range(0, |d.pending|));
    }
  }

  lemma OutcomePinned(d: Disk, p: Plan, failing: nat, partial: Content, key: string, content: Content)
    requires Pinned(d, Path(key), content) && p.key != key && 1 <= failing <= CALLS + 1
    ensures Pinned(SaveOutcome(d, p, failing, partial).0, Path(key), content)
  {
    if 3 <= failing <= 5 {
      NamesDiffer(p, key);
      BeganPinned(d, p, SavedPart(p, failing, partial), key, content);
    } else {
      StagePinned(d, p, failing - 1, key, content);
    }
  }

  lemma CrashPinned(d: Disk, c: Crash, key: string, content: Content)
    requires Pinned(d, Path(key), content)
    ensures Pinned(AfterCrash(d, c), Path(key), content)
  {
    PinnedEntry(d, Path(key), content, c.kept);
  }

  lemma EventPinned(d: Disk, e: Event, key: string, content: Content)
    requires Pinned(d, Path(key), content) && Enabled(d, e) && (IsSave(e) ==> e.plan.key != key)
    ensures Pinned(After(d, e), Path(key), content)
  {
    match e
    case Saved(p) => OutcomePinned(d, p, CALLS + 1, Garbage(""), key, content);
    case Raised(p, failing, partial) => OutcomePinned(d, p, failing, partial, key, content);
    case Lost(p, calls, c) =>
      StagePinned(d, p, calls, key, content);
      CrashPinned(Stage(d, p, calls), c, key, content);
    case PowerLoss(c) => CrashPinned(d, c, key, content);
    case WrittenBack => PinnedEntry(d, Path(key), content, Range(0, |d.pending|));
  }

  lemma {:induction false} StaysPinned(disks: seq<Disk>, events: seq<Event>, i: nat, j: nat, key: string, content: Content)
    requires IsRun(disks, events) && i <= j < |disks| && Pinned(disks[i], Path(key), content)
    requires forall k :: i <= k < j && IsSave(events[k]) ==> events[k].plan.key != key
    ensures Pinned(disks[j], Path(key), content)
  {
    if i < j {
      StaysPinned(disks, events, i, j - 1, key, content);
      EventPinned(disks[j - 1], events[j - 1], key, content);
    }
  }

  /**
   Once `save` returned in an anchored directory, its key loads that record after any number
   of later saves of other keys, errors and power losses, until the key is saved again.
   */
  lemma SavedRecordStays(disks: seq<Disk>, events: seq<Event>, i: nat, j: nat)
    requires IsRun(disks, events) && i < j < |disks| && events[i].Saved? && disks[i].anchored
    requires forall k :: i < k < j && IsSave(events[k]) ==> events[k].plan.key != events[i].plan.key
    ensures Read(disks[j], events[i].plan.key) == Some(events[i].plan.content)
  {
    var p := events[i].plan;
    assert disks[i + 1] == Published(disks[i], p);
    assert Pinned(disks[i + 1], p.Dst(), p.content);
    StaysPinned(disks, events, i + 1, j, p.key, p.content);
    PinnedReads(disks[j], p.key, p.content);
  }

  // ---------- loading ----------

  datatype LoadError = RecoveryRequired

  type Fields = map<string, Value>

  /** Only a missing file means that there is no checkpoint. */
  function Load(content: Option<Content>): Result<Option<Fields>, LoadError> {
    match content
    case None => Ok(None)
    case Some(Encoded(Object(fields))) => Ok(Some(fields))
    case Some(_) => Err(RecoveryRequired)
  }

  /** The text before the first colon. */
  function Kind(key: string): string {
    if key == "" || key[0] == ':' then "" else [key[0]] + Kind(key[1..])
  }

  datatype Adapter<!T> = Adapter(dump: T -> Value, validate: Fields -> Option<T>) {
    /** Strict validation gives back what was dumped. */
    ghost predicate RoundTrips(record: T) {
      dump(record).Object? ==> validate(dump(record).fields) == Some(record)
    }
  }

  predicate IsEnvelope(fields: Fields) {
    && fields.Keys == {"kind", "record"}
    && fields["kind"].Text? && fields["kind"].text != ""
    && fields["record"].Object?
  }

  function LoadTyped<T>(key: string, content: Option<Content>, adapter: Adapter<T>): Result<Option<T>, LoadError> {
    match content
    case None => Ok(None)
    case Some(Encoded(Object(fields))) =>
      if !IsEnvelope(fields) || fields["kind"].text != Kind(key) then Err(RecoveryRequired)
      else
        var record := adapter.validate(fields["record"].fields);
        if record.None? then Err(RecoveryRequired) else Ok(record)
    case Some(_) => Err(RecoveryRequired)
  }

  datatype EncodeError = NotAnObject | EmptyKind

  function EncodeTyped<T>(key: string, record: T, adapter: Adapter<T>): Result<Content, EncodeError> {
    var encoded := adapter.dump(record);
    if !encoded.Object? then Err(NotAnObject)
    else if Kind(key) == "" then Err(EmptyKind)
    else Ok(Encoded(Object(map["kind" := Text(Kind(key)), "record" := encoded])))
  }

  lemma {:induction false} KindMeaning(key: string) returns (rest: string)
    ensures key == Kind(key) + rest && ':' !in Kind(key) && (rest == "" || rest[0] == ':')
  {
    if key == "" || key[0] == ':' {
      rest := key;
    } else {
      rest := KindMeaning(key[1..]);
    }
  }

  /**
   A typed load gives nothing exactly for a missing file, and a record exactly for an object of the
   two fields, of the key's own nonempty kind, whose record the adapter accepts; then it is what the
   adapter made of it. Everything else needs recovery.
   */
  lemma LoadTypedIsExact<T>(key: string, content: Option<Content>, adapter: Adapter<T>)
    ensures LoadTyped(key, content, adapter) == Ok(None) <==> content == None
    ensures forall record :: LoadTyped(key, content, adapter) == Ok(Some(record)) <==>
              && content.Some? && content.value.Encoded? && content.value.value.Object?
              && var f := content.value.value.fields;
                 && "kind" in f && "record" in f && |f.Keys - {"kind", "record"}| == 0
                 && f["kind"] == Text(Kind(key)) && |Kind(key)| > 0 && f["record"].Object?
                 && adapter.validate(f["record"].fields) == Some(record)
    ensures Load(content) == Ok(None) <==> content == None
    ensures forall fields :: Load(content) == Ok(Some(fields)) <==> content == Some(Encoded(Object(fields)))
  {
    if content.Some? && content.value.Encoded? && content.value.value.Object? {
      var f := content.value.value.fields;
      assert f.Keys == {"kind", "record"} <==> "kind" in f && "record" in f && |f.Keys - {"kind", "record"}| == 0;
    }
  }

  /** A record is wrapped exactly when it dumps to an object and the key has a kind. */
  lemma EncodeIsExact<T>(key: string, record: T, adapter: Adapter<T>)
    ensures EncodeTyped(key, record, adapter) == Err(NotAnObject) <==> !adapter.dump(record).Object?
    ensures EncodeTyped(key, record, adapter) == Err(EmptyKind) <==> adapter.dump(record).Object? && |Kind(key)| == 0
    ensures EncodeTyped(key, record, adapter).Ok? ==>
              var c := EncodeTyped(key, record, adapter).value;
              && c.Encoded? && c.value.Object? && c.value.fields.Keys == {"kind", "record"}
              && c.value.fields["kind"] == Text(Kind(key)) && c.value.fields["record"] == adapter.dump(record)
  {
  }

  /**
   What is saved typed under one key loads typed as the same record under every key of the
   same kind, and as an error that asks for recovery under every other key.
   */
  lemma TypedRoundTrip<T>(key: string, record: T, adapter: Adapter<T>, other: string)
    requires adapter.RoundTrips(record) && EncodeTyped(key, record, adapter).Ok?
    ensures LoadTyped(other, Some(EncodeTyped(key, record, adapter).value), adapter) ==
            if Kind(other) == Kind(key) then Ok(Some(record)) else Err(RecoveryRequired)
  {
    var fields := EncodeTyped(key, record, adapter).value.value.fields;
    assert fields.Keys == {"kind", "record"};
  }

  // ---------- the store object ----------

  class FileSystem {
    var disk: Disk

    constructor (disk: Disk)
      ensures this.disk == disk
    {
      this.disk := disk;
    }
  }

  /** The calls from the write on, and what the temporary file holds where one of them raises. */
  lemma GuardedCalls(d: Disk, h: History, p: Plan, partial: Content)
    requires CanSave(d, h, p)
    ensures var ino := |d.inodes|;
            && Write(Stage(d, p, 2), ino, partial) == Began(d, p, SavedPart(p, 3, partial))
            && Write(Stage(d, p, 2), ino, p.content) == Stage(d, p, 3) == Began(d, p, SavedPart(p, 4, partial))
            && Fsync(Stage(d, p, 3), ino) == Stage(d, p, 4) == Began(d, p, SavedPart(p, 5, partial))
            && Rename(Stage(d, p, 4), p.Tmp(), p.Dst()) == Stage(d, p, 5)
            && FsyncDir(Stage(d, p, 5)) == Stage(d, p, 6)
  {
    CallsMakeStages(d, h, p);
    SavedPartIsExact(p, partial);
    assert Write(Stage(d, p, 2), |d.inodes|, partial) == Began(d, p, Inode(partial, false));
    assert Write(Stage(d, p, 2), |d.inodes|, p.content) == Began(d, p, Inode(p.content, false));
  }

  class ObsidianReportBundleRunStore {
    const files: FileSystem

    constructor (files: FileSystem)
      ensures this.files == files
    {
      this.files := files;
    }

    /** The guarded part of a save: write, sync, rename, sync the directory. */
    method WriteAndReplace(p: Plan, descriptor: nat, failing: nat, partial: Content, ghost d: Disk, ghost h: History) returns (ok: bool)
      requires CanSave(d, h, p) && descriptor == |d.inodes| && 3 <= failing <= CALLS + 1 && files.disk == Stage(d, p, 2)
      modifies files
      ensures ok <==> failing >= 7
      ensures files.disk == if failing <= 5 then Began(d, p, SavedPart(p, failing, partial)) else if failing == 6 then Stage(d, p, 5) else Stage(d, p, 6)
    {
      GuardedCalls(d, h, p, partial);
      if failing == 3 {
        files.disk := Write(files.disk, descriptor, partial);
        return false;
      }
      files.disk := Write(files.disk, descriptor, p.content);
      if failing == 4 {
        return false;
      }
      files.disk := Fsync(files.disk, descriptor);
      if failing == 5 {
        return false;
      }
      files.disk := Rename(files.disk, p.Tmp(), p.Dst());
      if failing == 6 {
        return false;
      }
      files.disk := FsyncDir(files.disk);
      return true;
    }

    /** Call number `failing` raises, or none. Whatever happens, the temporary file is removed at the end. */
    method Save(p: Plan, failing: nat, partial: Content, ghost h: History) returns (ok: bool)
      requires CanSave(files.disk, h, p) && 1 <= failing <= CALLS + 1
      modifies files
      ensures (files.disk, ok) == SaveOutcome(old(files.disk), p, failing, partial)
    {
      ghost var d := files.disk;
      CallsMakeStages(d, h, p);
      if failing == 1 {
        return false;
      }
      files.disk := Mkdir(files.disk);
      if failing == 2 {
        return false;
      }
      var descriptor := |files.disk.inodes|;
      files.disk := Create(files.disk, p.Tmp());
      ok := WriteAndReplace(p, descriptor, failing, partial, d, h);
      if failing == 7 {
        return false;
      }
      files.disk := Unlink(files.disk, p.Tmp());
    }

    /** A file that is there but cannot be read needs recovery; only a missing one reads as none. */
    method ReadCheckpoint(key: string, unreadable: bool) returns (r: Result<Option<Content>, LoadError>)
      ensures r == if unreadable && Read(files.disk, key).Some? then Err(RecoveryRequired) else Ok(Read(files.disk, key))
    {
      var content := Read(files.disk, key);
      if content.Some? && unreadable {
        return Err(RecoveryRequired);
      }
      return Ok(content);
    }

    method LoadTypedRecord<T>(key: string, unreadable: bool, adapter: Adapter<T>) returns (r: Result<Option<T>, LoadError>)
      ensures r == Ok(None) <==> Read(files.disk, key) == None
      ensures !unreadable ==> r == LoadTyped(key, Read(files.disk, key), adapter)
    {
      var content := ReadCheckpoint(key, unreadable);
      if content.Err? {
        return Err(content.error);
      }
      return LoadTyped(key, content.value, adapter);
    }

    /** Nothing is written when the record cannot be wrapped. */
    method SaveTyped<T>(key: string, random: string, record: T, adapter: Adapter<T>, failing: nat, partial: Content, ghost h: History)
      returns (r: Result<bool, EncodeError>)
      requires CanSave(files.disk, h, Plan(key, random, Garbage(""))) && 1 <= failing <= CALLS + 1 && adapter.RoundTrips(record)
      modifies files
      ensures r.Err? <==> EncodeTyped(key, record, adapter).Err?
      ensures r.Err? ==> files.disk == old(files.disk)
      ensures r == Ok(true) ==> LoadTyped(key, Read(files.disk, key), adapter) == Ok(Some(record))
      ensures r == Ok(false) && failing <= 5 ==> Read(files.disk, key) == old(Read(files.disk, key))
    {
      var content := EncodeTyped(key, record, adapter);
      if content.Err? {
        return Err(content.error);
      }
      var p := Plan(key, random, content.value);
      ghost var d := files.disk;
      var ok := Save(p, failing, partial, h);
      RaisedSaveIsWholeOrNothing(d, h, p, failing, partial, key);
      TypedRoundTrip(key, record, adapter, key);
      return Ok(ok);
    }
  }
}
