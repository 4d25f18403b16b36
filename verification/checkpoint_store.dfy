/**
 Saving one checkpoint, system call by system call, and what a power loss or an error between
 any two of the calls leaves to be loaded.

 The key stands for its digest: the digest is taken to be injective.
 */
module CheckpointStore {
  import opened CheckpointDisk
  import opened Finite
  import opened Wrappers

  function Path(key: string): string {
    key + ".json"
  }

  predicate IsDestination(name: string) {
    |name| >= 5 && name[|name| - 5..] == ".json"
  }

  /** One call of `save`, with the random part of its temporary name. */
  datatype Plan = Plan(key: string, random: string, content: Content) {
    function Dst(): string {
      Path(key)
    }

    function Tmp(): string {
      "." + key + "." + random + ".tmp"
    }
  }

  lemma NamesDiffer(p: Plan, key: string)
    ensures IsDestination(Path(key)) && !IsDestination(p.Tmp()) && p.Tmp() != Path(key)
    ensures p.Dst() == Path(key) ==> p.key == key
  {
    var tail := p.Tmp()[|p.Tmp()| - 5..];
    assert tail[4] == 'p' && ".json"[4] == 'n';
    if p.Dst() == Path(key) {
      assert |p.key| == |key|;
      assert p.key == Path(p.key)[..|p.key|] == Path(key)[..|key|] == key;
    }
  }

  function Read(d: Disk, key: string): Option<Content> {
    ReadFile(d, Path(key))
  }

  // ---------- the calls of `save` ----------

  const CALLS := 7

  function Began(d: Disk, p: Plan, inode: Inode): Disk {
    Disk(true, d.anchored, d.durable, d.pending + [SetEntry(p.Tmp(), |d.inodes|)], d.inodes + [inode])
  }

  function Renamed(d: Disk, p: Plan): Disk {
    var b := Began(d, p, Inode(p.content, true));
    b.(pending := b.pending + [Move(p.Tmp(), p.Dst(), |d.inodes|)])
  }

  /** All earlier entries, and the destination naming the new file. */
  function Published(d: Disk, p: Plan): Disk {
    Disk(true, d.anchored, (Entries(d) - {p.Tmp()})[p.Dst() := |d.inodes|], [], d.inodes + [Inode(p.content, true)])
  }

  /** The disk after the first `n` calls; `CallsMakeStages` takes it from each to the next. */
  function Stage(d: Disk, p: Plan, n: nat): Disk
    requires n <= CALLS
  {
    if n == 0 then d
    else if n == 1 then d.(present := true)
    else if n == 2 then Began(d, p, Inode(Garbage(""), false))
    else if n <= 4 then Began(d, p, Inode(p.content, n == 4))
    else if n == 5 then Renamed(d, p)
    else Published(d, p)
  }

  /** The temporary file when the write, its sync or the rename raises. */
  function SavedPart(p: Plan, failing: nat, partial: Content): Inode {
    if failing == 3 then Inode(partial, false) else Inode(p.content, failing == 5)
  }

  /** A failed write leaves what it wrote, a failed sync the unsynced record, a failed rename the synced one. */
  lemma SavedPartIsExact(p: Plan, partial: Content)
    ensures SavedPart(p, 3, partial) == Inode(partial, false)
    ensures SavedPart(p, 4, partial) == Inode(p.content, false)
    ensures SavedPart(p, 5, partial) == Inode(p.content, true)
  {
  }

  /** A save during which call number `failing` raises; 8 says that none does. A failed write may have written something. */
  function SaveOutcome(d: Disk, p: Plan, failing: nat, partial: Content): (Disk, bool)
    requires 1 <= failing <= CALLS + 1
  {
    if 3 <= failing <= 5 then (Unlink(Began(d, p, SavedPart(p, failing, partial)), p.Tmp()), false)
    else (Stage(d, p, failing - 1), failing == CALLS + 1)
  }

  // ---------- sound disks ----------

  type History = set<(string, Content)>

  /** A destination names a synced file whose content was passed to `save` for that destination. */
  predicate EntrySound(inodes: seq<Inode>, h: History, name: string, ino: nat) {
    ino < |inodes| && (IsDestination(name) ==> inodes[ino].synced && (name, inodes[ino].content) in h)
  }

  predicate OpSound(inodes: seq<Inode>, h: History, op: DirOp) {
    match op
    case SetEntry(name, ino) => EntrySound(inodes, h, name, ino)
    case Move(from, to, ino) => !IsDestination(from) && EntrySound(inodes, h, to, ino)
    case Drop(name) => !IsDestination(name)
  }

  predicate DirSound(inodes: seq<Inode>, h: History, dir: Dir) {
    forall name :: name in dir ==> EntrySound(inodes, h, name, dir[name])
  }

  predicate OpsSound(inodes: seq<Inode>, h: History, ops: seq<DirOp>) {
    forall i :: 0 <= i < |ops| ==> OpSound(inodes, h, ops[i])
  }

  predicate Sound(d: Disk, h: History) {
    && DirSound(d.inodes, h, d.durable)
    && OpsSound(d.inodes, h, d.pending)
    && (!d.present ==> !d.anchored && d.durable == map[] && d.pending == [])
  }

  /** Synced files stay what they are and history only grows. */
  predicate Extends(inodes: seq<Inode>, h: History, inodes': seq<Inode>, h': History) {
    && |inodes| <= |inodes'|
    && (forall i :: 0 <= i < |inodes| && inodes[i].synced ==> inodes'[i] == inodes[i])
    && h <= h'
  }

  lemma ExtendsKeepsSound(inodes: seq<Inode>, h: History, inodes': seq<Inode>, h': History, dir: Dir, ops: seq<DirOp>)
    requires Extends(inodes, h, inodes', h') && DirSound(inodes, h, dir) && OpsSound(inodes, h, ops)
    ensures DirSound(inodes', h', dir) && OpsSound(inodes', h', ops)
  {
    forall i | 0 <= i < |ops| ensures OpSound(inodes', h', ops[i]) {
      assert OpSound(inodes, h, ops[i]);
    }
  }

  lemma {:induction false} SurviveSound(inodes: seq<Inode>, h: History, base: Dir, ops: seq<DirOp>, kept: set<nat>)
    requires DirSound(inodes, h, base) && OpsSound(inodes, h, ops)
    ensures DirSound(inodes, h, Survive(base, ops, kept))
  {
    if ops != [] {
      var last := |ops| - 1;
      SurviveSound(inodes, h, base, ops[..last], kept);
      assert OpSound(inodes, h, ops[last]);
    }
  }

  lemma EntriesSound(d: Disk, h: History)
    requires Sound(d, h)
    ensures DirSound(d.inodes, h, Entries(d))
  {
    SurviveSound(d.inodes, h, d.durable, d.pending, Range(0, |d.pending|));
  }

  predicate CanSave(d: Disk, h: History, p: Plan) {
    Sound(d, h) && p.Tmp() !in Entries(d)
  }

  lemma BeganEntries(d: Disk, p: Plan, inode: Inode)
    ensures Entries(Began(d, p, inode)) == Entries(d)[p.Tmp() := |d.inodes|]
  {
    EntriesAppend(d, SetEntry(p.Tmp(), |d.inodes|));
  }

  lemma RenamedEntries(d: Disk, p: Plan)
    requires p.Tmp() !in Entries(d)
    ensures Entries(Renamed(d, p)) == Published(d, p).durable
  {
    var b := Began(d, p, Inode(p.content, true));
    BeganEntries(d, p, Inode(p.content, true));
    EntriesAppend(b, Move(p.Tmp(), p.Dst(), |d.inodes|));
    assert Entries(b) - {p.Tmp()} == Entries(d) - {p.Tmp()};
  }

  /** Each system call takes one stage to the next; the last one finds no temporary file to remove. */
  lemma CallsMakeStages(d: Disk, h: History, p: Plan)
    requires CanSave(d, h, p)
    ensures Mkdir(d) == Stage(d, p, 1)
    ensures Create(Stage(d, p, 1), p.Tmp()) == Stage(d, p, 2)
    ensures forall content :: Write(Stage(d, p, 2), |d.inodes|, content) == Began(d, p, Inode(content, false))
    ensures Fsync(Stage(d, p, 3), |d.inodes|) == Stage(d, p, 4)
    ensures Rename(Stage(d, p, 4), p.Tmp(), p.Dst()) == Stage(d, p, 5)
    ensures FsyncDir(Stage(d, p, 5)) == Stage(d, p, 6)
    ensures Unlink(Stage(d, p, 5), p.Tmp()) == Stage(d, p, 5)
    ensures Unlink(Stage(d, p, 6), p.Tmp()) == Stage(d, p, 7)
  {
    BeganEntries(d, p, Inode(p.content, true));
    RenamedEntries(d, p);
    NamesDiffer(p, p.key);
  }

  // ---------- crash atomicity ----------

  predicate RootSurvives(d: Disk, c: Crash) {
    d.present && (d.anchored || c.rootKept)
  }

  /** What a directory kept by a power loss serves for a name. */
  function Served(dir: Dir, inodes: seq<Inode>, name: string): Option<Content> {
    if name in dir && dir[name] < |inodes| then Some(inodes[dir[name]].content) else None
  }

  /** One more file and entries for other names do not change what a destination serves. */
  lemma ServedStays(d: Disk, h: History, c: Crash, dir: Dir, inode: Inode, key: string)
    requires Sound(d, h)
    requires var before := Survive(d.durable, d.pending, c.kept);
             (Path(key) in dir <==> Path(key) in before) && (Path(key) in before ==> dir[Path(key)] == before[Path(key)])
    ensures Served(dir, Recovered(d.inodes + [inode], c), Path(key)) ==
            Served(Survive(d.durable, d.pending, c.kept), Recovered(d.inodes, c), Path(key))
  {
    SurviveSound(d.inodes, h, d.durable, d.pending, c.kept);
    var before := Survive(d.durable, d.pending, c.kept);
    if Path(key) in before {
      assert IsDestination(Path(key));
      assert EntrySound(d.inodes, h, Path(key), before[Path(key)]);
    }
  }

  /** Before the rename a power loss is as if `save` had not begun. */
  lemma CrashBeforeRename(d: Disk, h: History, p: Plan, inode: Inode, c: Crash, key: string)
    requires CanSave(d, h, p)
    ensures Read(AfterCrash(Began(d, p, inode), c), key) == Read(AfterCrash(d, c), key)
  {
    var b := Began(d, p, inode);
    NamesDiffer(p, key);
    SurviveAppend(d.durable, d.pending, SetEntry(p.Tmp(), |d.inodes|), c.kept);
    ServedStays(d, h, c, Survive(b.durable, b.pending, c.kept), inode, key);
  }

  lemma CrashAfterRename(d: Disk, h: History, p: Plan, c: Crash, key: string)
    requires CanSave(d, h, p)
    ensures var after := Read(AfterCrash(Renamed(d, p), c), key);
            after == Read(AfterCrash(d, c), key) || (key == p.key && after == Some(p.content))
  {
    var b, r := Began(d, p, Inode(p.content, true)), Renamed(d, p);
    NamesDiffer(p, key);
    CrashBeforeRename(d, h, p, Inode(p.content, true), c, key);
    SurviveAppend(b.durable, b.pending, Move(p.Tmp(), p.Dst(), |d.inodes|), c.kept);
  }

  lemma CrashAfterSync(d: Disk, h: History, p: Plan, c: Crash, key: string)
    requires CanSave(d, h, p)
    ensures Read(AfterCrash(Published(d, p), c), key) ==
            if !RootSurvives(Published(d, p), c) then None
            else if key == p.key then Some(p.content)
            else Read(d, key)
  {
    var pub := Published(d, p);
    NamesDiffer(p, key);
    EntriesSound(d, h);
    if Path(key) in Entries(d) {
      assert EntrySound(d.inodes, h, Path(key), Entries(d)[Path(key)]);
    }
  }

  /** With every pending change kept, a power loss serves what running programs see. */
  lemma KeepingAllServesAll(d: Disk, h: History, c: Crash, key: string)
    requires Sound(d, h) && c.kept == Range(0, |d.pending|)
    ensures Read(AfterCrash(d, c), key) == if RootSurvives(d, c) then Read(d, key) else None
  {
    EntriesSound(d, h);
    if Path(key) in Entries(d) {
      assert IsDestination(Path(key));
      assert EntrySound(d.inodes, h, Path(key), Entries(d)[Path(key)]);
    }
  }

  /**
   A power loss after any number of the calls of `save` leaves a disk on which every key loads
   what one and the same power loss before `save` would have left, except that the saved key
   may load the new record instead. Nothing torn or empty is ever loaded.
   */
  lemma SaveIsCrashAtomic(d: Disk, h: History, p: Plan, n: nat, c: Crash) returns (c0: Crash)
    requires CanSave(d, h, p) && n <= CALLS
    ensures forall key :: key != p.key ==> Read(AfterCrash(Stage(d, p, n), c), key) == Read(AfterCrash(d, c0), key)
    ensures Read(AfterCrash(Stage(d, p, n), c), p.key) in {Read(AfterCrash(d, c0), p.key), Some(p.content)}
  {
    c0 := if n <= 5 then c else c.(kept := Range(0, |d.pending|));
    forall key
      ensures var after := Read(AfterCrash(Stage(d, p, n), c), key);
              after == Read(AfterCrash(d, c0), key) || (key == p.key && after == Some(p.content))
    {
      StageCrash(d, h, p, n, c, c0, key);
    }
  }

  /**
   In an anchored directory with nothing waiting for a sync: after a power loss during `save`
   the key loads exactly its old or its new record, and every other key what it did.
   */
  lemma SettledSaveIsOldOrNew(d: Disk, h: History, p: Plan, n: nat, c: Crash, key: string)
    requires CanSave(d, h, p) && n <= CALLS && d.present && d.anchored && d.pending == []
    ensures var after := Read(AfterCrash(Stage(d, p, n), c), key);
            after == Read(d, key) || (key == p.key && after == Some(p.content))
    ensures n <= 4 ==> Read(AfterCrash(Stage(d, p, n), c), key) == Read(d, key)
    ensures n >= 6 && key == p.key ==> Read(AfterCrash(Stage(d, p, n), c), key) == Some(p.content)
  {
    var c0 := c.(kept := Range(0, |d.pending|));
    KeepingAllServesAll(d, h, c0, key);
    assert AfterCrash(d, c) == AfterCrash(d, c0);
    if 2 <= n <= 4 {
      CrashBeforeRename(d, h, p, Inode(if n == 2 then Garbage("") else p.content, n == 4), c, key);
    } else if n == 5 {
      CrashAfterRename(d, h, p, c, key);
    } else if n >= 6 {
      CrashAfterSync(d, h, p, c, key);
    }
  }

  lemma StageCrash(d: Disk, h: History, p: Plan, n: nat, c: Crash, c0: Crash, key: string)
    requires CanSave(d, h, p) && n <= CALLS && c0 == if n <= 5 then c else c.(kept := Range(0, |d.pending|))
    ensures var after := Read(AfterCrash(Stage(d, p, n), c), key);
            after == Read(AfterCrash(d, c0), key) || (key == p.key && after == Some(p.content))
  {
    if 2 <= n <= 4 {
      CrashBeforeRename(d, h, p, Inode(if n == 2 then Garbage("") else p.content, n == 4), c, key);
    } else if n == 5 {
      CrashAfterRename(d, h, p, c, key);
    } else if n >= 6 {
      CrashAfterSync(d, h, p, c, key);
      KeepingAllServesAll(d, h, c0, key);
    }
  }

  /**
   After `save` returned, a power loss loses its record exactly when it loses the directory,
   which it can only do when the directory was not yet anchored before the call; otherwise
   the saved key loads the new record and every other key what running programs saw.
   */
  lemma ReturnedSaveSurvives(d: Disk, h: History, p: Plan, c: Crash, key: string)
    requires CanSave(d, h, p)
    ensures Read(AfterCrash(Stage(d, p, CALLS), c), key) ==
            if !d.anchored && !c.rootKept then None else if key == p.key then Some(p.content) else Read(d, key)
  {
    CrashAfterSync(d, h, p, c, key);
  }

  // ---------- a save that raised ----------

  /**
   Without a power loss: a save that returned serves the new record, one that raised before
   the rename serves what was there, and one that raised later serves the new record already.
   Other keys never change, and the temporary file is gone unless its own removal raised.
   */
  lemma RaisedSaveIsWholeOrNothing(d: Disk, h: History, p: Plan, failing: nat, partial: Content, key: string)
    requires CanSave(d, h, p) && 1 <= failing <= CALLS + 1
    ensures var (after, ok) := SaveOutcome(d, p, failing, partial);
            && (ok <==> failing == CALLS + 1)
            && Read(after, key) == (if key == p.key && failing >= 6 then Some(p.content) else Read(d, key))
            && p.Tmp() !in Entries(after)
  {
    if failing <= 2 {
    } else if failing <= 5 {
      WithdrawnServesTheSame(d, h, p, SavedPart(p, failing, partial), key);
    } else {
      PublishedServesTheNew(d, h, p, key);
    }
  }

  lemma WithdrawnEntries(d: Disk, p: Plan, inode: Inode)
    requires p.Tmp() !in Entries(d)
    ensures Entries(Unlink(Began(d, p, inode), p.Tmp())) == Entries(d)
  {
    BeganEntries(d, p, inode);
    EntriesAppend(Began(d, p, inode), Drop(p.Tmp()));
    assert Entries(d)[p.Tmp() := |d.inodes|] - {p.Tmp()} == Entries(d);
  }

  lemma WithdrawnServesTheSame(d: Disk, h: History, p: Plan, inode: Inode, key: string)
    requires CanSave(d, h, p)
    ensures var after := Unlink(Began(d, p, inode), p.Tmp());
            Read(after, key) == Read(d, key) && p.Tmp() !in Entries(after)
  {
    WithdrawnEntries(d, p, inode);
    DestinationInRange(d, h, key);
  }

  lemma PublishedServesTheNew(d: Disk, h: History, p: Plan, key: string)
    requires CanSave(d, h, p)
    ensures forall after :: after in {Renamed(d, p), Published(d, p)} ==>
              && Read(after, key) == (if key == p.key then Some(p.content) else Read(d, key))
              && p.Tmp() !in Entries(after)
  {
    RenamedEntries(d, p);
    NamesDiffer(p, key);
    DestinationInRange(d, h, key);
  }

  lemma DestinationInRange(d: Disk, h: History, key: string)
    requires Sound(d, h)
    ensures Path(key) in Entries(d) ==> Entries(d)[Path(key)] < |d.inodes|
  {
    EntriesSound(d, h);
    if Path(key) in Entries(d) {
      assert EntrySound(d.inodes, h, Path(key), Entries(d)[Path(key)]);
    }
  }
}
