/**
 The directory of checkpoints as a file system keeps it: entries and contents that reached
 the disk, directory changes that did not yet, and what a power loss may leave of them.

 A change of the directory is lost or kept as a whole; which of the changes since the last
 directory sync survive is arbitrary. The content of a file not synced is arbitrary after a
 power loss. A directory just made is itself an entry of its parents that may be lost.
 */
module CheckpointDisk {
  import opened Finite
  import opened Wrappers

  /** A JSON value, or a byte string that is not JSON. */
  datatype Value = Text(text: string) | Object(fields: map<string, Value>) | Atom(number: int) | List(items: seq<Value>)

  datatype Content = Encoded(value: Value) | Garbage(bytes: string)

  datatype Inode = Inode(content: Content, synced: bool)

  datatype DirOp = SetEntry(name: string, ino: nat) | Move(from: string, to: string, ino: nat) | Drop(name: string)

  type Dir = map<string, nat>

  /** `anchored` says that the directory itself survives a power loss. */
  datatype Disk = Disk(present: bool, anchored: bool, durable: Dir, pending: seq<DirOp>, inodes: seq<Inode>)

  function ApplyOp(dir: Dir, op: DirOp): Dir {
    match op
    case SetEntry(name, ino) => dir[name := ino]
    case Move(from, to, ino) => (dir - {from})[to := ino]
    case Drop(name) => dir - {name}
  }

  /** The entries after the changes whose index is kept. */
  function Survive(base: Dir, ops: seq<DirOp>, kept: set<nat>): Dir {
    if ops == [] then base
    else
      var last := |ops| - 1;
      var before := Survive(base, ops[..last], kept);
      if last in kept then ApplyOp(before, ops[last]) else before
  }

  /** What running programs see: every change. */
  function Entries(d: Disk): Dir {
    Survive(d.durable, d.pending, Range(0, |d.pending|))
  }

  /** `junk` says what an unsynced file holds afterwards, where it is not what was written. */
  datatype Crash = Crash(rootKept: bool, kept: set<nat>, junk: map<nat, Content>)

  function Recovered(inodes: seq<Inode>, c: Crash): (after: seq<Inode>)
    ensures |after| == |inodes|
    ensures forall i :: 0 <= i < |inodes| && inodes[i].synced ==> after[i] == inodes[i]
  {
    seq(|inodes|, i requires 0 <= i < |inodes| =>
      if inodes[i].synced || i !in c.junk then Inode(inodes[i].content, true) else Inode(c.junk[i], true))
  }

  function AfterCrash(d: Disk, c: Crash): Disk {
    if d.present && (d.anchored || c.rootKept) then
      Disk(true, true, Survive(d.durable, d.pending, c.kept), [], Recovered(d.inodes, c))
    else Disk(false, false, map[], [], Recovered(d.inodes, c))
  }

  function ReadFile(d: Disk, name: string): Option<Content> {
    var dir := Entries(d);
    if name in dir && dir[name] < |d.inodes| then Some(d.inodes[dir[name]].content) else None
  }

  // ---------- system calls ----------

  function Mkdir(d: Disk): Disk {
    if d.present then d else Disk(true, false, map[], [], d.inodes)
  }

  /** Makes an empty file under a name that is not there; its number is the count of files so far. */
  function Create(d: Disk, name: string): Disk {
    d.(pending := d.pending + [SetEntry(name, |d.inodes|)], inodes := d.inodes + [Inode(Garbage(""), false)])
  }

  function Write(d: Disk, ino: nat, content: Content): Disk {
    if ino < |d.inodes| then d.(inodes := d.inodes[ino := Inode(content, false)]) else d
  }

  function Fsync(d: Disk, ino: nat): Disk {
    if ino < |d.inodes| then d.(inodes := d.inodes[ino := d.inodes[ino].(synced := true)]) else d
  }

  function Rename(d: Disk, from: string, to: string): Disk {
    if from in Entries(d) then d.(pending := d.pending + [Move(from, to, Entries(d)[from])]) else d
  }

  function FsyncDir(d: Disk): Disk {
    d.(durable := Entries(d), pending := [])
  }

  /** A missing file is fine. */
  function Unlink(d: Disk, name: string): Disk {
    if name in Entries(d) then d.(pending := d.pending + [Drop(name)]) else d
  }

  /** The operating system writes everything back. */
  function Flush(d: Disk): Disk {
    Disk(d.present, d.present, Entries(d), [], seq(|d.inodes|, i requires 0 <= i < |d.inodes| => d.inodes[i].(synced := true)))
  }

  // ---------- surviving changes ----------

  lemma SurviveAppend(base: Dir, ops: seq<DirOp>, op: DirOp, kept: set<nat>)
    ensures Survive(base, ops + [op], kept) == if |ops| in kept then ApplyOp(Survive(base, ops, kept), op) else Survive(base, ops, kept)
  {
    assert (ops + [op])[..|ops|] == ops;
  }

  lemma {:induction false} SurviveAgrees(base: Dir, ops: seq<DirOp>, a: set<nat>, b: set<nat>)
    requires forall i: nat :: i < |ops| ==> (i in a <==> i in b)
    ensures Survive(base, ops, a) == Survive(base, ops, b)
  {
    if ops != [] {
      SurviveAgrees(base, ops[..|ops| - 1], a, b);
    }
  }

  lemma EntriesAppend(d: Disk, op: DirOp)
    ensures Entries(d.(pending := d.pending + [op])) == ApplyOp(Entries(d), op)
  {
    var n := |d.pending|;
    SurviveAppend(d.durable, d.pending, op, Range(0, n + 1));
    SurviveAgrees(d.durable, d.pending, Range(0, n), Range(0, n + 1));
  }

  /** No change mentions the name. */
  predicate Untouched(ops: seq<DirOp>, name: string) {
    forall i :: 0 <= i < |ops| ==> !Touches(ops[i], name)
  }

  predicate Touches(op: DirOp, name: string) {
    match op
    case SetEntry(n, _) => n == name
    case Move(from, to, _) => from == name || to == name
    case Drop(n) => n == name
  }

  lemma {:induction false} UntouchedSurvives(base: Dir, ops: seq<DirOp>, kept: set<nat>, name: string)
    requires Untouched(ops, name)
    ensures name in Survive(base, ops, kept) <==> name in base
    ensures name in base ==> Survive(base, ops, kept)[name] == base[name]
  {
    if ops != [] {
      var last := |ops| - 1;
      UntouchedSurvives(base, ops[..last], kept, name);
      assert !Touches(ops[last], name);
    }
  }
}
