/** Whole runs of the ext4 writer: any sequence of create, mkdir, rename,
    delete and interleaved streamed writes, cut off after any device write. */
module Ext4Run {
  import opened Arith
  import opened Bytes
  import opened Extents
  import opened DirChain
  import opened Ext4Disk
  import opened Ext4Steps
  import opened Ext4Bitmap
  import opened Ext4Inodes
  import opened Ext4Data
  import opened Ext4Books
  import opened Ext4Writer
  import opened Ext4Names
  import opened Ext4Delete
  import opened Ext4Stream

  /** One call on the mounted filesystem. Streams are numbered in the order in
      which they were begun. */
  datatype Op =
    | Create(dir: nat, name: Name, data: seq<byte>)
    | MkDir(dir: nat, name: Name)
    | Rename(dir: nat, old_: Name, new_: Name)
    | Delete(dir: nat, name: Name)
    | Begin(size: Option<nat>)
    | Append(stream: nat, data: seq<byte>)
    | Finish(stream: nat, dir: nat, name: Name)
    | Abandon(stream: nat)

  datatype Outcome = Skipped | Done(ino: nat) | Failed(error: Error)

  /** One operation of a run, between two states of the filesystem and of the
      open streams. */
  datatype Event = Event(op: Op, before: State, after: State, outcome: Outcome, open: seq<Snapshot>,
      rest: seq<Snapshot>)

  /** The contents received by the streams that are open after some events: a
      chunk belongs to its stream once it was accepted. */
  ghost function Pending(events: seq<Event>): seq<seq<byte>> {
    if events == [] then []
    else After(Pending(events[..|events| - 1]), events[|events| - 1])
  }

  ghost function After(p: seq<seq<byte>>, e: Event): seq<seq<byte>> {
    match e.op
    case Begin(_) => if e.outcome.Done? then p + [[]] else p
    case Append(k, data) => if k < |p| && e.outcome.Done? then p[k := p[k] + data] else p
    case Finish(k, _, _) => if k < |p| && !e.outcome.Skipped? then p[..k] + p[k + 1..] else p
    case Abandon(k) => if k < |p| && !e.outcome.Skipped? then p[..k] + p[k + 1..] else p
    case _ => p
  }

  /** A creation refused for a number beyond the inode count. */
  predicate Overran(e: Event) { (e.op.Create? || e.op.MkDir? || e.op.Begin?) && e.outcome == Failed(BadInode) }

  // ----- what each operation does -----

  /** When each operation is done, refused and skipped, and what it then leaves. */
  ghost predicate Did(geo: Geo, e: Event)
    requires GeoOk(geo)
  {
    && CrashSafe(geo, e.after.disk) && (!Overran(e) ==> Keeps(e.before, e.after))
    && (e.outcome.Skipped? ==> e.after == e.before && e.rest == e.open)
    && match e.op
       case Create(dir, name, data) => e.rest == e.open && CreateDid(geo, e.before, e.after, e.outcome, dir, name, data)
       case MkDir(dir, name) => e.rest == e.open && MkDirDid(geo, e.before, e.after, e.outcome, dir, name)
       case Rename(dir, old_, new_) => e.rest == e.open && RenameDid(geo, e.before, e.after, e.outcome, dir, old_, new_)
       case Delete(dir, name) => e.rest == e.open && DeleteDid(geo, e.before, e.after, e.outcome, dir, name)
       case Begin(size) => BeginDid(geo, e.before, e.after, e.outcome, size, e.open, e.rest)
       case Append(k, data) => AppendDid(geo, e.before, e.after, e.outcome, k, data, e.open, e.rest)
       case Finish(k, dir, name) => FinishDid(geo, e.before, e.after, e.outcome, k, dir, name, e.open, e.rest)
       case Abandon(k) => AbandonDid(geo, e.before, e.after, e.outcome, k, e.open, e.rest)
  }

  /** A new regular file holding `data` under its name, and nothing else. */
  ghost predicate Made(geo: Geo, d: Disk, d': Disk, dir: nat, e: Entry, data: seq<byte>)
    requires GeoOk(geo)
  {
    Added(geo, d, d', dir, e) && NewFile(geo, d', d'.inodes[e.ino], data)
  }

  /** The superblock counters after `nb` blocks and `ni` inodes were taken. */
  predicate Spent(a: State, b: State, nb: nat, ni: nat) {
    b.freeBlocks == SatSub(a.freeBlocks, nb) && b.freeInodes == SatSub(a.freeInodes, ni)
  }

  ghost predicate CreateDid(geo: Geo, a: State, b: State, o: Outcome, dir: nat, name: Name, data: seq<byte>)
    requires GeoOk(geo)
  {
    var n := CeilDiv(|data|, geo.blockSize);
    var nb := if NameOk(name) then BlocksClaimed(geo, a.disk, a.groups, n) else 0;
    var ni := if NameOk(name) then InodesClaimed(geo, a.disk, a.groups) else 0;
    && (o.Skipped? <==> !InUse(geo, a.disk, dir))
    && (o.Failed? <==>
          InUse(geo, a.disk, dir) && (Unplaceable(geo, a.disk, a.groups, n) || LinkRefused(geo, a.disk, dir, name)))
    && (o == Failed(BadInode) <==> InUse(geo, a.disk, dir) && NameOk(name) && Overrun(geo, a.disk, a.groups))
    && (o.Done? ==> Made(geo, a.disk, b.disk, dir, Entry(o.ino, name, 1), data) && Spent(a, b, nb, ni))
    && (o.Failed? ==> Refusal(geo, a, b, o.error, false, nb, ni))
  }

  ghost predicate MkDirDid(geo: Geo, a: State, b: State, o: Outcome, dir: nat, name: Name)
    requires GeoOk(geo)
  {
    var there := InUse(geo, a.disk, dir) && dir < U32_LIMIT;
    var tried := there && NameOk(name) && a.disk.inodes[dir].kind == Dir;
    var nb := if tried then BlocksClaimed(geo, a.disk, a.groups, 1) else 0;
    var ni := if tried then InodesClaimed(geo, a.disk, a.groups) else 0;
    && (o.Skipped? <==> !there)
    && (o.Failed? <==>
          && there
          && (|| Unhoused(geo, a.disk, a.groups) || LinkRefused(geo, a.disk, dir, name)
              || a.disk.inodes[dir].links + 1 >= U16_LIMIT))
    && (o == Failed(BadInode) <==> tried && Overrun(geo, a.disk, a.groups))
    && (o.Done? ==>
          && Added(geo, a.disk, b.disk, dir, Entry(o.ino, name, 2)) && IsDir(geo, b.disk, o.ino) && Spent(a, b, nb, ni)
          && EntriesOf(b.disk.blocks, b.disk.inodes[o.ino]) == [Entry(o.ino, DOT, 2), Entry(dir, DOTDOT, 2)])
    && (o.Failed? ==> Refusal(geo, a, b, o.error, true, nb, ni))
  }

  ghost predicate RenameDid(geo: Geo, a: State, b: State, o: Outcome, dir: nat, old_: Name, new_: Name)
    requires GeoOk(geo)
  {
    && (o.Skipped? <==> !InUse(geo, a.disk, dir))
    && (old_ != new_ ==>
          (o.Failed? <==> InUse(geo, a.disk, dir) && RenameRefused(geo, a.disk, a.groups, dir, old_, new_)))
    && (o.Done? ==>
          if old_ == new_ then b.disk == a.disk else exists ino :: Renamed(geo, a.disk, b.disk, dir, old_, new_, ino))
    && (o.Failed? ==> NotRenamed(geo, a.disk, b.disk, dir, old_, new_) && (IsDir(geo, a.disk, dir) || b.disk == a.disk))
  }

  ghost predicate DeleteDid(geo: Geo, a: State, b: State, o: Outcome, dir: nat, name: Name)
    requires GeoOk(geo)
  {
    && (o.Skipped? <==> !InUse(geo, a.disk, dir))
    && (!o.Skipped? && (forall f :: HasEntry(geo, a.disk, dir, f) ==> f.name != name) ==> o.Failed? && b.disk == a.disk)
    && (forall f :: HasEntry(geo, a.disk, dir, f) && f.name == name ==>
          && (o.Done? ==> Deleted(geo, a.disk, b.disk, dir, name, f.ino))
          && (o.Failed? ==>
                Cut(geo, a.disk, b.disk, dir, name, f.ino) && Blocked(geo, a.disk, a.groups, dir, f, MAX_DELETE_DEPTH)))
  }

  /** Every file and directory is as it was, and there is no new one. */
  ghost predicate Still(geo: Geo, d: Disk, d': Disk)
    requires GeoOk(geo)
  {
    && (forall j :: InUse(geo, d', j) ==> InUse(geo, d, j))
    && (forall j :: InUse(geo, d, j) ==> Same(geo, d, d', j))
  }

  ghost predicate BeginDid(geo: Geo, a: State, b: State, o: Outcome, size: Option<nat>, open: seq<Snapshot>,
      rest: seq<Snapshot>)
    requires GeoOk(geo)
  {
    var n := if size.Some? then CeilDiv(size.value, geo.blockSize) else 0;
    var nb := if size.Some? then BlocksClaimed(geo, a.disk, a.groups, n) else 0;
    var ni := if size.Some? then InodesClaimed(geo, a.disk, a.groups) else 0;
    && !o.Skipped?
    && (o.Failed? <==>
          if size.Some? then Unplaceable(geo, a.disk, a.groups, n)
          else NoInode(geo, a.disk, a.groups) || Overrun(geo, a.disk, a.groups))
    && (o == Failed(BadInode) <==> Overrun(geo, a.disk, a.groups))
    && (o.Failed? ==>
          rest == open && Refusal(geo, a, b, o.error, false, nb, ni))
    && (o.Done? ==>
          && |rest| == |open| + 1 && rest[..|open|] == open && Begun(rest[|open|], o.ino, size)
          && |Flat(rest[|open|].extents)| == nb
          && Reserved(geo, a.disk, a.groups, b.disk, b.groups, o.ino, false, Flat(rest[|open|].extents))
          && Still(geo, a.disk, b.disk) && Spent(a, b, nb, 1))
  }

  /** A stream that has received nothing. */
  predicate Begun(s: Snapshot, ino: nat, size: Option<nat>) {
    s.ino == ino && s.streaming == size.None? && s.content == [] && (size.Some? ==> s.size == size.value)
  }

  ghost predicate AppendDid(geo: Geo, a: State, b: State, o: Outcome, k: nat, data: seq<byte>, open: seq<Snapshot>,
      rest: seq<Snapshot>)
    requires GeoOk(geo)
  {
    && (o.Skipped? <==> k >= |open|)
    && (o.Failed? <==> k < |open| && ChunkRefused(geo, a.disk, a.groups, open[k], |data|))
    && (!o.Skipped? ==>
          && |rest| == |open| && rest == open[k := rest[k]] && rest[k].ino == open[k].ino
          && rest[k].streaming == open[k].streaming
          && rest[k].content == (if o.Done? then open[k].content + data else open[k].content)
          && Extended(geo, a, b, open[k].extents, rest[k].extents, ChunkWaste(geo, a.disk, a.groups, open[k], |data|))
          && Still(geo, a.disk, b.disk))
  }

  ghost predicate FinishDid(geo: Geo, a: State, b: State, o: Outcome, k: nat, dir: nat, name: Name, open: seq<Snapshot>,
      rest: seq<Snapshot>)
    requires GeoOk(geo)
  {
    && (o.Skipped? <==> k >= |open| || !InUse(geo, a.disk, dir))
    && (!o.Skipped? ==>
          var s := open[k];
          && (o.Failed? <==>
                LinkRefused(geo, a.disk, dir, name) || Unfinishable(s.streaming, s.written, s.size, s.leaf, s.runs))
          && (o.Done? ==> Made(geo, a.disk, b.disk, dir, Entry(s.ino, name, 1), s.content) && b == a.(disk := b.disk))
          && (o.Failed? ==> Returned(geo, a, b, s.ino, Flat(s.extents)) && Still(geo, a.disk, b.disk))
          && rest == open[..k] + open[k + 1..])
  }

  ghost predicate AbandonDid(geo: Geo, a: State, b: State, o: Outcome, k: nat, open: seq<Snapshot>, rest: seq<Snapshot>)
    requires GeoOk(geo)
  {
    && (o.Skipped? <==> k >= |open|) && !o.Failed?
    && (!o.Skipped? ==>
          && Returned(geo, a, b, open[k].ino, Flat(open[k].extents)) && Still(geo, a.disk, b.disk)
          && rest == open[..k] + open[k + 1..])
  }

  // ----- open streams -----

  /** `StreamOk` as a fact about what the filesystem holds and stores. */
  ghost predicate Fits(geo: Geo, blocks: map<nat, Content>, held: map<nat, set<nat>>, dirs: set<nat>, s: Snapshot)
    requires GeoOk(geo)
  {
    && s.ino in held && s.ino !in dirs && held[s.ino] == SeqSet(Flat(s.extents))
    && BooksOk(geo, s.extents, s.runs, s.leaf)
    && s.written == |s.content| && TailOk(geo.blockSize, s.content, s.tail)
    && Received(blocks, FlatRuns(s.runs), s.content, geo.blockSize)
    && (s.streaming ==> Separable(s.extents, s.runs, s.leaf))
    && (!s.streaming ==> s.written <= s.size && s.size <= |FlatRuns(s.runs)| * geo.blockSize)
  }

  lemma FitsIsOk(fs: Ext4, w: FileWriter)
    requires fs.Valid()
    ensures StreamOk(fs, w) <==> Fits(fs.geo, fs.disk.blocks, fs.held, fs.dirs, Snap(w))
  {
    hide CrashSafe, SafeHistory, Replay, GeoOk, HeldOk, BlockCount, InodeSide, Saved, Flat, FlatRuns, BooksOk, TailOk,
      Received, Separable, SeqSet;
  }

  /** Any number of streams may be open at once. */
  ghost predicate AllFit(geo: Geo, blocks: map<nat, Content>, held: map<nat, set<nat>>, dirs: set<nat>,
      ss: seq<Snapshot>)
    requires GeoOk(geo)
  {
    && (forall i :: 0 <= i < |ss| ==> Fits(geo, blocks, held, dirs, ss[i]))
    && (forall i, j :: 0 <= i < j < |ss| ==> ss[i].ino != ss[j].ino)
  }

  lemma ReceivedFrame(x: map<nat, Content>, y: map<nat, Content>, flat: seq<nat>, content: seq<byte>, bs: nat)
    requires Received(x, flat, content, bs)
    requires forall b :: b in flat ==> (b in x <==> b in y) && (b in x ==> x[b] == y[b])
    ensures Received(y, flat, content, bs)
  {
    hide Chunk;
  }

  lemma BooksBlocks(geo: Geo, es: seq<Extent>, runs: seq<Run>, leaf: Option<nat>)
    requires GeoOk(geo) && BooksOk(geo, es, runs, leaf)
    ensures forall b :: b in FlatRuns(runs) ==> b in SeqSet(Flat(es))
  {
    hide Flat, FlatRuns, Tiled, NoDup, GeoOk;
    var a := FlatRuns(runs) + LeafSeq(leaf);
    assert forall b :: b in FlatRuns(runs) ==> b in SeqSet(a);
  }

  /** A stream survives what others do: its blocks stay held and as they were. */
  lemma FitsKept(geo: Geo, x: map<nat, Content>, h: map<nat, set<nat>>, dirs: set<nat>,
                 y: map<nat, Content>, h': map<nat, set<nat>>, dirs': set<nat>, kept: map<nat, set<nat>>, s: Snapshot)
    requires GeoOk(geo) && Fits(geo, x, h, dirs, s) && HeldKept(kept, x, y) && s.ino in kept && kept[s.ino] == h[s.ino]
    requires s.ino in h' && h'[s.ino] == h[s.ino] && s.ino !in dirs'
    ensures Fits(geo, y, h', dirs', s)
  {
    hide GeoOk, Flat, FlatRuns, BooksOk, TailOk, Received, Separable, SeqSet;
    BooksBlocks(geo, s.extents, s.runs, s.leaf);
    ReceivedFrame(x, y, FlatRuns(s.runs), s.content, geo.blockSize);
  }

  /** What an operation leaves of the streams: all but `skip` are kept. */
  ghost predicate Spared(x: map<nat, Content>, h: map<nat, set<nat>>, dirs: set<nat>,
                         y: map<nat, Content>, h': map<nat, set<nat>>, dirs': set<nat>, skip: Option<nat>)
  {
    && (forall i :: i in h && Some(i) != skip ==> i in h' && h'[i] == h[i])
    && (forall i :: i in h && Some(i) != skip && i in dirs' ==> i in dirs)
    && HeldKept(if skip.Some? then h - {skip.value} else h, x, y)
  }

  lemma AllFitKept(geo: Geo, x: map<nat, Content>, h: map<nat, set<nat>>, dirs: set<nat>,
                   y: map<nat, Content>, h': map<nat, set<nat>>, dirs': set<nat>, skip: Option<nat>, ss: seq<Snapshot>)
    requires GeoOk(geo) && AllFit(geo, x, h, dirs, ss) && Spared(x, h, dirs, y, h', dirs', skip)
    ensures forall i :: 0 <= i < |ss| && Some(ss[i].ino) != skip ==> Fits(geo, y, h', dirs', ss[i])
  {
    hide GeoOk, HeldKept, BooksOk, TailOk, Received, Separable, SeqSet, Flat, FlatRuns;
    var kept := if skip.Some? then h - {skip.value} else h;
    forall i | 0 <= i < |ss| && Some(ss[i].ino) != skip ensures Fits(geo, y, h', dirs', ss[i]) {
      assert Fits(geo, x, h, dirs, ss[i]);
      FitsKept(geo, x, h, dirs, y, h', dirs', kept, ss[i]);
    }
  }

  /** Nothing was touched that a stream holds. */
  lemma SparedAll(x: map<nat, Content>, h: map<nat, set<nat>>, dirs: set<nat>, y: map<nat, Content>, dirs': set<nat>)
    requires HeldKept(h, x, y) && forall i :: i in h && i in dirs' ==> i in dirs
    ensures Spared(x, h, dirs, y, h, dirs', None)
  {
  }

  // ----- one operation -----

  ghost function Snaps(open: seq<FileWriter>): (ss: seq<Snapshot>)
    reads set w | w in open
    ensures |ss| == |open| && forall i :: 0 <= i < |ss| ==> ss[i] == Snap(open[i])
  {
    seq(|open|, i requires 0 <= i < |open| reads set w | w in open => Snap(open[i]))
  }

  ghost predicate SessionOk(fs: Ext4, open: seq<FileWriter>)
    reads fs, set w | w in open
  {
    fs.Valid() && AllFit(fs.geo, fs.disk.blocks, fs.held, fs.dirs, Snaps(open))
  }

  /** What the open streams have received. */
  ghost function Texts(ss: seq<Snapshot>): (r: seq<seq<byte>>)
    ensures |r| == |ss|
  {
    seq(|ss|, i requires 0 <= i < |ss| => ss[i].content)
  }

  /** The operations that begin and end with no stream of their own. */
  method NameOp(fs: Ext4, op: Op, ghost ss: seq<Snapshot>) returns (o: Outcome)
    requires fs.Valid() && (op.Create? || op.MkDir? || op.Rename? || op.Delete?)
    modifies fs
    ensures fs.Valid() && old(fs.log) <= fs.log
    ensures Spared(old(fs.disk.blocks), old(fs.held), old(fs.dirs), fs.disk.blocks, fs.held, fs.dirs, None)
    ensures Did(fs.geo, Event(op, old(fs.Now()), fs.Now(), o, ss, ss))
  {
    hide CrashSafe, SafeHistory, Replay, GeoOk, HeldOk, BlockCount, InodeSide, Saved, HeldKept, Spared, Keeps,
      CreateDid, MkDirDid, RenameDid, DeleteDid;
    ghost var x, h, dirs := fs.disk.blocks, fs.held, fs.dirs;
    HeldKeptRefl(h, x);
    KeepsRefl(fs.Now());
    ghost var a := fs.Now();
    match op {
    case Create(dir, name, data) =>
      o := CreateOp(fs, dir, name, data);
    case MkDir(dir, name) =>
      o := MkDirOp(fs, dir, name);
    case Rename(dir, old_, new_) =>
      o := RenameOp(fs, dir, old_, new_);
    case Delete(dir, name) =>
      o := DeleteOp(fs, dir, name);
    }
    SparedAll(x, h, dirs, fs.disk.blocks, fs.dirs);
  }

  method CreateOp(fs: Ext4, dir: nat, name: Name, data: seq<byte>) returns (o: Outcome)
    requires fs.Valid()
    modifies fs
    ensures fs.Valid() && old(fs.log) <= fs.log && fs.held == old(fs.held) && fs.dirs == old(fs.dirs)
    ensures HeldKept(fs.held, old(fs.disk.blocks), fs.disk.blocks)
    ensures CreateDid(fs.geo, old(fs.Now()), fs.Now(), o, dir, name, data)
    ensures (o != Failed(BadInode) ==> Keeps(old(fs.Now()), fs.Now())) && (o.Skipped? ==> fs.Now() == old(fs.Now()))
  {
    hide CrashSafe, SafeHistory, Replay, GeoOk, HeldOk, BlockCount, InodeSide, Saved, HeldKept, NewFile, HasEntry,
      IUsed, fs.CreateTrace, fs.Recorded, fs.Refused, LinkRefused, EntriesOf, Keeps, Refusal, Added, Overrun, NoInode,
      Short, Unplaceable, CeilDiv, NameOk, Undisturbed, BlocksClaimed, InodesClaimed;
    HeldKeptRefl(fs.held, fs.disk.blocks);
    KeepsRefl(fs.Now());
    if !InUse(fs.geo, fs.disk, dir) {
      return Skipped;
    }
    ghost var a := fs.Now();
    var r, rec, pre, nb, ni := fs.CreateFile(dir, name, data, 1);
    RefusalKeeps(fs.geo, a, fs.Now(), r, false, nb, ni);
    if r == Err(BadInode) {
      RefusalAny(fs.geo, a, fs.Now(), false, nb, ni,
        BlocksClaimed(fs.geo, a.disk, a.groups, CeilDiv(|data|, fs.geo.blockSize)),
        InodesClaimed(fs.geo, a.disk, a.groups));
    }
    o := if r.Ok? then Done(r.value) else Failed(r.error);
  }

  lemma RefusalKeeps<T>(geo: Geo, a: State, b: State, r: Result<T>, isDir: bool, nb: nat, ni: nat)
    requires GeoOk(geo) && if r.Ok? then Keeps(a, b) else Refusal(geo, a, b, r.error, isDir, nb, ni)
    ensures r != Err(BadInode) ==> Keeps(a, b)
  {
    hide Restored, Keeps, ChargedTo, GeoOk;
  }

  /** A charged cell is all there is to say, whatever else was claimed. */
  lemma RefusalAny(geo: Geo, a: State, b: State, isDir: bool, nb: nat, ni: nat, nb': nat, ni': nat)
    requires GeoOk(geo) && Refusal(geo, a, b, BadInode, isDir, nb, ni)
    ensures Refusal(geo, a, b, BadInode, isDir, nb', ni')
  {
    hide GeoOk, ChargedTo;
  }

  method MkDirOp(fs: Ext4, dir: nat, name: Name) returns (o: Outcome)
    requires fs.Valid()
    modifies fs
    ensures fs.Valid() && old(fs.log) <= fs.log && fs.held == old(fs.held)
    ensures forall i :: i in fs.held && i in fs.dirs ==> i in old(fs.dirs)
    ensures HeldKept(fs.held, old(fs.disk.blocks), fs.disk.blocks)
    ensures MkDirDid(fs.geo, old(fs.Now()), fs.Now(), o, dir, name)
    ensures (o != Failed(BadInode) ==> Keeps(old(fs.Now()), fs.Now())) && (o.Skipped? ==> fs.Now() == old(fs.Now()))
  {
    hide CrashSafe, SafeHistory, Replay, GeoOk, HeldOk, BlockCount, InodeSide, Saved, HeldKept, HasEntry, IUsed,
      LinkRefused, EntriesOf, Keeps, Refusal, Added, Overrun, NoInode, Short, NameOk, BUsed, Undisturbed, Unhoused,
      BlocksClaimed, InodesClaimed;
    HeldKeptRefl(fs.held, fs.disk.blocks);
    KeepsRefl(fs.Now());
    if !InUse(fs.geo, fs.disk, dir) || dir >= U32_LIMIT {
      return Skipped;
    }
    ghost var a := fs.Now();
    var r, pre, nb, ni := fs.CreateDirectory(dir, name);
    RefusalKeeps(fs.geo, a, fs.Now(), r, true, nb, ni);
    if r == Err(BadInode) {
      RefusalAny(fs.geo, a, fs.Now(), true, nb, ni, BlocksClaimed(fs.geo, a.disk, a.groups, 1),
        InodesClaimed(fs.geo, a.disk, a.groups));
    }
    o := if r.Ok? then Done(r.value) else Failed(r.error);
  }

  method RenameOp(fs: Ext4, dir: nat, old_: Name, new_: Name) returns (o: Outcome)
    requires fs.Valid()
    modifies fs
    ensures fs.Valid() && old(fs.log) <= fs.log && fs.held == old(fs.held) && fs.dirs <= old(fs.dirs)
    ensures HeldKept(fs.held, old(fs.disk.blocks), fs.disk.blocks)
    ensures RenameDid(fs.geo, old(fs.Now()), fs.Now(), o, dir, old_, new_)
    ensures Keeps(old(fs.Now()), fs.Now()) && (o.Skipped? ==> fs.Now() == old(fs.Now()))
  {
    hide CrashSafe, SafeHistory, Replay, GeoOk, HeldOk, BlockCount, InodeSide, Saved, HeldKept, HasEntry, IUsed,
      Renamed, NotRenamed, Names, RenameRefused, Keeps, Undisturbed;
    HeldKeptRefl(fs.held, fs.disk.blocks);
    KeepsRefl(fs.Now());
    if !InUse(fs.geo, fs.disk, dir) {
      return Skipped;
    }
    var r := RenameFile(fs, dir, old_, new_);
    o := if r.Ok? then Done(dir) else Failed(r.error);
  }

  method DeleteOp(fs: Ext4, dir: nat, name: Name) returns (o: Outcome)
    requires fs.Valid()
    modifies fs
    ensures fs.Valid() && old(fs.log) <= fs.log && fs.held == old(fs.held) && fs.dirs <= old(fs.dirs)
    ensures HeldKept(fs.held, old(fs.disk.blocks), fs.disk.blocks)
    ensures DeleteDid(fs.geo, old(fs.Now()), fs.Now(), o, dir, name)
    ensures Keeps(old(fs.Now()), fs.Now()) && (o.Skipped? ==> fs.Now() == old(fs.Now()))
  {
    hide CrashSafe, SafeHistory, Replay, GeoOk, HeldOk, BlockCount, InodeSide, Saved, HeldKept, HasEntry, IUsed, Cut,
      Deleted, Blocked, Keeps, Undisturbed;
    HeldKeptRefl(fs.held, fs.disk.blocks);
    KeepsRefl(fs.Now());
    if !InUse(fs.geo, fs.disk, dir) {
      NothingThere(fs.geo, fs.disk, dir);
      return Skipped;
    }
    var r := DeleteAt(fs, dir, name, 0);
    o := if r.Ok? then Done(dir) else Failed(r.error);
  }

  lemma NothingThere(geo: Geo, d: Disk, dir: nat)
    requires GeoOk(geo) && !InUse(geo, d, dir)
    ensures forall f :: !HasEntry(geo, d, dir, f)
  {
  }

  lemma SessionAfter(fs: Ext4, open: seq<FileWriter>, ss: seq<Snapshot>,
                     x: map<nat, Content>, h: map<nat, set<nat>>, dirs: set<nat>)
    requires fs.Valid() && AllFit(fs.geo, x, h, dirs, ss) && Snaps(open) == ss
    requires Spared(x, h, dirs, fs.disk.blocks, fs.held, fs.dirs, None)
    ensures SessionOk(fs, open)
  {
    hide CrashSafe, SafeHistory, Replay, GeoOk, HeldOk, BlockCount, InodeSide, Saved, Fits, Spared;
    AllFitKept(fs.geo, x, h, dirs, fs.disk.blocks, fs.held, fs.dirs, None, ss);
  }

  /** Begin a stream. */
  method BeginOp(fs: Ext4, open: seq<FileWriter>, size: Option<nat>) returns (now: seq<FileWriter>, o: Outcome)
    requires SessionOk(fs, open)
    modifies fs
    ensures SessionOk(fs, now) && old(fs.log) <= fs.log
    ensures now == open || (|now| == |open| + 1 && now[..|open|] == open && fresh(now[|open|]))
    ensures BeginDid(fs.geo, old(fs.Now()), fs.Now(), o, size, old(Snaps(open)), Snaps(now))
    ensures o != Failed(BadInode) ==> Keeps(old(fs.Now()), fs.Now())
  {
    hide CrashSafe, SafeHistory, Replay, GeoOk, HeldOk, BlockCount, InodeSide, Saved, Fits, Spared, HeldKept, StreamOk,
      AloneAt, Flat, SeqSet, AllFit, Keeps, Refusal, Overrun, NoInode, Short, Unplaceable, CeilDiv, Undisturbed,
      BlocksClaimed, InodesClaimed, Reserved, Still;
    ghost var x, h, dirs, ss, a := fs.disk.blocks, fs.held, fs.dirs, Snaps(open), fs.Now();
    HeldKeptRefl(h, x);
    var begun;
    ghost var nb, ni := 0, 0;
    if size.Some? {
      begun, nb, ni := BeginFile(fs, size.value);
    } else {
      begun, ni := BeginStreaming(fs);
      if begun.Ok? { NoBlocks(begun.value); }
    }
    RefusalKeeps(fs.geo, a, fs.Now(), begun, false, nb, ni);
    BegunSpared(x, h, dirs, fs.disk.blocks, fs.held, fs.dirs);
    assert Snaps(open) == ss;
    if begun.Err? {
      SessionAfter(fs, open, ss, x, h, dirs);
      if begun.error == BadInode && size.Some? {
        ghost var n := CeilDiv(size.value, fs.geo.blockSize);
        RefusalAny(fs.geo, a, fs.Now(), false, nb, ni, BlocksClaimed(fs.geo, a.disk, a.groups, n),
          InodesClaimed(fs.geo, a.disk, a.groups));
      }
      return open, Failed(begun.error);
    }
    var w := begun.value;
    now := open + [w];
    FitsIsOk(fs, w);
    assert Snaps(now) == ss + [Snap(w)];
    JoinFit(fs.geo, x, h, dirs, fs.disk.blocks, fs.held, fs.dirs, ss, Snap(w));
    AloneParts(fs.geo, w.began, fs.Now(), w.ino, w.extents, w.peak);
    EvenSpent(a, fs.Now(), nb);
    HeldFacts(fs.geo, fs.disk, fs.groups, fs.held, w.ino);
    BegunStill(fs.geo, a.disk, a.groups, fs.disk, fs.groups, w.ino, Flat(w.extents));
    o := Done(w.ino);
  }

  lemma NoBlocks(w: FileWriter)
    requires w.extents == []
    ensures |Flat(w.extents)| == 0
  {
  }

  lemma EvenSpent(a: State, b: State, n: nat)
    requires Even(a, b, n, n)
    ensures Spent(a, b, n, 1)
  {
    hide Keeps;
  }

  /** Claiming an inode and blocks makes no file. */
  lemma BegunStill(geo: Geo, d0: Disk, g0: seq<GroupDesc>, d1: Disk, g1: seq<GroupDesc>, i: nat, s: seq<nat>)
    requires GeoOk(geo) && CrashSafe(geo, d0) && Reserved(geo, d0, g0, d1, g1, i, false, s) && Undisturbed(geo, d0, d1)
    requires !InUse(geo, d1, i)
    ensures Still(geo, d0, d1)
  {
    ReservedBits(geo, d0, g0, d1, g1, i, s);
    hide GeoOk, CrashSafe, IUsed, SetIno, InoGroup, InoBit, Marked, AllFree, SameInodeSide, ClaimGroups, Intact,
      InoExists;
  }

  lemma ReservedBits(geo: Geo, d0: Disk, g0: seq<GroupDesc>, d1: Disk, g1: seq<GroupDesc>, i: nat, s: seq<nat>)
    requires GeoOk(geo) && CrashSafe(geo, d0) && Reserved(geo, d0, g0, d1, g1, i, false, s)
    ensures forall j :: j != i ==> IUsed(geo, d1.ibm, j) == IUsed(geo, d0.ibm, j)
  {
    hide GeoOk, CrashSafe, IUsed, SetIno, InoGroup, InoBit, Marked, AllFree, SameInodeSide, ClaimGroups;
    CrashShape(geo, d0, i);
    SetInoUsed(geo, d0.ibm, i, true);
  }

  lemma BegunSpared(x: map<nat, Content>, h: map<nat, set<nat>>, dirs: set<nat>, y: map<nat, Content>, h': map<nat,
      set<nat>>, dirs': set<nat>)
    requires HeldKept(h, x, y) && dirs' == dirs && forall i :: i in h ==> i in h' && h'[i] == h[i]
    ensures Spared(x, h, dirs, y, h', dirs', None)
  {
  }

  lemma JoinFit(geo: Geo, x: map<nat, Content>, h: map<nat, set<nat>>, dirs: set<nat>,
                y: map<nat, Content>, h': map<nat, set<nat>>, dirs': set<nat>, ss: seq<Snapshot>, s: Snapshot)
    requires GeoOk(geo) && AllFit(geo, x, h, dirs, ss) && Spared(x, h, dirs, y, h', dirs', None)
    requires Fits(geo, y, h', dirs', s) && s.ino !in h
    ensures AllFit(geo, y, h', dirs', ss + [s])
  {
    hide GeoOk, Spared, BooksOk, TailOk, Received, Separable, SeqSet, Flat, FlatRuns;
    AllFitKept(geo, x, h, dirs, y, h', dirs', None, ss);
    assert forall i :: 0 <= i < |ss| ==> Fits(geo, x, h, dirs, ss[i]) && ss[i].ino in h;
    hide Fits;
  }

  /** Stream `k` has a new snapshot; the others are spared. */
  lemma ReplaceFit(geo: Geo, x: map<nat, Content>, h: map<nat, set<nat>>, dirs: set<nat>,
                   y: map<nat, Content>, h': map<nat, set<nat>>, dirs': set<nat>, ss: seq<Snapshot>, k: nat,
                   s: Snapshot)
    requires GeoOk(geo) && AllFit(geo, x, h, dirs, ss) && k < |ss| && s.ino == ss[k].ino
    requires Spared(x, h, dirs, y, h', dirs', Some(s.ino)) && Fits(geo, y, h', dirs', s)
    ensures AllFit(geo, y, h', dirs', ss[k := s])
  {
    hide GeoOk, Spared, Fits;
    AllFitKept(geo, x, h, dirs, y, h', dirs', Some(s.ino), ss);
    assert forall i :: 0 <= i < |ss| && i != k ==> ss[i].ino != s.ino;
  }

  lemma DropFit(geo: Geo, x: map<nat, Content>, h: map<nat, set<nat>>, dirs: set<nat>,
                y: map<nat, Content>, h': map<nat, set<nat>>, dirs': set<nat>, ss: seq<Snapshot>, k: nat)
    requires GeoOk(geo) && AllFit(geo, x, h, dirs, ss) && k < |ss|
    requires Spared(x, h, dirs, y, h', dirs', Some(ss[k].ino))
    ensures AllFit(geo, y, h', dirs', ss[..k] + ss[k + 1..])
  {
    hide GeoOk, Spared, Fits;
    AllFitKept(geo, x, h, dirs, y, h', dirs', Some(ss[k].ino), ss);
    assert forall i :: 0 <= i < |ss| && i != k ==> ss[i].ino != ss[k].ino;
    var rest := ss[..k] + ss[k + 1..];
    forall i | 0 <= i < |rest| ensures Fits(geo, y, h', dirs', rest[i]) {
      assert rest[i] == ss[if i < k then i else i + 1];
    }
    forall i, j | 0 <= i < j < |rest| ensures rest[i].ino != rest[j].ino {
      assert rest[i] == ss[if i < k then i else i + 1] && rest[j] == ss[if j < k then j else j + 1];
    }
  }

  /** Two streams are two writers. */
  lemma Apart(fs: Ext4, open: seq<FileWriter>, k: nat)
    requires SessionOk(fs, open) && k < |open|
    ensures StreamOk(fs, open[k]) && forall i :: 0 <= i < |open| && i != k ==> open[i] != open[k]
  {
    hide CrashSafe, SafeHistory, Replay, GeoOk, HeldOk, BlockCount, InodeSide, Saved, Fits, StreamOk;
    FitsIsOk(fs, open[k]);
    assert Fits(fs.geo, fs.disk.blocks, fs.held, fs.dirs, Snaps(open)[k]);
    forall i | 0 <= i < |open| && i != k ensures open[i] != open[k] {
      assert Snaps(open)[i].ino != Snaps(open)[k].ino;
    }
  }

  lemma OwnSpared(x: map<nat, Content>, h: map<nat, set<nat>>, dirs: set<nat>, y: map<nat, Content>, h': map<nat,
      set<nat>>, dirs': set<nat>, i: nat)
    requires HeldKept(h - {i}, x, y) && dirs' == dirs && forall j :: j in h && j != i ==> j in h' && h'[j] == h[j]
    ensures Spared(x, h, dirs, y, h', dirs', Some(i))
  {
  }

  /** Append to stream `k`. */
  method AppendOp(fs: Ext4, open: seq<FileWriter>, k: nat, data: seq<byte>) returns (o: Outcome)
    requires SessionOk(fs, open) && k < |open|
    modifies fs, open[k]
    ensures SessionOk(fs, open) && old(fs.log) <= fs.log && Keeps(old(fs.Now()), fs.Now())
    ensures AppendDid(fs.geo, old(fs.Now()), fs.Now(), o, k, data, old(Snaps(open)), Snaps(open))
  {
    hide CrashSafe, SafeHistory, Replay, GeoOk, HeldOk, BlockCount, InodeSide, Saved, Fits, Spared, HeldKept, StreamOk,
      Alone, Flat, SeqSet, AllFit, FlatRuns, Undisturbed, Keeps, PeakOk, ChunkRefused, ChunkWaste, Extended, Still;
    ghost var x, h, dirs, ss, d := fs.disk.blocks, fs.held, fs.dirs, Snaps(open), fs.disk;
    Apart(fs, open, k);
    var w := open[k];
    var r := WriteChunk(fs, w, data);
    OwnSpared(x, h, dirs, fs.disk.blocks, fs.held, fs.dirs, w.ino);
    OkIsValid(fs, w);
    FitsIsOk(fs, w);
    ReplaceFit(fs.geo, x, h, dirs, fs.disk.blocks, fs.held, fs.dirs, ss, k, Snap(w));
    assert Snaps(open) == ss[k := Snap(w)];
    WroteStill(fs.geo, d, fs.disk);
    o := if r.Ok? then Done(w.ino) else Failed(r.error);
  }

  lemma WroteStill(geo: Geo, d: Disk, d': Disk)
    requires GeoOk(geo) && d'.inodes == d.inodes && d'.ibm == d.ibm && Undisturbed(geo, d, d')
    ensures Still(geo, d, d')
  {
    hide GeoOk, IUsed, Intact;
  }

  lemma OkIsValid(fs: Ext4, w: FileWriter)
    requires StreamOk(fs, w)
    ensures fs.Valid()
  {
  }

  /** Finish stream `k` under a name. */
  method FinishOp(fs: Ext4, open: seq<FileWriter>, k: nat, dir: nat, name: Name) returns (now: seq<FileWriter>,
      o: Outcome)
    requires SessionOk(fs, open) && k < |open|
    modifies fs, open[k]
    ensures SessionOk(fs, now) && old(fs.log) <= fs.log && (now == open || now == open[..k] + open[k + 1..])
    ensures FinishDid(fs.geo, old(fs.Now()), fs.Now(), o, k, dir, name, old(Snaps(open)), Snaps(now))
    ensures Keeps(old(fs.Now()), fs.Now())
    ensures o.Skipped? ==> fs.Now() == old(fs.Now()) && Snaps(now) == old(Snaps(open))
  {
    hide CrashSafe, SafeHistory, Replay, GeoOk, HeldOk, BlockCount, InodeSide, Saved, Fits, Spared, HeldKept, StreamOk,
      Alone, Flat, SeqSet, AllFit, FlatRuns, IUsed, NewFile, ByRuns, HasEntry, FinishTrace, Keeps, BackTo, Added,
      LinkRefused, fs.Recorded, Undisturbed, Returned;
    ghost var x, h, dirs, ss := fs.disk.blocks, fs.held, fs.dirs, Snaps(open);
    KeepsRefl(fs.Now());
    Apart(fs, open, k);
    var w := open[k];
    if !InUse(fs.geo, fs.disk, dir) {
      return open, Skipped;
    }
    ghost var a := fs.Now();
    StreamUnused(fs, w);
    var r, rec, pre := FinishFile(fs, w, dir, name, 1);
    if r.Err? { ReturnedStill(fs.geo, a, fs.Now(), w.ino, Flat(old(w.extents))); }
    o := if r.Ok? then Done(r.value) else Failed(r.error);
    OwnSpared(x, h, dirs, fs.disk.blocks, fs.held, fs.dirs, w.ino);
    DropFit(fs.geo, x, h, dirs, fs.disk.blocks, fs.held, fs.dirs, ss, k);
    now := open[..k] + open[k + 1..];
    assert Snaps(now) == ss[..k] + ss[k + 1..];
  }

  /** Abandon stream `k`. */
  method AbandonOp(fs: Ext4, open: seq<FileWriter>, k: nat) returns (now: seq<FileWriter>, o: Outcome)
    requires SessionOk(fs, open) && k < |open|
    modifies fs, open[k]
    ensures SessionOk(fs, now) && old(fs.log) <= fs.log && now == open[..k] + open[k + 1..] && o.Done?
    ensures AbandonDid(fs.geo, old(fs.Now()), fs.Now(), o, k, old(Snaps(open)), Snaps(now))
    ensures Keeps(old(fs.Now()), fs.Now())
  {
    hide CrashSafe, SafeHistory, Replay, GeoOk, HeldOk, BlockCount, InodeSide, Saved, Fits, Spared, HeldKept, StreamOk,
      Alone, Flat, SeqSet, AllFit, Holding, Cleared, IUsed, Keeps, BackTo, Returned;
    ghost var x, h, dirs, ss := fs.disk.blocks, fs.held, fs.dirs, Snaps(open);
    Apart(fs, open, k);
    var w := open[k];
    HeldKeptRefl(h - {w.ino}, x);
    StreamReady(fs, w);
    StreamUnused(fs, w);
    ghost var a := fs.Now();
    AbandonFile(fs, w);
    ReturnedStill(fs.geo, a, fs.Now(), w.ino, Flat(w.extents));
    o := Done(w.ino);
    OwnSpared(x, h, dirs, fs.disk.blocks, fs.held, fs.dirs, w.ino);
    DropFit(fs.geo, x, h, dirs, fs.disk.blocks, fs.held, fs.dirs, ss, k);
    now := open[..k] + open[k + 1..];
    assert Snaps(now) == ss[..k] + ss[k + 1..];
  }

  /** A stream's inode is no file yet. */
  lemma StreamUnused(fs: Ext4, w: FileWriter)
    requires StreamOk(fs, w)
    ensures fs.Valid() && !InUse(fs.geo, fs.disk, w.ino)
  {
    hide CrashSafe, SafeHistory, Replay, GeoOk, HeldOk, BlockCount, InodeSide, Saved, Flat, FlatRuns, SeqSet, BooksOk,
      TailOk, Received, Separable;
    HeldFacts(fs.geo, fs.disk, fs.groups, fs.held, w.ino);
  }

  lemma ReturnedStill(geo: Geo, a: State, b: State, i: nat, s: seq<nat>)
    requires GeoOk(geo) && Returned(geo, a, b, i, s) && !InUse(geo, a.disk, i)
    ensures Still(geo, a.disk, b.disk)
  {
    hide GeoOk, Keeps, Cleared, SameOutside, SameInodeSide, ReleaseGroups, SetIno, InoGroup, InoBit, Same, InUse;
  }

  lemma StreamReady(fs: Ext4, w: FileWriter)
    requires StreamOk(fs, w)
    ensures Holding(fs, w)
  {
    hide CrashSafe, SafeHistory, Replay, GeoOk, HeldOk, BlockCount, InodeSide, Saved, Flat, FlatRuns, SeqSet, BooksOk,
      TailOk, Received, Separable, Holding;
    StreamHolding(fs, w);
  }

  // ----- stories -----

  /** Events that follow one another from `a` to `b`, each doing what its
      operation does, with `open` the streams open at the end. */
  ghost predicate Story(geo: Geo, a: State, b: State, events: seq<Event>, open: seq<Snapshot>)
    requires GeoOk(geo)
  {
    && (forall n :: 0 <= n < |events| ==> Follows(geo, a, events, n))
    && b == Before(a, events, |events|) && open == OpenAt(events, |events|)
  }

  /** The state before event `n`, or after the last one. */
  ghost function Before(a: State, events: seq<Event>, n: nat): State
    requires n <= |events|
  {
    if n == 0 then a else events[n - 1].after
  }

  /** The streams open then. */
  ghost function OpenAt(events: seq<Event>, n: nat): seq<Snapshot>
    requires n <= |events|
  {
    if n == 0 then [] else events[n - 1].rest
  }

  /** Event `n` did what it should, starting where the one before it ended. */
  ghost predicate Follows(geo: Geo, a: State, events: seq<Event>, n: nat)
    requires GeoOk(geo) && n < |events|
  {
    Did(geo, events[n]) && events[n].before == Before(a, events, n) && events[n].open == OpenAt(events, n)
  }

  /** What came before depends on nothing later. */
  lemma FollowsSame(geo: Geo, a: State, p: seq<Event>, q: seq<Event>, n: nat)
    requires GeoOk(geo) && n < |p| && n < |q| && p[n] == q[n] && (0 < n ==> p[n - 1] == q[n - 1])
    ensures Follows(geo, a, p, n) <==> Follows(geo, a, q, n)
  {
    hide Did, GeoOk;
  }

  lemma StoryMore(geo: Geo, a: State, b: State, events: seq<Event>, open: seq<Snapshot>, e: Event)
    requires GeoOk(geo) && Story(geo, a, b, events, open) && e.before == b && e.open == open && Did(geo, e)
    ensures Story(geo, a, e.after, events + [e], e.rest)
  {
    var es := events + [e];
    assert Follows(geo, a, es, |events|);
    hide Follows, GeoOk, Did;
    forall n | 0 <= n < |events| ensures Follows(geo, a, es, n) { FollowsSame(geo, a, events, es, n); }
  }

  lemma StoryLess(geo: Geo, a: State, b: State, events: seq<Event>, open: seq<Snapshot>)
    requires GeoOk(geo) && Story(geo, a, b, events, open) && events != []
    ensures
      var e := events[|events| - 1];
      Did(geo, e) && e.after == b && e.rest == open && Story(geo, a, e.before, events[..|events| - 1], e.open)
  {
    var m := |events| - 1;
    var p := events[..m];
    assert Follows(geo, a, events, m);
    hide Follows, GeoOk, Did;
    forall n | 0 <= n < m ensures Follows(geo, a, p, n) { FollowsSame(geo, a, events, p, n); }
  }

  /** The open streams have received exactly the chunks they accepted. */
  lemma {:induction false} StoryReceived(geo: Geo, a: State, b: State, events: seq<Event>, open: seq<Snapshot>)
    requires GeoOk(geo) && Story(geo, a, b, events, open)
    ensures Texts(open) == Pending(events)
    decreases |events|
  {
    hide GeoOk, Story, Did, After;
    if events == [] {
      StoryNone(geo, a, b, open);
    } else {
      StoryLess(geo, a, b, events, open);
      var e := events[|events| - 1];
      StoryReceived(geo, a, e.before, events[..|events| - 1], e.open);
      ReceivedNext(geo, e);
    }
  }

  lemma StoryNone(geo: Geo, a: State, b: State, open: seq<Snapshot>)
    requires GeoOk(geo) && Story(geo, a, b, [], open)
    ensures open == [] && b == a && Texts(open) == []
  {
  }

  lemma ReceivedNext(geo: Geo, e: Event)
    requires GeoOk(geo) && Did(geo, e)
    ensures Texts(e.rest) == After(Texts(e.open), e)
  {
    hide GeoOk, CrashSafe, Keeps, CreateDid, MkDirDid, RenameDid, DeleteDid, Extended, Reserved, Refusal, Returned,
      Made, Still, ChunkRefused, Unplaceable, LinkRefused, Overrun, NoInode, BlocksClaimed, InodesClaimed, Flat,
      CeilDiv, InUse, Unfinishable, Spent, ChunkWaste;
    match e.op
    case Begin(_) => {
      if e.outcome.Done? {
        assert e.rest == e.open + [e.rest[|e.open|]];
        assert Texts(e.rest) == Texts(e.open) + [[]];
      }
    }
    case Append(k, data) => {
      if !e.outcome.Skipped? { assert Texts(e.rest) == Texts(e.open)[k := e.rest[k].content]; }
      if e.outcome.Failed? { assert Texts(e.open)[k := e.open[k].content] == Texts(e.open); }
    }
    case Finish(k, _, _) => {
      if !e.outcome.Skipped? { assert Texts(e.rest) == Texts(e.open)[..k] + Texts(e.open)[k + 1..]; }
    }
    case Abandon(k) => {
      if !e.outcome.Skipped? { assert Texts(e.rest) == Texts(e.open)[..k] + Texts(e.open)[k + 1..]; }
    }
    case _ =>
  }

  /** Unless a number beyond the inode count was refused, nothing is owed. */
  lemma {:induction false} StoryKeeps(geo: Geo, a: State, b: State, events: seq<Event>, open: seq<Snapshot>)
    requires GeoOk(geo) && Story(geo, a, b, events, open) && forall n :: 0 <= n < |events| ==> !Overran(events[n])
    ensures Keeps(a, b)
    decreases |events|
  {
    hide GeoOk, Keeps, Did, Story;
    KeepsRefl(a);
    if events == [] {
      StoryNone(geo, a, b, open);
    } else {
      var e := events[|events| - 1];
      StoryLess(geo, a, b, events, open);
      DidKeeps(geo, e);
      StoryKeeps(geo, a, e.before, events[..|events| - 1], e.open);
      KeepsTrans(a, e.before, e.after);
    }
  }

  lemma DidKeeps(geo: Geo, e: Event)
    requires GeoOk(geo) && Did(geo, e) && !Overran(e)
    ensures Keeps(e.before, e.after)
  {
    hide GeoOk, Keeps, CrashSafe, CreateDid, MkDirDid, RenameDid, DeleteDid, BeginDid, AppendDid, FinishDid, AbandonDid;
  }

  // ----- files stay -----

  /** The file holding `data` is there under its name. */
  ghost predicate Stands(geo: Geo, d: Disk, dir: nat, f: Entry, data: seq<byte>)
    requires GeoOk(geo)
  {
    HasEntry(geo, d, dir, f) && InUse(geo, d, f.ino) && NewFile(geo, d, d.inodes[f.ino], data)
  }

  /** The operation is a rename of that name, to it, or over the file or its
      directory, or a deletion of a tree that has the file or its directory. */
  ghost predicate Reaches(geo: Geo, d: Disk, op: Op, dir: nat, f: Entry)
    requires GeoOk(geo)
  {
    match op
    case Rename(x, old_, new_) =>
      || (x == dir && (old_ == f.name || new_ == f.name))
      || Names(geo, d, x, new_, f.ino) || Names(geo, d, x, new_, dir)
    case Delete(x, name) =>
      exists g :: HasEntry(geo, d, x, g) && g.name == name && (Below(geo, d, g.ino, f.ino) || Below(geo, d, g.ino, dir))
    case _ => false
  }

  /** A file that is there stays, with its bytes, as long as no operation
      reaches it. */
  lemma {:induction false} Survives(geo: Geo, a: State, b: State, events: seq<Event>, open: seq<Snapshot>, n: nat,
      dir: nat, f: Entry, data: seq<byte>)
    requires GeoOk(geo) && Story(geo, a, b, events, open) && n <= |events|
    requires Stands(geo, Before(a, events, n).disk, dir, f, data)
    requires forall m :: n <= m < |events| ==> !Reaches(geo, events[m].before.disk, events[m].op, dir, f)
    ensures Stands(geo, b.disk, dir, f, data)
    decreases |events|
  {
    hide GeoOk, Did, Stands, Reaches;
    if n < |events| {
      var p, e := events[..|events| - 1], events[|events| - 1];
      StoryLess(geo, a, b, events, open);
      assert Before(a, p, n) == Before(a, events, n);
      Survives(geo, a, e.before, p, e.open, n, dir, f, data);
      StandsNext(geo, e, dir, f, data);
    }
  }

  /** What a creation or a finished stream made is there at the end of the run,
      unless an operation in between reached it. */
  lemma MadeSurvives(geo: Geo, a: State, b: State, events: seq<Event>, open: seq<Snapshot>, n: nat, dir: nat, f: Entry,
      data: seq<byte>)
    requires GeoOk(geo) && Story(geo, a, b, events, open) && n < |events|
    requires Made(geo, events[n].before.disk, events[n].after.disk, dir, f, data)
    requires forall m :: n < m < |events| ==> !Reaches(geo, events[m].before.disk, events[m].op, dir, f)
    ensures Stands(geo, b.disk, dir, f, data)
  {
    hide GeoOk, Did, Reaches, Story;
    MadeStands(geo, events[n].before.disk, events[n].after.disk, dir, f, data);
    assert Before(a, events, n + 1) == events[n].after;
    Survives(geo, a, b, events, open, n + 1, dir, f, data);
  }

  lemma MadeStands(geo: Geo, d: Disk, d': Disk, dir: nat, f: Entry, data: seq<byte>)
    requires GeoOk(geo) && Made(geo, d, d', dir, f, data)
    ensures Stands(geo, d', dir, f, data)
  {
    hide GeoOk, HasEntry, NewFile, InUse, Same;
  }

  /** The file itself and its directory are as they were. */
  lemma StandsSame(geo: Geo, d: Disk, d': Disk, dir: nat, f: Entry, data: seq<byte>)
    requires GeoOk(geo) && CrashSafe(geo, d') && Stands(geo, d, dir, f, data) && Same(geo, d, d', f.ino)
    requires HasEntry(geo, d', dir, f)
    ensures Stands(geo, d', dir, f, data)
  {
    hide GeoOk, CrashSafe, HasEntry, IUsed, NamedBy, EntriesOf, BUsed, FileBytes, DataOf;
    var r := d.inodes[f.ino];
    GeoSize(geo);
    SameFile(d.blocks, d'.blocks, r, geo.blockSize);
    InUseMarked(geo, d', f.ino);
  }

  lemma InUseMarked(geo: Geo, d: Disk, i: nat)
    requires GeoOk(geo) && CrashSafe(geo, d) && InUse(geo, d, i)
    ensures forall b :: b in NamedBy(d.blocks, d.inodes[i]) ==> BUsed(geo, d.bbm, b)
  {
  }

  lemma SameFile(x: map<nat, Content>, y: map<nat, Content>, r: Record, bs: nat)
    requires r.Inode? && r.kind != Dir && Intact(x, y, r) && 0 < bs
    ensures FileBytes(y, DataOf(y, r), bs, r.size) == FileBytes(x, DataOf(x, r), bs, r.size)
  {
    hide NamedBy, EntriesOf, FileBytes;
    RecordFrame(x, y, r);
    InNamed(x, r);
    FileBytesFrame(x, y, DataOf(x, r), bs, r.size);
  }

  lemma InNamed(x: map<nat, Content>, r: Record)
    ensures forall b :: b in DataOf(x, r) ==> b in NamedBy(x, r)
  {
  }

  /** One operation that does not reach the file. */
  lemma StandsNext(geo: Geo, e: Event, dir: nat, f: Entry, data: seq<byte>)
    requires GeoOk(geo) && Did(geo, e) && Stands(geo, e.before.disk, dir, f, data)
    requires !Reaches(geo, e.before.disk, e.op, dir, f)
    ensures Stands(geo, e.after.disk, dir, f, data)
  {
    hide GeoOk, CrashSafe, Keeps, CreateDid, MkDirDid, RenameDid, DeleteDid, BeginDid, AppendDid, FinishDid, AbandonDid,
      Reaches, Stands;
    var a, b := e.before, e.after;
    if !e.outcome.Skipped? {
      match e.op
      case Create(x, name, d) => StandsCreate(geo, a, b, e.outcome, x, name, d, dir, f, data);
      case MkDir(x, name) => StandsMkDir(geo, a, b, e.outcome, x, name, dir, f, data);
      case Rename(x, old_, new_) => StandsRename(geo, a, b, e.outcome, x, old_, new_, dir, f, data);
      case Delete(x, name) => StandsDelete(geo, a, b, e.outcome, x, name, dir, f, data);
      case Begin(size) => StandsBegin(geo, a, b, e.outcome, size, e.open, e.rest, dir, f, data);
      case Append(k, d) => StandsAppend(geo, a, b, e.outcome, k, d, e.open, e.rest, dir, f, data);
      case Finish(k, x, name) => StandsFinish(geo, a, b, e.outcome, k, x, name, e.open, e.rest, dir, f, data);
      case Abandon(k) => StandsAbandon(geo, a, b, e.outcome, k, e.open, e.rest, dir, f, data);
    }
  }

  lemma StandsStill(geo: Geo, d: Disk, d': Disk, dir: nat, f: Entry, data: seq<byte>)
    requires GeoOk(geo) && CrashSafe(geo, d') && Stands(geo, d, dir, f, data) && Same(geo, d, d', f.ino)
    requires Same(geo, d, d', dir)
    ensures Stands(geo, d', dir, f, data)
  {
    hide GeoOk, CrashSafe, NewFile, IUsed;
    SameEntries(geo, d, d', dir);
    hide HasEntry, Same;
    StandsSame(geo, d, d', dir, f, data);
  }

  lemma StandsRefused(geo: Geo, a: State, b: State, error: Error, isDir: bool, nb: nat, ni: nat, dir: nat, f: Entry,
      data: seq<byte>)
    requires GeoOk(geo) && CrashSafe(geo, b.disk) && Refusal(geo, a, b, error, isDir, nb, ni)
    requires Stands(geo, a.disk, dir, f, data)
    ensures Stands(geo, b.disk, dir, f, data)
  {
    hide GeoOk, CrashSafe, Keeps, ChargedTo, NewFile, IUsed, EntriesOf, NamedBy;
    if error != BadInode { StandsStill(geo, a.disk, b.disk, dir, f, data); }
  }

  lemma StandsAdded(geo: Geo, d: Disk, d': Disk, x: nat, g: Entry, dir: nat, f: Entry, data: seq<byte>)
    requires GeoOk(geo) && CrashSafe(geo, d') && Added(geo, d, d', x, g) && Stands(geo, d, dir, f, data)
    ensures Stands(geo, d', dir, f, data)
  {
    hide GeoOk, CrashSafe, NewFile, IUsed, Intact, EntriesOf;
    FileNotDir(geo, d, dir, f, data, x);
    if dir == x {
      StandsSame(geo, d, d', dir, f, data);
    } else {
      StandsStill(geo, d, d', dir, f, data);
    }
  }

  lemma FileNotDir(geo: Geo, d: Disk, dir: nat, f: Entry, data: seq<byte>, x: nat)
    requires GeoOk(geo) && Stands(geo, d, dir, f, data)
    ensures (IsDir(geo, d, x) ==> f.ino != x) && IsDir(geo, d, dir)
  {
    hide GeoOk, IUsed, EntriesOf, NamedBy, FileBytes, DataOf;
  }

  lemma StandsCreate(geo: Geo, a: State, b: State, o: Outcome, x: nat, name: Name, d: seq<byte>, dir: nat, f: Entry,
      data: seq<byte>)
    requires GeoOk(geo) && CrashSafe(geo, b.disk) && CreateDid(geo, a, b, o, x, name, d) && !o.Skipped?
    requires Stands(geo, a.disk, dir, f, data)
    ensures Stands(geo, b.disk, dir, f, data)
  {
    hide GeoOk, CrashSafe, Refusal, Added, NewFile, Unplaceable, LinkRefused, Overrun, BlocksClaimed, InodesClaimed,
      CeilDiv, Stands, Spent, InUse, NameOk;
    if o.Done? {
      StandsAdded(geo, a.disk, b.disk, x, Entry(o.ino, name, 1), dir, f, data);
    } else {
      GeoSize(geo);
      var n := CeilDiv(|d|, geo.blockSize);
      var nb := if NameOk(name) then BlocksClaimed(geo, a.disk, a.groups, n) else 0;
      var ni := if NameOk(name) then InodesClaimed(geo, a.disk, a.groups) else 0;
      StandsRefused(geo, a, b, o.error, false, nb, ni, dir, f, data);
    }
  }

  lemma StandsMkDir(geo: Geo, a: State, b: State, o: Outcome, x: nat, name: Name, dir: nat, f: Entry, data: seq<byte>)
    requires GeoOk(geo) && CrashSafe(geo, b.disk) && MkDirDid(geo, a, b, o, x, name) && !o.Skipped?
    requires Stands(geo, a.disk, dir, f, data)
    ensures Stands(geo, b.disk, dir, f, data)
  {
    hide GeoOk, CrashSafe, Refusal, Added, Unhoused, LinkRefused, Overrun, BlocksClaimed, InodesClaimed, Stands, Spent,
      NameOk, IUsed, EntriesOf;
    if o.Done? {
      StandsAdded(geo, a.disk, b.disk, x, Entry(o.ino, name, 2), dir, f, data);
    } else {
      var tried := NameOk(name) && a.disk.inodes[x].kind == Dir;
      var nb := if tried then BlocksClaimed(geo, a.disk, a.groups, 1) else 0;
      var ni := if tried then InodesClaimed(geo, a.disk, a.groups) else 0;
      StandsRefused(geo, a, b, o.error, true, nb, ni, dir, f, data);
    }
  }

  lemma StandsRename(geo: Geo, a: State, b: State, o: Outcome, x: nat, old_: Name, new_: Name, dir: nat, f: Entry,
      data: seq<byte>)
    requires GeoOk(geo) && CrashSafe(geo, b.disk) && RenameDid(geo, a, b, o, x, old_, new_) && !o.Skipped?
    requires Stands(geo, a.disk, dir, f, data)
    requires !Reaches(geo, a.disk, Rename(x, old_, new_), dir, f)
    ensures Stands(geo, b.disk, dir, f, data)
  {
    hide GeoOk, CrashSafe, RenameRefused, NewFile, IUsed, EntriesOf, DataOf, Intact;
    FileNotDir(geo, a.disk, dir, f, data, x);
    hide Stands;
    if o.Done? && old_ != new_ {
      var ino :| Renamed(geo, a.disk, b.disk, x, old_, new_, ino);
      assert Elsewhere(geo, a.disk, b.disk, x, Victims(geo, a.disk, x, new_)) && IsDir(geo, a.disk, x);
      StandsElsewhere(geo, a.disk, b.disk, x, Victims(geo, a.disk, x, new_), old_, new_, dir, f, data);
    } else if o.Failed? && IsDir(geo, a.disk, x) {
      StandsElsewhere(geo, a.disk, b.disk, x, Victims(geo, a.disk, x, new_), old_, new_, dir, f, data);
    }
  }

  lemma StandsElsewhere(geo: Geo, d: Disk, d': Disk, x: nat, gone: set<nat>, old_: Name, new_: Name, dir: nat, f: Entry,
      data: seq<byte>)
    requires GeoOk(geo) && CrashSafe(geo, d') && Stands(geo, d, dir, f, data) && Elsewhere(geo, d, d', x, gone)
    requires dir !in gone && f.ino !in gone
    requires forall g: Entry :: g.name != old_ && g.name != new_ && HasEntry(geo, d, x, g) ==> HasEntry(geo, d', x, g)
    requires (x == dir ==> old_ != f.name && new_ != f.name) && f.ino != x
    ensures Stands(geo, d', dir, f, data)
  {
    hide GeoOk, CrashSafe, NewFile, IUsed, EntriesOf, Same;
    if x == dir {
      StandsSame(geo, d, d', dir, f, data);
    } else {
      StandsStill(geo, d, d', dir, f, data);
    }
  }

  lemma StandsDelete(geo: Geo, a: State, b: State, o: Outcome, x: nat, name: Name, dir: nat, f: Entry, data: seq<byte>)
    requires GeoOk(geo) && CrashSafe(geo, b.disk) && DeleteDid(geo, a, b, o, x, name) && !o.Skipped?
    requires Stands(geo, a.disk, dir, f, data)
    requires !Reaches(geo, a.disk, Delete(x, name), dir, f)
    ensures Stands(geo, b.disk, dir, f, data)
  {
    hide GeoOk, CrashSafe, NewFile, IUsed, EntriesOf, Blocked, Below, Same;
    if exists g :: HasEntry(geo, a.disk, x, g) && g.name == name {
      var g :| HasEntry(geo, a.disk, x, g) && g.name == name;
      FileNotDir(geo, a.disk, dir, f, data, x);
      BelowSelf(geo, a.disk, g.ino);
      var cut := if o.Done? then Deleted(geo, a.disk, b.disk, x, name, g.ino) else Cut(geo, a.disk, b.disk, x, name,
        g.ino);
      assert cut;
      if dir == x {
        BelowSelf(geo, a.disk, f.ino);
        assert f.name != name;
        StandsSame(geo, a.disk, b.disk, dir, f, data);
      } else {
        StandsStill(geo, a.disk, b.disk, dir, f, data);
      }
    }
  }

  lemma StandsBegin(geo: Geo, a: State, b: State, o: Outcome, size: Option<nat>, open: seq<Snapshot>,
      rest: seq<Snapshot>, dir: nat, f: Entry, data: seq<byte>)
    requires GeoOk(geo) && CrashSafe(geo, b.disk) && BeginDid(geo, a, b, o, size, open, rest)
    requires Stands(geo, a.disk, dir, f, data)
    ensures Stands(geo, b.disk, dir, f, data)
  {
    hide GeoOk, CrashSafe, Refusal, Unplaceable, Overrun, NoInode, BlocksClaimed, InodesClaimed, CeilDiv, Spent,
      Reserved, Begun, Flat, Still, Stands;
    if o.Done? {
      AllStands(geo, a.disk, b.disk, dir, f, data);
    } else {
      GeoSize(geo);
      var nb := if size.Some? then BlocksClaimed(geo, a.disk, a.groups, CeilDiv(size.value, geo.blockSize)) else 0;
      StandsRefused(geo, a, b, o.error, false, nb, if size.Some? then InodesClaimed(geo, a.disk, a.groups) else 0, dir,
        f, data);
    }
  }

  lemma StandsAppend(geo: Geo, a: State, b: State, o: Outcome, k: nat, d: seq<byte>, open: seq<Snapshot>,
      rest: seq<Snapshot>, dir: nat, f: Entry, data: seq<byte>)
    requires GeoOk(geo) && CrashSafe(geo, b.disk) && AppendDid(geo, a, b, o, k, d, open, rest) && !o.Skipped?
    requires Stands(geo, a.disk, dir, f, data)
    ensures Stands(geo, b.disk, dir, f, data)
  {
    hide GeoOk, CrashSafe, ChunkRefused, ChunkWaste, Extended, Still, Stands;
    AllStands(geo, a.disk, b.disk, dir, f, data);
  }

  lemma AllStands(geo: Geo, d: Disk, d': Disk, dir: nat, f: Entry, data: seq<byte>)
    requires GeoOk(geo) && CrashSafe(geo, d') && Still(geo, d, d') && Stands(geo, d, dir, f, data)
    ensures Stands(geo, d', dir, f, data)
  {
    hide GeoOk, CrashSafe, Same;
    FileNotDir(geo, d, dir, f, data, f.ino);
    StandsStill(geo, d, d', dir, f, data);
  }

  lemma StandsFinish(geo: Geo, a: State, b: State, o: Outcome, k: nat, x: nat, name: Name, open: seq<Snapshot>,
      rest: seq<Snapshot>, dir: nat, f: Entry, data: seq<byte>)
    requires GeoOk(geo) && CrashSafe(geo, b.disk) && FinishDid(geo, a, b, o, k, x, name, open, rest) && !o.Skipped?
    requires Stands(geo, a.disk, dir, f, data)
    ensures Stands(geo, b.disk, dir, f, data)
  {
    hide GeoOk, CrashSafe, Added, LinkRefused, Unfinishable, Returned, Stands, NewFile, Flat, Still;
    if o.Done? {
      StandsAdded(geo, a.disk, b.disk, x, Entry(open[k].ino, name, 1), dir, f, data);
    } else {
      AllStands(geo, a.disk, b.disk, dir, f, data);
    }
  }

  lemma StandsAbandon(geo: Geo, a: State, b: State, o: Outcome, k: nat, open: seq<Snapshot>, rest: seq<Snapshot>,
      dir: nat, f: Entry, data: seq<byte>)
    requires GeoOk(geo) && CrashSafe(geo, b.disk) && AbandonDid(geo, a, b, o, k, open, rest) && !o.Skipped?
    requires Stands(geo, a.disk, dir, f, data)
    ensures Stands(geo, b.disk, dir, f, data)
  {
    hide GeoOk, CrashSafe, Returned, Stands, Flat, Still;
    AllStands(geo, a.disk, b.disk, dir, f, data);
  }

  // ----- runs -----

  /** Mount a safe medium and run any operations on it. Whatever prefix of the
      device writes reached the medium, every named block is marked in use and
      named once, and every entry leads to a written inode. Each operation was
      done or refused exactly when it should be and did what it should, a
      finished stream holding exactly the chunks it accepted. The counters are
      as far from the bitmaps as they were at mount, in memory and on the medium,
      but for numbers beyond the inode count. */
  method Run(geo: Geo, disk: Disk, ops: seq<Op>) returns (fs: Ext4, ghost start: State, ghost events: seq<Event>,
      ghost left: seq<Snapshot>)
    requires GeoOk(geo) && CrashSafe(geo, disk)
    ensures fs.Valid() && fs.geo == geo && fs.disk == Replay(disk, fs.log)
    ensures forall k :: 0 <= k <= |fs.log| ==> CrashSafe(geo, Replay(disk, fs.log[..k]))
    ensures |events| == |ops| && forall n :: 0 <= n < |ops| ==> events[n].op == ops[n]
    ensures Mounted(geo, disk, start) && Story(geo, start, fs.Now(), events, left) && Texts(left) == Pending(events)
    ensures BlockCount(geo, fs.groups, fs.disk.bbm, DriftOf(geo, disk).blocks)
    ensures BlockCount(geo, fs.disk.gd, fs.disk.bbm, DriftOf(geo, disk).blocks)
    ensures InodeSide(geo, fs.disk, fs.groups, fs.dirs, fs.drift)
    ensures (forall n :: 0 <= n < |events| ==> !Overran(events[n])) ==>
      && fs.drift == DriftOf(geo, disk) && fs.disk.gd == fs.groups && fs.disk.freeBlocks == fs.freeBlocks
      && fs.disk.freeInodes == fs.freeInodes
  {
    hide CrashSafe, Replay, GeoOk, HeldOk, BlockCount, InodeSide, Saved, SessionOk, Spared, AllFit, Did, Story, Pending,
      After, Keeps, Clear;
    fs := new Ext4.Mount(geo, disk);
    start := fs.Now();
    var open: seq<FileWriter> := [];
    events := [];
    NoStreams(fs);
    NoEvents(geo, start);
    for n := 0 to |ops|
      invariant fs.geo == geo && fs.base == disk && fs.drift.blocks == start.drift.blocks
      invariant SessionOk(fs, open) && fresh(fs) && forall i :: 0 <= i < |open| ==> fresh(open[i])
      invariant |events| == n && Story(geo, start, fs.Now(), events, Snaps(open))
      invariant forall k :: 0 <= k < n ==> events[k].op == ops[k]
    {
      SessionParts(fs, open);
      ghost var b, ss := fs.Now(), Snaps(open);
      var o: Outcome;
      open, o := Step(fs, open, ops[n]);
      ghost var e := Event(ops[n], b, fs.Now(), o, ss, Snaps(open));
      BlocksKept(geo, e);
      StoryMore(geo, start, b, events, ss, e);
      events := events + [e];
    }
    SessionParts(fs, open);
    left := Snaps(open);
    StoryReceived(geo, start, fs.Now(), events, left);
    if forall n :: 0 <= n < |events| ==> !Overran(events[n]) {
      StoryKeeps(geo, start, fs.Now(), events, left);
      KeptMedium(fs, start);
    }
    MediumCount(fs);
  }

  /** The state right after mounting a medium. */
  ghost predicate Mounted(geo: Geo, disk: Disk, a: State)
    requires GeoOk(geo) && CrashSafe(geo, disk)
  {
    && a.disk == disk && a.groups == disk.gd && a.freeBlocks == disk.freeBlocks && a.freeInodes == disk.freeInodes
    && a.drift == DriftOf(geo, disk) && Clear(a.owed)
  }

  /** One operation of a run. */
  method Step(fs: Ext4, open: seq<FileWriter>, op: Op) returns (now: seq<FileWriter>, o: Outcome)
    requires SessionOk(fs, open) && fs.Valid()
    modifies fs, set w | w in open
    ensures SessionOk(fs, now) && old(fs.log) <= fs.log
    ensures forall i :: 0 <= i < |now| ==> now[i] in open || fresh(now[i])
    ensures Did(fs.geo, Event(op, old(fs.Now()), fs.Now(), o, old(Snaps(open)), Snaps(now)))
  {
    hide CrashSafe, Replay, GeoOk, HeldOk, BlockCount, InodeSide, Saved, Spared, AllFit, Keeps, SafeHistory, BeginDid,
      AppendDid, FinishDid, AbandonDid, CreateDid, MkDirDid, RenameDid, DeleteDid;
    now := open;
    ghost var ss, b := Snaps(open), fs.Now();
    KeepsRefl(b);
    match op
    case Begin(size) =>
      now, o := BeginOp(fs, open, size);
      BegunDone(fs.geo, b, fs.Now(), o, size, ss, Snaps(now));
    case Append(k, data) =>
      if k < |open| {
        o := AppendOp(fs, open, k, data);
        AppendDone(fs.geo, b, fs.Now(), o, k, data, ss, Snaps(open));
      } else {
        o := Skipped;
        NoStream(fs.geo, ss, op, b);
      }
    case Finish(k, dir, name) =>
      if k < |open| {
        now, o := FinishOp(fs, open, k, dir, name);
      } else {
        o := Skipped;
        NoStream(fs.geo, ss, op, b);
      }
    case Abandon(k) =>
      if k < |open| {
        now, o := AbandonOp(fs, open, k);
      } else {
        o := Skipped;
        NoStream(fs.geo, ss, op, b);
      }
    case _ =>
      ghost var x, h, dirs := fs.disk.blocks, fs.held, fs.dirs;
      SessionParts(fs, open);
      o := NameOp(fs, op, ss);
      assert Snaps(open) == ss;
      SessionAfter(fs, open, ss, x, h, dirs);
  }

  lemma BegunDone(geo: Geo, a: State, b: State, o: Outcome, size: Option<nat>, open: seq<Snapshot>, rest: seq<Snapshot>)
    requires GeoOk(geo) && BeginDid(geo, a, b, o, size, open, rest)
    ensures !o.Skipped?
  {
    hide GeoOk, Refusal, Reserved, Unplaceable, NoInode, Overrun, BlocksClaimed, InodesClaimed, Still, CeilDiv;
  }

  lemma AppendDone(geo: Geo, a: State, b: State, o: Outcome, k: nat, data: seq<byte>, open: seq<Snapshot>,
      rest: seq<Snapshot>)
    requires GeoOk(geo) && AppendDid(geo, a, b, o, k, data, open, rest) && k < |open|
    ensures !o.Skipped?
  {
    hide GeoOk, Extended, Still, ChunkRefused, ChunkWaste;
  }

  lemma NoStream(geo: Geo, ss: seq<Snapshot>, op: Op, a: State)
    requires GeoOk(geo) && CrashSafe(geo, a.disk)
    requires
      match op
      case Append(k, _) => k >= |ss|
      case Finish(k, _, _) => k >= |ss|
      case Abandon(k) => k >= |ss|
      case _ => false
    ensures Did(geo, Event(op, a, a, Skipped, ss, ss))
  {
    hide GeoOk, Keeps, InUse, CrashSafe;
    KeepsRefl(a);
  }

  lemma NoEvents(geo: Geo, a: State)
    requires GeoOk(geo)
    ensures Story(geo, a, a, [], [])
  {
  }

  /** No operation changes how far the block counters are off. */
  lemma BlocksKept(geo: Geo, e: Event)
    requires GeoOk(geo) && Did(geo, e)
    ensures e.after.drift.blocks == e.before.drift.blocks
  {
    hide GeoOk, CrashSafe, RenameDid, DeleteDid, AppendDid, FinishDid, AbandonDid, Made, Added, InUse, Restored,
      Overrun, Offered, Reserved, Still, BlocksClaimed, InodesClaimed, Unplaceable, Unhoused, LinkRefused, NoInode,
      CeilDiv, EntriesOf, NameOk, Begun, Spent;
  }

  lemma KeptMedium(fs: Ext4, a: State)
    requires fs.Valid() && Keeps(a, fs.Now()) && Clear(a.owed) && a.disk.freeInodes == a.freeInodes
    ensures fs.disk.gd == fs.groups && fs.disk.freeBlocks == fs.freeBlocks && fs.disk.freeInodes == fs.freeInodes
    ensures fs.drift == a.drift
  {
    hide CrashSafe, SafeHistory, Replay, GeoOk, HeldOk, BlockCount, InodeSide, Saved, Clear;
    fs.SettledMeans();
  }

  lemma MediumCount(fs: Ext4)
    requires fs.Valid()
    ensures BlockCount(fs.geo, fs.groups, fs.disk.bbm, fs.drift.blocks)
    ensures BlockCount(fs.geo, fs.disk.gd, fs.disk.bbm, fs.drift.blocks)
    ensures InodeSide(fs.geo, fs.disk, fs.groups, fs.dirs, fs.drift)
  {
    hide CrashSafe, SafeHistory, Replay, GeoOk, HeldOk, BlockCount, InodeSide;
  }

  lemma NoStreams(fs: Ext4)
    requires fs.Valid()
    ensures SessionOk(fs, [])
  {
  }

  lemma SessionParts(fs: Ext4, open: seq<FileWriter>)
    requires SessionOk(fs, open)
    ensures fs.Valid() && AllFit(fs.geo, fs.disk.blocks, fs.held, fs.dirs, Snaps(open))
  {
  }

  /** Creating a file that finds its place but not its name: the superblock's
      counters end as what they were or what the file claimed, whichever is
      larger. A count that was too low stays too high, as 0 becomes 1 here. */
  method RefusedCreate(fs: Ext4, dir: nat, name: Name, data: seq<byte>) returns (r: Result<nat>)
    requires fs.Valid() && InUse(fs.geo, fs.disk, dir) && NameOk(name) && LinkRefused(fs.geo, fs.disk, dir, name)
    requires 0 < fs.geo.blockSize && !Unplaceable(fs.geo, fs.disk, fs.groups, CeilDiv(|data|, fs.geo.blockSize))
    modifies fs
    ensures GeoOk(fs.geo) && r.Err? && Restored(fs.geo, old(fs.disk), old(fs.groups), fs.disk, fs.groups)
    ensures
      var nb := BlocksClaimed(fs.geo, old(fs.disk), old(fs.groups), CeilDiv(|data|, fs.geo.blockSize));
      fs.freeBlocks == Max(old(fs.freeBlocks), nb) && fs.freeInodes == Max(old(fs.freeInodes), 1)
    ensures |data| == 1 && old(fs.freeBlocks) == 0 ==> fs.freeBlocks == 1
  {
    hide CrashSafe, SafeHistory, Replay, GeoOk, HeldOk, BlockCount, InodeSide, Saved, Restored, InUse, NameOk, NewFile,
      HasEntry, Unplaceable, Refusal, BlocksClaimed, InodesClaimed, Overrun, HeldKept, LinkRefused, fs.Refused,
      fs.CreateTrace, fs.Recorded, Added, IUsed, CeilDiv, Max, Keeps;
    ghost var n, a := CeilDiv(|data|, fs.geo.blockSize), fs.Now();
    ghost var rec, pre, nb, ni;
    r, rec, pre, nb, ni := fs.CreateFile(dir, name, data, 1);
    ClaimedOnce(fs.geo, a.disk, a.groups, n);
    RefusalCounts(fs.geo, a, fs.Now(), r.error, nb, ni);
    if |data| == 1 { OneBlock(fs.geo.blockSize); }
  }

  lemma RefusalCounts(geo: Geo, a: State, b: State, error: Error, nb: nat, ni: nat)
    requires GeoOk(geo) && Refusal(geo, a, b, error, false, nb, ni) && error != BadInode
    ensures Restored(geo, a.disk, a.groups, b.disk, b.groups) && b.freeBlocks == Max(a.freeBlocks, nb)
    ensures b.freeInodes == Max(a.freeInodes, ni)
    ensures nb == 1 && a.freeBlocks == 0 ==> b.freeBlocks == 1
  {
    hide GeoOk, Restored, Keeps;
  }

  lemma ClaimedOnce(geo: Geo, d: Disk, groups: seq<GroupDesc>, n: nat)
    requires GeoOk(geo) && !Unplaceable(geo, d, groups, n)
    ensures !Overrun(geo, d, groups) && InodesClaimed(geo, d, groups) == 1
    ensures n == 1 ==> BlocksClaimed(geo, d, groups, n) == 1
  {
    hide GeoOk, NoInode, Overrun, Short, Needs, MaxRuns;
    ClaimsData(geo, d, groups, 1);
    if n == 1 { TallyOne(geo, d, groups, 1, 1); }
  }

  lemma OneBlock(bs: nat)
    requires 0 < bs
    ensures CeilDiv(1, bs) == 1
  {
  }
}
