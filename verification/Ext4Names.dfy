/** What taking a name out of a directory or dropping an inode does to the rest
    of the filesystem, and `rename_file` (core/src/fs/ext4/file.rs). */
module Ext4Names {
  import opened Bytes
  import opened Extents
  import opened DirChain
  import opened Ext4Disk
  import opened Ext4Steps
  import opened Ext4Bitmap
  import opened Ext4Inodes
  import opened Ext4Books
  import opened Ext4Writer

  /** Unlinking takes one entry out of `dir` and touches nothing else. */
  lemma UnlinkedMeans(fs: Ext4, d: Disk, d': Disk, dir: nat, name: Name, ino: nat)
    requires GeoOk(fs.geo) && CrashSafe(fs.geo, d) && fs.Unlinked(d, d', dir, name, ino)
    ensures Elsewhere(fs.geo, d, d', dir, {}) && IsDir(fs.geo, d, dir) && IsDir(fs.geo, d', dir)
    ensures d'.inodes == d.inodes
    ensures DataOf(d'.blocks, d.inodes[dir]) == DataOf(d.blocks, d.inodes[dir])
    ensures forall f :: HasEntry(fs.geo, d', dir, f) <==> HasEntry(fs.geo, d, dir, f) && f.name != name
    ensures exists e :: HasEntry(fs.geo, d, dir, e) && e.name == name && e.ino == ino
  {
    hide CrashSafe, GeoOk, IUsed, EntriesOf, DataOf, Elsewhere, Without, DistinctNames, Unnamed;
    var b, c :| b in DataOf(d.blocks, d.inodes[dir]) && d' == d.(blocks := d.blocks[b := DirBlock(c)]);
    DirBlockElsewhere(fs.geo, d, dir, b, c);
    DirNames(fs.geo, d, dir);
    WithoutDistinct(EntriesOf(d.blocks, d.inodes[dir]), name);
  }

  /** Dropping an inode touches no other. */
  lemma DroppedMeans(geo: Geo, d: Disk, d': Disk, i: nat)
    requires GeoOk(geo) && CrashSafe(geo, d) && InUse(geo, d, i)
    requires InoGroup(geo, i) < |d.ibm| && InoBit(geo, i) < |d.ibm[InoGroup(geo, i)]|
    requires d'.blocks == d.blocks && d'.inodes == d.inodes[i := Blank] && d'.ibm == SetIno(geo, d.ibm, i, false)
    ensures !InUse(geo, d', i) && forall j :: InUse(geo, d, j) && j != i ==> Same(geo, d, d', j)
    ensures forall j :: InUse(geo, d', j) ==> InUse(geo, d, j) && j != i
    ensures forall j, e :: j != i ==> HasEntry(geo, d', j, e) == HasEntry(geo, d, j, e)
  {
    hide CrashSafe, GeoOk, IUsed, EntriesOf, NamedBy, SetIno, InoGroup, InoBit;
    InUseAt(geo, d, i);
    CrashShape(geo, d, i);
    SlotInUse(geo, d, d', i, false);
  }

  lemma InUseAt(geo: Geo, d: Disk, i: nat)
    requires GeoOk(geo) && InUse(geo, d, i)
    ensures 0 < i
  {
  }

  // ----- renaming -----

  /** `dir` holds an entry `name` for inode `ino`. */
  ghost predicate Names(geo: Geo, d: Disk, dir: nat, name: Name, ino: nat)
    requires GeoOk(geo)
  {
    exists e :: HasEntry(geo, d, dir, e) && e.name == name && e.ino == ino
  }

  /** Whatever `new` named in the directory. */
  ghost function Victims(geo: Geo, d: Disk, dir: nat, name: Name): (s: set<nat>)
    requires GeoOk(geo)
    ensures forall i :: i in s <==> InUse(geo, d, dir) && Names(geo, d, dir, name, i)
  {
    if !IsDir(geo, d, dir) then {}
    else set e | e in EntriesOf(d.blocks, d.inodes[dir]) && Real(e) && e.name == name :: e.ino
  }

  /** The directory itself survives with the same record and blocks. */
  ghost predicate DirKept(geo: Geo, d: Disk, d': Disk, dir: nat)
    requires GeoOk(geo)
  {
    && IsDir(geo, d, dir) && IsDir(geo, d', dir) && d'.inodes[dir] == d.inodes[dir]
    && DataOf(d'.blocks, d.inodes[dir]) == DataOf(d.blocks, d.inodes[dir])
  }

  /** `old` became `new`: the same inode under the new name, whatever `new`
      named before gone, every other entry and inode untouched. */
  ghost predicate Renamed(geo: Geo, d: Disk, d': Disk, dir: nat, old_: Name, new_: Name, ino: nat)
    requires GeoOk(geo)
  {
    && Names(geo, d, dir, old_, ino) && ino !in Victims(geo, d, dir, new_)
    && (forall f :: HasEntry(geo, d', dir, f) <==>
          f == Entry(ino, new_, 1) || (HasEntry(geo, d, dir, f) && f.name != old_ && f.name != new_))
    && (forall v :: v in Victims(geo, d, dir, new_) ==> !InUse(geo, d', v))
    && Elsewhere(geo, d, d', dir, Victims(geo, d, dir, new_)) && DirKept(geo, d, d', dir)
  }

  /** Every block pointer of the directory is one the entry code accepts. */
  ghost predicate PointersOk(geo: Geo, d: Disk, dir: nat)
    requires GeoOk(geo)
  {
    IsDir(geo, d, dir) ==> forall b :: b in DataOf(d.blocks, d.inodes[dir]) ==> b > geo.first
  }

  /** A refused rename: the old name still names its inode, and nothing else
      than the replaced file may be gone. */
  ghost predicate NotRenamed(geo: Geo, d: Disk, d': Disk, dir: nat, old_: Name, new_: Name)
    requires GeoOk(geo)
  {
    && Elsewhere(geo, d, d', dir, Victims(geo, d, dir, new_))
    && (forall f: Entry :: f.name != old_ && f.name != new_ ==> HasEntry(geo, d', dir, f) == HasEntry(geo, d, dir, f))
    && (PointersOk(geo, d, dir) && old_ != new_ ==>
          forall i :: Names(geo, d, dir, old_, i) ==> Names(geo, d', dir, old_, i))
  }

  /** When a rename to another name is refused: a bad name, a directory the
      writer does not change, no such file, a target that cannot be replaced, or
      no target and no room even without the old name. */
  ghost predicate RenameRefused(geo: Geo, d: Disk, gs: seq<GroupDesc>, dir: nat, old_: Name, new_: Name)
    requires GeoOk(geo) && dir in d.inodes
  {
    || BadName(old_) || BadName(new_) || Fixed(geo, d, dir)
    || (forall i :: Names(geo, d, dir, old_, i) ==> i in d.inodes && d.inodes[i].Inode? && d.inodes[i].kind != File)
    || Stubborn(geo, d, gs, dir, new_)
    || ((forall i :: !Names(geo, d, dir, new_, i)) && NoRoomWithout(d, dir, old_, new_))
  }

  /** The name belongs to something that a rename will not replace. */
  ghost predicate Stubborn(geo: Geo, d: Disk, gs: seq<GroupDesc>, dir: nat, name: Name)
    requires GeoOk(geo)
  {
    exists i :: Names(geo, d, dir, name, i) && i in d.inodes && d.inodes[i].Inode? && Irreplaceable(geo, d, gs, i)
  }

  lemma Yielding(geo: Geo, d: Disk, gs: seq<GroupDesc>, dir: nat, v: Entry)
    requires GeoOk(geo) && CrashSafe(geo, d) && HasEntry(geo, d, dir, v) && v.ino in d.inodes && d.inodes[v.ino].Inode?
    requires !Irreplaceable(geo, d, gs, v.ino)
    ensures !Stubborn(geo, d, gs, dir, v.name) && Names(geo, d, dir, v.name, v.ino)
  {
    hide GeoOk, CrashSafe, HasEntry, Irreplaceable;
    forall i | Names(geo, d, dir, v.name, i) ensures i == v.ino { SameName(geo, d, dir, v, i); }
  }

  lemma Unopposed(geo: Geo, d: Disk, gs: seq<GroupDesc>, dir: nat, name: Name)
    requires GeoOk(geo) && forall f :: HasEntry(geo, d, dir, f) ==> f.name != name
    ensures !Stubborn(geo, d, gs, dir, name) && forall i :: !Names(geo, d, dir, name, i)
  {
    hide GeoOk, HasEntry, Irreplaceable;
  }

  predicate BadName(name: Name) { 47 in name || !NameOk(name) }

  lemma NothingRenamed(geo: Geo, d: Disk, dir: nat, old_: Name, new_: Name)
    requires GeoOk(geo)
    ensures NotRenamed(geo, d, d, dir, old_, new_)
  {
    hide GeoOk, Elsewhere, HasEntry;
    ElsewhereRefl(geo, d, dir, Victims(geo, d, dir, new_));
  }

  lemma ElsewhereMore(geo: Geo, d: Disk, d': Disk, dir: nat, gone: set<nat>, more: set<nat>)
    requires GeoOk(geo) && Elsewhere(geo, d, d', dir, gone) && gone <= more
    ensures Elsewhere(geo, d, d', dir, more)
  {
    hide GeoOk, Same, InUse;
  }

  lemma EntryOf(geo: Geo, d: Disk, dir: nat, e: Entry)
    requires GeoOk(geo) && CrashSafe(geo, d) && HasEntry(geo, d, dir, e)
    ensures InUse(geo, d, e.ino) && InUse(geo, d, dir)
  {
    hide GeoOk, DirsOk, NamesUnique, Backed, Unshared, DiskOk, IUsed, EntriesOf;
  }

  /** After its only name is severed, an inode can be dropped. */
  lemma SeveredTarget(fs: Ext4, d: Disk, d': Disk, dir: nat, e: Entry, ino: nat)
    requires GeoOk(fs.geo) && CrashSafe(fs.geo, d) && HasEntry(fs.geo, d, dir, e)
    requires fs.Unlinked(d, d', dir, e.name, ino)
    requires Single(d, e.ino) && e.ino != dir
    ensures ino == e.ino && InUse(fs.geo, d', ino) && Unnamed(fs.geo, d', ino) && d'.inodes == d.inodes
    ensures DataOf(d'.blocks, d.inodes[ino]) == DataOf(d.blocks, d.inodes[ino])
    ensures NamedBy(d'.blocks, d.inodes[ino]) == NamedBy(d.blocks, d.inodes[ino])
  {
    hide CrashSafe, GeoOk, IUsed, EntriesOf, DataOf, NamedBy, Without, Unnamed;
    SameName(fs.geo, d, dir, e, ino);
    EntryOf(fs.geo, d, dir, e);
    var b, c :| b in DataOf(d.blocks, d.inodes[dir]) && d' == d.(blocks := d.blocks[b := DirBlock(c)]);
    DirWriteFrame(fs.geo, d, dir, b, c);
  }

  lemma TrackedKind(fs: Ext4, i: nat)
    requires fs.Valid() && InUse(fs.geo, fs.disk, i)
    ensures fs.disk.inodes[i].kind == Dir <==> i in fs.dirs
  {
    hide GeoOk, CrashSafe, SafeHistory, Replay, HeldOk, BlockCount, InodeCount, TailFree, DirCount, IUsed;
  }

  /** A file that a rename will not replace: a directory, a file with further
      names, one mapped in a way the writer cannot free, or an inode it does
      not free. */
  ghost predicate Irreplaceable(geo: Geo, d: Disk, gs: seq<GroupDesc>, i: nat)
    requires GeoOk(geo) && i in d.inodes && d.inodes[i].Inode?
  {
    d.inodes[i].kind == Dir || d.inodes[i].links > 1 || d.inodes[i].tree.Foreign? || !Freeable(geo, d, gs, i)
  }

  /** A directory whose entries the writer will not change. */
  ghost predicate Fixed(geo: Geo, d: Disk, dir: nat)
    requires GeoOk(geo)
  {
    !IsDir(geo, d, dir) || Sealed(d.inodes[dir]) || !PointersOk(geo, d, dir)
  }

  /** An entry that is there is found. */
  lemma UnlinkMust(fs: Ext4, d: Disk, dir: nat, e: Entry, r: Result<nat>)
    requires GeoOk(fs.geo) && HasEntry(fs.geo, d, dir, e)
    requires r == Err(NotFound) ==> !Named(EntriesOf(d.blocks, d.inodes[dir]), e.name)
    requires r.Err? && r.error != NotFound ==>
      || !NameOk(e.name) || !IsDir(fs.geo, d, dir) || Sealed(d.inodes[dir])
      || exists b :: b in DataOf(d.blocks, d.inodes[dir]) && b <= fs.geo.first
    ensures r.Err? ==> !NameOk(e.name) || Fixed(fs.geo, d, dir)
  {
    hide GeoOk, IUsed, EntriesOf, DataOf, Named, NameOk;
    NamedWitness(EntriesOf(d.blocks, d.inodes[dir]), e);
  }

  lemma FixedSame(geo: Geo, d: Disk, d': Disk, dir: nat)
    requires GeoOk(geo) && DirKept(geo, d, d', dir)
    ensures Fixed(geo, d', dir) == Fixed(geo, d, dir)
  {
    hide GeoOk, IUsed, DataOf;
  }

  lemma RoomSame(fs: Ext4, d: Disk, d': Disk, dir: nat, name: Name)
    requires dir in d.inodes && dir in d'.inodes && d'.inodes[dir] == d.inodes[dir] && d'.blocks == d.blocks
    ensures NoRoom(d', dir, name) == NoRoom(d, dir, name)
  {
  }

  /** The writes that remove a file: its name, its inode, its blocks, and only
      then a barrier. */
  ghost predicate DropTrace(geo: Geo, base: Disk, log0: seq<Write>, log1: seq<Write>, dir: nat, e: Entry,
      s1: seq<Write>, s2: seq<Write>)
    requires GeoOk(geo)
  {
    var d := Replay(base, log0);
    && HasEntry(geo, d, dir, e) && e.ino != dir && Single(d, e.ino) && |log0| < |log1|
    && log1 == log0 + [log1[|log0|]] + s1 + s2 + [Flush]
    && UnlinkWrite(geo, d, dir, e.name, log1[|log0|])
    && Erasing(geo, Apply(d, log1[|log0|]), Replay(base, log1), e.ino, s1, s2)
  }

  lemma DropTraceIs(geo: Geo, base: Disk, d: Disk, log0: seq<Write>, l1: seq<Write>, d1: Disk, log2: seq<Write>,
      d2: Disk, dir: nat, e: Entry, s1: seq<Write>, s2: seq<Write>)
    requires GeoOk(geo) && d == Replay(base, log0) && HasEntry(geo, d, dir, e) && e.ino != dir && Single(d, e.ino)
    requires |l1| == |log0| + 1 && l1[..|log0|] == log0 && UnlinkWrite(geo, d, dir, e.name, l1[|log0|])
    requires d1 == Replay(base, l1) && log2 == l1 + s1 + s2 && d2 == Replay(base, log2)
    requires Erasing(geo, d1, d2, e.ino, s1, s2)
    ensures DropTrace(geo, base, log0, log2 + [Flush], dir, e, s1, s2)
  {
    hide GeoOk, HasEntry, UnlinkWrite, Erasing, Single;
    var log1 := log2 + [Flush];
    FlushSame(base, log2);
    assert l1 == log0 + [l1[|log0|]];
    assert log1[|log0|] == l1[|log0|];
    assert l1[..|l1| - 1] == log0;
  }

  /** What `DropInode` did, as a step of a removal. */
  lemma ErasingIs(geo: Geo, d: Disk, d': Disk, t: nat, s1: seq<Write>, s2: seq<Write>)
    requires GeoOk(geo) && CrashSafe(geo, d) && InUse(geo, d, t) && Unnamed(geo, d, t)
    requires IdleOut(t, s1) && BlockSide(s2)
    requires InoGroup(geo, t) < |d.ibm| && InoBit(geo, t) < |d.ibm[InoGroup(geo, t)]|
    requires d'.ibm == SetIno(geo, d.ibm, t, false) && Clearing(geo, NamedBy(d.blocks, d.inodes[t]), s2)
    ensures Erasing(geo, d, d', t, s1, s2)
  {
    CrashShape(geo, d, t);
    SetInoUsed(geo, d.ibm, t, false);
    hide GeoOk, CrashSafe, SetIno, InoGroup, InoBit, IUsed, Unnamed, Clearing, NamedBy;
  }

  /** Sever a file's only name, then drop the file. */
  method ReplaceTarget(fs: Ext4, dir: nat, name: Name, ino: nat, ghost e: Entry) returns (r: Result<()>)
    requires fs.Valid() && HasEntry(fs.geo, fs.disk, dir, e) && e.name == name && e.ino == ino
    modifies fs
    ensures Keeps(old(fs.Now()), fs.Now())
    ensures fs.Valid() && old(fs.log) <= fs.log && DirKept(fs.geo, old(fs.disk), fs.disk, dir)
    ensures r.Ok? ==>
      forall f :: HasEntry(fs.geo, fs.disk, dir, f) <==> HasEntry(fs.geo, old(fs.disk), dir, f) && f.name != name
    ensures r.Err? ==>
      forall f: Entry :: f.name != name ==> HasEntry(fs.geo, fs.disk, dir, f) == HasEntry(fs.geo, old(fs.disk), dir, f)
    ensures Elsewhere(fs.geo, old(fs.disk), fs.disk, dir, {ino})
    ensures r.Ok? ==> !InUse(fs.geo, fs.disk, ino) && Single(old(fs.disk), ino)
    ensures fs.held == old(fs.held) && fs.dirs <= old(fs.dirs) && HeldKept(fs.held, old(fs.disk.blocks), fs.disk.blocks)
    ensures ino in old(fs.disk).inodes && old(fs.disk).inodes[ino].Inode?
    ensures r.Err? ==>
      Irreplaceable(fs.geo, old(fs.disk), old(fs.groups), ino) || !NameOk(name) || Fixed(fs.geo, old(fs.disk), dir)
    ensures r.Ok? ==> !NoRoom(fs.disk, dir, name) && !Irreplaceable(fs.geo, old(fs.disk), old(fs.groups), ino)
    ensures r.Ok? ==> exists s1, s2 :: DropTrace(fs.geo, fs.base, old(fs.log), fs.log, dir, e, s1, s2)
  {
    hide Clear;
    hide Fixed, NoRoom, NoRoomWithout, DropTrace, UnlinkWrite, Erasing, IdleOut, BlockSide, Clearing;
    hide CrashSafe, SafeHistory, Replay, GeoOk, HeldOk, BlockCount, InodeSide, Saved, IUsed, EntriesOf, DataOf, MetaOf,
      Flat, Elsewhere, Unnamed, Cleared, SetIno, InoGroup, InoBit, NameOk, Named, HeldKept;
    ghost var d0, geo := fs.disk, fs.geo;
    HeldKeptRefl(fs.held, d0.blocks);
    EntryOf(geo, d0, dir, e);
    ElsewhereRefl(geo, d0, dir, {ino});
    var rec := fs.disk.inodes[ino];
    if rec.kind == Dir {
      return Err(UnsupportedFsFeature);
    }
    if rec.links > 1 {
      return Err(UnsupportedFsFeature);
    }
    var blocks := fs.CollectExtents(rec);
    if blocks.Err? {
      return Err(blocks.error);
    }
    var removed := fs.UnlinkFile(dir, name);
    if removed.Err? { UnlinkMust(fs, d0, dir, e, removed); }
    if removed.Err? {
      return Err(removed.error);
    }
    ghost var d1, l1 := fs.disk, fs.log;
    SeveredTarget(fs, d0, d1, dir, e, removed.value);
    UnlinkedMeans(fs, d0, d1, dir, name, ino);
    ElsewhereMore(geo, d0, d1, dir, {}, {ino});
    TrackedKind(fs, ino);
    var dropped, s1, s2 := fs.DropInode(ino, blocks.value.0, blocks.value.1, false);
    if dropped.Err? {
      return Err(dropped.error);
    }
    DroppedMeans(geo, d1, fs.disk, ino);
    DroppedElsewhere(geo, d0, d1, fs.disk, dir, ino);
    RoomSame(fs, d1, fs.disk, dir, name);
    ErasingIs(geo, d1, fs.disk, ino, s1, s2);
    DropTraceIs(geo, fs.base, d0, old(fs.log), l1, d1, fs.log, fs.disk, dir, e, s1, s2);
    fs.FlushDevice();
    r := Ok(());
  }

  lemma DroppedElsewhere(geo: Geo, d0: Disk, d1: Disk, d2: Disk, dir: nat, ino: nat)
    requires GeoOk(geo) && Elsewhere(geo, d0, d1, dir, {ino}) && DirKept(geo, d0, d1, dir) && dir != ino
    requires forall j :: InUse(geo, d1, j) && j != ino ==> Same(geo, d1, d2, j)
    requires d2.blocks == d1.blocks
    ensures Elsewhere(geo, d0, d2, dir, {ino}) && DirKept(geo, d0, d2, dir)
  {
    hide GeoOk, IUsed, Intact, DataOf;
    assert Elsewhere(geo, d1, d2, dir, {ino});
    ElsewhereTrans(geo, d0, d1, d2, dir, {ino});
    assert Same(geo, d1, d2, dir);
  }

  lemma FoundEntry(geo: Geo, d: Disk, dir: nat, e: Entry)
    requires GeoOk(geo) && CrashSafe(geo, d) && IsDir(geo, d, dir) && e in EntriesOf(d.blocks, d.inodes[dir])
    requires NameOk(e.name)
    ensures HasEntry(geo, d, dir, e) && InUse(geo, d, e.ino) && e.ino < U32_LIMIT && Names(geo, d, dir, e.name, e.ino)
  {
    hide CrashSafe, GeoOk, IUsed, DataOf, EntriesIn, DirBlockOk;
    NameReal(e.name);
    EntryOf(geo, d, dir, e);
    DirParts(geo, d, dir);
    EntryValid(geo, d.blocks, DataOf(d.blocks, d.inodes[dir]), e);
  }

  /** A file about to be overwritten is not the one being renamed. */
  lemma VictimApart(geo: Geo, d: Disk, dir: nat, e: Entry, v: Entry)
    requires GeoOk(geo) && CrashSafe(geo, d) && HasEntry(geo, d, dir, e) && HasEntry(geo, d, dir, v) && e.name != v.name
    requires Single(d, v.ino)
    ensures e.ino != v.ino
  {
    NamesUniqueOf(geo, d);
    hide CrashSafe, GeoOk, HasEntry;
  }

  lemma OneVictim(geo: Geo, d: Disk, dir: nat, v: Entry)
    requires GeoOk(geo) && CrashSafe(geo, d) && HasEntry(geo, d, dir, v)
    ensures Victims(geo, d, dir, v.name) == {v.ino}
  {
    hide CrashSafe, GeoOk, EntriesOf;
    forall i | i in Victims(geo, d, dir, v.name) ensures i == v.ino {
      SameName(geo, d, dir, v, i);
    }
    assert Names(geo, d, dir, v.name, v.ino);
  }

  lemma NoVictim(geo: Geo, d: Disk, dir: nat, name: Name)
    requires GeoOk(geo) && IsDir(geo, d, dir) && !Named(EntriesOf(d.blocks, d.inodes[dir]), name)
    ensures Victims(geo, d, dir, name) == {} && forall f :: HasEntry(geo, d, dir, f) ==> f.name != name
  {
    hide GeoOk, EntriesOf;
    forall f | HasEntry(geo, d, dir, f) ensures f.name != name {
      var es := EntriesOf(d.blocks, d.inodes[dir]);
      var k :| 0 <= k < |es| && es[k] == f;
    }
  }

  lemma KeptTrans(geo: Geo, d0: Disk, d1: Disk, d2: Disk, dir: nat)
    requires GeoOk(geo) && DirKept(geo, d0, d1, dir) && DirKept(geo, d1, d2, dir)
    ensures DirKept(geo, d0, d2, dir)
  {
    hide GeoOk, IUsed, DataOf;
  }

  /** Relinking the name just taken out cannot be refused. */
  lemma RelinkSure(fs: Ext4, d: Disk, dir: nat, name: Name)
    requires GeoOk(fs.geo) && IsDir(fs.geo, d, dir) && PointersOk(fs.geo, d, dir) && NameOk(name)
    requires !Sealed(d.inodes[dir])
    requires !NoRoom(d, dir, name) && forall f :: HasEntry(fs.geo, d, dir, f) ==> f.name != name
    ensures !LinkRefused(fs.geo, d, dir, name)
  {
    hide GeoOk, IUsed, EntriesOf, DataOf, NoRoom, NameOk;
    NameReal(name);
    var es := EntriesOf(d.blocks, d.inodes[dir]);
    forall k | 0 <= k < |es| ensures es[k].name != name {
      if Real(es[k]) { assert HasEntry(fs.geo, d, dir, es[k]); }
    }
  }

  /** Once the old name is out, the new one is refused exactly for reasons that
      could be seen before. */
  lemma MoveReason(fs: Ext4, d0: Disk, d1: Disk, dir: nat, e: Entry, new_: Name)
    requires GeoOk(fs.geo) && DirKept(fs.geo, d0, d1, dir) && e.name != new_
    requires NoRoom(d1, dir, new_) <==> NoRoomWithout(d0, dir, e.name, new_)
    requires forall f :: HasEntry(fs.geo, d1, dir, f) <==> HasEntry(fs.geo, d0, dir, f) && f.name != e.name
    ensures LinkRefused(fs.geo, d1, dir, new_) <==>
      || !NameOk(new_) || Fixed(fs.geo, d0, dir) || (exists f :: HasEntry(fs.geo, d0, dir, f) && f.name == new_)
      || NoRoomWithout(d0, dir, e.name, new_)
  {
    hide GeoOk, IUsed, NameOk, LinkRefused, NoRoom, NoRoomWithout, DataOf, EntriesOf, HasEntry;
    FixedSame(fs.geo, d0, d1, dir);
    Relink(fs, d1, dir, new_);
    if exists f :: HasEntry(fs.geo, d0, dir, f) && f.name == new_ {
      var f :| HasEntry(fs.geo, d0, dir, f) && f.name == new_;
      assert HasEntry(fs.geo, d1, dir, f);
    }
  }

  /** When linking a name in a directory is refused. */
  lemma Relink(fs: Ext4, d: Disk, dir: nat, name: Name)
    requires GeoOk(fs.geo) && IsDir(fs.geo, d, dir)
    ensures LinkRefused(fs.geo, d, dir, name) <==>
      || !NameOk(name) || Fixed(fs.geo, d, dir) || (exists f :: HasEntry(fs.geo, d, dir, f) && f.name == name)
      || NoRoom(d, dir, name)
  {
    hide GeoOk, IUsed, NameOk, NoRoom, DataOf, EntriesOf;
    if && NameOk(name) && !Fixed(fs.geo, d, dir) && !NoRoom(d, dir, name)
       && (forall f :: HasEntry(fs.geo, d, dir, f) ==> f.name != name)
    {
      RelinkSure(fs, d, dir, name);
    }
    forall f | HasEntry(fs.geo, d, dir, f) && f.name == name ensures Named(EntriesOf(d.blocks, d.inodes[dir]), name) {
      NamedWitness(EntriesOf(d.blocks, d.inodes[dir]), f);
    }
  }

  /** The writes of a move: the old name goes, the new one comes, a barrier. */
  ghost predicate MoveTrace(geo: Geo, base: Disk, log0: seq<Write>, log1: seq<Write>, dir: nat, e: Entry, new_: Name)
    requires GeoOk(geo)
  {
    var d := Replay(base, log0);
    && HasEntry(geo, d, dir, e) && e.name != new_ && |log1| == |log0| + 3
    && log1 == log0 + [log1[|log0|]] + [log1[|log0| + 1]] + [Flush]
    && UnlinkWrite(geo, d, dir, e.name, log1[|log0|])
    && LinkWrite(geo, Apply(d, log1[|log0|]), dir, Entry(e.ino, new_, 1), log1[|log0| + 1])
  }

  lemma MoveTraceIs(geo: Geo, base: Disk, d: Disk, log0: seq<Write>, l1: seq<Write>, d1: Disk, l2: seq<Write>, dir: nat,
      e: Entry, new_: Name)
    requires GeoOk(geo) && d == Replay(base, log0) && HasEntry(geo, d, dir, e) && e.name != new_
    requires |l1| == |log0| + 1 && l1[..|log0|] == log0 && UnlinkWrite(geo, d, dir, e.name, l1[|log0|])
    requires d1 == Replay(base, l1)
    requires |l2| == |l1| + 1 && l2[..|l1|] == l1 && LinkWrite(geo, d1, dir, Entry(e.ino, new_, 1), l2[|l1|])
    ensures MoveTrace(geo, base, log0, l2 + [Flush], dir, e, new_)
  {
    hide GeoOk, HasEntry, UnlinkWrite, LinkWrite;
    var log1 := l2 + [Flush];
    assert l2[|log0|] == l2[..|l1|][|log0|] == l1[|log0|];
    assert l1 == log0 + [l1[|log0|]] && l2 == l1 + [l2[|l1|]];
    assert log1 == log0 + [log1[|log0|]] + [log1[|log0| + 1]] + [Flush];
    assert l1[..|l1| - 1] == log0;
  }

  /** Move the name of inode `e.ino` once the target name is free. */
  method MoveName(fs: Ext4, dir: nat, e: Entry, new_: Name) returns (r: Result<()>)
    requires fs.Valid() && HasEntry(fs.geo, fs.disk, dir, e) && e.ino < U32_LIMIT && e.name != new_
    modifies fs
    ensures Keeps(old(fs.Now()), fs.Now())
    ensures fs.Valid() && old(fs.log) <= fs.log && DirKept(fs.geo, old(fs.disk), fs.disk, dir)
    ensures Elsewhere(fs.geo, old(fs.disk), fs.disk, dir, {})
    ensures r.Ok? ==> forall f :: HasEntry(fs.geo, fs.disk, dir, f) <==>
      f == Entry(e.ino, new_, 1) || (HasEntry(fs.geo, old(fs.disk), dir, f) && f.name != e.name)
    ensures r.Err? ==> forall f: Entry :: f.name != e.name ==>
      HasEntry(fs.geo, fs.disk, dir, f) == HasEntry(fs.geo, old(fs.disk), dir, f)
    ensures r.Err? && PointersOk(fs.geo, old(fs.disk), dir) ==> Names(fs.geo, fs.disk, dir, e.name, e.ino)
    ensures forall i :: InUse(fs.geo, fs.disk, i) == InUse(fs.geo, old(fs.disk), i)
    ensures fs.held == old(fs.held) && fs.dirs <= old(fs.dirs) && HeldKept(fs.held, old(fs.disk.blocks), fs.disk.blocks)
    ensures r.Err? <==>
      || !NameOk(e.name) || !NameOk(new_) || Fixed(fs.geo, old(fs.disk), dir)
      || (exists f :: HasEntry(fs.geo, old(fs.disk), dir, f) && f.name == new_)
      || NoRoomWithout(old(fs.disk), dir, e.name, new_)
    ensures r.Ok? ==> MoveTrace(fs.geo, fs.base, old(fs.log), fs.log, dir, e, new_)
  {
    hide Clear;
    hide Fixed, RecordLen, MoveTrace, LinkWrite, UnlinkWrite;
    hide CrashSafe, SafeHistory, Replay, GeoOk, HeldOk, BlockCount, InodeSide, Saved, IUsed, EntriesOf, DataOf,
      Elsewhere, Unnamed, NameOk, Named, NoRoom, NoRoomWithout, Single, LinkRefused, HeldKept;
    ghost var d0, geo := fs.disk, fs.geo;
    HeldKeptRefl(fs.held, d0.blocks);
    EntryOf(geo, d0, dir, e);
    ElsewhereRefl(geo, d0, dir, {});
    var removed := fs.UnlinkFile(dir, e.name);
    if removed.Err? { UnlinkMust(fs, d0, dir, e, removed); }
    if removed.Err? {
      return Err(removed.error);
    }
    ghost var d1, l1 := fs.disk, fs.log;
    SameName(geo, d0, dir, e, removed.value);
    UnlinkedMeans(fs, d0, d1, dir, e.name, e.ino);
    assert forall i :: InUse(geo, d1, i) == InUse(geo, d0, i);
    SameSingle(d0, d1, e.ino);
    var linked := fs.LinkFile(dir, new_, e.ino, 1);
    HeldKeptTrans(fs.held, d0.blocks, d1.blocks, fs.disk.blocks);
    MoveReason(fs, d0, d1, dir, e, new_);
    if linked.Err? {
      var again := fs.LinkFile(dir, e.name, e.ino, 1);
      HeldKeptTrans(fs.held, d0.blocks, d1.blocks, fs.disk.blocks);
      if again.Ok? {
        ghost var back := Entry(e.ino, e.name, 1);
        NameReal(e.name);
        fs.LinkedMeans(d1, fs.disk, dir, back);
        ElsewhereTrans(geo, d0, d1, fs.disk, dir, {});
        assert HasEntry(geo, fs.disk, dir, back);
      } else if PointersOk(geo, d0, dir) {
        RelinkSure(fs, d1, dir, e.name);
        assert false;
      }
      fs.FlushDevice();
      return Err(linked.error);
    }
    NameReal(new_);
    fs.LinkedMeans(d1, fs.disk, dir, Entry(e.ino, new_, 1));
    ElsewhereTrans(geo, d0, d1, fs.disk, dir, {});
    MoveTraceIs(geo, fs.base, d0, old(fs.log), l1, d1, fs.log, dir, e, new_);
    fs.FlushDevice();
    r := Ok(());
  }

  lemma SameSingle(d: Disk, d': Disk, i: nat)
    requires d'.inodes == d.inodes
    ensures Single(d', i) == Single(d, i)
  {
  }

  /** Make the target name free, replacing a file that has it; the result says
      whether one had. */
  method FreeTarget(fs: Ext4, dir: nat, e: Entry, new_: Name) returns (r: Result<bool>)
    requires fs.Valid() && HasEntry(fs.geo, fs.disk, dir, e) && e.name != new_ && NameOk(new_)
    modifies fs
    ensures Keeps(old(fs.Now()), fs.Now())
    ensures fs.Valid() && old(fs.log) <= fs.log && DirKept(fs.geo, old(fs.disk), fs.disk, dir)
    ensures Elsewhere(fs.geo, old(fs.disk), fs.disk, dir, Victims(fs.geo, old(fs.disk), dir, new_))
    ensures r.Ok? ==>
      forall f :: HasEntry(fs.geo, fs.disk, dir, f) <==> HasEntry(fs.geo, old(fs.disk), dir, f) && f.name != new_
    ensures r.Ok? ==>
      forall v :: v in Victims(fs.geo, old(fs.disk), dir, new_) ==> !InUse(fs.geo, fs.disk, v) && v != e.ino
    ensures r.Ok? ==> if r.value then !NoRoom(fs.disk, dir, new_) else fs.disk == old(fs.disk)
    ensures r.Ok? ==> (r.value <==> exists i :: Names(fs.geo, old(fs.disk), dir, new_, i))
    ensures r.Ok? ==> !Stubborn(fs.geo, old(fs.disk), old(fs.groups), dir, new_)
    ensures r.Err? ==> NotRenamed(fs.geo, old(fs.disk), fs.disk, dir, e.name, new_)
    ensures r.Err? ==> RenameRefused(fs.geo, old(fs.disk), old(fs.groups), dir, e.name, new_)
    ensures fs.held == old(fs.held) && fs.dirs <= old(fs.dirs) && HeldKept(fs.held, old(fs.disk.blocks), fs.disk.blocks)
  {
    NameRefused(fs, fs.disk, fs.groups, dir, e.name, new_);
    hide Clear;
    hide RenameRefused, Irreplaceable, Fixed, NoRoom, NoRoomWithout, RecordLen, BadName, Stubborn;
    hide CrashSafe, SafeHistory, Replay, GeoOk, HeldOk, BlockCount, InodeSide, Saved, IUsed, EntriesIn, DataOf,
      Elsewhere, Unnamed, NameOk, Named, NotRenamed, Renamed, DirBlockOk, PointersOk, Names, Victims, Single, DirKept,
      HeldKept;
    ghost var d0, geo, gs, old_ := fs.disk, fs.geo, fs.groups, e.name;
    HeldKeptRefl(fs.held, d0.blocks);
    NothingRenamed(geo, d0, dir, old_, new_);
    DirParts(geo, d0, dir);
    DirKeptRefl(geo, d0, dir);
    ElsewhereRefl(geo, d0, dir, Victims(geo, d0, dir, new_));
    var dest := fs.FindEntry(DataOf(fs.disk.blocks, fs.disk.inodes[dir]), new_);
    if dest.Err? {
      PointerRefused(fs, d0, gs, dir, old_, new_);
      return Err(dest.error);
    }
    if dest.value.Some? {
      var v := dest.value.value;
      FoundEntry(geo, d0, dir, v);
      OneVictim(geo, d0, dir, v);
      var replaced := ReplaceTarget(fs, dir, new_, v.ino, v);
      if replaced.Err? {
        TargetRefused(fs, d0, gs, dir, old_, v);
        HalfRenamed(geo, d0, fs.disk, dir, e, old_, new_);
        return Err(replaced.error);
      }
      VictimApart(geo, d0, dir, e, v);
      Yielding(geo, d0, gs, dir, v);
    } else {
      NoVictim(geo, d0, dir, new_);
      Unopposed(geo, d0, gs, dir, new_);
    }
    r := Ok(dest.value.Some?);
  }

  /** `rename_file`: move a regular file's name within one directory,
      replacing a file already called `new_`. */
  method RenameFile(fs: Ext4, dir: nat, old_: Name, new_: Name) returns (r: Result<()>)
    requires fs.Valid() && InUse(fs.geo, fs.disk, dir)
    modifies fs
    ensures Keeps(old(fs.Now()), fs.Now())
    ensures fs.Valid() && old(fs.log) <= fs.log
    ensures r.Ok? && old_ != new_ ==> exists ino :: Renamed(fs.geo, old(fs.disk), fs.disk, dir, old_, new_, ino)
    ensures (r.Ok? && old_ == new_) || !IsDir(fs.geo, old(fs.disk), dir) ==> fs.disk == old(fs.disk)
    ensures r.Ok? && old_ == new_ && IsDir(fs.geo, fs.disk, dir) ==>
      exists ino :: Names(fs.geo, fs.disk, dir, old_, ino)
    ensures r.Err? ==> NotRenamed(fs.geo, old(fs.disk), fs.disk, dir, old_, new_)
    ensures r.Err? ==> RenameRefused(fs.geo, old(fs.disk), old(fs.groups), dir, old_, new_)
    ensures old_ != new_ && RenameRefused(fs.geo, old(fs.disk), old(fs.groups), dir, old_, new_) ==> r.Err?
    ensures r.Ok? && old_ != new_ ==> exists log0, e: Entry ::
      old(fs.log) <= log0 && e.name == old_ && MoveTrace(fs.geo, fs.base, log0, fs.log, dir, e, new_)
    ensures fs.held == old(fs.held) && fs.dirs <= old(fs.dirs) && HeldKept(fs.held, old(fs.disk.blocks), fs.disk.blocks)
  {
    NameRefused(fs, fs.disk, fs.groups, dir, old_, new_);
    hide Clear, Keeps;
    KeepsRefl(fs.Now());
    hide RenameRefused, Irreplaceable, Fixed, NoRoom, NoRoomWithout, RecordLen, BadName, Stubborn, MoveTrace;
    hide CrashSafe, SafeHistory, Replay, GeoOk, HeldOk, BlockCount, InodeSide, Saved, IUsed, EntriesIn, DataOf,
      Elsewhere, Unnamed, NameOk, Named, NotRenamed, Renamed, DirBlockOk, PointersOk, Names, Victims, Single, DirKept,
      HeldKept;
    ghost var d0, geo := fs.disk, fs.geo;
    HeldKeptRefl(fs.held, d0.blocks);
    NothingRenamed(geo, d0, dir, old_, new_);
    ghost var gs := fs.groups;
    if 47 in old_ || 47 in new_ {
      return Err(UnsupportedFsFeature);
    }
    if !NameOk(old_) || !NameOk(new_) {
      return Err(CorruptFs);
    }
    if fs.disk.inodes[dir].kind != Dir {
      // Equal names are looked up before the directory check, in whatever the
      // blocks of a file happen to hold.
      var seen: bool := *;
      if old_ == new_ && seen {
        return Ok(());
      }
      return Err(if old_ == new_ then NotFound else NotADirectory);
    }
    DirParts(geo, d0, dir);
    var found := fs.FindEntry(DataOf(fs.disk.blocks, fs.disk.inodes[dir]), old_);
    if found.Err? {
      PointerRefused(fs, d0, gs, dir, old_, new_);
      return Err(found.error);
    }
    if found.value.None? {
      MissingRefused(fs, d0, gs, dir, old_, new_);
      return Err(NotFound);
    }
    var e := found.value.value;
    FoundEntry(geo, d0, dir, e);
    if old_ == new_ {
      return Ok(());
    }
    if fs.disk.inodes[e.ino].kind != File {
      NotFileRefused(fs, d0, gs, dir, e, new_);
      return Err(UnsupportedFsFeature);
    }
    var freed := FreeTarget(fs, dir, e, new_);
    if freed.Err? {
      return Err(freed.error);
    }
    ghost var d1, b := fs.disk, fs.Now();
    r := MoveName(fs, dir, e, new_);
    KeepsTrans(old(fs.Now()), b, fs.Now());
    HeldKeptTrans(fs.held, d0.blocks, d1.blocks, fs.disk.blocks);
    NameMoved(geo, d0, d1, fs.disk, dir, e, new_, r.Ok?);
    MoveRefused(fs, d0, gs, d1, dir, e, new_, freed.value, r.Err?);
  }

  lemma NameRefused(fs: Ext4, d: Disk, gs: seq<GroupDesc>, dir: nat, old_: Name, new_: Name)
    requires GeoOk(fs.geo) && InUse(fs.geo, d, dir)
    ensures 47 in old_ || 47 in new_ || !NameOk(old_) || !NameOk(new_) || !IsDir(fs.geo, d, dir) ==>
      RenameRefused(fs.geo, d, gs, dir, old_, new_)
    ensures !NameOk(new_) ==> BadName(new_)
  {
  }

  lemma MissingRefused(fs: Ext4, d: Disk, gs: seq<GroupDesc>, dir: nat, old_: Name, new_: Name)
    requires GeoOk(fs.geo) && IsDir(fs.geo, d, dir) && !Named(EntriesOf(d.blocks, d.inodes[dir]), old_)
    ensures RenameRefused(fs.geo, d, gs, dir, old_, new_)
  {
    hide GeoOk, IUsed, EntriesOf, DataOf, NameOk, Fixed, NoRoom, RecordLen, Irreplaceable, Named;
    forall e | HasEntry(fs.geo, d, dir, e) ensures e.name != old_ {
      NamedWitness(EntriesOf(d.blocks, d.inodes[dir]), e);
    }
  }

  lemma PointerRefused(fs: Ext4, d: Disk, gs: seq<GroupDesc>, dir: nat, old_: Name, new_: Name)
    requires GeoOk(fs.geo) && IsDir(fs.geo, d, dir)
    requires exists b :: b in DataOf(d.blocks, d.inodes[dir]) && b <= fs.geo.first
    ensures RenameRefused(fs.geo, d, gs, dir, old_, new_)
  {
    hide GeoOk, IUsed, EntriesOf, DataOf, NameOk, Names, NoRoom, RecordLen, Irreplaceable;
  }

  lemma NotFileRefused(fs: Ext4, d: Disk, gs: seq<GroupDesc>, dir: nat, e: Entry, new_: Name)
    requires GeoOk(fs.geo) && CrashSafe(fs.geo, d) && HasEntry(fs.geo, d, dir, e) && InUse(fs.geo, d, e.ino)
    requires d.inodes[e.ino].kind != File
    ensures RenameRefused(fs.geo, d, gs, dir, e.name, new_)
  {
    hide GeoOk, IUsed, EntriesOf, DataOf, NameOk, Fixed, NoRoom, RecordLen, Irreplaceable, CrashSafe;
    forall i | Names(fs.geo, d, dir, e.name, i) ensures i == e.ino {
      SameName(fs.geo, d, dir, e, i);
    }
  }

  lemma TargetRefused(fs: Ext4, d: Disk, gs: seq<GroupDesc>, dir: nat, old_: Name, v: Entry)
    requires GeoOk(fs.geo) && HasEntry(fs.geo, d, dir, v) && v.ino in d.inodes && d.inodes[v.ino].Inode?
    requires Irreplaceable(fs.geo, d, gs, v.ino) || BadName(v.name) || Fixed(fs.geo, d, dir)
    ensures RenameRefused(fs.geo, d, gs, dir, old_, v.name)
  {
    hide GeoOk, IUsed, EntriesOf, DataOf, NameOk, Fixed, NoRoom, RecordLen, Irreplaceable;
    assert Names(fs.geo, d, dir, v.name, v.ino);
  }

  /** Whether the old name can be moved once the new one is free. */
  lemma MoveRefused(fs: Ext4, d: Disk, gs: seq<GroupDesc>, d1: Disk, dir: nat, e: Entry, new_: Name, replaced: bool,
      failed: bool)
    requires GeoOk(fs.geo) && CrashSafe(fs.geo, d) && CrashSafe(fs.geo, d1) && DirKept(fs.geo, d, d1, dir)
    requires HasEntry(fs.geo, d, dir, e) && e.ino in d.inodes && d.inodes[e.ino].Inode? && d.inodes[e.ino].kind == File
    requires forall f :: HasEntry(fs.geo, d1, dir, f) ==> f.name != new_
    requires if replaced then !NoRoom(d1, dir, new_) else d1 == d
    requires replaced <==> exists i :: Names(fs.geo, d, dir, new_, i)
    requires !Stubborn(fs.geo, d, gs, dir, new_) && NameOk(e.name) && NameOk(new_) && 47 !in e.name && 47 !in new_
    requires failed <==>
      || !NameOk(e.name) || !NameOk(new_) || Fixed(fs.geo, d1, dir)
      || (exists f :: HasEntry(fs.geo, d1, dir, f) && f.name == new_)
      || NoRoomWithout(d1, dir, e.name, new_)
    ensures failed <==> RenameRefused(fs.geo, d, gs, dir, e.name, new_)
  {
    hide GeoOk, CrashSafe, IUsed, EntriesOf, DataOf, NameOk, Fixed, NoRoom, NoRoomWithout, RecordLen, Irreplaceable,
      Stubborn;
    FixedSame(fs.geo, d, d1, dir);
    assert Names(fs.geo, d, dir, e.name, e.ino);
    if replaced { RoomStays(fs.geo, d1, dir, e.name, new_); }
  }

  /** Removing a name costs no other its room. */
  lemma RoomStays(geo: Geo, d: Disk, dir: nat, out: Name, name: Name)
    requires GeoOk(geo) && CrashSafe(geo, d) && IsDir(geo, d, dir) && !NoRoom(d, dir, name)
    ensures !NoRoomWithout(d, dir, out, name)
  {
    DirParts(geo, d, dir);
    hide GeoOk, CrashSafe, DataOf, Removed, Fits, RecordLen, IUsed, ChainOk, Tiles, DirBlockOk;
    var x, k :| x in DataOf(d.blocks, d.inodes[dir]) && x in d.blocks && d.blocks[x].DirBlock?
      && 0 <= k < |d.blocks[x].chain|
      && Fits(d.blocks[x].chain[k], RecordLen(|name|));
    DirChainOk(geo, d.blocks, x);
    RemovedKeepsRoom(d.blocks[x].chain, out, RecordLen(|name|), k);
  }

  lemma DirChainOk(geo: Geo, blocks: map<nat, Content>, b: nat)
    requires DirBlockOk(geo, blocks, b)
    ensures b in blocks && blocks[b].DirBlock? && ChainOk(blocks[b].chain)
  {
  }

  lemma RemovedKeepsRoom(c: seq<Rec>, out: Name, needed: nat, k: nat)
    requires ChainOk(c) && k < |c| && Fits(c[k], needed)
    ensures exists j :: 0 <= j < |Removed(c, out)| && Fits(Removed(c, out)[j], needed)
  {
    hide Remove, Fits, ChainOk;
    if Remove(c, out).Some? {
      RemoveKeepsRoom(c, out, needed, k);
      var r := Remove(c, out).value;
      var j :| 0 <= j < |r| && Fits(r[j], needed);
      assert Fits(Removed(c, out)[j], needed);
    } else {
      assert Fits(Removed(c, out)[k], needed);
    }
  }

  lemma DirKeptRefl(geo: Geo, d: Disk, dir: nat)
    requires GeoOk(geo) && IsDir(geo, d, dir)
    ensures DirKept(geo, d, d, dir)
  {
  }

  lemma HalfRenamed(geo: Geo, d: Disk, d': Disk, dir: nat, e: Entry, old_: Name, new_: Name)
    requires GeoOk(geo) && old_ != new_ && Elsewhere(geo, d, d', dir, Victims(geo, d, dir, new_))
    requires forall f: Entry :: f.name != new_ ==> HasEntry(geo, d', dir, f) == HasEntry(geo, d, dir, f)
    ensures NotRenamed(geo, d, d', dir, old_, new_)
  {
    hide GeoOk, HasEntry, Elsewhere;
    forall i | Names(geo, d, dir, old_, i) ensures Names(geo, d', dir, old_, i) {
      var f :| HasEntry(geo, d, dir, f) && f.name == old_ && f.ino == i;
      assert HasEntry(geo, d', dir, f);
    }
  }

  lemma NameMoved(geo: Geo, d0: Disk, d1: Disk, d2: Disk, dir: nat, e: Entry, new_: Name, ok: bool)
    requires GeoOk(geo) && CrashSafe(geo, d0) && HasEntry(geo, d0, dir, e) && e.name != new_
    requires Elsewhere(geo, d0, d1, dir, Victims(geo, d0, dir, new_)) && DirKept(geo, d0, d1, dir)
    requires Elsewhere(geo, d1, d2, dir, {}) && DirKept(geo, d1, d2, dir)
    requires forall f :: HasEntry(geo, d1, dir, f) <==> HasEntry(geo, d0, dir, f) && f.name != new_
    requires forall v :: v in Victims(geo, d0, dir, new_) ==> !InUse(geo, d1, v) && v != e.ino
    requires forall v :: InUse(geo, d2, v) == InUse(geo, d1, v)
    requires ok ==> forall f :: HasEntry(geo, d2, dir, f) <==>
      f == Entry(e.ino, new_, 1) || (HasEntry(geo, d1, dir, f) && f.name != e.name)
    requires !ok ==> forall f: Entry :: f.name != e.name ==> HasEntry(geo, d2, dir, f) == HasEntry(geo, d1, dir, f)
    requires !ok && PointersOk(geo, d1, dir) ==> Names(geo, d2, dir, e.name, e.ino)
    ensures if ok then Renamed(geo, d0, d2, dir, e.name, new_, e.ino) else NotRenamed(geo, d0, d2, dir, e.name, new_)
  {
    hide GeoOk, CrashSafe, Elsewhere, DataOf, InUse, EntriesOf;
    KeptTrans(geo, d0, d1, d2, dir);
    var gone := Victims(geo, d0, dir, new_);
    ElsewhereMore(geo, d1, d2, dir, {}, gone);
    ElsewhereTrans(geo, d0, d1, d2, dir, gone);
    assert Names(geo, d0, dir, e.name, e.ino);
    if !ok {
      forall i | Names(geo, d0, dir, e.name, i) ensures i == e.ino {
        SameName(geo, d0, dir, e, i);
      }
    }
  }
}
