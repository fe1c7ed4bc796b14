/** Each kind of device write the ext4 writer issues keeps the medium safe,
    provided it is issued in the order the writer uses. */
module Ext4Steps {
  import opened Bytes
  import opened Extents
  import opened DirChain
  import opened Ext4Disk

  // ----- what a record says depends only on its own blocks -----

  predicate AgreeOn(x: map<nat, Content>, y: map<nat, Content>, bs: seq<nat>) {
    forall b :: b in bs ==> (b in x <==> b in y) && (b in x ==> x[b] == y[b])
  }

  lemma LeafRunsFrame(x: map<nat, Content>, y: map<nat, Content>, leaves: seq<nat>)
    requires AgreeOn(x, y, leaves)
    ensures LeafRuns(x, leaves) == LeafRuns(y, leaves)
  {
    if leaves != [] {
      assert leaves[|leaves| - 1] in leaves;
      LeafRunsFrame(x, y, leaves[..|leaves| - 1]);
    }
  }

  lemma EntriesInFrame(x: map<nat, Content>, y: map<nat, Content>, bs: seq<nat>)
    requires AgreeOn(x, y, bs)
    ensures EntriesIn(x, bs) == EntriesIn(y, bs)
  {
    if bs != [] {
      assert bs[|bs| - 1] in bs;
      EntriesInFrame(x, y, bs[..|bs| - 1]);
    }
  }

  lemma RecordFrame(x: map<nat, Content>, y: map<nat, Content>, r: Record)
    requires AgreeOn(x, y, NamedBy(x, r))
    ensures DataOf(x, r) == DataOf(y, r) && NamedBy(x, r) == NamedBy(y, r)
    ensures EntriesOf(x, r) == EntriesOf(y, r)
  {
    if r.Inode? {
      assert forall b :: b in MetaOf(r) || b in DataOf(x, r) ==> b in NamedBy(x, r);
      if r.tree.Indexed? { LeafRunsFrame(x, y, r.tree.leaves); }
      EntriesInFrame(x, y, DataOf(x, r));
    }
  }

  // ----- bitmaps and counters -----

  /** Every block an in-use record of `d` names is set in `m`. */
  ghost predicate NamedIn(geo: Geo, d: Disk, m: Bitmaps)
    requires GeoOk(geo)
  {
    forall i, b :: InUse(geo, d, i) && b in NamedBy(d.blocks, d.inodes[i]) ==> BUsed(geo, m, b)
  }

  lemma NamedInFrame(geo: Geo, d: Disk, d': Disk, m: Bitmaps)
    requires GeoOk(geo) && NamedIn(geo, d, m)
    requires d'.inodes == d.inodes && d'.blocks == d.blocks && d'.ibm == d.ibm
    ensures NamedIn(geo, d', m)
  {
    hide NamedBy, BUsed, IUsed, GeoOk;
    assert forall i :: InUse(geo, d', i) == InUse(geo, d, i);
  }

  /** A block bitmap may be rewritten as long as every named block stays set. */
  lemma StepBlockBitmap(geo: Geo, d: Disk, g: nat, bm: seq<bool>)
    requires GeoOk(geo) && CrashSafe(geo, d) && g < geo.groups && |bm| == geo.per
    requires NamedIn(geo, d, d.bbm[g := bm])
    ensures |d.bbm| == geo.groups
    ensures CrashSafe(geo, Apply(d, WBlockBitmap(g, bm)))
  {
    hide NamedBy, BUsed, EntriesOf, DataOf, NoDup, DirBlockOk, DistinctNames, GeoOk;
    var d' := Apply(d, WBlockBitmap(g, bm));
    assert forall i :: InUse(geo, d', i) == InUse(geo, d, i);
    assert forall i, e :: HasEntry(geo, d', i, e) == HasEntry(geo, d, i, e);
  }

  /** Descriptors, superblock counters and flushes say nothing about names. */
  lemma StepCounters(geo: Geo, d: Disk, w: Write)
    requires GeoOk(geo) && CrashSafe(geo, d)
    requires w.WGroupDesc? || w.WSuper? || w.Flush?
    ensures CrashSafe(geo, Apply(d, w))
  {
    hide NamedBy, BUsed, EntriesOf, DataOf, NoDup, DirBlockOk, DistinctNames, GeoOk;
    var d' := Apply(d, w);
    assert forall i :: InUse(geo, d', i) == InUse(geo, d, i);
    assert forall i, e :: HasEntry(geo, d', i, e) == HasEntry(geo, d, i, e);
  }

  /** Flipping the bit of an inode whose record is blank changes nothing. */
  lemma StepInodeBitmap(geo: Geo, d: Disk, i: nat, v: bool)
    requires GeoOk(geo) && CrashSafe(geo, d) && 0 < i && InoGroup(geo, i) < geo.groups
    requires i in d.inodes && d.inodes[i].Blank?
    ensures
      InoBit(geo, i) < geo.iper
      && CrashSafe(geo, Apply(d, WInodeBitmap(InoGroup(geo, i), d.ibm[InoGroup(geo, i)][InoBit(geo, i) := v])))
  {
    InoOfCell(geo, i);
    var g := InoGroup(geo, i);
    var d' := Apply(d, WInodeBitmap(g, d.ibm[g][InoBit(geo, i) := v]));
    forall j ensures InUse(geo, d', j) == InUse(geo, d, j) {
      if 0 < j && j != i {
        InoOfCell(geo, j);
      }
    }
    hide NamedBy, BUsed, EntriesOf, DataOf, NoDup, DirBlockOk, DistinctNames, GeoOk, IUsed;
    assert forall j, e :: HasEntry(geo, d', j, e) == HasEntry(geo, d, j, e);
  }

  // ----- inode records -----

  ghost predicate Unnamed(geo: Geo, d: Disk, i: nat)
    requires GeoOk(geo)
  {
    forall j, e :: HasEntry(geo, d, j, e) ==> e.ino != i
  }

  /** A record may be erased once no entry leads to it. */
  lemma StepBlank(geo: Geo, d: Disk, i: nat)
    requires GeoOk(geo) && CrashSafe(geo, d) && Unnamed(geo, d, i)
    ensures CrashSafe(geo, Apply(d, WInode(i, Blank)))
    ensures forall j :: InUse(geo, Apply(d, WInode(i, Blank)), j) <==> InUse(geo, d, j) && j != i
  {
    hide NamedBy, BUsed, EntriesOf, DataOf, NoDup, DirBlockOk, DistinctNames, GeoOk, IUsed;
    var d' := Apply(d, WInode(i, Blank));
    assert forall j :: InUse(geo, d', j) <==> InUse(geo, d, j) && j != i;
    assert forall j :: InUse(geo, d', j) ==> d'.inodes[j] == d.inodes[j];
    assert forall j, e :: HasEntry(geo, d', j, e) <==> HasEntry(geo, d, j, e) && j != i;
    assert forall j :: Single(d', j) ==> Single(d, j);
  }

  lemma BlankIsUnnamed(geo: Geo, d: Disk, i: nat)
    requires GeoOk(geo) && CrashSafe(geo, d) && !InUse(geo, d, i)
    ensures Unnamed(geo, d, i)
  {
  }

  /** What a record must satisfy to be published in a blank slot. */
  ghost predicate Publishable(geo: Geo, d: Disk, r: Record)
    requires GeoOk(geo)
  {
    && r.Inode? && NoDup(NamedBy(d.blocks, r))
    && (forall b :: b in NamedBy(d.blocks, r) ==> BUsed(geo, d.bbm, b))
    && (forall j, b :: InUse(geo, d, j) && b in NamedBy(d.blocks, d.inodes[j]) ==> b !in NamedBy(d.blocks, r))
    && (r.kind == Dir ==>
          && (forall b :: b in DataOf(d.blocks, r) ==> DirBlockOk(geo, d.blocks, b))
          && DistinctNames(EntriesOf(d.blocks, r))
          && (forall e :: e in EntriesOf(d.blocks, r) ==> !Real(e)))
  }

  /** A record may be written into a blank slot once everything it names is
      marked, unshared and in place. */
  lemma StepPublish(geo: Geo, d: Disk, i: nat, r: Record)
    requires GeoOk(geo) && CrashSafe(geo, d) && !InUse(geo, d, i) && Publishable(geo, d, r)
    ensures CrashSafe(geo, Apply(d, WInode(i, r)))
    ensures forall j :: InUse(geo, Apply(d, WInode(i, r)), j) && j != i ==> InUse(geo, d, j)
    ensures forall j :: InUse(geo, d, j) ==> InUse(geo, Apply(d, WInode(i, r)), j)
    ensures Unnamed(geo, Apply(d, WInode(i, r)), i)
  {
    hide NamedBy, BUsed, EntriesOf, DataOf, NoDup, DirBlockOk, DistinctNames, GeoOk, IUsed;
    BlankIsUnnamed(geo, d, i);
    var d' := Apply(d, WInode(i, r));
    assert forall j :: j != i ==>
      InUse(geo, d', j) == InUse(geo, d, j) && (InUse(geo, d, j) ==> d'.inodes[j] == d.inodes[j]);
    assert forall j, e :: HasEntry(geo, d', j, e) ==> j != i && HasEntry(geo, d, j, e);
    assert forall j :: j != i && Single(d', j) ==> Single(d, j);
  }

  /** A directory's link count may change under it. */
  lemma StepLinks(geo: Geo, d: Disk, i: nat, links: nat)
    requires GeoOk(geo) && CrashSafe(geo, d) && IsDir(geo, d, i)
    ensures CrashSafe(geo, Apply(d, WInode(i, d.inodes[i].(links := links))))
    ensures forall j :: InUse(geo, Apply(d, WInode(i, d.inodes[i].(links := links))), j) == InUse(geo, d, j)
  {
    var d' := Apply(d, WInode(i, d.inodes[i].(links := links)));
    assert NamedBy(d.blocks, d'.inodes[i]) == NamedBy(d.blocks, d.inodes[i]);
    assert EntriesOf(d.blocks, d'.inodes[i]) == EntriesOf(d.blocks, d.inodes[i]);
    assert DataOf(d.blocks, d'.inodes[i]) == DataOf(d.blocks, d.inodes[i]);
    hide NamedBy, BUsed, EntriesOf, DataOf, NoDup, DirBlockOk, DistinctNames, GeoOk, IUsed;
    assert forall j ::
      InUse(geo, d', j) == InUse(geo, d, j) && (j != i && InUse(geo, d, j) ==> d'.inodes[j] == d.inodes[j]);
    assert forall j, e :: HasEntry(geo, d', j, e) == HasEntry(geo, d, j, e);
    assert forall j :: Single(d', j) == Single(d, j);
  }

  // ----- block contents -----

  ghost predicate Free(geo: Geo, d: Disk, b: nat)
    requires GeoOk(geo)
  {
    forall i :: InUse(geo, d, i) ==> b !in NamedBy(d.blocks, d.inodes[i])
  }

  /** Blocks that no in-use inode names may be overwritten. */
  lemma StepContents(geo: Geo, d: Disk, blocks': map<nat, Content>)
    requires GeoOk(geo) && CrashSafe(geo, d)
    requires forall i :: InUse(geo, d, i) ==> AgreeOn(d.blocks, blocks', NamedBy(d.blocks, d.inodes[i]))
    ensures CrashSafe(geo, d.(blocks := blocks'))
    ensures forall i :: InUse(geo, d.(blocks := blocks'), i) == InUse(geo, d, i)
    ensures forall i, e :: HasEntry(geo, d.(blocks := blocks'), i, e) == HasEntry(geo, d, i, e)
  {
    var d' := d.(blocks := blocks');
    forall i | InUse(geo, d, i)
      ensures NamedBy(d'.blocks, d.inodes[i]) == NamedBy(d.blocks, d.inodes[i])
      ensures EntriesOf(d'.blocks, d.inodes[i]) == EntriesOf(d.blocks, d.inodes[i])
      ensures DataOf(d'.blocks, d.inodes[i]) == DataOf(d.blocks, d.inodes[i])
    {
      RecordFrame(d.blocks, d'.blocks, d.inodes[i]);
    }
    assert forall i, b :: InUse(geo, d, i) && b in DataOf(d.blocks, d.inodes[i]) ==>
      b in NamedBy(d.blocks, d.inodes[i]);
    hide NamedBy, BUsed, EntriesOf, DataOf, NoDup, DistinctNames, GeoOk, IUsed, ChainOk;
    assert forall i :: InUse(geo, d', i) == InUse(geo, d, i);
    assert forall i, e :: HasEntry(geo, d', i, e) == HasEntry(geo, d, i, e);
    assert forall i :: Single(d', i) == Single(d, i);
    assert DirsOk(geo, d') by {
      forall i, b | IsDir(geo, d', i) && b in DataOf(d'.blocks, d'.inodes[i]) ensures DirBlockOk(geo, d'.blocks, b) {
        assert DirBlockOk(geo, d.blocks, b);
      }
    }
  }

  // ----- directory blocks -----

  lemma {:induction false} EntriesInConcat(blocks: map<nat, Content>, x: seq<nat>, y: seq<nat>)
    ensures EntriesIn(blocks, x + y) == EntriesIn(blocks, x) + EntriesIn(blocks, y)
  {
    if y == [] {
      assert x + y == x;
    } else {
      assert (x + y)[..|x + y| - 1] == x + y[..|y| - 1];
      EntriesInConcat(blocks, x, y[..|y| - 1]);
    }
  }

  /** The directory's entries around block `b`. */
  lemma EntriesAround(blocks: map<nat, Content>, bs: seq<nat>, k: nat, c: Content)
    requires NoDup(bs) && k < |bs|
    ensures EntriesIn(blocks, bs)
         == EntriesIn(blocks, bs[..k]) + BlockEntries(blocks, bs[k]) + EntriesIn(blocks, bs[k + 1..])
    ensures EntriesIn(blocks[bs[k] := c], bs)
         == EntriesIn(blocks, bs[..k]) + BlockEntries(blocks[bs[k] := c], bs[k]) + EntriesIn(blocks, bs[k + 1..])
  {
    var blocks' := blocks[bs[k] := c];
    assert bs == (bs[..k] + [bs[k]]) + bs[k + 1..];
    EntriesInConcat(blocks, bs[..k] + [bs[k]], bs[k + 1..]);
    EntriesInConcat(blocks, bs[..k], [bs[k]]);
    EntriesInConcat(blocks', bs[..k] + [bs[k]], bs[k + 1..]);
    EntriesInConcat(blocks', bs[..k], [bs[k]]);
    EntriesInFrame(blocks, blocks', bs[..k]);
    EntriesInFrame(blocks, blocks', bs[k + 1..]);
    assert [bs[k]][..0] == [];
    hide Live;
    assert EntriesIn(blocks, [bs[k]]) == BlockEntries(blocks, bs[k]);
    assert EntriesIn(blocks', [bs[k]]) == BlockEntries(blocks', bs[k]);
  }

  lemma NoDupConcat(x: seq<nat>, y: seq<nat>)
    requires NoDup(x + y)
    ensures NoDup(x) && forall b :: b in x ==> b !in y
  {
    forall i, j | 0 <= i < j < |x| ensures x[i] != x[j] {
      assert (x + y)[i] == x[i] && (x + y)[j] == x[j];
    }
    forall b | b in x ensures b !in y {
      var i :| 0 <= i < |x| && x[i] == b;
      forall j | 0 <= j < |y| ensures y[j] != b {
        assert (x + y)[i] == b && (x + y)[|x| + j] == y[j];
      }
    }
  }

  /** Rewriting one directory block leaves every other record as it was and the
      directory's own block list in place. */
  lemma DirWriteFrame(geo: Geo, d: Disk, dir: nat, b: nat, chain: seq<Rec>)
    requires GeoOk(geo) && CrashSafe(geo, d) && IsDir(geo, d, dir) && b in DataOf(d.blocks, d.inodes[dir])
    ensures
      var blocks' := d.blocks[b := DirBlock(chain)];
      && DataOf(blocks', d.inodes[dir]) == DataOf(d.blocks, d.inodes[dir])
      && NamedBy(blocks', d.inodes[dir]) == NamedBy(d.blocks, d.inodes[dir])
      && (forall i :: InUse(geo, d, i) && i != dir ==>
            && DataOf(blocks', d.inodes[i]) == DataOf(d.blocks, d.inodes[i])
            && NamedBy(blocks', d.inodes[i]) == NamedBy(d.blocks, d.inodes[i])
            && EntriesOf(blocks', d.inodes[i]) == EntriesOf(d.blocks, d.inodes[i])
            && b !in NamedBy(d.blocks, d.inodes[i]))
  {
    var blocks' := d.blocks[b := DirBlock(chain)];
    var r := d.inodes[dir];
    NoDupConcat(DataOf(d.blocks, r), MetaOf(r));
    if r.tree.Indexed? { LeafRunsFrame(d.blocks, blocks', r.tree.leaves); }
    assert b in NamedBy(d.blocks, r);
    forall i | InUse(geo, d, i) && i != dir
      ensures DataOf(blocks', d.inodes[i]) == DataOf(d.blocks, d.inodes[i])
      ensures NamedBy(blocks', d.inodes[i]) == NamedBy(d.blocks, d.inodes[i])
      ensures EntriesOf(blocks', d.inodes[i]) == EntriesOf(d.blocks, d.inodes[i])
      ensures b !in NamedBy(d.blocks, d.inodes[i])
    {
      assert b !in NamedBy(d.blocks, d.inodes[i]);
      RecordFrame(d.blocks, blocks', d.inodes[i]);
    }
  }

  /** Safety of a directory write reduces to the directory's own new entries. */
  lemma StepDirBlock(geo: Geo, d: Disk, dir: nat, b: nat, chain: seq<Rec>)
    requires GeoOk(geo) && CrashSafe(geo, d) && IsDir(geo, d, dir) && b in DataOf(d.blocks, d.inodes[dir])
    requires ChainOk(chain) && Tiles(chain) == geo.usable
    requires
      var es := EntriesOf(d.blocks[b := DirBlock(chain)], d.inodes[dir]);
      && DistinctNames(es)
      && (forall e :: e in es && Real(e) && !HasEntry(geo, d, dir, e) ==>
            && InUse(geo, d, e.ino)
            && (Single(d, e.ino) ==> Unnamed(geo, d, e.ino))
            && (forall f :: f in es && Real(f) && f.ino == e.ino && Single(d, e.ino) ==> f.name == e.name))
    ensures CrashSafe(geo, Apply(d, WBlock(b, DirBlock(chain))))
    ensures forall i :: InUse(geo, Apply(d, WBlock(b, DirBlock(chain))), i) == InUse(geo, d, i)
    ensures forall i, e :: i != dir ==>
      HasEntry(geo, Apply(d, WBlock(b, DirBlock(chain))), i, e) == HasEntry(geo, d, i, e)
  {
    hide NamedBy, BUsed, EntriesOf, DataOf, NoDup, DistinctNames, GeoOk, IUsed, ChainOk, Tiles;
    var d' := Apply(d, WBlock(b, DirBlock(chain)));
    DirWriteFrame(geo, d, dir, b, chain);
    assert forall i :: InUse(geo, d', i) == InUse(geo, d, i);
    assert forall i :: Single(d', i) == Single(d, i);
    assert forall i, e :: i != dir ==> HasEntry(geo, d', i, e) == HasEntry(geo, d, i, e);
    assert DirsOk(geo, d') by {
      forall i, x | IsDir(geo, d', i) && x in DataOf(d'.blocks, d'.inodes[i]) ensures DirBlockOk(geo, d'.blocks, x) {
        assert DirBlockOk(geo, d.blocks, x);
      }
    }
  }

  /** The directory's entries and the block `k` holding some of them. */
  lemma DirBlockAt(geo: Geo, d: Disk, dir: nat, k: nat)
    requires GeoOk(geo) && CrashSafe(geo, d) && IsDir(geo, d, dir) && k < |DataOf(d.blocks, d.inodes[dir])|
    ensures DirBlockOk(geo, d.blocks, DataOf(d.blocks, d.inodes[dir])[k])
    ensures NoDup(DataOf(d.blocks, d.inodes[dir]))
    ensures DistinctNames(EntriesOf(d.blocks, d.inodes[dir]))
  {
    var bs := DataOf(d.blocks, d.inodes[dir]);
    assert bs[k] in bs;
    NoDupConcat(bs, MetaOf(d.inodes[dir]));
  }

  /** `chain` is block `k` of `dir` with the new entry `e` put in. */
  ghost predicate Places(geo: Geo, d: Disk, dir: nat, k: nat, chain: seq<Rec>, e: Entry)
    requires GeoOk(geo)
  {
    && IsDir(geo, d, dir) && k < |DataOf(d.blocks, d.inodes[dir])|
    && DirBlockOk(geo, d.blocks, DataOf(d.blocks, d.inodes[dir])[k])
    && Insert(d.blocks[DataOf(d.blocks, d.inodes[dir])[k]].chain, e) == Some(chain)
    && EntryOk(e) && Real(e) && !Named(EntriesOf(d.blocks, d.inodes[dir]), e.name)
  }

  /** `chain` is block `k` of `dir` with the entry `name` taken out. */
  ghost predicate Severs(geo: Geo, d: Disk, dir: nat, k: nat, chain: seq<Rec>, name: Name)
    requires GeoOk(geo)
  {
    && IsDir(geo, d, dir) && k < |DataOf(d.blocks, d.inodes[dir])|
    && DirBlockOk(geo, d.blocks, DataOf(d.blocks, d.inodes[dir])[k])
    && Remove(d.blocks[DataOf(d.blocks, d.inodes[dir])[k]].chain, name) == Some(chain)
    && name != DOT && name != DOTDOT
  }

  /** The write that enters `e` in `dir`. */
  ghost predicate LinkWrite(geo: Geo, d: Disk, dir: nat, e: Entry, w: Write)
    requires GeoOk(geo)
  {
    exists k: nat, chain ::
      && Places(geo, d, dir, k, chain, e)
      && w == WBlock(DataOf(d.blocks, d.inodes[dir])[k], DirBlock(chain))
  }

  /** The write that takes `name` out of `dir`. */
  ghost predicate UnlinkWrite(geo: Geo, d: Disk, dir: nat, name: Name, w: Write)
    requires GeoOk(geo)
  {
    exists k: nat, chain ::
      && Severs(geo, d, dir, k, chain, name)
      && w == WBlock(DataOf(d.blocks, d.inodes[dir])[k], DirBlock(chain))
  }

  lemma LinkWriteIs(geo: Geo, d: Disk, dir: nat, k: nat, chain: seq<Rec>, e: Entry)
    requires GeoOk(geo) && Places(geo, d, dir, k, chain, e)
    ensures LinkWrite(geo, d, dir, e, WBlock(DataOf(d.blocks, d.inodes[dir])[k], DirBlock(chain)))
  {
    hide Places;
  }

  lemma UnlinkWriteIs(geo: Geo, d: Disk, dir: nat, k: nat, chain: seq<Rec>, name: Name)
    requires GeoOk(geo) && Severs(geo, d, dir, k, chain, name)
    ensures UnlinkWrite(geo, d, dir, name, WBlock(DataOf(d.blocks, d.inodes[dir])[k], DirBlock(chain)))
  {
    hide Severs;
  }

  /** Inserting a new name for a written inode keeps the medium safe and adds
      exactly that entry to the directory. */
  lemma StepLink(geo: Geo, d: Disk, dir: nat, k: nat, chain: seq<Rec>, e: Entry)
    requires GeoOk(geo) && CrashSafe(geo, d) && Places(geo, d, dir, k, chain, e)
    requires InUse(geo, d, e.ino) && (Single(d, e.ino) ==> Unnamed(geo, d, e.ino))
    ensures
      var b := DataOf(d.blocks, d.inodes[dir])[k];
      var d' := Apply(d, WBlock(b, DirBlock(chain)));
      && CrashSafe(geo, d')
      && AddedOnce(EntriesOf(d.blocks, d.inodes[dir]), e, EntriesOf(d'.blocks, d.inodes[dir]))
  {
    hide CrashSafe, NamedBy, DataOf, EntriesOf, Live, ChainOk, Insert, GeoOk, NoDup, AddedOnce, Tiles, EntryOk;
    var bs, es := DataOf(d.blocks, d.inodes[dir]), EntriesOf(d.blocks, d.inodes[dir]);
    var es' := EntriesOf(d.blocks[bs[k] := DirBlock(chain)], d.inodes[dir]);
    LinkEntries(geo, d, dir, k, chain, e);
    AddedDistinct(es, e, es');
    hide DistinctNames, DirBlockOk;
    assert forall f :: f in es' && Real(f) ==> f == e || HasEntry(geo, d, dir, f);
    StepDirBlock(geo, d, dir, bs[k], chain);
  }

  lemma LinkEntries(geo: Geo, d: Disk, dir: nat, k: nat, chain: seq<Rec>, e: Entry)
    requires GeoOk(geo) && CrashSafe(geo, d) && IsDir(geo, d, dir) && k < |DataOf(d.blocks, d.inodes[dir])|
    requires DirBlockOk(geo, d.blocks, DataOf(d.blocks, d.inodes[dir])[k])
    requires Insert(d.blocks[DataOf(d.blocks, d.inodes[dir])[k]].chain, e) == Some(chain) && EntryOk(e)
    ensures ChainOk(chain) && Tiles(chain) == geo.usable
    ensures DataOf(d.blocks, d.inodes[dir])[k] in DataOf(d.blocks, d.inodes[dir])
    ensures DistinctNames(EntriesOf(d.blocks, d.inodes[dir]))
    ensures
      var b := DataOf(d.blocks, d.inodes[dir])[k];
      AddedOnce(EntriesOf(d.blocks, d.inodes[dir]), e, EntriesOf(d.blocks[b := DirBlock(chain)], d.inodes[dir]))
  {
    var bs := DataOf(d.blocks, d.inodes[dir]);
    var b := bs[k];
    assert b in bs;
    DirBlockAt(geo, d, dir, k);
    InsertCorrect(d.blocks[b].chain, e);
    DirWriteFrame(geo, d, dir, b, chain);
    EntriesAround(d.blocks, bs, k, DirBlock(chain));
    hide CrashSafe, NamedBy, DataOf, EntriesIn, Live, ChainOk, Insert, GeoOk, NoDup, AddedOnce, DistinctNames, Tiles;
    AddedMiddle(EntriesIn(d.blocks, bs[..k]), Live(d.blocks[b].chain), EntriesIn(d.blocks, bs[k + 1..]), e,
      Live(chain));
  }

  /** Removing a name keeps the medium safe and removes exactly that entry. A
      singly linked inode is then reachable by no name at all. */
  lemma StepUnlink(geo: Geo, d: Disk, dir: nat, k: nat, chain: seq<Rec>, name: Name)
    requires GeoOk(geo) && CrashSafe(geo, d) && Severs(geo, d, dir, k, chain, name)
    ensures
      var b := DataOf(d.blocks, d.inodes[dir])[k];
      var d' := Apply(d, WBlock(b, DirBlock(chain)));
      && CrashSafe(geo, d')
      && EntriesOf(d'.blocks, d.inodes[dir]) == Without(EntriesOf(d.blocks, d.inodes[dir]), name)
      && var e := Lookup(d.blocks[b].chain, name);
      && e.Some? && HasEntry(geo, d, dir, e.value) && e.value.name == name
      && (Single(d, e.value.ino) ==> Unnamed(geo, d', e.value.ino))
  {
    hide CrashSafe, NamedBy, DataOf, EntriesOf, Live, ChainOk, Remove, GeoOk, NoDup, Tiles, Lookup, Without;
    var bs, es := DataOf(d.blocks, d.inodes[dir]), EntriesOf(d.blocks, d.inodes[dir]);
    var es' := EntriesOf(d.blocks[bs[k] := DirBlock(chain)], d.inodes[dir]);
    UnlinkEntries(geo, d, dir, k, chain, name);
    var e := Lookup(d.blocks[bs[k]].chain, name).value;
    WithoutDistinct(es, name);
    hide DistinctNames, DirBlockOk;
    assert HasEntry(geo, d, dir, e);
    assert forall x :: x in es' && Real(x) ==> HasEntry(geo, d, dir, x);
    StepDirBlock(geo, d, dir, bs[k], chain);
    var d' := Apply(d, WBlock(bs[k], DirBlock(chain)));
    if Single(d, e.ino) {
      NamesUniqueOf(geo, d);
      assert Unnamed(geo, d', e.ino);
    }
  }

  lemma UnlinkEntries(geo: Geo, d: Disk, dir: nat, k: nat, chain: seq<Rec>, name: Name)
    requires GeoOk(geo) && CrashSafe(geo, d) && IsDir(geo, d, dir) && k < |DataOf(d.blocks, d.inodes[dir])|
    requires DirBlockOk(geo, d.blocks, DataOf(d.blocks, d.inodes[dir])[k])
    requires Remove(d.blocks[DataOf(d.blocks, d.inodes[dir])[k]].chain, name) == Some(chain)
    ensures ChainOk(chain) && Tiles(chain) == geo.usable
    ensures DataOf(d.blocks, d.inodes[dir])[k] in DataOf(d.blocks, d.inodes[dir])
    ensures DistinctNames(EntriesOf(d.blocks, d.inodes[dir]))
    ensures
      var b := DataOf(d.blocks, d.inodes[dir])[k];
      var e := Lookup(d.blocks[b].chain, name);
      && EntriesOf(d.blocks[b := DirBlock(chain)], d.inodes[dir]) == Without(EntriesOf(d.blocks, d.inodes[dir]), name)
      && e.Some? && e.value in EntriesOf(d.blocks, d.inodes[dir]) && e.value.name == name
  {
    var bs := DataOf(d.blocks, d.inodes[dir]);
    var b := bs[k];
    assert b in bs;
    DirBlockAt(geo, d, dir, k);
    RemoveCorrect(d.blocks[b].chain, name);
    LookupIsLive(d.blocks[b].chain, name);
    DirWriteFrame(geo, d, dir, b, chain);
    EntriesAround(d.blocks, bs, k, DirBlock(chain));
    hide CrashSafe, NamedBy, DataOf, EntriesIn, Live, ChainOk, Remove, GeoOk, NoDup, Tiles, Without, DistinctNames,
      Lookup;
    var pre, post := EntriesIn(d.blocks, bs[..k]), EntriesIn(d.blocks, bs[k + 1..]);
    NotNamedBefore(pre, Live(d.blocks[b].chain), post, name);
    WithoutMiddle(pre, Live(d.blocks[b].chain), post, name);
  }

  lemma NamesUniqueOf(geo: Geo, d: Disk)
    requires GeoOk(geo) && CrashSafe(geo, d)
    ensures NamesUnique(geo, d) && NamesLive(geo, d)
  {
  }

  lemma NotNamedBefore(pre: seq<Entry>, mid: seq<Entry>, post: seq<Entry>, name: Name)
    requires DistinctNames(pre + mid + post) && Named(mid, name)
    ensures !Named(pre, name)
  {
    var j :| 0 <= j < |mid| && mid[j].name == name;
    forall i | 0 <= i < |pre| ensures pre[i].name != name {
      assert (pre + mid + post)[i] == pre[i] && (pre + mid + post)[|pre| + j] == mid[j];
    }
  }

  // ----- runs of data blocks -----

  lemma PutRunAt(blocks: map<nat, Content>, b: nat, chunks: seq<seq<byte>>)
    ensures forall x :: b <= x < b + |chunks| ==>
      x in PutRun(blocks, b, chunks) && PutRun(blocks, b, chunks)[x] == Data(chunks[x - b])
    ensures forall x :: !(b <= x < b + |chunks|) ==>
      && (x in PutRun(blocks, b, chunks) <==> x in blocks)
      && (x in blocks ==> PutRun(blocks, b, chunks)[x] == blocks[x])
  {
  }

  // ----- resources an unfinished operation holds -----

  /** An inode that is claimed but whose record is not written yet. */
  ghost predicate HeldIno(geo: Geo, d: Disk, groups: seq<GroupDesc>, i: nat)
    requires GeoOk(geo)
  {
    && InoExists(geo, i) && geo.firstIno <= i && IUsed(geo, d.ibm, i) && i in d.inodes && d.inodes[i].Blank?
    && InoGroup(geo, i) < |groups| && !groups[InoGroup(geo, i)].inodeUninit
  }

  /** `held` gives, for each unfinished file, the blocks claimed for it: marked
      used, named by no record, and held once. */
  ghost predicate HeldOk(geo: Geo, d: Disk, groups: seq<GroupDesc>, held: map<nat, set<nat>>)
    requires GeoOk(geo)
  {
    && (forall i :: i in held ==> HeldIno(geo, d, groups, i))
    && (forall i, b :: i in held && b in held[i] ==> BUsed(geo, d.bbm, b) && Free(geo, d, b))
    && (forall i, j, b :: i in held && j in held && b in held[i] && b in held[j] ==> i == j)
  }

  /** No unfinished operation and no in-use record has any of these blocks. */
  ghost predicate Loose(geo: Geo, d: Disk, held: map<nat, set<nat>>, s: seq<nat>)
    requires GeoOk(geo)
  {
    && (forall b :: b in s ==> Free(geo, d, b))
    && (forall i, b :: i in held && b in s ==> b !in held[i])
  }

  // ----- held blocks around other writes -----

  /** Nothing an in-use record names differs between the two block maps. */
  ghost predicate Untouched(geo: Geo, d: Disk, blocks': map<nat, Content>)
    requires GeoOk(geo)
  {
    forall i :: InUse(geo, d, i) ==> AgreeOn(d.blocks, blocks', NamedBy(d.blocks, d.inodes[i]))
  }

  lemma HeldContents(geo: Geo, d: Disk, groups: seq<GroupDesc>, held: map<nat, set<nat>>, blocks': map<nat, Content>)
    requires GeoOk(geo) && HeldOk(geo, d, groups, held) && Untouched(geo, d, blocks')
    ensures HeldOk(geo, d.(blocks := blocks'), groups, held)
  {
    var d' := d.(blocks := blocks');
    forall i | InUse(geo, d, i) ensures NamedBy(d'.blocks, d.inodes[i]) == NamedBy(d.blocks, d.inodes[i]) {
      RecordFrame(d.blocks, d'.blocks, d.inodes[i]);
    }
    hide NamedBy, BUsed, GeoOk, IUsed, AgreeOn, InoExists;
    assert forall i :: InUse(geo, d', i) == InUse(geo, d, i);
    assert forall b :: Free(geo, d', b) == Free(geo, d, b);
    assert forall i :: HeldIno(geo, d', groups, i) == HeldIno(geo, d, groups, i);
  }

  /** Writing a block held by an unfinished file touches no record. */
  lemma HeldUntouched(geo: Geo, d: Disk, groups: seq<GroupDesc>, held: map<nat, set<nat>>, owner: nat, b: nat,
      c: Content)
    requires GeoOk(geo) && HeldOk(geo, d, groups, held) && owner in held && b in held[owner]
    ensures Untouched(geo, d, d.blocks[b := c])
  {
    hide NamedBy, BUsed, GeoOk, IUsed, HeldIno;
    assert Free(geo, d, b);
  }

  lemma HeldRunUntouched(geo: Geo, d: Disk, groups: seq<GroupDesc>, held: map<nat, set<nat>>, owner: nat, b: nat,
      chunks: seq<seq<byte>>)
    requires GeoOk(geo) && HeldOk(geo, d, groups, held) && owner in held
    requires forall x :: b <= x < b + |chunks| ==> x in held[owner]
    ensures Untouched(geo, d, PutRun(d.blocks, b, chunks))
  {
    hide NamedBy, BUsed, GeoOk, IUsed, HeldIno, PutRun;
    PutRunAt(d.blocks, b, chunks);
    var blocks' := PutRun(d.blocks, b, chunks);
    assert forall x :: b <= x < b + |chunks| ==> Free(geo, d, x);
    forall i | InUse(geo, d, i) ensures AgreeOn(d.blocks, blocks', NamedBy(d.blocks, d.inodes[i])) {
      forall x | x in NamedBy(d.blocks, d.inodes[i])
        ensures (x in d.blocks <==> x in blocks') && (x in d.blocks ==> d.blocks[x] == blocks'[x])
      {
        assert !Free(geo, d, x);
      }
    }
  }

  /** Rewriting a directory's own block disturbs no held block. */
  lemma HeldDirWrite(geo: Geo, d: Disk, groups: seq<GroupDesc>, held: map<nat, set<nat>>, dir: nat, b: nat,
      chain: seq<Rec>)
    requires GeoOk(geo) && CrashSafe(geo, d) && HeldOk(geo, d, groups, held)
    requires IsDir(geo, d, dir) && b in DataOf(d.blocks, d.inodes[dir])
    ensures HeldOk(geo, Apply(d, WBlock(b, DirBlock(chain))), groups, held)
  {
    var d' := Apply(d, WBlock(b, DirBlock(chain)));
    DirWriteFrame(geo, d, dir, b, chain);
    hide NamedBy, DataOf, BUsed, GeoOk, IUsed, CrashSafe, EntriesOf, InoExists;
    assert forall i :: InUse(geo, d', i) == InUse(geo, d, i);
    assert forall x :: Free(geo, d', x) == Free(geo, d, x);
    assert forall i :: HeldIno(geo, d', groups, i) == HeldIno(geo, d, groups, i);
  }

  /** Publishing a record turns its held blocks into named ones. */
  lemma HeldPublish(geo: Geo, d: Disk, groups: seq<GroupDesc>, held: map<nat, set<nat>>, i: nat, r: Record)
    requires GeoOk(geo) && HeldOk(geo, d, groups, held) && i in held
    requires forall b :: b in NamedBy(d.blocks, r) ==> b in held[i]
    ensures HeldOk(geo, Apply(d, WInode(i, r)), groups, held - {i})
  {
    var d' := Apply(d, WInode(i, r));
    hide NamedBy, BUsed, GeoOk, IUsed, InoExists;
    assert forall j :: j != i ==>
      InUse(geo, d', j) == InUse(geo, d, j) && (InUse(geo, d, j) ==> d'.inodes[j] == d.inodes[j]);
    forall j, b | j in held && j != i && b in held[j] ensures Free(geo, d', b) {
      assert Free(geo, d, b);
      assert b !in held[i];
    }
    assert forall j :: j in held && j != i ==> HeldIno(geo, d', groups, j);
  }

  /** A directory's link count is nobody's held block. */
  lemma HeldLinks(geo: Geo, d: Disk, groups: seq<GroupDesc>, held: map<nat, set<nat>>, i: nat, links: nat)
    requires GeoOk(geo) && HeldOk(geo, d, groups, held) && IsDir(geo, d, i)
    ensures HeldOk(geo, Apply(d, WInode(i, d.inodes[i].(links := links))), groups, held)
  {
    var d' := Apply(d, WInode(i, d.inodes[i].(links := links)));
    assert NamedBy(d.blocks, d'.inodes[i]) == NamedBy(d.blocks, d.inodes[i]);
    hide NamedBy, BUsed, GeoOk, IUsed, InoExists;
    assert forall j :: InUse(geo, d', j) == InUse(geo, d, j);
    assert forall j :: j in held ==> j != i;
    assert forall x :: Free(geo, d, x) ==> Free(geo, d', x);
    assert forall j :: j in held ==> HeldIno(geo, d', groups, j);
  }

  // ----- looking a name up -----

  lemma {:induction false} EntriesPrefix(blocks: map<nat, Content>, bs: seq<nat>, k: nat, name: Name)
    requires k < |bs|
    ensures EntriesIn(blocks, bs[..k + 1]) == EntriesIn(blocks, bs[..k]) + BlockEntries(blocks, bs[k])
    ensures Named(EntriesIn(blocks, bs[..k + 1]), name)
       <==> Named(EntriesIn(blocks, bs[..k]), name) || Named(BlockEntries(blocks, bs[k]), name)
  {
    assert bs[..k + 1][..k] == bs[..k];
    var x, y := EntriesIn(blocks, bs[..k]), BlockEntries(blocks, bs[k]);
    hide EntriesIn, BlockEntries;
    NamedConcat(x, y, name);
  }

  lemma NamedConcat(x: seq<Entry>, y: seq<Entry>, name: Name)
    ensures Named(x + y, name) <==> Named(x, name) || Named(y, name)
  {
    if Named(x, name) {
      var i :| 0 <= i < |x| && x[i].name == name;
      assert (x + y)[i].name == name;
    }
    if Named(y, name) {
      var i :| 0 <= i < |y| && y[i].name == name;
      assert (x + y)[|x| + i].name == name;
    }
  }

  lemma NoEntries(blocks: map<nat, Content>, bs: seq<nat>, name: Name)
    ensures EntriesIn(blocks, bs[..0]) == [] && !Named(EntriesIn(blocks, bs[..0]), name)
  {
  }

  lemma DirParts(geo: Geo, d: Disk, dir: nat)
    requires GeoOk(geo) && CrashSafe(geo, d) && IsDir(geo, d, dir)
    ensures forall b :: b in DataOf(d.blocks, d.inodes[dir]) ==> DirBlockOk(geo, d.blocks, b)
  {
  }

  lemma LookupInBlock(blocks: map<nat, Content>, b: nat, name: Name)
    requires b in blocks && blocks[b].DirBlock?
    ensures Lookup(blocks[b].chain, name).Some? <==> Named(BlockEntries(blocks, b), name)
    ensures Lookup(blocks[b].chain, name).Some? ==>
      Lookup(blocks[b].chain, name).value in BlockEntries(blocks, b) && Lookup(blocks[b].chain, name).value.name == name
  {
    LookupIsLive(blocks[b].chain, name);
  }

  lemma BlockInDir(blocks: map<nat, Content>, bs: seq<nat>, k: nat, e: Entry)
    requires k < |bs| && e in BlockEntries(blocks, bs[k])
    ensures e in EntriesIn(blocks, bs)
  {
    hide EntriesIn, BlockEntries;
    EntriesPrefix(blocks, bs, k, e.name);
    EntriesInConcat(blocks, bs[..k + 1], bs[k + 1..]);
    InConcat(EntriesIn(blocks, bs[..k]), BlockEntries(blocks, bs[k]), EntriesIn(blocks, bs[k + 1..]), e);
    assert bs == bs[..k + 1] + bs[k + 1..];
  }

  lemma InConcat(a: seq<Entry>, b: seq<Entry>, c: seq<Entry>, e: Entry)
    requires e in b
    ensures e in a + b + c
  {
  }

  /** In a safe directory an entry is a valid chain entry. */
  lemma {:induction false} EntryValid(geo: Geo, blocks: map<nat, Content>, bs: seq<nat>, e: Entry)
    requires e in EntriesIn(blocks, bs) && forall b :: b in bs ==> DirBlockOk(geo, blocks, b)
    ensures EntryOk(e)
  {
    var p, l := bs[..|bs| - 1], bs[|bs| - 1];
    assert l in bs;
    if e in EntriesIn(blocks, p) {
      EntryValid(geo, blocks, p, e);
    } else {
      LiveOk(blocks[l].chain, e);
    }
  }

  lemma {:induction false} LiveOk(c: seq<Rec>, e: Entry)
    requires ChainOk(c) && e in Live(c)
    ensures EntryOk(e)
  {
    if c[0].entry == Some(e) {
    } else {
      LiveOk(c[1..], e);
    }
  }

  /** What `validate_name` accepts. */
  predicate NameOk(name: Name) {
    0 < |name| <= 255 && 47 !in name && 0 !in name && name != DOT && name != DOTDOT
  }
}
