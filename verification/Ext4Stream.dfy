/** Files whose contents arrive in chunks (core/src/fs/ext4/file.rs,
    `FileWriter`): reserving, appending, publishing and abandoning. */
module Ext4Stream {
  import opened Arith
  import opened Bytes
  import opened Extents
  import opened DirChain
  import opened Ext4Disk
  import opened Ext4Steps
  import opened Ext4Bitmap
  import opened Ext4Inodes
  import opened Ext4Data
  import opened Ext4Books
  import opened Ext4Writer

  // ----- the block list of a stream -----

  /** The extents that hold data: all but the one starting at the leaf block. */
  function DataExtents(es: seq<Extent>, leaf: Option<nat>): seq<Extent> {
    if es == [] then []
    else
      var e := es[|es| - 1];
      DataExtents(es[..|es| - 1], leaf) + (if Some(e.physical) == leaf then [] else [e])
  }

  /** Where the next allocation should start. */
  function Goal(es: seq<Extent>, leaf: Option<nat>): nat {
    var ds := DataExtents(es, leaf);
    if ds == [] then 0 else ds[|ds| - 1].physical + ds[|ds| - 1].len
  }

  lemma {:induction false} DataExtentsConcat(a: seq<Extent>, b: seq<Extent>, leaf: Option<nat>)
    requires forall e :: e in b ==> Some(e.physical) != leaf
    ensures DataExtents(a + b, leaf) == DataExtents(a, leaf) + b
  {
    if b == [] {
      assert a + b == a;
    } else {
      var b', e := b[..|b| - 1], b[|b| - 1];
      assert e in b && forall x :: x in b' ==> x in b;
      DataExtentsConcat(a, b', leaf);
      assert (a + b)[..|a + b| - 1] == a + b';
      assert b == b' + [e];
    }
  }

  lemma DataExtentsAll(es: seq<Extent>, leaf: Option<nat>)
    requires forall e :: e in es ==> Some(e.physical) != leaf
    ensures DataExtents(es, leaf) == es
  {
    DataExtentsConcat([], es, leaf);
    assert [] + es == es;
  }

  /** A block of a list of extents. */
  lemma {:induction false} StartInFlat(es: seq<Extent>, e: Extent)
    requires e in es && e.len > 0
    ensures e.physical in Flat(es)
  {
    var l := es[|es| - 1];
    if e == l {
      assert Span(l.physical, l.len)[0] == e.physical;
      assert Flat(es)[|Flat(es[..|es| - 1])|] == e.physical;
    } else {
      assert e in es[..|es| - 1];
      StartInFlat(es[..|es| - 1], e);
    }
  }

  /** The extents of a growing stream, in which the leaf block can be told
      from the data. */
  ghost predicate Separable(es: seq<Extent>, runs: seq<Run>, leaf: Option<nat>) {
    FlatRuns(runs) == Flat(DataExtents(es, leaf)) && forall e :: e in es ==> e.len > 0
  }

  /** What the stream's books say: runs laid end to end, no block twice, and
      the extents list precisely the data blocks and the leaf. */
  ghost predicate BooksOk(geo: Geo, es: seq<Extent>, runs: seq<Run>, leaf: Option<nat>)
    requires GeoOk(geo)
  {
    && Tiled(runs) && |runs| <= MaxRuns(geo) && NoDup(Flat(es)) && (leaf.Some? ==> runs != [])
    && NoDup(FlatRuns(runs) + LeafSeq(leaf)) && SeqSet(Flat(es)) == SeqSet(FlatRuns(runs) + LeafSeq(leaf))
  }

  lemma NoDupInsert(a: seq<nat>, c: seq<nat>, b: seq<nat>)
    requires NoDup(a + b) && NoDup(c) && forall x :: x in c ==> x !in a + b
    ensures NoDup(a + c + b)
  {
    var r, ab := a + c + b, a + b;
    forall i, j | 0 <= i < j < |r| ensures r[i] != r[j] {
      if |a| <= i < |a| + |c| {
        assert r[i] == c[i - |a|] && r[i] in c;
        if j >= |a| + |c| { assert r[j] == ab[j - |c|]; }
      } else if |a| <= j < |a| + |c| {
        assert r[j] == c[j - |a|] && r[j] in c && r[i] == ab[i];
      } else {
        assert r[i] == ab[if i < |a| then i else i - |c|] && r[j] == ab[if j < |a| then j else j - |c|];
      }
    }
  }

  lemma NoDupDisjoint(a: seq<nat>, b: seq<nat>)
    requires NoDup(a) && NoDup(b) && forall x :: x in b ==> x !in a
    ensures NoDup(a + b)
  {
    forall i, j | 0 <= i < j < |a + b| ensures (a + b)[i] != (a + b)[j] {
      if i < |a| <= j { assert b[j - |a|] in b; }
    }
  }

  /** More data blocks were claimed. */
  lemma BooksGrow(geo: Geo, es: seq<Extent>, runs: seq<Run>, leaf: Option<nat>, new_: seq<Extent>, runs': seq<Run>)
    requires GeoOk(geo) && BooksOk(geo, es, runs, leaf) && Separable(es, runs, leaf)
    requires Maximal(new_) && NoDup(Flat(new_)) && (forall b :: b in Flat(new_) ==> b !in SeqSet(Flat(es)))
    requires Tiled(runs') && |runs'| <= MaxRuns(geo) && FlatRuns(runs') == Flat(DataExtents(es + new_, leaf))
    ensures BooksOk(geo, es + new_, runs', leaf) && Separable(es + new_, runs', leaf)
    ensures FlatRuns(runs') == FlatRuns(runs) + Flat(new_)
  {
    hide Tiled, FlatRuns, Flat, NoDup, DataExtents, GeoOk, SeqSet, LeafSeq, MaxRuns;
    GrownData(geo, es, runs, leaf, new_);
    FlatConcat(es, new_);
    FlatConcat(DataExtents(es, leaf), new_);
    SetGrow(Flat(es), FlatRuns(runs), Flat(new_), LeafSeq(leaf));
    NoDupDisjoint(Flat(es), Flat(new_));
    NoDupInsert(FlatRuns(runs), Flat(new_), LeafSeq(leaf));
    assert forall e :: e in es + new_ ==> e in es || e in new_;
    RunsStay(runs, runs');
  }

  /** A layout that has blocks has runs. */
  lemma RunsStay(runs: seq<Run>, runs': seq<Run>)
    requires Tiled(runs) && FlatRuns(runs) <= FlatRuns(runs')
    ensures runs != [] ==> runs' != []
  {
    if runs != [] { RunSlice(runs, 0); }
  }

  lemma SetGrow(f: seq<nat>, a: seq<nat>, c: seq<nat>, b: seq<nat>)
    requires SeqSet(f) == SeqSet(a + b) && forall x :: x in c ==> x !in SeqSet(f)
    ensures SeqSet(f + c) == SeqSet(a + c + b)
    ensures forall x :: x in c ==> x !in a + b && x !in f
  {
    assert forall x :: x in f <==> x in SeqSet(f);
    assert forall x :: x in a + b <==> x in SeqSet(a + b);
    assert forall x :: x in f + c <==> x in f || x in c;
    assert forall x :: x in a + c + b <==> x in a + b || x in c;
  }

  lemma GrownData(geo: Geo, es: seq<Extent>, runs: seq<Run>, leaf: Option<nat>, new_: seq<Extent>)
    requires GeoOk(geo) && BooksOk(geo, es, runs, leaf) && Maximal(new_)
    requires forall b :: b in Flat(new_) ==> b !in SeqSet(Flat(es))
    ensures DataExtents(es + new_, leaf) == DataExtents(es, leaf) + new_
  {
    hide Tiled, FlatRuns, Flat, NoDup, DataExtents, GeoOk;
    assert leaf.Some? ==> leaf.value in SeqSet(FlatRuns(runs) + LeafSeq(leaf));
    forall e | e in new_ ensures Some(e.physical) != leaf {
      StartInFlat(new_, e);
    }
    DataExtentsConcat(es, new_, leaf);
  }

  /** A leaf block was claimed. */
  lemma BooksLeaf(geo: Geo, es: seq<Extent>, runs: seq<Run>, b: nat)
    requires GeoOk(geo) && BooksOk(geo, es, runs, None) && Separable(es, runs, None) && b !in SeqSet(Flat(es))
    requires runs != []
    ensures BooksOk(geo, es + [Extent(b, 1)], runs, Some(b)) && Separable(es + [Extent(b, 1)], runs, Some(b))
    ensures Flat(es + [Extent(b, 1)]) == Flat(es) + [b]
  {
    hide Tiled, FlatRuns, Flat, NoDup, DataExtents, GeoOk;
    FlatPush(es, Extent(b, 1));
    assert Span(b, 1) == [b];
    DataExtentsAll(es, None);
    forall e | e in es ensures Some(e.physical) != Some(b) { StartInFlat(es, e); }
    DataExtentsAll(es, Some(b));
    LeafDropped(es, b);
    var a := FlatRuns(runs);
    assert a + LeafSeq(None) == a;
    assert forall x :: x in SeqSet(Flat(es)) <==> x in SeqSet(a + LeafSeq(None));
    OneBlockNoDup(b);
    NoDupDisjoint(Flat(es), [b]);
    NoDupDisjoint(a, [b]);
    assert forall x :: x in a + [b] <==> x in a || x == b;
    assert forall x :: x in Flat(es) + [b] <==> x in Flat(es) || x == b;
  }

  lemma OneBlockNoDup(b: nat)
    ensures NoDup([b])
  {
  }

  lemma LeafDropped(es: seq<Extent>, b: nat)
    ensures DataExtents(es + [Extent(b, 1)], Some(b)) == DataExtents(es, Some(b))
  {
    assert (es + [Extent(b, 1)])[..|es|] == es;
  }

  // ----- the writer -----

  /** The bytes not yet written: the part of the content past its last whole
      block, always shorter than a block. */
  ghost predicate TailOk(bs: nat, content: seq<byte>, tail: seq<byte>) {
    0 < bs && |tail| < bs && |tail| == |content| % bs && tail == content[|content| - |tail|..]
  }

  class FileWriter {
    const ino: nat
    const streaming: bool
    var extents: seq<Extent>
    var runs: seq<Run>
    var size: nat
    var written: nat
    var leaf: Option<nat>
    var tail: seq<byte>
    ghost var content: seq<byte>
    /** The filesystem when the file was begun. */
    ghost const began: State
    /** The most blocks it ever held. */
    ghost var peak: nat

    constructor (ino: nat, streaming: bool, extents: seq<Extent>, runs: seq<Run>, leaf: Option<nat>, size: nat,
        ghost began: State)
      ensures this.ino == ino && this.streaming == streaming && this.extents == extents && this.runs == runs
      ensures this.leaf == leaf
      ensures this.size == size && this.written == 0 && this.tail == [] && this.content == []
      ensures this.began == began && peak == |Flat(extents)|
    {
      this.ino, this.streaming, this.extents, this.runs, this.leaf := ino, streaming, extents, runs, leaf;
      this.size, this.written, this.tail, this.content := size, 0, [], [];
      this.began, this.peak := began, |Flat(extents)|;
    }
  }

  /** What holds of an open stream between calls. In particular the extents
      list precisely the blocks it holds, and every whole block received is
      stored in the block that backs it. */
  ghost predicate StreamOk(fs: Ext4, w: FileWriter)
    reads fs, w
  {
    && fs.Valid() && w.ino in fs.held && w.ino !in fs.dirs && fs.held[w.ino] == SeqSet(Flat(w.extents))
    && BooksOk(fs.geo, w.extents, w.runs, w.leaf)
    && w.written == |w.content| && TailOk(fs.geo.blockSize, w.content, w.tail)
    && Received(fs.disk.blocks, FlatRuns(w.runs), w.content, fs.geo.blockSize)
    && (w.streaming ==> Separable(w.extents, w.runs, w.leaf))
    && (!w.streaming ==> w.written <= w.size && w.size <= |FlatRuns(w.runs)| * fs.geo.blockSize)
  }

  /** Every whole block of the content is stored, and the rest has a place. */
  ghost predicate Received(blocks: map<nat, Content>, flat: seq<nat>, content: seq<byte>, bs: nat) {
    StoredTo(blocks, flat, content, bs, |content|) && |content| <= |flat| * bs
  }

  /** All that changed since the stream was begun is what the stream holds. */
  ghost predicate Alone(fs: Ext4, w: FileWriter)
    reads fs, w
  {
    AloneAt(fs.geo, w.began, fs.Now(), w.ino, w.extents, w.peak)
  }

  ghost predicate AloneAt(geo: Geo, s: State, b: State, i: nat, es: seq<Extent>, peak: nat) {
    && GeoOk(geo) && Began(geo, s) && Even(s, b, |Flat(es)|, peak)
    && Reserved(geo, s.disk, s.groups, b.disk, b.groups, i, false, Flat(es)) && Undisturbed(geo, s.disk, b.disk)
  }

  /** One inode and `n` blocks are out, and never more than `peak`: what the
      superblock counters then say. */
  ghost predicate Even(a: State, b: State, n: nat, peak: nat) {
    && Keeps(a, b) && n <= peak && b.freeBlocks + n == Max(a.freeBlocks, peak)
    && b.freeInodes + 1 == Max(a.freeInodes, 1)
  }

  lemma EvenStart(a: State, b: State, n: nat)
    requires Keeps(a, b) && b.freeBlocks == SatSub(a.freeBlocks, n) && b.freeInodes == SatSub(a.freeInodes, 1)
    ensures Even(a, b, n, n)
  {
    hide Keeps;
  }

  lemma EvenMore(a: State, b: State, c: State, n: nat, peak: nat, delta: nat)
    requires Even(a, b, n, peak) && Keeps(b, c) && c.freeBlocks == SatSub(b.freeBlocks, delta)
    requires c.freeInodes == b.freeInodes
    ensures Even(a, c, n + delta, Max(peak, n + delta))
  {
    KeepsTrans(a, b, c);
    hide Keeps;
  }

  lemma EvenLess(a: State, b: State, c: State, n: nat, peak: nat, delta: nat)
    requires Even(a, b, n + delta, peak) && Keeps(b, c) && c.freeBlocks == b.freeBlocks + delta
    requires c.freeInodes == b.freeInodes
    ensures Even(a, c, n, peak)
  {
    KeepsTrans(a, b, c);
    hide Keeps;
  }

  lemma EvenWrote(a: State, b: State, c: State, n: nat, peak: nat)
    requires Even(a, b, n, peak) && c == b.(disk := c.disk) && c.disk.freeInodes == b.disk.freeInodes
    ensures Even(a, c, n, peak)
  {
  }

  lemma EvenBack(geo: Geo, a: State, b: State, c: State, n: nat, peak: nat)
    requires GeoOk(geo) && Even(a, b, n, peak) && Keeps(b, c) && c.freeBlocks == b.freeBlocks + n
    requires c.freeInodes == b.freeInodes + 1
    requires Restored(geo, a.disk, a.groups, c.disk, c.groups)
    ensures BackTo(geo, a, c, peak, 1)
  {
    KeepsTrans(a, b, c);
    hide Keeps, Restored, GeoOk;
  }

  lemma AloneStart(geo: Geo, s: State, b: State, i: nat, es: seq<Extent>)
    requires GeoOk(geo) && CrashSafe(geo, s.disk) && Began(geo, s) && Keeps(s, b)
    requires b.freeBlocks == SatSub(s.freeBlocks, |Flat(es)|) && b.freeInodes == SatSub(s.freeInodes, 1)
    requires Reserved(geo, s.disk, s.groups, b.disk, b.groups, i, false, Flat(es)) && b.disk.blocks == s.disk.blocks
    ensures AloneAt(geo, s, b, i, es, |Flat(es)|)
  {
    hide GeoOk, CrashSafe, Keeps, Reserved, Undisturbed, SameOutside, Flat, Even;
    OutsideRefl(s.disk.blocks, Flat(es));
    ReservedUndisturbed(geo, s.disk, s.groups, b.disk, b.groups, i, false, Flat(es));
    EvenStart(s, b, |Flat(es)|);
  }

  /** More blocks were claimed. */
  lemma AloneClaim(geo: Geo, s: State, a: State, b: State, i: nat, es: seq<Extent>, new_: seq<Extent>, peak: nat)
    requires AloneAt(geo, s, a, i, es, peak) && Keeps(a, b) && b.freeBlocks == SatSub(a.freeBlocks, |Flat(new_)|)
    requires b.freeInodes == a.freeInodes
    requires SameInodeSide(b.groups, a.groups) && b.disk.inodes == a.disk.inodes && b.disk.ibm == a.disk.ibm
    requires b.disk.blocks == a.disk.blocks
    requires GeoOk(geo) && Marked(geo, a.disk.bbm, b.disk.bbm, Flat(new_)) && AllFree(geo, a.disk.bbm, Flat(new_))
    ensures AloneAt(geo, s, b, i, es + new_, Max(peak, |Flat(es)| + |Flat(new_)|))
  {
    hide GeoOk, CrashSafe, Keeps, Reserved, Undisturbed, Flat, Even, Marked, AllFree, SameInodeSide, Max, BlockCount;
    FlatConcat(es, new_);
    EvenMore(s, a, b, |Flat(es)|, peak, |Flat(new_)|);
    ReservedMore(geo, s.disk, s.groups, a.disk, a.groups, b.disk, b.groups, i, false, Flat(es), Flat(new_));
    UndisturbedFrame(geo, s.disk, a.disk, b.disk);
  }

  /** More blocks were claimed and returned. */
  lemma AloneReturn(geo: Geo, s: State, a: State, b: State, c: State, i: nat, es: seq<Extent>, new_: seq<Extent>,
      peak: nat)
    requires AloneAt(geo, s, a, i, es, peak) && Keeps(a, b) && b.freeBlocks == SatSub(a.freeBlocks, |Flat(new_)|)
    requires b.freeInodes == a.freeInodes
    requires Keeps(b, c) && c.freeBlocks == b.freeBlocks + |Flat(new_)| && c.freeInodes == b.freeInodes
    requires SameInodeSide(b.groups, a.groups) && SameInodeSide(c.groups, b.groups)
    requires c.disk.inodes == a.disk.inodes && c.disk.ibm == a.disk.ibm && c.disk.blocks == a.disk.blocks
    requires c.disk.bbm == a.disk.bbm
    ensures AloneAt(geo, s, c, i, es, Max(peak, |Flat(es)| + |Flat(new_)|))
  {
    hide GeoOk, CrashSafe, Keeps, Reserved, Undisturbed, Flat, Even, SameInodeSide, Max, BlockCount;
    EvenMore(s, a, b, |Flat(es)|, peak, |Flat(new_)|);
    EvenLess(s, b, c, |Flat(es)|, Max(peak, |Flat(es)| + |Flat(new_)|), |Flat(new_)|);
    ReservedBack(geo, s.disk, s.groups, a.disk, a.groups, c.disk, b.groups, c.groups, i, Flat(es));
    UndisturbedFrame(geo, s.disk, a.disk, c.disk);
  }

  /** Something was written, but no counter. */
  lemma AloneStep(geo: Geo, s: State, a: State, b: State, i: nat, es: seq<Extent>, peak: nat)
    requires AloneAt(geo, s, a, i, es, peak) && b == a.(disk := b.disk) && b.disk.freeInodes == a.disk.freeInodes
    requires GeoOk(geo) && Reserved(geo, s.disk, s.groups, b.disk, b.groups, i, false, Flat(es))
    requires Undisturbed(geo, s.disk, b.disk)
    ensures AloneAt(geo, s, b, i, es, peak)
  {
    hide GeoOk, CrashSafe, Keeps, Reserved, Undisturbed, Flat, BlockCount;
    EvenWrote(s, a, b, |Flat(es)|, peak);
  }

  lemma AloneParts(geo: Geo, s: State, b: State, i: nat, es: seq<Extent>, peak: nat)
    requires AloneAt(geo, s, b, i, es, peak)
    ensures GeoOk(geo) && Began(geo, s) && CrashSafe(geo, s.disk)
    ensures BlockCount(geo, s.groups, s.disk.bbm, s.drift.blocks)
    ensures Reserved(geo, s.disk, s.groups, b.disk, b.groups, i, false, Flat(es)) && Undisturbed(geo, s.disk, b.disk)
    ensures Even(s, b, |Flat(es)|, peak) && Keeps(s, b) && b.drift == s.drift
  {
    hide GeoOk, CrashSafe, Reserved, Undisturbed, Flat, BlockCount;
  }

  lemma FreshBlocks(geo: Geo, d: Disk, groups: seq<GroupDesc>, held: map<nat, set<nat>>, i: nat, s: seq<nat>)
    requires GeoOk(geo) && HeldOk(geo, d, groups, held) && i in held && AllFree(geo, d.bbm, s)
    ensures forall b :: b in s ==> b !in held[i]
  {
    hide GeoOk, BUsed, HeldIno, Free;
  }

  /** Giving up blocks just claimed: nobody else has them. */
  lemma GivenUp(geo: Geo, d: Disk, groups: seq<GroupDesc>, held: map<nat, set<nat>>, i: nat, keep: set<nat>,
      s: seq<nat>)
    requires GeoOk(geo) && HeldOk(geo, d, groups, held) && i in held && held[i] == keep + SeqSet(s)
    requires forall b :: b in s ==> b !in keep
    requires NoDup(s)
    ensures HeldOk(geo, d, groups, held[i := keep]) && Loose(geo, d, held[i := keep], s) && Releasable(geo, d.bbm, s)
  {
    hide GeoOk, BUsed, HeldIno, Free, NoDup;
    assert forall b :: b in s ==> b in held[i];
  }

  lemma UndisturbedFrame(geo: Geo, d0: Disk, d: Disk, d': Disk)
    requires GeoOk(geo) && Undisturbed(geo, d0, d) && d'.inodes == d.inodes && d'.blocks == d.blocks
    ensures Undisturbed(geo, d0, d')
  {
    hide GeoOk, Intact, InUse;
  }

  lemma ReservedBack(geo: Geo, d0: Disk, g0: seq<GroupDesc>, d: Disk, g: seq<GroupDesc>, d': Disk, g1: seq<GroupDesc>,
      g': seq<GroupDesc>, i: nat, s: seq<nat>)
    requires GeoOk(geo) && Reserved(geo, d0, g0, d, g, i, false, s) && SameInodeSide(g1, g) && SameInodeSide(g', g1)
    requires d'.inodes == d.inodes && d'.ibm == d.ibm && d'.bbm == d.bbm
    ensures Reserved(geo, d0, g0, d', g', i, false, s)
  {
    hide InoGroup, InoBit, SetIno, ClaimGroups, IUsed, GeoOk, Marked, AllFree;
  }

  lemma StoredPrefix(blocks: map<nat, Content>, flat: seq<nat>, more: seq<nat>, content: seq<byte>, bs: nat)
    requires Received(blocks, flat, content, bs)
    ensures Received(blocks, flat + more, content, bs)
  {
    hide Stored;
    assert |content| / bs * bs <= |content|;
    StoredExtends(blocks, flat, flat + more, content, [], bs, |content| / bs);
    assert content + [] == content;
    MulMono(|flat|, |flat + more|, bs);
  }

  /** The extents of a stream's data once `delta` blocks are allotted to it. */
  ghost function PiecesAfter(geo: Geo, d: Disk, groups: seq<GroupDesc>, es: seq<Extent>, leaf: Option<nat>,
      delta: nat): nat {
    if SupplyOk(geo, groups, d.bbm) then
      Pieces(Coalesced(DataExtents(es + Allotted(geo, groups, d.bbm, Goal(es, leaf), delta), leaf)))
    else 0
  }

  /** When a stream cannot be given `delta` data blocks: its layout is full, the
      groups cannot supply them, or they would need more extents than a leaf
      holds. */
  ghost predicate Crowded(geo: Geo, d: Disk, groups: seq<GroupDesc>, es: seq<Extent>, runs: seq<Run>, leaf: Option<nat>,
      delta: nat)
    requires GeoOk(geo)
  {
    || |runs| >= MaxRuns(geo) || Short(geo, d, groups, delta)
    || PiecesAfter(geo, d, groups, es, leaf, delta) > MaxRuns(geo)
  }

  /** When it cannot grow by them: also when it now needs a leaf and there is
      no block left for one. */
  ghost predicate Cramped(geo: Geo, d: Disk, groups: seq<GroupDesc>, es: seq<Extent>, runs: seq<Run>, leaf: Option<nat>,
      delta: nat)
    requires GeoOk(geo)
  {
    || Crowded(geo, d, groups, es, runs, leaf, delta)
    || (&& PiecesAfter(geo, d, groups, es, leaf, delta) > MAX_INLINE_EXTENTS && leaf.None?
        && Short(geo, d, groups, delta + 1))
  }

  /** How many blocks are claimed only to be returned. */
  ghost function Wasted(geo: Geo, d: Disk, groups: seq<GroupDesc>, es: seq<Extent>, runs: seq<Run>, leaf: Option<nat>,
      delta: nat): nat
    requires GeoOk(geo)
  {
    if && |runs| < MaxRuns(geo) && !Short(geo, d, groups, delta)
       && PiecesAfter(geo, d, groups, es, leaf, delta) > MaxRuns(geo)
    then delta else 0
  }

  ghost function WastedTo(geo: Geo, d: Disk, groups: seq<GroupDesc>, es: seq<Extent>, runs: seq<Run>, leaf: Option<nat>,
      end: nat): nat
    requires GeoOk(geo)
  {
    var needed, current := CeilDiv(end, geo.blockSize), |FlatRuns(runs)|;
    if needed > current then Wasted(geo, d, groups, es, runs, leaf, needed - current) else 0
  }

  lemma NoWaste(geo: Geo, d: Disk, groups: seq<GroupDesc>, es: seq<Extent>, runs: seq<Run>, leaf: Option<nat>,
      delta: nat)
    requires GeoOk(geo) && !Crowded(geo, d, groups, es, runs, leaf, delta)
    ensures Wasted(geo, d, groups, es, runs, leaf, delta) == 0
  {
  }

  /** Growing a stream to `end` bytes fails exactly when it lacks blocks and is
      cramped. */
  ghost predicate Judged(geo: Geo, d: Disk, groups: seq<GroupDesc>, es: seq<Extent>, runs: seq<Run>, leaf: Option<nat>,
      end: nat, failed: bool)
    requires GeoOk(geo)
  {
    var needed, current := CeilDiv(end, geo.blockSize), |FlatRuns(runs)|;
    failed <==> needed > current && Cramped(geo, d, groups, es, runs, leaf, needed - current)
  }

  lemma SuppliedPieces(geo: Geo, d: Disk, groups: seq<GroupDesc>, d': Disk, groups': seq<GroupDesc>, es: seq<Extent>,
      leaf: Option<nat>, delta: nat, new_: seq<Extent>)
    requires Supplied(geo, d, groups, d', groups', Goal(es, leaf), delta, new_)
    ensures PiecesAfter(geo, d, groups, es, leaf, delta) == Pieces(Coalesced(DataExtents(es + new_, leaf)))
    ensures Short(geo, d', groups', 1) <==> Short(geo, d, groups, delta + 1)
  {
    hide Allotted, SupplyFrom, SupplyOk, Goal, DataExtents;
    ShortAfter(geo, d, groups, d', groups', delta, 1);
  }

  /** The blocks of the extents that came after `es0`. */
  function Newer(es0: seq<Extent>, es1: seq<Extent>): seq<nat>
    requires es0 <= es1
  {
    Flat(es1[|es0|..])
  }

  /** A stream's extents grew from `es0` to `es1`, after `lost` further blocks
      were claimed and returned: exactly the new blocks are marked. */
  ghost predicate Extended(geo: Geo, a: State, b: State, es0: seq<Extent>, es1: seq<Extent>, lost: nat)
    requires GeoOk(geo)
  {
    && es0 <= es1 && Keeps(a, b) && Marked(geo, a.disk.bbm, b.disk.bbm, Newer(es0, es1))
    && b.disk.inodes == a.disk.inodes && b.disk.ibm == a.disk.ibm && SameInodeSide(b.groups, a.groups)
    && b.freeInodes == a.freeInodes
    && b.freeBlocks == SatSub(a.freeBlocks, |Newer(es0, es1)| + lost) + lost
  }

  lemma ExtendedNone(geo: Geo, a: State, es: seq<Extent>)
    requires SupplyOk(geo, a.groups, a.disk.bbm)
    ensures Extended(geo, a, a, es, es, 0)
  {
    SameSideRefl(a.groups);
    assert es[|es|..] == [];
    hide SameInodeSide, Keeps;
    KeepsRefl(a);
  }

  lemma ExtendedLost(geo: Geo, a: State, b: State, c: State, es: seq<Extent>, n: nat)
    requires SupplyOk(geo, a.groups, a.disk.bbm) && Keeps(a, b) && Keeps(b, c) && c.disk.bbm == a.disk.bbm
    requires c.disk.inodes == a.disk.inodes && c.disk.ibm == a.disk.ibm
    requires SameInodeSide(b.groups, a.groups) && SameInodeSide(c.groups, b.groups) && b.freeInodes == a.freeInodes
    requires c.freeInodes == b.freeInodes
    requires b.freeBlocks == SatSub(a.freeBlocks, n) && c.freeBlocks == b.freeBlocks + n
    ensures Extended(geo, a, c, es, es, n)
  {
    SameSideTrans(a.groups, b.groups, c.groups);
    assert es[|es|..] == [];
    hide SameInodeSide, Keeps;
    KeepsTrans(a, b, c);
  }

  lemma SameSideTrans(a: seq<GroupDesc>, b: seq<GroupDesc>, c: seq<GroupDesc>)
    requires SameInodeSide(b, a) && SameInodeSide(c, b)
    ensures SameInodeSide(c, a)
  {
  }

  lemma ExtendedBy(geo: Geo, a: State, b: State, es: seq<Extent>, new_: seq<Extent>)
    requires GeoOk(geo) && Keeps(a, b) && Marked(geo, a.disk.bbm, b.disk.bbm, Flat(new_))
    requires b.disk.inodes == a.disk.inodes && b.disk.ibm == a.disk.ibm
    requires SameInodeSide(b.groups, a.groups) && b.freeInodes == a.freeInodes
    requires b.freeBlocks == SatSub(a.freeBlocks, |Flat(new_)|)
    ensures Extended(geo, a, b, es, es + new_, 0)
  {
    assert (es + new_)[|es|..] == new_;
    hide SameInodeSide, Keeps, Marked, GeoOk;
  }

  lemma ExtendedTrans(geo: Geo, a: State, b: State, c: State, es0: seq<Extent>, es1: seq<Extent>, es2: seq<Extent>)
    requires GeoOk(geo) && Extended(geo, a, b, es0, es1, 0) && Extended(geo, b, c, es1, es2, 0)
    ensures Extended(geo, a, c, es0, es2, 0)
  {
    KeepsTrans(a, b, c);
    SameSideTrans(a.groups, b.groups, c.groups);
    hide SameInodeSide, Keeps, GeoOk, Flat;
    assert es2[|es0|..] == es1[|es0|..] + es2[|es1|..];
    FlatConcat(es1[|es0|..], es2[|es1|..]);
    MarkedTwice(geo, a.disk.bbm, b.disk.bbm, c.disk.bbm, Newer(es0, es1), Newer(es1, es2));
  }

  lemma ExtendedWrote(geo: Geo, a: State, b: State, c: State, es0: seq<Extent>, es1: seq<Extent>, lost: nat)
    requires GeoOk(geo) && Extended(geo, a, b, es0, es1, lost) && c == b.(disk := c.disk)
    requires c.disk == b.disk.(blocks := c.disk.blocks)
    ensures Extended(geo, a, c, es0, es1, lost)
  {
    hide SameInodeSide, Marked, GeoOk, Flat;
    KeepsWrote(a, b, c);
  }

  /** Give back blocks just claimed for inode `i`, which keeps `keep`. */
  method ReturnNew(fs: Ext4, i: nat, new_: seq<Extent>, ghost keep: set<nat>)
    requires fs.Valid() && i in fs.held && fs.held[i] == keep + SeqSet(Flat(new_)) && NoDup(Flat(new_))
    requires forall b :: b in Flat(new_) ==> b !in keep
    modifies fs
    ensures fs.Valid() && old(fs.log) <= fs.log && fs.dirs == old(fs.dirs) && fs.held == old(fs.held)[i := keep]
    ensures Keeps(old(fs.Now()), fs.Now())
    ensures fs.disk.inodes == old(fs.disk.inodes) && fs.disk.blocks == old(fs.disk.blocks)
    ensures fs.disk.ibm == old(fs.disk.ibm)
    ensures SameInodeSide(fs.groups, old(fs.groups)) && Cleared(fs.geo, old(fs.disk.bbm), fs.disk.bbm, Flat(new_))
    ensures fs.freeBlocks == old(fs.freeBlocks) + |Flat(new_)| && fs.freeInodes == old(fs.freeInodes)
  {
    hide CrashSafe, SafeHistory, Replay, GeoOk, HeldOk, BlockCount, InodeSide, Saved, Flat, NoDup, CommitOrdered,
      SameInodeSide, SeqSet, Loose, Releasable, Cleared, Keeps;
    GivenUp(fs.geo, fs.disk, fs.groups, fs.held, i, keep, Flat(new_));
    fs.held := fs.held[i := keep];
    var freed, steps := fs.FreeBlocks(new_);
  }

  /** Claim the data blocks a longer stream needs; `delta` of them are missing. */
  method GrowData(fs: Ext4, w: FileWriter, delta: nat) returns (r: Result<()>, ghost lost: nat)
    requires StreamOk(fs, w) && w.streaming && 0 < delta
    modifies fs, w`extents, w`runs, w`peak
    ensures Keeps(old(fs.Now()), fs.Now()) && w.peak <= Max(old(w.peak), |Flat(old(w.extents))| + delta)
    ensures StreamOk(fs, w) && old(fs.log) <= fs.log && fs.dirs == old(fs.dirs)
    ensures fs.disk.inodes == old(fs.disk.inodes) && fs.disk.blocks == old(fs.disk.blocks)
    ensures fs.disk.ibm == old(fs.disk.ibm)
    ensures old(Alone(fs, w)) ==> Alone(fs, w)
    ensures fs.held == old(fs.held)[w.ino := SeqSet(Flat(w.extents))]
    ensures r.Ok? ==> FlatRuns(old(w.runs)) <= FlatRuns(w.runs) && |FlatRuns(w.runs)| == |FlatRuns(old(w.runs))| + delta
    ensures r.Err? ==>
      w.runs == old(w.runs) && w.extents == old(w.extents) && fs.disk.bbm == old(fs.disk.bbm) && r.error != BadInode
    ensures Extended(fs.geo, old(fs.Now()), fs.Now(), old(w.extents), w.extents, lost)
    ensures lost == Wasted(fs.geo, old(fs.disk), old(fs.groups), old(w.extents), old(w.runs), w.leaf, delta)
    ensures r.Err? <==> Crowded(fs.geo, old(fs.disk), old(fs.groups), old(w.extents), old(w.runs), w.leaf, delta)
    ensures r.Ok? ==>
      && |w.runs| == PiecesAfter(fs.geo, old(fs.disk), old(fs.groups), old(w.extents), w.leaf, delta)
      && (Short(fs.geo, fs.disk, fs.groups, 1) <==> Short(fs.geo, old(fs.disk), old(fs.groups), delta + 1))
  {
    hide CrashSafe, SafeHistory, Replay, GeoOk, HeldOk, BlockCount, InodeSide, Saved, Flat, FlatRuns, NoDup, Maximal,
      AllFree, Marked, SupplyFrom, SupplyOk, CommitOrdered, NoFlush, SameInodeSide, SeqSet, BooksOk, TailOk, Received,
      Tiled, DataExtents, Goal, Separable, Coalesced, Pieces, Reserved, Undisturbed, MaxRuns, Loose, Releasable,
      Cleared, LeafSeq, PiecesAfter, Short, Supplied, Keeps, AloneAt, Max, Extended;
    KeepsRefl(fs.Now());
    MaxLeft(w.peak, |Flat(w.extents)| + delta);
    ghost var a := fs.Now();
    ghost var geo, d, gs, h, es, rs := fs.geo, fs.disk, fs.groups, fs.held, w.extents, w.runs;
    HeldSame(h, w.ino);
    LeafRoom(geo);
    lost := 0;
    SupplyReady(geo, d, gs);
    ExtendedNone(geo, a, es);
    if |w.runs| >= MaxRuns(fs.geo) {
      return Err(UnsupportedFsFeature), lost;
    }
    var got, steps := fs.AllocBlocks(Goal(w.extents, w.leaf), delta, w.ino);
    SupplyShort(geo, d, gs, delta);
    if got.Err? {
      return Err(got.error), lost;
    }
    var new_ := got.value;
    SuppliedPieces(geo, d, gs, fs.disk, fs.groups, es, w.leaf, delta, new_);
    ghost var d1, g1, b := fs.disk, fs.groups, fs.Now();
    ghost var peak := w.peak;
    w.peak := Max(peak, |Flat(es)| + delta);
    FreshBlocks(geo, d, gs, h, w.ino, Flat(new_));
    FlatConcat(es, new_);
    var runs := RunsFrom(DataExtents(w.extents + new_, w.leaf), MaxRuns(fs.geo));
    if runs.None? {
      HeldSwap(h, w.ino, h[w.ino], h[w.ino] + SeqSet(Flat(new_)));
      ReturnNew(fs, w.ino, new_, h[w.ino]);
      MarkThenClear(geo, d.bbm, d1.bbm, fs.disk.bbm, Flat(new_));
      KeepsTrans(a, b, fs.Now());
      if old(Alone(fs, w)) { AloneReturn(geo, w.began, a, b, fs.Now(), w.ino, es, new_, peak); }
      lost := delta;
      ExtendedLost(geo, a, b, fs.Now(), es, delta);
      return Err(UnsupportedFsFeature), lost;
    }
    BooksGrow(geo, es, rs, w.leaf, new_, runs.value);
    SeqSetConcat(Flat(es), Flat(new_));
    if old(Alone(fs, w)) { AloneClaim(geo, w.began, a, b, w.ino, es, new_, peak); }
    StoredPrefix(d.blocks, FlatRuns(rs), Flat(new_), w.content, geo.blockSize);
    ExtendedBy(geo, a, b, es, new_);
    w.extents := w.extents + new_;
    w.runs := runs.value;
    r := Ok(());
  }

  lemma UndisturbedIf(geo: Geo, d0: Disk, d: Disk, d': Disk)
    requires GeoOk(geo) && d'.inodes == d.inodes && d'.blocks == d.blocks
    ensures Undisturbed(geo, d0, d) ==> Undisturbed(geo, d0, d')
  {
    hide GeoOk;
    if Undisturbed(geo, d0, d) { UndisturbedFrame(geo, d0, d, d'); }
  }

  lemma HeldSame(h: map<nat, set<nat>>, i: nat)
    requires i in h
    ensures h[i := h[i]] == h
  {
  }

  lemma HeldSwap(h: map<nat, set<nat>>, i: nat, x: set<nat>, y: set<nat>)
    requires i in h && h[i] == x
    ensures h[i := y][i := x] == h
  {
  }

  /** Claim the leaf block once the layout no longer fits in the inode. */
  method GrowLeaf(fs: Ext4, w: FileWriter) returns (r: Result<()>)
    requires StreamOk(fs, w) && w.streaming && w.leaf.None? && w.runs != []
    modifies fs, w`extents, w`leaf, w`peak
    ensures Keeps(old(fs.Now()), fs.Now()) && w.peak <= Max(old(w.peak), |Flat(old(w.extents))| + 1)
    ensures StreamOk(fs, w) && old(fs.log) <= fs.log && fs.dirs == old(fs.dirs)
    ensures fs.disk.inodes == old(fs.disk.inodes) && fs.disk.blocks == old(fs.disk.blocks)
    ensures fs.disk.ibm == old(fs.disk.ibm)
    ensures old(Alone(fs, w)) ==> Alone(fs, w)
    ensures fs.held == old(fs.held)[w.ino := SeqSet(Flat(w.extents))]
    ensures r.Ok? ==> w.leaf.Some?
    ensures Extended(fs.geo, old(fs.Now()), fs.Now(), old(w.extents), w.extents, 0)
    ensures r.Err? <==> Short(fs.geo, old(fs.disk), old(fs.groups), 1)
    ensures r.Err? ==> w.leaf.None? && w.extents == old(w.extents) && fs.disk == old(fs.disk) && r.error != BadInode
  {
    hide CrashSafe, SafeHistory, Replay, GeoOk, HeldOk, BlockCount, InodeSide, Saved, Flat, FlatRuns, NoDup, Maximal,
      AllFree, Marked, SupplyFrom, SupplyOk, CommitOrdered, NoFlush, SameInodeSide, SeqSet, BooksOk, TailOk, Received,
      Separable, AloneAt, Keeps, Max, Short, Supplied, Extended;
    KeepsRefl(fs.Now());
    MaxLeft(w.peak, |Flat(w.extents)| + 1);
    ghost var a := fs.Now();
    ghost var geo, d, gs, h, es := fs.geo, fs.disk, fs.groups, fs.held, w.extents;
    HeldSame(h, w.ino);
    SupplyReady(geo, d, gs);
    ExtendedNone(geo, a, es);
    var got, steps := fs.AllocBlocks(0, 1, w.ino);
    SupplyShort(geo, d, gs, 1);
    if got.Err? {
      return Err(got.error);
    }
    if old(Alone(fs, w)) { AloneClaim(geo, w.began, a, fs.Now(), w.ino, es, got.value, w.peak); }
    w.peak := Max(w.peak, |Flat(es)| + 1);
    OneBlock(got.value);
    var b := got.value[0].physical;
    LeafExtent(got.value, b);
    FreshBlocks(geo, d, gs, h, w.ino, Flat(got.value));
    BooksLeaf(geo, es, w.runs, b);
    SeqSetConcat(Flat(es), Flat(got.value));
    ExtendedBy(geo, a, fs.Now(), es, got.value);
    w.leaf := Some(b);
    w.extents := w.extents + got.value;
    r := Ok(());
  }

  lemma LeafExtent(es: seq<Extent>, b: nat)
    requires |es| == 1 && Flat(es) == [b] && es[0].physical == b
    ensures es == [Extent(b, 1)] && b in Flat(es)
  {
    assert es == [] + es;
    FlatPush([], es[0]);
    assert [] + Span(es[0].physical, es[0].len) == Span(es[0].physical, es[0].len);
  }

  lemma LayoutOf(fs: Ext4, w: FileWriter)
    requires StreamOk(fs, w)
    ensures fs.Layout(w.runs, w.ino) && forall b :: b in FlatRuns(w.runs) ==> b in SeqSet(Flat(w.extents))
  {
    hide CrashSafe, SafeHistory, Replay, GeoOk, HeldOk, BlockCount, InodeSide, Saved, Flat, FlatRuns, Tiled, NoDup,
      TailOk, Received, Separable, MaxRuns, fs.Valid;
    NoDupConcat(FlatRuns(w.runs), LeafSeq(w.leaf));
    var a, b := FlatRuns(w.runs), LeafSeq(w.leaf);
    assert forall x :: x in a ==> x in SeqSet(a + b);
  }

  /** Writing held blocks leaves every file and directory as it is. */
  lemma HeldWriteIntact(geo: Geo, d: Disk, groups: seq<GroupDesc>, held: map<nat, set<nat>>, i: nat, blocks': map<nat,
      Content>, s: seq<nat>)
    requires GeoOk(geo) && HeldOk(geo, d, groups, held) && i in held && (forall b :: b in s ==> b in held[i])
    requires SameOutside(d.blocks, blocks', s)
    ensures forall j :: InUse(geo, d, j) ==> Intact(d.blocks, blocks', d.inodes[j])
  {
    hide GeoOk, IUsed, NamedBy, EntriesOf, HeldIno, BUsed;
    assert forall b :: b in s ==> Free(geo, d, b);
    forall j | InUse(geo, d, j) ensures Intact(d.blocks, blocks', d.inodes[j]) {
      assert forall b :: b in NamedBy(d.blocks, d.inodes[j]) ==> b !in s;
      RecordFrame(d.blocks, blocks', d.inodes[j]);
    }
  }

  /** Data written into its own blocks leaves a stream alone. */
  lemma AloneWrite(geo: Geo, d0: Disk, g0: seq<GroupDesc>, d: Disk, g: seq<GroupDesc>, held: map<nat, set<nat>>,
      d': Disk, i: nat, t: seq<nat>, s: seq<nat>)
    requires GeoOk(geo) && CrashSafe(geo, d0) && Reserved(geo, d0, g0, d, g, i, false, t) && Undisturbed(geo, d0, d)
    requires HeldOk(geo, d, g, held) && i in held && (forall b :: b in s ==> b in held[i])
    requires d' == d.(blocks := d'.blocks) && SameOutside(d.blocks, d'.blocks, s)
    ensures Reserved(geo, d0, g0, d', g, i, false, t) && Undisturbed(geo, d0, d')
  {
    hide GeoOk, CrashSafe, Reserved, Undisturbed, HeldOk, SameOutside, InUse, Intact;
    ReservedSame(geo, d0, g0, d, g, d', i, false, t);
    HeldWriteIntact(geo, d, g, held, i, d'.blocks, s);
    AllSurvive(geo, d0, g0, d, g, i, false, t);
    UndisturbedTrans(geo, d0, d, d');
  }

  /** `at` bytes of whole blocks are stored; write the whole blocks `piece`
      that follow, given that they have a place. */
  method WritePiece(fs: Ext4, w: FileWriter, at: nat, piece: seq<byte>, ghost content: seq<byte>)
    requires fs.Valid() && fs.Layout(w.runs, w.ino) && forall b :: b in FlatRuns(w.runs) ==> b in fs.held[w.ino]
    requires Piece(fs.geo.blockSize, at, piece, content) && at + |piece| <= |FlatRuns(w.runs)| * fs.geo.blockSize
    requires StoredTo(fs.disk.blocks, FlatRuns(w.runs), content, fs.geo.blockSize, at)
    modifies fs`disk, fs`log
    ensures fs.Valid() && fs.disk == old(fs.disk).(blocks := fs.disk.blocks) && old(fs.log) <= fs.log
    ensures SameOutside(old(fs.disk.blocks), fs.disk.blocks, FlatRuns(w.runs))
    ensures StoredTo(fs.disk.blocks, FlatRuns(w.runs), content, fs.geo.blockSize, at + |piece|)
    ensures old(Alone(fs, w)) ==> Alone(fs, w)
    ensures exists steps :: fs.log == old(fs.log) + steps && DataOnly(steps)
  {
    hide CrashSafe, SafeHistory, Replay, HeldOk, BlockCount, InodeSide, Saved, Flat, FlatRuns, Stored, SameOutside,
      DataOnly, Reserved, Undisturbed, Tiled, NoDup, AloneAt, Even, Keeps, Began;
    ghost var d, a := fs.disk, fs.Now();
    BlocksFit(at + |piece|, fs.geo.blockSize, |FlatRuns(w.runs)|);
    var r, steps := fs.WriteFullBlocks(w.runs, at, piece, content, w.ino);
    if old(Alone(fs, w)) {
      AloneParts(fs.geo, w.began, a, w.ino, w.extents, w.peak);
      AloneWrite(fs.geo, w.began.disk, w.began.groups, d, fs.groups, fs.held, fs.disk, w.ino, Flat(w.extents),
        FlatRuns(w.runs));
      AloneStep(fs.geo, w.began, a, fs.Now(), w.ino, w.extents, w.peak);
    }
  }

  lemma BlocksFit(n: nat, bs: nat, m: nat)
    requires 0 < bs && n <= m * bs
    ensures n / bs <= m
  {
    assert (m + 1) * bs == m * bs + bs;
    QuotientBelow(n, m + 1, bs);
  }

  /** Where the pending tail sits. */
  lemma TailPlace(bs: nat, content: seq<byte>, tail: seq<byte>)
    requires TailOk(bs, content, tail)
    ensures (|content| - |tail|) % bs == 0 && (|content| - |tail|) / bs == |content| / bs && |tail| <= |content|
    ensures |content| - |tail| == |content| / bs * bs
  {
    var q := |content| / bs;
    assert |content| == q * bs + |tail|;
    DivModUnique(q, 0, bs);
  }

  /** Appending `more` to the content, of which a tail stays pending. */
  lemma TailAfter(bs: nat, content: seq<byte>, at: nat, tail: seq<byte>)
    requires 0 < bs && at % bs == 0 && at <= |content| && tail == content[at..] && |tail| < bs
    ensures TailOk(bs, content, tail) && |content| / bs == at / bs
  {
    ExactBlocks(at, bs);
    DivModUnique(at / bs, |tail|, bs);
  }

  lemma StillStored(blocks: map<nat, Content>, flat: seq<nat>, content: seq<byte>, more: seq<byte>, bs: nat)
    requires Received(blocks, flat, content, bs)
    ensures StoredTo(blocks, flat, content + more, bs, |content|)
  {
    hide Stored;
    assert |content| / bs * bs <= |content|;
    StoredExtends(blocks, flat, flat, content, more, bs, |content| / bs);
  }

  /** Top the pending tail up from `data` and write it once it is a block. */
  method FillTail(fs: Ext4, w: FileWriter, data: seq<byte>) returns (take: nat)
    requires StreamOk(fs, w) && w.tail != [] && w.written + |data| <= |FlatRuns(w.runs)| * fs.geo.blockSize
    requires !w.streaming ==> w.written + |data| <= w.size
    modifies fs`disk, fs`log, w`tail, w`written, w`content
    ensures StreamOk(fs, w) && old(fs.log) <= fs.log && fs.disk == old(fs.disk).(blocks := fs.disk.blocks)
    ensures take <= |data| && w.content == old(w.content) + data[..take] && (w.tail == [] || take == |data|)
    ensures SameOutside(old(fs.disk.blocks), fs.disk.blocks, FlatRuns(w.runs))
    ensures old(Alone(fs, w)) ==> Alone(fs, w)
  {
    hide CrashSafe, SafeHistory, Replay, HeldOk, BlockCount, InodeSide, Saved, Flat, FlatRuns, Stored, SameOutside,
      Reserved, Undisturbed, BooksOk, Separable, SeqSet, TailOk, GeoOk, fs.Layout;
    ghost var bs, c0 := fs.geo.blockSize, w.content;
    TailFacts(bs, c0, w.tail);
    TailPlace(bs, c0, w.tail);
    LayoutOf(fs, w);
    OutsideRefl(fs.disk.blocks, FlatRuns(w.runs));
    var needed := fs.geo.blockSize - |w.tail|;
    take := Min(needed, |data|);
    ghost var c1 := c0 + data[..take];
    StillStored(fs.disk.blocks, FlatRuns(w.runs), c0, data[..take], bs);
    ghost var at := |c0| - |w.tail|;
    var filled := w.tail + data[..take];
    assert c1[at..] == filled;
    if |filled| == fs.geo.blockSize {
      assert c1[at..at + |filled|] == filled;
      WholeBlock(bs);
      WritePiece(fs, w, w.written - (fs.geo.blockSize - take), filled, c1);
      w.tail := [];
      assert |c1| == at + bs && c1[|c1|..] == [];
      BlocksOfSum(at, bs, bs);
      TailAfter(bs, c1, |c1|, []);
    } else {
      w.tail := filled;
      TailAfter(bs, c1, at, filled);
    }
    w.written := w.written + take;
    w.content := c1;
  }

  lemma TailFacts(bs: nat, content: seq<byte>, tail: seq<byte>)
    requires TailOk(bs, content, tail)
    ensures 0 < bs && |tail| < bs && |tail| <= |content| && tail == content[|content| - |tail|..]
  {
  }

  lemma WholeBlock(bs: nat)
    requires 0 < bs
    ensures bs % bs == 0
  {
    DivModUnique(1, 0, bs);
  }

  /** Write the whole blocks of `data` and keep the rest pending. */
  method AppendBlocks(fs: Ext4, w: FileWriter, data: seq<byte>)
    requires StreamOk(fs, w) && w.tail == [] && w.written + |data| <= |FlatRuns(w.runs)| * fs.geo.blockSize
    requires !w.streaming ==> w.written + |data| <= w.size
    modifies fs`disk, fs`log, w`tail, w`written, w`content
    ensures StreamOk(fs, w) && old(fs.log) <= fs.log && fs.disk == old(fs.disk).(blocks := fs.disk.blocks)
    ensures w.content == old(w.content) + data
    ensures SameOutside(old(fs.disk.blocks), fs.disk.blocks, FlatRuns(w.runs))
    ensures old(Alone(fs, w)) ==> Alone(fs, w)
  {
    hide CrashSafe, SafeHistory, Replay, HeldOk, BlockCount, InodeSide, Saved, Flat, FlatRuns, StoredTo, SameOutside,
      Reserved, Undisturbed, BooksOk, Separable, SeqSet, TailOk, GeoOk, fs.Layout, WholeBytes, Piece, Received;
    ghost var bs, c0, flat := fs.geo.blockSize, w.content, FlatRuns(w.runs);
    TailFacts(bs, c0, w.tail);
    LayoutOf(fs, w);
    OutsideRefl(fs.disk.blocks, flat);
    ghost var c1 := c0 + data;
    StillStored(fs.disk.blocks, flat, c0, data, bs);
    var full := WholeBytes(|data|, fs.geo.blockSize);
    NextPiece(bs, c0, data);
    if full != 0 {
      WritePiece(fs, w, w.written, data[..full], c1);
    }
    AppendDone(fs.disk.blocks, flat, bs, c0, data);
    assert [] + data[full..] == data[full..];
    w.tail := w.tail + data[full..];
    w.written := w.written + |data|;
    w.content := c1;
  }

  /** The bytes of the whole blocks among `n`. */
  function WholeBytes(n: nat, bs: nat): (m: nat)
    requires 0 < bs
    ensures m <= n < m + bs && m % bs == 0
  {
    WholeBlocks(n, bs);
    n / bs * bs
  }

  lemma NextPiece(bs: nat, content: seq<byte>, data: seq<byte>)
    requires TailOk(bs, content, [])
    ensures Piece(bs, |content|, data[..WholeBytes(|data|, bs)], content + data)
  {
    hide WholeBytes;
    var full := WholeBytes(|data|, bs);
    assert (content + data)[|content|..|content| + full] == data[..full];
  }

  lemma AppendDone(blocks: map<nat, Content>, flat: seq<nat>, bs: nat, content: seq<byte>, data: seq<byte>)
    requires TailOk(bs, content, []) && StoredTo(blocks, flat, content + data, bs, |content| + WholeBytes(|data|, bs))
    requires |content| + |data| <= |flat| * bs
    ensures TailOk(bs, content + data, data[WholeBytes(|data|, bs)..]) && Received(blocks, flat, content + data, bs)
  {
    hide WholeBytes, Stored;
    var full := WholeBytes(|data|, bs);
    assert (content + data)[|content| + full..] == data[full..];
    BlocksOfSum(|content|, full, bs);
    TailAfter(bs, content + data, |content| + full, data[full..]);
  }

  lemma WholeBlocks(n: nat, bs: nat)
    requires 0 < bs
    ensures n / bs * bs <= n < n / bs * bs + bs && n / bs * bs % bs == 0
  {
    DivModUnique(n / bs, 0, bs);
  }

  /** Make room for a stream of `end` bytes. A refused leaf block leaves the
      data blocks already claimed with the stream. */
  method Grow(fs: Ext4, w: FileWriter, end: nat) returns (r: Result<()>, ghost lost: nat)
    requires StreamOk(fs, w) && w.streaming
    modifies fs, w`extents, w`runs, w`leaf, w`size, w`peak
    ensures Keeps(old(fs.Now()), fs.Now()) && 0 < fs.geo.blockSize
    ensures w.peak <= Max(old(w.peak), CeilDiv(end, fs.geo.blockSize) + 1)
    ensures StreamOk(fs, w) && old(fs.log) <= fs.log && fs.dirs == old(fs.dirs)
    ensures fs.disk.inodes == old(fs.disk.inodes) && fs.disk.blocks == old(fs.disk.blocks)
    ensures fs.disk.ibm == old(fs.disk.ibm)
    ensures old(Alone(fs, w)) ==> Alone(fs, w)
    ensures fs.held == old(fs.held)[w.ino := SeqSet(Flat(w.extents))]
    ensures FlatRuns(old(w.runs)) <= FlatRuns(w.runs) && (r.Ok? ==> end <= |FlatRuns(w.runs)| * fs.geo.blockSize)
    ensures r.Err? ==> r.error != BadInode
    ensures Extended(fs.geo, old(fs.Now()), fs.Now(), old(w.extents), w.extents, lost)
    ensures lost == WastedTo(fs.geo, old(fs.disk), old(fs.groups), old(w.extents), old(w.runs), old(w.leaf), end)
    ensures Judged(fs.geo, old(fs.disk), old(fs.groups), old(w.extents), old(w.runs), old(w.leaf), end, r.Err?)
  {
    hide CrashSafe, SafeHistory, Replay, HeldOk, BlockCount, InodeSide, Saved, Flat, FlatRuns, SeqSet, BooksOk, TailOk,
      Received, Separable, Reserved, Undisturbed, CeilDiv, GeoOk, Crowded, Wasted, PiecesAfter, Short, Keeps, AloneAt,
      Max, Extended;
    KeepsRefl(fs.Now());
    ghost var a := fs.Now();
    GeoSize(fs.geo);
    HeldSame(fs.held, w.ino);
    ghost var h := fs.held;
    var needed := CeilDiv(end, fs.geo.blockSize);
    MaxLeft(w.peak, needed + 1);
    ghost var peak, held := w.peak, |Flat(w.extents)|;
    BooksSize(fs.geo, w.extents, w.runs, w.leaf);
    CeilBounds(end, fs.geo.blockSize);
    var current := |FlatRuns(w.runs)|;
    ghost var es := w.extents;
    lost := 0;
    SupplyReady(fs.geo, fs.disk, fs.groups);
    ExtendedNone(fs.geo, a, es);
    if needed > current {
      var more;
      more, lost := GrowData(fs, w, needed - current);
      MaxMore(peak, w.peak, held + (needed - current), needed + 1);
      if more.Err? {
        return Err(more.error), lost;
      }
      NoWaste(fs.geo, a.disk, a.groups, es, old(w.runs), w.leaf, needed - current);
      if |w.runs| > MAX_INLINE_EXTENTS && w.leaf.None? {
        ghost var mine, b, mid := SeqSet(Flat(w.extents)), fs.Now(), w.peak;
        BooksSize(fs.geo, w.extents, w.runs, w.leaf);
        ghost var most, es1 := |Flat(w.extents)| + 1, w.extents;
        var leaf := GrowLeaf(fs, w);
        ExtendedTrans(fs.geo, a, b, fs.Now(), es, es1, w.extents);
        MaxTwice(peak, mid, w.peak, most, needed + 1);
        KeepsTrans(a, b, fs.Now());
        HeldTwice(h, w.ino, mine, SeqSet(Flat(w.extents)));
        if leaf.Err? {
          return Err(leaf.error), lost;
        }
      }
    } else {
      MulMono(needed, current, fs.geo.blockSize);
    }
    w.size := end;
    r := Ok(());
  }

  /** The extents count each data block and the leaf once. */
  lemma BooksSize(geo: Geo, es: seq<Extent>, runs: seq<Run>, leaf: Option<nat>)
    requires GeoOk(geo) && BooksOk(geo, es, runs, leaf)
    ensures |Flat(es)| == |FlatRuns(runs)| + (if leaf.Some? then 1 else 0)
  {
    hide Flat, FlatRuns, Tiled, GeoOk, MaxRuns;
    SetSize(Flat(es));
    SetSize(FlatRuns(runs) + LeafSeq(leaf));
  }

  lemma {:induction false} SetSize(s: seq<nat>)
    requires NoDup(s)
    ensures |SeqSet(s)| == |s|
  {
    if s != [] {
      var p, x := s[..|s| - 1], s[|s| - 1];
      SetSize(p);
      assert s == p + [x];
      assert SeqSet(s) == SeqSet(p) + {x};
    }
  }

  lemma MaxMore(a: nat, b: nat, n: nat, m: nat)
    requires b <= Max(a, n) && n <= m
    ensures b <= Max(a, m)
  {
  }

  lemma MaxTwice(a: nat, b: nat, c: nat, n: nat, m: nat)
    requires b <= Max(a, m) && c <= Max(b, n) && n <= m
    ensures c <= Max(a, m)
  {
  }

  lemma MaxLeft(a: nat, b: nat)
    ensures a <= Max(a, b)
  {
  }

  lemma HeldTwice(h: map<nat, set<nat>>, i: nat, x: set<nat>, y: set<nat>)
    ensures h[i := x][i := y] == h[i := y]
  {
  }

  /** `write_chunk`: append `data` to the stream. */
  method WriteChunk(fs: Ext4, w: FileWriter, data: seq<byte>) returns (r: Result<()>)
    requires StreamOk(fs, w)
    modifies fs, w
    ensures Keeps(old(fs.Now()), fs.Now()) && 0 < fs.geo.blockSize
    ensures PeakOk(w.streaming, old(w.peak), w.peak, fs.geo.blockSize, old(w.written) + |data|)
    ensures StreamOk(fs, w) && old(fs.log) <= fs.log && fs.dirs == old(fs.dirs)
    ensures w.content == if r.Ok? then old(w.content) + data else old(w.content)
    ensures r.Err? ==> w.tail == old(w.tail) && w.written == old(w.written) && r.error != BadInode
    ensures !w.streaming ==>
      w.size == old(w.size) && w.extents == old(w.extents) && w.runs == old(w.runs) && w.leaf == old(w.leaf)
    ensures SameOutside(old(fs.disk.blocks), fs.disk.blocks, Flat(w.extents))
    ensures FlatRuns(old(w.runs)) <= FlatRuns(w.runs)
    ensures fs.held == old(fs.held)[w.ino := SeqSet(Flat(w.extents))]
    ensures HeldKept(old(fs.held) - {w.ino}, old(fs.disk.blocks), fs.disk.blocks)
    ensures fs.disk.inodes == old(fs.disk.inodes) && fs.disk.ibm == old(fs.disk.ibm)
    ensures Undisturbed(fs.geo, old(fs.disk), fs.disk)
    ensures old(Alone(fs, w)) ==> Alone(fs, w)
    ensures r.Err? <==> ChunkRefused(fs.geo, old(fs.disk), old(fs.groups), old(Snap(w)), |data|)
    ensures
      var lost := ChunkWaste(fs.geo, old(fs.disk), old(fs.groups), old(Snap(w)), |data|);
      Extended(fs.geo, old(fs.Now()), fs.Now(), old(w.extents), w.extents, lost)
  {
    hide CrashSafe, SafeHistory, Replay, HeldOk, BlockCount, InodeSide, Saved, Flat, FlatRuns, SeqSet, BooksOk, TailOk,
      Received, Separable, Reserved, Undisturbed, GeoOk, SameOutside, HeldKept, Cramped, WastedTo, Keeps, AloneAt,
      CeilDiv, Max, Extended;
    GeoSize(fs.geo);
    MaxLeft(w.peak, CeilDiv(w.written + |data|, fs.geo.blockSize) + 1);
    KeepsRefl(fs.Now());
    ghost var a := fs.Now();
    ghost var d0, c0, h := fs.disk, w.content, fs.held;
    HeldKeptRefl(h - {w.ino}, d0.blocks);
    UndisturbedRefl(fs.geo, d0);
    HeldSame(fs.held, w.ino);
    var end := w.written + |data|;
    ghost var es, lost := w.extents, 0;
    OutsideRefl(d0.blocks, Flat(es));
    SupplyReady(fs.geo, d0, fs.groups);
    ExtendedNone(fs.geo, a, es);
    if end >= U64_LIMIT {
      return Err(OutOfBounds);
    }
    if w.streaming {
      var room;
      room, lost := Grow(fs, w, end);
      OutsideRefl(d0.blocks, Flat(w.extents));
      UndisturbedIf(fs.geo, d0, d0, fs.disk);
      if room.Err? {
        return Err(room.error);
      }
    } else if end > w.size {
      return Err(OutOfBounds);
    } else {
      MulBound(end, w.size, |FlatRuns(w.runs)|, fs.geo.blockSize);
    }
    ghost var d1, flat, b := fs.disk, FlatRuns(w.runs), fs.Now();
    LayoutOf(fs, w);
    OutsideRefl(fs.disk.blocks, flat);
    var input := data;
    if w.tail != [] {
      var take := FillTail(fs, w, input);
      input := data[take..];
      assert data[..take] + data[take..] == data;
      Assoc(c0, data[..take], data[take..]);
    }
    ghost var d2 := fs.disk;
    if w.tail == [] {
      AppendBlocks(fs, w, input);
      OutsideTrans(d1.blocks, d2.blocks, fs.disk.blocks, flat);
    } else {
      assert input == [];
    }
    KeepsWrote(a, b, fs.Now());
    ExtendedWrote(fs.geo, a, b, fs.Now(), es, w.extents, lost);
    OutsideBooks(fs.geo, d0.blocks, fs.disk.blocks, w.extents, w.runs, w.leaf);
    StreamUndisturbed(fs.geo, d0, d1, fs.disk, fs.groups, fs.held, w.ino, flat);
    OthersKept(fs.geo, fs.disk, fs.groups, h, fs.held, w.ino, d0.blocks, flat);
    r := Ok(());
  }

  /** An open stream. */
  datatype Snapshot = Snapshot(ino: nat, streaming: bool, extents: seq<Extent>, runs: seq<Run>, size: nat, written: nat,
                               leaf: Option<nat>, tail: seq<byte>, content: seq<byte>)

  ghost function Snap(w: FileWriter): Snapshot
    reads w
  {
    Snapshot(w.ino, w.streaming, w.extents, w.runs, w.size, w.written, w.leaf, w.tail, w.content)
  }

  /** When `n` more bytes are refused: too long for a file, longer than
      announced, or no room to grow. */
  ghost predicate ChunkRefused(geo: Geo, d: Disk, groups: seq<GroupDesc>, s: Snapshot, n: nat)
    requires GeoOk(geo)
  {
    || s.written + n >= U64_LIMIT
    || (if s.streaming then Judged(geo, d, groups, s.extents, s.runs, s.leaf, s.written + n, true)
        else s.written + n > s.size)
  }

  ghost function ChunkWaste(geo: Geo, d: Disk, groups: seq<GroupDesc>, s: Snapshot, n: nat): nat
    requires GeoOk(geo)
  {
    if s.written + n < U64_LIMIT && s.streaming then WastedTo(geo, d, groups, s.extents, s.runs, s.leaf, s.written + n)
    else 0
  }

  /** A stream of `end` bytes has needed no more than their blocks and a leaf. */
  predicate PeakOk(streaming: bool, before: nat, peak: nat, bs: nat, end: nat) {
    if streaming then 0 < bs && peak <= Max(before, CeilDiv(end, bs) + 1) else peak == before
  }

  lemma KeepsDrift(a: State, b: State)
    requires Keeps(a, b)
    ensures b.drift == a.drift
  {
  }

  lemma KeepsWrote(a: State, b: State, c: State)
    requires Keeps(a, b) && c == b.(disk := c.disk) && c.disk.freeInodes == b.disk.freeInodes
    ensures Keeps(a, c)
  {
  }

  lemma MulBound(a: nat, b: nat, m: nat, bs: nat)
    requires a <= b && b <= m * bs
    ensures a <= m * bs
  {
  }

  lemma UndisturbedRefl(geo: Geo, d: Disk)
    requires GeoOk(geo)
    ensures Undisturbed(geo, d, d)
  {
    hide GeoOk, NamedBy, EntriesOf;
  }

  lemma StreamUndisturbed(geo: Geo, d0: Disk, d1: Disk, d2: Disk, groups: seq<GroupDesc>, held: map<nat, set<nat>>,
      i: nat, s: seq<nat>)
    requires GeoOk(geo) && Undisturbed(geo, d0, d1) && d1.ibm == d0.ibm && d1.inodes == d0.inodes
    requires HeldOk(geo, d2, groups, held) && i in held && (forall b :: b in s ==> b in held[i])
    requires d2 == d1.(blocks := d2.blocks) && SameOutside(d1.blocks, d2.blocks, s)
    ensures Undisturbed(geo, d0, d2)
  {
    hide GeoOk, HeldOk, Undisturbed, Intact, SameOutside, IUsed;
    OutsideSym(d1.blocks, d2.blocks, s);
    HeldWriteIntact(geo, d2, groups, held, i, d1.blocks, s);
    forall j | InUse(geo, d1, j) ensures Intact(d1.blocks, d2.blocks, d1.inodes[j]) {
      assert InUse(geo, d2, j);
      IntactSym(d2.blocks, d1.blocks, d1.inodes[j]);
    }
    UndisturbedTrans(geo, d0, d1, d2);
  }

  /** Writing its own blocks, a stream leaves those of the others alone. */
  lemma OthersKept(geo: Geo, d: Disk, groups: seq<GroupDesc>, h: map<nat, set<nat>>, held: map<nat, set<nat>>, i: nat,
      x: map<nat, Content>, s: seq<nat>)
    requires GeoOk(geo) && HeldOk(geo, d, groups, held) && i in held && held == h[i := held[i]]
    requires (forall b :: b in s ==> b in held[i]) && SameOutside(x, d.blocks, s)
    ensures HeldKept(h - {i}, x, d.blocks)
  {
    hide GeoOk, HeldIno, BUsed, Free;
    forall j, b | j in h - {i} && b in (h - {i})[j]
      ensures (b in x <==> b in d.blocks) && (b in x ==> x[b] == d.blocks[b])
    {
      assert j != i && j in held && held[j] == h[j];
      assert b !in s;
    }
  }

  lemma OutsideSym(x: map<nat, Content>, y: map<nat, Content>, s: seq<nat>)
    requires SameOutside(x, y, s)
    ensures SameOutside(y, x, s)
  {
  }

  lemma IntactSym(x: map<nat, Content>, y: map<nat, Content>, r: Record)
    requires Intact(x, y, r)
    ensures Intact(y, x, r)
  {
    hide NamedBy, EntriesOf;
  }

  // ----- beginning -----

  /** `begin_file`: reserve everything a file of `size` bytes needs. */
  method BeginFile(fs: Ext4, size: nat) returns (r: Result<FileWriter>, ghost nb: nat, ghost ni: nat)
    requires fs.Valid()
    modifies fs
    ensures fs.Valid() && old(fs.log) <= fs.log && fs.dirs == old(fs.dirs)
    ensures r.Ok? ==>
      fresh(r.value) && StreamOk(fs, r.value) && Alone(fs, r.value) && !r.value.streaming && r.value.size == size
    ensures r.Ok? ==> r.value.content == [] && r.value.began == old(fs.Now()) && Keeps(old(fs.Now()), fs.Now())
    ensures r.Ok? ==>
      && r.value.peak == nb == |Flat(r.value.extents)| && ni == 1
      && (r.value.leaf.None? ==> |r.value.runs| <= MAX_INLINE_EXTENTS)
    ensures r.Ok? ==>
      r.value.ino !in old(fs.held) && fs.held == old(fs.held)[r.value.ino := SeqSet(Flat(r.value.extents))]
    ensures fs.disk.blocks == old(fs.disk.blocks)
    ensures r == Err(BadInode) <==> Overrun(fs.geo, old(fs.disk), old(fs.groups))
    ensures r.Err? ==> Refusal(fs.geo, old(fs.Now()), fs.Now(), r.error, false, nb, ni)
    ensures 0 < fs.geo.blockSize
    ensures r != Err(BadInode) ==> Tally(fs.geo, old(fs.disk), old(fs.groups), CeilDiv(size, fs.geo.blockSize), nb, ni)
    ensures r.Err? ==> fs.held == old(fs.held)
    ensures r.Err? <==> Unplaceable(fs.geo, old(fs.disk), old(fs.groups), CeilDiv(size, fs.geo.blockSize))
  {
    hide NoInode, Short, Unplaceable, Overrun, Refusal, Tally, Keeps, AloneAt, Began;
    hide CrashSafe, SafeHistory, Replay, GeoOk, HeldOk, BlockCount, InodeSide, Saved, Restored, Reserved, ReservationOk,
      Flat, FlatRuns, NoFlush, SeqSet, Undisturbed, CeilDiv, BooksOk, TailOk, Received, Separable;
    ghost var d, g, a := fs.disk, fs.groups, fs.Now();
    fs.BeganNow();
    GeoSize(fs.geo);
    var got;
    ghost var steps;
    got, steps, nb, ni := fs.Reserve(CeilDiv(size, fs.geo.blockSize));
    if got.Err? {
      return Err(got.error), nb, ni;
    }
    var v := got.value;
    CeilBounds(size, fs.geo.blockSize);
    ReservedBooks(fs.geo, v);
    NothingReceived(fs.disk.blocks, FlatRuns(v.runs), fs.geo.blockSize);
    AloneStart(fs.geo, a, fs.Now(), v.ino, v.extents);
    var w := new FileWriter(v.ino, false, v.extents, v.runs, v.leaf, size, a);
    r := Ok(w);
  }

  lemma ReservedBooks(geo: Geo, v: Reservation)
    requires GeoOk(geo) && ReservationOk(geo, v)
    ensures BooksOk(geo, v.extents, v.runs, v.leaf) && (v.leaf.None? ==> |v.runs| <= MAX_INLINE_EXTENTS)
  {
  }

  lemma NothingReceived(blocks: map<nat, Content>, flat: seq<nat>, bs: nat)
    requires 0 < bs
    ensures TailOk(bs, [], []) && Received(blocks, flat, [], bs)
  {
    DivModUnique(0, 0, bs);
  }

  /** `begin_file_streaming`: claim an inode and nothing else. */
  method BeginStreaming(fs: Ext4) returns (r: Result<FileWriter>, ghost ni: nat)
    requires fs.Valid()
    modifies fs
    ensures fs.Valid() && old(fs.log) <= fs.log && fs.dirs == old(fs.dirs)
    ensures r.Ok? ==> fresh(r.value) && StreamOk(fs, r.value) && Alone(fs, r.value) && r.value.streaming
    ensures r.Ok? ==> r.value.content == [] && r.value.began == old(fs.Now()) && Keeps(old(fs.Now()), fs.Now())
    ensures r.Ok? ==> r.value.peak == 0 && r.value.extents == [] && ni == 1
    ensures r.Ok? ==> r.value.ino !in old(fs.held) && fs.held == old(fs.held)[r.value.ino := {}]
    ensures fs.disk.blocks == old(fs.disk.blocks)
    ensures r == Err(BadInode) <==> Overrun(fs.geo, old(fs.disk), old(fs.groups))
    ensures r.Err? ==> ni == 0 && Refusal(fs.geo, old(fs.Now()), fs.Now(), r.error, false, 0, ni)
    ensures r.Err? ==> fs.held == old(fs.held)
    ensures r.Err? <==> NoInode(fs.geo, old(fs.disk), old(fs.groups)) || Overrun(fs.geo, old(fs.disk), old(fs.groups))
  {
    hide NoInode, Overrun, Offered, Refusal, BackTo, ChargedTo, Keeps, AloneAt, Began;
    hide CrashSafe, SafeHistory, Replay, GeoOk, HeldOk, BlockCount, InodeSide, Saved, Restored, Reserved, Flat,
      FlatRuns, SameBlockSide, NoFlush, SeqSet, Undisturbed, BooksOk, TailOk, Received, Separable, Candidate, ShapedI,
      SetIno, ClaimGroups, IUsed, InUse, InoGroup, InoBit;
    ghost var d, g, a := fs.disk, fs.groups, fs.Now();
    fs.BeganNow();
    BackSame(fs.geo, a);
    var got, steps := fs.AllocInode(false);
    OfferMeans(fs.geo, d, g);
    ni := 0;
    if got.Err? {
      if got.error == NoFreeInodes {
        RefusalBack(fs.geo, a, fs.Now(), NoFreeInodes, false, 0, 0);
      } else {
        RefusalCharged(fs.geo, a, fs.Now(), false, 0, 0);
      }
      return Err(got.error), ni;
    }
    ni := 1;
    var i := got.value;
    GeoSize(fs.geo);
    NoBooks(fs.geo);
    NothingReceived(fs.disk.blocks, [], fs.geo.blockSize);
    OutsideRefl(fs.disk.blocks, []);
    NewNotDir(fs.geo, d, old(fs.dirs), g, a.drift, i);
    ReservedStart(fs.geo, d, g, fs.disk, fs.groups, i, false);
    AloneStart(fs.geo, a, fs.Now(), i, []);
    var w := new FileWriter(i, true, [], [], None, 0, a);
    r := Ok(w);
  }

  lemma NoBooks(geo: Geo)
    requires GeoOk(geo)
    ensures BooksOk(geo, [], [], None) && Separable([], [], None) && FlatRuns([]) == Flat([]) == [] && SeqSet([]) == {}
  {
  }

  // ----- finishing -----

  /** What an abandoned stream must still own. */
  ghost predicate Holding(fs: Ext4, w: FileWriter)
    reads fs, w
  {
    fs.Valid() && w.ino !in fs.dirs && fs.Owns(w.ino, Flat(w.extents))
  }

  lemma StreamHolding(fs: Ext4, w: FileWriter)
    requires fs.Valid() && w.ino in fs.held && w.ino !in fs.dirs && fs.held[w.ino] == SeqSet(Flat(w.extents))
    requires BooksOk(fs.geo, w.extents, w.runs, w.leaf)
    ensures Holding(fs, w)
  {
    hide CrashSafe, SafeHistory, Replay, HeldOk, BlockCount, InodeSide, Saved, Flat, FlatRuns, Tiled, NoDup, fs.Owns,
      GeoOk, MaxRuns;
    fs.HeldOwns(w.ino, Flat(w.extents));
  }

  /** Every file and directory but `i`, which is not one any more, is as it was,
      and there is no new one. */
  ghost predicate Unharmed(geo: Geo, d: Disk, d': Disk, i: nat)
    requires GeoOk(geo)
  {
    && (forall j :: InUse(geo, d', j) <==> InUse(geo, d, j) && j != i)
    && (forall j :: InUse(geo, d, j) && j != i ==> Same(geo, d, d', j))
  }

  /** Inode `i` and the blocks `s` were given back, and nothing else changed but
      what the blocks hold. */
  ghost predicate Returned(geo: Geo, a: State, b: State, i: nat, s: seq<nat>)
    requires GeoOk(geo)
  {
    && Keeps(a, b) && 0 < i && InoGroup(geo, i) < |a.groups| && InoGroup(geo, i) < |a.disk.ibm|
    && InoBit(geo, i) < |a.disk.ibm[InoGroup(geo, i)]|
    && b.disk.inodes == a.disk.inodes[i := Blank] && b.disk.ibm == SetIno(geo, a.disk.ibm, i, false)
    && Cleared(geo, a.disk.bbm, b.disk.bbm, s) && SameOutside(a.disk.blocks, b.disk.blocks, s)
    && SameInodeSide(b.groups, ReleaseGroups(geo, a.groups, i, false))
    && b.freeBlocks == a.freeBlocks + |s| && b.freeInodes == a.freeInodes + 1
    && Unharmed(geo, a.disk, b.disk, i)
  }

  lemma UnharmedBy(geo: Geo, d: Disk, d': Disk, i: nat)
    requires GeoOk(geo) && CrashSafe(geo, d) && 0 < i && InoGroup(geo, i) < |d.ibm|
    requires InoBit(geo, i) < |d.ibm[InoGroup(geo, i)]|
    requires d'.inodes == d.inodes[i := Blank] && d'.ibm == SetIno(geo, d.ibm, i, false) && d'.blocks == d.blocks
    ensures Unharmed(geo, d, d', i)
  {
    hide GeoOk, CrashSafe, InoGroup, InoBit, SetIno, IUsed, NamedBy, EntriesOf, Free;
    CrashShape(geo, d, i);
    SlotInUse(geo, d, d', i, false);
  }

  /** Writing its own blocks and its record first makes no difference. */
  lemma ReturnedAfter(geo: Geo, a: State, b: State, c: State, i: nat, s: seq<nat>, rec: Record)
    requires GeoOk(geo) && b == a.(disk := b.disk) && b.disk.ibm == a.disk.ibm && b.disk.bbm == a.disk.bbm
    requires Keeps(a, b)
    requires b.disk.inodes == a.disk.inodes || b.disk.inodes == a.disk.inodes[i := rec]
    requires SameOutside(a.disk.blocks, b.disk.blocks, s) && Undisturbed(geo, a.disk, b.disk) && !InUse(geo, a.disk, i)
    requires Returned(geo, b, c, i, s)
    ensures Returned(geo, a, c, i, s)
  {
    hide GeoOk, IUsed, Intact, Cleared, SameInodeSide, ReleaseGroups, SetIno, InoGroup, InoBit, SameOutside, Keeps;
    KeepsTrans(a, b, c);
    OutsideTrans(a.disk.blocks, b.disk.blocks, c.disk.blocks, s);
    assert b.disk.inodes[i := Blank] == a.disk.inodes[i := Blank];
    forall j | InUse(geo, a.disk, j) ensures j != i && Same(geo, a.disk, c.disk, j) {
      assert Same(geo, b.disk, c.disk, j);
      IntactTrans(a.disk.blocks, b.disk.blocks, c.disk.blocks, a.disk.inodes[j]);
    }
  }

  /** `abandon_file`: give everything back. */
  method AbandonFile(fs: Ext4, w: FileWriter)
    requires Holding(fs, w)
    modifies fs
    ensures fs.Valid() && old(fs.log) <= fs.log && fs.held == old(fs.held) - {w.ino} && fs.dirs == old(fs.dirs)
    ensures fs.disk.blocks == old(fs.disk.blocks) && fs.disk.inodes == old(fs.disk.inodes)[w.ino := Blank]
    ensures Cleared(fs.geo, old(fs.disk.bbm), fs.disk.bbm, Flat(w.extents)) && !IUsed(fs.geo, fs.disk.ibm, w.ino)
    ensures fs.freeBlocks == old(fs.freeBlocks) + |Flat(w.extents)| && fs.freeInodes == old(fs.freeInodes) + 1
    ensures Keeps(old(fs.Now()), fs.Now()) && Returned(fs.geo, old(fs.Now()), fs.Now(), w.ino, Flat(w.extents))
    ensures old(Alone(fs, w)) ==> BackTo(fs.geo, w.began, fs.Now(), w.peak, 1)
  {
    hide CrashSafe, SafeHistory, Replay, GeoOk, HeldOk, BlockCount, InodeSide, Saved, Flat, Restored, Reserved,
      Undisturbed, SameInodeSide, ReleaseGroups, SetIno, InoGroup, InoBit, Cleared, fs.Owns, IUsed, Keeps, Even, Began,
      BackTo, AloneAt, SameOutside, Unharmed;
    ghost var b := fs.Now();
    ghost var d, g := fs.disk, fs.groups;
    OwnsPlace(fs, w.ino, Flat(w.extents));
    fs.UndoNew(w.ino, w.extents, false);
    ClearedIno(fs.geo, d, fs.disk.ibm, w.ino);
    UnharmedBy(fs.geo, d, fs.disk, w.ino);
    OutsideRefl(d.blocks, Flat(w.extents));
    NotDirs(fs.dirs, old(fs.dirs), w.ino);
    if old(Alone(fs, w)) {
      AloneParts(fs.geo, w.began, b, w.ino, w.extents, w.peak);
      KeepsTrans(w.began, b, fs.Now());
      MediumBack(fs, w.began);
      KeepsDrift(b, fs.Now());
      UndoRestores(fs.geo, fs.drift, w.began.disk, w.began.groups, d, g, fs.disk, fs.groups, w.ino, false,
        Flat(w.extents));
      EvenBack(fs.geo, w.began, b, fs.Now(), |Flat(w.extents)|, w.peak);
    }
  }

  /** A medium that had the counters of the memory has them again. */
  lemma MediumBack(fs: Ext4, a: State)
    requires fs.Valid() && Began(fs.geo, a) && Keeps(a, fs.Now())
    ensures a.disk.gd == a.groups ==> fs.disk.gd == fs.groups
  {
    hide CrashSafe, SafeHistory, Replay, GeoOk, HeldOk, BlockCount, InodeSide, Saved;
    if a.disk.gd == a.groups { SettledMedium(fs.geo, fs.disk, fs.groups, fs.freeBlocks, fs.dirs, fs.drift, fs.owed); }
  }

  lemma NotDirs(x: set<nat>, y: set<nat>, i: nat)
    requires x == y - {i} && i !in y
    ensures x == y
  {
  }

  lemma OwnsPlace(fs: Ext4, i: nat, s: seq<nat>)
    requires fs.Valid() && fs.Owns(i, s)
    ensures 0 < i
  {
  }

  lemma ClearedIno(geo: Geo, d: Disk, ibm': Bitmaps, i: nat)
    requires GeoOk(geo) && CrashSafe(geo, d) && 0 < i && InoGroup(geo, i) < |d.ibm|
    requires InoBit(geo, i) < |d.ibm[InoGroup(geo, i)]|
    requires ibm' == SetIno(geo, d.ibm, i, false)
    ensures !IUsed(geo, ibm', i)
  {
    hide GeoOk, CrashSafe, InoGroup, InoBit, SetIno;
    CrashShape(geo, d, i);
    SetInoUsed(geo, d.ibm, i, false);
  }

  /** The content up to `at` followed by its tail filled up with zeros. */
  function Padded(content: seq<byte>, tail: seq<byte>, bs: nat): seq<byte>
    requires |tail| <= bs && |tail| <= |content|
  {
    content[..|content| - |tail|] + (tail + seq(bs - |tail|, _ => 0))
  }

  lemma PaddedChunk(content: seq<byte>, tail: seq<byte>, bs: nat, l: nat)
    requires TailOk(bs, content, tail)
    ensures Chunk(Padded(content, tail, bs), bs, l) == Chunk(content, bs, l)
  {
    TailFacts(bs, content, tail);
    var p, c := Padded(content, tail, bs), content;
    var at := |c| - |tail|;
    forall j | 0 <= j < bs ensures Chunk(p, bs, l)[j] == Chunk(c, bs, l)[j] {
      var x := l * bs + j;
      if at <= x < |c| {
        assert p[x] == tail[x - at] == c[at..][x - at];
      }
    }
  }

  lemma PaddedStored(blocks: map<nat, Content>, flat: seq<nat>, content: seq<byte>, tail: seq<byte>, bs: nat, n: nat)
    requires TailOk(bs, content, tail)
    ensures StoredTo(blocks, flat, Padded(content, tail, bs), bs, n) == StoredTo(blocks, flat, content, bs, n)
  {
    hide Chunk, Padded;
    forall l: nat ensures Chunk(Padded(content, tail, bs), bs, l) == Chunk(content, bs, l) {
      PaddedChunk(content, tail, bs, l);
    }
  }

  /** The tail has a block of its own to go to. */
  lemma PaddedPiece(blocks: map<nat, Content>, flat: seq<nat>, content: seq<byte>, tail: seq<byte>, bs: nat)
    requires TailOk(bs, content, tail) && Received(blocks, flat, content, bs) && tail != []
    ensures
      var at := |content| - |tail|;
      && Piece(bs, at, tail + seq(bs - |tail|, _ => 0), Padded(content, tail, bs))
      && StoredTo(blocks, flat, Padded(content, tail, bs), bs, at)
      && at + bs <= |flat| * bs && (at + bs) / bs == CeilDiv(|content|, bs)
  {
    hide Stored;
    TailPlace(bs, content, tail);
    var at, q := |content| - |tail|, |content| / bs;
    PaddedStored(blocks, flat, content, tail, bs, at);
    WholeBlock(bs);
    BlocksOfSum(at, bs, bs);
    var p := tail + seq(bs - |tail|, _ => 0);
    assert Padded(content, tail, bs)[at..at + bs] == p;
    if q >= |flat| { MulMono(|flat|, q, bs); assert false; }
    MulMono(q + 1, |flat|, bs);
    assert (q + 1) * bs == at + bs;
    CeilOfTail(|content|, bs);
    DivModUnique(1, 0, bs);
  }

  lemma CeilOfTail(n: nat, bs: nat)
    requires 0 < bs
    ensures CeilDiv(n, bs) == n / bs + (if n % bs == 0 then 0 else 1)
  {
    var q, m := n / bs, n % bs;
    assert n == q * bs + m;
    assert (q + 1) * bs == q * bs + bs;
    if m == 0 { DivModUnique(q, bs - 1, bs); } else { DivModUnique(q + 1, m - 1, bs); }
  }

  /** A record written over stored content reads as that content and names
      exactly the blocks in the books. */
  lemma FinishedRecord(geo: Geo, b1: map<nat, Content>, b2: map<nat, Content>, es: seq<Extent>, runs: seq<Run>,
      leaf: Option<nat>, content: seq<byte>)
    requires GeoOk(geo) && BooksOk(geo, es, runs, leaf)
    requires Stored(b1, FlatRuns(runs), content, geo.blockSize, 0, CeilDiv(|content|, geo.blockSize))
    requires b2 == if leaf.Some? then b1[leaf.value := Leaf(runs)] else b1
    ensures DataOf(b2, FileRecord(runs, leaf, |content|)) == FlatRuns(runs)
    ensures NamedBy(b2, FileRecord(runs, leaf, |content|)) == FlatRuns(runs) + LeafSeq(leaf)
    ensures FileBytes(b2, FlatRuns(runs), geo.blockSize, |content|) == content
  {
    hide BooksOk, GeoOk, FileBytes, Stored, FlatRuns, NoDup, DataOf, NamedBy;
    BooksPublish(geo, es, runs, leaf);
    GeoSize(geo);
    LeafRecord(b2, runs, leaf, |content|);
    StoredOver(b1, b2, runs, leaf, content, geo.blockSize, CeilDiv(|content|, geo.blockSize));
    StoredReads(b2, FlatRuns(runs), content, geo.blockSize);
  }

  /** Store what is still pending, padded with zeros. */
  method StoreTail(fs: Ext4, w: FileWriter) returns (ghost pre: seq<Write>)
    requires StreamOk(fs, w)
    modifies fs`disk, fs`log, w`tail
    ensures fs.Valid() && fs.disk == old(fs.disk).(blocks := fs.disk.blocks) && fs.log == old(fs.log) + pre
    ensures NoFlush(pre)
    ensures w.tail == [] && SameOutside(old(fs.disk.blocks), fs.disk.blocks, FlatRuns(w.runs))
    ensures 0 < fs.geo.blockSize
    ensures
      Stored(fs.disk.blocks, FlatRuns(w.runs), w.content, fs.geo.blockSize, 0, CeilDiv(|w.content|, fs.geo.blockSize))
    ensures old(Alone(fs, w)) ==> Alone(fs, w)
  {
    hide CrashSafe, SafeHistory, Replay, HeldOk, BlockCount, InodeSide, Saved, Flat, FlatRuns, Stored, SameOutside,
      Reserved, Undisturbed, BooksOk, Separable, SeqSet, TailOk, GeoOk, fs.Layout, Piece, Padded, CeilDiv, DataOnly,
      NoFlush;
    ghost var bs, c, flat := fs.geo.blockSize, w.content, FlatRuns(w.runs);
    TailFacts(bs, c, w.tail);
    LayoutOf(fs, w);
    OutsideRefl(fs.disk.blocks, flat);
    pre := [];
    NoWrites();
    if w.tail != [] {
      PaddedPiece(fs.disk.blocks, flat, c, w.tail, bs);
      var padded := w.tail + seq(fs.geo.blockSize - |w.tail|, _ => 0);
      WritePiece(fs, w, w.written - |w.tail|, padded, Padded(c, w.tail, bs));
      PaddedStored(fs.disk.blocks, flat, c, w.tail, bs, |c| - |w.tail| + bs);
      pre :| fs.log == old(fs.log) + pre && DataOnly(pre);
      DataNoFlush(pre);
      w.tail := [];
    } else {
      TailPlace(bs, c, []);
      CeilOfTail(|c|, bs);
    }
  }

  lemma NoWrites()
    ensures NoFlush([])
  {
  }

  /** Store everything a record of this stream would name. */
  method StoreRest(fs: Ext4, w: FileWriter) returns (ghost pre: seq<Write>)
    requires StreamOk(fs, w)
    modifies fs`disk, fs`log, w`tail
    ensures fs.Valid() && fs.disk == old(fs.disk).(blocks := fs.disk.blocks) && fs.log == old(fs.log) + pre
    ensures NoFlush(pre)
    ensures Undisturbed(fs.geo, old(fs.disk), fs.disk) && (old(Alone(fs, w)) ==> Alone(fs, w))
    ensures HeldKept(fs.held - {w.ino}, old(fs.disk.blocks), fs.disk.blocks)
    ensures SameOutside(old(fs.disk.blocks), fs.disk.blocks, Flat(w.extents))
    ensures 0 < fs.geo.blockSize
    ensures
      var rec := FileRecord(w.runs, w.leaf, |w.content|);
      && DataOf(fs.disk.blocks, rec) == FlatRuns(w.runs)
      && NamedBy(fs.disk.blocks, rec) == FlatRuns(w.runs) + LeafSeq(w.leaf)
      && FileBytes(fs.disk.blocks, FlatRuns(w.runs), fs.geo.blockSize, |w.content|) == w.content
      && (w.leaf.Some? ==> w.leaf.value in fs.disk.blocks && fs.disk.blocks[w.leaf.value] == Leaf(w.runs))
  {
    hide CrashSafe, SafeHistory, Replay, GeoOk, HeldOk, BlockCount, InodeSide, Saved, Reserved, Undisturbed, Flat,
      FlatRuns, NoDup, NoFlush, SeqSet, SameOutside, Stored, BooksOk, Separable, TailOk, Received, CeilDiv, NamedBy,
      DataOf, FileBytes, LeafSeq, fs.Layout, HeldKept, AloneAt, Even, Keeps, Began;
    ghost var d0, geo, a := fs.disk, fs.geo, fs.Now();
    UndisturbedRefl(geo, d0);
    LayoutOf(fs, w);
    pre := StoreTail(fs, w);
    ghost var d1 := fs.disk;
    OutsideBooks(geo, d0.blocks, d1.blocks, w.extents, w.runs, w.leaf);
    if w.leaf.Some? {
      LeafInBooks(geo, d0.blocks, d1.blocks, w.extents, w.runs, w.leaf.value);
      ghost var put := WBlock(w.leaf.value, Leaf(w.runs));
      fs.PutBlock(w.leaf.value, Leaf(w.runs), w.ino);
      Assoc(old(fs.log), pre, [put]);
      OneNoFlush(put);
      NoFlushConcat(pre, [put]);
      pre := pre + [put];
    }
    FinishedRecord(geo, d1.blocks, fs.disk.blocks, w.extents, w.runs, w.leaf, w.content);
    InBooks(w.extents);
    StreamUndisturbed(geo, d0, d0, fs.disk, fs.groups, fs.held, w.ino, Flat(w.extents));
    HeldSame(fs.held, w.ino);
    OthersKept(geo, fs.disk, fs.groups, fs.held, fs.held, w.ino, d0.blocks, Flat(w.extents));
    if old(Alone(fs, w)) {
      AloneParts(geo, w.began, a, w.ino, w.extents, w.peak);
      AloneWritten(geo, w.began.disk, w.began.groups, d0, fs.groups, fs.disk, w.ino, Flat(w.extents));
      AloneStep(geo, w.began, a, fs.Now(), w.ino, w.extents, w.peak);
    }
  }

  /** A stream short of its announced size, or without the leaf it needs. */
  predicate Unfinishable(streaming: bool, written: nat, size: nat, leaf: Option<nat>, runs: seq<Run>) {
    (!streaming && written != size) || (leaf.None? && |runs| > MAX_INLINE_EXTENTS)
  }

  /** `finish_unlinked`: write what is pending, the leaf, and after a barrier
      the inode record. */
  method FinishUnlinked(fs: Ext4, w: FileWriter) returns (r: Result<()>, ghost rec: Record, ghost pre: seq<Write>)
    requires StreamOk(fs, w)
    modifies fs, w
    ensures Holding(fs, w) && old(fs.log) <= fs.log && fs.dirs == old(fs.dirs) && w.extents == old(w.extents)
    ensures w.content == old(w.content)
    ensures old(Alone(fs, w)) ==> Alone(fs, w)
    ensures fs.Now() == old(fs.Now()).(disk := fs.disk) && Keeps(old(fs.Now()), fs.Now()) && w.peak == old(w.peak)
    ensures r.Err? <==> Unfinishable(w.streaming, old(w.written), old(w.size), old(w.leaf), old(w.runs))
    ensures SameOutside(old(fs.disk.blocks), fs.disk.blocks, Flat(w.extents))
    ensures r.Err? ==> r.error != BadInode && fs.held == old(fs.held) && fs.disk.inodes == old(fs.disk.inodes)
    ensures fs.disk.ibm == old(fs.disk.ibm) && fs.disk.bbm == old(fs.disk.bbm)
    ensures r.Ok? ==> fs.disk.inodes == old(fs.disk.inodes)[w.ino := rec] && fs.held == old(fs.held) - {w.ino}
    ensures r.Ok? ==>
      InUse(fs.geo, fs.disk, w.ino) && Unnamed(fs.geo, fs.disk, w.ino) && NewFile(fs.geo, fs.disk, rec, w.content)
    ensures r.Ok? ==> ByRuns(fs.disk.blocks, rec) && w.ino < U32_LIMIT
    ensures r.Ok? ==> fs.log == old(fs.log) + pre + [Flush] + [WInode(w.ino, rec)] && NoFlush(pre)
    ensures r.Ok? ==> Replay(fs.base, old(fs.log) + pre + [Flush]).inodes == old(fs.disk.inodes)
    ensures Undisturbed(fs.geo, old(fs.disk), fs.disk)
    ensures HeldKept(old(fs.held) - {w.ino}, old(fs.disk.blocks), fs.disk.blocks)
  {
    hide CrashSafe, SafeHistory, Replay, GeoOk, HeldOk, BlockCount, InodeSide, Saved, Reserved, Undisturbed, Flat,
      FlatRuns, NoDup, NoFlush, SeqSet, SameOutside, Stored, BooksOk, Separable, TailOk, Received, CeilDiv, NamedBy,
      DataOf, Publishable, NewFile, InUse, Unnamed, FileBytes, LeafSeq, fs.Layout, fs.Owns, ByRuns, HeldIno, HeldKept,
      AloneAt, Even, Keeps, Began;
    ghost var d0, geo, h, a := fs.disk, fs.geo, fs.held, fs.Now();
    KeepsRefl(a);
    HeldKeptRefl(h - {w.ino}, d0.blocks);
    OutsideRefl(d0.blocks, Flat(w.extents));
    rec, pre := Blank, [];
    StreamHolding(fs, w);
    UndisturbedRefl(geo, d0);
    if w.streaming {
      w.size := w.written;
    }
    if w.written != w.size {
      return Err(OutOfBounds), rec, pre;
    }
    pre := StoreRest(fs, w);
    ghost var d2, b := fs.disk, fs.Now();
    KeepsWrote(a, a, b);
    fs.FlushDevice();
    if w.leaf.None? && |w.runs| > MAX_INLINE_EXTENTS {
      StreamHolding(fs, w);
      return Err(UnsupportedFsFeature), rec, pre;
    }
    rec := FileRecord(w.runs, w.leaf, w.size);
    BooksPublish(geo, w.extents, w.runs, w.leaf);
    HeldPublishable(geo, d2, fs.groups, fs.held, w.ino, rec);
    ghost var h1 := fs.held;
    HeldFacts(geo, d2, fs.groups, fs.held, w.ino);
    fs.PutRecord(w.ino, FileRecord(w.runs, w.leaf, w.size));
    KeepsWrote(a, b, fs.Now());
    Published(geo, fs.disk, rec, w.content, w.runs);
    PublishedRuns(geo, fs.disk.blocks, w.extents, w.runs, w.leaf, w.size);
    HeldSmall(geo, d2, fs.groups, w.ino);
    PublishedHolding(fs, w, d2, h1);
    UndisturbedPublished(geo, d0, d2, fs.disk, w.ino, rec);
    if old(Alone(fs, w)) {
      AloneParts(geo, w.began, b, w.ino, w.extents, w.peak);
      ReservedKept(geo, w.began.disk, w.began.groups, d2, fs.groups, fs.disk, w.ino, false, rec, Flat(w.extents));
      AlonePublished(geo, w.began.disk, w.began.groups, d2, fs.groups, fs.disk, w.ino, Flat(w.extents), rec);
      AloneStep(geo, w.began, b, fs.Now(), w.ino, w.extents, w.peak);
    }
    r := Ok(());
  }

  lemma OutsideBooks(geo: Geo, x: map<nat, Content>, y: map<nat, Content>, es: seq<Extent>, runs: seq<Run>,
      leaf: Option<nat>)
    requires GeoOk(geo) && BooksOk(geo, es, runs, leaf) && SameOutside(x, y, FlatRuns(runs))
    ensures SameOutside(x, y, Flat(es))
  {
    hide Flat, FlatRuns, Tiled, NoDup, GeoOk;
    var a := FlatRuns(runs) + LeafSeq(leaf);
    assert forall b :: b in FlatRuns(runs) ==> b in SeqSet(a);
    assert forall b :: b in SeqSet(Flat(es)) ==> b in Flat(es);
  }

  lemma LeafInBooks(geo: Geo, x: map<nat, Content>, y: map<nat, Content>, es: seq<Extent>, runs: seq<Run>, l: nat)
    requires GeoOk(geo) && BooksOk(geo, es, runs, Some(l)) && SameOutside(x, y, Flat(es))
    ensures l in SeqSet(Flat(es)) && SameOutside(x, y[l := Leaf(runs)], Flat(es))
  {
    hide Flat, FlatRuns, Tiled, NoDup, GeoOk;
    assert l in SeqSet(FlatRuns(runs) + LeafSeq(Some(l)));
    assert forall b :: b in SeqSet(Flat(es)) ==> b in Flat(es);
  }

  lemma InBooks(es: seq<Extent>)
    ensures forall b :: b in Flat(es) <==> b in SeqSet(Flat(es))
  {
  }

  lemma BooksPublish(geo: Geo, es: seq<Extent>, runs: seq<Run>, leaf: Option<nat>)
    requires GeoOk(geo) && BooksOk(geo, es, runs, leaf)
    ensures NoDup(FlatRuns(runs) + LeafSeq(leaf)) && SeqSet(Flat(es)) == SeqSet(FlatRuns(runs) + LeafSeq(leaf))
    ensures NoDup(Flat(es))
  {
  }

  lemma AloneWritten(geo: Geo, d0: Disk, g0: seq<GroupDesc>, d: Disk, g: seq<GroupDesc>, d': Disk, i: nat, s: seq<nat>)
    requires GeoOk(geo) && CrashSafe(geo, d0) && Reserved(geo, d0, g0, d, g, i, false, s) && Undisturbed(geo, d0, d)
    requires d' == d.(blocks := d'.blocks) && Undisturbed(geo, d, d')
    ensures Reserved(geo, d0, g0, d', g, i, false, s) && Undisturbed(geo, d0, d')
  {
    hide GeoOk, CrashSafe, Reserved, Intact, IUsed;
    ReservedSame(geo, d0, g0, d, g, d', i, false, s);
    AllSurvive(geo, d0, g0, d, g, i, false, s);
    UndisturbedTrans(geo, d0, d, d');
  }

  lemma Published(geo: Geo, d: Disk, rec: Record, content: seq<byte>, runs: seq<Run>)
    requires GeoOk(geo) && rec.Inode? && rec.kind == File && rec.links == 1 && rec.size == |content|
    requires DataOf(d.blocks, rec) == FlatRuns(runs)
    requires FileBytes(d.blocks, FlatRuns(runs), geo.blockSize, |content|) == content
    requires forall b :: b in NamedBy(d.blocks, rec) ==> BUsed(geo, d.bbm, b)
    ensures NewFile(geo, d, rec, content)
  {
  }

  lemma PublishedHolding(fs: Ext4, w: FileWriter, d: Disk, h: map<nat, set<nat>>)
    requires fs.Valid() && w.ino !in fs.dirs && InUse(fs.geo, fs.disk, w.ino) && Unnamed(fs.geo, fs.disk, w.ino)
    requires NoDup(Flat(w.extents))
    requires SeqSet(NamedBy(fs.disk.blocks, fs.disk.inodes[w.ino])) == SeqSet(Flat(w.extents))
    requires HeldIno(fs.geo, d, fs.groups, w.ino)
    ensures Holding(fs, w)
  {
    hide CrashSafe, SafeHistory, Replay, GeoOk, HeldOk, BlockCount, InodeSide, Saved, NoDup, Unnamed, NamedBy, Flat;
    var s, t := NamedBy(fs.disk.blocks, fs.disk.inodes[w.ino]), Flat(w.extents);
    assert forall b :: b in t ==> b in SeqSet(t);
    assert forall b :: b in SeqSet(s) ==> b in s;
  }

  lemma UndisturbedPublished(geo: Geo, d0: Disk, d: Disk, d': Disk, i: nat, rec: Record)
    requires GeoOk(geo) && Undisturbed(geo, d0, d) && !InUse(geo, d, i) && d0.ibm == d.ibm && d0.inodes == d.inodes
    requires d' == d.(inodes := d.inodes[i := rec])
    ensures Undisturbed(geo, d0, d')
  {
    hide GeoOk, Intact, IUsed;
  }

  lemma AlonePublished(geo: Geo, d0: Disk, g0: seq<GroupDesc>, d: Disk, g: seq<GroupDesc>, d': Disk, i: nat,
      s: seq<nat>, rec: Record)
    requires GeoOk(geo) && Reserved(geo, d0, g0, d, g, i, false, s) && Undisturbed(geo, d0, d)
    requires d' == d.(inodes := d.inodes[i := rec])
    ensures Undisturbed(geo, d0, d')
  {
    hide GeoOk, Intact, SetIno, InoGroup, InoBit, Marked, AllFree, SameInodeSide, ClaimGroups, IUsed;
  }

  /** The runs an inode record leads to. */
  function RunsOf(blocks: map<nat, Content>, rec: Record): seq<Run> {
    if rec.Blank? then []
    else match rec.tree
      case Inline(runs) => runs
      case Indexed(leaves) => LeafRuns(blocks, leaves)
      case _ => []
  }

  /** The record's extent tree is one node of runs, or one leaf block of them. */
  ghost predicate ByRuns(blocks: map<nat, Content>, rec: Record) {
    && rec.Inode? && Tiled(RunsOf(blocks, rec))
    && (rec.tree.Inline? || (rec.tree.Indexed? && |rec.tree.leaves| == 1 && RunsOf(blocks, rec) != []))
  }

  lemma PublishedRuns(geo: Geo, blocks: map<nat, Content>, es: seq<Extent>, runs: seq<Run>, leaf: Option<nat>,
      size: nat)
    requires GeoOk(geo) && BooksOk(geo, es, runs, leaf)
    requires leaf.Some? ==> leaf.value in blocks && blocks[leaf.value] == Leaf(runs)
    ensures ByRuns(blocks, FileRecord(runs, leaf, size))
  {
    hide Tiled;
    if leaf.Some? {
      var l := leaf.value;
      assert [l][..0] == [];
      assert LeafRuns(blocks, [l]) == LeafRuns(blocks, []) + runs == runs;
    }
  }

  lemma HeldSmall(geo: Geo, d: Disk, groups: seq<GroupDesc>, i: nat)
    requires GeoOk(geo) && HeldIno(geo, d, groups, i)
    ensures i < U32_LIMIT
  {
  }

  /** The writes of a successful `finish_file`: what was pending, a barrier,
      the record, and with no barrier in between the name. */
  ghost predicate FinishTrace(log0: seq<Write>, log1: seq<Write>, pre: seq<Write>, i: nat, rec: Record) {
    && NoFlush(pre) && |log1| == |log0| + |pre| + 3
    && log1[..|log1| - 1] == log0 + pre + [Flush] + [WInode(i, rec)]
    && log1[|log1| - 1].WBlock?
  }

  lemma RecordedThen(fs: Ext4, log0: seq<Write>, pre: seq<Write>, i: nat, rec: Record, data: seq<byte>, d0: Disk)
    requires fs.History() && fs.log == log0 + pre + [Flush] + [WInode(i, rec)]
    requires NewFile(fs.geo, fs.disk, rec, data) && InUse(fs.geo, fs.disk, i) && fs.disk.inodes[i] == rec
    requires Replay(fs.base, log0 + pre + [Flush]).inodes == d0.inodes && !InUse(fs.geo, d0, i) && fs.disk.ibm == d0.ibm
    ensures fs.Recorded(log0, pre, i, rec, data) && !InUse(fs.geo, Replay(fs.base, log0 + pre + [Flush]), i)
  {
    hide CrashSafe, SafeHistory, GeoOk, NewFile, IUsed;
    assert fs.log[..|fs.log| - 1] == log0 + pre + [Flush];
  }

  /** `finish_file`: publish the stream under a name, or give it all back. */
  method FinishFile(fs: Ext4, w: FileWriter, dir: nat, name: Name, fileType: byte)
    returns (r: Result<nat>, ghost rec: Record, ghost pre: seq<Write>)
    requires StreamOk(fs, w) && InUse(fs.geo, fs.disk, dir)
    modifies fs, w
    ensures fs.Valid() && old(fs.log) <= fs.log && fs.dirs == old(fs.dirs) && fs.held == old(fs.held) - {w.ino}
    ensures w.content == old(w.content)
    ensures r.Ok? ==> r.value == w.ino && InUse(fs.geo, fs.disk, w.ino) && fs.disk.inodes[w.ino] == rec
    ensures r.Ok? ==> NewFile(fs.geo, fs.disk, rec, w.content) && ByRuns(fs.disk.blocks, rec)
    ensures r.Ok? ==>
      HasEntry(fs.geo, fs.disk, dir, Entry(w.ino, name, fileType)) && FinishTrace(old(fs.log), fs.log, pre, w.ino, rec)
    ensures r.Ok? ==>
      && fs.Recorded(old(fs.log), pre, w.ino, rec, w.content)
      && !InUse(fs.geo, Replay(fs.base, old(fs.log) + pre + [Flush]), w.ino)
    ensures Keeps(old(fs.Now()), fs.Now()) && w.peak == old(w.peak)
    ensures r.Err? ==> Returned(fs.geo, old(fs.Now()), fs.Now(), w.ino, Flat(old(w.extents)))
    ensures r.Err? && old(Alone(fs, w)) ==> BackTo(fs.geo, w.began, fs.Now(), w.peak, 1)
    ensures r.Err? ==> r.error != BadInode
    ensures r.Ok? ==>
      fs.Now() == old(fs.Now()).(disk := fs.disk) && fs.disk.bbm == old(fs.disk.bbm) && fs.disk.ibm == old(fs.disk.ibm)
    ensures r.Ok? ==> Added(fs.geo, old(fs.disk), fs.disk, dir, Entry(w.ino, name, fileType))
    ensures HeldKept(fs.held, old(fs.disk.blocks), fs.disk.blocks)
    ensures r.Err? <==>
      || LinkRefused(fs.geo, old(fs.disk), dir, name)
      || Unfinishable(w.streaming, old(w.written), old(w.size), old(w.leaf), old(w.runs))
  {
    hide CrashSafe, SafeHistory, Replay, GeoOk, HeldOk, BlockCount, InodeSide, Saved, Restored, Reserved, Undisturbed,
      Flat, NoFlush, SeqSet, BooksOk, Separable, TailOk, Received, NewFile, Unnamed, ByRuns, HasEntry, NameOk, Single,
      fs.Linked, fs.Owns, LinkRefused, IUsed, Cleared, HeldKept, fs.Recorded, Unfinishable, SameOutside, Keeps, BackTo,
      Alone, Added, Returned, LinkWrite;
    ghost var d0, a := fs.disk, fs.Now();
    KeepsRefl(a);
    HeldKeptRefl(fs.held - {w.ino}, d0.blocks);
    rec, pre := Blank, [];
    StreamHolding(fs, w);
    HeldFacts(fs.geo, d0, fs.groups, fs.held, w.ino);
    fs.PlainRefused(d0, dir, name);
    ghost var g0, h0, mine := fs.groups, fs.held, Flat(w.extents);
    StreamBlocks(fs, w);
    if !NameOk(name) {
      AbandonFile(fs, w);
      return Err(CorruptFs), rec, pre;
    }
    var done;
    done, rec, pre := FinishUnlinked(fs, w);
    ghost var b := fs.Now();
    if done.Err? {
      AbandonFile(fs, w);
      ReturnedAfter(fs.geo, a, b, fs.Now(), w.ino, mine, rec);
      KeepsTrans(a, b, fs.Now());
      return Err(done.error), rec, pre;
    }
    ghost var d1, log1 := fs.disk, fs.log;
    RecordedThen(fs, old(fs.log), pre, w.ino, rec, w.content, d0);
    HeldAgrees(fs.geo, d0, g0, h0, w.ino, d1.blocks, mine, dir);
    fs.LinkRefusedSame(d0, d1, dir, name);
    var linked := fs.LinkFile(dir, name, w.ino, fileType);
    HeldKeptTrans(fs.held, d0.blocks, d1.blocks, fs.disk.blocks);
    if linked.Err? {
      HeldGone(old(fs.held), w.ino);
      AbandonFile(fs, w);
      ReturnedAfter(fs.geo, a, b, fs.Now(), w.ino, mine, rec);
      KeepsTrans(a, b, fs.Now());
      return Err(linked.error), rec, pre;
    }
    fs.LinkedFile(d1, fs.disk, dir, Entry(w.ino, name, fileType), rec, w.content);
    KeepsWrote(a, b, fs.Now());
    PublishedUse(fs.geo, d0, d1, w.ino, rec);
    fs.NamedNew(d0, d1, fs.disk, dir, Entry(w.ino, name, fileType));
    LinkedRuns(fs, d1, fs.disk, dir, Entry(w.ino, name, fileType), w.ino);
    r := Ok(w.ino);
  }

  lemma PublishedUse(geo: Geo, d0: Disk, d1: Disk, i: nat, rec: Record)
    requires GeoOk(geo) && d1.inodes == d0.inodes[i := rec] && d1.ibm == d0.ibm && InUse(geo, d1, i)
    ensures forall j :: InUse(geo, d1, j) <==> InUse(geo, d0, j) || j == i
  {
    hide GeoOk, IUsed;
  }

  lemma StreamBlocks(fs: Ext4, w: FileWriter)
    requires StreamOk(fs, w)
    ensures w.ino in fs.held && forall b :: b in Flat(w.extents) ==> b in fs.held[w.ino]
  {
    hide CrashSafe, SafeHistory, Replay, GeoOk, HeldOk, BlockCount, InodeSide, Saved, Flat, FlatRuns, BooksOk, TailOk,
      Received, Separable;
  }

  /** Writing held blocks changes nothing that an in-use record names. */
  lemma HeldAgrees(geo: Geo, d: Disk, groups: seq<GroupDesc>, held: map<nat, set<nat>>, i: nat, blocks': map<nat,
      Content>, s: seq<nat>, j: nat)
    requires GeoOk(geo) && HeldOk(geo, d, groups, held) && i in held && (forall b :: b in s ==> b in held[i])
    requires SameOutside(d.blocks, blocks', s) && InUse(geo, d, j)
    ensures AgreeOn(d.blocks, blocks', NamedBy(d.blocks, d.inodes[j]))
  {
    hide GeoOk, IUsed, NamedBy, EntriesOf, HeldIno, BUsed;
    assert forall b :: b in s ==> Free(geo, d, b);
  }

  lemma HeldGone(h: map<nat, set<nat>>, i: nat)
    ensures h - {i} - {i} == h - {i}
  {
  }

  /** Linking a name changes no file's runs. */
  lemma LinkedRuns(fs: Ext4, d: Disk, d': Disk, dir: nat, e: Entry, i: nat)
    requires GeoOk(fs.geo) && CrashSafe(fs.geo, d) && fs.Linked(d, d', dir, e) && InUse(fs.geo, d, i) && i != dir
    requires ByRuns(d.blocks, d.inodes[i])
    ensures ByRuns(d'.blocks, d.inodes[i])
  {
    hide CrashSafe, GeoOk, IUsed, EntriesOf, DataOf, AddedOnce, Tiled, LeafRuns;
    var b, c :| b in DataOf(d.blocks, d.inodes[dir]) && d' == d.(blocks := d.blocks[b := DirBlock(c)]);
    DirWriteFrame(fs.geo, d, dir, b, c);
    var r := d.inodes[i];
    if r.tree.Indexed? {
      assert forall x :: x in r.tree.leaves ==> x in NamedBy(d.blocks, r);
      LeafRunsFrame(d.blocks, d'.blocks, r.tree.leaves);
    }
  }
}
