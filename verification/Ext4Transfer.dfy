/** Whole transfers: a file sent in chunks reads back as their concatenation
    (core/src/fs/ext4/file.rs and the reader in core/src/fs/ext4/mod.rs). */
module Ext4Transfer {
  import opened Arith
  import opened Bytes
  import opened Extents
  import opened DirChain
  import opened Ext4Disk
  import opened Ext4Steps
  import opened Ext4Bitmap
  import opened Ext4Inodes
  import opened Ext4Data
  import opened Ext4Read
  import opened Ext4Books
  import opened Ext4Writer
  import opened Ext4Stream
  import T = ExtentTree

  function DeviceByte(blocks: map<nat, Content>, bs: nat, a: nat): byte
    requires 0 < bs
  {
    var b := a / bs;
    if b in blocks && blocks[b].Data? && a % bs < |blocks[b].bytes| then blocks[b].bytes[a % bs] else 0
  }

  function Device(blocks: map<nat, Content>, bs: nat): nat -> byte
    requires 0 < bs
  {
    (a: nat) => DeviceByte(blocks, bs, a)
  }

  /** The extent tree of a record laid out by runs. */
  function TreeIn(blocks: map<nat, Content>, rec: Record): T.Node
    requires rec.Inode?
    requires rec.tree.Inline? || (rec.tree.Indexed? && |rec.tree.leaves| == 1 && RunsOf(blocks, rec) != [])
  {
    T.TreeFor(RunsOf(blocks, rec), if rec.tree.Inline? then None else Some(rec.tree.leaves[0]))
  }

  /** Block lookup in the tree is indexing the record's block list. */
  lemma TreeLooks(blocks: map<nat, Content>, rec: Record, l: nat)
    requires ByRuns(blocks, rec)
    ensures
      var flat := DataOf(blocks, rec);
      T.Look(T.Exts(TreeIn(blocks, rec)), l) == if l < |flat| then Some(flat[l]) else None
  {
    hide Tiled, FlatRuns, LeafRuns;
    var runs := RunsOf(blocks, rec);
    T.LookTiled(runs, l);
    ExtsOfTree(runs, if rec.tree.Inline? then None else Some(rec.tree.leaves[0]));
  }

  lemma ExtsOfTree(runs: seq<Run>, leaf: Option<nat>)
    requires leaf.Some? ==> runs != []
    ensures T.Exts(T.TreeFor(runs, leaf)) == T.ExtsOf(runs)
  {
    if leaf.Some? {
      var n := T.TreeFor(runs, leaf);
      assert T.KidExts(n, 1) == T.KidExts(n, 0) + T.Exts(n.kids[0]) == T.ExtsOf(runs);
    }
  }

  /** The reader's byte is the file's byte. */
  lemma SameByte(blocks: map<nat, Content>, rec: Record, bs: nat, p: nat)
    requires 0 < bs && ByRuns(blocks, rec)
    ensures FileByte(T.Looker(TreeIn(blocks, rec)), Device(blocks, bs), bs, p)
         == ByteAt(blocks, DataOf(blocks, rec), bs, p)
  {
    hide DataOf, T.Look, T.Exts, ByRuns;
    TreeLooks(blocks, rec, p / bs);
    var flat := DataOf(blocks, rec);
    if p / bs < |flat| {
      DivModUnique(flat[p / bs], p % bs, bs);
    }
  }

  /** Every run of a file whose blocks are all in use stays on the device. */
  lemma RunsOnDevice(geo: Geo, d: Disk, rec: Record, l: nat, hi: nat)
    requires GeoOk(geo) && ByRuns(d.blocks, rec) && l < hi && |DataOf(d.blocks, rec)| < hi
    requires forall b :: b in NamedBy(d.blocks, rec) ==> BUsed(geo, d.bbm, b)
    ensures
      var n := TreeIn(d.blocks, rec);
      && T.WellFormed(n, 0, hi) && T.MapRun(n, l).Mapped?
      && (T.MapRun(n, l).phys.Some? ==> T.MapRun(n, l).phys.value + T.MapRun(n, l).run <= geo.count)
  {
    hide Tiled, FlatRuns, LeafRuns, GeoOk, T.WellFormed, T.MapRun, T.Look, T.Exts;
    var n, runs := TreeIn(d.blocks, rec), RunsOf(d.blocks, rec);
    T.TreeForWellFormed(runs, if rec.tree.Inline? then None else Some(rec.tree.leaves[0]), hi);
    T.MapRunAgrees(n, 0, hi, l);
    var x := T.MapRun(n, l);
    if x.phys.Some? {
      var k := l + x.run - 1;
      TreeLooks(d.blocks, rec, k);
      var flat := DataOf(d.blocks, rec);
      assert T.Look(T.Exts(n), k) == Some(x.phys.value + (k - l));
      assert flat[k] in NamedBy(d.blocks, rec);
      assert BUsed(geo, d.bbm, flat[k]);
    }
  }

  lemma RunsGood(geo: Geo, d: Disk, rec: Record, hi: nat)
    requires GeoOk(geo) && ByRuns(d.blocks, rec) && |DataOf(d.blocks, rec)| < hi
    requires forall b :: b in NamedBy(d.blocks, rec) ==> BUsed(geo, d.bbm, b)
    ensures
      var n := TreeIn(d.blocks, rec);
      && T.WellFormed(n, 0, hi) && forall l: nat :: l < hi ==> !BadRun(T.Mapper(n, hi), geo.count, l)
  {
    hide GeoOk, ByRuns, DataOf, NamedBy, BUsed, T.WellFormed, T.MapRun, TreeIn;
    TreeShape(d.blocks, rec);
    RunsOnDevice(geo, d, rec, 0, hi);
    var n := TreeIn(d.blocks, rec);
    forall l: nat | l < hi ensures !BadRun(T.Mapper(n, hi), geo.count, l) {
      RunsOnDevice(geo, d, rec, l, hi);
    }
  }

  /** `read_inode_data` on a file laid out by runs: the bytes of the file from
      `offset` on, however the range is chosen. */
  method ReadFile(fs: Ext4, i: nat, offset: nat, len: nat) returns (r: Result<seq<byte>>)
    requires fs.Valid() && InUse(fs.geo, fs.disk, i) && ByRuns(fs.disk.blocks, fs.disk.inodes[i])
    ensures r.Ok? && |r.value| == Want(fs.disk.inodes[i].size, offset, len) && 0 < fs.geo.blockSize
    ensures
      var rec := fs.disk.inodes[i];
      var bytes := FileBytes(fs.disk.blocks, DataOf(fs.disk.blocks, rec), fs.geo.blockSize, rec.size);
      |r.value| > 0 ==> offset + |r.value| <= rec.size && r.value == bytes[offset..offset + |r.value|]
  {
    hide CrashSafe, SafeHistory, Replay, GeoOk, HeldOk, BlockCount, InodeSide, Saved, IUsed, DataOf, ByRuns,
      T.WellFormed, T.MapRun, T.Look, T.Exts, TreeIn, FileBytes, Device, ReadsAs, RunsAgree, T.Mapper, T.Looker, BadRun,
      NamedBy;
    var rec, blocks, bs := fs.disk.inodes[i], fs.disk.blocks, fs.geo.blockSize;
    GeoSize(fs.geo);
    BackedFile(fs, i);
    TreeShape(blocks, rec);
    var n := TreeIn(blocks, rec);
    var hi := |DataOf(blocks, rec)| + rec.size + 1;
    RunsGood(fs.geo, fs.disk, rec, hi);
    T.TreeRunsAgree(n, 0, hi);
    var m, dev := T.Mapper(n, hi), Device(blocks, bs);
    var got := ReadData(m, T.Looker(n), dev, bs, fs.geo.count, rec.size, offset, len);
    NoBadRun(T.Mapper(n, hi), fs.geo.count, bs, rec.size, hi);
    SameBytes(blocks, rec, bs, offset, got.value);
    r := Ok(got.value);
  }

  lemma NoBadRun(m: nat -> Mapped, count: nat, bs: nat, size: nat, hi: nat)
    requires 0 < bs && size < hi && forall l: nat :: l < hi ==> !BadRun(m, count, l)
    ensures forall p: nat :: p < size ==> !BadRun(m, count, p / bs)
  {
    hide BadRun;
    forall p: nat | p < size ensures !BadRun(m, count, p / bs) {
      BlockBelow(p, bs);
    }
  }

  lemma BlockBelow(p: nat, bs: nat)
    requires 0 < bs
    ensures p / bs <= p
  {
    assert p == p / bs * bs + p % bs;
    MulMono(1, bs, p / bs);
  }

  lemma TreeShape(blocks: map<nat, Content>, rec: Record)
    requires ByRuns(blocks, rec)
    ensures rec.Inode?
    ensures rec.tree.Inline? || (rec.tree.Indexed? && |rec.tree.leaves| == 1 && RunsOf(blocks, rec) != [])
  {
  }

  lemma BackedFile(fs: Ext4, i: nat)
    requires fs.Valid() && InUse(fs.geo, fs.disk, i)
    ensures forall b :: b in NamedBy(fs.disk.blocks, fs.disk.inodes[i]) ==> BUsed(fs.geo, fs.disk.bbm, b)
  {
    hide GeoOk, SafeHistory, Replay, HeldOk, BlockCount, InodeSide, Saved, NamedBy, BUsed, IUsed, Unshared, DirsOk,
      NamesLive, NamesUnique, DiskOk;
  }

  lemma SameBytes(blocks: map<nat, Content>, rec: Record, bs: nat, offset: nat, got: seq<byte>)
    requires 0 < bs && ByRuns(blocks, rec)
    requires ReadsAs(got, T.Looker(TreeIn(blocks, rec)), Device(blocks, bs), bs, offset)
    requires |got| > 0 ==> offset + |got| <= rec.size
    ensures |got| > 0 ==> got == FileBytes(blocks, DataOf(blocks, rec), bs, rec.size)[offset..offset + |got|]
  {
    hide ByRuns, DataOf, T.Looker, TreeIn, Device, ByteAt, FileByte;
    TreeShape(blocks, rec);
    if |got| > 0 {
      var bytes := FileBytes(blocks, DataOf(blocks, rec), bs, rec.size);
      forall j | 0 <= j < |got| ensures got[j] == bytes[offset + j] {
        SameByte(blocks, rec, bs, offset + j);
      }
    }
  }

  // ----- transfers -----

  function Concat(chunks: seq<seq<byte>>): seq<byte> {
    if chunks == [] then [] else Concat(chunks[..|chunks| - 1]) + chunks[|chunks| - 1]
  }

  /** What sending has kept since the filesystem was `a` and the stream had the
      runs `runs0`. */
  ghost predicate Sending(fs: Ext4, w: FileWriter, a: State, h: map<nat, set<nat>>, runs0: seq<Run>, p0: nat,
      total: nat)
    reads fs, w
  {
    && StreamOk(fs, w) && Alone(fs, w) && Keeps(a, fs.Now()) && fs.held == h[w.ino := SeqSet(Flat(w.extents))]
    && FlatRuns(runs0) <= FlatRuns(w.runs) && 0 < fs.geo.blockSize
    && PeakOk(w.streaming, p0, w.peak, fs.geo.blockSize, total)
  }

  /** A stream of announced size keeps what it reserved, and only its own blocks
      have changed since the blocks were `x`. */
  ghost predicate Announced(fs: Ext4, w: FileWriter, s: Snapshot, x: map<nat, Content>)
    reads fs, w
  {
    && w.extents == s.extents && w.runs == s.runs && w.leaf == s.leaf && w.size == s.size && w.written <= w.size
    && SameOutside(x, fs.disk.blocks, Flat(w.extents))
  }

  /** Append one chunk. */
  method SendOne(fs: Ext4, w: FileWriter, chunk: seq<byte>, ghost a: State, ghost h: map<nat, set<nat>>,
      ghost runs0: seq<Run>, ghost p0: nat, ghost total: nat,
                 ghost s: Snapshot, ghost x: map<nat, Content>)
    returns (r: Result<()>)
    requires Sending(fs, w, a, h, runs0, p0, total) && w.written + |chunk| <= total
    requires !w.streaming ==> Announced(fs, w, s, x)
    modifies fs, w
    ensures !w.streaming ==>
      Announced(fs, w, s, x) && (r.Err? <==> old(w.written) + |chunk| >= U64_LIMIT || old(w.written) + |chunk| > w.size)
    ensures Sending(fs, w, a, h, runs0, p0, total) && old(fs.log) <= fs.log && fs.dirs == old(fs.dirs)
    ensures fs.disk.inodes == old(fs.disk.inodes) && fs.disk.ibm == old(fs.disk.ibm)
    ensures if r.Ok? then w.content == old(w.content) + chunk else r.error != BadInode
  {
    hide StreamOk, Alone, Flat, FlatRuns, SeqSet, Undisturbed, Keeps, PeakOk, Judged, HeldKept, GeoOk, Extended,
      ChunkWaste, SameOutside;
    StreamSizes(fs, w);
    ghost var y := fs.disk.blocks;
    ghost var mine, runs, b, peak, end := SeqSet(Flat(w.extents)), w.runs, fs.Now(), w.peak, w.written + |chunk|;
    r := WriteChunk(fs, w, chunk);
    KeepsTrans(a, b, fs.Now());
    PeakMore(w.streaming, p0, peak, w.peak, fs.geo.blockSize, end, total);
    HeldTwice(h, w.ino, mine, SeqSet(Flat(w.extents)));
    PrefixTrans(FlatRuns(runs0), FlatRuns(runs), FlatRuns(w.runs));
    StreamSizes(fs, w);
    if !w.streaming { OutsideTrans(x, y, fs.disk.blocks, Flat(w.extents)); }
  }

  /** Append the chunks one after another. */
  method SendChunks(fs: Ext4, w: FileWriter, chunks: seq<seq<byte>>) returns (r: Result<()>)
    requires StreamOk(fs, w) && Alone(fs, w)
    modifies fs, w
    ensures StreamOk(fs, w) && Alone(fs, w) && old(fs.log) <= fs.log && fs.dirs == old(fs.dirs)
    ensures fs.held == old(fs.held)[w.ino := SeqSet(Flat(w.extents))]
    ensures fs.disk.inodes == old(fs.disk.inodes) && fs.disk.ibm == old(fs.disk.ibm)
    ensures r.Ok? ==> w.content == old(w.content) + Concat(chunks)
    ensures r.Err? ==> r.error != BadInode
    ensures FlatRuns(old(w.runs)) <= FlatRuns(w.runs)
    ensures Keeps(old(fs.Now()), fs.Now()) && 0 < fs.geo.blockSize
    ensures PeakOk(w.streaming, old(w.peak), w.peak, fs.geo.blockSize, |old(w.content)| + |Concat(chunks)|)
    ensures !w.streaming ==> Announced(fs, w, old(Snap(w)), old(fs.disk.blocks))
    ensures !w.streaming && old(w.content) == [] ==>
      (r.Err? <==> |Concat(chunks)| >= U64_LIMIT || |Concat(chunks)| > w.size)
  {
    hide StreamOk, Alone, Flat, FlatRuns, SeqSet, Undisturbed, Keeps, PeakOk, Judged, Concat, HeldKept, GeoOk, Sending,
      SameOutside;
    OutsideRefl(fs.disk.blocks, Flat(w.extents));
    KeepsRefl(fs.Now());
    StreamSizes(fs, w);
    ghost var a, total := fs.Now(), |w.content| + |Concat(chunks)|;
    PeakStart(w.streaming, w.peak, fs.geo.blockSize, total);
    StreamHeld(fs, w);
    HeldSame(fs.held, w.ino);
    ConcatNone(w.content, chunks);
    SendStart(fs, w, a, total);
    for k := 0 to |chunks|
      invariant Sending(fs, w, a, old(fs.held), old(w.runs), old(w.peak), total) && old(fs.log) <= fs.log
      invariant fs.dirs == old(fs.dirs)
      invariant fs.disk.inodes == old(fs.disk.inodes) && fs.disk.ibm == old(fs.disk.ibm)
      invariant w.content == old(w.content) + Concat(chunks[..k])
      invariant !w.streaming ==>
        Announced(fs, w, old(Snap(w)), old(fs.disk.blocks)) && (old(w.content) == [] ==> |w.content| < U64_LIMIT)
    {
      SendingMeans(fs, w, a, old(fs.held), old(w.runs), old(w.peak), total);
      ConcatStep(old(w.content), chunks, k);
      var sent := SendOne(fs, w, chunks[k], a, old(fs.held), old(w.runs), old(w.peak), total, old(Snap(w)),
        old(fs.disk.blocks));
      if sent.Err? {
        SendingMeans(fs, w, a, old(fs.held), old(w.runs), old(w.peak), total);
        return Err(sent.error);
      }
    }
    SendingMeans(fs, w, a, old(fs.held), old(w.runs), old(w.peak), total);
    assert chunks[..|chunks|] == chunks;
    r := Ok(());
  }

  lemma SendStart(fs: Ext4, w: FileWriter, a: State, total: nat)
    requires StreamOk(fs, w) && Alone(fs, w) && Keeps(a, fs.Now()) && w.ino in fs.held
    requires fs.held == fs.held[w.ino := SeqSet(Flat(w.extents))]
    requires 0 < fs.geo.blockSize && PeakOk(w.streaming, w.peak, w.peak, fs.geo.blockSize, total)
    ensures Sending(fs, w, a, fs.held, w.runs, w.peak, total)
  {
    hide StreamOk, Alone, Flat, FlatRuns, SeqSet, Keeps, PeakOk;
  }

  lemma SendingMeans(fs: Ext4, w: FileWriter, a: State, h: map<nat, set<nat>>, runs0: seq<Run>, p0: nat, total: nat)
    requires Sending(fs, w, a, h, runs0, p0, total)
    ensures StreamOk(fs, w) && Alone(fs, w) && Keeps(a, fs.Now()) && fs.held == h[w.ino := SeqSet(Flat(w.extents))]
    ensures w.written == |w.content|
    ensures FlatRuns(runs0) <= FlatRuns(w.runs) && 0 < fs.geo.blockSize
    ensures PeakOk(w.streaming, p0, w.peak, fs.geo.blockSize, total)
  {
    hide Alone, Flat, FlatRuns, SeqSet, Keeps, PeakOk;
    StreamSizes(fs, w);
  }

  lemma StreamSizes(fs: Ext4, w: FileWriter)
    requires StreamOk(fs, w)
    ensures w.written == |w.content| && 0 < fs.geo.blockSize && (!w.streaming ==> w.written <= w.size)
  {
  }

  lemma ConcatNone(c: seq<byte>, chunks: seq<seq<byte>>)
    ensures c + Concat(chunks[..0]) == c
  {
  }

  lemma ConcatStep(c: seq<byte>, chunks: seq<seq<byte>>, k: nat)
    requires k < |chunks|
    ensures c + Concat(chunks[..k + 1]) == c + Concat(chunks[..k]) + chunks[k]
    ensures |c + Concat(chunks[..k])| + |chunks[k]| <= |c| + |Concat(chunks)|
  {
    assert chunks[..k + 1][..k] == chunks[..k] && chunks[..k + 1][k] == chunks[k];
    ConcatUpTo(chunks, k + 1);
  }

  lemma {:induction false} ConcatUpTo(chunks: seq<seq<byte>>, k: nat)
    requires k <= |chunks|
    ensures |Concat(chunks[..k])| <= |Concat(chunks)|
  {
    if k == |chunks| {
      assert chunks[..k] == chunks;
    } else {
      ConcatUpTo(chunks[..|chunks| - 1], k);
      assert chunks[..|chunks| - 1][..k] == chunks[..k];
    }
  }

  lemma PeakStart(streaming: bool, p: nat, bs: nat, end: nat)
    requires 0 < bs
    ensures PeakOk(streaming, p, p, bs, end)
  {
    hide CeilDiv;
  }

  lemma PeakMore(streaming: bool, p: nat, q: nat, r: nat, bs: nat, end: nat, total: nat)
    requires 0 < bs && PeakOk(streaming, p, q, bs, total) && PeakOk(streaming, q, r, bs, end) && end <= total
    ensures PeakOk(streaming, p, r, bs, total)
  {
    CeilMono(end, total, bs);
    hide CeilDiv;
  }

  lemma CeilMono(a: nat, b: nat, d: nat)
    requires 0 < d && a <= b
    ensures CeilDiv(a, d) <= CeilDiv(b, d)
  {
    var x, y := CeilDiv(a, d), CeilDiv(b, d);
    CeilBounds(a, d);
    CeilBounds(b, d);
    if y < x { MulMono(y, x - 1, d); assert false; }
  }

  lemma PrefixTrans(a: seq<nat>, b: seq<nat>, c: seq<nat>)
    requires a <= b <= c
    ensures a <= c
  {
  }

  lemma StreamHeld(fs: Ext4, w: FileWriter)
    requires StreamOk(fs, w)
    ensures w.ino in fs.held && fs.held[w.ino] == SeqSet(Flat(w.extents)) && fs.Valid()
    ensures !InUse(fs.geo, fs.disk, w.ino)
    ensures Holding(fs, w)
  {
    hide CrashSafe, SafeHistory, Replay, GeoOk, HeldOk, BlockCount, InodeSide, Saved, Flat, FlatRuns, SeqSet, BooksOk,
      TailOk, Received, Separable, fs.Owns;
    HeldFacts(fs.geo, fs.disk, fs.groups, fs.held, w.ino);
    StreamHolding(fs, w);
  }

  lemma StillInUse(fs: Ext4, w: FileWriter, j: nat)
    requires GeoOk(fs.geo) && Alone(fs, w) && InUse(fs.geo, w.began.disk, j)
    ensures InUse(fs.geo, fs.disk, j)
  {
    hide GeoOk, CrashSafe, Reserved, Undisturbed, Flat, BlockCount, InUse, AloneAt;
    AloneParts(fs.geo, w.began, fs.Now(), w.ino, w.extents, w.peak);
    AllSurvive(fs.geo, w.began.disk, w.began.groups, fs.disk, fs.groups, w.ino, false, Flat(w.extents));
  }

  lemma HeldDrop(h: map<nat, set<nat>>, i: nat, x: set<nat>, y: set<nat>)
    requires i !in h
    ensures h[i := x][i := y] - {i} == h
  {
  }

  /** Send a file in chunks, of a size announced beforehand or not, and give it
      a name; or leave the filesystem as it was. `nb` blocks and `ni` inodes is
      the most it held at a time. */
  method SendFile(fs: Ext4, dir: nat, name: Name, fileType: byte, size: Option<nat>, chunks: seq<seq<byte>>)
    returns (r: Result<nat>, ghost rec: Record, ghost log0: seq<Write>, ghost pre: seq<Write>, ghost nb: nat,
             ghost ni: nat)
    requires fs.Valid() && InUse(fs.geo, fs.disk, dir)
    modifies fs
    ensures fs.Valid() && old(fs.log) <= fs.log && fs.dirs == old(fs.dirs) && fs.held == old(fs.held)
    ensures 0 < fs.geo.blockSize
    ensures r.Ok? ==> InUse(fs.geo, fs.disk, r.value) && fs.disk.inodes[r.value] == rec && ByRuns(fs.disk.blocks, rec)
    ensures r.Ok? ==>
      NewFile(fs.geo, fs.disk, rec, Concat(chunks)) && HasEntry(fs.geo, fs.disk, dir, Entry(r.value, name, fileType))
    ensures r.Ok? ==> old(fs.log) <= log0 && FinishTrace(log0, fs.log, pre, r.value, rec)
    ensures r == Err(BadInode) <==> Overrun(fs.geo, old(fs.disk), old(fs.groups))
    ensures
      if r.Ok? then Keeps(old(fs.Now()), fs.Now()) else Refusal(fs.geo, old(fs.Now()), fs.Now(), r.error, false, nb, ni)
    ensures r != Err(BadInode) ==> ni == if NoInode(fs.geo, old(fs.disk), old(fs.groups)) then 0 else 1
    ensures r != Err(BadInode) && size.Some? ==>
      Tally(fs.geo, old(fs.disk), old(fs.groups), CeilDiv(size.value, fs.geo.blockSize), nb, ni)
    ensures r != Err(BadInode) && size.None? ==> nb <= CeilDiv(|Concat(chunks)|, fs.geo.blockSize) + 1
    ensures size.Some? ==> (r.Err? <==>
      || Unplaceable(fs.geo, old(fs.disk), old(fs.groups), CeilDiv(size.value, fs.geo.blockSize))
      || |Concat(chunks)| != size.value || size.value >= U64_LIMIT || LinkRefused(fs.geo, old(fs.disk), dir, name))
  {
    hide SameOutside, LinkRefused, Returned, fs.Recorded, Unfinishable;
    hide StreamOk, Alone, Flat, FlatRuns, SeqSet, BackTo, Refusal, Keeps, Tally, PeakOk, ByRuns, NewFile, HasEntry,
      FinishTrace, Holding, CrashSafe, SafeHistory, Replay, GeoOk, HeldOk, BlockCount, InodeSide, Saved, InUse, Cleared,
      IUsed, NoInode, Overrun, Short, Unplaceable, CeilDiv, Added;
    GeoSize(fs.geo);
    rec, log0, pre, nb, ni := Blank, [], [], 0, 0;
    ghost var h, a := fs.held, fs.Now();
    var begun;
    if size.Some? {
      begun, nb, ni := BeginFile(fs, size.value);
      if begun != Err(BadInode) { TallyInode(fs.geo, a.disk, a.groups, CeilDiv(size.value, fs.geo.blockSize), nb, ni); }
    } else {
      begun, ni := BeginStreaming(fs);
      OneOrOther(fs.geo, a.disk, a.groups);
    }
    if begun.Err? {
      return Err(begun.error), rec, log0, pre, nb, ni;
    }
    var w := begun.value;
    ghost var b, s := fs.Now(), Snap(w);
    StillInUse(fs, w, dir);
    ghost var mine := fs.held[w.ino];
    assert w.content + Concat(chunks) == Concat(chunks);
    var sent := SendChunks(fs, w, chunks);
    KeepsTrans(a, b, fs.Now());
    PeakBound(w.streaming, nb, w.peak, fs.geo.blockSize, |Concat(chunks)|);
    nb := w.peak;
    StreamHeld(fs, w);
    HeldDrop(h, w.ino, mine, SeqSet(Flat(w.extents)));
    if sent.Err? {
      AbandonFile(fs, w);
      RefusalBack(fs.geo, a, fs.Now(), sent.error, false, nb, ni);
      return Err(sent.error), rec, log0, pre, nb, ni;
    }
    StillInUse(fs, w, dir);
    log0 := fs.log;
    ghost var c := fs.Now();
    if size.Some? { StillLinks(fs, w, a.disk, dir, name, s); }
    r, rec, pre := FinishFile(fs, w, dir, name, fileType);
    KeepsTrans(a, c, fs.Now());
    if r.Err? { RefusalBack(fs.geo, a, fs.Now(), r.error, false, nb, ni); }
  }

  /** Sending an announced file changes nothing about what can be linked, nor
      what it still lacks but its bytes. */
  lemma StillLinks(fs: Ext4, w: FileWriter, d: Disk, dir: nat, name: Name, s: Snapshot)
    requires StreamOk(fs, w) && Alone(fs, w) && w.began.disk == d && GeoOk(fs.geo) && CrashSafe(fs.geo, d)
    requires InUse(fs.geo, d, dir) && !w.streaming
    requires Announced(fs, w, s, d.blocks) && (s.leaf.None? ==> |s.runs| <= MAX_INLINE_EXTENTS)
    ensures InUse(fs.geo, fs.disk, dir)
    ensures LinkRefused(fs.geo, fs.disk, dir, name) <==> LinkRefused(fs.geo, d, dir, name)
    ensures Unfinishable(w.streaming, w.written, w.size, w.leaf, w.runs) <==> |w.content| != s.size
  {
    StillInUse(fs, w, dir);
    StreamSizes(fs, w);
    StreamBlocks(fs, w);
    StreamHeld(fs, w);
    AloneParts(fs.geo, w.began, fs.Now(), w.ino, w.extents, w.peak);
    hide StreamOk, Alone, AloneAt, Flat, CrashSafe, SafeHistory, Replay, GeoOk, HeldOk, BlockCount, InodeSide, Saved,
      LinkRefused, InUse, SameOutside, SeqSet, Reserved, Holding, Began, Even, Keeps;
    OutsideSym(d.blocks, fs.disk.blocks, Flat(w.extents));
    HeldAgrees(fs.geo, fs.disk, fs.groups, fs.held, w.ino, d.blocks, Flat(w.extents), dir);
    fs.LinkRefusedSame(fs.disk, d, dir, name);
  }

  lemma PeakBound(streaming: bool, p: nat, q: nat, bs: nat, end: nat)
    requires 0 < bs && PeakOk(streaming, p, q, bs, end)
    ensures if streaming then p == 0 ==> q <= CeilDiv(end, bs) + 1 else q == p
  {
    hide CeilDiv;
  }

  lemma TallyInode(geo: Geo, d: Disk, groups: seq<GroupDesc>, n: nat, nb: nat, ni: nat)
    requires GeoOk(geo) && Tally(geo, d, groups, n, nb, ni)
    ensures ni == if NoInode(geo, d, groups) then 0 else 1
  {
  }

  lemma OneOrOther(geo: Geo, d: Disk, groups: seq<GroupDesc>)
    requires GeoOk(geo)
    ensures !(NoInode(geo, d, groups) && Overrun(geo, d, groups))
  {
  }

  /** For every split of a byte string into chunks, what was sent is what is
      read back, from any offset on. */
  method SendAndRead(fs: Ext4, dir: nat, name: Name, fileType: byte, size: Option<nat>, chunks: seq<seq<byte>>,
      offset: nat, len: nat)
    returns (r: Result<seq<byte>>)
    requires fs.Valid() && InUse(fs.geo, fs.disk, dir)
    modifies fs
    ensures fs.Valid()
    ensures r.Ok? ==> r.value == (if offset >= |Concat(chunks)| then []
                                  else Concat(chunks)[offset..Min(offset + len, |Concat(chunks)|)])
  {
    hide CrashSafe, SafeHistory, Replay, GeoOk, HeldOk, BlockCount, InodeSide, Saved, ByRuns, HasEntry, FinishTrace,
      Restored, DataOf, FileBytes, IUsed, Concat, NamedBy, BUsed;
    var sent, rec, log0, pre, nb, ni := SendFile(fs, dir, name, fileType, size, chunks);
    if sent.Err? {
      return Err(sent.error);
    }
    r := ReadFile(fs, sent.value, offset, len);
  }
}
