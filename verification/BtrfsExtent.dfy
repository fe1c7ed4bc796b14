/** File contents on btrfs (core/src/fs/btrfs/extent.rs): one forward walk over
    a file's extent items gives, byte by byte, what the items and the gaps
    between them say. */
module BtrfsExtent {
  import opened Arith
  import opened Bytes
  import opened BtrfsTree
  import opened BtrfsCursor
  import opened BtrfsWalk
  import BtrfsCsum
  import BtrfsChunk
  import opened BtrfsData

  const EXTENT_DATA_KEY: nat := 108
  const INLINE_HEADER: nat := 21
  const REGULAR_ITEM_SIZE: nat := 53

  datatype Kind = Inline | Regular | Prealloc

  datatype FileExtent = FileExtent(
    start: nat, kind: Kind, ram: nat, compression: nat, bytenr: nat, diskBytes: nat, offset: nat, num: nat,
    inline: seq<byte>)

  /** `FileExtent::parse`. */
  function Parse(start: nat, d: seq<byte>): Option<FileExtent> {
    if |d| <= 20 || d[20] > 2 || d[17] != 0 then None
    else if d[20] == 0 then
      Some(FileExtent(start, Inline, U64(d, 8), d[16], 0, |d| - INLINE_HEADER, 0, U64(d, 8), d[INLINE_HEADER..]))
    else if |d| < REGULAR_ITEM_SIZE then None
    else
      Some(FileExtent(start, if d[20] == 1 then Regular else Prealloc, U64(d, 8), d[16],
                      U64(d, 21), U64(d, 29), U64(d, 37), U64(d, 45), []))
  }

  function End(e: FileExtent): nat { e.start + e.num }

  /** Reads as zeros without touching the device: a hole, or space reserved and
      never written. */
  predicate IsZeros(e: FileExtent) { (e.kind == Regular && e.bytenr == 0) || e.kind == Prealloc }

  /** What the extents are read from: the bytes at logical addresses, which
      ranges of them can be read, and what a whole compressed extent expands
      to. */
  datatype Source = Source(disk: nat -> byte, read: (nat, nat) -> bool, plain: FileExtent -> Option<seq<byte>>)

  /** What stored bytes expand to, given the format and the expected size. */
  type Inflate = (nat, seq<byte>, nat) -> Option<seq<byte>>

  /** Verified reads of a volume as such a source. */
  ghost function SourceOf(v: Volume, cs: seq<BtrfsChunk.Chunk>, inflate: Inflate): Source
    requires BtrfsCsum.SchemeOk(v.scheme)
  {
    Source(
      (p: nat) => ByteOf(cs, v.disk, p),
      (a: nat, n: nat) => a < U64_LIMIT && Read(v, cs, a, n).Data?,
      (e: FileExtent) => PlainOf(v, cs, inflate, e))
  }

  ghost function PlainOf(v: Volume, cs: seq<BtrfsChunk.Chunk>, inflate: Inflate, e: FileExtent): Option<seq<byte>>
    requires BtrfsCsum.SchemeOk(v.scheme)
  {
    if e.kind == Inline then inflate(e.compression, e.inline, e.ram)
    else if e.bytenr < U64_LIMIT && Read(v, cs, e.bytenr, e.diskBytes).Data? then
      inflate(e.compression, Read(v, cs, e.bytenr, e.diskBytes).bytes, e.ram)
    else None
  }

  /** Byte `x` of the range an extent item covers. */
  function ByteIn(src: Source, e: FileExtent, x: nat): byte {
    if IsZeros(e) then 0
    else if e.compression != 0 then
      if src.plain(e).Some? && e.offset + x < |src.plain(e).value| then src.plain(e).value[e.offset + x] else 0
    else if e.kind == Inline then (if e.offset + x < |e.inline| then e.inline[e.offset + x] else 0)
    else src.disk(e.bytenr + e.offset + x)
  }

  // ----- what the items of a file say -----

  function ExtentOf(x: Item): Option<FileExtent> { Parse(x.key.offset, x.data) }

  function EndOf(x: Item): nat { if ExtentOf(x).Some? then End(ExtentOf(x).value) else 0 }

  /** The extent items of one inode. */
  function Extents(ino: nat): Strand { Strand(ino, EXTENT_DATA_KEY, EndOf) }

  predicate CoversByte(x: Item, ino: nat, p: nat) {
    Mine(Extents(ino), x) && ExtentOf(x).Some? && ExtentOf(x).value.start <= p < End(ExtentOf(x).value)
  }

  /** Byte `p` of the file: that of the extent covering it, or zero. */
  ghost function FileByte(src: Source, s: seq<Item>, ino: nat, p: nat): byte
  {
    if exists i :: 0 <= i < |s| && CoversByte(s[i], ino, p) then
      var i :| 0 <= i < |s| && CoversByte(s[i], ino, p);
      ByteIn(src, ExtentOf(s[i]).value, p - ExtentOf(s[i]).value.start)
    else 0
  }

  lemma FileByteIs(src: Source, s: seq<Item>, ino: nat, p: nat, k: nat)
    requires Apart(Extents(ino), s) && k < |s| && CoversByte(s[k], ino, p)
    ensures FileByte(src, s, ino, p) == ByteIn(src, ExtentOf(s[k]).value, p - ExtentOf(s[k]).value.start)
  {
    hide Parse, ByteIn;
    var i :| 0 <= i < |s| && CoversByte(s[i], ino, p) &&
      FileByte(src, s, ino, p) == ByteIn(src, ExtentOf(s[i]).value, p - ExtentOf(s[i]).value.start);
    OneExtent(s, ino, i, k, p);
  }

  lemma OneExtent(s: seq<Item>, ino: nat, i: nat, k: nat, p: nat)
    requires Apart(Extents(ino), s) && i < |s| && k < |s| && CoversByte(s[i], ino, p) && CoversByte(s[k], ino, p)
    ensures i == k
  {
    hide Parse;
    StartIs(s[i]);
    StartIs(s[k]);
    assert Extents(ino).end(s[i]) == EndOf(s[i]) && Extents(ino).end(s[k]) == EndOf(s[k]);
  }

  lemma StartIs(x: Item)
    ensures ExtentOf(x).Some? ==> ExtentOf(x).value.start == x.key.offset
  {
  }

  /** No item covers a byte between what is passed and what comes next. */
  lemma GapByte(s: seq<Item>, ino: nat, c: nat, pos: nat, p: nat)
    requires Passed(Extents(ino), s, c, pos) && Beyond(Extents(ino), s, c, p + 1) && pos <= p
    ensures forall i :: 0 <= i < |s| ==> !CoversByte(s[i], ino, p)
  {
    hide Parse;
    forall i | 0 <= i < |s| ensures !CoversByte(s[i], ino, p) {
      StartIs(s[i]);
      assert Mine(Extents(ino), s[i]) && i < c ==> EndOf(s[i]) <= pos;
    }
  }

  // ----- reading -----

  function Zeros(n: nat): (z: seq<byte>)
    ensures |z| == n && forall i :: 0 <= i < n ==> z[i] == 0
  {
    seq(n, _ => 0)
  }

  /** `take` bytes of an extent from `within` on, as the reader fetches them. */
  function ReadExtent(src: Source, e: FileExtent, within: nat, take: nat): (r: Option<seq<byte>>)
    ensures r.Some? ==> |r.value| == take && forall j :: 0 <= j < take ==> r.value[j] == ByteIn(src, e, within + j)
  {
    var start := e.offset + within;
    if IsZeros(e) then Some(Zeros(take))
    else if e.compression != 0 then
      if src.plain(e).None? || start + take > |src.plain(e).value| then None
      else Some(src.plain(e).value[start..start + take])
    else if e.kind == Inline then
      if start + take > |e.inline| then None else Some(e.inline[start..start + take])
    else if start + take > e.diskBytes || !src.read(e.bytenr + start, take) then None
    else Some(seq(take, j requires 0 <= j => src.disk(e.bytenr + start + j)))
  }

  /** Nothing about the extent makes the reader give up. */
  ghost predicate Sound(src: Source, e: FileExtent) {
    forall within: nat, take: nat :: within + take <= e.num ==> ReadExtent(src, e, within, take).Some?
  }

  ghost predicate AllSound(src: Source, s: seq<Item>, ino: nat) {
    forall i :: 0 <= i < |s| && Mine(Extents(ino), s[i]) ==> ExtentOf(s[i]).Some? && Sound(src, ExtentOf(s[i]).value)
  }

  /** The bytes from `offset` on are the file's. */
  ghost predicate ReadsAs(src: Source, s: seq<Item>, ino: nat, offset: nat, buf: seq<byte>) {
    forall j :: 0 <= j < |buf| ==> buf[j] == FileByte(src, s, ino, offset + j)
  }

  function Want(size: nat, offset: nat, len: nat): nat {
    if offset >= size then 0 else Min(len, size - offset)
  }

  lemma ReadsMore(src: Source, s: seq<Item>, ino: nat, offset: nat, a: seq<byte>, b: seq<byte>)
    requires ReadsAs(src, s, ino, offset, a) && ReadsAs(src, s, ino, offset + |a|, b)
    ensures ReadsAs(src, s, ino, offset, a + b)
  {
    hide FileByte;
    forall j | |a| <= j < |a + b| ensures (a + b)[j] == FileByte(src, s, ino, offset + j) {
      assert offset + |a| + (j - |a|) == offset + j;
    }
  }

  /** A gap reads as zeros. */
  lemma GapReads(src: Source, s: seq<Item>, ino: nat, c: nat, pos: nat, n: nat)
    requires Passed(Extents(ino), s, c, pos) && Beyond(Extents(ino), s, c, pos + n)
    ensures ReadsAs(src, s, ino, pos, Zeros(n))
  {
    hide Passed, CoversByte;
    var z := Zeros(n);
    forall j | 0 <= j < n ensures z[j] == FileByte(src, s, ino, pos + j) {
      GapByte(s, ino, c, pos, pos + j);
    }
  }

  /** An extent reads as itself. */
  lemma ExtentReads(src: Source, s: seq<Item>, ino: nat, c: nat, pos: nat, got: seq<byte>)
    requires Apart(Extents(ino), s) && c < |s| && Mine(Extents(ino), s[c]) && ExtentOf(s[c]).Some?
    requires
      var e := ExtentOf(s[c]).value;
      && e.start <= pos && pos + |got| <= End(e)
      && forall j :: 0 <= j < |got| ==> got[j] == ByteIn(src, e, pos - e.start + j)
    ensures ReadsAs(src, s, ino, pos, got)
  {
    hide FileByte, ByteIn, Parse, Apart;
    var e := ExtentOf(s[c]).value;
    forall j | 0 <= j < |got| ensures got[j] == FileByte(src, s, ino, pos + j) {
      FileByteIs(src, s, ino, pos + j, c);
      assert pos + j - e.start == pos - e.start + j;
    }
  }

  // ----- where the bytes come from -----

  /** Byte `x` of an extent's range depends on the device byte at `a`. */
  predicate Backs(e: FileExtent, x: nat, a: nat) {
    && !IsZeros(e) && e.kind != Inline
    && (if e.compression != 0 then e.bytenr <= a < e.bytenr + e.diskBytes else a == e.bytenr + e.offset + x)
  }

  /** The checksum tree, if there is one, has a key at or below the extent. */
  ghost predicate Anchored(v: Volume, e: FileExtent)
    requires BtrfsCsum.SchemeOk(v.scheme)
  {
    v.csums.Some? ==> Reachable(BtrfsCsum.Sums(v.scheme), v.csums.value, Down(v.scheme.sector, e.bytenr))
  }

  /** Whatever byte `x` of an extent depends on passed its checksum. */
  ghost predicate Backed(v: Volume, cs: seq<BtrfsChunk.Chunk>, e: FileExtent, x: nat)
    requires BtrfsCsum.SchemeOk(v.scheme)
  {
    Anchored(v, e) ==> forall a :: Backs(e, x, a) ==> Vouched(v, cs, a)
  }

  /** Byte `p` of the file comes from sectors that passed their checksums. */
  ghost predicate Certified(v: Volume, cs: seq<BtrfsChunk.Chunk>, s: seq<Item>, ino: nat, p: nat)
    requires BtrfsCsum.SchemeOk(v.scheme)
  {
    forall i :: 0 <= i < |s| && CoversByte(s[i], ino, p) ==>
      Backed(v, cs, ExtentOf(s[i]).value, p - ExtentOf(s[i]).value.start)
  }

  ghost predicate AllCertified(v: Volume, cs: seq<BtrfsChunk.Chunk>, s: seq<Item>, ino: nat, offset: nat, n: nat)
    requires BtrfsCsum.SchemeOk(v.scheme)
  {
    forall p :: offset <= p < offset + n ==> Certified(v, cs, s, ino, p)
  }

  lemma GapCertified(v: Volume, cs: seq<BtrfsChunk.Chunk>, s: seq<Item>, ino: nat, c: nat, pos: nat, n: nat)
    requires BtrfsCsum.SchemeOk(v.scheme) && Passed(Extents(ino), s, c, pos) && Beyond(Extents(ino), s, c, pos + n)
    ensures AllCertified(v, cs, s, ino, pos, n)
  {
    hide Passed, CoversByte, Backed;
    forall p | pos <= p < pos + n ensures Certified(v, cs, s, ino, p) { GapByte(s, ino, c, pos, p); }
  }

  lemma ExtentCertified(v: Volume, cs: seq<BtrfsChunk.Chunk>, s: seq<Item>, ino: nat, c: nat, pos: nat, n: nat)
    requires BtrfsCsum.SchemeOk(v.scheme) && Apart(Extents(ino), s) && c < |s| && Mine(Extents(ino), s[c])
    requires ExtentOf(s[c]).Some?
    requires
      var e := ExtentOf(s[c]).value;
      e.start <= pos && pos + n <= End(e) && forall x :: pos - e.start <= x < pos - e.start + n ==> Backed(v, cs, e, x)
    ensures AllCertified(v, cs, s, ino, pos, n)
  {
    hide Parse, Backed;
    forall p, i | pos <= p < pos + n && 0 <= i < |s| && CoversByte(s[i], ino, p) ensures i == c {
      assert CoversByte(s[c], ino, p) by { StartIs(s[c]); }
      OneExtent(s, ino, i, c, p);
    }
  }

  lemma MoreCertified(v: Volume, cs: seq<BtrfsChunk.Chunk>, s: seq<Item>, ino: nat, offset: nat, m: nat, n: nat)
    requires BtrfsCsum.SchemeOk(v.scheme) && AllCertified(v, cs, s, ino, offset, m)
    requires AllCertified(v, cs, s, ino, offset + m, n)
    ensures AllCertified(v, cs, s, ino, offset, m + n)
  {
    hide Certified;
  }

  /** A read of part of an extent brings nothing from a sector that failed. */
  lemma FetchBacked(v: Volume, cs: seq<BtrfsChunk.Chunk>, inflate: Inflate, e: FileExtent, within: nat, take: nat)
    requires VolumeOk(v) && e.bytenr < U64_LIMIT && ReadExtent(SourceOf(v, cs, inflate), e, within, take).Some?
    ensures forall x :: within <= x < within + take ==> Backed(v, cs, e, x)
  {
    hide Read, Vouched, Reachable, Flat, WellFormed, Down, BtrfsWalk.Apart;
    if Anchored(v, e) {
      forall x, a | within <= x < within + take && Backs(e, x, a) ensures Vouched(v, cs, a) {
        if e.compression != 0 {
          BytesVouched(v, cs, e.bytenr, e.diskBytes, a);
        } else {
          var start := e.bytenr + (e.offset + within);
          if v.csums.Some? {
            DownMono(v.scheme.sector, e.bytenr, start);
            ReachableLater(BtrfsCsum.Sums(v.scheme), v.csums.value, Down(v.scheme.sector, e.bytenr),
              Down(v.scheme.sector, start));
          }
          BytesVouched(v, cs, start, take, a);
        }
      }
    }
  }

  /** `take` bytes of an extent, through verified reads. */
  method FetchExtent(v: Volume, m: BtrfsChunk.ChunkMap, inflate: Inflate, e: FileExtent, within: nat,
      take: nat) returns (r: Option<seq<byte>>)
    requires VolumeOk(v) && MapOk(m.chunks) && e.bytenr < U64_LIMIT
    ensures r == ReadExtent(SourceOf(v, m.chunks, inflate), e, within, take)
  {
    hide Read, Flat, WellFormed, BtrfsWalk.Apart, MapOk, ByteOf;
    var start := e.offset + within;
    if IsZeros(e) {
      return Some(Zeros(take));
    } else if e.compression != 0 {
      var stored := e.inline;
      if e.kind != Inline {
        var raw := ReadData(v, m, e.bytenr, e.diskBytes);
        if !raw.Data? {
          return None;
        }
        stored := raw.bytes;
      }
      var plain := inflate(e.compression, stored, e.ram);
      return if plain.None? || start + take > |plain.value| then None else Some(plain.value[start..start + take]);
    } else if e.kind == Inline {
      return if start + take > |e.inline| then None else Some(e.inline[start..start + take]);
    }
    if start + take > e.diskBytes || e.bytenr + start >= U64_LIMIT {
      return None;
    }
    var got := ReadData(v, m, e.bytenr + start, take);
    if !got.Data? {
      return None;
    }
    ReadBytes(v, m.chunks, e.bytenr + start, take);
    assert got.bytes == ReadExtent(SourceOf(v, m.chunks, inflate), e, within, take).value;
    r := Some(got.bytes);
  }

  lemma ReadBytes(v: Volume, cs: seq<BtrfsChunk.Chunk>, a: nat, n: nat)
    requires BtrfsCsum.SchemeOk(v.scheme) && Read(v, cs, a, n).Data?
    ensures |Read(v, cs, a, n).bytes| == n
    ensures forall j :: 0 <= j < n ==> Read(v, cs, a, n).bytes[j] == ByteOf(cs, v.disk, a + j)
  {
  }

  /** `read_inode_data`: the bytes the items of a present inode describe, none
      of them from a sector that fails its checksum; where no item precedes the
      range, nothing but zeros. */
  method ReadInodeData(root: Tree, ino: nat, size: nat, offset: nat, len: nat, v: Volume, m: BtrfsChunk.ChunkMap,
      inflate: Inflate)
    returns (r: Result<seq<byte>>)
    requires WellFormed(root) && Apart(Extents(ino), Flat(root)) && ino < U64_LIMIT && size < U64_LIMIT
    requires VolumeOk(v) && MapOk(m.chunks)
    ensures r.Ok? ==> |r.value| == Want(size, offset, len)
    ensures r.Ok? && Reachable(Extents(ino), root, offset) ==>
      && ReadsAs(SourceOf(v, m.chunks, inflate), Flat(root), ino, offset, r.value)
      && AllCertified(v, m.chunks, Flat(root), ino, offset, |r.value|)
    ensures !Reachable(Extents(ino), root, offset) && offset < size ==> r == Ok(Zeros(Want(size, offset, len)))
    ensures AllSound(SourceOf(v, m.chunks, inflate), Flat(root), ino) ==> r.Ok?
  {
    hide Flat, WellFormed, Sorted, Apart, UpTo, Below, Rank, FileByte, ReadsAs, Passed, Parse, AllSound, ReadExtent,
      Beyond, PathOk, Pos, AtItem, ByteIn, Less, Zeros, Reachable, VolumeOk, MapOk, SourceOf, Sound, CoversByte,
      AllCertified, Certified, Backed;
    SchemeIs(v);
    ghost var s, src := Flat(root), SourceOf(v, m.chunks, inflate);
    ReachableIs(Extents(ino), root, offset);
    TreeSorted(root);
    var want := Want(size, offset, len);
    NothingRead(src, v, m.chunks, s, ino, offset);
    if want == 0 {
      assert Zeros(0) == [];
      return Ok([]);
    }
    var found := SearchLe(root, Key(ino, EXTENT_DATA_KEY, offset));
    var c := found.value;
    if !c.Valid() {
      return Ok(Zeros(want));
    }
    StartPassed(Extents(ino), s, offset);
    c.ReadyMeans();
    var buf: seq<byte> := [];
    while |buf| < want
      invariant |buf| <= want && ReadsAs(src, s, ino, offset, buf) && AllCertified(v, m.chunks, s, ino, offset, |buf|)
      invariant c.root == root && c.path != [] && Walking(Extents(ino), c, s, offset + |buf|)
      decreases want - |buf|, |s| - c.At()
    {
      var pos := offset + |buf|;
      if !c.Valid() {
        BeyondEnd(Extents(ino), s, c.At(), offset + want);
        Hole(src, v, m.chunks, s, ino, c.At(), offset, buf, want - |buf|);
        return Ok(buf + Zeros(want - |buf|));
      }
      var key := c.Key();
      ghost var at := c.At();
      if !(key.objectid == ino && key.itemType == EXTENT_DATA_KEY) {
        if Less(key, Key(ino, EXTENT_DATA_KEY, 0)) {
          StepOver(Extents(ino), c, s, pos);
          continue;
        }
        BeyondRun(Extents(ino), s, at, offset + want);
        Hole(src, v, m.chunks, s, ino, at, offset, buf, want - |buf|);
        return Ok(buf + Zeros(want - |buf|));
      }
      var data := c.Data();
      var parsed := Parse(key.offset, data);
      ItemAt(s, at, key, data);
      ParsedAt(src, s, ino, at);
      if parsed.None? {
        return Err;
      }
      var e := parsed.value;
      StartIs(s[at]);
      if e.start > pos {
        var gap := Min(e.start - pos, want - |buf|);
        BeyondFrom(Extents(ino), s, at, pos + gap);
        Hole(src, v, m.chunks, s, ino, at, offset, buf, gap);
        PassedLater(Extents(ino), s, at, pos, pos + gap);
        buf := buf + Zeros(gap);
        continue;
      }
      if End(e) <= pos {
        StepOver(Extents(ino), c, s, pos);
        continue;
      }
      var within := pos - e.start;
      var take := Min(e.num - within, want - |buf|);
      AddressSmall(s[at]);
      SoundAt(src, s, ino, at, within, take);
      var got := FetchExtent(v, m, inflate, e, within, take);
      if got.None? {
        return Err;
      }
      FetchReads(v, m.chunks, inflate, s, ino, at, offset, buf, within, got.value);
      PassedLater(Extents(ino), s, at, pos, pos + take);
      buf := buf + got.value;
      if pos + take >= End(e) {
        StepOver(Extents(ino), c, s, pos + take);
      }
    }
    r := Ok(buf);
  }

  lemma Hole(src: Source, v: Volume, cs: seq<BtrfsChunk.Chunk>, s: seq<Item>, ino: nat, c: nat, offset: nat,
      buf: seq<byte>, n: nat)
    requires BtrfsCsum.SchemeOk(v.scheme) && Passed(Extents(ino), s, c, offset + |buf|)
    requires Beyond(Extents(ino), s, c, offset + |buf| + n)
    requires ReadsAs(src, s, ino, offset, buf) && AllCertified(v, cs, s, ino, offset, |buf|)
    ensures ReadsAs(src, s, ino, offset, buf + Zeros(n)) && AllCertified(v, cs, s, ino, offset, |buf + Zeros(n)|)
  {
    hide ReadsAs, Passed, Beyond, AllCertified;
    GapReads(src, s, ino, c, offset + |buf|, n);
    ReadsMore(src, s, ino, offset, buf, Zeros(n));
    GapCertified(v, cs, s, ino, c, offset + |buf|, n);
    MoreCertified(v, cs, s, ino, offset, |buf|, n);
  }

  lemma FetchReads(
    v: Volume, cs: seq<BtrfsChunk.Chunk>, inflate: Inflate, s: seq<Item>, ino: nat, c: nat, offset: nat, buf: seq<byte>,
    within: nat, got: seq<byte>)
    requires VolumeOk(v) && Apart(Extents(ino), s) && c < |s| && Mine(Extents(ino), s[c]) && ExtentOf(s[c]).Some?
    requires ReadsAs(SourceOf(v, cs, inflate), s, ino, offset, buf) && AllCertified(v, cs, s, ino, offset, |buf|)
    requires
      var e := ExtentOf(s[c]).value;
      && offset + |buf| == e.start + within && within + |got| <= e.num
      && ReadExtent(SourceOf(v, cs, inflate), e, within, |got|) == Some(got)
    ensures ReadsAs(SourceOf(v, cs, inflate), s, ino, offset, buf + got)
    ensures AllCertified(v, cs, s, ino, offset, |buf + got|)
  {
    hide ReadsAs, AllCertified, Apart, Parse, Backed, ReadExtent, SourceOf, Flat, WellFormed;
    var e, src := ExtentOf(s[c]).value, SourceOf(v, cs, inflate);
    AddressSmall(s[c]);
    FetchBacked(v, cs, inflate, e, within, |got|);
    ExtentReads(src, s, ino, c, offset + |buf|, got);
    ReadsMore(src, s, ino, offset, buf, got);
    ExtentCertified(v, cs, s, ino, c, offset + |buf|, |got|);
    MoreCertified(v, cs, s, ino, offset, |buf|, |got|);
  }

  lemma AddressSmall(x: Item)
    ensures ExtentOf(x).Some? ==> ExtentOf(x).value.bytenr < U64_LIMIT
  {
  }

  lemma NothingRead(src: Source, v: Volume, cs: seq<BtrfsChunk.Chunk>, s: seq<Item>, ino: nat, offset: nat)
    requires BtrfsCsum.SchemeOk(v.scheme)
    ensures ReadsAs(src, s, ino, offset, []) && AllCertified(v, cs, s, ino, offset, 0)
  {
  }

  lemma ItemAt(s: seq<Item>, at: nat, key: Key, data: seq<byte>)
    requires at < |s| && s[at].key == key && s[at].data == data
    ensures ExtentOf(s[at]) == Parse(key.offset, data)
  {
  }

  lemma ParsedAt(src: Source, s: seq<Item>, ino: nat, at: nat)
    requires at < |s| && Mine(Extents(ino), s[at])
    ensures AllSound(src, s, ino) ==> ExtentOf(s[at]).Some?
  {
    hide Parse, ReadExtent;
  }

  lemma SoundAt(src: Source, s: seq<Item>, ino: nat, at: nat, within: nat, take: nat)
    requires at < |s| && Mine(Extents(ino), s[at]) && ExtentOf(s[at]).Some?
    requires within + take <= ExtentOf(s[at]).value.num
    ensures AllSound(src, s, ino) ==> ReadExtent(src, ExtentOf(s[at]).value, within, take).Some?
  {
    hide Parse, ReadExtent;
  }

  /** However a range is split, the parts make up the whole. */
  lemma SplitRead(src: Source, s: seq<Item>, ino: nat, size: nat, offset: nat, a: nat, b: nat, x: seq<byte>,
      y: seq<byte>, z: seq<byte>)
    requires |x| == Want(size, offset, a) && |y| == Want(size, offset + a, b) && |z| == Want(size, offset, a + b)
    requires ReadsAs(src, s, ino, offset, x) && ReadsAs(src, s, ino, offset + a, y) && ReadsAs(src, s, ino, offset, z)
    ensures x + y == z
  {
    hide FileByte;
    forall j | |x| <= j < |z| ensures z[j] == y[j - |x|] {
      assert offset + a + (j - a) == offset + j;
    }
  }
}
