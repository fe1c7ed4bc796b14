/** Verified reads of file data (core/src/fs/btrfs/csum.rs): any byte range,
    widened to whole sectors, translated chunk by chunk and checked against the
    checksum tree. */
module BtrfsData {
  import opened Arith
  import opened Bytes
  import opened BtrfsTree
  import opened BtrfsCursor
  import opened BtrfsWalk
  import opened BtrfsCsum
  import opened BtrfsChunk

  /** The device and the checksum tree, if there is one. */
  datatype Volume = Volume(scheme: Scheme, csums: Option<Tree>, disk: nat -> byte)

  ghost predicate VolumeOk(v: Volume) {
    && SchemeOk(v.scheme)
    && (v.csums.Some? ==> WellFormed(v.csums.value) && BtrfsWalk.Apart(Sums(v.scheme), Flat(v.csums.value)))
  }

  lemma SchemeIs(v: Volume)
    requires VolumeOk(v)
    ensures SchemeOk(v.scheme)
  {
  }

  /** A chunk map `map` can be used on. */
  ghost predicate MapOk(cs: seq<Chunk>) {
    BtrfsChunk.Ordered(cs) && Disjoint(cs) && forall k :: 0 <= k < |cs| ==> 0 < |cs[k].stripes|
  }

  /** The start of the sector a byte lies in. */
  function Down(sector: nat, p: nat): (a: nat)
    requires 0 < sector
    ensures a <= p < a + sector && a % sector == 0
  {
    SectorStart(sector, p);
    p / sector * sector
  }

  lemma SectorStart(sector: nat, p: nat)
    requires 0 < sector
    ensures p / sector * sector <= p < p / sector * sector + sector && p / sector * sector % sector == 0
    ensures p % sector == p - p / sector * sector
  {
    assert p == p / sector * sector + p % sector;
    DivModUnique(p / sector, 0, sector);
  }

  /** The first sector boundary at or after `p`. */
  function Up(sector: nat, p: nat): (b: nat)
    requires 0 < sector
    ensures p <= b < p + sector && b % sector == 0
  {
    SectorStart(sector, p + sector - 1);
    CeilDiv(p, sector) * sector
  }

  /** The byte at a logical address that some chunk contains. */
  ghost function ByteOf(cs: seq<Chunk>, disk: nat -> byte, p: nat): byte {
    if exists i :: 0 <= i < |cs| && Holds(cs[i], p) then
      var i :| 0 <= i < |cs| && Holds(cs[i], p);
      disk(Physical(cs[i], p))
    else 0
  }

  ghost function BytesOf(cs: seq<Chunk>, disk: nat -> byte, a: nat, n: nat): (s: seq<byte>)
    ensures |s| == n && forall j :: 0 <= j < n ==> s[j] == ByteOf(cs, disk, a + j)
  {
    seq<byte>(n, j requires 0 <= j => ByteOf(cs, disk, a + j))
  }

  /** A read of `n` bytes from `a` on meets no address it cannot translate. */
  ghost predicate Reached(cs: seq<Chunk>, a: nat, n: nat) {
    forall p :: a <= p < a + n ==> !Stuck(cs, a, p)
  }

  lemma ByteIs(cs: seq<Chunk>, disk: nat -> byte, p: nat, b: byte)
    requires Disjoint(cs) && ByteAt(cs, disk, p, b)
    ensures b == ByteOf(cs, disk, p)
  {
    hide Disjoint, Physical;
    var i :| 0 <= i < |cs| && Holds(cs[i], p) && b == disk(Physical(cs[i], p));
    var k :| 0 <= k < |cs| && Holds(cs[k], p) && ByteOf(cs, disk, p) == disk(Physical(cs[k], p));
    OneChunk(cs, p, i, k);
  }

  lemma BytesAre(cs: seq<Chunk>, disk: nat -> byte, a: nat, s: seq<byte>)
    requires Disjoint(cs) && forall j :: 0 <= j < |s| ==> ByteAt(cs, disk, a + j, s[j])
    ensures s == BytesOf(cs, disk, a, |s|)
  {
    hide Disjoint, ByteAt, ByteOf;
    forall j | 0 <= j < |s| ensures s[j] == ByteOf(cs, disk, a + j) { ByteIs(cs, disk, a + j, s[j]); }
  }

  /** The length of the whole sectors around `len` bytes from `logical` on. */
  function Span(sector: nat, logical: nat, len: nat): nat
    requires 0 < sector
  {
    Up(sector, logical + len) - Down(sector, logical)
  }

  /** A sector of the data from `a` on has a checksum that is not its own. */
  ghost predicate RottenIn(q: Scheme, s: seq<Item>, a: nat, data: seq<byte>)
    requires SchemeOk(q)
  {
    exists k :: 0 <= k < |data| / q.sector && k * q.sector + q.sector <= |data| && Bad(q, s, a, data, k)
  }

  /** Checking the data finds one. */
  ghost predicate Rotten(v: Volume, a: nat, data: seq<byte>)
    requires SchemeOk(v.scheme)
  {
    v.csums.Some? && Reachable(Sums(v.scheme), v.csums.value, a) && RottenIn(v.scheme, Flat(v.csums.value), a, data)
  }

  /** How many of `n` sectors from `a` on go unchecked. */
  ghost function Missing(v: Volume, a: nat, n: nat): nat
    requires SchemeOk(v.scheme) && v.csums.Some?
  {
    if Reachable(Sums(v.scheme), v.csums.value, a) then Unchecked(v.scheme, Flat(v.csums.value), a, n) else n
  }

  ghost function Coverage(v: Volume, a: nat, n: nat): Verified
    requires SchemeOk(v.scheme)
  {
    if v.csums.None? then NoChecksumTree else if Missing(v, a, n) == 0 then All else Partial(Missing(v, a, n))
  }

  datatype Data = Data(bytes: seq<byte>, verified: Verified) | Unmapped | Mismatched

  /** What reading `n` bytes in whole sectors from `a` on comes to. */
  ghost function Sectors(v: Volume, cs: seq<Chunk>, a: nat, n: nat): Data
    requires SchemeOk(v.scheme)
  {
    var data := BytesOf(cs, v.disk, a, n);
    if !Reached(cs, a, n) then Unmapped
    else if Rotten(v, a, data) then Mismatched
    else Data(data, Coverage(v, a, n / v.scheme.sector))
  }

  /** The range's bytes, if the sectors around it can be read. */
  ghost function Read(v: Volume, cs: seq<Chunk>, logical: nat, len: nat): (r: Data)
    requires SchemeOk(v.scheme)
    ensures r.Data? ==> |r.bytes| == len
  {
    var a, n := Down(v.scheme.sector, logical), Span(v.scheme.sector, logical, len);
    match Sectors(v, cs, a, n)
    case Data(_, c) => Data(BytesOf(cs, v.disk, logical, len), c)
    case x => x
  }

  /** Reading and checking whole sectors. */
  method ReadSectors(v: Volume, m: ChunkMap, a: nat, n: nat) returns (r: Data)
    requires VolumeOk(v) && MapOk(m.chunks) && a < U64_LIMIT && a % v.scheme.sector == 0 && n % v.scheme.sector == 0
    ensures r == Sectors(v, m.chunks, a, n)
  {
    hide Flat, WellFormed, BtrfsWalk.Apart, BtrfsChunk.Ordered, Disjoint, Stuck, ByteAt, ByteOf, BytesOf, Reachable,
      Bad, Unchecked, RottenIn;
    var data := ReadLogical(m, v.disk, a, n);
    if data.None? {
      return Unmapped;
    }
    BytesAre(m.chunks, v.disk, a, data.value);
    var checked := VerifyData(v.scheme, v.csums, a, data.value);
    if v.csums.Some? && Reachable(Sums(v.scheme), v.csums.value, a) {
      FoundRot(v.scheme, Flat(v.csums.value), a, data.value);
    }
    SomeSectors(n, v.scheme.sector);
    if checked == Mismatch {
      return Mismatched;
    }
    r := Data(data.value, checked.value);
  }

  /** `read_data`: the device's bytes at those addresses, unless an address of
      the sectors around them has none or a sector fails its checksum. */
  method ReadData(v: Volume, m: ChunkMap, logical: nat, len: nat) returns (r: Data)
    requires VolumeOk(v) && MapOk(m.chunks) && logical < U64_LIMIT
    ensures r == Read(v, m.chunks, logical, len)
  {
    hide Flat, WellFormed, BtrfsWalk.Apart, MapOk, ByteOf, BytesOf, Rotten, Reached, Coverage, Down, Up;
    var sector := v.scheme.sector;
    var a, b := Down(sector, logical), Up(sector, logical + len);
    WholeSpan(sector, a, b);
    if a == logical && b == logical + len {
      r := ReadSectors(v, m, logical, len);
      return;
    }
    r := ReadSectors(v, m, a, b - a);
    Cut(m.chunks, v.disk, a, b - a, logical, len);
    if r.Data? {
      r := Data(r.bytes[logical - a..logical - a + len], r.verified);
    }
  }

  /** The sector at `p` has no checksum, or has its own. */
  ghost predicate Vouched(v: Volume, cs: seq<Chunk>, p: nat)
    requires SchemeOk(v.scheme)
  {
    var a := Down(v.scheme.sector, p);
    v.csums.Some? && Lookup(v.scheme, Flat(v.csums.value), a).Some? ==>
      v.scheme.matches(Lookup(v.scheme, Flat(v.csums.value), a).value, BytesOf(cs, v.disk, a, v.scheme.sector))
  }

  /** A read whose addresses can all be reached fails exactly when one of its
      sectors fails its checksum and the checksum tree has a key at or below the
      first sector. */
  lemma ReadVouches(v: Volume, cs: seq<Chunk>, logical: nat, len: nat)
    requires SchemeOk(v.scheme) && Reached(cs, Down(v.scheme.sector, logical), Span(v.scheme.sector, logical, len))
    ensures
      var a, n := Down(v.scheme.sector, logical), Span(v.scheme.sector, logical, len);
      Read(v, cs, logical, len).Mismatched? <==>
        v.csums.Some? && Reachable(Sums(v.scheme), v.csums.value, a) && exists p :: a <= p < a + n && !Vouched(v, cs, p)
  {
    hide Flat, Reachable, Lookup, BytesOf, Coverage, Reached, Vouched, Bad, Down, Up;
    if v.csums.Some? {
      var sector := v.scheme.sector;
      var a, n := Down(sector, logical), Span(sector, logical, len);
      var s, data := Flat(v.csums.value), BytesOf(cs, v.disk, a, n);
      forall k | 0 <= k < n / sector && k * sector + sector <= n
        ensures Bad(v.scheme, s, a, data, k) <==> !Vouched(v, cs, a + k * sector)
      {
        BadSector(v, cs, a, n, k, a + k * sector);
      }
      forall p | a <= p < a + n && !Vouched(v, cs, p) ensures RottenIn(v.scheme, s, a, data) {
        var k := SectorOf(sector, a, a + n, p);
        BadSector(v, cs, a, n, k, p);
      }
      if RottenIn(v.scheme, s, a, data) {
        var k :| 0 <= k < n / sector && k * sector + sector <= n && Bad(v.scheme, s, a, data, k);
        assert !Vouched(v, cs, a + k * sector);
      }
    }
  }

  /** Sector `k` is bad exactly if no byte of it is vouched for. */
  lemma BadSector(v: Volume, cs: seq<Chunk>, a: nat, n: nat, k: nat, p: nat)
    requires SchemeOk(v.scheme) && v.csums.Some? && a % v.scheme.sector == 0
    requires k * v.scheme.sector + v.scheme.sector <= n
    requires a + k * v.scheme.sector <= p < a + k * v.scheme.sector + v.scheme.sector
    ensures Bad(v.scheme, Flat(v.csums.value), a, BytesOf(cs, v.disk, a, n), k) <==> !Vouched(v, cs, p)
  {
    hide Flat, Lookup, BytesOf, Down;
    var sector := v.scheme.sector;
    InSector(sector, a, k, p);
    Cut(cs, v.disk, a, n, a + k * sector, sector);
  }

  lemma InSector(sector: nat, a: nat, k: nat, p: nat)
    requires 0 < sector && a % sector == 0 && a + k * sector <= p < a + k * sector + sector
    ensures Down(sector, p) == a + k * sector
  {
    var q := a / sector;
    assert a == q * sector;
    Distribute(q, k, sector);
    DivModUnique(q + k, p - (a + k * sector), sector);
  }

  /** No byte comes back from a sector that fails its checksum then. */
  lemma BytesVouched(v: Volume, cs: seq<Chunk>, logical: nat, len: nat, p: nat)
    requires SchemeOk(v.scheme) && logical <= p < logical + len && Read(v, cs, logical, len).Data?
    requires v.csums.Some? ==> Reachable(Sums(v.scheme), v.csums.value, Down(v.scheme.sector, logical))
    ensures Vouched(v, cs, p)
  {
    if v.csums.Some? {
      hide Reachable, Vouched, Reached, Down, Up, Rotten, Coverage;
      ReadVouches(v, cs, logical, len);
      assert Down(v.scheme.sector, logical) <= p < Down(v.scheme.sector, logical) + Span(v.scheme.sector, logical, len);
    }
  }

  /** A checksum tree whose first key lies behind the first sector read: the
      second sector has a checksum that never matches, and comes back. */
  lemma RotComesBack()
    ensures
      var x := Item(Key(EXTENT_CSUM_OBJECTID, EXTENT_CSUM_KEY, 1), [0]);
      var v := Volume(Scheme(1, 1, (_, _) => false), Some(Leaf([x])), _ => 0);
      var cs := [Chunk(0, 4, 0, 0, 0, 0, 0, 0, 0, [Stripe(0, 0, seq(16, _ => 0))])];
      VolumeOk(v) && MapOk(cs) && Read(v, cs, 0, 2).Data? && !Vouched(v, cs, 1)
  {
    var x := Item(Key(EXTENT_CSUM_OBJECTID, EXTENT_CSUM_KEY, 1), [0]);
    var v := Volume(Scheme(1, 1, (_, _) => false), Some(Leaf([x])), _ => 0);
    var cs := [Chunk(0, 4, 0, 0, 0, 0, 0, 0, 0, [Stripe(0, 0, seq(16, _ => 0))])];
    var s := [x];
    assert Flat(v.csums.value) == s;
    assert Down(1, 0) == 0 && Span(1, 0, 2) == 2 && Down(1, 1) == 1;
    assert UpTo(s, Key(EXTENT_CSUM_OBJECTID, EXTENT_CSUM_KEY, 0)) == 0;
    assert CoversAt(v.scheme, s[0], 1);
    forall p | 0 <= p < 2 ensures !Stuck(cs, 0, p) {
      assert Holds(cs[0], p) && Physical(cs[0], Max(0, cs[0].logical)) == 0;
    }
  }

  /** Which of the sectors from `a` to `b` a byte lies in. */
  lemma SectorOf(sector: nat, a: nat, b: nat, p: nat) returns (k: nat)
    requires 0 < sector && a % sector == 0 && b % sector == 0 && a <= p < b
    ensures a + k * sector <= p < a + k * sector + sector && k < (b - a) / sector && k * sector + sector <= b - a
  {
    hide Down;
    var c := Down(sector, p);
    Tiles(sector, a, c);
    k := (c - a) / sector;
    Tiles(sector, c, b);
    WholeSpan(sector, a, b);
    var w := (b - a) / sector;
    assert b - a == w * sector;
    if w <= k {
      MulMono(w, k, sector);
      assert false;
    }
  }

  lemma DownMono(sector: nat, a: nat, b: nat)
    requires 0 < sector && a <= b
    ensures Down(sector, a) <= Down(sector, b)
  {
    hide Down;
    Tiles(sector, Down(sector, a), Down(sector, b));
  }

  /** Two boundaries, the second not a whole sector before the first. */
  lemma Tiles(sector: nat, a: nat, b: nat)
    requires 0 < sector && a % sector == 0 && b % sector == 0 && a < b + sector
    ensures a <= b && b == a + (b - a) / sector * sector && (a < b ==> a + sector <= b)
  {
    var i, j := a / sector, b / sector;
    assert a == i * sector && b == j * sector;
    assert b + sector == (j + 1) * sector;
    if j + 1 <= i {
      MulMono(j + 1, i, sector);
      assert false;
    }
    MulMono(i, j, sector);
    WholeSpan(sector, a, b);
    if i < j { Steps(i, j, sector); }
  }

  lemma WholeSpan(sector: nat, a: nat, b: nat)
    requires 0 < sector && a <= b && a % sector == 0 && b % sector == 0
    ensures (b - a) % sector == 0
  {
    var i, j := a / sector, b / sector;
    assert a == i * sector && b == j * sector;
    if j < i {
      Steps(j, i, sector);
      assert false;
    }
    assert b - a == (j - i) * sector;
    DivModUnique(j - i, 0, sector);
  }

  lemma FoundRot(q: Scheme, s: seq<Item>, a: nat, data: seq<byte>)
    requires SchemeOk(q) && Whole(q, data, |data| / q.sector)
    ensures RottenIn(q, s, a, data) <==> exists k :: 0 <= k < |data| / q.sector && Bad(q, s, a, data, k)
  {
    hide Bad;
  }

  lemma Cut(cs: seq<Chunk>, disk: nat -> byte, a: nat, n: nat, logical: nat, len: nat)
    requires a <= logical && logical + len <= a + n
    ensures BytesOf(cs, disk, a, n)[logical - a..logical - a + len] == BytesOf(cs, disk, logical, len)
  {
    hide ByteOf;
    var x, y := BytesOf(cs, disk, a, n)[logical - a..logical - a + len], BytesOf(cs, disk, logical, len);
    forall j | 0 <= j < len ensures x[j] == y[j] {
      assert a + (logical - a + j) == logical + j;
    }
  }
}
