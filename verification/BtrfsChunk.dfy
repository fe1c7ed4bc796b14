/** The chunk map of btrfs (core/src/fs/btrfs/chunk.rs): chunk items as bytes,
    the sorted map built from them, and logical to physical translation. */
module BtrfsChunk {
  import opened Arith
  import opened Bytes

  const CHUNK_ITEM_HEAD: nat := 48
  const STRIPE_SIZE: nat := 32
  const KEY_SIZE: nat := 17
  const FIRST_CHUNK_TREE_OBJECTID: nat := 256
  const CHUNK_ITEM_KEY: nat := 228

  datatype Stripe = Stripe(devid: nat, offset: nat, uuid: seq<byte>)

  datatype Chunk = Chunk(
    logical: nat, length: nat, owner: nat, stripeLen: nat, kind: nat,
    ioAlign: nat, ioWidth: nat, sectorSize: nat, subStripes: nat, stripes: seq<Stripe>)

  /** An interleaving profile: RAID0, RAID10, RAID5 or RAID6. */
  predicate Striped(kind: nat) {
    kind / 0x8 % 2 == 1 || kind / 0x40 % 2 == 1 || kind / 0x80 % 2 == 1 || kind / 0x100 % 2 == 1
  }

  predicate StripeOk(s: Stripe) { s.devid < U64_LIMIT && s.offset < U64_LIMIT && |s.uuid| == 16 }

  /** A chunk the reader accepts and the writer can emit. */
  predicate ChunkOk(c: Chunk) {
    && 0 < c.length && c.logical + c.length < U64_LIMIT && c.owner < U64_LIMIT && c.stripeLen < U64_LIMIT
    && c.kind < U64_LIMIT
    && c.ioAlign < U32_LIMIT && c.ioWidth < U32_LIMIT && c.sectorSize < U32_LIMIT && c.subStripes < U16_LIMIT
    && 0 < |c.stripes| < U16_LIMIT && (forall i :: 0 <= i < |c.stripes| ==> StripeOk(c.stripes[i])) && !Striped(c.kind)
  }

  // ----- bytes -----

  function EmitStripe(s: Stripe): seq<byte> { Le64(s.devid) + Le64(s.offset) + s.uuid }

  function EmitStripes(ss: seq<Stripe>): seq<byte> {
    if ss == [] then [] else EmitStripes(ss[..|ss| - 1]) + EmitStripe(ss[|ss| - 1])
  }

  /** The fixed part of a chunk item. */
  function EmitHead(c: Chunk): (b: seq<byte>)
    ensures |b| == CHUNK_ITEM_HEAD
  {
    Le64(c.length) + Le64(c.owner) + Le64(c.stripeLen) + Le64(c.kind)
    + Le32(c.ioAlign) + Le32(c.ioWidth) + Le32(c.sectorSize) + Le16(|c.stripes|) + Le16(c.subStripes)
  }

  /** `emit`: the item's data. */
  function Emit(c: Chunk): seq<byte> { EmitHead(c) + EmitStripes(c.stripes) }

  function StripeAt(d: seq<byte>, i: nat): Stripe
    requires CHUNK_ITEM_HEAD + i * STRIPE_SIZE + STRIPE_SIZE <= |d|
  {
    var at := CHUNK_ITEM_HEAD + i * STRIPE_SIZE;
    Stripe(U64(d, at), U64(d, at + 8), d[at + 16..at + 32])
  }

  /** `parse`: the chunk at `logical` described by the item's data. */
  function Parse(logical: nat, d: seq<byte>): Option<Chunk> {
    if |d| < CHUNK_ITEM_HEAD then None
    else
      var n := U16(d, 44);
      if n == 0 || |d| < CHUNK_ITEM_HEAD + n * STRIPE_SIZE || U64(d, 0) == 0 || logical + U64(d, 0) >= U64_LIMIT
         || Striped(U64(d, 24))
      then None
      else
        Some(Chunk(logical, U64(d, 0), U64(d, 8), U64(d, 16), U64(d, 24),
                   U32(d, 32), U32(d, 36), U32(d, 40), U16(d, 46),
                   seq(n, i requires 0 <= i < n => StripeAt(d, i))))
  }

  lemma Sub(x: seq<byte>, a: nat, b: nat, v: seq<byte>, d: seq<byte>)
    requires a <= b <= |x| <= |d| && d[..|x|] == x && x[a..b] == v
    ensures d[a..b] == v
  {
    assert d[a..b] == d[..|x|][a..b];
  }

  /** Where the fields of the fixed part lie. */
  lemma HeadFields(c: Chunk)
    ensures
      var b := EmitHead(c);
      && b[0..8] == Le64(c.length) && b[8..16] == Le64(c.owner) && b[16..24] == Le64(c.stripeLen)
      && b[24..32] == Le64(c.kind)
      && b[32..36] == Le32(c.ioAlign) && b[36..40] == Le32(c.ioWidth) && b[40..44] == Le32(c.sectorSize)
      && b[44..46] == Le16(|c.stripes|) && b[46..48] == Le16(c.subStripes)
  {
    hide Le64, Le32, Le16;
    var l, o, s, k := Le64(c.length), Le64(c.owner), Le64(c.stripeLen), Le64(c.kind);
    var a, w, z, n, u := Le32(c.ioAlign), Le32(c.ioWidth), Le32(c.sectorSize), Le16(|c.stripes|), Le16(c.subStripes);
    var b := l + o + s + k + a + w + z + n + u;
    assert b[0..8] == l && b[8..16] == o && b[16..24] == s && b[24..32] == k;
    assert b[32..36] == a && b[36..40] == w && b[40..44] == z && b[44..46] == n && b[46..48] == u;
  }

  lemma HeadReads(c: Chunk, d: seq<byte>)
    requires ChunkOk(c) && CHUNK_ITEM_HEAD <= |d| && d[..CHUNK_ITEM_HEAD] == EmitHead(c)
    ensures U64(d, 0) == c.length && U64(d, 8) == c.owner && U64(d, 16) == c.stripeLen && U64(d, 24) == c.kind
    ensures U32(d, 32) == c.ioAlign && U32(d, 36) == c.ioWidth && U32(d, 40) == c.sectorSize
    ensures U16(d, 44) == |c.stripes| && U16(d, 46) == c.subStripes
  {
    hide Le64, Le32, Le16, U64, U32, U16, EmitHead;
    var b := EmitHead(c);
    HeadFields(c);
    Sub(b, 0, 8, Le64(c.length), d);
    Sub(b, 8, 16, Le64(c.owner), d);
    Sub(b, 16, 24, Le64(c.stripeLen), d);
    Sub(b, 24, 32, Le64(c.kind), d);
    Sub(b, 32, 36, Le32(c.ioAlign), d);
    Sub(b, 36, 40, Le32(c.ioWidth), d);
    Sub(b, 40, 44, Le32(c.sectorSize), d);
    Sub(b, 44, 46, Le16(|c.stripes|), d);
    Sub(b, 46, 48, Le16(c.subStripes), d);
    Le64RoundTrip(d, 0, c.length);
    Le64RoundTrip(d, 8, c.owner);
    Le64RoundTrip(d, 16, c.stripeLen);
    Le64RoundTrip(d, 24, c.kind);
    Le32RoundTrip(d, 32, c.ioAlign);
    Le32RoundTrip(d, 36, c.ioWidth);
    Le32RoundTrip(d, 40, c.sectorSize);
    Le16RoundTrip(d, 44, |c.stripes|);
    Le16RoundTrip(d, 46, c.subStripes);
  }

  lemma {:induction false} StripesLen(ss: seq<Stripe>)
    requires forall i :: 0 <= i < |ss| ==> StripeOk(ss[i])
    ensures |EmitStripes(ss)| == |ss| * STRIPE_SIZE
  {
    if ss != [] { StripesLen(ss[..|ss| - 1]); }
  }

  lemma {:induction false} StripeSlice(ss: seq<Stripe>, i: nat)
    requires (forall k :: 0 <= k < |ss| ==> StripeOk(ss[k])) && i < |ss|
    ensures |EmitStripes(ss)| == |ss| * STRIPE_SIZE
    ensures EmitStripes(ss)[i * STRIPE_SIZE..i * STRIPE_SIZE + STRIPE_SIZE] == EmitStripe(ss[i])
  {
    hide EmitStripe;
    StripesLen(ss);
    var p := ss[..|ss| - 1];
    StripesLen(p);
    if i < |p| {
      StripeSlice(p, i);
      var a := i * STRIPE_SIZE;
      assert EmitStripes(ss)[a..a + STRIPE_SIZE] == EmitStripes(p)[a..a + STRIPE_SIZE];
    }
  }

  lemma StripeReads(s: Stripe, d: seq<byte>, at: nat)
    requires StripeOk(s) && at + STRIPE_SIZE <= |d| && d[at..at + STRIPE_SIZE] == EmitStripe(s)
    ensures U64(d, at) == s.devid && U64(d, at + 8) == s.offset && d[at + 16..at + 32] == s.uuid
  {
    hide Le64, U64;
    var b := EmitStripe(s);
    assert d[at..at + 8] == b[0..8] == Le64(s.devid);
    assert d[at + 8..at + 16] == b[8..16] == Le64(s.offset);
    assert d[at + 16..at + 32] == b[16..32] == s.uuid;
    Le64RoundTrip(d, at, s.devid);
    Le64RoundTrip(d, at + 8, s.offset);
  }

  /** What is emitted is parsed back, whatever follows it. */
  lemma ParseEmit(c: Chunk, rest: seq<byte>)
    requires ChunkOk(c)
    ensures |Emit(c)| == CHUNK_ITEM_HEAD + |c.stripes| * STRIPE_SIZE && Parse(c.logical, Emit(c) + rest) == Some(c)
  {
    hide EmitHead, EmitStripes, EmitStripe, U64, U32, U16, Striped;
    var d, n := Emit(c) + rest, |c.stripes|;
    StripesLen(c.stripes);
    assert d[..CHUNK_ITEM_HEAD] == EmitHead(c);
    HeadReads(c, d);
    var got := seq(n, i requires 0 <= i < n => StripeAt(d, i));
    forall i | 0 <= i < n ensures got[i] == c.stripes[i] {
      var at := CHUNK_ITEM_HEAD + i * STRIPE_SIZE;
      StripeSlice(c.stripes, i);
      assert d[at..at + STRIPE_SIZE] == EmitStripes(c.stripes)[i * STRIPE_SIZE..i * STRIPE_SIZE + STRIPE_SIZE];
      StripeReads(c.stripes[i], d, at);
    }
    assert got == c.stripes;
  }

  lemma HeadOf(c: Chunk, d: seq<byte>)
    requires CHUNK_ITEM_HEAD <= |d| && Parse(c.logical, d) == Some(c)
    ensures d[..CHUNK_ITEM_HEAD] == EmitHead(c)
  {
    hide Le64, Le32, Le16, U64, U32, U16, Striped;
    Le64Of(d, 0);
    Le64Of(d, 8);
    Le64Of(d, 16);
    Le64Of(d, 24);
    Le32Of(d, 32);
    Le32Of(d, 36);
    Le32Of(d, 40);
    Le16Of(d, 44);
    Le16Of(d, 46);
    assert d[..48] == d[0..8] + d[8..16] + d[16..24] + d[24..32]
                      + d[32..36] + d[36..40] + d[40..44] + d[44..46] + d[46..48];
  }

  lemma StripeOf(d: seq<byte>, i: nat)
    requires CHUNK_ITEM_HEAD + i * STRIPE_SIZE + STRIPE_SIZE <= |d|
    ensures
      var at := CHUNK_ITEM_HEAD + i * STRIPE_SIZE;
      StripeOk(StripeAt(d, i)) && d[at..at + STRIPE_SIZE] == EmitStripe(StripeAt(d, i))
  {
    hide Le64, U64;
    var at := CHUNK_ITEM_HEAD + i * STRIPE_SIZE;
    Le64Of(d, at);
    Le64Of(d, at + 8);
    assert d[at..at + 32] == d[at..at + 8] + d[at + 8..at + 16] + d[at + 16..at + 32];
  }

  lemma {:induction false} StripesOf(d: seq<byte>, ss: seq<Stripe>)
    requires CHUNK_ITEM_HEAD + |ss| * STRIPE_SIZE <= |d| && forall i :: 0 <= i < |ss| ==> ss[i] == StripeAt(d, i)
    ensures d[CHUNK_ITEM_HEAD..CHUNK_ITEM_HEAD + |ss| * STRIPE_SIZE] == EmitStripes(ss)
  {
    hide StripeAt, EmitStripe, StripeOk;
    var h := CHUNK_ITEM_HEAD;
    if ss == [] {
      assert d[h..h] == [];
    } else {
      var n := |ss| - 1;
      StripesOf(d, ss[..n]);
      StripeOf(d, n);
      var at := h + n * STRIPE_SIZE;
      assert d[h..at + STRIPE_SIZE] == d[h..at] + d[at..at + STRIPE_SIZE];
    }
  }

  /** What is parsed is the item that would be emitted. */
  lemma EmitParse(logical: nat, d: seq<byte>)
    requires Parse(logical, d).Some?
    ensures
      var c := Parse(logical, d).value;
      var n := CHUNK_ITEM_HEAD + |c.stripes| * STRIPE_SIZE;
      c.logical == logical && ChunkOk(c) && n <= |d| && d[..n] == Emit(c)
  {
    var c := Parse(logical, d).value;
    var h, n := CHUNK_ITEM_HEAD, CHUNK_ITEM_HEAD + |c.stripes| * STRIPE_SIZE;
    assert forall i :: 0 <= i < |c.stripes| ==> c.stripes[i] == StripeAt(d, i);
    hide StripeAt, U64, U32, U16, Striped, EmitHead, EmitStripes, StripeOk;
    HeadOf(c, d);
    StripesOf(d, c.stripes);
    assert d[..n] == d[..h] + d[h..n];
    forall i | 0 <= i < |c.stripes| ensures StripeOk(c.stripes[i]) { StripeOf(d, i); }
  }

  // ----- the map -----

  ghost predicate Ordered(cs: seq<Chunk>) {
    forall i, j :: 0 <= i < j < |cs| ==> cs[i].logical < cs[j].logical
  }

  /** Chunks do not overlap. */
  ghost predicate Disjoint(cs: seq<Chunk>) {
    forall i, j :: 0 <= i < j < |cs| ==> cs[i].logical + cs[i].length <= cs[j].logical
  }

  /** The map after adding a chunk: in its place, over one with its address. */
  function Inserted(cs: seq<Chunk>, c: Chunk): seq<Chunk> {
    if cs == [] || c.logical < cs[0].logical then [c] + cs
    else if c.logical == cs[0].logical then [c] + cs[1..]
    else [cs[0]] + Inserted(cs[1..], c)
  }

  function InsertAll(cs: seq<Chunk>, more: seq<Chunk>): seq<Chunk> {
    if more == [] then cs else Inserted(InsertAll(cs, more[..|more| - 1]), more[|more| - 1])
  }

  /** Adding a chunk keeps the map sorted, adds it, and drops nothing but a
      chunk with its address. */
  lemma {:induction false} InsertedOrdered(cs: seq<Chunk>, c: Chunk)
    requires Ordered(cs)
    ensures Ordered(Inserted(cs, c))
    ensures forall x :: x in Inserted(cs, c) <==> x == c || (x in cs && x.logical != c.logical)
  {
    if cs != [] {
      var h, t := cs[0], cs[1..];
      TailOrdered(cs);
      if c.logical > h.logical {
        InsertedOrdered(t, c);
        HeadOrdered(h, Inserted(t, c));
      } else if c.logical == h.logical {
        HeadOrdered(c, t);
      } else {
        HeadOrdered(c, cs);
      }
    }
  }

  lemma TailOrdered(cs: seq<Chunk>)
    requires Ordered(cs) && cs != []
    ensures Ordered(cs[1..]) && (forall x :: x in cs[1..] ==> cs[0].logical < x.logical)
    ensures forall x :: x in cs <==> x == cs[0] || x in cs[1..]
  {
    assert cs == [cs[0]] + cs[1..];
  }

  lemma HeadOrdered(h: Chunk, t: seq<Chunk>)
    requires Ordered(t) && forall x :: x in t ==> h.logical < x.logical
    ensures Ordered([h] + t)
  {
    forall i, j | 0 <= i < j < |[h] + t| ensures ([h] + t)[i].logical < ([h] + t)[j].logical {
      assert t[j - 1] in t;
    }
  }

  /** `x` is the last of `more` with its address. */
  ghost predicate LastOf(more: seq<Chunk>, x: Chunk) {
    exists i :: 0 <= i < |more| && more[i] == x && forall j :: i < j < |more| ==> more[j].logical != x.logical
  }

  ghost predicate Displaced(more: seq<Chunk>, x: Chunk) {
    exists i :: 0 <= i < |more| && more[i].logical == x.logical
  }

  /** Adding chunks one after another keeps the last one for each address. */
  lemma {:induction false} InsertAllOrdered(cs: seq<Chunk>, more: seq<Chunk>)
    requires Ordered(cs)
    ensures Ordered(InsertAll(cs, more))
    ensures forall x :: x in InsertAll(cs, more) <==> LastOf(more, x) || (x in cs && !Displaced(more, x))
  {
    hide Ordered, LastOf, Displaced, Inserted;
    if more != [] {
      var p, c := more[..|more| - 1], more[|more| - 1];
      InsertAllOrdered(cs, p);
      InsertedOrdered(InsertAll(cs, p), c);
      forall x ensures LastOf(more, x) <==> x == c || (LastOf(p, x) && x.logical != c.logical) { LastStep(more, x); }
      forall x ensures Displaced(more, x) <==> x.logical == c.logical || Displaced(p, x) { DisplacedStep(more, x); }
    } else {
      forall x ensures !LastOf(more, x) && !Displaced(more, x) { NoneLast(x); }
    }
  }

  lemma NoneLast(x: Chunk)
    ensures !LastOf([], x) && !Displaced([], x)
  {
  }

  lemma LastStep(more: seq<Chunk>, x: Chunk)
    requires more != []
    ensures
      var p, c := more[..|more| - 1], more[|more| - 1];
      LastOf(more, x) <==> x == c || (LastOf(p, x) && x.logical != c.logical)
  {
    var n := |more| - 1;
    var p, c := more[..n], more[n];
    assert forall i :: 0 <= i < n ==> p[i] == more[i];
    if x == c {
      assert more[n] == x;
    }
    if LastOf(p, x) && x.logical != c.logical {
      var i :| 0 <= i < |p| && p[i] == x && forall j :: i < j < |p| ==> p[j].logical != x.logical;
      assert more[i] == x && forall j :: i < j < |more| ==> more[j].logical != x.logical;
    }
    if LastOf(more, x) && x != c {
      var i :| 0 <= i < |more| && more[i] == x && forall j :: i < j < |more| ==> more[j].logical != x.logical;
      assert p[i] == x && forall j :: i < j < |p| ==> p[j].logical != x.logical;
    }
  }

  lemma DisplacedStep(more: seq<Chunk>, x: Chunk)
    requires more != []
    ensures
      var p, c := more[..|more| - 1], more[|more| - 1];
      Displaced(more, x) <==> x.logical == c.logical || Displaced(p, x)
  {
    var n := |more| - 1;
    assert forall i :: 0 <= i < n ==> more[..n][i] == more[i];
    assert more[n].logical == x.logical ==> Displaced(more, x);
  }

  /** Inserting at the place a search found is inserting. */
  lemma {:induction false} InsertedAt(cs: seq<Chunk>, c: Chunk, i: nat)
    requires i <= |cs| && (forall k :: 0 <= k < i ==> cs[k].logical < c.logical)
    requires i < |cs| ==> cs[i].logical >= c.logical
    ensures Inserted(cs, c) == cs[..i] + [c] + (if i < |cs| && cs[i].logical == c.logical then cs[i + 1..] else cs[i..])
  {
    if i > 0 {
      var t := cs[1..];
      InsertedAt(t, c, i - 1);
      assert Inserted(cs, c) == [cs[0]] + Inserted(t, c);
      hide Inserted;
      assert cs[..i] == [cs[0]] + t[..i - 1];
      assert t[i - 1..] == cs[i..];
      if i < |cs| { assert t[i - 1] == cs[i] && t[i..] == cs[i + 1..]; }
    } else {
      assert cs[..0] == [] && cs[0..] == cs;
    }
  }

  /** A list that is already sorted is its own map. */
  lemma {:induction false} InsertAllSorted(cs: seq<Chunk>)
    requires Ordered(cs)
    ensures InsertAll([], cs) == cs
  {
    if cs != [] {
      var p, c := cs[..|cs| - 1], cs[|cs| - 1];
      InsertAllSorted(p);
      InsertedAt(p, c, |p|);
      assert cs == p[..|p|] + [c] + p[|p|..];
    }
  }

  class ChunkMap {
    var chunks: seq<Chunk>

    constructor ()
      ensures chunks == []
    {
      chunks := [];
    }

    /** The first chunk at or after `logical`. */
    method Find(logical: nat) returns (i: nat)
      requires Ordered(chunks)
      ensures i <= |chunks| && (forall k :: 0 <= k < i ==> chunks[k].logical < logical)
      ensures forall k :: i <= k < |chunks| ==> chunks[k].logical >= logical
    {
      var lo, hi := 0, |chunks|;
      while lo < hi
        invariant 0 <= lo <= hi <= |chunks|
        invariant forall k :: 0 <= k < lo ==> chunks[k].logical < logical
        invariant forall k :: hi <= k < |chunks| ==> chunks[k].logical >= logical
        decreases hi - lo
      {
        var mid := lo + (hi - lo) / 2;
        if chunks[mid].logical < logical {
          lo := mid + 1;
        } else {
          hi := mid;
        }
      }
      i := lo;
    }

    /** `insert`. */
    method Insert(c: Chunk)
      requires Ordered(chunks)
      modifies this
      ensures Ordered(chunks) && chunks == Inserted(old(chunks), c)
    {
      var i := Find(c.logical);
      InsertedAt(chunks, c, i);
      InsertedOrdered(chunks, c);
      if i < |chunks| && chunks[i].logical == c.logical {
        assert chunks[i := c] == chunks[..i] + [c] + chunks[i + 1..];
        chunks := chunks[i := c];
      } else {
        chunks := chunks[..i] + [c] + chunks[i..];
      }
    }

    /** `bootstrap`: the map of a bare array of keys and chunk items. It takes
        exactly the arrays that some chunks serialise to. */
    method Bootstrap(a: seq<byte>) returns (ok: bool)
      requires chunks == []
      modifies this
      ensures ok <==> exists cs :: cs != [] && ChunksOk(cs) && a == Serialised(cs)
      ensures Ordered(chunks)
      ensures forall cs :: ChunksOk(cs) && a == Serialised(cs) ==> chunks == InsertAll([], cs)
    {
      hide Emit, Inserted, ChunkOk, U64, EmitHead, EmitStripes, Serialised, KeyBytes, Parse, Ordered, ChunksOk, Items,
        InsertAll;
      NoChunks();
      OnlyItems(a);
      var at := 0;
      ghost var done: seq<Chunk> := [];
      assert a[0..] == a;
      InsertNone();
      Prepended(Items(a));
      while at < |a|
        invariant 0 <= at <= |a| && Ordered(chunks)
        invariant Items(a) == Prepend(done, Items(a[at..])) && chunks == InsertAll([], done)
        decreases |a| - at
      {
        FrontItem(a, at);
        if at + KEY_SIZE > |a| {
          return false;
        }
        var objectid, itemType, logical := U64(a, at), a[at + 8], U64(a, at + 9);
        at := at + KEY_SIZE;
        if itemType != CHUNK_ITEM_KEY || objectid != FIRST_CHUNK_TREE_OBJECTID {
          return false;
        }
        var chunk := Parse(logical, a[at..]);
        if chunk.None? {
          return false;
        }
        EmitParse(logical, a[at..]);
        at := at + CHUNK_ITEM_HEAD + |chunk.value.stripes| * STRIPE_SIZE;
        Insert(chunk.value);
        InsertMore(done, chunk.value);
        PrependMore(done, chunk.value, Items(a[at..]));
        done := done + [chunk.value];
      }
      NoItems(a[at..]);
      PrependNone(done);
      NotEmpty([], done);
      ok := |chunks| > 0;
    }

    /** `map`: the chunk containing an address, and how far it runs on. */
    method Map(logical: nat) returns (r: Option<(nat, nat)>)
      requires Ordered(chunks) && forall k :: 0 <= k < |chunks| ==> 0 < |chunks[k].stripes|
      ensures r.Some? ==> exists i :: 0 <= i < |chunks| && Located(chunks[i], logical, r.value.0, r.value.1)
      ensures Disjoint(chunks) ==> (r.None? <==> Unmapped(chunks, logical))
    {
      var i := Find(logical);
      if i < |chunks| && chunks[i].logical == logical {
      } else if i == 0 {
        return None;
      } else {
        i := i - 1;
      }
      var within := logical - chunks[i].logical;
      if within >= chunks[i].length {
        NoOther(chunks, logical, i);
        return None;
      }
      var physical := chunks[i].stripes[0].offset + within;
      if physical >= U64_LIMIT {
        NoOther(chunks, logical, i);
        return None;
      }
      NoOther(chunks, logical, i);
      assert Located(chunks[i], logical, physical, chunks[i].length - within);
      r := Some((physical, chunks[i].length - within));
    }

    /** `map_all_stripes`: every copy's address. */
    method MapAllStripes(logical: nat) returns (r: Option<seq<nat>>)
      requires Ordered(chunks) && forall k :: 0 <= k < |chunks| ==> 0 < |chunks[k].stripes|
      ensures r.Some? ==>
        exists i :: 0 <= i < |chunks| && Holds(chunks[i], logical) && Copies(chunks[i], logical, r.value)
      ensures Disjoint(chunks) ==> (r.None? <==> forall i :: 0 <= i < |chunks| ==> !Reaches(chunks[i], logical))
    {
      var i := Find(logical);
      if i < |chunks| && chunks[i].logical == logical {
      } else if i == 0 {
        return None;
      } else {
        i := i - 1;
      }
      NoOther(chunks, logical, i);
      var within := logical - chunks[i].logical;
      if within >= chunks[i].length {
        return None;
      }
      var out: seq<nat> := [];
      for k := 0 to |chunks[i].stripes|
        invariant |out| == k && forall j :: 0 <= j < k ==> out[j] == chunks[i].stripes[j].offset + within < U64_LIMIT
      {
        var physical := chunks[i].stripes[k].offset + within;
        if physical >= U64_LIMIT {
          return None;
        }
        out := out + [physical];
      }
      assert Copies(chunks[i], logical, out);
      r := Some(out);
    }
  }

  /** The chunk contains the address. */
  predicate Holds(c: Chunk, logical: nat) { c.logical <= logical < c.logical + c.length }

  /** Where the first copy of an address lies. */
  function Physical(c: Chunk, logical: nat): nat
    requires Holds(c, logical)
  {
    (if c.stripes == [] then 0 else c.stripes[0].offset) + (logical - c.logical)
  }

  predicate Located(c: Chunk, logical: nat, physical: nat, run: nat) {
    Holds(c, logical) && physical == Physical(c, logical) < U64_LIMIT && run == c.length - (logical - c.logical)
  }

  /** No chunk gives the address a first copy. */
  ghost predicate Unmapped(cs: seq<Chunk>, logical: nat) {
    forall i :: 0 <= i < |cs| && Holds(cs[i], logical) ==> Physical(cs[i], logical) >= U64_LIMIT
  }

  /** The chunk contains the address and every copy of it can be addressed. */
  predicate Reaches(c: Chunk, logical: nat) {
    Holds(c, logical) && forall k :: 0 <= k < |c.stripes| ==> c.stripes[k].offset + (logical - c.logical) < U64_LIMIT
  }

  predicate Copies(c: Chunk, logical: nat, out: seq<nat>)
    requires Holds(c, logical)
  {
    |out| == |c.stripes| && forall j :: 0 <= j < |out| ==> out[j] == c.stripes[j].offset + (logical - c.logical)
  }

  /** Without overlaps the last chunk at or before an address is the only one
      that could contain it. */
  lemma NoOther(cs: seq<Chunk>, logical: nat, i: nat)
    requires i < |cs| && cs[i].logical <= logical && forall k :: i < k < |cs| ==> cs[k].logical > logical
    ensures Disjoint(cs) ==> forall k :: 0 <= k < |cs| && Holds(cs[k], logical) ==> k == i
  {
  }

  // ----- the bootstrap array -----

  function KeyBytes(logical: nat): (b: seq<byte>)
    ensures |b| == KEY_SIZE
  {
    Le64(FIRST_CHUNK_TREE_OBJECTID) + [CHUNK_ITEM_KEY] + Le64(logical)
  }

  /** Keys and items one after another, with nothing in between. */
  function Serialised(cs: seq<Chunk>): seq<byte> {
    if cs == [] then [] else KeyBytes(cs[0].logical) + (Emit(cs[0]) + Serialised(cs[1..]))
  }

  ghost predicate ChunksOk(cs: seq<Chunk>) {
    forall k :: 0 <= k < |cs| ==> ChunkOk(cs[k])
  }

  /** The array read as keys and items, if that is what it is. */
  function Items(a: seq<byte>): Option<seq<Chunk>> {
    if a == [] then Some([])
    else if |a| < KEY_SIZE || a[8] != CHUNK_ITEM_KEY || U64(a, 0) != FIRST_CHUNK_TREE_OBJECTID then None
    else
      match Parse(U64(a, 9), a[KEY_SIZE..])
      case None => None
      case Some(c) =>
        if KEY_SIZE + ItemSize(c) <= |a| then Prepend([c], Items(a[KEY_SIZE + ItemSize(c)..])) else None
  }

  function ItemSize(c: Chunk): nat { CHUNK_ITEM_HEAD + |c.stripes| * STRIPE_SIZE }

  function Prepend(cs: seq<Chunk>, more: Option<seq<Chunk>>): Option<seq<Chunk>> {
    if more.None? then None else Some(cs + more.value)
  }

  lemma Prepended(x: Option<seq<Chunk>>)
    ensures Prepend([], x) == x
  {
    if x.Some? { assert [] + x.value == x.value; }
  }

  lemma PrependMore(cs: seq<Chunk>, c: Chunk, x: Option<seq<Chunk>>)
    ensures Prepend(cs, Prepend([c], x)) == Prepend(cs + [c], x)
  {
    if x.Some? { assert cs + ([c] + x.value) == cs + [c] + x.value; }
  }

  lemma PrependNone(cs: seq<Chunk>)
    ensures Prepend(cs, Some([])) == Some(cs)
  {
    assert cs + [] == cs;
  }

  lemma NoItems(a: seq<byte>)
    requires a == []
    ensures Items(a) == Some([])
  {
  }

  lemma InsertNone()
    ensures InsertAll([], []) == []
  {
  }

  lemma InsertMore(cs: seq<Chunk>, c: Chunk)
    ensures InsertAll([], cs + [c]) == Inserted(InsertAll([], cs), c)
  {
    assert (cs + [c])[..|cs|] == cs;
  }

  /** The key and item at `at`, as the loop reads them. */
  lemma FrontItem(a: seq<byte>, at: nat)
    requires at < |a|
    ensures
      if at + KEY_SIZE > |a| || a[at + 8] != CHUNK_ITEM_KEY || U64(a, at) != FIRST_CHUNK_TREE_OBJECTID
      then Items(a[at..]) == None
      else
        var x := Parse(U64(a, at + 9), a[at + KEY_SIZE..]);
        if x.None? then Items(a[at..]) == None
        else
          at + KEY_SIZE + ItemSize(x.value) <= |a|
          && Items(a[at..]) == Prepend([x.value], Items(a[at + KEY_SIZE + ItemSize(x.value)..]))
  {
    hide Parse, Prepend, Emit, ChunkOk;
    var b := a[at..];
    if KEY_SIZE <= |b| {
      SameField(a, at, 0);
      SameField(a, at, 9);
      assert b[KEY_SIZE..] == a[at + KEY_SIZE..];
      var x := Parse(U64(b, 9), b[KEY_SIZE..]);
      if x.Some? {
        EmitParse(U64(b, 9), b[KEY_SIZE..]);
        var n := KEY_SIZE + ItemSize(x.value);
        assert n <= |b| && b[n..] == a[at + n..];
      }
    }
  }

  lemma SameField(a: seq<byte>, at: nat, o: nat)
    requires at <= |a| && at + o + 8 <= |a|
    ensures U64(a[at..], o) == U64(a, at + o)
  {
  }

  /** The arrays that can be read are those that chunks serialise to. */
  lemma OnlyItems(a: seq<byte>)
    ensures forall cs :: ChunksOk(cs) && a == Serialised(cs) <==> Items(a) == Some(cs)
  {
    hide Items, ChunksOk, Serialised;
    forall cs ensures ChunksOk(cs) && a == Serialised(cs) <==> Items(a) == Some(cs) {
      if ChunksOk(cs) && a == Serialised(cs) { ItemsSerialised(cs); }
      if Items(a) == Some(cs) { SerialisedItems(a); }
    }
  }

  lemma {:induction false} ItemsSerialised(cs: seq<Chunk>)
    requires ChunksOk(cs)
    ensures Items(Serialised(cs)) == Some(cs)
  {
    hide Emit, KeyBytes, ChunkOk, Parse, U64;
    if cs != [] {
      var c, t := cs[0], cs[1..];
      ItemsSerialised(t);
      hide Items, Serialised;
      ItemFirst(c, Serialised(t));
      assert cs == [c] + t;
    }
  }

  lemma ItemFirst(c: Chunk, rest: seq<byte>)
    requires ChunkOk(c)
    ensures Items(KeyBytes(c.logical) + (Emit(c) + rest)) == Prepend([c], Items(rest))
  {
    var key, b := KeyBytes(c.logical), Emit(c) + rest;
    var a := key + b;
    hide Emit, KeyBytes, ChunkOk, Parse, U64, Prepend;
    ParseEmit(c, rest);
    ChunkSmall(c);
    assert a[0..KEY_SIZE] == key && a[KEY_SIZE..] == b;
    FrontKey(a, 0, c.logical);
    AfterItem(key, Emit(c), rest);
  }

  lemma AfterItem(key: seq<byte>, item: seq<byte>, rest: seq<byte>)
    ensures (key + (item + rest))[|key| + |item|..] == rest
  {
  }

  lemma {:induction false} SerialisedItems(a: seq<byte>)
    requires Items(a).Some?
    ensures ChunksOk(Items(a).value) && a == Serialised(Items(a).value)
    decreases |a|
  {
    hide Emit, KeyBytes, ChunkOk, Parse, U64;
    if a != [] {
      var d := a[KEY_SIZE..];
      var c := Parse(U64(a, 9), d).value;
      var n := ItemSize(c);
      EmitParse(U64(a, 9), d);
      var rest := a[KEY_SIZE + n..];
      SerialisedItems(rest);
      KeyOf(a);
      assert d[n..] == rest && d == d[..n] + d[n..];
      assert a == a[..KEY_SIZE] + d;
      var t := Items(rest).value;
      assert ([c] + t)[0] == c && ([c] + t)[1..] == t;
    }
  }

  lemma KeyOf(a: seq<byte>)
    requires KEY_SIZE <= |a| && a[8] == CHUNK_ITEM_KEY && U64(a, 0) == FIRST_CHUNK_TREE_OBJECTID
    ensures a[..KEY_SIZE] == KeyBytes(U64(a, 9))
  {
    hide Le64, U64;
    Le64Of(a, 0);
    Le64Of(a, 9);
    assert a[..17] == a[0..8] + [a[8]] + a[9..17];
  }

  lemma FrontKey(a: seq<byte>, at: nat, logical: nat)
    requires at + KEY_SIZE <= |a| && a[at..at + KEY_SIZE] == KeyBytes(logical) && logical < U64_LIMIT
    ensures U64(a, at) == FIRST_CHUNK_TREE_OBJECTID && a[at + 8] == CHUNK_ITEM_KEY && U64(a, at + 9) == logical
  {
    hide Le64, U64;
    var k := a[at..at + KEY_SIZE];
    assert a[at..at + 8] == k[..8] == Le64(FIRST_CHUNK_TREE_OBJECTID);
    assert a[at + 8] == k[8];
    assert a[at + 9..at + 17] == k[9..17] == Le64(logical);
    Le64RoundTrip(a, at, FIRST_CHUNK_TREE_OBJECTID);
    Le64RoundTrip(a, at + 9, logical);
  }

  lemma NoChunks()
    ensures Ordered([])
  {
  }

  lemma ChunkSmall(c: Chunk)
    requires ChunkOk(c)
    ensures c.logical < U64_LIMIT
  {
  }

  lemma NotEmpty(cs: seq<Chunk>, more: seq<Chunk>)
    ensures more != [] ==> InsertAll(cs, more) != []
    ensures more == [] ==> InsertAll(cs, more) == cs
  {
  }

  // ----- reading through the map -----

  /** The byte at a logical address, if some chunk contains it. */
  ghost predicate ByteAt(cs: seq<Chunk>, disk: nat -> byte, logical: nat, b: byte) {
    exists i :: 0 <= i < |cs| && Holds(cs[i], logical) && b == disk(Physical(cs[i], logical))
  }

  /** A read from `logical` on cannot reach `p`: no chunk contains `p`, or the
      first address it reads there has no first copy. */
  ghost predicate Stuck(cs: seq<Chunk>, logical: nat, p: nat) {
    forall i :: 0 <= i < |cs| && Holds(cs[i], p) && logical <= p ==>
      Physical(cs[i], Max(logical, cs[i].logical)) >= U64_LIMIT
  }

  /** A read from `logical` has come to the end of a chunk. */
  ghost predicate AtEnd(cs: seq<Chunk>, logical: nat, p: nat) {
    p == logical || (logical < p && exists i :: 0 <= i < |cs| && cs[i].logical + cs[i].length == p && 0 < cs[i].length)
  }

  /** `read_logical`: any range, chunk by chunk, as byte-by-byte translation
      would read it. */
  method ReadLogical(m: ChunkMap, disk: nat -> byte, logical: nat, len: nat) returns (r: Option<seq<byte>>)
    requires Ordered(m.chunks) && forall k :: 0 <= k < |m.chunks| ==> 0 < |m.chunks[k].stripes|
    ensures r.Some? ==> |r.value| == len && forall j :: 0 <= j < len ==> ByteAt(m.chunks, disk, logical + j, r.value[j])
    ensures Disjoint(m.chunks) ==>
      (r.None? <==> exists p :: logical <= p < logical + len && Stuck(m.chunks, logical, p))
  {
    hide Ordered, ByteAt, Disjoint, Unmapped, Stuck, AtEnd;
    var buf: seq<byte> := [];
    AtStart(m.chunks, logical);
    while |buf| < len
      invariant |buf| <= len && forall j :: 0 <= j < |buf| ==> ByteAt(m.chunks, disk, logical + j, buf[j])
      invariant forall p :: logical <= p < logical + |buf| ==> !Stuck(m.chunks, logical, p)
      invariant |buf| < len ==> AtEnd(m.chunks, logical, logical + |buf|)
      decreases len - |buf|
    {
      var at := m.Map(logical + |buf|);
      if at.None? {
        if Disjoint(m.chunks) { StuckAtEnd(m.chunks, logical, logical + |buf|); }
        return None;
      }
      var (physical, run) := at.value;
      var take := Min(len - |buf|, run);
      var part := seq(take, j requires 0 <= j => disk(physical + j));
      ghost var i :| 0 <= i < |m.chunks| && Located(m.chunks[i], logical + |buf|, physical, run);
      ghost var start := logical + |buf|;
      forall j | 0 <= j < take ensures ByteAt(m.chunks, disk, start + j, part[j]) {
        RunByte(m.chunks, disk, i, start, physical, run, j);
      }
      forall p | start <= p < start + take ensures !Stuck(m.chunks, logical, p) {
        NotStuck(m.chunks, logical, i, start, physical, run, p);
      }
      RunEnds(m.chunks, logical, i, start, physical, run);
      ghost var was := buf;
      buf := buf + part;
      forall j | 0 <= j < |buf| ensures ByteAt(m.chunks, disk, logical + j, buf[j]) {
        if j >= |was| {
          assert start + (j - |was|) == logical + j && buf[j] == part[j - |was|];
        }
      }
    }
    r := Some(buf);
  }

  lemma AtStart(cs: seq<Chunk>, logical: nat)
    ensures AtEnd(cs, logical, logical)
  {
  }

  lemma StuckAtEnd(cs: seq<Chunk>, logical: nat, p: nat)
    requires Disjoint(cs) && Unmapped(cs, p) && AtEnd(cs, logical, p)
    ensures Stuck(cs, logical, p)
  {
    forall i | 0 <= i < |cs| && Holds(cs[i], p) ensures Physical(cs[i], Max(logical, cs[i].logical)) >= U64_LIMIT {
      assert p == Max(logical, cs[i].logical);
    }
  }

  lemma NotStuck(cs: seq<Chunk>, logical: nat, i: nat, start: nat, physical: nat, run: nat, p: nat)
    requires i < |cs| && logical <= start <= p < start + run && Located(cs[i], start, physical, run)
    ensures !Stuck(cs, logical, p)
  {
    assert Holds(cs[i], p);
  }

  lemma RunEnds(cs: seq<Chunk>, logical: nat, i: nat, start: nat, physical: nat, run: nat)
    requires i < |cs| && logical <= start && Located(cs[i], start, physical, run)
    ensures AtEnd(cs, logical, start + run)
  {
  }

  lemma RunByte(cs: seq<Chunk>, disk: nat -> byte, i: nat, logical: nat, physical: nat, run: nat, j: nat)
    requires i < |cs| && Located(cs[i], logical, physical, run) && j < run
    ensures ByteAt(cs, disk, logical + j, disk(physical + j))
  {
    assert Holds(cs[i], logical + j) && Physical(cs[i], logical + j) == physical + j;
  }

  /** Without overlaps an address has one chunk, so one byte, and `map` and
      `map_all_stripes` agree on its first copy. */
  lemma OneChunk(cs: seq<Chunk>, logical: nat, i: nat, j: nat)
    requires Disjoint(cs) && i < |cs| && j < |cs| && Holds(cs[i], logical) && Holds(cs[j], logical)
    ensures i == j
  {
  }

  lemma MapsAgree(cs: seq<Chunk>, logical: nat, physical: nat, run: nat, all: seq<nat>)
    requires Disjoint(cs) && (exists i :: 0 <= i < |cs| && Located(cs[i], logical, physical, run))
    requires exists i :: 0 <= i < |cs| && Holds(cs[i], logical) && Copies(cs[i], logical, all) && 0 < |cs[i].stripes|
    ensures 0 < |all| && all[0] == physical
  {
    var i :| 0 <= i < |cs| && Located(cs[i], logical, physical, run);
    var j :| 0 <= j < |cs| && Holds(cs[j], logical) && Copies(cs[j], logical, all) && 0 < |cs[j].stripes|;
    OneChunk(cs, logical, i, j);
  }
}
