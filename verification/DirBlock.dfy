/** Directory blocks as bytes (core/src/fs/ext4/dirent.rs): the in-place record
    surgery refines the operations on chains, for every block, and never
    touches the checksum tail. */
module DirBlock {
  import opened Bytes
  import opened DirChain

  // ----- reading a chain -----

  /** The bytes a record starting at `p` may use end at `q`. */
  predicate HeaderOk(b: seq<byte>, p: nat, q: nat)
    requires q <= |b|
  {
    && p + DIRENT_HEADER <= q
    && DIRENT_HEADER <= U16(b, p + 4) && U16(b, p + 4) % 4 == 0 && p + U16(b, p + 4) <= q
    && (U32(b, p) != 0 ==> RecordLen(b[p + 6]) <= U16(b, p + 4))
  }

  /** The record at `p`. */
  function RecHere(b: seq<byte>, p: nat, q: nat): (r: Rec)
    requires q <= |b| && HeaderOk(b, p, q)
    ensures RecOk(r) && p + r.len <= q
  {
    if U32(b, p) == 0 then Rec(U16(b, p + 4), None)
    else Rec(U16(b, p + 4), Some(Entry(U32(b, p), b[p + DIRENT_HEADER..p + DIRENT_HEADER + b[p + 6]], b[p + 7])))
  }

  /** The chain of records tiling bytes `p` to `q`, if they are one. */
  function Parse(b: seq<byte>, p: nat, q: nat): Option<seq<Rec>>
    requires q <= |b|
    decreases q - p
  {
    if p == q then Some([])
    else if !HeaderOk(b, p, q) then None
    else
      var r := RecHere(b, p, q);
      var rest := Parse(b, p + r.len, q);
      if rest.None? then None else Some([r] + rest.value)
  }

  /** A chain that parses is well formed and tiles its region exactly. */
  lemma {:induction false} ParseTiles(b: seq<byte>, p: nat, q: nat)
    requires p <= q <= |b| && Parse(b, p, q).Some?
    ensures ChainOk(Parse(b, p, q).value) && Tiles(Parse(b, p, q).value) == q - p
    decreases q - p
  {
    hide HeaderOk;
    if p != q {
      ParseTiles(b, p + RecHere(b, p, q).len, q);
    }
  }

  lemma TilesSplit(c: seq<Rec>, k: nat)
    requires k <= |c|
    ensures Tiles(c) == Tiles(c[..k]) + Tiles(c[k..])
  {
    LiveConcat(c[..k], c[k..]);
    assert c == c[..k] + c[k..];
  }

  /** The record does not depend on anything outside it. */
  lemma RecFrame(b: seq<byte>, b': seq<byte>, p: nat, q: nat, q': nat)
    requires q <= |b| && q' <= |b'| && HeaderOk(b, p, q)
    requires p + RecHere(b, p, q).len <= q' && |b'| == |b|
    requires forall k :: p <= k < p + RecHere(b, p, q).len ==> b'[k] == b[k]
    ensures HeaderOk(b', p, q') && RecHere(b', p, q') == RecHere(b, p, q)
  {
    var r := RecHere(b, p, q);
    assert U32(b', p) == U32(b, p) && U16(b', p + 4) == U16(b, p + 4) && b'[p + 6] == b[p + 6];
    if U32(b, p) != 0 {
      var n := b[p + 6];
      assert b'[p + DIRENT_HEADER..p + DIRENT_HEADER + n] == b[p + DIRENT_HEADER..p + DIRENT_HEADER + n];
    }
  }

  /** A prefix of a chain tiles a prefix of the region, in any block that
      agrees there. */
  lemma {:induction false} ParsePrefix(b: seq<byte>, b': seq<byte>, p: nat, q: nat, k: nat)
    requires p <= q <= |b| == |b'| && Parse(b, p, q).Some? && k <= |Parse(b, p, q).value|
    requires forall j :: p <= j < p + Tiles(Parse(b, p, q).value[..k]) && j < |b| ==> b'[j] == b[j]
    ensures p + Tiles(Parse(b, p, q).value[..k]) <= q
    ensures Parse(b', p, p + Tiles(Parse(b, p, q).value[..k])) == Some(Parse(b, p, q).value[..k])
    decreases k
  {
    hide HeaderOk, RecHere;
    if k > 0 {
      var r := RecHere(b, p, q);
      var c := Parse(b, p, q).value;
      assert c[..k][0] == r && c[..k][1..] == c[1..][..k - 1];
      assert c[1..] == Parse(b, p + r.len, q).value;
      ParsePrefix(b, b', p + r.len, q, k - 1);
      RecFrame(b, b', p, q, p + Tiles(c[..k]));
      assert c[..k] == [r] + c[1..][..k - 1];
    }
  }

  lemma {:induction false} ParseSuffix(b: seq<byte>, p: nat, q: nat, k: nat)
    requires p <= q <= |b| && Parse(b, p, q).Some? && k <= |Parse(b, p, q).value|
    ensures p + Tiles(Parse(b, p, q).value[..k]) <= q
    ensures Parse(b, p + Tiles(Parse(b, p, q).value[..k]), q) == Some(Parse(b, p, q).value[k..])
    decreases k
  {
    hide HeaderOk, RecHere;
    var c := Parse(b, p, q).value;
    if k == 0 {
      assert c[..0] == [] && c[0..] == c;
    } else {
      var r := RecHere(b, p, q);
      assert c[..k][0] == r && c[..k][1..] == c[1..][..k - 1];
      assert c[1..] == Parse(b, p + r.len, q).value;
      ParseSuffix(b, p + r.len, q, k - 1);
      assert c[1..][k - 1..] == c[k..];
    }
  }

  lemma {:induction false} ParseFrame(b: seq<byte>, b': seq<byte>, p: nat, q: nat)
    requires p <= q <= |b| == |b'| && Parse(b, p, q).Some? && forall j :: p <= j < q ==> b'[j] == b[j]
    ensures Parse(b', p, q) == Parse(b, p, q)
  {
    var c := Parse(b, p, q).value;
    ParseTiles(b, p, q);
    assert c[..|c|] == c;
    ParsePrefix(b, b', p, q, |c|);
  }

  /** Two neighbouring chains are one. */
  lemma {:induction false} ParseJoin(b: seq<byte>, p: nat, m: nat, q: nat)
    requires p <= m <= q <= |b| && Parse(b, p, m).Some? && Parse(b, m, q).Some?
    ensures Parse(b, p, q) == Some(Parse(b, p, m).value + Parse(b, m, q).value)
    decreases m - p
  {
    hide HeaderOk, RecHere;
    if p == m {
      assert [] + Parse(b, m, q).value == Parse(b, m, q).value;
    } else {
      var r := RecHere(b, p, m);
      RecFrame(b, b, p, m, q);
      ParseJoin(b, p + r.len, m, q);
      Assoc([r], Parse(b, p + r.len, m).value, Parse(b, m, q).value);
    }
  }

  /** Replacing the bytes of records `i` to `j` replaces just those records. */
  lemma ParseReplace(b: seq<byte>, b': seq<byte>, q: nat, i: nat, j: nat, m: seq<Rec>)
    requires q <= |b| == |b'| && Parse(b, 0, q).Some? && i <= j <= |Parse(b, 0, q).value|
    requires
      var c := Parse(b, 0, q).value;
      var x, y := Tiles(c[..i]), Tiles(c[..j]);
      && x <= y <= q && (forall k :: 0 <= k < q && !(x <= k < y) ==> b'[k] == b[k]) && Parse(b', x, y) == Some(m)
    ensures Parse(b', 0, q) == Some(Replace(Parse(b, 0, q).value, i, j, m))
  {
    hide Parse;
    var c := Parse(b, 0, q).value;
    var x, y := Tiles(c[..i]), Tiles(c[..j]);
    ParsePrefix(b, b', 0, q, i);
    ParseSuffix(b, 0, q, j);
    ParseFrame(b, b', y, q);
    ParseJoin(b', x, y, q);
    ParseJoin(b', 0, x, q);
    Assoc(c[..i], m, c[j..]);
  }

  // ----- the step of every walk -----

  /** The walk has passed `k` records and stands at `p`. */
  ghost predicate At(b: seq<byte>, q: nat, k: nat, p: nat)
    requires q <= |b|
  {
    p <= q && (Parse(b, 0, q).Some? ==> k <= |Parse(b, 0, q).value| && p == Tiles(Parse(b, 0, q).value[..k]))
  }

  /** What the walk finds there. */
  lemma AtHere(b: seq<byte>, q: nat, k: nat, p: nat)
    requires q <= |b| && At(b, q, k, p) && Parse(b, 0, q).Some?
    ensures
      var c := Parse(b, 0, q).value;
      && (p < q <==> k < |c|) && Tiles(c[..k]) == p
      && (p < q ==>
            && HeaderOk(b, p, q) && RecHere(b, p, q) == c[k] && At(b, q, k + 1, p + c[k].len)
            && Tiles(c[..k + 1]) == p + c[k].len)
  {
    var c := Parse(b, 0, q).value;
    ParseTiles(b, 0, q);
    TilesSplit(c, k);
    ParseSuffix(b, 0, q, k);
    if k < |c| {
      assert c[k..] != [];
      assert c[k..][0] == c[k];
      assert c[..k + 1] == c[..k] + [c[k]];
      LiveConcat(c[..k], [c[k]]);
      LiveOne(c[k]);
    } else {
      assert c[k..] == [];
    }
  }

  // ----- inserting -----

  /** A record of `len` bytes holding `e`, zeros after the name. */
  function Encode(e: Entry, len: nat): (s: seq<byte>)
    requires EntryOk(e) && RecordLen(|e.name|) <= len
    ensures |s| == len
  {
    Le32(e.ino) + Le16(len) + [|e.name|, e.fileType] + e.name + seq(len - DIRENT_HEADER - |e.name|, _ => 0)
  }

  lemma EncodeParts(e: Entry, len: nat)
    requires EntryOk(e) && RecordLen(|e.name|) <= len
    ensures
      var s := Encode(e, len);
      && s[..4] == Le32(e.ino) && s[4..6] == Le16(len) && s[6] == |e.name| && s[7] == e.fileType
      && s[DIRENT_HEADER..DIRENT_HEADER + |e.name|] == e.name
  {
    hide Le32, Le16;
    var a, b, c, z := Le32(e.ino), Le16(len), [|e.name|, e.fileType], seq(len - DIRENT_HEADER - |e.name|, _ => 0);
    var s := a + b + c + e.name + z;
    assert s[..4] == a && s[4..6] == b;
    assert s[6] == c[0] && s[7] == c[1];
    assert s[DIRENT_HEADER..DIRENT_HEADER + |e.name|] == e.name;
  }

  /** It reads back as that record. */
  lemma EncodeReads(b: seq<byte>, p: nat, e: Entry, len: nat)
    requires EntryOk(e) && RecordLen(|e.name|) <= len < U16_LIMIT && len % 4 == 0 && p + len <= |b|
    requires b[p..p + len] == Encode(e, len)
    ensures HeaderOk(b, p, p + len) && RecHere(b, p, p + len) == Rec(len, Some(e))
  {
    hide Encode, Le32, Le16, U32, U16, RecordLen;
    var s := Encode(e, len);
    EncodeParts(e, len);
    Slice(b, p, len, 0, 4);
    Slice(b, p, len, 4, 6);
    Slice(b, p, len, DIRENT_HEADER, DIRENT_HEADER + |e.name|);
    assert s[0..4] == s[..4];
    Le32RoundTrip(b, p, e.ino);
    Le16RoundTrip(b, p + 4, len);
    assert b[p + 6] == s[6] && b[p + 7] == s[7];
  }

  /** Shrinking a record to what its name needs keeps the record. */
  lemma ShrunkReads(b: seq<byte>, b': seq<byte>, p: nat, q: nat, own: nat)
    requires q <= |b| && q < U16_LIMIT && HeaderOk(b, p, q) && RecHere(b, p, q).entry.Some?
    requires own == OwnLen(RecHere(b, p, q)) && |b'| == |b|
    requires b'[p + 4..p + 6] == Le16(own) && forall k :: p <= k < p + own && !(p + 4 <= k < p + 6) ==> b'[k] == b[k]
    ensures HeaderOk(b', p, p + own) && RecHere(b', p, p + own) == Rec(own, RecHere(b, p, q).entry)
  {
    hide Le16, RecordLen;
    Le16RoundTrip(b', p + 4, own);
    var n := b[p + 6];
    hide U16;
    assert U32(b', p) == U32(b, p) by { SameU32(b, b', p); }
    assert b'[p + 6] == b[p + 6] && b'[p + 7] == b[p + 7];
    assert b'[p + DIRENT_HEADER..p + DIRENT_HEADER + n] == b[p + DIRENT_HEADER..p + DIRENT_HEADER + n];
  }

  lemma SameU32(b: seq<byte>, b': seq<byte>, p: nat)
    requires p + 4 <= |b| == |b'| && b'[p] == b[p] && b'[p + 1] == b[p + 1] && b'[p + 2] == b[p + 2]
    requires b'[p + 3] == b[p + 3]
    ensures U32(b', p) == U32(b, p)
  {
  }

  lemma ParseOne(b: seq<byte>, p: nat, q: nat)
    requires p < q <= |b| && HeaderOk(b, p, q) && RecHere(b, p, q).len == q - p
    ensures Parse(b, p, q) == Some([RecHere(b, p, q)])
  {
    hide HeaderOk, RecHere;
    assert Parse(b, q, q) == Some([]);
    assert [RecHere(b, p, q)] + [] == [RecHere(b, p, q)];
  }

  /** Walk to the first record with `needed` bytes of slack. */
  method FindSlot(block: array<byte>, usable: nat, needed: nat) returns (p: Option<nat>, ghost k: nat)
    requires usable <= block.Length && needed > 0
    ensures p.Some? ==>
      p.value < usable && HeaderOk(block[..], p.value, usable) && Fits(RecHere(block[..], p.value, usable), needed)
    ensures Parse(block[..], 0, usable).Some? ==>
      var c := Parse(block[..], 0, usable).value;
      && (p.Some? <==> FirstFit(c, needed) < |c|)
      && (p.Some? ==> k == FirstFit(c, needed) && At(block[..], usable, k, p.value))
  {
    hide HeaderOk, RecHere, Parse, Fits, RecordLen;
    ghost var b := block[..];
    var pos := 0;
    k := 0;
    StartAt(b, usable);
    while pos + DIRENT_HEADER <= usable
      invariant 0 <= pos <= usable && At(b, usable, k, pos)
      invariant Parse(b, 0, usable).Some? ==> forall j :: 0 <= j < k ==> !Fits(Parse(b, 0, usable).value[j], needed)
      decreases usable - pos
    {
      if Parse(b, 0, usable).Some? {
        AtHere(b, usable, k, pos);
      }
      if !HeaderOk(block[..], pos, usable) {
        return None, k;
      }
      var r := RecHere(block[..], pos, usable);
      HeaderLen(b, pos, usable);
      if Fits(r, needed) {
        if Parse(b, 0, usable).Some? {
          FirstFitAt(Parse(b, 0, usable).value, needed, k);
        }
        return Some(pos), k;
      }
      pos := pos + r.len;
      k := k + 1;
      assert Parse(b, 0, usable).None? ==> At(b, usable, k, pos);
    }
    NoHeader(b, pos, usable);
    if Parse(b, 0, usable).Some? {
      AtHere(b, usable, k, pos);
    }
    return None, k;
  }

  lemma StartAt(b: seq<byte>, q: nat)
    requires q <= |b|
    ensures At(b, q, 0, 0)
  {
    if Parse(b, 0, q).Some? { assert Parse(b, 0, q).value[..0] == []; }
  }

  lemma HeaderLen(b: seq<byte>, p: nat, q: nat)
    requires q <= |b| && HeaderOk(b, p, q)
    ensures RecHere(b, p, q).len >= DIRENT_HEADER && p < q
  {
  }

  lemma NoHeader(b: seq<byte>, p: nat, q: nat)
    requires q <= |b| && p + DIRENT_HEADER > q
    ensures !HeaderOk(b, p, q)
  {
  }

  lemma FirstFitAt(c: seq<Rec>, needed: nat, k: nat)
    requires k < |c| && Fits(c[k], needed) && forall j :: 0 <= j < k ==> !Fits(c[j], needed)
    ensures FirstFit(c, needed) == k
  {
  }

  /** `insert_into_block`: place an entry in the first record that has room. */
  method InsertInto(block: array<byte>, usable: nat, e: Entry) returns (fit: bool)
    requires usable <= block.Length && usable < U16_LIMIT && EntryOk(e)
    modifies block
    ensures forall k :: usable <= k < block.Length ==> block[k] == old(block[k])
    ensures !fit ==> block[..] == old(block[..])
    ensures Parse(old(block[..]), 0, usable).Some? ==>
      var c := Parse(old(block[..]), 0, usable).value;
      && fit == Insert(c, e).Some?
      && (fit ==> Parse(block[..], 0, usable) == Insert(c, e))
  {
    hide HeaderOk, RecHere, Parse, Fits, Encode, Le16, Insert, At, RecordLen, Splice, Split, FirstFit, Replace, Tiles,
      RecOk, ChainOk;
    ghost var b := block[..];
    var slot, k := FindSlot(block, usable, RecordLen(|e.name|));
    if Parse(b, 0, usable).Some? {
      ParseTiles(b, 0, usable);
      InsertIs(Parse(b, 0, usable).value, e);
    }
    if slot.None? {
      return false;
    }
    var pos := slot.value;
    var r := RecHere(block[..], pos, usable);
    var own := OwnLen(r);
    SlotRoom(r, RecordLen(|e.name|));
    ghost var mid := b;
    if r.entry.Some? {
      OwnHolds(r);
      Store(block, pos + 4, Le16(own));
      mid := block[..];
    }
    Store(block, pos + own, Encode(e, r.len - own));
    Placed(b, mid, block[..], pos, usable, e);
    if Parse(b, 0, usable).Some? {
      AtHere(b, usable, k, pos);
      SlotParse(b, block[..], usable, k, pos, Split(r, e));
    }
    fit := true;
  }

  lemma InsertIs(c: seq<Rec>, e: Entry)
    requires ChainOk(c)
    ensures
      var i := FirstFit(c, RecordLen(|e.name|));
      Insert(c, e) == if i == |c| then None else Some(Replace(c, i, i + 1, Split(c[i], e)))
  {
  }

  lemma SlotRoom(r: Rec, needed: nat)
    requires Fits(r, needed)
    ensures OwnLen(r) + needed <= r.len && (r.entry.None? ==> OwnLen(r) == 0)
  {
  }

  lemma OwnHolds(r: Rec)
    requires r.entry.Some?
    ensures OwnLen(r) >= DIRENT_HEADER
  {
  }

  lemma SliceSame(b: seq<byte>, b': seq<byte>, i: nat, j: nat)
    requires i <= j <= |b| == |b'| && forall k :: i <= k < j ==> b'[k] == b[k]
    ensures b'[i..j] == b[i..j]
  {
  }

  lemma PlacedBeyond(b: seq<byte>, mid: seq<byte>, b': seq<byte>, p: nat, own: nat, len: nat, live: bool,
      field: seq<byte>, v: seq<byte>)
    requires p + len <= |b| && own + |v| == len && (live ==> |field| == 2 && own >= DIRENT_HEADER)
    requires if live then mid == Splice(b, p + 4, field) else mid == b
    requires |mid| == |b| && b' == Splice(mid, p + own, v)
    ensures |b'| == |b| && b'[p + own..p + len] == v
    ensures forall k :: 0 <= k < |b| && !(p <= k < p + len) ==> b'[k] == b[k]
    ensures live ==>
      b'[p + 4..p + 6] == field && forall k :: p <= k < p + own && !(p + 4 <= k < p + 6) ==> b'[k] == b[k]
  {
    hide Splice;
    if live { SliceSame(mid, b', p + 4, p + 6); }
  }

  /** The bytes of the split record are the two records it became. */
  lemma Placed(b: seq<byte>, mid: seq<byte>, b': seq<byte>, p: nat, q: nat, e: Entry)
    requires q <= |b| && q < U16_LIMIT && EntryOk(e) && HeaderOk(b, p, q) && Fits(RecHere(b, p, q), RecordLen(|e.name|))
    requires
      var r := RecHere(b, p, q);
      var own := OwnLen(r);
      && (if r.entry.Some? then own >= DIRENT_HEADER && mid == Splice(b, p + 4, Le16(own)) else mid == b)
      && |mid| == |b| && RecordLen(|e.name|) <= r.len - own && b' == Splice(mid, p + own, Encode(e, r.len - own))
    ensures
      var r := RecHere(b, p, q);
      && |b'| == |b| && Parse(b', p, p + r.len) == Some(Split(r, e))
      && forall k :: 0 <= k < |b| && !(p <= k < p + r.len) ==> b'[k] == b[k]
  {
    hide HeaderOk, RecHere, Parse, Encode, Le16, RecordLen, Splice, Split, Fits;
    var r := RecHere(b, p, q);
    var own := OwnLen(r);
    SplitLens(r, e);
    PlacedBeyond(b, mid, b', p, own, r.len, r.entry.Some?, Le16(own), Encode(e, r.len - own));
    EncodeReads(b', p + own, e, r.len - own);
    ParseOne(b', p + own, p + r.len);
    SplitIs(r, e);
    if r.entry.Some? {
      ShrunkParses(b, b', p, q, own);
      ParseJoin(b', p, p + own, p + r.len);
    }
  }

  lemma ShrunkParses(b: seq<byte>, b': seq<byte>, p: nat, q: nat, own: nat)
    requires q <= |b| && q < U16_LIMIT && HeaderOk(b, p, q) && RecHere(b, p, q).entry.Some?
    requires own == OwnLen(RecHere(b, p, q)) && |b'| == |b|
    requires b'[p + 4..p + 6] == Le16(own) && forall k :: p <= k < p + own && !(p + 4 <= k < p + 6) ==> b'[k] == b[k]
    requires 0 < own
    ensures HeaderOk(b', p, p + own) && Parse(b', p, p + own) == Some([Rec(own, RecHere(b, p, q).entry)])
  {
    hide HeaderOk, RecHere, Parse, Le16, RecordLen;
    ShrunkReads(b, b', p, q, own);
    ParseOne(b', p, p + own);
  }

  lemma SplitIs(r: Rec, e: Entry)
    requires OwnLen(r) <= r.len
    ensures Split(r, e) ==
      if r.entry.None? then [Rec(r.len, Some(e))] else [Rec(OwnLen(r), r.entry)] + [Rec(r.len - OwnLen(r), Some(e))]
  {
  }

  lemma SplitLens(r: Rec, e: Entry)
    requires RecOk(r) && Fits(r, RecordLen(|e.name|))
    ensures RecordLen(|e.name|) <= r.len - OwnLen(r) && (r.len - OwnLen(r)) % 4 == 0
    ensures r.entry.Some? ==> OwnLen(r) >= DIRENT_HEADER
    ensures r.entry.None? ==> OwnLen(r) == 0
    ensures RecordLen(|e.name|) >= DIRENT_HEADER
  {
  }

  lemma SlotParse(b: seq<byte>, b': seq<byte>, q: nat, k: nat, p: nat, m: seq<Rec>)
    requires q <= |b| == |b'| && Parse(b, 0, q).Some? && k < |Parse(b, 0, q).value|
    requires
      var c := Parse(b, 0, q).value;
      && p == Tiles(c[..k]) && Tiles(c[..k + 1]) == p + c[k].len <= q
      && (forall j :: 0 <= j < q && !(p <= j < p + c[k].len) ==> b'[j] == b[j]) && Parse(b', p, p + c[k].len) == Some(m)
    ensures Parse(b', 0, q) == Some(Replace(Parse(b, 0, q).value, k, k + 1, m))
  {
    hide Parse;
    ParseReplace(b, b', q, k, k + 1, m);
  }

  // ----- removing -----

  /** The weaker check of the walks that only read: the record stays inside. */
  predicate StepOk(b: seq<byte>, p: nat, q: nat)
    requires p + DIRENT_HEADER <= q <= |b|
  {
    DIRENT_HEADER <= U16(b, p + 4) && U16(b, p + 4) % 4 == 0 && p + U16(b, p + 4) <= q
  }

  /** The record at `p` is live and called `name`. */
  predicate NamedHere(b: seq<byte>, p: nat, q: nat, name: Name)
    requires p + DIRENT_HEADER <= q <= |b|
  {
    U32(b, p) != 0 && p + DIRENT_HEADER + b[p + 6] <= q && b[p + DIRENT_HEADER..p + DIRENT_HEADER + b[p + 6]] == name
  }

  lemma StepHere(b: seq<byte>, p: nat, q: nat, name: Name)
    requires q <= |b| && HeaderOk(b, p, q)
    ensures p + DIRENT_HEADER <= q && StepOk(b, p, q) && RecHere(b, p, q).len == U16(b, p + 4)
    ensures
      var r := RecHere(b, p, q);
      && (NamedHere(b, p, q, name) <==> r.entry.Some? && r.entry.value.name == name)
      && (r.entry.Some? ==> r.entry.value.ino == U32(b, p))
  {
  }

  /** Zeroing the inode field turns a record into free space. */
  lemma Tombstone(b: seq<byte>, b': seq<byte>, p: nat, q: nat)
    requires q <= |b| && HeaderOk(b, p, q) && b' == Splice(b, p, Le32(0))
    ensures
      var r := RecHere(b, p, q);
      Parse(b', p, p + r.len) == Some([Rec(r.len, None)])
  {
    var r := RecHere(b, p, q);
    Le32RoundTrip(b', p, 0);
    assert U16(b', p + 4) == U16(b, p + 4);
    hide Le32, U32, U16;
    ParseOne(b', p, p + r.len);
  }

  /** Lengthening a record over its successor swallows the successor. */
  lemma Swallowed(b: seq<byte>, b': seq<byte>, p: nat, q: nat, more: nat)
    requires q <= |b| && q < U16_LIMIT && HeaderOk(b, p, q) && more % 4 == 0 && p + RecHere(b, p, q).len + more <= q
    requires b' == Splice(b, p + 4, Le16(RecHere(b, p, q).len + more))
    ensures
      var r := RecHere(b, p, q);
      Parse(b', p, p + r.len + more) == Some([Rec(r.len + more, r.entry)])
  {
    hide Le16, RecordLen, Parse, Splice, U16, U32;
    var r := RecHere(b, p, q);
    var n := b[p + 6];
    Le16RoundTrip(b', p + 4, r.len + more);
    SameU32(b, b', p);
    if r.entry.Some? { SliceSame(b, b', p + DIRENT_HEADER, p + DIRENT_HEADER + n); }
    ParseOne(b', p, p + r.len + more);
  }

  /** Walk to the record called `name`, remembering the one before it. */
  method FindNamed(block: array<byte>, usable: nat, name: Name) returns (p: Option<nat>, prev: Option<nat>,
      ghost k: nat)
    requires usable <= block.Length
    ensures p.Some? ==> p.value + DIRENT_HEADER <= usable && StepOk(block[..], p.value, usable)
    ensures p.Some? && prev.Some? ==> prev.value + DIRENT_HEADER <= p.value
    ensures Parse(block[..], 0, usable).Some? ==>
      var c := Parse(block[..], 0, usable).value;
      && (p.Some? <==> IndexOf(c, name) < |c|)
      && (p.Some? ==>
            && k == IndexOf(c, name) && At(block[..], usable, k, p.value) && (prev.Some? <==> k > 0)
            && (prev.Some? ==> At(block[..], usable, k - 1, prev.value) && prev.value + c[k - 1].len == p.value))
  {
    hide HeaderOk, RecHere, Parse, StepOk, NamedHere, Tiles;
    ghost var b := block[..];
    var pos := 0;
    prev := None;
    k := 0;
    StartAt(b, usable);
    while pos + DIRENT_HEADER <= usable
      invariant 0 <= pos <= usable && At(b, usable, k, pos)
      invariant prev.Some? ==> prev.value + DIRENT_HEADER <= pos
      invariant Parse(b, 0, usable).Some? ==>
        var c := Parse(b, 0, usable).value;
        && (forall j :: 0 <= j < k ==> !(c[j].entry.Some? && c[j].entry.value.name == name)) && (prev.Some? <==> k > 0)
        && (prev.Some? ==> At(b, usable, k - 1, prev.value) && prev.value + c[k - 1].len == pos)
      decreases usable - pos
    {
      if Parse(b, 0, usable).Some? {
        AtHere(b, usable, k, pos);
        StepHere(b, pos, usable, name);
      }
      if !StepOk(block[..], pos, usable) {
        return None, prev, k;
      }
      StepLen(b, pos, usable);
      if NamedHere(block[..], pos, usable, name) {
        return Some(pos), prev, k;
      }
      prev := Some(pos);
      pos := pos + U16(block[..], pos + 4);
      k := k + 1;
      assert Parse(b, 0, usable).None? ==> At(b, usable, k, pos);
    }
    NoHeader(b, pos, usable);
    if Parse(b, 0, usable).Some? {
      AtHere(b, usable, k, pos);
    }
    return None, prev, k;
  }

  lemma StepLen(b: seq<byte>, p: nat, q: nat)
    requires p + DIRENT_HEADER <= q <= |b| && StepOk(b, p, q)
    ensures DIRENT_HEADER <= U16(b, p + 4) && p + U16(b, p + 4) <= q
  {
  }

  /** `remove_from_block`: drop the named record and say what it named. */
  method RemoveFrom(block: array<byte>, usable: nat, name: Name) returns (r: Option<nat>)
    requires usable <= block.Length && usable < U16_LIMIT
    modifies block
    ensures forall k :: usable <= k < block.Length ==> block[k] == old(block[k])
    ensures r.None? ==> block[..] == old(block[..])
    ensures Parse(old(block[..]), 0, usable).Some? ==>
      var c := Parse(old(block[..]), 0, usable).value;
      && r.Some? == Remove(c, name).Some? && (r.Some? ==> Lookup(c, name).Some? && r.value == Lookup(c, name).value.ino)
      && (r.Some? ==> Parse(block[..], 0, usable) == Remove(c, name))
  {
    hide HeaderOk, RecHere, Parse, StepOk, NamedHere, Tiles, Le16, Le32, Splice, IndexOf, Remove, Lookup, Replace, At,
      U16, U32;
    ghost var b := block[..];
    var found, prev, k := FindNamed(block, usable, name);
    if Parse(b, 0, usable).Some? {
      ParseTiles(b, 0, usable);
      RemoveIs(Parse(b, 0, usable).value, name);
    }
    if found.None? {
      return None;
    }
    var pos := found.value;
    var ino, len := U32(block[..], pos), U16(block[..], pos + 4);
    StepLen(b, pos, usable);
    if prev.Some? {
      var before := U16(block[..], prev.value + 4);
      Store(block, prev.value + 4, Le16(before + len));
    } else {
      Store(block, pos, Le32(0));
    }
    if Parse(b, 0, usable).Some? {
      Removed(b, block[..], usable, name, k, pos, prev);
    }
    r := Some(ino);
  }

  lemma RemoveIs(c: seq<Rec>, name: Name)
    requires ChainOk(c)
    ensures
      var i := IndexOf(c, name);
      Remove(c, name) ==
        if i == |c| then None
        else if i == 0 then Some(Replace(c, 0, 1, [Rec(c[0].len, None)]))
        else Some(Replace(c, i - 1, i + 1, [Rec(c[i - 1].len + c[i].len, c[i - 1].entry)]))
    ensures IndexOf(c, name) < |c| ==> Lookup(c, name) == c[IndexOf(c, name)].entry
  {
    LookupIsLive(c, name);
    if IndexOf(c, name) == 0 && c != [] {
      assert c[..0] == [] && [] + [Rec(c[0].len, None)] == [Rec(c[0].len, None)];
    }
  }

  lemma Removed(b: seq<byte>, b': seq<byte>, q: nat, name: Name, k: nat, pos: nat, prev: Option<nat>)
    requires q <= |b| && q < U16_LIMIT && Parse(b, 0, q).Some? && k < |Parse(b, 0, q).value|
    requires k == IndexOf(Parse(b, 0, q).value, name)
    requires At(b, q, k, pos) && pos + DIRENT_HEADER <= q && (prev.Some? <==> k > 0)
    requires prev.Some? ==>
      && At(b, q, k - 1, prev.value) && prev.value + Parse(b, 0, q).value[k - 1].len == pos
      && prev.value + DIRENT_HEADER <= pos
    requires b' ==
      if prev.Some? then Splice(b, prev.value + 4, Le16(U16(b, prev.value + 4) + U16(b, pos + 4)))
      else Splice(b, pos, Le32(0))
    ensures
      var c := Parse(b, 0, q).value;
      && Lookup(c, name).Some? && Lookup(c, name).value.ino == U32(b, pos) && Parse(b', 0, q) == Remove(c, name)
  {
    hide HeaderOk, RecHere, Parse, Tiles, Le16, Le32, Splice, Remove, Lookup, Replace, At, U16, U32;
    var c := Parse(b, 0, q).value;
    ParseTiles(b, 0, q);
    RemoveIs(c, name);
    AtHere(b, q, k, pos);
    StepHere(b, pos, q, name);
    if prev.Some? {
      AtHere(b, q, k - 1, prev.value);
      StepHere(b, prev.value, q, name);
      assert RecOk(c[k]);
      Swallowed(b, b', prev.value, q, c[k].len);
      ParseReplace(b, b', q, k - 1, k + 1, [Rec(c[k - 1].len + c[k].len, c[k - 1].entry)]);
    } else {
      Tombstone(b, b', pos, q);
      ParseReplace(b, b', q, 0, 1, [Rec(c[0].len, None)]);
    }
  }

  // ----- reading -----

  /** The checksum tail, if the block has one, reads as one free record. */
  predicate QuietTail(b: seq<byte>, usable: nat) {
    usable == |b| || (usable + 12 == |b| && U32(b, usable) == 0 && U16(b, usable + 4) == 12)
  }

  /** Readers walk the whole block: the tail adds one free record. */
  lemma WholeBlock(b: seq<byte>, usable: nat)
    requires usable <= |b| && Parse(b, 0, usable).Some? && QuietTail(b, usable)
    ensures Parse(b, 0, |b|).Some?
    ensures forall name :: Lookup(Parse(b, 0, |b|).value, name) == Lookup(Parse(b, 0, usable).value, name)
    ensures Live(Parse(b, 0, |b|).value) == Live(Parse(b, 0, usable).value)
  {
    if usable < |b| {
      var c := Parse(b, 0, usable).value;
      var t := Rec(12, None);
      ParseOne(b, usable, |b|);
      ParseJoin(b, 0, usable, |b|);
      LiveConcat(c, [t]);
      LiveOne(t);
      assert Live(c) + [] == Live(c);
      forall name ensures Lookup(c + [t], name) == Lookup(c, name) {
        LookupPush(c, t, name);
      }
    }
  }

  lemma {:induction false} LookupPush(c: seq<Rec>, t: Rec, name: Name)
    requires t.entry.None?
    ensures Lookup(c + [t], name) == Lookup(c, name)
  {
    if c == [] {
      assert ([] + [t])[1..] == [];
    } else {
      assert (c + [t])[1..] == c[1..] + [t];
      LookupPush(c[1..], t, name);
    }
  }

  /** The block walk of `find_entry`. */
  method FindIn(block: array<byte>, usable: nat, name: Name) returns (r: Option<nat>)
    requires usable <= block.Length
    ensures Parse(block[..], 0, usable).Some? && QuietTail(block[..], usable) ==>
      var c := Parse(block[..], 0, usable).value;
      r == if Lookup(c, name).Some? then Some(Lookup(c, name).value.ino) else None
  {
    hide HeaderOk, RecHere, Parse, StepOk, NamedHere, Tiles, IndexOf, Lookup, At, U16, U32, Live;
    ghost var b := block[..];
    var found, prev, k := FindNamed(block, block.Length, name);
    if Parse(b, 0, usable).Some? && QuietTail(b, usable) {
      WholeBlock(b, usable);
      ghost var c := Parse(b, 0, |b|).value;
      LookupIsLive(c, name);
      if found.Some? {
        AtHere(b, |b|, k, found.value);
        StepHere(b, found.value, |b|, name);
      }
    }
    r := if found.None? then None else Some(U32(block[..], found.value));
  }

  /** The block walk of `list_inode`: every live record but `.` and `..`. */
  method ListBlock(block: array<byte>, usable: nat) returns (es: seq<Entry>)
    requires usable <= block.Length
    ensures Parse(block[..], 0, usable).Some? && QuietTail(block[..], usable) ==>
      es == Listed(Live(Parse(block[..], 0, usable).value))
  {
    hide HeaderOk, RecHere, Parse, StepOk, Tiles, U16, U32, Live, Listed;
    ghost var b := block[..];
    ghost var q, k := block.Length, 0;
    var pos := 0;
    es := [];
    StartAt(b, q);
    NoneLive(b);
    ghost var good := Parse(b, 0, q).Some?;
    while pos + DIRENT_HEADER <= block.Length
      invariant 0 <= pos <= q && At(b, q, k, pos)
      invariant good ==> k <= |Parse(b, 0, q).value| && es == Listed(Live(Parse(b, 0, q).value[..k]))
      decreases q - pos
    {
      if good {
        AtHere(b, q, k, pos);
        StepHere(b, pos, q, []);
        LivePush(Parse(b, 0, q).value, k);
        EntryHere(b, pos, q);
      }
      if !StepOk(block[..], pos, block.Length) {
        break;
      }
      StepLen(b, pos, q);
      if U32(block[..], pos) != 0 {
        var n: nat := block[pos + 6];
        if pos + DIRENT_HEADER + n <= block.Length {
          var raw := block[..][pos + DIRENT_HEADER..pos + DIRENT_HEADER + n];
          if raw != DOT && raw != DOTDOT {
            es := es + [Entry(U32(block[..], pos), raw, block[pos + 7])];
          }
        }
      }
      pos := pos + U16(block[..], pos + 4);
      k := k + 1;
      assert !good ==> At(b, q, k, pos);
    }
    NoHeader2(b, pos, q);
    if good {
      AtHere(b, q, k, pos);
      assert Parse(b, 0, q).value[..k] == Parse(b, 0, q).value;
    }
    if Parse(b, 0, usable).Some? && QuietTail(b, usable) {
      WholeBlock(b, usable);
    }
  }

  lemma NoneLive(b: seq<byte>)
    ensures Parse(b, 0, |b|).Some? ==> Listed(Live(Parse(b, 0, |b|).value[..0])) == []
  {
  }

  lemma LivePush(c: seq<Rec>, k: nat)
    requires k < |c|
    ensures Listed(Live(c[..k + 1])) ==
      Listed(Live(c[..k])) + (if c[k].entry.Some? && Real(c[k].entry.value) then [c[k].entry.value] else [])
  {
    assert c[..k + 1] == c[..k] + [c[k]];
    LiveConcat(c[..k], [c[k]]);
    LiveOne(c[k]);
    var a := Live(c[..k]);
    if c[k].entry.Some? {
      assert (a + [c[k].entry.value])[..|a|] == a;
    } else {
      assert a + [] == a;
    }
  }

  lemma EntryHere(b: seq<byte>, p: nat, q: nat)
    requires q <= |b| && HeaderOk(b, p, q)
    ensures
      var r := RecHere(b, p, q);
      && (r.entry.Some? <==> U32(b, p) != 0)
      && (r.entry.Some? ==>
            && p + DIRENT_HEADER + b[p + 6] <= q
            && r.entry.value == Entry(U32(b, p), b[p + DIRENT_HEADER..p + DIRENT_HEADER + b[p + 6]], b[p + 7]))
  {
  }

  lemma NoHeader2(b: seq<byte>, p: nat, q: nat)
    requires q <= |b|
    ensures p + DIRENT_HEADER > q ==> !HeaderOk(b, p, q)
    ensures p + DIRENT_HEADER <= q && !StepOk(b, p, q) ==> !HeaderOk(b, p, q)
  {
  }

  // ----- sequences of edits -----

  datatype Edit = Add(entry: Entry) | Drop(name: Name)

  /** The edits as the chain sees them; a refused one changes nothing. */
  function EditChain(c: seq<Rec>, edits: seq<Edit>): seq<Rec> {
    if edits == [] then c
    else
      var before := EditChain(c, edits[..|edits| - 1]);
      var x := edits[|edits| - 1];
      var after := if x.Add? then Insert(before, x.entry) else Remove(before, x.name);
      if after.Some? then after.value else before
  }

  /** Over every sequence of inserts and removals the records keep tiling
      exactly the usable region and the tail stays as it was. */
  method RunEdits(block: array<byte>, usable: nat, edits: seq<Edit>)
    requires usable <= block.Length && usable < U16_LIMIT && Parse(block[..], 0, usable).Some?
    requires forall i :: 0 <= i < |edits| && edits[i].Add? ==> EntryOk(edits[i].entry)
    modifies block
    ensures Parse(block[..], 0, usable) == Some(EditChain(Parse(old(block[..]), 0, usable).value, edits))
    ensures ChainOk(Parse(block[..], 0, usable).value) && Tiles(Parse(block[..], 0, usable).value) == usable
    ensures forall k :: usable <= k < block.Length ==> block[k] == old(block[k])
  {
    hide Parse, Insert, Remove, Lookup, ChainOk, Tiles;
    ghost var c := Parse(block[..], 0, usable).value;
    for i := 0 to |edits|
      invariant Parse(block[..], 0, usable) == Some(EditChain(c, edits[..i]))
      invariant forall k :: usable <= k < block.Length ==> block[k] == old(block[k])
    {
      assert edits[..i + 1][..i] == edits[..i] && edits[..i + 1][i] == edits[i];
      match edits[i]
      case Add(e) =>
        var fit := InsertInto(block, usable, e);
      case Drop(name) =>
        var gone := RemoveFrom(block, usable, name);
    }
    assert edits[..|edits|] == edits;
    ParseTiles(block[..], 0, usable);
  }
}
