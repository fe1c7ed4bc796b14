/** The bit primitives of the allocator (core/src/fs/ext4/alloc.rs): bytes in
    little-endian bit order, against the bitmap as a list of booleans. */
module Ext4Bits {
  import opened Arith
  import opened Bytes
  import opened Ext4Bitmap

  /** `1 << k`. */
  function One(k: nat): bv8
    requires k < 8
  {
    if k == 0 then 0x01 else if k == 1 then 0x02 else if k == 2 then 0x04 else if k == 3 then 0x08
    else if k == 4 then 0x10 else if k == 5 then 0x20 else if k == 6 then 0x40 else 0x80
  }

  predicate InByte(b: bv8, k: nat)
    requires k < 8
  {
    b & One(k) != 0
  }

  predicate TestBit(bm: seq<bv8>, bit: nat)
    requires bit < 8 * |bm|
  {
    InByte(bm[bit / 8], bit % 8)
  }

  /** The bitmap the bytes stand for. */
  function Bits(bm: seq<bv8>): (r: seq<bool>)
    ensures |r| == 8 * |bm|
    ensures forall i :: 0 <= i < |r| ==> r[i] == TestBit(bm, i)
  {
    seq(8 * |bm|, i requires 0 <= i < 8 * |bm| => TestBit(bm, i))
  }

  lemma SetInByte(b: bv8, k: nat, j: nat)
    requires k < 8 && j < 8
    ensures InByte(b | One(k), j) == (j == k || InByte(b, j))
    ensures InByte(b & !One(k), j) == (j != k && InByte(b, j))
  {
  }

  lemma SameCell(i: nat, bit: nat)
    ensures i / 8 == bit / 8 && i % 8 == bit % 8 ==> i == bit
  {
  }

  /** The byte `b` with bit `k` set or cleared. */
  function Changed(b: bv8, k: nat, v: bool): bv8
    requires k < 8
  {
    if v then b | One(k) else b & !One(k)
  }

  lemma ChangedBits(was: seq<bv8>, bit: nat, v: bool)
    requires bit < 8 * |was|
    ensures Bits(was[bit / 8 := Changed(was[bit / 8], bit % 8, v)]) == Bits(was)[bit := v]
  {
    hide InByte, Changed;
    var now := was[bit / 8 := Changed(was[bit / 8], bit % 8, v)];
    forall i | 0 <= i < 8 * |was| ensures Bits(now)[i] == Bits(was)[bit := v][i] {
      ChangedIn(was[bit / 8], bit % 8, i % 8, v);
      SameCell(i, bit);
    }
  }

  lemma ChangedIn(b: bv8, k: nat, j: nat, v: bool)
    requires k < 8 && j < 8
    ensures InByte(Changed(b, k, v), j) == if j == k then v else InByte(b, j)
  {
    hide One, InByte;
    SetInByte(b, k, j);
  }

  method SetBit(bm: array<bv8>, bit: nat)
    requires bit < 8 * bm.Length
    modifies bm
    ensures Bits(bm[..]) == Bits(old(bm[..]))[bit := true]
  {
    hide One, Bits;
    ChangedBits(bm[..], bit, true);
    ghost var was := bm[..];
    bm[bit / 8] := Changed(bm[bit / 8], bit % 8, true);
    assert bm[..] == was[bit / 8 := Changed(was[bit / 8], bit % 8, true)];
  }

  method ClearBit(bm: array<bv8>, bit: nat)
    requires bit < 8 * bm.Length
    modifies bm
    ensures Bits(bm[..]) == Bits(old(bm[..]))[bit := false]
  {
    hide One, Bits;
    ChangedBits(bm[..], bit, false);
    ghost var was := bm[..];
    bm[bit / 8] := Changed(bm[bit / 8], bit % 8, false);
    assert bm[..] == was[bit / 8 := Changed(was[bit / 8], bit % 8, false)];
  }

  /** The position of the lowest zero bit, or 8. */
  function TrailingOnes(b: bv8): (k: nat)
    ensures k <= 8 && (k == 8 <==> b == 0xFF)
    ensures k < 8 ==> !InByte(b, k)
    ensures forall j :: 0 <= j < k ==> InByte(b, j)
  {
    if b & 0x01 == 0 then 0 else if b & 0x02 == 0 then 1 else if b & 0x04 == 0 then 2 else if b & 0x08 == 0 then 3
    else if b & 0x10
    == 0 then 4 else if b & 0x20 == 0 then 5 else if b & 0x40 == 0 then 6 else if b & 0x80 == 0 then 7 else 8
  }

  /** The bits below `m` taken as set. */
  lemma Masked(b: bv8, m: nat, j: nat)
    requires m < 8 && j < 8
    ensures InByte(b | (One(m) - 1), j) == (j < m || InByte(b, j))
  {
  }

  /** `find_free_bit_from`: the first zero bit in `[from, limit)`, as far as the
      bitmap goes. */
  method FindFreeBitFrom(bm: seq<bv8>, from: nat, limit: nat) returns (r: Option<nat>)
    ensures
      var l := Min(limit, 8 * |bm|);
      r == if FirstZero(Bits(bm), from, l) < l then Some(FirstZero(Bits(bm), from, l)) else None
  {
    hide One, InByte;
    ghost var bits, l := Bits(bm), Min(limit, 8 * |bm|);
    if from >= limit {
      return None;
    }
    var i := from / 8;
    if i >= |bm| {
      return None;
    }
    ghost var at := from;
    var b := bm[i] | (One(from % 8) - 1);
    forall j | 0 <= j < 8 ensures InByte(b, j) == (j < from % 8 || InByte(bm[i], j)) {
      Masked(bm[i], from % 8, j);
    }
    while true
      invariant from / 8 <= i < |bm|
      invariant forall j :: 0 <= j < 8 ==> InByte(b, j) == (8 * i + j < from || InByte(bm[i], j))
      invariant forall k :: from <= k < 8 * i ==> bits[k]
      decreases |bm| - i
    {
      var t := TrailingOnes(b);
      forall k | from <= k < 8 * i + t ensures bits[k] {
        if k >= 8 * i {
          assert InByte(b, k - 8 * i);
          assert k / 8 == i && k % 8 == k - 8 * i;
        }
      }
      if b != 0xFF {
        var index := i * 8 + t;
        assert index / 8 == i && index % 8 == t;
        FirstIs(bits, from, l, index);
        return if index >= limit then None else Some(index);
      }
      if i + 1 >= |bm| {
        FirstIs(bits, from, l, 8 * i + 8);
        return None;
      }
      i := i + 1;
      b := bm[i];
    }
  }

  lemma FirstIs(bits: seq<bool>, from: nat, limit: nat, k: nat)
    requires limit <= |bits| && from < limit && from <= k && (forall j :: from <= j < k && j < |bits| ==> bits[j])
    requires k < |bits| ==> !bits[k]
    ensures FirstZero(bits, from, limit) == if k < limit then k else limit
  {
  }
}
