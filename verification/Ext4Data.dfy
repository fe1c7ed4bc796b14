/** File contents as they sit in data blocks: cutting a byte string into padded
    blocks, storing them through a file's runs, and reading them back. */
module Ext4Data {
  import opened Arith
  import opened Bytes
  import opened Extents
  import opened Ext4Disk
  import opened Ext4Steps

  /** Block `l` of `data`, padded with zeros. */
  function Chunk(data: seq<byte>, bs: nat, l: nat): (c: seq<byte>)
    ensures |c| == bs
  {
    seq(bs, j requires 0 <= j < bs => if l * bs + j < |data| then data[l * bs + j] else 0)
  }

  function Chunks(data: seq<byte>, bs: nat, from: nat, n: nat): (c: seq<seq<byte>>)
    ensures |c| == n
    ensures forall k :: 0 <= k < n ==> c[k] == Chunk(data, bs, from + k)
  {
    seq(n, k requires 0 <= k => Chunk(data, bs, from + k))
  }

  /** Blocks `from` to `to` of `data` are in the blocks of `flat`. */
  ghost predicate Stored(blocks: map<nat, Content>, flat: seq<nat>, data: seq<byte>, bs: nat, from: nat, to: nat) {
    to <= |flat| && forall l :: from <= l < to ==> flat[l] in blocks && blocks[flat[l]] == Data(Chunk(data, bs, l))
  }

  /** The byte at offset `p` of a file whose blocks are `flat`: zero in a hole. */
  function ByteAt(blocks: map<nat, Content>, flat: seq<nat>, bs: nat, p: nat): byte
    requires 0 < bs
  {
    var l := p / bs;
    if l < |flat| && flat[l] in blocks && blocks[flat[l]].Data? && p % bs < |blocks[flat[l]].bytes|
    then blocks[flat[l]].bytes[p % bs] else 0
  }

  /** What a reader gets for a file of `size` bytes. */
  function FileBytes(blocks: map<nat, Content>, flat: seq<nat>, bs: nat, size: nat): (s: seq<byte>)
    requires 0 < bs
    ensures |s| == size
  {
    seq(size, p requires 0 <= p => ByteAt(blocks, flat, bs, p))
  }

  lemma CeilBounds(n: nat, d: nat)
    requires 0 < d
    ensures n <= CeilDiv(n, d) * d
    ensures 0 < n ==> 0 < CeilDiv(n, d) && (CeilDiv(n, d) - 1) * d < n
    ensures n == 0 ==> CeilDiv(n, d) == 0
  {
    var q := CeilDiv(n, d);
    assert n + d - 1 == q * d + (n + d - 1) % d;
    if n == 0 { DivModUnique(0, d - 1, d); }
    if 0 < n {
      if q == 0 { assert false; }
      assert (q - 1) * d == q * d - d;
    }
  }

  lemma CeilBelow(p: nat, n: nat, d: nat)
    requires 0 < d && p < n
    ensures p / d < CeilDiv(n, d)
  {
    CeilBounds(n, d);
    QuotientBelow(p, CeilDiv(n, d), d);
  }

  /** A stored byte string is read back exactly. */
  lemma StoredReads(blocks: map<nat, Content>, flat: seq<nat>, data: seq<byte>, bs: nat)
    requires 0 < bs && Stored(blocks, flat, data, bs, 0, CeilDiv(|data|, bs))
    ensures FileBytes(blocks, flat, bs, |data|) == data
  {
    forall p | 0 <= p < |data| ensures ByteAt(blocks, flat, bs, p) == data[p] {
      CeilBelow(p, |data|, bs);
      var l := p / bs;
      assert p == l * bs + p % bs;
      assert blocks[flat[l]] == Data(Chunk(data, bs, l));
      assert Chunk(data, bs, l)[p % bs] == data[l * bs + p % bs];
    }
  }

  /** Cutting a block out of a longer string and out of the piece that holds it
      gives the same block. */
  lemma ChunkOfPiece(data: seq<byte>, bs: nat, from: nat, piece: seq<byte>, k: nat)
    requires from * bs + |piece| <= |data| && data[from * bs..from * bs + |piece|] == piece
    requires (k + 1) * bs <= |piece|
    ensures Chunk(data, bs, from + k) == Chunk(piece, bs, k)
  {
    assert (from + k) * bs == from * bs + k * bs;
    assert (k + 1) * bs == k * bs + bs;
    forall j | 0 <= j < bs ensures Chunk(data, bs, from + k)[j] == Chunk(piece, bs, k)[j] {
      assert piece[k * bs + j] == data[from * bs..from * bs + |piece|][k * bs + j];
    }
  }

  /** Appending bytes changes no block that was already complete. */
  lemma ChunkStable(data: seq<byte>, more: seq<byte>, bs: nat, l: nat)
    requires (l + 1) * bs <= |data|
    ensures Chunk(data + more, bs, l) == Chunk(data, bs, l)
  {
    assert (l + 1) * bs == l * bs + bs;
  }

  lemma StoredExtends(blocks: map<nat, Content>, flat: seq<nat>, flat': seq<nat>, data: seq<byte>, more: seq<byte>,
      bs: nat, to: nat)
    requires Stored(blocks, flat, data, bs, 0, to) && flat <= flat' && to * bs <= |data|
    ensures Stored(blocks, flat', data + more, bs, 0, to)
  {
    forall l | 0 <= l < to ensures flat'[l] in blocks && blocks[flat'[l]] == Data(Chunk(data + more, bs, l)) {
      MulMono(l + 1, to, bs);
      ChunkStable(data, more, bs, l);
    }
  }

  /** Writing the next blocks of `data` into the run that backs them. */
  lemma StoredRun(blocks: map<nat, Content>, flat: seq<nat>, data: seq<byte>, bs: nat, a: nat, from: nat, b: nat,
      n: nat)
    requires NoDup(flat) && Stored(blocks, flat, data, bs, a, from) && from + n <= |flat|
    requires flat[from..from + n] == Span(b, n)
    ensures Stored(PutRun(blocks, b, Chunks(data, bs, from, n)), flat, data, bs, a, from + n)
  {
    hide PutRun, Chunk, Chunks;
    var cs := Chunks(data, bs, from, n);
    PutRunAt(blocks, b, cs);
    forall l | a <= l < from + n
      ensures flat[l] in PutRun(blocks, b, cs) && PutRun(blocks, b, cs)[flat[l]] == Data(Chunk(data, bs, l))
    {
      if from <= l {
        assert flat[l] == flat[from..from + n][l - from] == b + (l - from);
        assert cs[l - from] == Chunk(data, bs, from + (l - from));
      } else {
        SpanMiss(flat, from, b, n, l);
      }
    }
  }

  /** A block outside the slice is none of the slice's blocks. */
  lemma SpanMiss(flat: seq<nat>, from: nat, b: nat, n: nat, l: nat)
    requires NoDup(flat) && from + n <= |flat| && flat[from..from + n] == Span(b, n)
    requires l < |flat| && !(from <= l < from + n)
    ensures !(b <= flat[l] < b + n)
  {
    var s := Span(b, n);
    forall k | 0 <= k < |s| ensures s[k] != flat[l] {
      assert flat[from + k] == flat[from..from + n][k];
    }
    SpanMember(b, n, flat[l]);
  }

  lemma SpanMember(b: nat, n: nat, x: nat)
    ensures x in Span(b, n) <==> b <= x < b + n
  {
    if b <= x < b + n { assert Span(b, n)[x - b] == x; }
  }

  lemma SpanBlocks(flat: seq<nat>, from: nat, b: nat, n: nat)
    requires from + n <= |flat| && flat[from..from + n] == Span(b, n)
    ensures forall x :: b <= x < b + n ==> x in flat
  {
    forall x | b <= x < b + n ensures x in flat {
      assert flat[from + (x - b)] == flat[from..from + n][x - b];
    }
  }

  /** The two block maps differ at most on the blocks of `s`. */
  ghost predicate SameOutside(x: map<nat, Content>, y: map<nat, Content>, s: seq<nat>) {
    forall b :: b !in s ==> (b in x <==> b in y) && (b in x ==> x[b] == y[b])
  }

  lemma RunOutside(blocks: map<nat, Content>, now: map<nat, Content>, flat: seq<nat>, from: nat, b: nat,
      chunks: seq<seq<byte>>)
    requires SameOutside(blocks, now, flat) && from + |chunks| <= |flat|
    requires flat[from..from + |chunks|] == Span(b, |chunks|)
    ensures SameOutside(blocks, PutRun(now, b, chunks), flat)
    ensures forall x :: b <= x < b + |chunks| ==> x in flat
  {
    hide PutRun;
    PutRunAt(now, b, chunks);
    SpanBlocks(flat, from, b, |chunks|);
  }

  /** Where the next blocks of a file go: part of one run, contiguous on disk. */
  lemma RunPiece(rs: seq<Run>, l: nat, n: nat)
    requires Tiled(rs) && RunIndex(rs, l) < |rs|
    requires l + n <= rs[RunIndex(rs, l)].logical + rs[RunIndex(rs, l)].len
    ensures
      var r := rs[RunIndex(rs, l)];
      && l + n <= |FlatRuns(rs)|
      && FlatRuns(rs)[l..l + n] == Span(r.physical + (l - r.logical), n)
  {
    hide Tiled, FlatRuns, RunIndex;
    RunIndexTiled(rs, l);
    var r := rs[RunIndex(rs, l)];
    var f := FlatRuns(rs);
    assert f[l..l + n] == f[r.logical..r.logical + r.len][l - r.logical..l - r.logical + n];
  }

  lemma ChunksOfPiece(content: seq<byte>, bs: nat, l0: nat, data: seq<byte>, done: nat, n: nat)
    requires l0 * bs + |data| <= |content| && content[l0 * bs..l0 * bs + |data|] == data
    requires (done + n) * bs <= |data|
    ensures Chunks(data, bs, done, n) == Chunks(content, bs, l0 + done, n)
  {
    hide Chunk;
    forall k | 0 <= k < n ensures Chunks(data, bs, done, n)[k] == Chunks(content, bs, l0 + done, n)[k] {
      MulMono(done + k + 1, done + n, bs);
      ChunkOfPiece(content, bs, l0, data, done + k);
    }
  }

  lemma ExactBlocks(n: nat, bs: nat)
    requires 0 < bs && n % bs == 0
    ensures n == n / bs * bs
  {
  }

  lemma BlocksOfSum(a: nat, b: nat, bs: nat)
    requires 0 < bs && a % bs == 0 && b % bs == 0
    ensures (a + b) / bs == a / bs + b / bs && (a + b) % bs == 0
  {
    assert a + b == (a / bs + b / bs) * bs + 0;
    DivModUnique(a / bs + b / bs, 0, bs);
  }

  /** Only data writes. */
  ghost predicate DataOnly(ws: seq<Write>) {
    forall k :: 0 <= k < |ws| ==> ws[k].WRun?
  }

  lemma FileBytesFrame(x: map<nat, Content>, y: map<nat, Content>, flat: seq<nat>, bs: nat, size: nat)
    requires 0 < bs && AgreeOn(x, y, flat)
    ensures FileBytes(x, flat, bs, size) == FileBytes(y, flat, bs, size)
  {
    forall p | 0 <= p < size ensures ByteAt(x, flat, bs, p) == ByteAt(y, flat, bs, p) {
      if p / bs < |flat| { assert flat[p / bs] in flat; }
    }
  }

  /** `piece` is a number of whole blocks of `content`. */
  ghost predicate Piece(bs: nat, at: nat, piece: seq<byte>, content: seq<byte>) {
    0 < bs && at % bs == 0 && |piece| % bs == 0 && at + |piece| <= |content| && content[at..at + |piece|] == piece
  }

  /** The whole blocks among the first `n` bytes are stored. */
  ghost predicate StoredTo(blocks: map<nat, Content>, flat: seq<nat>, content: seq<byte>, bs: nat, n: nat) {
    0 < bs && Stored(blocks, flat, content, bs, 0, n / bs)
  }

  /** The whole blocks among `n` bytes have a place among `m` blocks. */
  predicate Holds(n: nat, bs: nat, m: nat) { 0 < bs && n / bs <= m }
}
