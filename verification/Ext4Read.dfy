/** Reading a file through runs (core/src/fs/ext4/mod.rs, `read_inode_data`):
    the bytes are those a block-at-a-time lookup would give. */
module Ext4Read {
  import opened Arith
  import opened Bytes

  /** What mapping one logical block answers: the physical block, if any, and
      how many blocks continue the same way; nothing if the tree is refused. */
  datatype Mapped = Refused | Mapped(phys: Option<nat>, run: nat)

  /** The runs reported by `m` agree with the block-at-a-time lookup `look`:
      the next `run` blocks are consecutive, or are all holes. */
  ghost predicate RunsAgree(m: nat -> Mapped, look: nat -> Option<nat>) {
    forall l :: m(l).Mapped? ==> RunAgrees(m(l), look, l)
  }

  ghost predicate RunAgrees(x: Mapped, look: nat -> Option<nat>, l: nat)
    requires x.Mapped?
  {
    && 0 < x.run
    && forall k :: l <= k < l + x.run ==> look(k) == if x.phys.Some? then Some(x.phys.value + (k - l)) else None
  }

  /** The byte at offset `p`: zero in a hole. */
  function FileByte(look: nat -> Option<nat>, dev: nat -> byte, bs: nat, p: nat): byte
    requires 0 < bs
  {
    if look(p / bs).Some? then dev(look(p / bs).value * bs + p % bs) else 0
  }

  /** The bytes `buf` are the file's from offset `p` on. */
  ghost predicate ReadsAs(buf: seq<byte>, look: nat -> Option<nat>, dev: nat -> byte, bs: nat, p: nat)
    requires 0 < bs
  {
    forall j :: 0 <= j < |buf| ==> buf[j] == FileByte(look, dev, bs, p + j)
  }

  /** `n` bytes of a run, `within` bytes after its start. */
  function RunData(x: Mapped, dev: nat -> byte, bs: nat, within: nat, n: nat): (s: seq<byte>)
    requires x.Mapped?
    ensures |s| == n
  {
    if x.phys.Some? then seq(n, j requires 0 <= j => dev(x.phys.value * bs + within + j)) else seq(n, _ => 0)
  }

  /** Where byte `w + j` of a run that starts at logical block `l` lies. */
  lemma RunPlace(l: nat, w: nat, j: nat, run: nat, bs: nat) returns (q: nat, m: nat)
    requires 0 < bs && w + j < run * bs
    ensures q < run && m < bs && w + j == q * bs + m
    ensures (l * bs + w + j) / bs == l + q && (l * bs + w + j) % bs == m
  {
    q, m := (w + j) / bs, (w + j) % bs;
    assert w + j == q * bs + m;
    QuotientBelow(w + j, run, bs);
    assert l * bs + w + j == (l + q) * bs + m;
    DivModUnique(l + q, m, bs);
  }

  /** Consecutive bytes inside one run come from consecutive addresses. */
  lemma RunReads(look: nat -> Option<nat>, dev: nat -> byte, bs: nat, p: nat, x: Mapped, n: nat)
    requires 0 < bs && x.Mapped? && RunAgrees(x, look, p / bs) && p % bs + n <= x.run * bs
    ensures ReadsAs(RunData(x, dev, bs, p % bs, n), look, dev, bs, p)
  {
    var l, w := p / bs, p % bs;
    var s := RunData(x, dev, bs, w, n);
    assert p == l * bs + w;
    forall j | 0 <= j < n ensures s[j] == FileByte(look, dev, bs, p + j) {
      var q, m := RunPlace(l, w, j, x.run, bs);
      assert look(l + q) == if x.phys.Some? then Some(x.phys.value + (l + q - l)) else None;
      if x.phys.Some? {
        assert (x.phys.value + q) * bs == x.phys.value * bs + q * bs;
      }
    }
  }

  lemma ReadsMore(a: seq<byte>, b: seq<byte>, look: nat -> Option<nat>, dev: nat -> byte, bs: nat, p: nat)
    requires 0 < bs && ReadsAs(a, look, dev, bs, p) && ReadsAs(b, look, dev, bs, p + |a|)
    ensures ReadsAs(a + b, look, dev, bs, p)
  {
    hide FileByte;
    forall j | |a| <= j < |a + b| ensures (a + b)[j] == FileByte(look, dev, bs, p + j) {
      assert (a + b)[j] == b[j - |a|];
      assert p + j == p + |a| + (j - |a|);
    }
  }

  /** How many bytes a read of `len` bytes at `offset` returns. */
  function Want(size: nat, offset: nat, len: nat): nat {
    if offset >= size then 0 else Min(len, size - offset)
  }

  /** The run at block `l` is refused: no index covers it, or it leaves the
      device. */
  predicate BadRun(m: nat -> Mapped, count: nat, l: nat) {
    m(l).Refused? || (m(l).phys.Some? && m(l).phys.value + m(l).run > count)
  }

  /** How much of the run at offset `p` a read still wants. */
  lemma TakeSome(p: nat, bs: nat, run: nat)
    requires 0 < bs && 0 < run
    ensures p % bs < bs <= run * bs && p / bs * bs <= p
  {
    MulMono(1, run, bs);
  }

  /** `read_inode_data`, on a device of `count` blocks. */
  method ReadData(m: nat -> Mapped, ghost look: nat -> Option<nat>, dev: nat -> byte, bs: nat, count: nat, size: nat,
      offset: nat, len: nat)
    returns (r: Option<seq<byte>>)
    requires 0 < bs && RunsAgree(m, look)
    ensures r.Some? ==> |r.value| == Want(size, offset, len) && ReadsAs(r.value, look, dev, bs, offset)
    ensures r.None? ==> exists p: nat :: offset <= p < offset + Want(size, offset, len) && BadRun(m, count, p / bs)
  {
    hide ReadsAs, RunData, BadRun;
    var want := Want(size, offset, len);
    var buf: seq<byte> := [];
    NothingRead(look, dev, bs, offset);
    while |buf| < want
      invariant |buf| <= want && ReadsAs(buf, look, dev, bs, offset)
      decreases want - |buf|
    {
      var pos := offset + |buf|;
      assert offset <= pos < size;
      var x := m(pos / bs);
      if BadRun(m, count, pos / bs) {
        TakeSome(pos, bs, 1);
        return None;
      }
      GoodRun(m, look, count, pos / bs);
      TakeSome(pos, bs, x.run);
      var take := Min(x.run * bs - pos % bs, want - |buf|);
      RunReads(look, dev, bs, pos, x, take);
      ReadsMore(buf, RunData(x, dev, bs, pos % bs, take), look, dev, bs, offset);
      buf := buf + RunData(x, dev, bs, pos % bs, take);
    }
    r := Some(buf);
  }

  lemma NothingRead(look: nat -> Option<nat>, dev: nat -> byte, bs: nat, p: nat)
    requires 0 < bs
    ensures ReadsAs([], look, dev, bs, p)
  {
  }

  lemma GoodRun(m: nat -> Mapped, look: nat -> Option<nat>, count: nat, l: nat)
    requires RunsAgree(m, look) && !BadRun(m, count, l)
    ensures m(l).Mapped? && RunAgrees(m(l), look, l)
  {
  }

  /** Reading a range in two parts gives the same bytes as reading it at once. */
  lemma SplitRead(look: nat -> Option<nat>, dev: nat -> byte, bs: nat, size: nat, offset: nat, a: nat, b: nat,
      x: seq<byte>, y: seq<byte>, z: seq<byte>)
    requires 0 < bs && |x| == Want(size, offset, a) && |y| == Want(size, offset + a, b)
    requires |z| == Want(size, offset, a + b)
    requires ReadsAs(x, look, dev, bs, offset) && ReadsAs(y, look, dev, bs, offset + a)
    requires ReadsAs(z, look, dev, bs, offset)
    ensures x + y == z
  {
    hide FileByte;
    forall j | |x| <= j < |z| ensures z[j] == y[j - |x|] {
      assert |x| == a;
      assert offset + j == offset + a + (j - a);
    }
  }
}
