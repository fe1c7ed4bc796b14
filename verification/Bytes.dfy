/** Little-endian fields inside byte sequences, and the in-place stores that
    every on-disk encoder of the repository is built from. */
module Bytes {

  type byte = x: int | 0 <= x < 256

  const U16_LIMIT: nat := 0x1_0000
  const U32_LIMIT: nat := 0x1_0000_0000
  const U64_LIMIT: nat := 0x1_0000_0000_0000_0000

  datatype Option<+T> = None | Some(value: T)

  function U16(s: seq<byte>, o: nat): (v: nat)
    requires o + 2 <= |s|
    ensures v < U16_LIMIT
  {
    s[o] as int + 0x100 * s[o + 1] as int
  }

  function U32(s: seq<byte>, o: nat): (v: nat)
    requires o + 4 <= |s|
    ensures v < U32_LIMIT
  {
    U16(s, o) + U16_LIMIT * U16(s, o + 2)
  }

  function U64(s: seq<byte>, o: nat): (v: nat)
    requires o + 8 <= |s|
    ensures v < U64_LIMIT
  {
    U32(s, o) + U32_LIMIT * U32(s, o + 4)
  }

  /** The low 16 bits of `v`, least significant byte first. */
  function Le16(v: nat): (s: seq<byte>)
    ensures |s| == 2
  {
    [v % 0x100, v / 0x100 % 0x100]
  }

  function Le32(v: nat): (s: seq<byte>)
    ensures |s| == 4
  {
    Le16(v % U16_LIMIT) + Le16(v / U16_LIMIT % U16_LIMIT)
  }

  function Le64(v: nat): (s: seq<byte>)
    ensures |s| == 8
  {
    Le32(v % U32_LIMIT) + Le32(v / U32_LIMIT % U32_LIMIT)
  }

  /** A 16-bit field holding `Le16(v)` reads back as `v` truncated to 16 bits. */
  lemma Le16RoundTrip(s: seq<byte>, o: nat, v: nat)
    requires o + 2 <= |s| && s[o..o + 2] == Le16(v)
    ensures U16(s, o) == v % U16_LIMIT
  {
    assert s[o] == s[o..o + 2][0] && s[o + 1] == s[o..o + 2][1];
  }

  lemma Le32RoundTrip(s: seq<byte>, o: nat, v: nat)
    requires o + 4 <= |s| && s[o..o + 4] == Le32(v)
    ensures U32(s, o) == v % U32_LIMIT
  {
    var lo, hi := v % U16_LIMIT, v / U16_LIMIT % U16_LIMIT;
    hide U16, Le16;
    Halves(s, o, 2, Le16(lo), Le16(hi));
    Le16RoundTrip(s, o, lo);
    Le16RoundTrip(s, o + 2, hi);
    SplitModulus(v, U16_LIMIT);
  }

  /** A field in two halves. */
  lemma Halves(s: seq<byte>, o: nat, n: nat, lo: seq<byte>, hi: seq<byte>)
    requires |lo| == |hi| == n && o + 2 * n <= |s| && s[o..o + 2 * n] == lo + hi
    ensures s[o..o + n] == lo && s[o + n..o + 2 * n] == hi
  {
    assert s[o..o + n] == s[o..o + 2 * n][..n];
    assert s[o + n..o + 2 * n] == s[o..o + 2 * n][n..];
  }

  lemma SplitModulus(v: nat, w: nat)
    requires w == U16_LIMIT || w == U32_LIMIT
    ensures v % (w * w) == v % w + w * (v / w % w)
    ensures v % w % w == v % w && v / w % w % w == v / w % w
  {
    var hi, lo := v / w, v % w;
    var top, mid := hi / w, hi % w;
    if w == U16_LIMIT {
      assert v == U32_LIMIT * top + (U16_LIMIT * mid + lo);
    } else {
      assert v == U64_LIMIT * top + (U32_LIMIT * mid + lo);
    }
  }

  lemma Le64RoundTrip(s: seq<byte>, o: nat, v: nat)
    requires o + 8 <= |s| && s[o..o + 8] == Le64(v)
    ensures U64(s, o) == v % U64_LIMIT
  {
    var lo, hi := v % U32_LIMIT, v / U32_LIMIT % U32_LIMIT;
    hide U32, U16, Le32, Le16;
    Halves(s, o, 4, Le32(lo), Le32(hi));
    Le32RoundTrip(s, o, lo);
    Le32RoundTrip(s, o + 4, hi);
    SplitModulus(v, U32_LIMIT);
  }

  /** A field holds the encoding of its value. */
  lemma Le16Of(s: seq<byte>, o: nat)
    requires o + 2 <= |s|
    ensures s[o..o + 2] == Le16(U16(s, o))
  {
  }

  lemma Le32Of(s: seq<byte>, o: nat)
    requires o + 4 <= |s|
    ensures s[o..o + 4] == Le32(U32(s, o))
  {
    hide U16, Le16;
    Le16Of(s, o);
    Le16Of(s, o + 2);
    assert s[o..o + 4] == s[o..o + 2] + s[o + 2..o + 4];
  }

  lemma Le64Of(s: seq<byte>, o: nat)
    requires o + 8 <= |s|
    ensures s[o..o + 8] == Le64(U64(s, o))
  {
    hide U32, Le32;
    Le32Of(s, o);
    Le32Of(s, o + 4);
    assert s[o..o + 8] == s[o..o + 4] + s[o + 4..o + 8];
  }

  lemma Assoc<T>(a: seq<T>, b: seq<T>, c: seq<T>)
    ensures (a + b) + c == a + (b + c)
  {
  }

  lemma Slice(b: seq<byte>, o: nat, n: nat, i: nat, j: nat)
    requires o + n <= |b| && i <= j <= n
    ensures b[o..o + n][i..j] == b[o + i..o + j]
  {
    var x, y := b[o..o + n][i..j], b[o + i..o + j];
    assert |x| == |y|;
    forall k | 0 <= k < |x| ensures x[k] == y[k] {
      assert x[k] == b[o..o + n][i + k];
    }
  }

  /** `s` with the bytes from `o` on replaced by `v`. */
  function Splice(s: seq<byte>, o: nat, v: seq<byte>): (r: seq<byte>)
    requires o + |v| <= |s|
    ensures |r| == |s|
    ensures r[o..o + |v|] == v
    ensures forall k :: 0 <= k < |s| && !(o <= k < o + |v|) ==> r[k] == s[k]
  {
    s[..o] + v + s[o + |v|..]
  }

  /** Store `v` at offset `o` of a buffer, in place. */
  method Store(buf: array<byte>, o: nat, v: seq<byte>)
    requires o + |v| <= buf.Length
    modifies buf
    ensures buf[..] == Splice(old(buf[..]), o, v)
  {
    for i := 0 to |v|
      invariant forall k :: 0 <= k < i ==> buf[o + k] == v[k]
      invariant forall k :: 0 <= k < buf.Length && !(o <= k < o + i) ==> buf[k] == old(buf[k])
    {
      buf[o + i] := v[i];
    }
    assert buf[..] == Splice(old(buf[..]), o, v);
  }
}
