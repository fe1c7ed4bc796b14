/** An encrypted volume over a SCSI drive (core/src/luks/volume.rs and the
    tweak loops of core/src/luks/keyslot.rs): one flat array of plaintext,
    however requests are aligned and chunked. */
module Luks {
  import opened Arith
  import opened Bytes
  import opened Scsi

  /** A sector cipher: what `encrypt_sector` and `decrypt_sector` compute under
      a tweak. */
  datatype Cipher = Cipher(enc: (nat, seq<byte>) -> seq<byte>, dec: (nat, seq<byte>) -> seq<byte>)

  ghost predicate CipherOk(c: Cipher, ss: nat) {
    forall t, s :: |s| == ss ==> Inverse(c, ss, t, s)
  }

  ghost predicate Inverse(c: Cipher, ss: nat, t: nat, s: seq<byte>) {
    |c.enc(t, s)| == ss && |c.dec(t, s)| == ss && c.dec(t, c.enc(t, s)) == s && c.enc(t, c.dec(t, s)) == s
  }

  // ----- sectors -----

  /** There is a sector `k` in `s`. */
  predicate HasSector(s: seq<byte>, ss: nat, k: nat) { k * ss + ss <= |s| }

  function Sector(s: seq<byte>, ss: nat, k: nat): (r: seq<byte>)
    requires HasSector(s, ss, k)
    ensures |r| == ss
  {
    s[k * ss..k * ss + ss]
  }

  /** `out` is `s` with sector `k` passed through `f` under the tweak
      `first + k * step`, for every `k` below `n`; the rest is as in `s`. */
  ghost predicate Through(s: seq<byte>, out: seq<byte>, ss: nat, n: nat, f: (nat, seq<byte>) -> seq<byte>, first: nat,
      step: nat) {
    && |out| == |s| && n * ss <= |s|
    && (forall k :: 0 <= k < n ==> Turned(s, out, ss, k, f, first + k * step))
    && (forall j :: n * ss <= j < |s| ==> out[j] == s[j])
  }

  ghost predicate Turned(s: seq<byte>, out: seq<byte>, ss: nat, k: nat, f: (nat, seq<byte>) -> seq<byte>, t: nat) {
    HasSector(s, ss, k) && HasSector(out, ss, k) && Sector(out, ss, k) == f(t, Sector(s, ss, k))
  }

  lemma SectorIn(s: seq<byte>, ss: nat, k: nat, n: nat)
    requires k < n && n * ss <= |s|
    ensures HasSector(s, ss, k) && k * ss + ss <= n * ss
  {
    MulMono(k + 1, n, ss);
    assert (k + 1) * ss == k * ss + ss;
  }

  /** Sectors do not overlap. */
  lemma SectorsApart(ss: nat, j: nat, k: nat)
    ensures j < k ==> j * ss + ss <= k * ss
  {
    if j < k {
      MulMono(j + 1, k, ss);
      assert (j + 1) * ss == j * ss + ss;
    }
  }

  /** One more sector is done. */
  lemma ThroughMore(s: seq<byte>, now: seq<byte>, next: seq<byte>, ss: nat, n: nat, f: (nat, seq<byte>) -> seq<byte>,
      first: nat, step: nat)
    requires Through(s, now, ss, n, f, first, step) && (n + 1) * ss <= |s|
    requires |f(first + n * step, s[n * ss..n * ss + ss])| == ss
    requires |now| == |s| && n * ss + ss <= |s|
    requires next == Splice(now, n * ss, f(first + n * step, s[n * ss..n * ss + ss]))
    ensures Through(s, next, ss, n + 1, f, first, step)
  {
    hide Splice, Turned;
    forall k | 0 <= k < n + 1 ensures Turned(s, next, ss, k, f, first + k * step) {
      SectorIn(s, ss, k, n + 1);
      if k < n {
        SectorsApart(ss, k, n);
        StillTurned(s, now, next, ss, k, f, first + k * step);
      } else {
        NowTurned(s, next, ss, n, f, first + n * step);
      }
    }
    assert (n + 1) * ss == n * ss + ss;
  }

  lemma StillTurned(s: seq<byte>, now: seq<byte>, next: seq<byte>, ss: nat, k: nat, f: (nat, seq<byte>) -> seq<byte>,
      t: nat)
    requires Turned(s, now, ss, k, f, t) && |next| == |now|
    requires forall j :: k * ss <= j < k * ss + ss ==> next[j] == now[j]
    ensures Turned(s, next, ss, k, f, t)
  {
    SliceEq(now, next, k * ss, ss);
  }

  lemma NowTurned(s: seq<byte>, next: seq<byte>, ss: nat, k: nat, f: (nat, seq<byte>) -> seq<byte>, t: nat)
    requires k * ss + ss <= |s| == |next| && next[k * ss..k * ss + ss] == f(t, s[k * ss..k * ss + ss])
    ensures Turned(s, next, ss, k, f, t)
  {
  }

  lemma SliceEq(x: seq<byte>, y: seq<byte>, a: nat, n: nat)
    requires a + n <= |x| == |y| && forall k :: a <= k < a + n ==> y[k] == x[k]
    ensures x[a..a + n] == y[a..a + n]
  {
  }

  /** The tweak loop of `xts_encrypt` and `xts_decrypt`, in place over the first
      `len` bytes of the buffer. */
  method Xts(f: (nat, seq<byte>) -> seq<byte>, keyLen: nat, buf: array<byte>, len: nat, ss: nat, first: nat,
      step: nat) returns (ok: bool)
    requires len <= buf.Length && forall t, s :: |s| == ss ==> |f(t, s)| == ss
    modifies buf
    ensures ok <==> 0 < ss && len % ss == 0 && (keyLen == 32 || keyLen == 64)
    ensures !ok ==> buf[..] == old(buf[..])
    ensures ok ==> Through(old(buf[..]), buf[..], ss, len / ss, f, first, step)
  {
    hide Splice, Turned;
    if ss == 0 || len % ss != 0 {
      return false;
    }
    if keyLen != 32 && keyLen != 64 {
      return false;
    }
    ghost var s := buf[..];
    var n := len / ss;
    Whole(len, ss);
    for i := 0 to n
      invariant Through(s, buf[..], ss, i, f, first, step)
    {
      SectorIn(s, ss, i, n);
      MulMono(i + 1, n, ss);
      ghost var now := buf[..];
      SliceEq(s, now, i * ss, ss);
      assert buf[i * ss..i * ss + ss] == now[i * ss..i * ss + ss];
      Store(buf, i * ss, f(first + i * step, buf[i * ss..i * ss + ss]));
      ThroughMore(s, now, buf[..], ss, i, f, first, step);
    }
    ok := true;
  }

  lemma Whole(len: nat, ss: nat)
    requires 0 < ss && len % ss == 0
    ensures len / ss * ss == len
  {
  }

  // ----- the plaintext of a ciphertext area -----

  /** How many bytes of an area are whole sectors. */
  function WholeLen(n: nat, ss: nat): (w: nat)
    requires 0 < ss
    ensures w <= n
  {
    n / ss * ss
  }

  datatype Keying = Keying(cipher: Cipher, ss: nat, iv: nat, step: nat)

  ghost predicate KeyingOk(q: Keying) { 0 < q.ss && CipherOk(q.cipher, q.ss) }

  function Tweak(q: Keying, k: nat): nat { q.iv + k * q.step }

  lemma InWhole(n: nat, ss: nat, p: nat)
    requires 0 < ss && p < WholeLen(n, ss)
    ensures p / ss * ss + ss <= n && p % ss < ss && p == p / ss * ss + p % ss
  {
    QuotientBelow(p, n / ss, ss);
    MulMono(p / ss + 1, n / ss, ss);
    assert (p / ss + 1) * ss == p / ss * ss + ss;
  }

  /** Byte `p` of the plaintext. */
  ghost function PlainByte(q: Keying, area: seq<byte>, p: nat): byte
    requires KeyingOk(q) && p < WholeLen(|area|, q.ss)
  {
    InWhole(|area|, q.ss, p);
    assert Inverse(q.cipher, q.ss, Tweak(q, p / q.ss), Sector(area, q.ss, p / q.ss));
    q.cipher.dec(Tweak(q, p / q.ss), Sector(area, q.ss, p / q.ss))[p % q.ss]
  }

  /** The plaintext: sector `k` decrypted under the tweak `iv + k * step`. */
  ghost function Plain(q: Keying, area: seq<byte>): (r: seq<byte>)
    requires KeyingOk(q)
    ensures |r| == WholeLen(|area|, q.ss)
    ensures forall p :: 0 <= p < |r| ==> r[p] == PlainByte(q, area, p)
  {
    seq(WholeLen(|area|, q.ss), p requires 0 <= p < WholeLen(|area|, q.ss) => PlainByte(q, area, p))
  }

  /** Where byte `first * ss + x` falls. */
  lemma ByteOf(ss: nat, first: nat, x: nat)
    requires 0 < ss
    ensures (first * ss + x) / ss == first + x / ss && (first * ss + x) % ss == x % ss
    ensures x == x / ss * ss + x % ss && x % ss < ss
  {
    assert x == x / ss * ss + x % ss;
    assert first * ss + x == (first + x / ss) * ss + x % ss;
    DivModUnique(first + x / ss, x % ss, ss);
  }

  lemma TweakSplit(q: Keying, first: nat, k: nat)
    ensures Tweak(q, first) + k * q.step == Tweak(q, first + k)
  {
    assert (first + k) * q.step == first * q.step + k * q.step;
  }

  lemma SectorOfPart(area: seq<byte>, ss: nat, first: nat, part: seq<byte>, k: nat)
    requires first * ss + |part| <= |area| && part == area[first * ss..first * ss + |part|] && HasSector(part, ss, k)
    ensures HasSector(area, ss, first + k) && Sector(area, ss, first + k) == Sector(part, ss, k)
  {
    hide Sector;
    Distribute(first, k, ss);
    SectorInside(area, ss, first * ss, first + k, part, k, k * ss);
  }

  lemma SectorInside(area: seq<byte>, ss: nat, a: nat, k': nat, part: seq<byte>, k: nat, b: nat)
    requires a + |part| <= |area| && part == area[a..a + |part|] && b + ss <= |part| && b == k * ss && a + b == k' * ss
    ensures HasSector(part, ss, k) && HasSector(area, ss, k') && Sector(area, ss, k') == Sector(part, ss, k)
  {
    hide Sector, HasSector;
    Inner(area, a, |part|, b, ss);
    SectorIs(area, ss, k', a + b);
    SectorIs(part, ss, k, b);
  }

  lemma SectorIs(s: seq<byte>, ss: nat, k: nat, at: nat)
    requires at == k * ss && at + ss <= |s|
    ensures HasSector(s, ss, k) && Sector(s, ss, k) == s[at..at + ss]
  {
  }

  lemma Inner(s: seq<byte>, a: nat, n: nat, b: nat, w: nat)
    requires a + n <= |s| && b + w <= n
    ensures s[a..a + n][b..b + w] == s[a + b..a + b + w]
  {
    var x, y := s[a..a + n][b..b + w], s[a + b..a + b + w];
    forall j | 0 <= j < w ensures x[j] == y[j] {
      assert x[j] == s[a..a + n][b + j];
    }
  }

  /** Decrypting sectors `first` on gives that part of the plaintext. */
  lemma DecryptedPart(q: Keying, area: seq<byte>, first: nat, n: nat, part: seq<byte>, out: seq<byte>)
    requires KeyingOk(q) && |part| == n * q.ss && first * q.ss + |part| <= |area|
    requires part == area[first * q.ss..first * q.ss + |part|]
    requires Through(part, out, q.ss, n, q.cipher.dec, Tweak(q, first), q.step)
    ensures first * q.ss + |out| <= |Plain(q, area)| && out == Plain(q, area)[first * q.ss..first * q.ss + |out|]
  {
    hide Turned, PlainByte, Plain;
    PartWhole(first, n, q.ss, |area|);
    var whole := Plain(q, area);
    forall x | 0 <= x < |out| ensures out[x] == whole[first * q.ss + x] {
      DecryptedByte(q, area, first, n, part, out, x);
    }
  }

  lemma PartWhole(first: nat, n: nat, ss: nat, len: nat)
    requires 0 < ss && first * ss + n * ss <= len
    ensures first * ss + n * ss <= WholeLen(len, ss)
  {
    assert (first + n) * ss == first * ss + n * ss;
    assert len == len / ss * ss + len % ss;
    Distribute(len / ss, 1, ss);
    if len / ss < first + n {
      MulMono(len / ss + 1, first + n, ss);
      assert false;
    }
    MulMono(first + n, len / ss, ss);
  }

  lemma DecryptedByte(q: Keying, area: seq<byte>, first: nat, n: nat, part: seq<byte>, out: seq<byte>, x: nat)
    requires KeyingOk(q) && |part| == n * q.ss && first * q.ss + |part| <= |area|
    requires part == area[first * q.ss..first * q.ss + |part|]
    requires Through(part, out, q.ss, n, q.cipher.dec, Tweak(q, first), q.step)
    requires x < |out| && first * q.ss + x < WholeLen(|area|, q.ss)
    ensures out[x] == PlainByte(q, area, first * q.ss + x)
  {
    hide WholeLen, CipherOk, Tweak, HasSector;
    var k := x / q.ss;
    ByteOf(q.ss, first, x);
    QuotientBelow(x, n, q.ss);
    assert Turned(part, out, q.ss, k, q.cipher.dec, Tweak(q, first) + k * q.step);
    TweakSplit(q, first, k);
    SectorOfPart(area, q.ss, first, part, k);
    SectorByte(out, q.ss, k, x % q.ss);
  }

  lemma SectorByte(s: seq<byte>, ss: nat, k: nat, r: nat)
    requires HasSector(s, ss, k) && r < ss
    ensures k * ss + r < |s| && Sector(s, ss, k)[r] == s[k * ss + r]
  {
  }

  /** Storing encrypted sectors stores their plaintext. */
  lemma EncryptedPart(q: Keying, area: seq<byte>, area': seq<byte>, first: nat, n: nat, plain: seq<byte>,
      out: seq<byte>)
    requires KeyingOk(q) && |plain| == n * q.ss && first * q.ss + |plain| <= |area|
    requires Through(plain, out, q.ss, n, q.cipher.enc, Tweak(q, first), q.step) && |out| == |plain|
    requires area' == Splice(area, first * q.ss, out)
    ensures first * q.ss + |plain| <= |Plain(q, area)| && Plain(q, area') == Splice(Plain(q, area), first * q.ss, plain)
  {
    hide Turned, PlainByte, Plain, Splice;
    PartWhole(first, n, q.ss, |area|);
    var x, y := Plain(q, area'), Splice(Plain(q, area), first * q.ss, plain);
    forall p | 0 <= p < |x| ensures x[p] == y[p] {
      if first * q.ss <= p < first * q.ss + |plain| {
        EncryptedByte(q, area, area', first, n, plain, out, p - first * q.ss);
        assert y[first * q.ss..first * q.ss + |plain|][p - first * q.ss] == plain[p - first * q.ss];
      } else {
        OtherByte(q, area, area', first, n, out, p);
      }
    }
  }

  lemma EncryptedByte(q: Keying, area: seq<byte>, area': seq<byte>, first: nat, n: nat, plain: seq<byte>,
      out: seq<byte>, x: nat)
    requires KeyingOk(q) && |plain| == n * q.ss && first * q.ss + |plain| <= |area|
    requires Through(plain, out, q.ss, n, q.cipher.enc, Tweak(q, first), q.step) && |out| == |plain|
    requires area' == Splice(area, first * q.ss, out) && x < |plain| && first * q.ss + x < WholeLen(|area'|, q.ss)
    ensures PlainByte(q, area', first * q.ss + x) == plain[x]
  {
    hide WholeLen, CipherOk, Tweak, Splice;
    var k := x / q.ss;
    ByteOf(q.ss, first, x);
    QuotientBelow(x, n, q.ss);
    assert Turned(plain, out, q.ss, k, q.cipher.enc, Tweak(q, first) + k * q.step);
    TweakSplit(q, first, k);
    SectorOfPart(area', q.ss, first, out, k);
    CipherAt(q, Tweak(q, first + k), Sector(plain, q.ss, k));
    assert Sector(plain, q.ss, k)[x % q.ss] == plain[k * q.ss + x % q.ss];
  }

  lemma CipherAt(q: Keying, t: nat, s: seq<byte>)
    requires KeyingOk(q) && |s| == q.ss
    ensures Inverse(q.cipher, q.ss, t, s)
  {
  }

  lemma OtherByte(q: Keying, area: seq<byte>, area': seq<byte>, first: nat, n: nat, out: seq<byte>, p: nat)
    requires KeyingOk(q) && |out| == n * q.ss && first * q.ss + |out| <= |area|
    requires area' == Splice(area, first * q.ss, out)
    requires p < WholeLen(|area|, q.ss) && !(first * q.ss <= p < first * q.ss + |out|)
    ensures PlainByte(q, area', p) == PlainByte(q, area, p)
  {
    hide WholeLen, CipherOk, Splice;
    var k := p / q.ss;
    InWhole(|area|, q.ss, p);
    Outside(q.ss, first, n, k, p % q.ss);
    SliceEq(area, area', k * q.ss, q.ss);
  }

  /** A sector with a byte outside a run of sectors lies outside it. */
  lemma Outside(ss: nat, first: nat, n: nat, k: nat, r: nat)
    requires r < ss && !(first * ss <= k * ss + r < first * ss + n * ss)
    ensures k * ss + ss <= first * ss || first * ss + n * ss <= k * ss
  {
    assert (first + n) * ss == first * ss + n * ss;
    if first <= k < first + n {
      SectorsApart(ss, first, k);
      SectorsApart(ss, k, first + n);
      assert false;
    }
    SectorsApart(ss, k, first);
    if first + n <= k { MulMono(first + n, k, ss); }
  }

  // ----- the volume -----

  const WRITE_CHUNK_BYTES: nat := 128 * 1024

  /** The sectors that cover a byte range. */
  datatype Cover = Cover(first: nat, count: nat, skip: nat)

  /** Where the covering sectors start, in bytes. */
  function Start(v: Cover, ss: nat): nat { v.first * ss }

  /** How many bytes they are. */
  function Size(v: Cover, ss: nat): nat { v.count * ss }

  function CoverOf(offset: nat, len: nat, ss: nat): Cover
    requires 0 < ss
  {
    CoverNat(offset, len, ss);
    Cover(offset / ss, CeilDiv(offset + len, ss) - offset / ss, offset - offset / ss * ss)
  }

  lemma CoverNat(offset: nat, len: nat, ss: nat)
    requires 0 < ss
    ensures offset / ss <= CeilDiv(offset + len, ss) && offset / ss * ss <= offset
  {
    CeilUp(offset + len, ss);
    var a, b := offset / ss, CeilDiv(offset + len, ss);
    assert offset == a * ss + offset % ss;
    if b < a { MulMono(b + 1, a, ss); Distribute(b, 1, ss); assert false; }
  }

  lemma CeilUp(x: nat, ss: nat)
    requires 0 < ss
    ensures x <= CeilDiv(x, ss) * ss < x + ss
  {
    var q := CeilDiv(x, ss);
    assert x + ss - 1 == q * ss + (x + ss - 1) % ss;
  }

  lemma CoverOk(offset: nat, len: nat, ss: nat)
    requires 0 < ss
    ensures
      var v := CoverOf(offset, len, ss);
      && Start(v, ss) + v.skip == offset && v.skip < ss && v.skip + len <= Size(v, ss)
      && Start(v, ss) + Size(v, ss) < offset + len + ss
      && Size(v, ss) % ss == 0 && Size(v, ss) / ss == v.count && (0 < len ==> 0 < v.count)
  {
    CoverNat(offset, len, ss);
    CeilUp(offset + len, ss);
    var v := CoverOf(offset, len, ss);
    Distribute(v.first, v.count, ss);
    assert offset == offset / ss * ss + offset % ss;
    DivModUnique(v.count, 0, ss);
    assert v.count == 0 ==> v.count * ss == 0;
  }

  lemma CoverBytes(offset: nat, len: nat, ss: nat)
    requires 0 < ss
    ensures
      var v := CoverOf(offset, len, ss);
      Start(v, ss) + v.skip == offset && v.skip + len <= Size(v, ss) && (0 < len ==> 0 < v.count)
  {
    CoverOk(offset, len, ss);
  }

  /** The covering sectors of a range inside a whole number of sectors. */
  lemma CoverInside(offset: nat, len: nat, ss: nat, limit: nat)
    requires 0 < ss && limit % ss == 0 && offset + len <= limit
    ensures
      var v := CoverOf(offset, len, ss);
      Start(v, ss) + Size(v, ss) <= limit
  {
    hide CoverOf;
    CoverOk(offset, len, ss);
    var v := CoverOf(offset, len, ss);
    Distribute(v.first, v.count, ss);
    Whole(limit, ss);
    Distribute(limit / ss, 1, ss);
    WholeBelow(v.first + v.count, limit / ss, ss);
  }

  lemma WholeBelow(a: nat, b: nat, ss: nat)
    requires a * ss < b * ss + ss
    ensures a * ss <= b * ss
  {
    Distribute(b, 1, ss);
    if b < a {
      MulMono(b + 1, a, ss);
      assert false;
    }
    MulMono(a, b, ss);
  }

  /** What an accepted header says: a supported sector size and key length, and
      a segment of whole sectors. */
  predicate HeaderOk(segLen: Option<nat>, ss: nat, keyLen: nat) {
    && (ss == 512 || ss == 1024 || ss == 2048 || ss == 4096) && (keyLen == 32 || keyLen == 64)
    && (segLen.Some? ==> segLen.value % ss == 0)
  }

  /** A request is refused within bounds only after the drive was asked. */
  predicate Spoke(before: nat, after: nat, r: Result<()>) {
    before <= after && (r.Err? && r.error != OutOfBounds ==> before < after)
  }

  class LuksVolume {
    const dev: ScsiDevice
    const base: nat
    const segLen: Option<nat>
    const q: Keying
    const keyLen: nat
    var scratch: array<byte>

    ghost predicate Valid()
      reads this, dev, dev.bus
    {
      dev.Valid() && KeyingOk(q) && HeaderOk(segLen, q.ss, keyLen)
    }

    /** The container's ciphertext, from the segment to the end of the device. */
    ghost function Area(): seq<byte>
      reads dev.bus
    {
      if base <= |dev.bus.medium| then dev.bus.medium[base..] else []
    }

    ghost function Plaintext(): seq<byte>
      requires KeyingOk(q)
      reads dev.bus
    {
      Plain(q, Area())
    }

    constructor (dev: ScsiDevice, base: nat, segLen: Option<nat>, q: Keying, keyLen: nat)
      requires dev.Valid() && KeyingOk(q) && HeaderOk(segLen, q.ss, keyLen)
      ensures Valid() && this.dev == dev && this.base == base && this.segLen == segLen && this.q == q && fresh(scratch)
    {
      this.dev, this.base, this.segLen, this.q, this.keyLen := dev, base, segLen, q, keyLen;
      this.scratch := new byte[0];
    }

    /** The scratch buffer, grown if need be. */
    method Scratch(n: nat)
      modifies this`scratch
      ensures n <= scratch.Length && (scratch == old(scratch) || fresh(scratch))
    {
      if scratch.Length < n {
        scratch := new byte[n];
      }
    }

    /** Fetch the covering sectors into the scratch buffer and decrypt them. */
    method Fetch(v: Cover) returns (r: Result<()>)
      requires Valid() && Size(v, q.ss) <= scratch.Length && 0 < v.count
      modifies dev`tag, dev.bus, scratch
      ensures Valid() && dev.bus.medium == old(dev.bus.medium) && Plaintext() == old(Plaintext())
      ensures r.Ok? ==>
        && Start(v, q.ss) + Size(v, q.ss) <= |Plaintext()|
        && scratch[..Size(v, q.ss)] == Plaintext()[Start(v, q.ss)..Start(v, q.ss) + Size(v, q.ss)]
      ensures r == Err(OutOfBounds) <==> base + Start(v, q.ss) + Size(v, q.ss) > |dev.bus.medium|
      ensures Spoke(|old(dev.bus.cmds)|, |dev.bus.cmds|, r)
    {
      hide CipherOk, Through, Plain, WholeLen, dev.Aimed;
      var span, at := Size(v, q.ss), Start(v, q.ss);
      SizeWhole(v, q.ss);
      CipherLens(q);
      if base + at >= U64_LIMIT {
        return Err(OutOfBounds);
      }
      var got := dev.ReadAt(base + at, scratch, span);
      if got.Err? {
        return Err(got.error);
      }
      ghost var part := scratch[..];
      var ok := Xts(q.cipher.dec, keyLen, scratch, span, q.ss, Tweak(q, v.first), q.step);
      ghost var area := Area();
      AreaSlice(dev.bus.medium, base, at, span);
      ThroughFront(part, scratch[..], q.ss, v.count, q.cipher.dec, Tweak(q, v.first), q.step);
      assert part[..span] == area[at..at + span];
      DecryptedPart(q, area, v.first, v.count, part[..span], scratch[..][..span]);
      assert scratch[..][..span] == scratch[..span];
      r := Ok(());
    }

    /** Past the largest offset, the segment or the device. */
    ghost predicate Beyond(end: nat)
      requires 0 < q.ss
      reads dev.bus
    {
      Rejected(end) || Till(base, end, q.ss) > |dev.bus.medium|
    }

    /** What `check_write_range` refuses. */
    predicate Rejected(end: nat) { end >= U64_LIMIT || (segLen.Some? && end > segLen.value) }

    /** `read_at`: plaintext from any byte range. */
    method ReadAt(offset: nat, buf: array<byte>, len: nat) returns (r: Result<()>)
      requires Valid() && len <= buf.Length && buf != scratch
      modifies this`scratch, scratch, dev`tag, dev.bus, buf
      ensures Valid() && dev.bus.medium == old(dev.bus.medium) && Plaintext() == old(Plaintext())
      ensures scratch == old(scratch) || fresh(scratch)
      ensures r.Ok? && len > 0 ==> offset + len <= |Plaintext()| && buf[..len] == Plaintext()[offset..offset + len]
      ensures 0 < q.ss && (r == Err(OutOfBounds) <==> len > 0 && Beyond(offset + len))
      ensures Spoke(|old(dev.bus.cmds)|, |dev.bus.cmds|, r)
    {
      hide KeyingOk, HeaderOk, Plain, CoverOf, Start, Size, Splice, dev.Valid, WholeLen, PlainByte, Till, Lower, Upper;
      KeyingSs(q);
      if len == 0 {
        return Ok(());
      }
      if offset + len >= U64_LIMIT || (segLen.Some? && offset + len > segLen.value) {
        return Err(OutOfBounds);
      }
      var v := CoverOf(offset, len, q.ss);
      CoverBytes(offset, len, q.ss);
      CoverEnds(offset, len, q.ss);
      EndsAre(base, offset, offset + len, q.ss);
      Scratch(Size(v, q.ss));
      var got := Fetch(v);
      if got.Err? {
        return Err(got.error);
      }
      ghost var part := scratch[..Size(v, q.ss)];
      assert scratch[v.skip..v.skip + len] == part[v.skip..v.skip + len];
      Inner(Plaintext(), Start(v, q.ss), Size(v, q.ss), v.skip, len);
      Store(buf, 0, scratch[v.skip..v.skip + len]);
      assert buf[..len] == buf[..][0..len];
      r := Ok(());
    }

    /** Encrypt the scratch buffer's covering sectors and send them. */
    method Send(v: Cover, ghost plain: seq<byte>) returns (r: Result<()>)
      requires Valid() && Size(v, q.ss) <= scratch.Length && 0 < v.count && plain == scratch[..Size(v, q.ss)]
      requires base + Start(v, q.ss) < U64_LIMIT
      modifies dev`tag, dev.bus, scratch
      ensures Valid()
      ensures
        var a, b := base + Start(v, q.ss), base + Start(v, q.ss) + Size(v, q.ss);
        && SameBeyond(old(dev.bus.medium), dev.bus.medium, Lower(a, dev.bs), Upper(b, dev.bs))
        && (r.Ok? ==> SameBeyond(old(dev.bus.medium), dev.bus.medium, a, b))
      ensures r.Ok? ==>
        && Start(v, q.ss) + |plain| <= |old(Plaintext())|
        && Plaintext() == Splice(old(Plaintext()), Start(v, q.ss), plain)
      ensures r == Err(OutOfBounds) <==> base + Start(v, q.ss) + Size(v, q.ss) > |old(dev.bus.medium)|
      ensures Spoke(|old(dev.bus.cmds)|, |dev.bus.cmds|, r)
    {
      hide CipherOk, Through, Plain, WholeLen, PlainByte, dev.Aimed, Splice, SameBeyond, Lower, Upper, Start, Size,
        dev.CarriedAll, HeaderOk;
      var span, at := Size(v, q.ss), Start(v, q.ss);
      ghost var m, area := dev.bus.medium, Area();
      SizeWhole(v, q.ss);
      CipherLens(q);
      KeyLength(segLen, q.ss, keyLen);
      ghost var part := scratch[..];
      var ok := Xts(q.cipher.enc, keyLen, scratch, span, q.ss, Tweak(q, v.first), q.step);
      ThroughFront(part, scratch[..], q.ss, v.count, q.cipher.enc, Tweak(q, v.first), q.step);
      SizeIs(v, q.ss);
      ghost var out := scratch[..span];
      assert part[..span] == plain && scratch[..][..span] == out;
      r := dev.WriteAt(base + at, scratch[..span]);
      if r.Ok? {
        AreaSplice(m, base, at, out);
        SplicedBeyond(m, base + at, out);
        EncryptedPart(q, area, Area(), v.first, v.count, plain, out);
      }
    }

    /** What a write of `len` bytes at `offset` may leave changed. */
    ghost predicate Confined(m: seq<byte>, m': seq<byte>, offset: nat, end: nat, ok: bool)
      requires 0 < q.ss && 0 < dev.bs
    {
      && SameBeyond(m, m', Lower(From(base, offset, q.ss), dev.bs), Upper(Till(base, end, q.ss), dev.bs))
      && (ok ==> SameBeyond(m, m', From(base, offset, q.ss), Till(base, end, q.ss)))
    }

    lemma ConfinedTrans(m0: seq<byte>, m1: seq<byte>, m2: seq<byte>, offset: nat, end: nat, o: nat, e: nat, ok: bool)
      requires 0 < q.ss && 0 < dev.bs && Confined(m0, m1, offset, end, true) && Confined(m1, m2, o, e, ok)
      requires offset <= o && e <= end
      ensures Confined(m0, m2, offset, end, ok)
    {
      hide SameBeyond, Lower, Upper, From, Till;
      PartInside(base, offset, end, o, e, q.ss, dev.bs);
      var a, b := Lower(From(base, offset, q.ss), dev.bs), Upper(Till(base, end, q.ss), dev.bs);
      SameWider(m1, m2, Lower(From(base, o, q.ss), dev.bs), Upper(Till(base, e, q.ss), dev.bs), a, b);
      SameTrans(m0, m1, m2, a, b);
      if ok {
        SameWider(m1, m2, From(base, o, q.ss), Till(base, e, q.ss), From(base, offset, q.ss), Till(base, end, q.ss));
        SameTrans(m0, m1, m2, From(base, offset, q.ss), Till(base, end, q.ss));
      }
    }

    lemma ConfinedIs(m: seq<byte>, m': seq<byte>, offset: nat, end: nat, a: nat, b: nat, ok: bool)
      requires 0 < q.ss && 0 < dev.bs && a == From(base, offset, q.ss) && b == Till(base, end, q.ss)
      requires SameBeyond(m, m', Lower(a, dev.bs), Upper(b, dev.bs)) && (ok ==> SameBeyond(m, m', a, b))
      ensures Confined(m, m', offset, end, ok)
    {
    }

    lemma SameLength(m: seq<byte>, m': seq<byte>, offset: nat, end: nat)
      requires 0 < q.ss && 0 < dev.bs && Confined(m, m', offset, end, true)
      ensures |m'| == |m|
    {
    }

    lemma ConfinedRefl(m: seq<byte>, offset: nat, end: nat, ok: bool)
      requires 0 < q.ss && 0 < dev.bs
      ensures Confined(m, m, offset, end, ok)
    {
      hide Lower, Upper, From, Till;
    }

    /** Read the covering sectors, put the data in and send them back. */
    method Patch(v: Cover, data: seq<byte>) returns (r: Result<()>)
      requires Valid() && Size(v, q.ss) <= scratch.Length && 0 < v.count && v.skip + |data| <= Size(v, q.ss)
      requires base + Start(v, q.ss) < U64_LIMIT
      modifies dev`tag, dev.bus, scratch
      ensures Valid()
      ensures
        var a, b := base + Start(v, q.ss), base + Start(v, q.ss) + Size(v, q.ss);
        && SameBeyond(old(dev.bus.medium), dev.bus.medium, Lower(a, dev.bs), Upper(b, dev.bs))
        && (r.Ok? ==> SameBeyond(old(dev.bus.medium), dev.bus.medium, a, b))
      ensures r.Ok? ==>
        && Start(v, q.ss) + v.skip + |data| <= |old(Plaintext())|
        && Plaintext() == Splice(old(Plaintext()), Start(v, q.ss) + v.skip, data)
      ensures r == Err(OutOfBounds) <==> base + Start(v, q.ss) + Size(v, q.ss) > |old(dev.bus.medium)|
      ensures Spoke(|old(dev.bus.cmds)|, |dev.bus.cmds|, r)
    {
      hide KeyingOk, HeaderOk, Plain, Start, Size, Splice, dev.Valid, WholeLen, PlainByte, Lower, Upper, SameBeyond,
        Area, Plaintext;
      KeyingSs(q);
      BlockSize(dev);
      ghost var m, p := dev.bus.medium, Plaintext();
      SameRefl(m, Lower(base + Start(v, q.ss), dev.bs), Upper(base + Start(v, q.ss) + Size(v, q.ss), dev.bs));
      var got := Fetch(v);
      if got.Err? {
        return Err(got.error);
      }
      ghost var was, part := scratch[..], scratch[..Size(v, q.ss)];
      Store(scratch, v.skip, data);
      FrontSplice(was, Size(v, q.ss), v.skip, data);
      assert scratch[..Size(v, q.ss)] == scratch[..][..Size(v, q.ss)];
      PatchSplice(p, Start(v, q.ss), part, v.skip, data);
      r := Send(v, Splice(part, v.skip, data));
    }

    /** `write_at_chunk`: sectors only partly covered are fetched, patched and
        sent back. */
    method WriteChunk(offset: nat, data: seq<byte>) returns (r: Result<()>)
      requires Valid() && data != []
      modifies this`scratch, scratch, dev`tag, dev.bus
      ensures Valid() && (scratch == old(scratch) || fresh(scratch))
      ensures Confined(old(dev.bus.medium), dev.bus.medium, offset, offset + |data|, r.Ok?)
      ensures r.Ok? ==> offset + |data| <= |old(Plaintext())| && Plaintext() == Splice(old(Plaintext()), offset, data)
      ensures Spoke(|old(dev.bus.cmds)|, |dev.bus.cmds|, r) && 0 < q.ss
      ensures r == Err(OutOfBounds) <==>
        offset + |data| >= U64_LIMIT || Till(base, offset + |data|, q.ss) > |old(dev.bus.medium)|
    {
      hide KeyingOk, HeaderOk, Plain, CoverOf, Start, Size, Splice, dev.Valid, WholeLen, PlainByte, Lower, Upper, From,
        Till, SameBeyond, Area, Plaintext, Confined;
      KeyingSs(q);
      BlockSize(dev);
      MediumSmall(dev);
      ghost var m, p := dev.bus.medium, Plaintext();
      ConfinedRefl(m, offset, offset + |data|, false);
      if offset + |data| >= U64_LIMIT {
        return Err(OutOfBounds);
      }
      var v := CoverOf(offset, |data|, q.ss);
      CoverBytes(offset, |data|, q.ss);
      CoverEnds(offset, |data|, q.ss);
      EndsAre(base, offset, offset + |data|, q.ss);
      if base + Start(v, q.ss) >= U64_LIMIT {
        return Err(OutOfBounds);
      }
      Scratch(Size(v, q.ss));
      if v.skip == 0 && Size(v, q.ss) == |data| {
        Store(scratch, 0, data);
        assert scratch[..Size(v, q.ss)] == scratch[..][0..|data|];
        r := Send(v, data);
        ConfinedIs(m, dev.bus.medium, offset, offset + |data|, base + Start(v, q.ss),
          base + Start(v, q.ss) + Size(v, q.ss), r.Ok?);
      } else {
        r := Patch(v, data);
        ConfinedIs(m, dev.bus.medium, offset, offset + |data|, base + Start(v, q.ss),
          base + Start(v, q.ss) + Size(v, q.ss), r.Ok?);
      }
    }

    /** `done` bytes of a request begun when the medium was `m` are written. */
    ghost predicate Progress(m: seq<byte>, p: seq<byte>, offset: nat, data: seq<byte>, done: nat)
      requires KeyingOk(q) && 0 < q.ss && 0 < dev.bs && done <= |data|
      reads dev.bus
    {
      && Confined(m, dev.bus.medium, offset, offset + |data|, true)
      && if done == 0 then dev.bus.medium == m && Plaintext() == p
         else offset + done <= |p| && Plaintext() == Splice(p, offset, data[..done])
    }

    /** One more piece of a request is written. */
    method WritePart(offset: nat, data: seq<byte>, done: nat, take: nat, ghost p: seq<byte>,
        ghost m: seq<byte>) returns (r: Result<()>)
      requires Valid() && 0 < take && done + take <= |data| && 0 < q.ss && 0 < dev.bs
      requires Progress(m, p, offset, data, done)
      modifies this`scratch, scratch, dev`tag, dev.bus
      ensures Valid() && (scratch == old(scratch) || fresh(scratch))
      ensures Confined(m, dev.bus.medium, offset, offset + |data|, r.Ok?)
      ensures r.Ok? ==> Progress(m, p, offset, data, done + take)
      ensures Spoke(|old(dev.bus.cmds)|, |dev.bus.cmds|, r)
      ensures r == Err(OutOfBounds) ==> offset + |data| >= U64_LIMIT || Till(base, offset + |data|, q.ss) > |m|
      ensures r.Ok? ==> Till(base, offset + done + take, q.ss) <= |m|
    {
      hide KeyingOk, HeaderOk, Plain, Splice, dev.Valid, Confined, Till;
      SameLength(m, dev.bus.medium, offset, offset + |data|);
      PartInside(base, offset, offset + |data|, offset + done, offset + done + take, q.ss, dev.bs);
      ghost var m1 := dev.bus.medium;
      var piece := data[done..done + take];
      assert piece == data[done..][..take];
      r := WriteChunk(offset + done, piece);
      ConfinedTrans(m, m1, dev.bus.medium, offset, offset + |data|, offset + done, offset + done + take, r.Ok?);
      if r.Ok? {
        if done == 0 {
          assert piece == data[..take];
        } else {
          SpliceMore(p, offset, data, done, take);
        }
      }
    }

    /** The segment begins and ends on blocks of the drive. */
    predicate Aligned()
      requires 0 < dev.bs
    {
      base % dev.bs == 0 && (segLen.Some? ==> (base + segLen.value) % dev.bs == 0)
    }

    /** The end of the segment on a device of `n` bytes. */
    function SegmentEnd(n: nat): nat { if segLen.Some? then base + segLen.value else n }

    /** `write_at`: any byte range of the volume. On success the plaintext is
        changed there and nowhere else. No device byte outside the segment
        changes, on failure provided that the segment begins and ends on blocks
        of the drive. */
    method WriteAt(offset: nat, data: seq<byte>) returns (r: Result<()>)
      requires Valid()
      modifies this`scratch, scratch, dev`tag, dev.bus
      ensures Valid() && (scratch == old(scratch) || fresh(scratch)) && 0 < q.ss && 0 < dev.bs
      ensures r.Ok? && data != [] ==>
        offset + |data| <= |old(Plaintext())| && Plaintext() == Splice(old(Plaintext()), offset, data)
      ensures data == [] ==> r.Ok? && dev.bus.medium == old(dev.bus.medium) && Plaintext() == old(Plaintext())
      ensures Confined(old(dev.bus.medium), dev.bus.medium, offset, offset + |data|, r.Ok?)
      ensures data != [] && Rejected(offset + |data|) ==> r == Err(OutOfBounds) && dev.bus.medium == old(dev.bus.medium)
      ensures r == Err(OutOfBounds) ==> old(Beyond(offset + |data|))
      ensures r.Ok? && data != [] ==> !old(Beyond(offset + |data|))
      ensures Spoke(|old(dev.bus.cmds)|, |dev.bus.cmds|, r)
      ensures r.Ok? || Aligned() ==>
        SameBeyond(old(dev.bus.medium), dev.bus.medium, base, SegmentEnd(|old(dev.bus.medium)|))
    {
      hide KeyingOk, HeaderOk, Plain, Splice, dev.Valid, Confined, SameBeyond, Till;
      KeyingSs(q);
      BlockSize(dev);
      ghost var m, p := dev.bus.medium, Plaintext();
      ConfinedRefl(m, offset, offset + |data|, true);
      ConfinedRefl(m, offset, offset + |data|, false);
      SameRefl(m, base, SegmentEnd(|m|));
      if data == [] {
        return Ok(());
      }
      if Rejected(offset + |data|) {
        return Err(OutOfBounds);
      }
      if |data| <= WRITE_CHUNK_BYTES {
        r := WriteChunk(offset, data);
      } else {
        r := WriteChunks(offset, data);
      }
      if r.Ok? || Aligned() {
        InsideSegment(this, m, dev.bus.medium, offset, offset + |data|, r.Ok?);
      }
    }

    /** A long request: up to the first sector boundary, then whole sectors at
        most a chunk at a time, then what is left. */
    method WriteChunks(offset: nat, data: seq<byte>) returns (r: Result<()>)
      requires Valid() && data != [] && 0 < q.ss && 0 < dev.bs
      modifies this`scratch, scratch, dev`tag, dev.bus
      ensures Valid() && (scratch == old(scratch) || fresh(scratch))
      ensures Confined(old(dev.bus.medium), dev.bus.medium, offset, offset + |data|, r.Ok?)
      ensures r.Ok? ==> offset + |data| <= |old(Plaintext())| && Plaintext() == Splice(old(Plaintext()), offset, data)
      ensures Spoke(|old(dev.bus.cmds)|, |dev.bus.cmds|, r)
      ensures r == Err(OutOfBounds) ==>
        offset + |data| >= U64_LIMIT || Till(base, offset + |data|, q.ss) > |old(dev.bus.medium)|
      ensures r.Ok? ==> Till(base, offset + |data|, q.ss) <= |old(dev.bus.medium)|
    {
      hide KeyingOk, HeaderOk, Plain, Splice, dev.Valid, Confined, WholeLen, Progress, Till;
      ghost var m, p := dev.bus.medium, Plaintext();
      NoProgress(m, offset, data);
      var done := 0;
      if offset % q.ss != 0 {
        FirstPart(offset, q.ss);
        var first := Min(q.ss - offset % q.ss, |data|);
        r := WritePart(offset, data, 0, first, p, m);
        if r.Err? {
          return;
        }
        done := first;
      }
      var chunk := WholeLen(WRITE_CHUNK_BYTES, q.ss);
      ChunkSome(segLen, q.ss, keyLen);
      while |data| - done >= q.ss
        invariant Valid() && (scratch == old(scratch) || fresh(scratch)) && 0 <= done <= |data|
        invariant Progress(m, p, offset, data, done)
        invariant |old(dev.bus.cmds)| <= |dev.bus.cmds| && (0 < done ==> Till(base, offset + done, q.ss) <= |m|)
        decreases |data| - done
      {
        WholeSome(|data| - done, q.ss);
        var take := Min(WholeLen(|data| - done, q.ss), chunk);
        r := WritePart(offset, data, done, take, p, m);
        if r.Err? {
          return;
        }
        done := done + take;
      }
      if done != |data| {
        r := WritePart(offset, data, done, |data| - done, p, m);
        if r.Err? {
          return;
        }
        done := |data|;
      }
      AllWritten(m, p, offset, data);
      r := Ok(());
    }

    lemma NoProgress(m: seq<byte>, offset: nat, data: seq<byte>)
      requires KeyingOk(q) && 0 < q.ss && 0 < dev.bs && m == dev.bus.medium
      ensures Progress(m, Plaintext(), offset, data, 0)
    {
      hide KeyingOk, Plain, Confined;
      ConfinedRefl(m, offset, offset + |data|, true);
    }

    lemma AllWritten(m: seq<byte>, p: seq<byte>, offset: nat, data: seq<byte>)
      requires KeyingOk(q) && 0 < q.ss && 0 < dev.bs && data != [] && Progress(m, p, offset, data, |data|)
      ensures Confined(m, dev.bus.medium, offset, offset + |data|, true)
      ensures offset + |data| <= |p| && Plaintext() == Splice(p, offset, data)
    {
      hide KeyingOk, Plain, Confined, Splice;
      assert data[..|data|] == data;
    }
  }

  lemma FirstPart(offset: nat, ss: nat)
    requires 0 < ss && offset % ss != 0
    ensures 0 < ss - offset % ss
  {
  }

  lemma ChunkSome(segLen: Option<nat>, ss: nat, keyLen: nat)
    requires HeaderOk(segLen, ss, keyLen)
    ensures 0 < ss && 0 < WholeLen(WRITE_CHUNK_BYTES, ss)
  {
  }

  lemma WholeSome(n: nat, ss: nat)
    requires 0 < ss <= n
    ensures 0 < WholeLen(n, ss) <= n
  {
    assert n == n / ss * ss + n % ss;
  }

  lemma InsideSegment(v: LuksVolume, m: seq<byte>, m': seq<byte>, offset: nat, end: nat, ok: bool)
    requires HeaderOk(v.segLen, v.q.ss, v.keyLen) && 0 < v.q.ss && 0 < v.dev.bs && offset <= end && !v.Rejected(end)
    requires v.Confined(m, m', offset, end, ok) && (ok || v.Aligned())
    ensures SameBeyond(m, m', v.base, v.SegmentEnd(|m|))
  {
    hide SameBeyond, Lower, Upper, CoverOf, Start, Size;
    var a, b := From(v.base, offset, v.q.ss), Till(v.base, end, v.q.ss);
    var x, y := if ok then a else Lower(a, v.dev.bs), if ok then b else Upper(b, v.dev.bs);
    if !ok { LowerAligned(v.base, a, v.dev.bs); }
    if v.segLen.Some? {
      CoverInside(offset, end - offset, v.q.ss, v.segLen.value);
      CoverEnds(offset, end - offset, v.q.ss);
      if !ok { UpperAligned(b, v.base + v.segLen.value, v.dev.bs); }
      SameWider(m, m', x, y, v.base, v.base + v.segLen.value);
    } else {
      SameToEnd(m, m', x, y, v.base);
    }
  }

  /** A failed write leaves every byte outside the segment alone, whatever the
      drive did, exactly if the blocks around its sectors lie in the segment. */
  lemma SegmentKeptIff(v: LuksVolume, m: seq<byte>, offset: nat, end: nat)
    requires 0 < v.q.ss && 0 < v.dev.bs && offset < end && Upper(Till(v.base, end, v.q.ss), v.dev.bs) <= |m|
    ensures (forall m' :: v.Confined(m, m', offset, end, false) ==> SameBeyond(m, m', v.base, v.SegmentEnd(|m|))) <==>
      && v.base <= Lower(From(v.base, offset, v.q.ss), v.dev.bs)
      && Upper(Till(v.base, end, v.q.ss), v.dev.bs) <= v.SegmentEnd(|m|)
  {
    hide Lower, Upper, From, Till;
    var a, b := Lower(From(v.base, offset, v.q.ss), v.dev.bs), Upper(Till(v.base, end, v.q.ss), v.dev.bs);
    CoverSome(v.base, offset, end, v.q.ss, v.dev.bs);
    if v.base <= a && b <= v.SegmentEnd(|m|) {
      forall m' | v.Confined(m, m', offset, end, false) ensures SameBeyond(m, m', v.base, v.SegmentEnd(|m|)) {
        SameWider(m, m', a, b, v.base, v.SegmentEnd(|m|));
      }
    } else {
      var k := if a < v.base then a else b - 1;
      var m' := m[k := if m[k] == 0 then 1 else 0];
      assert v.Confined(m, m', offset, end, false) && m'[k] != m[k];
    }
  }

  lemma CoverSome(base: nat, offset: nat, end: nat, ss: nat, bs: nat)
    requires 0 < ss && 0 < bs && offset < end
    ensures Lower(From(base, offset, ss), bs) < Upper(Till(base, end, ss), bs)
  {
    DivMod(offset, ss);
    CeilUp(end, ss);
    DivMod(From(base, offset, ss), bs);
    CeilUp(Till(base, end, ss), bs);
  }

  lemma LowerAligned(base: nat, a: nat, d: nat)
    requires 0 < d && base % d == 0 && base <= a
    ensures base <= Lower(a, d)
  {
    Whole(base, d);
    LowerMono(base, a, d);
  }

  lemma UpperAligned(b: nat, end: nat, d: nat)
    requires 0 < d && end % d == 0 && b <= end
    ensures Upper(b, d) <= end
  {
    Whole(end, d);
    UpperMono(b, end, d);
    WholeUp(end / d, d);
  }

  lemma WholeUp(k: nat, d: nat)
    requires 0 < d
    ensures CeilDiv(k * d, d) == k
  {
    DivModUnique(k, d - 1, d);
  }

  lemma SameToEnd(m: seq<byte>, m': seq<byte>, a: nat, b: nat, base: nat)
    requires SameBeyond(m, m', a, b) && base <= a
    ensures SameBeyond(m, m', base, |m|)
  {
  }

  lemma MediumSmall(dev: ScsiDevice)
    requires dev.Valid()
    ensures |dev.bus.medium| < U64_LIMIT
  {
  }

  lemma BlockSize(dev: ScsiDevice)
    requires dev.Valid()
    ensures 0 < dev.bs
  {
  }

  lemma EndsAre(base: nat, offset: nat, end: nat, ss: nat)
    requires 0 < ss
    ensures From(base, offset, ss) == base + Lower(offset, ss) && Till(base, end, ss) == base + Upper(end, ss)
  {
  }

  lemma FrontSplice(s: seq<byte>, n: nat, skip: nat, data: seq<byte>)
    requires skip + |data| <= n <= |s|
    ensures Splice(s, skip, data)[..n] == Splice(s[..n], skip, data)
  {
  }

  /** The covering sectors in device bytes. */
  lemma CoverEnds(offset: nat, len: nat, ss: nat)
    requires 0 < ss
    ensures
      var v := CoverOf(offset, len, ss);
      Start(v, ss) == Lower(offset, ss) && Start(v, ss) + Size(v, ss) == Upper(offset + len, ss)
  {
    CoverNat(offset, len, ss);
    var v := CoverOf(offset, len, ss);
    Distribute(v.first, v.count, ss);
  }

  lemma LowerMono(x: nat, y: nat, d: nat)
    requires 0 < d && x <= y
    ensures Lower(x, d) <= Lower(y, d)
  {
    Narrow(x, y - x, y, d);
  }

  lemma UpperMono(x: nat, y: nat, d: nat)
    requires 0 < d && x <= y
    ensures Upper(x, d) <= Upper(y, d)
  {
    CeilUp(x, d);
    CeilUp(y, d);
    var a, b := CeilDiv(x, d), CeilDiv(y, d);
    Distribute(b, 1, d);
    if b < a { MulMono(b + 1, a, d); assert false; }
    MulMono(a, b, d);
  }

  /** The part of the device a write may touch: whole sectors around the range,
      and if it fails the whole device blocks around those. */
  function From(base: nat, offset: nat, ss: nat): nat
    requires 0 < ss
  {
    base + Lower(offset, ss)
  }

  function Till(base: nat, end: nat, ss: nat): nat
    requires 0 < ss
  {
    base + Upper(end, ss)
  }

  lemma PartInside(base: nat, offset: nat, end: nat, o: nat, e: nat, ss: nat, bs: nat)
    requires 0 < ss && 0 < bs && offset <= o && e <= end
    ensures From(base, offset, ss) <= From(base, o, ss) && Till(base, e, ss) <= Till(base, end, ss)
    ensures Lower(From(base, offset, ss), bs) <= Lower(From(base, o, ss), bs)
    ensures Upper(Till(base, e, ss), bs) <= Upper(Till(base, end, ss), bs)
  {
    hide Lower, Upper;
    LowerMono(offset, o, ss);
    UpperMono(e, end, ss);
    LowerMono(From(base, offset, ss), From(base, o, ss), bs);
    UpperMono(Till(base, e, ss), Till(base, end, ss), bs);
  }

  /** Storing into the medium stores into the area. */
  lemma AreaSplice(m: seq<byte>, base: nat, at: nat, c: seq<byte>)
    requires base + at + |c| <= |m|
    ensures at + |c| <= |m[base..]| && Splice(m, base + at, c)[base..] == Splice(m[base..], at, c)
  {
    var x, y := Splice(m, base + at, c)[base..], Splice(m[base..], at, c);
    forall k | 0 <= k < |m[base..]| ensures x[k] == y[k] {
      if at <= k < at + |c| {
        assert Splice(m, base + at, c)[base + at..base + at + |c|][k - at] == c[k - at];
        assert y[at..at + |c|][k - at] == c[k - at];
      }
    }
  }

  lemma SplicedBeyond(m: seq<byte>, a: nat, c: seq<byte>)
    requires a + |c| <= |m|
    ensures SameBeyond(m, Splice(m, a, c), a, a + |c|)
  {
  }

  lemma SizeWhole(v: Cover, ss: nat)
    requires 0 < ss && 0 < v.count
    ensures Size(v, ss) % ss == 0 && Size(v, ss) / ss == v.count && 0 < Size(v, ss)
  {
    DivModUnique(v.count, 0, ss);
    MulMono(1, v.count, ss);
  }

  lemma KeyLength(segLen: Option<nat>, ss: nat, keyLen: nat)
    requires HeaderOk(segLen, ss, keyLen)
    ensures keyLen == 32 || keyLen == 64
  {
  }

  lemma SizeIs(v: Cover, ss: nat)
    ensures Size(v, ss) == v.count * ss && Start(v, ss) == v.first * ss
  {
  }

  lemma KeyingSs(q: Keying)
    requires KeyingOk(q)
    ensures 0 < q.ss
  {
  }

  lemma CipherLens(q: Keying)
    requires KeyingOk(q)
    ensures forall t, s :: |s| == q.ss ==> |q.cipher.dec(t, s)| == q.ss
    ensures forall t, s :: |s| == q.ss ==> |q.cipher.enc(t, s)| == q.ss
  {
    forall t, s | |s| == q.ss ensures |q.cipher.dec(t, s)| == q.ss && |q.cipher.enc(t, s)| == q.ss {
      assert Inverse(q.cipher, q.ss, t, s);
    }
  }

  lemma AreaSlice(m: seq<byte>, base: nat, at: nat, span: nat)
    requires base + at + span <= |m|
    ensures at + span <= |m[base..]| && m[base..][at..at + span] == m[base + at..base + at + span]
  {
    var x, y := m[base..][at..at + span], m[base + at..base + at + span];
    forall j | 0 <= j < span ensures x[j] == y[j] {
      assert x[j] == m[base..][at + j];
    }
  }

  lemma FrontSlice(s: seq<byte>, n: nat, i: nat, j: nat)
    requires i <= j <= n <= |s|
    ensures s[..n][i..j] == s[i..j]
  {
  }

  /** Only the front of the buffer takes part. */
  lemma ThroughFront(s: seq<byte>, out: seq<byte>, ss: nat, n: nat, f: (nat, seq<byte>) -> seq<byte>, first: nat,
      step: nat)
    requires Through(s, out, ss, n, f, first, step)
    ensures n * ss <= |s| && Through(s[..n * ss], out[..n * ss], ss, n, f, first, step)
  {
    var a, b := s[..n * ss], out[..n * ss];
    forall k | 0 <= k < n ensures Turned(a, b, ss, k, f, first + k * step) {
      SectorIn(s, ss, k, n);
      assert Turned(s, out, ss, k, f, first + k * step);
      FrontSlice(s, n * ss, k * ss, k * ss + ss);
      FrontSlice(out, n * ss, k * ss, k * ss + ss);
    }
  }

  /** The ciphertext of a sector is its plaintext encrypted under its own
      tweak, whatever the chunking that wrote it. */
  lemma SectorCiphertext(q: Keying, area: seq<byte>, k: nat)
    requires KeyingOk(q) && HasSector(area, q.ss, k)
    ensures HasSector(Plain(q, area), q.ss, k)
    ensures Sector(area, q.ss, k) == q.cipher.enc(Tweak(q, k), Sector(Plain(q, area), q.ss, k))
  {
    hide CipherOk, WholeLen;
    PartWhole(k, 1, q.ss, |area|);
    var s := Sector(area, q.ss, k);
    CipherAt(q, Tweak(q, k), s);
    var x, y := Sector(Plain(q, area), q.ss, k), q.cipher.dec(Tweak(q, k), s);
    forall j | 0 <= j < q.ss ensures x[j] == y[j] {
      ByteOf(q.ss, k, j);
      DivModUnique(0, j, q.ss);
    }
    assert x == y;
  }
}
