/** Whole runs of reads and writes on an unlocked volume (core/src/luks/volume.rs
    over core/src/usb/scsi.rs): the volume is one flat plaintext array, of which
    a failed write makes a known part unknown. */
module LuksRun {
  import opened Arith
  import opened Bytes
  import opened Scsi
  import opened Luks

  datatype Request = Get(offset: nat, len: nat) | Put(offset: nat, data: seq<byte>)

  datatype Answer = Got(bytes: seq<byte>) | Stored | Refused(error: Error)

  /** Where the volume lies, and in what units it is read and written. */
  datatype Frame = Frame(base: nat, segLen: Option<nat>, ss: nat, bs: nat, size: nat)

  ghost function FrameOf(v: LuksVolume): Frame
    reads v.dev.bus
  {
    Frame(v.base, v.segLen, v.q.ss, v.dev.bs, |v.dev.bus.medium|)
  }

  /** A range refused before anything is sent. */
  predicate Rejected(f: Frame, end: nat) { end >= U64_LIMIT || (f.segLen.Some? && end > f.segLen.value) }

  /** A range that leaves the segment or whose sectors leave the device. */
  predicate Outside(f: Frame, end: nat)
    requires 0 < f.ss
  {
    Rejected(f, end) || Till(f.base, end, f.ss) > f.size
  }

  // ----- what is known of the array -----

  type Knowledge = seq<Option<byte>>

  function All(p: seq<byte>): (k: Knowledge)
    ensures |k| == |p|
  {
    seq(|p|, i requires 0 <= i < |p| => Some(p[i]))
  }

  function Learn(known: Knowledge, offset: nat, data: seq<byte>): (k: Knowledge)
    ensures |k| == |known|
  {
    seq(|known|, i requires 0 <= i < |known| =>
      if offset <= i < offset + |data| then Some(data[i - offset]) else known[i])
  }

  function Forget(known: Knowledge, lo: nat, hi: nat): (k: Knowledge)
    ensures |k| == |known|
  {
    seq(|known|, i requires 0 <= i < |known| => if lo <= i < hi then None else known[i])
  }

  /** The plaintext of the sectors that share a block with a range. */
  function LostFrom(f: Frame, offset: nat): nat
    requires 0 < f.ss && 0 < f.bs
  {
    var a := Lower(From(f.base, offset, f.ss), f.bs);
    if a <= f.base then 0 else Lower(a - f.base, f.ss)
  }

  function LostTill(f: Frame, end: nat): nat
    requires 0 < f.ss && 0 < f.bs
  {
    var b := Upper(Till(f.base, end, f.ss), f.bs);
    if b <= f.base then 0 else Upper(b - f.base, f.ss)
  }

  /** What a request and its answer leave known. A write refused for its range
      changes nothing; any other failed write may have changed the blocks around
      its sectors. */
  function After(f: Frame, known: Knowledge, x: Request, a: Answer): (k: Knowledge)
    requires 0 < f.ss && 0 < f.bs
    ensures |k| == |known|
  {
    if x.Get? || x.data == [] then known
    else if a.Stored? then Learn(known, x.offset, x.data)
    else if Rejected(f, x.offset + |x.data|) then known
    else Forget(known, LostFrom(f, x.offset), LostTill(f, x.offset + |x.data|))
  }

  /** What is known after some requests of a volume that held `p`. */
  function Known(f: Frame, p: seq<byte>, reqs: seq<Request>, answers: seq<Answer>): (k: Knowledge)
    requires 0 < f.ss && 0 < f.bs && |answers| == |reqs|
    ensures |k| == |p|
  {
    if reqs == [] then All(p)
    else
      var n := |reqs| - 1;
      After(f, Known(f, p, reqs[..n], answers[..n]), reqs[n], answers[n])
  }

  ghost predicate Agrees(known: Knowledge, p: seq<byte>) {
    |p| == |known| && forall i :: 0 <= i < |p| && known[i].Some? ==> p[i] == known[i].value
  }

  /** A request answered as the array would answer it, as far as that is known. */
  ghost predicate Answered(f: Frame, known: Knowledge, x: Request, a: Answer)
    requires 0 < f.ss
  {
    match x
    case Get(offset, len) =>
      && !a.Stored? && (a.Got? ==> |a.bytes| == len)
      && (a == Refused(OutOfBounds) <==> len > 0 && Outside(f, offset + len))
      && (a.Got? && len > 0 ==>
            && offset + len <= |known|
            && forall j :: 0 <= j < len && known[offset + j].Some? ==> a.bytes[j] == known[offset + j].value)
    case Put(offset, data) =>
      && !a.Got? && (data == [] ==> a.Stored?)
      && (data != [] && Rejected(f, offset + |data|) ==> a == Refused(OutOfBounds))
      && (a == Refused(OutOfBounds) ==> Outside(f, offset + |data|))
      && (a.Stored? && data != [] ==> offset + |data| <= |known| && !Outside(f, offset + |data|))
  }

  /** The known bytes of sector `k` spell `s`. */
  ghost predicate Spells(known: Knowledge, ss: nat, k: nat, s: seq<byte>) {
    |s| == ss && k * ss + ss <= |known| && forall j :: 0 <= j < ss ==> known[k * ss + j] == Some(s[j])
  }

  // ----- steps -----

  lemma AgreesAll(p: seq<byte>)
    ensures Agrees(All(p), p)
  {
  }

  lemma AgreesLearn(known: Knowledge, p: seq<byte>, offset: nat, data: seq<byte>)
    requires Agrees(known, p) && offset + |data| <= |p|
    ensures Agrees(Learn(known, offset, data), Splice(p, offset, data))
  {
    hide Splice;
    var r := Splice(p, offset, data);
    forall i | offset <= i < offset + |data| ensures r[i] == data[i - offset] {
      assert r[offset..offset + |data|][i - offset] == data[i - offset];
    }
  }

  lemma AgreesForget(known: Knowledge, p: seq<byte>, p': seq<byte>, lo: nat, hi: nat)
    requires Agrees(known, p) && |p'| == |p| && forall i :: 0 <= i < |p| && !(lo <= i < hi) ==> p'[i] == p[i]
    ensures Agrees(Forget(known, lo, hi), p')
  {
  }

  /** A change to the device between `a` and `b` changes the plaintext only in
      the sectors it touches. */
  lemma PlainBeyond(q: Keying, m: seq<byte>, m': seq<byte>, base: nat, a: nat, b: nat, i: nat)
    requires KeyingOk(q) && base <= |m| && SameBeyond(m, m', a, b) && i < |Plain(q, m[base..])|
    requires
      i < (if a <= base then 0 else Lower(a - base, q.ss)) || i >= (if b <= base then 0 else Upper(b - base, q.ss))
    ensures |Plain(q, m'[base..])| == |Plain(q, m[base..])| && Plain(q, m'[base..])[i] == Plain(q, m[base..])[i]
  {
    hide CipherOk, KeyingOk, WholeLen, Lower, Upper, Plain, PlainByte, SameBeyond;
    KeyingSs(q);
    SameWhole(q, m, m', base, a, b);
    SectorFits(|m| - base, q.ss, i);
    SectorBeyond(i, q.ss, a, b, base);
    PlainKept(q, m, m', base, a, b, i, Lower(i, q.ss));
    SamePlain(q, m[base..], m'[base..], i);
  }

  lemma SamePlain(q: Keying, x: seq<byte>, y: seq<byte>, i: nat)
    requires KeyingOk(q) && |x| == |y| && i < WholeLen(|x|, q.ss) && PlainByte(q, x, i) == PlainByte(q, y, i)
    ensures |Plain(q, x)| == |Plain(q, y)| && i < |Plain(q, x)| && Plain(q, x)[i] == Plain(q, y)[i]
  {
    hide KeyingOk, WholeLen, PlainByte;
  }

  lemma PlainKept(q: Keying, m: seq<byte>, m': seq<byte>, base: nat, a: nat, b: nat, i: nat, at: nat)
    requires KeyingOk(q) && 0 < q.ss && SameBeyond(m, m', a, b) && base <= |m| && i < WholeLen(|m| - base, q.ss)
    requires at == Lower(i, q.ss)
    requires base + at + q.ss <= |m| && (base + at + q.ss <= a || base + at >= b)
    ensures |m'| == |m| && PlainByte(q, m[base..], i) == PlainByte(q, m'[base..], i)
  {
    hide KeyingOk, WholeLen, PlainByte;
    SectorKept(m, m', base, a, b, at, q.ss);
    SameByte(q, m[base..], m'[base..], i);
  }

  lemma SectorKept(m: seq<byte>, m': seq<byte>, base: nat, a: nat, b: nat, at: nat, ss: nat)
    requires SameBeyond(m, m', a, b) && base + at + ss <= |m| && (base + at + ss <= a || base + at >= b)
    ensures m'[base..][at..at + ss] == m[base..][at..at + ss]
  {
    var x, y := m[base..][at..at + ss], m'[base..][at..at + ss];
    forall j | 0 <= j < ss ensures y[j] == x[j] {
      assert x[j] == m[base + at + j] && y[j] == m'[base + at + j];
    }
  }

  lemma SameByte(q: Keying, x: seq<byte>, y: seq<byte>, i: nat)
    requires KeyingOk(q) && |x| == |y| && i < WholeLen(|x|, q.ss) && i / q.ss * q.ss + q.ss <= |x|
    requires x[i / q.ss * q.ss..i / q.ss * q.ss + q.ss] == y[i / q.ss * q.ss..i / q.ss * q.ss + q.ss]
    ensures PlainByte(q, x, i) == PlainByte(q, y, i)
  {
    hide CipherOk, WholeLen;
    assert Sector(x, q.ss, i / q.ss) == Sector(y, q.ss, i / q.ss);
  }

  lemma SectorFits(n: nat, ss: nat, i: nat)
    requires 0 < ss && i < WholeLen(n, ss)
    ensures Lower(i, ss) + ss <= n
  {
    InWhole(n, ss, i);
    DivMod(i, ss);
  }

  lemma SectorBeyond(i: nat, ss: nat, a: nat, b: nat, base: nat)
    requires 0 < ss
    requires i < (if a <= base then 0 else Lower(a - base, ss)) || i >= (if b <= base then 0 else Upper(b - base, ss))
    ensures base + Lower(i, ss) + ss <= a || base + Lower(i, ss) >= b
  {
    hide Lower, Upper;
    if a > base && i < Lower(a - base, ss) {
      SectorBefore(i, ss, a - base);
    } else if b > base {
      SectorAfter(i, ss, b - base);
    }
  }

  lemma SectorBefore(i: nat, ss: nat, a: nat)
    requires 0 < ss && i < Lower(a, ss)
    ensures Lower(i, ss) + ss <= a
  {
    DivMod(i, ss);
    DivMod(a, ss);
    QuotientBelow(i, a / ss, ss);
    MulMono(i / ss + 1, a / ss, ss);
    Distribute(i / ss, 1, ss);
  }

  lemma SectorAfter(i: nat, ss: nat, b: nat)
    requires 0 < ss && i >= Upper(b, ss)
    ensures Lower(i, ss) >= b
  {
    var k, c := i / ss, CeilDiv(b, ss);
    DivMod(i, ss);
    CeilUp(b, ss);
    if k < c {
      MulMono(k + 1, c, ss);
      Distribute(k, 1, ss);
      assert false;
    }
    MulMono(c, k, ss);
  }

  /** What a failed write leaves of the array. */
  lemma FailedWrite(v: LuksVolume, m: seq<byte>, m': seq<byte>, offset: nat, end: nat, known: Knowledge)
    requires KeyingOk(v.q) && 0 < v.q.ss && 0 < v.dev.bs && v.Confined(m, m', offset, end, false)
    requires Agrees(known, Plain(v.q, if v.base <= |m| then m[v.base..] else []))
    ensures
      var f := FrameOf(v);
      var p := Plain(v.q, if v.base <= |m'| then m'[v.base..] else []);
      |m'| == |m| && Agrees(Forget(known, LostFrom(f, offset), LostTill(f, end)), p)
  {
    hide KeyingOk, Plain, Lower, Upper, From, Till;
    var f := FrameOf(v);
    var a, b := Lower(From(v.base, offset, v.q.ss), v.dev.bs), Upper(Till(v.base, end, v.q.ss), v.dev.bs);
    if v.base <= |m| {
      var p, p' := Plain(v.q, m[v.base..]), Plain(v.q, m'[v.base..]);
      SameWhole(v.q, m, m', v.base, a, b);
      forall i | 0 <= i < |p| && !(LostFrom(f, offset) <= i < LostTill(f, end)) ensures p'[i] == p[i] {
        PlainBeyond(v.q, m, m', v.base, a, b, i);
      }
      AgreesForget(known, p, p', LostFrom(f, offset), LostTill(f, end));
    } else {
      AgreesForget(known, Plain(v.q, []), Plain(v.q, []), LostFrom(f, offset), LostTill(f, end));
    }
  }

  lemma SameWhole(q: Keying, m: seq<byte>, m': seq<byte>, base: nat, a: nat, b: nat)
    requires KeyingOk(q) && base <= |m| && SameBeyond(m, m', a, b)
    ensures |m'| == |m| && |Plain(q, m'[base..])| == |Plain(q, m[base..])|
  {
  }

  // ----- runs -----

  /** One read. */
  method Read(v: LuksVolume, offset: nat, len: nat, ghost known: Knowledge) returns (a: Answer)
    requires v.Valid() && Agrees(known, v.Plaintext())
    modifies v`scratch, v.scratch, v.dev`tag, v.dev.bus
    ensures v.Valid() && (v.scratch == old(v.scratch) || fresh(v.scratch)) && v.dev.bus.medium == old(v.dev.bus.medium)
    ensures v.Plaintext() == old(v.Plaintext()) && 0 < v.q.ss && Answered(FrameOf(v), known, Get(offset, len), a)
    ensures Asked(old(v.dev.bus.cmds), v.dev.bus.cmds, a)
  {
    hide KeyingOk, HeaderOk, Plain, v.dev.Valid, SameBeyond, v.Area, v.Plaintext, Till, Lower, Upper;
    var buf := new byte[len];
    var got := v.ReadAt(offset, buf, len);
    if got.Err? {
      return Refused(got.error);
    }
    a := Got(buf[..len]);
  }

  /** One write. */
  method Write(v: LuksVolume, offset: nat, data: seq<byte>, ghost known: Knowledge) returns (a: Answer)
    requires v.Valid() && Agrees(known, v.Plaintext())
    modifies v`scratch, v.scratch, v.dev`tag, v.dev.bus
    ensures v.Valid() && (v.scratch == old(v.scratch) || fresh(v.scratch)) && 0 < v.q.ss && 0 < v.dev.bs
    ensures Agrees(After(FrameOf(v), known, Put(offset, data), a), v.Plaintext())
    ensures Answered(FrameOf(v), known, Put(offset, data), a) && Asked(old(v.dev.bus.cmds), v.dev.bus.cmds, a)
    ensures a.Stored? || v.Aligned() ==>
      SameBeyond(old(v.dev.bus.medium), v.dev.bus.medium, v.base, v.SegmentEnd(|old(v.dev.bus.medium)|))
    ensures |v.dev.bus.medium| == |old(v.dev.bus.medium)| && !a.Got?
  {
    hide KeyingOk, HeaderOk, Plain, Splice, v.dev.Valid, v.Confined, SameBeyond, Learn, Forget, LostFrom, LostTill,
      Agrees, Till, Lower, Upper;
    ghost var m, p := v.dev.bus.medium, v.Plaintext();
    AgreesLength(known, p);
    var put := v.WriteAt(offset, data);
    FullLength(v, m, v.dev.bus.medium, offset, offset + |data|, put.Ok?);
    if put.Ok? {
      if data != [] { AgreesLearn(known, p, offset, data); }
      return Stored;
    }
    if !Rejected(FrameOf(v), offset + |data|) {
      FailedWrite(v, m, v.dev.bus.medium, offset, offset + |data|, known);
    }
    a := Refused(put.error);
  }

  lemma AgreesLength(known: Knowledge, p: seq<byte>)
    requires Agrees(known, p)
    ensures |p| == |known|
  {
  }

  lemma FullLength(v: LuksVolume, m: seq<byte>, m': seq<byte>, offset: nat, end: nat, ok: bool)
    requires 0 < v.q.ss && 0 < v.dev.bs && v.Confined(m, m', offset, end, ok)
    ensures |m'| == |m|
  {
  }

  /** A refusal within bounds comes from the drive: it was sent a command. */
  ghost predicate Asked<T>(before: seq<T>, after: seq<T>, a: Answer) {
    |before| + (if Failed(a) then 1 else 0) <= |after|
  }

  predicate Failed(a: Answer) { a.Refused? && a.error != OutOfBounds }

  /** Answers for which the drive is to blame. */
  function Failures(answers: seq<Answer>): nat {
    if answers == [] then 0 else Failures(answers[..|answers| - 1]) + (if Failed(answers[|answers| - 1]) then 1 else 0)
  }

  /** Any run of reads and writes. Every request has an answer; every read
      returns what is known of the array at that point, every write that
      succeeds makes its bytes known, and one that fails makes at most the
      sectors around it unknown. At the end the plaintext is what is known, each
      ciphertext sector is its plaintext encrypted under `iv + k * step`, and no
      byte outside the segment has changed. */
  method Serve(v: LuksVolume, reqs: seq<Request>) returns (answers: seq<Answer>)
    requires v.Valid()
    modifies v`scratch, v.scratch, v.dev`tag, v.dev.bus
    ensures v.Valid() && |answers| == |reqs| && 0 < v.q.ss && 0 < v.dev.bs
    ensures forall n :: 0 <= n < |reqs| ==>
      Answered(FrameOf(v), Known(FrameOf(v), old(v.Plaintext()), reqs[..n], answers[..n]), reqs[n], answers[n])
    ensures Agrees(Known(FrameOf(v), old(v.Plaintext()), reqs, answers), v.Plaintext())
    ensures forall k, s :: Spells(Known(FrameOf(v), old(v.Plaintext()), reqs, answers), v.q.ss, k, s) ==>
      HasSector(v.Area(), v.q.ss, k) && Sector(v.Area(), v.q.ss, k) == v.q.cipher.enc(Tweak(v.q, k), s)
    ensures |old(v.dev.bus.cmds)| + Failures(answers) <= |v.dev.bus.cmds|
    ensures v.Aligned() || (forall n :: 0 <= n < |answers| ==> !answers[n].Refused?) ==>
      SameBeyond(old(v.dev.bus.medium), v.dev.bus.medium, v.base, v.SegmentEnd(|old(v.dev.bus.medium)|))
  {
    hide KeyingOk, HeaderOk, Plain, Splice, v.dev.Valid, v.Confined, SameBeyond, v.Area, v.Plaintext, Answered, Known,
      Agrees, After, Sector, Spells;
    KeyingSs(v.q);
    BlockSize(v.dev);
    answers := [];
    ghost var p, m, f := v.Plaintext(), v.dev.bus.medium, FrameOf(v);
    ghost var known := All(p);
    AgreesAll(p);
    KnownNone(f, p);
    SameRefl(m, v.base, v.SegmentEnd(|m|));
    for n := 0 to |reqs|
      invariant v.Valid() && |answers| == n && known == Known(f, p, reqs[..n], answers) && Agrees(known, v.Plaintext())
      invariant v.scratch == old(v.scratch) || fresh(v.scratch)
      invariant forall k :: 0 <= k < n ==> Answered(f, Known(f, p, reqs[..k], answers[..k]), reqs[k], answers[k])
      invariant |v.dev.bus.medium| == |m| && |old(v.dev.bus.cmds)| + Failures(answers) <= |v.dev.bus.cmds|
      invariant v.Aligned() || (forall k :: 0 <= k < n ==> !answers[k].Refused?) ==>
        SameBeyond(m, v.dev.bus.medium, v.base, v.SegmentEnd(|m|))
    {
      ghost var now := v.dev.bus.medium;
      var a: Answer;
      match reqs[n] {
      case Get(offset, len) =>
        a := Read(v, offset, len, known);
        GetKeeps(f, known, offset, len, a);
        SameRefl(now, v.base, v.SegmentEnd(|m|));
      case Put(offset, data) =>
        a := Write(v, offset, data, known);
      }
      KnownMore(f, p, reqs, answers, n, a);
      if v.Aligned() || (!a.Refused? && forall k :: 0 <= k < n ==> !answers[k].Refused?) {
        SameTrans(m, now, v.dev.bus.medium, v.base, v.SegmentEnd(|m|));
      }
      ghost var was := answers;
      answers := answers + [a];
      assert answers[..n] == was;
      forall k | 0 <= k < n + 1 ensures Answered(f, Known(f, p, reqs[..k], answers[..k]), reqs[k], answers[k]) {
        if k < n { assert answers[..k] == was[..k]; } else { assert answers[..n] == was; }
      }
      assert forall k :: 0 <= k < n ==> was[k] == answers[k];
      known := After(f, known, reqs[n], a);
    }
    assert reqs[..|reqs|] == reqs;
    PlaintextIs(v);
    forall k, s | Spells(known, v.q.ss, k, s)
      ensures HasSector(v.Area(), v.q.ss, k) && Sector(v.Area(), v.q.ss, k) == v.q.cipher.enc(Tweak(v.q, k), s)
    {
      KnownCiphertext(v.q, v.Area(), known, k, s);
    }
  }

  lemma PlaintextIs(v: LuksVolume)
    requires KeyingOk(v.q)
    ensures v.Plaintext() == Plain(v.q, v.Area())
  {
  }

  lemma KnownNone(f: Frame, p: seq<byte>)
    requires 0 < f.ss && 0 < f.bs
    ensures Known(f, p, [], []) == All(p)
  {
  }

  lemma GetKeeps(f: Frame, known: Knowledge, offset: nat, len: nat, a: Answer)
    requires 0 < f.ss && 0 < f.bs
    ensures After(f, known, Get(offset, len), a) == known
  {
  }

  lemma KnownMore(f: Frame, p: seq<byte>, reqs: seq<Request>, answers: seq<Answer>, n: nat, a: Answer)
    requires 0 < f.ss && 0 < f.bs && |answers| == n < |reqs|
    ensures Known(f, p, reqs[..n + 1], answers + [a]) == After(f, Known(f, p, reqs[..n], answers), reqs[n], a)
  {
    hide After;
    assert reqs[..n + 1][..n] == reqs[..n] && (answers + [a])[..n] == answers;
  }

  /** A sector whose bytes are known is stored encrypted under its own tweak. */
  lemma KnownCiphertext(q: Keying, area: seq<byte>, known: Knowledge, k: nat, s: seq<byte>)
    requires KeyingOk(q) && Agrees(known, Plain(q, area)) && Spells(known, q.ss, k, s)
    ensures HasSector(area, q.ss, k) && Sector(area, q.ss, k) == q.cipher.enc(Tweak(q, k), s)
  {
    hide CipherOk, Plain;
    SectorCiphertext(q, area, k);
    var x := Sector(Plain(q, area), q.ss, k);
    forall j | 0 <= j < q.ss ensures x[j] == s[j] {
      assert known[k * q.ss + j] == Some(s[j]);
    }
    assert x == s;
  }

  // ----- runs in which no write fails -----

  /** The flat array after the writes that succeeded. */
  function Contents(p: seq<byte>, reqs: seq<Request>, answers: seq<Answer>): (r: seq<byte>)
    requires |answers| == |reqs|
    ensures |r| == |p|
  {
    if reqs == [] then p
    else
      var n := |reqs| - 1;
      var before := Contents(p, reqs[..n], answers[..n]);
      var x := reqs[n];
      if x.Put? && answers[n].Stored? && x.offset + |x.data| <= |before| then Splice(before, x.offset, x.data)
      else before
  }

  /** While no write fails but for its range, all of the array is known. */
  lemma {:induction false} AllKnown(f: Frame, p: seq<byte>, reqs: seq<Request>, answers: seq<Answer>)
    requires 0 < f.ss && 0 < f.bs && |answers| == |reqs|
    requires forall n :: 0 <= n < |reqs| && reqs[n].Put? && reqs[n].data != [] ==>
      if answers[n].Stored? then reqs[n].offset + |reqs[n].data| <= |p|
      else Rejected(f, reqs[n].offset + |reqs[n].data|)
    ensures Known(f, p, reqs, answers) == All(Contents(p, reqs, answers))
  {
    if reqs != [] {
      var n := |reqs| - 1;
      AllKnown(f, p, reqs[..n], answers[..n]);
      var before, x := Contents(p, reqs[..n], answers[..n]), reqs[n];
      if x.Put? && answers[n].Stored? && x.data != [] {
        LearnAll(before, x.offset, x.data);
      } else if x.Put? && x.data == [] && x.offset <= |before| {
        assert Splice(before, x.offset, []) == before;
      }
    }
  }

  lemma LearnAll(p: seq<byte>, offset: nat, data: seq<byte>)
    requires offset + |data| <= |p|
    ensures Learn(All(p), offset, data) == All(Splice(p, offset, data))
  {
    hide Splice;
    var r := Splice(p, offset, data);
    forall i | offset <= i < offset + |data| ensures r[i] == data[i - offset] {
      assert r[offset..offset + |data|][i - offset] == data[i - offset];
    }
  }
}
