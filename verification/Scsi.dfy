/** SCSI commands over the bulk-only transport (core/src/usb/scsi.rs): the
    command, data and status exchange against a transport that answers as it
    likes, and byte-addressed reads and writes on top of it. */
module Scsi {
  import opened Arith
  import opened Bytes
  import opened BulkOnly

  datatype Io<+T> = Done(value: T) | Fail(gone: bool)

  datatype Error = Protocol | CommandFailed | Transport | OutOfBounds

  datatype Result<+T> = Ok(value: T) | Err(error: Error)

  /** A status wrapper that passed the command it belongs to. */
  datatype Ack = Ack(cbw: Cbw, taken: seq<byte>, residue: nat)

  /** The media agree outside bytes `a` to `b`. */
  predicate SameBeyond(x: seq<byte>, y: seq<byte>, a: nat, b: nat) {
    |x| == |y| && forall k :: 0 <= k < |x| && !(a <= k < b) ==> y[k] == x[k]
  }

  /** What a command asks of a drive of `blocks` blocks of `bs` bytes, if it is
      a READ or WRITE whose lengths agree and which lies on the medium. */
  function Aim(blocks: nat, bs: nat, c: Cbw): Option<Target> {
    var t := DecodeCdb(c.cdb);
    if && t.Some? && t.value.lba + t.value.count <= blocks && t.value.count * bs == c.length
       && c.dir == (if t.value.write then Out else In)
    then t else None
  }

  lemma AimFits(blocks: nat, bs: nat, t: Target)
    requires t.lba + t.count <= blocks
    ensures t.lba * bs <= t.lba * bs + t.count * bs <= blocks * bs
    ensures (t.lba + t.count) * bs == t.lba * bs + t.count * bs
  {
    MulMono(t.lba + t.count, blocks, bs);
  }

  /** Where a WRITE may change the medium. */
  function WriteStart(blocks: nat, bs: nat, c: Cbw): nat {
    var t := Aim(blocks, bs, c);
    if t.Some? && t.value.write then t.value.lba * bs else 0
  }

  function WriteEnd(blocks: nat, bs: nat, c: Cbw): nat {
    var t := Aim(blocks, bs, c);
    if t.Some? && t.value.write then t.value.lba * bs + t.value.count * bs else 0
  }

  /** The bytes given so far are what the medium holds where a READ aims. */
  predicate True(medium: seq<byte>, blocks: nat, bs: nat, c: Cbw, given: seq<byte>) {
    var t := Aim(blocks, bs, c);
    t.Some? && !t.value.write && t.value.lba * bs + |given| <= |medium| ==>
      given == medium[t.value.lba * bs..t.value.lba * bs + |given|]
  }

  /** The medium once a WRITE that was taken in full has been acknowledged. */
  function Settled(medium: seq<byte>, blocks: nat, bs: nat, c: Cbw, taken: seq<byte>): seq<byte> {
    var t := Aim(blocks, bs, c);
    if t.Some? && t.value.write && |taken| == c.length && t.value.lba * bs + |taken| <= |medium|
    then Splice(medium, t.value.lba * bs, taken) else medium
  }

  /** The transport and the drive behind it. Every answer is arbitrary but for
      this: a drive claims success for a READ only if what it gave is what it
      holds, and for a WRITE with nothing left over only once it holds what it
      was sent. From the moment it sees a WRITE, the blocks it names may hold
      anything until then. */
  class Bus {
    const blocks: nat
    const bs: nat
    var medium: seq<byte>
    ghost var cmds: seq<Cbw>
    ghost var acks: seq<Ack>
    ghost var clears: nat
    var cur: Cbw
    var taken: seq<byte>
    var given: seq<byte>
    var truth: bool
    var csw: seq<byte>

    ghost predicate Valid()
      reads this
    {
      |medium| == blocks * bs && (truth ==> True(medium, blocks, bs, cur, given))
    }

    method SendCbw(b: seq<byte>) returns (r: Io<nat>)
      requires Valid() && DecodeCbw(b).Some?
      modifies this
      ensures Valid() && cur == DecodeCbw(b).value && taken == given == csw == [] && truth
      ensures cmds == old(cmds) + [cur] && acks == old(acks) && clears == old(clears)
      ensures SameBeyond(old(medium), medium, WriteStart(blocks, bs, cur), WriteEnd(blocks, bs, cur))
    {
      cur, taken, given, csw, truth := DecodeCbw(b).value, [], [], [], true;
      cmds := cmds + [cur];
      var m: seq<byte> := *;
      if SameBeyond(medium, m, WriteStart(blocks, bs, cur), WriteEnd(blocks, bs, cur)) {
        medium := m;
      }
      r := *;
    }

    method SendData(b: seq<byte>) returns (r: Io<nat>)
      requires Valid()
      modifies this`taken
      ensures Valid() && (r.Done? ==> r.value <= |b| && taken == old(taken) + b[..r.value])
      ensures r.Fail? ==> taken == old(taken)
    {
      var n: nat, ok: bool, gone: bool := *, *, *;
      if !ok {
        return Fail(gone);
      }
      n := Min(n, |b|);
      taken := taken + b[..n];
      r := Done(n);
    }

    method ReceiveData(max: nat) returns (r: Io<seq<byte>>)
      requires Valid()
      modifies this`given, this`truth
      ensures Valid() && (truth ==> old(truth))
      ensures r.Done? ==> |r.value| <= max && given == old(given) + r.value
      ensures r.Fail? ==> given == old(given)
    {
      r := *;
      if r.Done? {
        if |r.value| > max { r := Done([]); }
        given := given + r.value;
        truth := truth && True(medium, blocks, bs, cur, given);
      }
    }

    /** The drive has delivered a whole status wrapper that passes. */
    predicate Claims(c: seq<byte>)
      reads this`cur
    {
      |c| == CSW_LEN && Passes(c, cur.tag)
    }

    method ReceiveCsw(max: nat) returns (r: Io<seq<byte>>)
      requires Valid() && |csw| < CSW_LEN
      modifies this`csw, this`medium, this`acks
      ensures Valid() && (r.Done? ==> |r.value| <= max && csw == old(csw) + r.value) && (r.Fail? ==> csw == old(csw))
      ensures r.Done? && Claims(csw) ==> truth && acks == old(acks) + [Ack(cur, taken, DecodeCsw(csw).value.residue)]
      ensures r.Done? && Claims(csw) ==>
        medium ==
          if DecodeCsw(csw).value.residue == 0 then Settled(old(medium), blocks, bs, cur, taken) else old(medium)
      ensures !(r.Done? && Claims(csw)) ==> acks == old(acks) && medium == old(medium)
    {
      r := *;
      if r.Done? {
        if |r.value| > max { r := Done([]); }
        if Claims(csw + r.value) {
          if !truth {
            return Done([]);
          }
          if DecodeCsw(csw + r.value).value.residue == 0 {
            medium := Settled(medium, blocks, bs, cur, taken);
          }
          acks := acks + [Ack(cur, taken, DecodeCsw(csw + r.value).value.residue)];
        }
        csw := csw + r.value;
      }
    }

    method ClearHalt() returns (r: Io<()>)
      requires Valid()
      modifies this`clears
      ensures Valid() && clears == old(clears) + 1
    {
      clears := clears + 1;
      r := *;
    }

    /** Bulk-only mass storage reset; what it answers is never looked at. */
    method Reset()
      requires Valid()
      ensures Valid()
    {
    }
  }

  const MAX_SCSI_TRANSFER: nat := 128 * 1024

  class ScsiDevice {
    const bus: Bus
    const blocks: nat
    const bs: nat
    const maxTransfer: nat
    var tag: nat

    ghost predicate Valid()
      reads this, bus
    {
      && bus.Valid() && bus.blocks == blocks && bus.bs == bs && 0 < bs < U32_LIMIT && blocks * bs < U64_LIMIT
      && tag < U32_LIMIT
    }

    /** A drive that reported its capacity. */
    constructor (bus: Bus, blocks: nat, bs: nat, maxTransfer: nat)
      requires bus.Valid() && bus.blocks == blocks && bus.bs == bs && 0 < bs < U32_LIMIT && blocks * bs < U64_LIMIT
      ensures Valid() && this.bus == bus && this.blocks == blocks && this.bs == bs
    {
      this.bus, this.blocks, this.bs, this.maxTransfer, this.tag := bus, blocks, bs, maxTransfer, 1;
    }

    /** Wait for the status wrapper, clearing a halted endpoint at most once. */
    method WaitCsw() returns (r: Result<seq<byte>>)
      requires Valid() && bus.csw == []
      modifies bus`csw, bus`medium, bus`acks, bus`clears
      ensures Valid() && bus.clears <= old(bus.clears) + 1
      ensures r.Ok? ==> |r.value| == CSW_LEN && bus.csw == r.value
      ensures r.Err? ==> r.error != OutOfBounds
      ensures r.Ok? && Passes(r.value, bus.cur.tag) ==>
        && bus.truth && bus.acks == old(bus.acks) + [Ack(bus.cur, bus.taken, DecodeCsw(r.value).value.residue)]
        && bus.medium ==
             if DecodeCsw(r.value).value.residue == 0 then Settled(old(bus.medium), blocks, bs, bus.cur, bus.taken)
             else old(bus.medium)
      ensures !(r.Ok? && Passes(r.value, bus.cur.tag)) ==> bus.acks == old(bus.acks) && bus.medium == old(bus.medium)
    {
      hide DecodeCsw, Settled, True;
      var buf: seq<byte> := [];
      var clearedHalt := false;
      while |buf| < CSW_LEN
        invariant Valid() && |buf| <= CSW_LEN && bus.csw == buf
        invariant bus.clears == old(bus.clears) + if clearedHalt then 1 else 0
        invariant !bus.Claims(buf) ==> bus.acks == old(bus.acks) && bus.medium == old(bus.medium)
        invariant bus.Claims(buf) ==>
          bus.truth && bus.acks == old(bus.acks) + [Ack(bus.cur, bus.taken, DecodeCsw(buf).value.residue)]
        invariant bus.Claims(buf) ==>
          bus.medium ==
            if DecodeCsw(buf).value.residue == 0 then Settled(old(bus.medium), blocks, bs, bus.cur, bus.taken)
            else old(bus.medium)
        decreases CSW_LEN - |buf|, if clearedHalt then 0 else 1
      {
        var got := bus.ReceiveCsw(CSW_LEN - |buf|);
        if got.Fail? && got.gone {
          return Err(Transport);
        }
        if (got.Fail? || got.value == []) && !clearedHalt {
          clearedHalt := true;
          var cleared := bus.ClearHalt();
          if cleared.Fail? {
            if !cleared.gone { bus.Reset(); }
            return Err(Transport);
          }
          continue;
        }
        if got.Fail? {
          bus.Reset();
          return Err(Transport);
        }
        if got.value == [] {
          bus.Reset();
          return Err(Protocol);
        }
        buf := buf + got.value;
      }
      r := Ok(buf);
    }
  
    /** Send the command block wrapper. */
    method Begin(cdb: seq<byte>, length: nat, dir: Direction) returns (r: Result<()>)
      requires Valid() && 0 < |cdb| <= MAX_CDB_LEN && length < U32_LIMIT && (dir == NoData <==> length == 0)
      modifies this`tag, bus
      ensures Valid() && bus.cur.length == length && bus.cur.dir == dir && bus.cur.cdb == cdb
      ensures r.Err? ==> r.error != OutOfBounds
      ensures bus.taken == bus.given == bus.csw == [] && bus.truth
      ensures bus.cmds == old(bus.cmds) + [bus.cur] && bus.acks == old(bus.acks) && bus.clears == old(bus.clears)
      ensures SameBeyond(old(bus.medium), bus.medium, WriteStart(blocks, bs, bus.cur), WriteEnd(blocks, bs, bus.cur))
    {
      hide EncodeCbw, DecodeCbw, WriteStart, WriteEnd, True;
      var mine := tag;
      tag := (tag + 1) % U32_LIMIT;
      var c := Cbw(mine, length, dir, cdb);
      CbwDecodes(c);
      var sent := bus.SendCbw(EncodeCbw(c));
      if sent.Fail? {
        bus.Reset();
        return Err(Transport);
      }
      if sent.value != CBW_LEN {
        return Err(Protocol);
      }
      r := Ok(());
    }

    /** Judge the status wrapper of the command in flight. */
    method Conclude() returns (r: Result<nat>)
      requires Valid() && bus.csw == []
      modifies bus`csw, bus`medium, bus`acks, bus`clears
      ensures Valid() && bus.clears <= old(bus.clears) + 1
      ensures r.Ok? ==>
        && bus.truth && bus.acks == old(bus.acks) + [Ack(bus.cur, bus.taken, r.value)]
        && bus.medium ==
             if r.value == 0 then Settled(old(bus.medium), blocks, bs, bus.cur, bus.taken) else old(bus.medium)
      ensures r.Err? ==> bus.acks == old(bus.acks) && bus.medium == old(bus.medium) && r.error != OutOfBounds
    {
      hide Settled, True;
      var got := WaitCsw();
      if got.Err? {
        return Err(got.error);
      }
      var csw := DecodeCsw(got.value);
      if csw.None? || csw.value.tag != bus.cur.tag {
        return Err(Protocol);
      }
      match csw.value.status
      case Passed =>
        r := Ok(csw.value.residue);
      case Failed =>
        r := Err(CommandFailed);
      case PhaseError =>
        bus.Reset();
        r := Err(Protocol);
    }
  
    /** What one command may put on the bus: itself, and after a failure at
        most one REQUEST SENSE. */
    ghost predicate Issued(before: seq<Cbw>, after: seq<Cbw>, cdb: seq<byte>, length: nat, dir: Direction,
        askWhy: bool) {
      && |before| < |after| && before <= after
      && after[|before|].cdb == cdb && after[|before|].length == length && after[|before|].dir == dir
      && (|after| == |before| + 1 || (askWhy && |after| == |before| + 2 && IsSense(after[|before| + 1])))
    }

    ghost predicate IsSense(c: Cbw) { c.cdb == SenseCdb() && c.length == 18 && c.dir == In }

    function SenseCdb(): seq<byte> { [OP_REQUEST_SENSE, 0, 0, 0, 18, 0] }

    /** One exchange with data from the drive. */
    method CommandIn(cdb: seq<byte>, length: nat, askWhy: bool) returns (r: Result<seq<byte>>)
      requires Valid() && 0 < |cdb| <= MAX_CDB_LEN && 0 < length < U32_LIMIT
      modifies this`tag, bus
      ensures Valid() && bus.medium == old(bus.medium) && (r.Err? ==> r.error != OutOfBounds)
      ensures bus.clears <= old(bus.clears) + if askWhy then 2 else 1
      ensures Issued(old(bus.cmds), bus.cmds, cdb, length, In, askWhy) && old(bus.acks) <= bus.acks
      ensures r.Ok? ==> |r.value| <= length && |bus.cmds| == |old(bus.cmds)| + 1
      ensures r.Ok? ==> True(bus.medium, blocks, bs, bus.cmds[|old(bus.cmds)|], r.value)
      decreases askWhy
    {
      hide Settled, True, DecodeCdb, SameBeyond;
      var begun := Begin(cdb, length, In);
      ReadsOnly(blocks, bs, bus.cur, old(bus.medium), bus.medium);
      if begun.Err? {
        return Err(begun.error);
      }
      var data: seq<byte> := [];
      while |data| < length
        invariant Valid() && |data| <= length && bus.given == data
        decreases length - |data|
        modifies bus`given, bus`truth
      {
        var got := bus.ReceiveData(length - |data|);
        if got.Fail? {
          bus.Reset();
          return Err(Transport);
        }
        if got.value == [] {
          break;
        }
        data := data + got.value;
      }
      var done := Conclude();
      ReadSettles(bus.medium, blocks, bs, bus.cur, bus.taken);
      ReadSettles(old(bus.medium), blocks, bs, bus.cur, bus.taken);
      if done.Err? {
        if done.error == CommandFailed && askWhy {
          var sense := CommandIn(SenseCdb(), 18, false);
        }
        return Err(done.error);
      }
      r := Ok(data);
    }

    /** One exchange with data for the drive. A drive that reports a remainder
        has not taken the data, whatever its status says. */
    method CommandOut(cdb: seq<byte>, data: seq<byte>, askWhy: bool) returns (r: Result<nat>)
      requires Valid() && 0 < |cdb| <= MAX_CDB_LEN && 0 < |data| < U32_LIMIT
      modifies this`tag, bus
      ensures Valid() && bus.clears <= old(bus.clears) + (if askWhy then 2 else 1)
      ensures r.Err? ==> r.error != OutOfBounds
      ensures Issued(old(bus.cmds), bus.cmds, cdb, |data|, Out, askWhy) && old(bus.acks) <= bus.acks
      ensures
        var c := bus.cmds[|old(bus.cmds)|];
        SameBeyond(old(bus.medium), bus.medium, WriteStart(blocks, bs, c), WriteEnd(blocks, bs, c))
      ensures r.Ok? ==> r.value <= |data| && |bus.cmds| == |old(bus.cmds)| + 1
      ensures r.Ok? ==>
        bus.acks == old(bus.acks) + [Ack(bus.cmds[|old(bus.cmds)|], data[..r.value], 0)]
      ensures r.Ok? && r.value == |data| ==>
        var c := bus.cmds[|old(bus.cmds)|];
        exists m ::
          && SameBeyond(old(bus.medium), m, WriteStart(blocks, bs, c), WriteEnd(blocks, bs, c))
          && bus.medium == Settled(m, blocks, bs, c, data)
    {
      hide Settled, True, DecodeCdb, SameBeyond, WriteStart, WriteEnd;
      var begun := Begin(cdb, |data|, Out);
      ghost var m := bus.medium;
      if begun.Err? {
        return Err(begun.error);
      }
      var sent := 0;
      while sent < |data|
        invariant Valid() && 0 <= sent <= |data| && bus.taken == data[..sent]
        decreases |data| - sent
        modifies bus`taken
      {
        var n := bus.SendData(data[sent..]);
        if n.Fail? {
          bus.Reset();
          return Err(Transport);
        }
        if n.value == 0 {
          break;
        }
        assert data[..sent] + data[sent..][..n.value] == data[..sent + n.value];
        sent := sent + n.value;
      }
      var done := Conclude();
      SettledWithin(old(bus.medium), m, blocks, bs, bus.cur, bus.taken);
      if done.Err? {
        if done.error == CommandFailed && askWhy {
          var sense := CommandIn(SenseCdb(), 18, false);
        }
        return Err(done.error);
      }
      if done.value != 0 {
        return Err(Protocol);
      }
      assert data[..|data|] == data;
      assert bus.taken == data[..sent];
      assert bus.cmds[|old(bus.cmds)|] == bus.cur;
      assert bus.acks == old(bus.acks) + [Ack(bus.cur, data[..sent], 0)];
      r := Ok(sent);
    }

    // ----- blocks -----

    /** Every command issued since is a REQUEST SENSE, or a READ or WRITE whose
        range lies on the drive. */
    ghost predicate Aimed(before: seq<Cbw>, after: seq<Cbw>) {
      before <= after && forall k :: |before| <= k < |after| ==> IsSense(after[k]) || Aim(blocks, bs, after[k]).Some?
    }

    lemma AimedAt(before: seq<Cbw>, after: seq<Cbw>, t: Target, dir: Direction)
      requires 0 < t.count && t.lba + t.count <= blocks && 0 < bs && blocks * bs < U64_LIMIT && t.count * bs < U32_LIMIT
      requires dir == (if t.write then Out else In) && Issued(before, after, Cdb(t), t.count * bs, dir, true)
      ensures |before| < |after| && after[|before|].length == t.count * bs
      ensures Aimed(before, after) && Aim(blocks, bs, after[|before|]) == Some(t)
      ensures t.lba * bs + t.count * bs <= blocks * bs
      ensures WriteStart(blocks, bs, after[|before|]) == (if t.write then t.lba * bs else 0)
      ensures WriteEnd(blocks, bs, after[|before|]) == (if t.write then t.lba * bs + t.count * bs else 0)
    {
      hide Cdb, DecodeCdb, Aim;
      RangeLimits(blocks, bs, t);
      CdbDecodes(t);
      AimIs(blocks, bs, after[|before|], t);
    }

    lemma AimedNone(a: seq<Cbw>)
      ensures Aimed(a, a)
    {
    }

    lemma AimedTrans(a: seq<Cbw>, b: seq<Cbw>, c: seq<Cbw>)
      requires Aimed(a, b) && Aimed(b, c)
      ensures Aimed(a, c)
    {
      hide Aim;
    }

    /** `read_blocks`. */
    method ReadBlocks(lba: nat, count: nat) returns (r: Result<seq<byte>>)
      requires Valid() && 0 < count && lba + count <= blocks && count * bs < U32_LIMIT
      modifies this`tag, bus
      ensures Valid() && bus.medium == old(bus.medium) && Aimed(old(bus.cmds), bus.cmds)
      ensures r.Err? ==> r.error != OutOfBounds
      ensures old(bus.acks) <= bus.acks && |old(bus.cmds)| < |bus.cmds|
      ensures r.Ok? ==> |r.value| <= count * bs && lba * bs + count * bs <= |bus.medium|
      ensures r.Ok? ==> r.value == bus.medium[lba * bs..lba * bs + |r.value|]
    {
      hide Cdb, DecodeCdb, Aimed, Issued;
      var t := Target(false, lba, count);
      MulMono(1, count, bs);
      r := CommandIn(Cdb(t), count * bs, true);
      AimedAt(old(bus.cmds), bus.cmds, t, In);
    }

    /** `write_blocks`: acknowledged in full, the blocks hold the data. */
    method WriteBlocks(lba: nat, count: nat, data: seq<byte>) returns (r: Result<nat>)
      requires Valid() && 0 < count && lba + count <= blocks && |data| == count * bs < U32_LIMIT
      modifies this`tag, bus
      ensures Valid() && Aimed(old(bus.cmds), bus.cmds) && lba * bs + count * bs <= blocks * bs
      ensures r.Err? ==> r.error != OutOfBounds
      ensures SameBeyond(old(bus.medium), bus.medium, lba * bs, lba * bs + count * bs) && |old(bus.cmds)| < |bus.cmds|
      ensures r.Ok? ==> r.value <= |data| && |bus.acks| == |old(bus.acks)| + 1 && old(bus.acks) <= bus.acks
      ensures r.Ok? ==> Carried(bus.acks[|old(bus.acks)|], Target(true, lba, count), data[..r.value])
      ensures r.Ok? && r.value == |data| ==> bus.medium == Splice(old(bus.medium), lba * bs, data)
    {
      hide Cdb, DecodeCdb, Aimed, Issued, Splice, SameBeyond, Settled, WriteStart, WriteEnd, Aim;
      var t := Target(true, lba, count);
      MulMono(1, count, bs);
      ghost var m0 := bus.medium;
      r := CommandOut(Cdb(t), data, true);
      AimedAt(old(bus.cmds), bus.cmds, t, Out);
      ghost var c := bus.cmds[|old(bus.cmds)|];
      if r.Ok? && r.value == |data| {
        ghost var m :| SameBeyond(m0, m, WriteStart(blocks, bs, c), WriteEnd(blocks, bs, c)) && bus.medium == Settled(m,
          blocks, bs, c, data);
        SettledIs(m0, m, blocks, bs, c, t, lba * bs, data);
      }
    }

    /** A WRITE for `t` whose own status said passed with nothing left over,
        after the drive took `taken`. */
    ghost predicate Carried(a: Ack, t: Target, taken: seq<byte>) {
      Aim(blocks, bs, a.cbw) == Some(t) && a.taken == taken && a.residue == 0
    }

    // ----- bytes -----

    /** Read the next bytes of a range, as many as one READ brings. */
    method ReadSpan(pos: nat, remaining: nat) returns (r: Result<seq<byte>>)
      requires Valid() && 0 < remaining && pos + remaining <= |bus.medium|
      modifies this`tag, bus
      ensures Valid() && bus.medium == old(bus.medium) && Aimed(old(bus.cmds), bus.cmds)
      ensures r.Err? ==> r.error != OutOfBounds
      ensures r.Ok? ==> 0 < |r.value| <= remaining && r.value == bus.medium[pos..pos + |r.value|]
      ensures |old(bus.cmds)| < |bus.cmds|
    {
      hide Aimed, NextSpan, MaxBlocks, SpanOk, True;
      var most := MaxBlocks(maxTransfer, bs);
      var s := NextSpan(pos, remaining, bs, most);
      NextSpanOk(pos, remaining, bs, most, blocks);
      SpanFacts(pos, remaining, bs, blocks, s);
      SpanSmall(maxTransfer, bs, s.count);
      var got := ReadBlocks(s.lba, s.count);
      if got.Err? {
        return Err(got.error);
      }
      if |got.value| < s.count * bs {
        return Err(Protocol);
      }
      SpanPieces(pos, remaining, bs, blocks, s, bus.medium, got.value);
      r := Ok(got.value[s.within..s.within + s.take]);
    }

    /** `read_at`: any byte range of the drive, however it is cut into READs. */
    method ReadAt(offset: nat, buf: array<byte>, len: nat) returns (r: Result<()>)
      requires Valid() && len <= buf.Length
      modifies this`tag, bus, buf
      ensures Valid() && bus.medium == old(bus.medium) && Aimed(old(bus.cmds), bus.cmds)
      ensures buf[len..] == old(buf[len..])
      ensures r == Err(OutOfBounds) <==> len > 0 && offset + len > |bus.medium|
      ensures r == Err(OutOfBounds) ==> bus.cmds == old(bus.cmds)
      ensures |old(bus.cmds)| <= |bus.cmds| && (r.Err? && r != Err(OutOfBounds) ==> |old(bus.cmds)| < |bus.cmds|)
      ensures r.Ok? && len > 0 ==> buf[..len] == bus.medium[offset..offset + len]
    {
      hide Aimed, True;
      AimedNone(bus.cmds);
      if len == 0 {
        return Ok(());
      }
      if offset + len > blocks * bs {
        return Err(OutOfBounds);
      }
      ghost var m := bus.medium;
      var done := 0;
      while done < len
        invariant Valid() && bus.medium == m && Aimed(old(bus.cmds), bus.cmds) && 0 <= done <= len
        invariant buf[..done] == m[offset..offset + done] && buf[len..] == old(buf[len..])
        invariant |old(bus.cmds)| <= |bus.cmds|
      {
        ghost var cmds, before := bus.cmds, buf[..];
        var got := ReadSpan(offset + done, len - done);
        AimedTrans(old(bus.cmds), cmds, bus.cmds);
        if got.Err? {
          return Err(got.error);
        }
        Store(buf, done, got.value);
        FillMore(before, buf[..], done, len, got.value, m, offset, old(buf[len..]));
        done := done + |got.value|;
      }
      r := Ok(());
    }

    /** A WRITE that was carried in full, passed under its own tag with nothing
        left over, and holds byte `p`. */
    ghost predicate Carries(a: Ack, p: nat) {
      var t := Aim(blocks, bs, a.cbw);
      && t.Some? && t.value.write && t.value.lba * bs <= p < (t.value.lba + t.value.count) * bs
      && |a.taken| == t.value.count * bs && a.residue == 0
    }

    ghost predicate CarriedAll(before: seq<Ack>, after: seq<Ack>, from: nat, to: nat) {
      before <= after && forall p :: from <= p < to ==> CarriedSince(before, after, p)
    }

    ghost predicate CarriedSince(before: seq<Ack>, after: seq<Ack>, p: nat) {
      exists k :: |before| <= k < |after| && Carries(after[k], p)
    }

    lemma CarriedMore(a: seq<Ack>, b: seq<Ack>, c: seq<Ack>, from: nat, mid: nat, to: nat)
      requires CarriedAll(a, b, from, mid) && CarriedAll(b, c, mid, to)
      ensures CarriedAll(a, c, from, to)
    {
      hide Carries;
      forall p | from <= p < to ensures CarriedSince(a, c, p) {
        if p < mid {
          assert CarriedSince(a, b, p);
          var k :| |a| <= k < |b| && Carries(b[k], p);
          assert Carries(c[k], p);
        } else {
          assert CarriedSince(b, c, p);
        }
      }
    }

    lemma CarriedNone(a: seq<Ack>, from: nat)
      ensures CarriedAll(a, a, from, from)
    {
    }

    /** `write_at`: any byte range of the drive. Success means that every block
        of the covering range was carried in full and acknowledged; and whatever
        happens, no byte outside those blocks changes. */
    method WriteAt(offset: nat, data: seq<byte>) returns (r: Result<()>)
      requires Valid()
      modifies this`tag, bus
      ensures Valid() && Aimed(old(bus.cmds), bus.cmds)
      ensures r == Err(OutOfBounds) <==> data != [] && offset + |data| > |old(bus.medium)|
      ensures r == Err(OutOfBounds) || data == [] ==> bus.cmds == old(bus.cmds) && bus.medium == old(bus.medium)
      ensures SameBeyond(old(bus.medium), bus.medium, Lower(offset, bs), Upper(offset + |data|, bs))
      ensures r.Ok? && data != [] ==> bus.medium == Splice(old(bus.medium), offset, data)
      ensures r.Ok? ==> CarriedAll(old(bus.acks), bus.acks, offset, offset + |data|)
      ensures |old(bus.cmds)| <= |bus.cmds| && (r.Err? && r != Err(OutOfBounds) ==> |old(bus.cmds)| < |bus.cmds|)
    {
      hide Aimed, True, Splice, SameBeyond, CarriedAll, Lower, Upper;
      ghost var m, a, b := bus.medium, Lower(offset, bs), Upper(offset + |data|, bs);
      AimedNone(bus.cmds);
      SameRefl(m, a, b);
      CarriedNone(bus.acks, offset);
      if data == [] {
        return Ok(());
      }
      if offset + |data| > blocks * bs {
        return Err(OutOfBounds);
      }
      var done := 0;
      SpliceNone(m, offset);
      assert data[..0] == [];
      while done < |data|
        invariant Valid() && Aimed(old(bus.cmds), bus.cmds) && 0 <= done <= |data| && |bus.medium| == |m|
        invariant SameBeyond(m, bus.medium, a, b) && bus.medium == Splice(m, offset, data[..done])
        invariant CarriedAll(old(bus.acks), bus.acks, offset, offset + done) && |old(bus.cmds)| <= |bus.cmds|
      {
        ghost var cmds, acks, now := bus.cmds, bus.acks, bus.medium;
        var took := WriteSpan(offset + done, data[done..]);
        AimedTrans(old(bus.cmds), cmds, bus.cmds);
        Narrow(offset, done, |data|, bs);
        SameWider(now, bus.medium, Lower(offset + done, bs), Upper(offset + |data|, bs), a, b);
        SameTrans(m, now, bus.medium, a, b);
        if took.Err? {
          return Err(took.error);
        }
        CarriedMore(old(bus.acks), acks, bus.acks, offset, offset + done, offset + done + took.value);
        SpliceMore(m, offset, data, done, took.value);
        done := done + took.value;
      }
      assert data[..|data|] == data;
      r := Ok(());
    }

    /** Write the next bytes of a range, as many as one WRITE takes. Blocks the
        bytes only partly cover are read first. */
    method WriteSpan(pos: nat, data: seq<byte>) returns (r: Result<nat>)
      requires Valid() && data != [] && pos + |data| <= |bus.medium|
      modifies this`tag, bus
      ensures Valid() && Aimed(old(bus.cmds), bus.cmds) && (r.Err? ==> r.error != OutOfBounds)
      ensures SameBeyond(old(bus.medium), bus.medium, Lower(pos, bs), Upper(pos + |data|, bs))
      ensures r.Ok? ==> 0 < r.value <= |data| && bus.medium == Splice(old(bus.medium), pos, data[..r.value])
      ensures r.Ok? ==> CarriedAll(old(bus.acks), bus.acks, pos, pos + r.value)
      ensures r.Err? ==> |bus.medium| == |old(bus.medium)|
      ensures |old(bus.cmds)| < |bus.cmds|
    {
      hide Aimed, NextSpan, MaxBlocks, SpanOk, True, Splice, SameBeyond, Carries, CarriedAll, Carried, Lower, Upper;
      ghost var m := bus.medium;
      var most := MaxBlocks(maxTransfer, bs);
      var s := NextSpan(pos, |data|, bs, most);
      NextSpanOk(pos, |data|, bs, most, blocks);
      SpanFacts(pos, |data|, bs, blocks, s);
      SpanSmall(maxTransfer, bs, s.count);
      SpanCovers(pos, |data|, bs, blocks, s);
      AimFits(blocks, bs, Target(true, s.lba, s.count));
      SameRefl(m, Lower(pos, bs), Upper(pos + |data|, bs));
      AimedNone(bus.cmds);
      var block := data[..s.take];
      ghost var cmds := bus.cmds;
      if s.within != 0 || s.take != s.count * bs {
        var got := ReadBlocks(s.lba, s.count);
        cmds := bus.cmds;
        if got.Err? {
          return Err(got.error);
        }
        if |got.value| < s.count * bs {
          return Err(Protocol);
        }
        block := Splice(got.value, s.within, data[..s.take]);
        PatchSplice(m, s.lba * bs, got.value, s.within, data[..s.take]);
      }
      ghost var acks := bus.acks;
      var put := WriteBlocks(s.lba, s.count, block);
      AimedTrans(old(bus.cmds), cmds, bus.cmds);
      SameWider(m, bus.medium, s.lba * bs, s.lba * bs + s.count * bs, Lower(pos, bs), Upper(pos + |data|, bs));
      if put.Err? {
        return Err(put.error);
      }
      if put.value < s.count * bs {
        return Err(Protocol);
      }
      assert block[..put.value] == block;
      CarriedSpan(this, old(bus.acks), acks, bus.acks, s, pos, |data|, block);
      r := Ok(s.take);
    }
  }

  lemma CarriedSpan(dev: ScsiDevice, a0: seq<Ack>, a1: seq<Ack>, a2: seq<Ack>, s: Span, pos: nat, remaining: nat,
      block: seq<byte>)
    requires a0 <= a1 <= a2 && |a2| == |a1| + 1 && dev.Carried(a2[|a1|], Target(true, s.lba, s.count), block)
    requires |block| == s.count * dev.bs
    requires SpanOk(pos, remaining, dev.bs, dev.blocks, s)
    ensures dev.CarriedAll(a0, a2, pos, pos + s.take)
  {
    hide Aim;
    Distribute(s.lba, s.count, dev.bs);
    forall p | pos <= p < pos + s.take ensures dev.CarriedSince(a0, a2, p) {
      assert dev.Carries(a2[|a1|], p);
    }
  }

  /** The start of the block holding byte `p`. */
  function Lower(p: nat, bs: nat): nat
    requires 0 < bs
  {
    p / bs * bs
  }

  /** The end of the blocks holding the bytes before `p`. */
  function Upper(p: nat, bs: nat): nat
    requires 0 < bs
  {
    CeilDiv(p, bs) * bs
  }

  /** One step of a byte transfer: the blocks that hold the next bytes. */
  datatype Span = Span(lba: nat, within: nat, count: nat, take: nat)

  function MaxBlocks(maxTransfer: nat, bs: nat): (n: nat)
    requires 0 < bs
    ensures 0 < n <= READ10_MAX_BLOCKS
  {
    var n := Min(maxTransfer, MAX_SCSI_TRANSFER) / bs;
    if n < 1 then 1 else if n > READ10_MAX_BLOCKS then READ10_MAX_BLOCKS else n
  }

  function NextSpan(pos: nat, remaining: nat, bs: nat, most: nat): Span
    requires 0 < bs && 0 < remaining && 0 < most
  {
    var within := pos % bs;
    var count := Min(CeilDiv(within + remaining, bs), most);
    SpanTake(pos, remaining, bs, most);
    Span(pos / bs, within, count, Min(count * bs - within, remaining))
  }

  /** The covering blocks reach past the first byte. */
  lemma SpanTake(pos: nat, remaining: nat, bs: nat, most: nat)
    requires 0 < bs && 0 < remaining && 0 < most
    ensures
      var n := CeilDiv(pos % bs + remaining, bs);
      && 0 < n && (n - 1) * bs < pos % bs + remaining <= n * bs
      && pos % bs < bs <= Min(n, most) * bs
  {
    var x := pos % bs + remaining;
    var n := CeilDiv(x, bs);
    assert x + bs - 1 == n * bs + (x + bs - 1) % bs;
    if n == 0 { assert false; }
    assert (n - 1) * bs == n * bs - bs;
    MulMono(1, Min(n, most), bs);
  }

  ghost predicate SpanOk(pos: nat, remaining: nat, bs: nat, blocks: nat, s: Span) {
    && 0 < s.count && s.lba + s.count <= blocks && s.within + s.take <= s.count * bs && 0 < s.take <= remaining
    && s.lba * bs + s.within == pos && s.within < bs
    && (s.take < remaining ==> pos + s.take == (s.lba + s.count) * bs)
    && (s.take == remaining ==> pos + s.take <= (s.lba + s.count) * bs)
    && (s.lba + s.count - 1) * bs < pos + remaining
  }

  lemma SpanFacts(pos: nat, remaining: nat, bs: nat, blocks: nat, s: Span)
    requires SpanOk(pos, remaining, bs, blocks, s)
    ensures 0 < s.count && s.lba + s.count <= blocks && 0 < s.take <= remaining && s.within + s.take <= s.count * bs
    ensures s.lba * bs + s.within == pos
  {
  }

  lemma NextSpanOk(pos: nat, remaining: nat, bs: nat, most: nat, blocks: nat)
    requires 0 < bs && 0 < remaining && 0 < most && pos + remaining <= blocks * bs
    ensures SpanOk(pos, remaining, bs, blocks, NextSpan(pos, remaining, bs, most))
    ensures NextSpan(pos, remaining, bs, most).count <= most
  {
    hide CeilDiv, SpanOk;
    SpanTake(pos, remaining, bs, most);
    DivMod(pos, bs);
    Covering(pos / bs, pos % bs, CeilDiv(pos % bs + remaining, bs), most, remaining, bs, blocks);
  }

  lemma Covering(lba: nat, within: nat, n: nat, most: nat, remaining: nat, bs: nat, blocks: nat)
    requires 0 < n && (n - 1) * bs < within + remaining <= n * bs && within < bs <= Min(n, most) * bs && 0 < remaining
    requires lba * bs + within + remaining <= blocks * bs && 0 < most
    ensures
      var count := Min(n, most);
      SpanOk(lba * bs + within, remaining, bs, blocks, Span(lba, within, count, Min(count * bs - within, remaining)))
  {
    var count := Min(n, most);
    Distribute(lba, count, bs);
    Distribute(lba, n - 1, bs);
    LastBlock(lba * bs + within + remaining, lba + n, bs, blocks);
    MulMono(lba + count - 1, lba + n - 1, bs);
  }

  /** The blocks of a step are among those that cover the range. */
  lemma SpanCovers(pos: nat, remaining: nat, bs: nat, blocks: nat, s: Span)
    requires 0 < bs && SpanOk(pos, remaining, bs, blocks, s)
    ensures Lower(pos, bs) == s.lba * bs && s.lba * bs + s.count * bs <= Upper(pos + remaining, bs)
  {
    hide CeilDiv;
    DivModUnique(s.lba, s.within, bs);
    Distribute(s.lba, s.count, bs);
    CeilAtLeast(pos + remaining, bs, s.lba + s.count);
  }

  lemma CeilAtLeast(x: nat, bs: nat, n: nat)
    requires 0 < bs && 0 < n && (n - 1) * bs < x
    ensures n * bs <= CeilDiv(x, bs) * bs
  {
    var q := CeilDiv(x, bs);
    assert x + bs - 1 == q * bs + (x + bs - 1) % bs;
    if q < n { MulMono(q, n - 1, bs); assert false; }
    MulMono(n, q, bs);
  }

  /** Writing back patched blocks patches the medium. */
  lemma PatchSplice(m: seq<byte>, a: nat, got: seq<byte>, within: nat, piece: seq<byte>)
    requires a + |got| <= |m| && got == m[a..a + |got|] && within + |piece| <= |got|
    ensures Splice(m, a, Splice(got, within, piece)) == Splice(m, a + within, piece)
  {
    var g := Splice(got, within, piece);
    var x, y := Splice(m, a, g), Splice(m, a + within, piece);
    hide Splice;
    forall k | 0 <= k < |m| ensures x[k] == y[k] {
      if a <= k < a + |got| {
        assert x[a..a + |g|][k - a] == g[k - a];
        if within <= k - a < within + |piece| {
          assert g[within..within + |piece|][k - a - within] == piece[k - a - within];
          assert y[a + within..a + within + |piece|][k - a - within] == piece[k - a - within];
        } else {
          assert g[k - a] == got[k - a] == m[a + (k - a)];
        }
      }
    }
  }

  lemma Narrow(offset: nat, done: nat, len: nat, bs: nat)
    requires 0 < bs
    ensures Lower(offset, bs) <= Lower(offset + done, bs) && offset + done + (len - done) == offset + len
  {
    var x, y := offset / bs, (offset + done) / bs;
    DivMod(offset, bs);
    DivMod(offset + done, bs);
    if y < x { MulMono(y + 1, x, bs); Distribute(y, 1, bs); assert false; }
    MulMono(x, y, bs);
  }

  lemma SameTrans(x: seq<byte>, y: seq<byte>, z: seq<byte>, a: nat, b: nat)
    requires SameBeyond(x, y, a, b) && SameBeyond(y, z, a, b)
    ensures SameBeyond(x, z, a, b)
  {
  }

  lemma SpliceNone(m: seq<byte>, a: nat)
    requires a <= |m|
    ensures Splice(m, a, []) == m
  {
  }

  /** Writing the next piece extends the part written. */
  lemma SpliceMore(m: seq<byte>, a: nat, data: seq<byte>, done: nat, n: nat)
    requires a + done + n <= |m| && done + n <= |data|
    ensures Splice(Splice(m, a, data[..done]), a + done, data[done..][..n]) == Splice(m, a, data[..done + n])
  {
    var d0, d1, d2 := data[..done], data[done..][..n], data[..done + n];
    var x := Splice(m, a, d0);
    var y, z := Splice(x, a + done, d1), Splice(m, a, d2);
    hide Splice;
    forall k | 0 <= k < |m| ensures y[k] == z[k] {
      if a <= k < a + done + n {
        assert z[a..a + |d2|][k - a] == data[k - a];
        if k < a + done {
          assert x[a..a + |d0|][k - a] == data[k - a];
        } else {
          assert y[a + done..a + done + |d1|][k - a - done] == d1[k - a - done];
        }
      }
    }
  }

  lemma SameRefl(x: seq<byte>, a: nat, b: nat)
    ensures SameBeyond(x, x, a, b)
  {
  }

  lemma SameWider(x: seq<byte>, y: seq<byte>, a: nat, b: nat, a': nat, b': nat)
    requires SameBeyond(x, y, a, b) && a' <= a && b <= b'
    ensures SameBeyond(x, y, a', b')
  {
  }

  lemma DivMod(x: nat, d: nat)
    requires 0 < d
    ensures x == x / d * d + x % d
  {
  }

  /** The block holding the last byte is on the drive. */
  lemma LastBlock(end: nat, n: nat, bs: nat, blocks: nat)
    requires 0 < n && (n - 1) * bs < end <= blocks * bs
    ensures n <= blocks
  {
    if blocks < n { MulMono(blocks, n - 1, bs); }
  }

  /** A step fits a transfer length of 32 bits. */
  lemma SpanSmall(maxTransfer: nat, bs: nat, count: nat)
    requires 0 < bs < U32_LIMIT && count <= MaxBlocks(maxTransfer, bs)
    ensures count * bs < U32_LIMIT
  {
    var n := Min(maxTransfer, MAX_SCSI_TRANSFER) / bs;
    if n >= 1 {
      MulMono(count, n, bs);
      assert n * bs <= Min(maxTransfer, MAX_SCSI_TRANSFER);
    } else {
      MulMono(count, 1, bs);
    }
  }

  /** The bytes of a step inside the blocks that were read. */
  lemma SpanPieces(pos: nat, remaining: nat, bs: nat, blocks: nat, s: Span, m: seq<byte>, got: seq<byte>)
    requires SpanOk(pos, remaining, bs, blocks, s) && |got| == s.count * bs && s.lba * bs + |got| <= |m|
    requires got == m[s.lba * bs..s.lba * bs + |got|]
    ensures s.within + s.take <= |got| && pos + s.take <= |m|
    ensures got[s.within..s.within + s.take] == m[pos..pos + s.take]
  {
    var x, y := got[s.within..s.within + s.take], m[pos..pos + s.take];
    forall k | 0 <= k < s.take ensures x[k] == y[k] {
      assert x[k] == got[s.within + k] == m[s.lba * bs + (s.within + k)];
    }
  }

  lemma FillMore(b: seq<byte>, b': seq<byte>, done: nat, len: nat, piece: seq<byte>, m: seq<byte>, offset: nat,
      rest: seq<byte>)
    requires done + |piece| <= len <= |b| && b' == Splice(b, done, piece) && offset + done + |piece| <= |m|
    requires b[..done] == m[offset..offset + done] && b[len..] == rest
    requires piece == m[offset + done..offset + done + |piece|]
    ensures b'[..done + |piece|] == m[offset..offset + done + |piece|] && b'[len..] == rest
  {
    var n := done + |piece|;
    forall k | 0 <= k < n ensures b'[k] == m[offset + k] {
      if k < done {
        assert b[..done][k] == m[offset..offset + done][k];
      } else {
        assert b'[done..done + |piece|][k - done] == piece[k - done];
      }
    }
    assert b'[..n] == m[offset..offset + n];
    assert b'[len..] == b[len..];
  }

  lemma RangeLimits(blocks: nat, bs: nat, t: Target)
    requires 0 < t.count && t.lba + t.count <= blocks && 0 < bs && blocks * bs < U64_LIMIT && t.count * bs < U32_LIMIT
    ensures t.lba < U64_LIMIT && t.count < U32_LIMIT && t.lba * bs + t.count * bs <= blocks * bs
  {
    MulMono(1, bs, t.count);
    MulMono(1, bs, blocks);
    AimFits(blocks, bs, t);
  }

  lemma AimIs(blocks: nat, bs: nat, c: Cbw, t: Target)
    requires DecodeCdb(c.cdb) == Some(t) && t.lba + t.count <= blocks && c.length == t.count * bs
    requires c.dir == (if t.write then Out else In)
    ensures Aim(blocks, bs, c) == Some(t)
  {
  }

  lemma SettledIs(m0: seq<byte>, m: seq<byte>, blocks: nat, bs: nat, c: Cbw, t: Target, at: nat, data: seq<byte>)
    requires Aim(blocks, bs, c) == Some(t) && t.write && |data| == c.length && at == t.lba * bs
    requires SameBeyond(m0, m, at, at + |data|) && at + |data| <= |m0|
    ensures Settled(m, blocks, bs, c, data) == Splice(m0, at, data)
  {
    hide DecodeCdb, Aim, Splice;
    SpliceOver(m0, m, at, data);
  }

  /** What was there does not matter where it is overwritten. */
  lemma SpliceOver(m0: seq<byte>, m: seq<byte>, at: nat, data: seq<byte>)
    requires SameBeyond(m0, m, at, at + |data|) && at + |data| <= |m0|
    ensures Splice(m, at, data) == Splice(m0, at, data)
  {
    hide Splice;
    var a, b := Splice(m, at, data), Splice(m0, at, data);
    forall k | 0 <= k < |m0| ensures a[k] == b[k] {
      if at <= k < at + |data| {
        assert a[at..at + |data|][k - at] == b[at..at + |data|][k - at];
      }
    }
  }

  /** A command that takes no data from the host changes nothing. */
  lemma ReadsOnly(blocks: nat, bs: nat, c: Cbw, x: seq<byte>, y: seq<byte>)
    requires c.dir == In && SameBeyond(x, y, WriteStart(blocks, bs, c), WriteEnd(blocks, bs, c))
    ensures x == y
  {
  }

  lemma ReadSettles(m: seq<byte>, blocks: nat, bs: nat, c: Cbw, taken: seq<byte>)
    requires c.dir == In
    ensures Settled(m, blocks, bs, c, taken) == m
  {
  }

  /** An acknowledged WRITE changes only the blocks it names. */
  lemma SettledWithin(x: seq<byte>, m: seq<byte>, blocks: nat, bs: nat, c: Cbw, taken: seq<byte>)
    requires SameBeyond(x, m, WriteStart(blocks, bs, c), WriteEnd(blocks, bs, c))
    ensures SameBeyond(x, Settled(m, blocks, bs, c, taken), WriteStart(blocks, bs, c), WriteEnd(blocks, bs, c))
  {
    hide DecodeCdb, Splice;
  }
}
