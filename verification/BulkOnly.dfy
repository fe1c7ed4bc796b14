/** The wire formats under every SCSI command (core/src/usb/bot.rs and the
    command blocks of core/src/usb/scsi.rs): sections 5.1 and 5.2 of the USB
    Mass Storage Class Bulk-Only Transport specification, revision 1.0. */
module BulkOnly {
  import opened Bytes

  const CBW_SIGNATURE: nat := 0x4342_5355
  const CSW_SIGNATURE: nat := 0x5342_5355
  const CBW_LEN: nat := 31
  const CSW_LEN: nat := 13
  const MAX_CDB_LEN: nat := 16

  // ----- big-endian fields -----

  function Be16(v: nat): (s: seq<byte>)
    ensures |s| == 2
  {
    [v / 0x100 % 0x100, v % 0x100]
  }

  function Be32(v: nat): (s: seq<byte>)
    ensures |s| == 4
  {
    Be16(v / U16_LIMIT % U16_LIMIT) + Be16(v % U16_LIMIT)
  }

  function Be64(v: nat): (s: seq<byte>)
    ensures |s| == 8
  {
    Be32(v / U32_LIMIT % U32_LIMIT) + Be32(v % U32_LIMIT)
  }

  function FromBe16(s: seq<byte>): nat
    requires |s| == 2
  {
    0x100 * s[0] as int + s[1] as int
  }

  function FromBe32(s: seq<byte>): nat
    requires |s| == 4
  {
    U16_LIMIT * FromBe16(s[..2]) + FromBe16(s[2..])
  }

  function FromBe64(s: seq<byte>): nat
    requires |s| == 8
  {
    U32_LIMIT * FromBe32(s[..4]) + FromBe32(s[4..])
  }

  lemma Be16Back(v: nat)
    ensures FromBe16(Be16(v)) == v % U16_LIMIT
  {
  }

  lemma Be32Back(v: nat)
    ensures FromBe32(Be32(v)) == v % U32_LIMIT
  {
    assert Be32(v)[..2] == Be16(v / U16_LIMIT % U16_LIMIT) && Be32(v)[2..] == Be16(v % U16_LIMIT);
    Be16Back(v / U16_LIMIT % U16_LIMIT);
    Be16Back(v % U16_LIMIT);
  }

  lemma Be64Back(v: nat)
    ensures FromBe64(Be64(v)) == v % U64_LIMIT
  {
    hide Be32, FromBe32;
    assert Be64(v)[..4] == Be32(v / U32_LIMIT % U32_LIMIT) && Be64(v)[4..] == Be32(v % U32_LIMIT);
    Be32Back(v / U32_LIMIT % U32_LIMIT);
    Be32Back(v % U32_LIMIT);
    SplitModulus(v, U32_LIMIT);
  }

  // ----- READ and WRITE command blocks -----

  const READ10_MAX_BLOCKS: nat := 0xFFFF
  const READ10_MAX_LBA: nat := 0xFFFF_FFFF
  const OP_READ_10: byte := 0x28
  const OP_READ_16: byte := 0x88
  const OP_WRITE_10: byte := 0x2A
  const OP_WRITE_16: byte := 0x8A
  const OP_REQUEST_SENSE: byte := 0x03

  /** The block range a command moves. */
  datatype Target = Target(write: bool, lba: nat, count: nat)

  /** The ten-byte form must fit the whole range, not just its first block. */
  predicate Needs16(lba: nat, count: nat) {
    count > READ10_MAX_BLOCKS || lba + count > READ10_MAX_LBA + 1
  }

  /** The command block for a range. */
  function Cdb(t: Target): (s: seq<byte>)
    ensures |s| == 10 || |s| == 16
  {
    if Needs16(t.lba, t.count)
    then [if t.write then OP_WRITE_16 else OP_READ_16, 0] + Be64(t.lba) + Be32(t.count) + [0, 0]
    else [if t.write then OP_WRITE_10 else OP_READ_10, 0] + Be32(t.lba) + [0] + Be16(t.count) + [0]
  }

  /** What a drive makes of a command block. */
  function DecodeCdb(s: seq<byte>): Option<Target> {
    if |s| == 16 && (s[0] == OP_READ_16 || s[0] == OP_WRITE_16) then
      Some(Target(s[0] == OP_WRITE_16, FromBe64(s[2..10]), FromBe32(s[10..14])))
    else if |s| == 10 && (s[0] == OP_READ_10 || s[0] == OP_WRITE_10) then
      Some(Target(s[0] == OP_WRITE_10, FromBe32(s[2..6]), FromBe16(s[7..9])))
    else None
  }

  /** A drive reads the range that was meant, whichever form was chosen; the
      one exception is an empty range just past the 32-bit addresses. */
  lemma CdbDecodes(t: Target)
    requires t.lba < U64_LIMIT && t.count < U32_LIMIT
    ensures DecodeCdb(Cdb(t)) == Some(t) <==> t.count != 0 || t.lba != U32_LIMIT
  {
    hide Be16, Be32, Be64, FromBe16, FromBe32, FromBe64;
    var s := Cdb(t);
    if Needs16(t.lba, t.count) {
      assert s[2..10] == Be64(t.lba) && s[10..14] == Be32(t.count);
      Be64Back(t.lba);
      Be32Back(t.count);
    } else {
      assert s[2..6] == Be32(t.lba) && s[7..9] == Be16(t.count);
      Be32Back(t.lba);
      Be16Back(t.count);
    }
  }

  // ----- wrappers -----

  datatype Direction = In | Out | NoData

  datatype Cbw = Cbw(tag: nat, length: nat, dir: Direction, cdb: seq<byte>)

  predicate CbwOk(c: Cbw) {
    c.tag < U32_LIMIT && c.length < U32_LIMIT && 0 < |c.cdb| <= MAX_CDB_LEN && (c.dir == NoData <==> c.length == 0)
  }

  function EncodeCbw(c: Cbw): (b: seq<byte>)
    requires |c.cdb| <= MAX_CDB_LEN
    ensures |b| == CBW_LEN
  {
    Le32(CBW_SIGNATURE) + Le32(c.tag) + Le32(c.length) + [if c.dir == In then 0x80 else 0, 0, |c.cdb|]
    + c.cdb + seq(MAX_CDB_LEN - |c.cdb|, _ => 0)
  }

  function DecodeCbw(b: seq<byte>): Option<Cbw> {
    if |b| != CBW_LEN || U32(b, 0) != CBW_SIGNATURE || !(0 < b[14] <= MAX_CDB_LEN) then None
    else
      var n := U32(b, 8);
      Some(Cbw(U32(b, 4), n, if n == 0 then NoData else if b[12] == 0x80 then In else Out, b[15..15 + b[14]]))
  }

  lemma CbwFields(c: Cbw)
    requires |c.cdb| <= MAX_CDB_LEN
    ensures
      var b := EncodeCbw(c);
      && b[0..4] == Le32(CBW_SIGNATURE) && b[4..8] == Le32(c.tag) && b[8..12] == Le32(c.length)
      && b[12] == (if c.dir == In then 0x80 else 0) && b[14] == |c.cdb| && b[15..15 + |c.cdb|] == c.cdb
  {
    hide Le32;
    var x, y, z := Le32(CBW_SIGNATURE), Le32(c.tag), Le32(c.length);
    var f := [if c.dir == In then 0x80 else 0, 0, |c.cdb|];
    var b := x + y + z + f + c.cdb + seq(MAX_CDB_LEN - |c.cdb|, _ => 0);
    assert b[0..4] == x && b[4..8] == y && b[8..12] == z;
    assert b[12] == f[0] && b[14] == f[2];
    assert b[15..15 + |c.cdb|] == c.cdb;
  }

  /** The drive receives the command the host encoded. */
  lemma CbwDecodes(c: Cbw)
    requires CbwOk(c)
    ensures DecodeCbw(EncodeCbw(c)) == Some(c)
  {
    hide EncodeCbw, Le32, U32;
    var b := EncodeCbw(c);
    CbwFields(c);
    Le32RoundTrip(b, 0, CBW_SIGNATURE);
    Le32RoundTrip(b, 4, c.tag);
    Le32RoundTrip(b, 8, c.length);
  }

  datatype Status = Passed | Failed | PhaseError

  datatype Csw = Csw(tag: nat, residue: nat, status: Status)

  function DecodeCsw(b: seq<byte>): Option<Csw> {
    if |b| < CSW_LEN || U32(b, 0) != CSW_SIGNATURE || b[12] > 2 then None
    else Some(Csw(U32(b, 4), U32(b, 8), if b[12] == 0 then Passed else if b[12] == 1 then Failed else PhaseError))
  }

  /** A status wrapper that claims success for the command with this tag. */
  predicate Passes(b: seq<byte>, tag: nat) {
    DecodeCsw(b).Some? && DecodeCsw(b).value.tag == tag && DecodeCsw(b).value.status == Passed
  }
}
