/** The on-disk state of an ext4 filesystem as the writer sees it: block and
    inode bitmaps, group descriptors, inode records and block contents, changed
    by one device write at a time. `CrashSafe` is what must hold of the medium
    after every single write. */
module Ext4Disk {
  import opened Arith
  import opened Bytes
  import opened Extents
  import opened DirChain

  // ----- geometry -----

  datatype Geo = Geo(
    first: nat,      // s_first_data_block
    per: nat,        // s_blocks_per_group
    count: nat,      // s_blocks_count
    groups: nat,
    iper: nat,       // s_inodes_per_group
    icount: nat,     // s_inodes_count
    firstIno: nat,   // s_first_ino
    blockSize: nat,
    usable: nat)     // block size less the directory checksum tail, if any

  predicate GeoOk(geo: Geo) {
    && 0 < geo.per && 0 < geo.iper && 0 < geo.groups && geo.first < geo.count
    && (geo.groups - 1) * geo.per < geo.count - geo.first <= geo.groups * geo.per
    && 1024 <= geo.blockSize && 24 <= geo.usable <= geo.blockSize && geo.usable % 4 == 0
    && geo.usable < U16_LIMIT && 0 < geo.firstIno && geo.icount < U32_LIMIT
  }

  function MaxRuns(geo: Geo): nat
    requires GeoOk(geo)
  {
    (geo.blockSize - 12 - 4) / 12
  }

  /** Block number of a bitmap cell. */
  function At(geo: Geo, g: nat, bit: nat): nat { geo.first + g * geo.per + bit }

  function GroupOf(geo: Geo, b: nat): nat
    requires GeoOk(geo) && geo.first <= b
  {
    (b - geo.first) / geo.per
  }

  function BitOf(geo: Geo, b: nat): nat
    requires GeoOk(geo) && geo.first <= b
  {
    (b - geo.first) % geo.per
  }

  predicate ValidBlock(geo: Geo, b: nat) { geo.first <= b < geo.count }

  /** Blocks the group really contains; the last group is usually short. */
  function BlocksIn(geo: Geo, g: nat): (n: nat)
    requires GeoOk(geo) && g < geo.groups
    ensures n <= geo.per
  {
    GroupStart(geo, g);
    if geo.count - At(geo, g, 0) < geo.per then geo.count - At(geo, g, 0) else geo.per
  }

  lemma GroupStart(geo: Geo, g: nat)
    requires GeoOk(geo) && g < geo.groups
    ensures At(geo, g, 0) < geo.count
  {
    assert g * geo.per <= (geo.groups - 1) * geo.per;
  }

  /** Cells and block numbers are in one-to-one correspondence. */
  lemma CellOfBlock(geo: Geo, g: nat, bit: nat)
    requires GeoOk(geo) && bit < geo.per
    ensures GroupOf(geo, At(geo, g, bit)) == g && BitOf(geo, At(geo, g, bit)) == bit
    ensures g < geo.groups ==> (ValidBlock(geo, At(geo, g, bit)) <==> bit < BlocksIn(geo, g))
  {
    DivModUnique(g, bit, geo.per);
    if g < geo.groups { GroupStart(geo, g); }
  }

  lemma BlockOfCell(geo: Geo, b: nat)
    requires GeoOk(geo) && ValidBlock(geo, b)
    ensures GroupOf(geo, b) < geo.groups && BitOf(geo, b) < BlocksIn(geo, GroupOf(geo, b))
    ensures At(geo, GroupOf(geo, b), BitOf(geo, b)) == b
  {
    var x := b - geo.first;
    var g := x / geo.per;
    assert x == g * geo.per + x % geo.per;
    QuotientBelow(x, geo.groups, geo.per);
    GroupStart(geo, g);
  }

  function InoGroup(geo: Geo, i: nat): nat
    requires GeoOk(geo) && 0 < i
  {
    (i - 1) / geo.iper
  }

  function InoBit(geo: Geo, i: nat): nat
    requires GeoOk(geo) && 0 < i
  {
    (i - 1) % geo.iper
  }

  function InoAt(geo: Geo, g: nat, bit: nat): nat { g * geo.iper + bit + 1 }

  lemma CellOfIno(geo: Geo, g: nat, bit: nat)
    requires GeoOk(geo) && bit < geo.iper
    ensures InoGroup(geo, InoAt(geo, g, bit)) == g && InoBit(geo, InoAt(geo, g, bit)) == bit
  {
    DivModUnique(g, bit, geo.iper);
  }

  lemma InoOfCell(geo: Geo, i: nat)
    requires GeoOk(geo) && 0 < i
    ensures InoBit(geo, i) < geo.iper && InoAt(geo, InoGroup(geo, i), InoBit(geo, i)) == i
  {
    assert i - 1 == (i - 1) / geo.iper * geo.iper + (i - 1) % geo.iper;
  }

  /** `inode_offset` finds a record for this number. */
  predicate InoExists(geo: Geo, i: nat)
    requires GeoOk(geo)
  {
    0 < i <= geo.icount && InoGroup(geo, i) < geo.groups
  }

  // ----- the medium -----

  datatype Kind = File | Dir | Other

  /** How an inode's blocks are recorded: in `i_block` itself, in leaf blocks
      named by `i_block`, by a mapping this writer only reads (indirect blocks,
      deeper trees), whose data and metadata blocks are listed, or not at all
      because the data itself is embedded in `i_block`. */
  datatype Tree =
    | Inline(runs: seq<Run>)
    | Indexed(leaves: seq<nat>)
    | Foreign(data: seq<nat>, meta: seq<nat>)
    | Embedded

  /** An inode record. */
  datatype Record = Blank | Inode(kind: Kind, links: nat, size: nat, htree: bool, tree: Tree)

  /** A hash-indexed or inline directory, which the writer never changes. */
  predicate Sealed(r: Record) { r.Inode? && (r.htree || r.tree.Embedded?) }

  datatype Content = Data(bytes: seq<byte>) | Leaf(runs: seq<Run>) | DirBlock(chain: seq<Rec>)

  datatype GroupDesc = GroupDesc(
    freeBlocks: nat, freeInodes: nat, usedDirs: nat, itableUnused: nat,
    blockUninit: bool, inodeUninit: bool)

  type Bitmaps = seq<seq<bool>>

  datatype Disk = Disk(
    bbm: Bitmaps, ibm: Bitmaps, gd: seq<GroupDesc>, freeBlocks: nat, freeInodes: nat,
    inodes: map<nat, Record>, blocks: map<nat, Content>)

  /** One device write, or a cache flush. */
  datatype Write =
    | WBlockBitmap(g: nat, bm: seq<bool>)
    | WInodeBitmap(g: nat, bm: seq<bool>)
    | WGroupDesc(g: nat, desc: GroupDesc)
    | WSuper(freeBlocks: nat, freeInodes: nat)
    | WInode(ino: nat, rec: Record)
    | WBlock(block: nat, content: Content)
    | WRun(block: nat, chunks: seq<seq<byte>>)
    | Flush

  function PutRun(blocks: map<nat, Content>, b: nat, chunks: seq<seq<byte>>): map<nat, Content> {
    if chunks == [] then blocks
    else PutRun(blocks, b, chunks[..|chunks| - 1])[b + |chunks| - 1 := Data(chunks[|chunks| - 1])]
  }

  function Apply(d: Disk, w: Write): Disk {
    match w
    case WBlockBitmap(g, bm) => if g < |d.bbm| then d.(bbm := d.bbm[g := bm]) else d
    case WInodeBitmap(g, bm) => if g < |d.ibm| then d.(ibm := d.ibm[g := bm]) else d
    case WGroupDesc(g, desc) => if g < |d.gd| then d.(gd := d.gd[g := desc]) else d
    case WSuper(fb, fi) => d.(freeBlocks := fb, freeInodes := fi)
    case WInode(i, rec) => d.(inodes := d.inodes[i := rec])
    case WBlock(b, c) => d.(blocks := d.blocks[b := c])
    case WRun(b, chunks) => d.(blocks := PutRun(d.blocks, b, chunks))
    case Flush => d
  }

  function Replay(d: Disk, log: seq<Write>): Disk {
    if log == [] then d else Apply(Replay(d, log[..|log| - 1]), log[|log| - 1])
  }

  // ----- what the medium says -----

  ghost predicate DiskOk(geo: Geo, d: Disk) {
    && |d.bbm| == |d.ibm| == |d.gd| == geo.groups
    && (forall g :: 0 <= g < geo.groups ==> |d.bbm[g]| == geo.per)
    && (forall g :: 0 <= g < geo.groups ==> |d.ibm[g]| == geo.iper)
  }

  predicate BUsed(geo: Geo, bbm: Bitmaps, b: nat)
    requires GeoOk(geo)
  {
    ValidBlock(geo, b) && GroupOf(geo, b) < |bbm| && BitOf(geo, b) < |bbm[GroupOf(geo, b)]|
    && bbm[GroupOf(geo, b)][BitOf(geo, b)]
  }

  predicate IUsed(geo: Geo, ibm: Bitmaps, i: nat)
    requires GeoOk(geo)
  {
    0 < i && InoGroup(geo, i) < |ibm| && InoBit(geo, i) < |ibm[InoGroup(geo, i)]|
    && ibm[InoGroup(geo, i)][InoBit(geo, i)]
  }

  /** The inode's bit is set and its record is written. */
  predicate InUse(geo: Geo, d: Disk, i: nat)
    requires GeoOk(geo)
  {
    IUsed(geo, d.ibm, i) && i in d.inodes && d.inodes[i].Inode?
  }

  predicate IsDir(geo: Geo, d: Disk, i: nat)
    requires GeoOk(geo)
  {
    InUse(geo, d, i) && d.inodes[i].kind == Dir
  }

  function LeafRuns(blocks: map<nat, Content>, leaves: seq<nat>): seq<Run> {
    if leaves == [] then []
    else
      var l := leaves[|leaves| - 1];
      LeafRuns(blocks, leaves[..|leaves| - 1])
      + (if l in blocks && blocks[l].Leaf? then blocks[l].runs else [])
  }

  /** Data blocks of a record, in file order. */
  function DataOf(blocks: map<nat, Content>, r: Record): seq<nat> {
    if r.Blank? then []
    else match r.tree
      case Inline(runs) => FlatRuns(runs)
      case Indexed(leaves) => FlatRuns(LeafRuns(blocks, leaves))
      case Foreign(data, _) => data
      case Embedded => []
  }

  function MetaOf(r: Record): seq<nat> {
    if r.Blank? then []
    else match r.tree
      case Inline(_) => []
      case Indexed(leaves) => leaves
      case Foreign(_, meta) => meta
      case Embedded => []
  }

  /** Every block a record names. */
  function NamedBy(blocks: map<nat, Content>, r: Record): seq<nat> {
    DataOf(blocks, r) + MetaOf(r)
  }

  function BlockEntries(blocks: map<nat, Content>, b: nat): seq<Entry> {
    if b in blocks && blocks[b].DirBlock? then Live(blocks[b].chain) else []
  }

  function EntriesIn(blocks: map<nat, Content>, bs: seq<nat>): seq<Entry> {
    if bs == [] then [] else EntriesIn(blocks, bs[..|bs| - 1]) + BlockEntries(blocks, bs[|bs| - 1])
  }

  /** The live entries of a directory record, in block order. */
  function EntriesOf(blocks: map<nat, Content>, r: Record): seq<Entry> {
    EntriesIn(blocks, DataOf(blocks, r))
  }

  predicate DirBlockOk(geo: Geo, blocks: map<nat, Content>, b: nat) {
    b in blocks && blocks[b].DirBlock? && ChainOk(blocks[b].chain) && Tiles(blocks[b].chain) == geo.usable
  }

  // ----- what must hold after every device write -----

  /** Every block named by an in-use inode is marked used. */
  ghost predicate Backed(geo: Geo, d: Disk)
    requires GeoOk(geo)
  {
    forall i, b :: InUse(geo, d, i) && b in NamedBy(d.blocks, d.inodes[i]) ==> BUsed(geo, d.bbm, b)
  }

  /** No block is named twice. */
  ghost predicate Unshared(geo: Geo, d: Disk)
    requires GeoOk(geo)
  {
    && (forall i :: InUse(geo, d, i) ==> NoDup(NamedBy(d.blocks, d.inodes[i])))
    && (forall i, j, b ::
          (&& InUse(geo, d, i) && InUse(geo, d, j)
           && b in NamedBy(d.blocks, d.inodes[i]) && b in NamedBy(d.blocks, d.inodes[j]))
          ==> i == j)
  }

  /** Directory blocks are well-formed chains and names are not repeated. */
  ghost predicate DirsOk(geo: Geo, d: Disk)
    requires GeoOk(geo)
  {
    && (forall i, b :: IsDir(geo, d, i) && b in DataOf(d.blocks, d.inodes[i]) ==> DirBlockOk(geo, d.blocks, b))
    && (forall i :: IsDir(geo, d, i) ==> DistinctNames(EntriesOf(d.blocks, d.inodes[i])))
  }

  /** `e` is an entry, other than `.` and `..`, of the live directory `i`. */
  ghost predicate HasEntry(geo: Geo, d: Disk, i: nat, e: Entry)
    requires GeoOk(geo)
  {
    IsDir(geo, d, i) && e in EntriesOf(d.blocks, d.inodes[i]) && Real(e)
  }

  /** Every entry names an in-use inode whose record is written. */
  ghost predicate NamesLive(geo: Geo, d: Disk)
    requires GeoOk(geo)
  {
    forall i, e :: HasEntry(geo, d, i, e) ==> InUse(geo, d, e.ino)
  }

  /** Deleting this inode's name deletes its last one: a directory, or a file
      whose record does not claim further links. */
  predicate Single(d: Disk, i: nat) {
    i in d.inodes && d.inodes[i].Inode? && (d.inodes[i].kind == Dir || d.inodes[i].links <= 1)
  }

  ghost predicate NamesUnique(geo: Geo, d: Disk)
    requires GeoOk(geo)
  {
    forall i, j, e, f ::
      (HasEntry(geo, d, i, e) && HasEntry(geo, d, j, f) && e.ino == f.ino && Single(d, e.ino))
      ==> i == j && e.name == f.name
  }

  ghost predicate CrashSafe(geo: Geo, d: Disk)
    requires GeoOk(geo)
  {
    DiskOk(geo, d) && Backed(geo, d) && Unshared(geo, d) && DirsOk(geo, d) && NamesLive(geo, d) && NamesUnique(geo, d)
  }

  /** Every prefix of the writes issued so far leaves a safe medium. */
  ghost predicate SafeHistory(geo: Geo, base: Disk, log: seq<Write>)
    requires GeoOk(geo)
  {
    forall k :: 0 <= k <= |log| ==> CrashSafe(geo, Replay(base, log[..k]))
  }

  lemma FlushSame(base: Disk, log: seq<Write>)
    ensures Replay(base, log + [Flush]) == Replay(base, log)
  {
    assert (log + [Flush])[..|log|] == log;
  }

  lemma HistoryExtends(geo: Geo, base: Disk, log: seq<Write>, w: Write)
    requires GeoOk(geo) && SafeHistory(geo, base, log)
    requires CrashSafe(geo, Apply(Replay(base, log), w))
    ensures SafeHistory(geo, base, log + [w]) && Replay(base, log + [w]) == Apply(Replay(base, log), w)
  {
    hide CrashSafe;
    var log' := log + [w];
    assert log'[..|log|] == log;
    assert log'[..|log'|] == log';
    forall k | 0 <= k <= |log'| ensures CrashSafe(geo, Replay(base, log'[..k])) {
      if k <= |log| {
        assert log'[..k] == log[..k];
      } else {
        assert log'[..k] == log';
      }
    }
  }
}
