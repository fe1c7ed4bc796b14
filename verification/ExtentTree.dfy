/** Extent trees as bytes (core/src/fs/ext4/file.rs, `write_extent_tree`,
    `write_extent_leaf_block`, `collect_extents`; core/src/fs/ext4/mod.rs,
    `map_run_extents`): what the writer writes is read back exactly, and a run
    reported for any well-formed tree is one block-at-a-time lookup agrees with. */
module ExtentTree {
  import opened Bytes
  import opened Extents
  import opened Ext4Read

  const EXTENT_MAGIC := 0xF30A

  // ----- trees -----

  datatype Ext = Ext(block: nat, len: nat, start: nat, init: bool)

  datatype Node =
    | LeafNode(es: seq<Ext>)
    | IndexNode(keys: seq<nat>, ptrs: seq<nat>, kids: seq<Node>)

  function Depth(n: Node): nat {
    if n.LeafNode? then 0 else if n.kids == [] then 1 else 1 + Depth(n.kids[0])
  }

  /** The extents of a tree, left to right. */
  function Exts(n: Node): seq<Ext>
    decreases n, 1
  {
    if n.LeafNode? then n.es else KidExts(n, |n.kids|)
  }

  function KidExts(n: Node, k: nat): seq<Ext>
    requires n.IndexNode? && k <= |n.kids|
    decreases n, 0, k
  {
    if k == 0 then [] else KidExts(n, k - 1) + Exts(n.kids[k - 1])
  }

  predicate Covers(e: Ext, l: nat) { e.block <= l < e.block + e.len }

  /** The block-at-a-time lookup: the block behind logical block `l`. */
  function Look(es: seq<Ext>, l: nat): Option<nat> {
    if es == [] then None
    else if Covers(es[0], l) then (if es[0].init then Some(es[0].start + (l - es[0].block)) else None)
    else Look(es[1..], l)
  }

  /** Sorted and disjoint, inside `[lo, hi)`. */
  ghost predicate Ordered(es: seq<Ext>, lo: nat, hi: nat) {
    && (forall i :: 0 <= i < |es| ==> lo <= es[i].block && es[i].block + es[i].len <= hi)
    && (forall i, j :: 0 <= i < j < |es| ==> es[i].block + es[i].len <= es[j].block)
  }

  /** Where the part of the tree under entry `i` ends. */
  function Upper(keys: seq<nat>, i: nat, hi: nat): nat
    requires i < |keys|
  {
    if i + 1 < |keys| then keys[i + 1] else hi
  }

  /** Every subtree lies between its own key and the next one. */
  ghost predicate WellFormed(n: Node, lo: nat, hi: nat) {
    match n
    case LeafNode(es) => Ordered(es, lo, hi)
    case IndexNode(keys, ptrs, kids) =>
      && |keys| == |ptrs| == |kids|
      && lo <= hi && Keyed(keys, lo, hi)
      && (forall i :: 0 <= i < |kids| ==> WellFormed(kids[i], keys[i], Upper(keys, i, hi)))
  }

  // ----- mapping a run -----

  /** The walk over one leaf. */
  function MapLeaf(es: seq<Ext>, l: nat): Mapped {
    if es == [] then Mapped(None, 1)
    else
      var e := es[0];
      if e.len == 0 then MapLeaf(es[1..], l)
      else if Covers(e, l) then
        Mapped(if e.init then Some(e.start + (l - e.block)) else None, e.len - (l - e.block))
      else if e.block > l then Mapped(None, e.block - l)
      else MapLeaf(es[1..], l)
  }

  /** The number of leading keys at or below `l`. */
  function Below(keys: seq<nat>, l: nat): (k: nat)
    ensures k <= |keys|
    ensures forall i :: 0 <= i < k ==> keys[i] <= l
    ensures k < |keys| ==> keys[k] > l
  {
    if keys == [] || keys[0] > l then 0 else 1 + Below(keys[1..], l)
  }

  function MapRun(n: Node, l: nat): Mapped {
    match n
    case LeafNode(es) => MapLeaf(es, l)
    case IndexNode(keys, _, kids) =>
      var k := Below(keys, l);
      if k == 0 || k > |kids| then Refused else MapRun(kids[k - 1], l)
  }

  lemma {:induction false} LookNone(es: seq<Ext>, l: nat)
    requires forall i :: 0 <= i < |es| ==> !Covers(es[i], l)
    ensures Look(es, l) == None
  {
    if es != [] { LookNone(es[1..], l); }
  }

  lemma {:induction false} LookAt(es: seq<Ext>, i: nat, l: nat)
    requires i < |es| && Covers(es[i], l) && forall j :: 0 <= j < i ==> !Covers(es[j], l)
    ensures Look(es, l) == if es[i].init then Some(es[i].start + (l - es[i].block)) else None
  {
    if i > 0 { LookAt(es[1..], i - 1, l); }
  }

  lemma {:induction false} LookConcat(a: seq<Ext>, b: seq<Ext>, l: nat)
    ensures (forall i :: 0 <= i < |a| ==> !Covers(a[i], l)) ==> Look(a + b, l) == Look(b, l)
    ensures (forall i :: 0 <= i < |b| ==> !Covers(b[i], l)) ==> Look(a + b, l) == Look(a, l)
  {
    if a == [] {
      assert a + b == b;
      if forall i :: 0 <= i < |b| ==> !Covers(b[i], l) { LookNone(b, l); }
    } else {
      assert (a + b)[1..] == a[1..] + b;
      LookConcat(a[1..], b, l);
    }
  }

  /** The run `x` reported at `l` is what looking up each block gives. */
  ghost predicate Agrees(x: Mapped, es: seq<Ext>, l: nat) {
    && x.Mapped? && 0 < x.run
    && forall k :: l <= k < l + x.run ==> Look(es, k) == if x.phys.Some? then Some(x.phys.value + (k - l)) else None
  }

  /** A run reported by a leaf is agreed block by block, inside the leaf. */
  lemma {:induction false} MapLeafAgrees(es: seq<Ext>, l: nat, lo: nat, hi: nat)
    requires Ordered(es, lo, hi) && l < hi
    ensures Agrees(MapLeaf(es, l), es, l) && l + MapLeaf(es, l).run <= hi
  {
    if es == [] {
    } else if es[0].len == 0 || (!Covers(es[0], l) && es[0].block <= l) {
      MapLeafAgrees(es[1..], l, lo, hi);
      assert forall k :: l <= k ==> Look(es, k) == Look(es[1..], k);
    } else if !Covers(es[0], l) {
      forall k | l <= k < es[0].block ensures Look(es, k) == None {
        LookNone(es, k);
      }
    }
  }

  lemma {:induction false} KidsOrdered(n: Node, lo: nat, hi: nat, k: nat)
    requires n.IndexNode? && Keyed(n.keys, lo, hi) && |n.keys| == |n.kids| && lo <= hi && k <= |n.kids|
    requires forall i :: 0 <= i < k ==> Ordered(Exts(n.kids[i]), n.keys[i], Upper(n.keys, i, hi))
    ensures Ordered(KidExts(n, k), lo, if k < |n.kids| then n.keys[k] else hi)
    decreases k
  {
    hide Ordered, Exts, Upper;
    if k > 0 {
      UpperIs(n.keys, k - 1, hi);
      KidsOrdered(n, lo, hi, k - 1);
      JoinOrdered(KidExts(n, k - 1), Exts(n.kids[k - 1]), lo, n.keys[k - 1], Upper(n.keys, k - 1, hi));
    } else {
      NoneOrdered(lo, if k < |n.kids| then n.keys[k] else hi);
    }
  }

  ghost predicate Keyed(keys: seq<nat>, lo: nat, hi: nat) {
    && (forall i :: 0 <= i < |keys| ==> lo <= keys[i] < hi)
    && (forall i, j :: 0 <= i < j < |keys| ==> keys[i] < keys[j])
  }

  lemma NoneOrdered(lo: nat, hi: nat)
    ensures Ordered([], lo, hi)
  {
  }

  lemma JoinOrdered(a: seq<Ext>, b: seq<Ext>, lo: nat, mid: nat, hi: nat)
    requires Ordered(a, lo, mid) && Ordered(b, mid, hi) && lo <= mid <= hi
    ensures Ordered(a + b, lo, hi)
  {
  }

  /** A well-formed tree flattens to a sorted, disjoint list. */
  lemma {:induction false} TreeOrdered(n: Node, lo: nat, hi: nat)
    requires WellFormed(n, lo, hi)
    ensures Ordered(Exts(n), lo, hi)
    decreases n
  {
    hide Ordered, Keyed;
    if n.IndexNode? {
      KidsInOrder(n, lo, hi);
      KidsOrdered(n, lo, hi, |n.kids|);
    } else {
      assert Exts(n) == n.es;
    }
  }

  lemma {:induction false} KidsInOrder(n: Node, lo: nat, hi: nat)
    requires n.IndexNode? && WellFormed(n, lo, hi)
    ensures forall i :: 0 <= i < |n.kids| ==> Ordered(Exts(n.kids[i]), n.keys[i], Upper(n.keys, i, hi))
    decreases n, 0
  {
    hide Ordered, Keyed, Exts;
    forall i | 0 <= i < |n.kids| ensures Ordered(Exts(n.kids[i]), n.keys[i], Upper(n.keys, i, hi)) {
      TreeOrdered(n.kids[i], n.keys[i], Upper(n.keys, i, hi));
    }
  }

  /** An ordered list covers nothing outside its bounds. */
  lemma OutOfBounds(es: seq<Ext>, lo: nat, hi: nat, l: nat)
    requires Ordered(es, lo, hi) && !(lo <= l < hi)
    ensures forall i :: 0 <= i < |es| ==> !Covers(es[i], l)
  {
  }

  lemma UpperIs(keys: seq<nat>, i: nat, hi: nat)
    requires i < |keys|
    ensures Upper(keys, i, hi) == if i + 1 < |keys| then keys[i + 1] else hi
  {
  }

  lemma KidExtsStep(n: Node, k: nat)
    requires n.IndexNode? && 0 < k <= |n.kids|
    ensures KidExts(n, k) == KidExts(n, k - 1) + Exts(n.kids[k - 1])
  {
  }

  /** Between its own key and the next, a tree is its one subtree. */
  lemma {:induction false} LookInKid(n: Node, lo: nat, hi: nat, k: nat, i: nat, l: nat)
    requires n.IndexNode? && Keyed(n.keys, lo, hi) && |n.keys| == |n.kids| && lo <= hi
    requires forall j :: 0 <= j < |n.kids| ==> Ordered(Exts(n.kids[j]), n.keys[j], Upper(n.keys, j, hi))
    requires i < k <= |n.kids| && n.keys[i] <= l < Upper(n.keys, i, hi)
    ensures Look(KidExts(n, k), l) == Look(Exts(n.kids[i]), l)
    decreases k
  {
    hide Ordered, Exts, Look, Covers, KidExts, Upper;
    UpperIs(n.keys, i, hi);
    UpperIs(n.keys, k - 1, hi);
    var a, b := KidExts(n, k - 1), Exts(n.kids[k - 1]);
    KidExtsStep(n, k);
    LookConcat(a, b, l);
    if i < k - 1 {
      assert n.keys[k - 1] >= n.keys[i + 1];
      OutOfBounds(b, n.keys[k - 1], Upper(n.keys, k - 1, hi), l);
      LookInKid(n, lo, hi, k - 1, i, l);
    } else {
      KidsOrdered(n, lo, hi, k - 1);
      OutOfBounds(a, lo, n.keys[k - 1], l);
    }
  }

  /** For every well-formed tree, a reported run of `n` blocks means that the
      next `n` logical blocks map consecutively, or are all holes. */
  lemma {:induction false} MapRunAgrees(n: Node, lo: nat, hi: nat, l: nat)
    requires WellFormed(n, lo, hi) && l < hi && MapRun(n, l).Mapped?
    ensures Agrees(MapRun(n, l), Exts(n), l) && l + MapRun(n, l).run <= hi
    decreases n
  {
    hide Ordered, Look, MapLeaf;
    match n
    case LeafNode(es) =>
      MapLeafAgrees(es, l, lo, hi);
    case IndexNode(keys, ptrs, kids) =>
      var k := Below(keys, l);
      var up := Upper(keys, k - 1, hi);
      MapRunAgrees(kids[k - 1], keys[k - 1], up, l);
      KidsInOrder(n, lo, hi);
      AgreesInKid(n, lo, hi, k - 1, l, MapRun(kids[k - 1], l));
  }

  lemma AgreesInKid(n: Node, lo: nat, hi: nat, i: nat, l: nat, x: Mapped)
    requires n.IndexNode? && Keyed(n.keys, lo, hi) && |n.keys| == |n.kids| && lo <= hi && i < |n.kids|
    requires forall j :: 0 <= j < |n.kids| ==> Ordered(Exts(n.kids[j]), n.keys[j], Upper(n.keys, j, hi))
    requires n.keys[i] <= l && Agrees(x, Exts(n.kids[i]), l) && l + x.run <= Upper(n.keys, i, hi)
    ensures Agrees(x, Exts(n), l)
  {
    hide Ordered, Look, Keyed, KidExts, Upper;
    assert Exts(n) == KidExts(n, |n.kids|);
    forall j | l <= j < l + x.run ensures Look(Exts(n), j) == Look(Exts(n.kids[i]), j) {
      LookInKid(n, lo, hi, |n.kids|, i, j);
    }
  }

  /** The run-wise mapping of a tree with logical blocks below `hi`. */
  function Mapper(n: Node, hi: nat): nat -> Mapped {
    (l: nat) => if l < hi then MapRun(n, l) else Refused
  }

  function Looker(n: Node): nat -> Option<nat> {
    (l: nat) => Look(Exts(n), l)
  }

  /** `ReadData` may therefore read any well-formed tree run by run. */
  lemma TreeRunsAgree(n: Node, lo: nat, hi: nat)
    requires WellFormed(n, lo, hi)
    ensures RunsAgree(Mapper(n, hi), Looker(n))
  {
    hide WellFormed, MapRun, Exts, Look;
    forall l: nat | l < hi && MapRun(n, l).Mapped? ensures RunAgrees(MapRun(n, l), Looker(n), l) {
      MapRunAgrees(n, lo, hi, l);
    }
  }

  /** Entry `i` is the last one that starts at or before `l`. */
  predicate Leads(keys: seq<nat>, i: nat, l: nat) {
    i < |keys| && keys[i] <= l && (i + 1 < |keys| ==> l < keys[i + 1])
  }

  /** `m` lies on the way from the root `n` down to logical block `l`. */
  ghost predicate OnPath(n: Node, l: nat, m: Node)
    decreases n
  {
    m == n || (n.IndexNode? && exists i :: 0 <= i < |n.kids| && Leads(n.keys, i, l) && OnPath(n.kids[i], l, m))
  }

  /** An index node with nothing at or before `l`. */
  ghost predicate StartsAfter(m: Node, l: nat) {
    m.IndexNode? && forall j :: 0 <= j < |m.keys| ==> l < m.keys[j]
  }

  /** A lookup is refused exactly when it meets an index node that starts after
      the block looked for. */
  lemma {:induction false} MapRunRefuses(n: Node, lo: nat, hi: nat, l: nat)
    requires WellFormed(n, lo, hi)
    ensures MapRun(n, l).Refused? <==> exists m :: OnPath(n, l, m) && StartsAfter(m, l)
    decreases n
  {
    match n
    case LeafNode(es) =>
      LeafMapped(es, l);
    case IndexNode(keys, ptrs, kids) =>
      var k := Below(keys, l);
      if k == 0 {
        FirstAbove(keys, lo, hi, l);
        assert OnPath(n, l, n) && StartsAfter(n, l);
      } else {
        assert Leads(keys, k - 1, l);
        MapRunRefuses(kids[k - 1], keys[k - 1], Upper(keys, k - 1, hi), l);
        forall m | StartsAfter(m, l) ensures OnPath(n, l, m) <==> OnPath(kids[k - 1], l, m) {
          OneWay(n, lo, hi, l, m, k - 1);
        }
      }
  }

  lemma FirstAbove(keys: seq<nat>, lo: nat, hi: nat, l: nat)
    requires Keyed(keys, lo, hi) && Below(keys, l) == 0
    ensures forall j :: 0 <= j < |keys| ==> l < keys[j]
  {
  }

  /** Past a node that has a key at or before `l` there is one way on. */
  lemma OneWay(n: Node, lo: nat, hi: nat, l: nat, m: Node, i: nat)
    requires n.IndexNode? && Keyed(n.keys, lo, hi) && i < |n.kids| && Leads(n.keys, i, l) && StartsAfter(m, l)
    ensures OnPath(n, l, m) <==> OnPath(n.kids[i], l, m)
  {
    assert m != n;
    if OnPath(n, l, m) {
      var j :| 0 <= j < |n.kids| && Leads(n.keys, j, l) && OnPath(n.kids[j], l, m);
      hide OnPath;
      LeadsOnce(n.keys, lo, hi, i, j, l);
    }
  }

  lemma LeadsOnce(keys: seq<nat>, lo: nat, hi: nat, i: nat, j: nat, l: nat)
    requires Keyed(keys, lo, hi) && Leads(keys, i, l) && Leads(keys, j, l)
    ensures i == j
  {
  }

  /** Every index node starts where the part of the file it stands for does. */
  ghost predicate Seamless(n: Node, lo: nat) {
    n.IndexNode? ==>
      && n.keys != [] && n.keys[0] == lo
      && forall i :: 0 <= i < |n.keys| && i < |n.kids| ==> Seamless(n.kids[i], n.keys[i])
  }

  ghost predicate MapsAll(n: Node, lo: nat, hi: nat) {
    forall l :: lo <= l < hi ==> MapRun(n, l).Mapped?
  }

  /** The trees that refuse no block of the file are exactly these. */
  lemma {:induction false} MapRunTotal(n: Node, lo: nat, hi: nat)
    requires WellFormed(n, lo, hi) && lo < hi
    ensures Seamless(n, lo) <==> MapsAll(n, lo, hi)
    decreases n
  {
    hide MapsAll;
    match n
    case LeafNode(es) =>
      LeafTotal(n, lo, hi);
    case IndexNode(keys, ptrs, kids) =>
      forall i | 0 <= i < |kids| ensures Seamless(kids[i], keys[i]) <==> MapsAll(kids[i], keys[i], Upper(keys, i, hi)) {
        MapRunTotal(kids[i], keys[i], Upper(keys, i, hi));
      }
      NodeTotal(n, lo, hi);
  }

  lemma LeafTotal(n: Node, lo: nat, hi: nat)
    requires n.LeafNode?
    ensures MapsAll(n, lo, hi)
  {
    forall l | lo <= l < hi ensures MapRun(n, l).Mapped? { LeafMapped(n.es, l); }
  }

  /** An index node maps all exactly if it starts at the beginning and each of
      its subtrees maps its own part. */
  lemma NodeTotal(n: Node, lo: nat, hi: nat)
    requires WellFormed(n, lo, hi) && lo < hi && n.IndexNode?
    ensures MapsAll(n, lo, hi) <==>
      && n.keys != [] && n.keys[0] == lo
      && forall i :: 0 <= i < |n.kids| ==> MapsAll(n.kids[i], n.keys[i], Upper(n.keys, i, hi))
  {
    hide WellFormed, MapRun;
    Shape(n, lo, hi);
    if n.keys == [] || n.keys[0] != lo {
      EarlyRefused(n, lo, hi);
    } else {
      hide MapsAll;
      if MapsAll(n, lo, hi) {
        forall i | 0 <= i < |n.kids|
          ensures MapsAll(n.kids[i], n.keys[i], Upper(n.keys, i, hi))
        {
          KidTotal(n, lo, hi, i);
        }
      }
      if forall i :: 0 <= i < |n.kids| ==> MapsAll(n.kids[i], n.keys[i], Upper(n.keys, i, hi)) { KidsTotal(n, lo, hi); }
    }
  }

  lemma KidTotal(n: Node, lo: nat, hi: nat, i: nat)
    requires n.IndexNode? && Keyed(n.keys, lo, hi) && |n.keys| == |n.kids| && i < |n.kids| && MapsAll(n, lo, hi)
    ensures MapsAll(n.kids[i], n.keys[i], Upper(n.keys, i, hi))
  {
    hide MapRun;
    forall l | n.keys[i] <= l < Upper(n.keys, i, hi) ensures MapRun(n.kids[i], l).Mapped? {
      IntoKid(n, lo, hi, i, l);
    }
  }

  lemma KidsTotal(n: Node, lo: nat, hi: nat)
    requires n.IndexNode? && Keyed(n.keys, lo, hi) && |n.keys| == |n.kids| && n.keys != [] && n.keys[0] == lo
    requires forall i :: 0 <= i < |n.kids| ==> MapsAll(n.kids[i], n.keys[i], Upper(n.keys, i, hi))
    ensures MapsAll(n, lo, hi)
  {
    hide MapRun;
    forall l | lo <= l < hi ensures MapRun(n, l).Mapped? {
      var k := Below(n.keys, l);
      assert MapsAll(n.kids[k - 1], n.keys[k - 1], Upper(n.keys, k - 1, hi));
      IntoKid(n, lo, hi, k - 1, l);
    }
  }

  lemma Shape(n: Node, lo: nat, hi: nat)
    requires WellFormed(n, lo, hi) && n.IndexNode?
    ensures |n.keys| == |n.ptrs| == |n.kids| && Keyed(n.keys, lo, hi)
  {
  }

  lemma EarlyRefused(n: Node, lo: nat, hi: nat)
    requires n.IndexNode? && Keyed(n.keys, lo, hi) && lo < hi && (n.keys == [] || n.keys[0] != lo)
    ensures !MapsAll(n, lo, hi)
  {
    assert Below(n.keys, lo) == 0;
    assert MapRun(n, lo).Refused?;
  }

  lemma IntoKid(n: Node, lo: nat, hi: nat, i: nat, l: nat)
    requires n.IndexNode? && Keyed(n.keys, lo, hi) && |n.keys| == |n.kids| && i < |n.kids|
    requires n.keys[i] <= l < Upper(n.keys, i, hi)
    ensures MapRun(n, l) == MapRun(n.kids[i], l)
  {
    assert Below(n.keys, l) == i + 1;
  }

  lemma {:induction false} LeafMapped(es: seq<Ext>, l: nat)
    ensures MapLeaf(es, l).Mapped?
  {
    if es != [] { LeafMapped(es[1..], l); }
  }

  // ----- bytes -----

  /** What reading a block gives, if it lies on the device. */
  type Blocks = nat -> Option<seq<byte>>

  function DecExt(b: seq<byte>, o: nat): Ext
    requires o + 12 <= |b|
  {
    var raw := U16(b, o + 4);
    Ext(U32(b, o), if raw > MAX_EXTENT_LEN then raw - MAX_EXTENT_LEN else raw,
        U32(b, o + 8) + U32_LIMIT * U16(b, o + 6), raw <= MAX_EXTENT_LEN)
  }

  function DecKey(b: seq<byte>, o: nat): nat
    requires o + 12 <= |b|
  {
    U32(b, o)
  }

  function DecPtr(b: seq<byte>, o: nat): nat
    requires o + 12 <= |b|
  {
    U32(b, o + 4) + U32_LIMIT * U16(b, o + 8)
  }

  /** A node with the right magic whose entries fit in it. */
  predicate NodeOk(b: seq<byte>) {
    |b| >= 12 && U16(b, 0) == EXTENT_MAGIC && 12 + 12 * U16(b, 2) <= |b|
  }

  function Count(b: seq<byte>): nat
    requires NodeOk(b)
  {
    U16(b, 2)
  }

  function Level(b: seq<byte>): nat
    requires NodeOk(b)
  {
    U16(b, 6)
  }

  function ExtsAt(b: seq<byte>): (es: seq<Ext>)
    requires NodeOk(b)
    ensures |es| == Count(b)
  {
    seq(Count(b), i requires 0 <= i < Count(b) => DecExt(b, 12 + 12 * i))
  }

  function KeysAt(b: seq<byte>): (ks: seq<nat>)
    requires NodeOk(b)
    ensures |ks| == Count(b)
  {
    seq(Count(b), i requires 0 <= i < Count(b) => DecKey(b, 12 + 12 * i))
  }

  function PtrsAt(b: seq<byte>): (ps: seq<nat>)
    requires NodeOk(b)
    ensures |ps| == Count(b)
  {
    seq(Count(b), i requires 0 <= i < Count(b) => DecPtr(b, 12 + 12 * i))
  }

  /** The bytes `b` and the blocks they lead to are the tree `n`. */
  ghost predicate Represents(b: seq<byte>, disk: Blocks, n: Node)
    decreases n
  {
    && NodeOk(b)
    && match n
       case LeafNode(es) => Level(b) == 0 && ExtsAt(b) == es
       case IndexNode(keys, ptrs, kids) =>
         && Level(b) > 0 && KeysAt(b) == keys && PtrsAt(b) == ptrs && |kids| == |ptrs|
         && forall i :: 0 <= i < |kids| ==> disk(ptrs[i]).Some? && Represents(disk(ptrs[i]).value, disk, kids[i])
  }

  /** The walk over one leaf node. */
  method ScanLeaf(b: seq<byte>, l: nat) returns (r: Mapped)
    requires NodeOk(b)
    ensures r == MapLeaf(ExtsAt(b), l)
  {
    hide NodeOk, DecExt;
    ghost var es := ExtsAt(b);
    assert es[0..] == es;
    for i := 0 to Count(b)
      invariant MapLeaf(es, l) == MapLeaf(es[i..], l)
    {
      var e := EntryExt(b, i);
      assert es[i..][1..] == es[i + 1..] && es[i..][0] == e;
      if e.len == 0 {
        continue;
      }
      if Covers(e, l) {
        return Mapped(if e.init then Some(e.start + (l - e.block)) else None, e.len - (l - e.block));
      }
      if e.block > l {
        return Mapped(None, e.block - l);
      }
    }
    return Mapped(None, 1);
  }

  function EntryExt(b: seq<byte>, i: nat): (e: Ext)
    requires NodeOk(b) && i < Count(b)
    ensures e == ExtsAt(b)[i]
  {
    DecExt(b, 12 + 12 * i)
  }

  function EntryKey(b: seq<byte>, i: nat): (k: nat)
    requires NodeOk(b) && i < Count(b)
    ensures k == KeysAt(b)[i]
  {
    DecKey(b, 12 + 12 * i)
  }

  function EntryPtr(b: seq<byte>, i: nat): (p: nat)
    requires NodeOk(b) && i < Count(b)
    ensures p == PtrsAt(b)[i]
  {
    DecPtr(b, 12 + 12 * i)
  }

  /** The last index entry at or below `l`. */
  method ScanIndex(b: seq<byte>, l: nat) returns (next: Option<nat>)
    requires NodeOk(b)
    ensures next == if Below(KeysAt(b), l) == 0 then None else Some(PtrsAt(b)[Below(KeysAt(b), l) - 1])
  {
    hide NodeOk, DecKey, DecPtr;
    ghost var ks, ps := KeysAt(b), PtrsAt(b);
    next := None;
    for i := 0 to Count(b)
      invariant i <= Below(ks, l) && next == if i == 0 then None else Some(ps[i - 1])
    {
      if EntryKey(b, i) > l {
        return;
      }
      BelowMore(ks, l, i);
      next := Some(EntryPtr(b, i));
    }
  }

  lemma BelowMore(keys: seq<nat>, l: nat, i: nat)
    requires i <= Below(keys, l) && i < |keys| && keys[i] <= l
    ensures i + 1 <= Below(keys, l)
  {
  }

  /** `map_run_extents` on the bytes of a tree. */
  method MapRunExtents(root: seq<byte>, disk: Blocks, l: nat, ghost tree: Node) returns (r: Mapped)
    requires Represents(root, disk, tree)
    ensures r == MapRun(tree, l)
  {
    hide ExtsAt, KeysAt, PtrsAt, NodeOk, MapLeaf;
    var node := root;
    ghost var n := tree;
    while true
      invariant Represents(node, disk, n) && MapRun(tree, l) == MapRun(n, l)
      decreases n
    {
      if Level(node) == 0 {
        r := ScanLeaf(node, l);
        return;
      }
      var next := ScanIndex(node, l);
      if next.None? {
        return Refused;
      }
      ghost var k := Below(n.keys, l) - 1;
      n := n.kids[k];
      node := disk(next.value).value;
    }
  }

  // ----- collecting -----

  /** What `collect_extents` accepts: a leaf, or one level of leaves. */
  ghost predicate Shallow(b: seq<byte>, disk: Blocks)
    requires NodeOk(b)
  {
    Level(b) == 0
    || (Level(b) == 1 && forall i :: 0 <= i < Count(b) ==> LeafBlock(disk, PtrsAt(b)[i]))
  }

  predicate LeafBlock(disk: Blocks, p: nat) {
    disk(p).Some? && NodeOk(disk(p).value) && Level(disk(p).value) == 0
  }

  /** The tree those bytes hold. */
  ghost function TreeOf(b: seq<byte>, disk: Blocks): Node
    requires NodeOk(b) && Shallow(b, disk)
  {
    if Level(b) == 0 then LeafNode(ExtsAt(b))
    else IndexNode(KeysAt(b), PtrsAt(b), LeavesOf(PtrsAt(b), disk))
  }

  ghost function LeavesOf(ps: seq<nat>, disk: Blocks): (r: seq<Node>)
    requires forall i :: 0 <= i < |ps| ==> LeafBlock(disk, ps[i])
    ensures |r| == |ps|
  {
    seq(|ps|, i requires 0 <= i < |ps| => assert LeafBlock(disk, ps[i]); LeafNode(ExtsAt(disk(ps[i]).value)))
  }

  /** The extents of a list of entries, empty ones skipped. */
  function DataOfExts(es: seq<Ext>): seq<Extent> {
    if es == [] then []
    else
      var e := es[|es| - 1];
      DataOfExts(es[..|es| - 1]) + (if e.len == 0 then [] else [Extent(e.start, e.len)])
  }

  function PtrExtents(ps: seq<nat>): seq<Extent> {
    if ps == [] then [] else PtrExtents(ps[..|ps| - 1]) + [Extent(ps[|ps| - 1], 1)]
  }

  lemma {:induction false} DataOfConcat(a: seq<Ext>, b: seq<Ext>)
    ensures DataOfExts(a + b) == DataOfExts(a) + DataOfExts(b)
  {
    if b == [] {
      assert a + b == a;
    } else {
      assert (a + b)[..|a + b| - 1] == a + b[..|b| - 1];
      DataOfConcat(a, b[..|b| - 1]);
    }
  }

  method CollectLeaf(b: seq<byte>, before: seq<Extent>) returns (out: seq<Extent>)
    requires NodeOk(b)
    ensures out == before + DataOfExts(ExtsAt(b))
  {
    hide NodeOk, DecExt;
    ghost var es := ExtsAt(b);
    out := before;
    for i := 0 to Count(b)
      invariant out == before + DataOfExts(es[..i])
    {
      var e := EntryExt(b, i);
      assert es[..i + 1][..i] == es[..i] && es[..i + 1][i] == e;
      if e.len == 0 {
        continue;
      }
      out := out + [Extent(e.start, e.len)];
    }
    assert es[..|es|] == es;
  }

  /** `collect_extents`: the data extents and the index blocks, refused for
      anything but a leaf or one level of leaves. */
  method Collect(root: seq<byte>, disk: Blocks) returns (r: Option<(seq<Extent>, seq<Extent>)>)
    ensures r.Some? <==> NodeOk(root) && Shallow(root, disk)
    ensures r.Some? ==>
      var n := TreeOf(root, disk);
      r.value == (DataOfExts(Exts(n)), if n.LeafNode? then [] else PtrExtents(n.ptrs))
  {
    hide ExtsAt, KeysAt, PtrsAt, DecPtr, DecExt;
    if |root| < 12 || U16(root, 0) != EXTENT_MAGIC || 12 + 12 * U16(root, 2) > |root| {
      return None;
    }
    if Level(root) == 0 {
      var out := CollectLeaf(root, []);
      NoneBefore(DataOfExts(ExtsAt(root)));
      return Some((out, []));
    }
    if Level(root) != 1 {
      return None;
    }
    r := CollectLevel(root, disk);
  }

  lemma NoneBefore(s: seq<Extent>)
    ensures [] + s == s
  {
  }

  method CollectLevel(root: seq<byte>, disk: Blocks) returns (r: Option<(seq<Extent>, seq<Extent>)>)
    requires NodeOk(root) && Level(root) == 1
    ensures r.Some? <==> Shallow(root, disk)
    ensures r.Some? ==> r.value == (DataOfExts(Exts(TreeOf(root, disk))), PtrExtents(PtrsAt(root)))
  {
    hide ExtsAt, KeysAt, PtrsAt, NodeOk, DecPtr, LeavesOf;
    ghost var ps := PtrsAt(root);
    var data, index := [], [];
    for i := 0 to Count(root)
      invariant forall j :: 0 <= j < i ==> LeafBlock(disk, ps[j])
      invariant data == DataOfExts(LeafExts(ps, disk, i)) && index == PtrExtents(ps[..i])
    {
      var p := EntryPtr(root, i);
      index := index + [Extent(p, 1)];
      if !LeafBlock(disk, p) {
        return None;
      }
      data := CollectLeaf(disk(p).value, data);
      assert ps[..i + 1][..i] == ps[..i];
      DataOfConcat(LeafExts(ps, disk, i), ExtsAt(disk(p).value));
    }
    assert ps[..|ps|] == ps;
    assert Shallow(root, disk);
    LeafExtsAll(TreeOf(root, disk), ps, disk, |ps|);
    return Some((data, index));
  }

  /** The entries of the first `k` leaves. */
  ghost function LeafExts(ps: seq<nat>, disk: Blocks, k: nat): seq<Ext>
    requires k <= |ps| && forall j :: 0 <= j < k ==> LeafBlock(disk, ps[j])
  {
    if k == 0 then []
    else
      assert LeafBlock(disk, ps[k - 1]);
      LeafExts(ps, disk, k - 1) + ExtsAt(disk(ps[k - 1]).value)
  }

  lemma {:induction false} LeafExtsAll(n: Node, ps: seq<nat>, disk: Blocks, k: nat)
    requires k <= |ps| && forall j :: 0 <= j < |ps| ==> LeafBlock(disk, ps[j])
    requires n.IndexNode? && n.kids == LeavesOf(ps, disk)
    ensures KidExts(n, k) == LeafExts(ps, disk, k)
    ensures k == |ps| ==> Exts(n) == LeafExts(ps, disk, k)
  {
    hide ExtsAt;
    if k > 0 { LeafExtsAll(n, ps, disk, k - 1); }
  }

  lemma TreeOfRepresents(b: seq<byte>, disk: Blocks)
    requires NodeOk(b) && Shallow(b, disk)
    ensures Represents(b, disk, TreeOf(b, disk))
  {
    hide ExtsAt, KeysAt, PtrsAt, NodeOk;
    var n := TreeOf(b, disk);
    if n.IndexNode? {
      forall i | 0 <= i < |n.kids| ensures disk(n.ptrs[i]).Some? && Represents(disk(n.ptrs[i]).value, disk, n.kids[i]) {
        assert LeafBlock(disk, PtrsAt(b)[i]);
        assert n.kids[i] == LeafNode(ExtsAt(disk(n.ptrs[i]).value));
      }
    }
  }

  // ----- writing -----

  const START_LIMIT: nat := 0x1_0000_0000_0000

  /** The run fits the 32-, 16- and 48-bit fields of an extent entry. */
  predicate Storable(r: Run) {
    r.logical < U32_LIMIT && r.len <= MAX_EXTENT_LEN && r.physical < START_LIMIT
  }

  function ExtOf(r: Run): Ext { Ext(r.logical, r.len, r.physical, true) }

  function ExtsOf(rs: seq<Run>): (es: seq<Ext>)
    ensures |es| == |rs|
  {
    seq(|rs|, i requires 0 <= i < |rs| => ExtOf(rs[i]))
  }

  function EncHeader(n: nat, max: nat, depth: nat): (s: seq<byte>)
    ensures |s| == 12
  {
    Le16(EXTENT_MAGIC) + Le16(n) + Le16(max) + Le16(depth) + Le32(0)
  }

  function EncExt(r: Run): (s: seq<byte>)
    ensures |s| == 12
  {
    Le32(r.logical) + Le16(r.len) + Le16(r.physical / U32_LIMIT) + Le32(r.physical)
  }

  function EncIndex(key: nat, ptr: nat): (s: seq<byte>)
    ensures |s| == 12
  {
    Le32(key) + Le32(ptr) + Le16(ptr / U32_LIMIT) + Le16(0)
  }

  lemma HeaderRead(b: seq<byte>, n: nat, max: nat, depth: nat)
    requires |b| >= 12 && b[..12] == EncHeader(n, max, depth) && n < U16_LIMIT && depth < U16_LIMIT
    ensures U16(b, 0) == EXTENT_MAGIC && U16(b, 2) == n && U16(b, 6) == depth
  {
    var h := EncHeader(n, max, depth);
    hide Le16, Le32, U16;
    assert b[0..2] == h[0..2] == Le16(EXTENT_MAGIC);
    assert b[2..4] == h[2..4] == Le16(n);
    assert b[6..8] == h[6..8] == Le16(depth);
    Le16RoundTrip(b, 0, EXTENT_MAGIC);
    Le16RoundTrip(b, 2, n);
    Le16RoundTrip(b, 6, depth);
  }

  lemma ExtRead(b: seq<byte>, o: nat, r: Run)
    requires o + 12 <= |b| && b[o..o + 12] == EncExt(r) && Storable(r)
    ensures DecExt(b, o) == ExtOf(r)
  {
    var h := EncExt(r);
    hide Le16, Le32, U16, U32;
    Slice(b, o, 12, 0, 4);
    Slice(b, o, 12, 4, 6);
    Slice(b, o, 12, 6, 8);
    Slice(b, o, 12, 8, 12);
    assert h[0..4] == Le32(r.logical) && h[4..6] == Le16(r.len);
    assert h[6..8] == Le16(r.physical / U32_LIMIT) && h[8..12] == Le32(r.physical);
    Le32RoundTrip(b, o, r.logical);
    Le16RoundTrip(b, o + 4, r.len);
    Le16RoundTrip(b, o + 6, r.physical / U32_LIMIT);
    Le32RoundTrip(b, o + 8, r.physical);
  }

  lemma IndexRead(b: seq<byte>, o: nat, key: nat, ptr: nat)
    requires o + 12 <= |b| && b[o..o + 12] == EncIndex(key, ptr) && key < U32_LIMIT && ptr < START_LIMIT
    ensures DecKey(b, o) == key && DecPtr(b, o) == ptr
  {
    var h := EncIndex(key, ptr);
    hide Le16, Le32, U16, U32;
    assert b[o..o + 4] == h[..4] == Le32(key);
    Slice(b, o, 12, 4, 8);
    assert h[4..8] == Le32(ptr);
    Slice(b, o, 12, 8, 10);
    assert h[8..10] == Le16(ptr / U32_LIMIT);
    Le32RoundTrip(b, o, key);
    Le32RoundTrip(b, o + 4, ptr);
    Le16RoundTrip(b, o + 8, ptr / U32_LIMIT);
  }

  /** The header and the first `k` entries are in place. */
  ghost predicate Written(b: seq<byte>, rs: seq<Run>, k: nat, n: nat, max: nat, depth: nat) {
    && k <= |rs| && 12 + 12 * k <= |b| && b[..12] == EncHeader(n, max, depth)
    && forall i :: 0 <= i < k ==> b[12 + 12 * i..24 + 12 * i] == EncExt(rs[i])
  }

  /** A later store leaves them in place. */
  lemma WrittenKept(b: seq<byte>, b': seq<byte>, rs: seq<Run>, k: nat, n: nat, max: nat, depth: nat, o: nat,
      v: seq<byte>)
    requires Written(b, rs, k, n, max, depth) && 12 + 12 * k <= o && o + |v| <= |b| && b' == Splice(b, o, v)
    ensures Written(b', rs, k, n, max, depth)
  {
    hide Splice, EncHeader, EncExt;
    assert b'[..12] == b[..12];
    forall i | 0 <= i < k ensures b'[12 + 12 * i..24 + 12 * i] == EncExt(rs[i]) {
      assert b'[12 + 12 * i..24 + 12 * i] == b[12 + 12 * i..24 + 12 * i];
    }
  }

  lemma WrittenNext(b: seq<byte>, b': seq<byte>, rs: seq<Run>, k: nat, n: nat, max: nat, depth: nat)
    requires Written(b, rs, k, n, max, depth) && k < |rs| && 24 + 12 * k <= |b|
    requires b' == Splice(b, 12 + 12 * k, EncExt(rs[k]))
    ensures Written(b', rs, k + 1, n, max, depth)
  {
    WrittenKept(b, b', rs, k, n, max, depth, 12 + 12 * k, EncExt(rs[k]));
  }

  lemma WrittenLeaf(b: seq<byte>, rs: seq<Run>, max: nat)
    requires Written(b, rs, |rs|, |rs|, max, 0) && |rs| < U16_LIMIT && forall i :: 0 <= i < |rs| ==> Storable(rs[i])
    ensures NodeOk(b) && Level(b) == 0 && ExtsAt(b) == ExtsOf(rs)
  {
    HeaderRead(b, |rs|, max, 0);
    hide EncHeader, EncExt, DecExt, U16;
    forall i | 0 <= i < |rs| ensures ExtsAt(b)[i] == ExtsOf(rs)[i] {
      ExtRead(b, 12 + 12 * i, rs[i]);
    }
  }

  /** The entries of a leaf node, after its header. */
  method WriteEntries(buf: array<byte>, rs: seq<Run>, ghost max: nat)
    requires 12 + 12 * |rs| <= buf.Length && buf[..12] == EncHeader(|rs|, max, 0)
    modifies buf
    ensures Written(buf[..], rs, |rs|, |rs|, max, 0)
  {
    hide EncHeader, EncExt;
    assert buf[..][..12] == buf[..12];
    for k := 0 to |rs|
      invariant Written(buf[..], rs, k, |rs|, max, 0)
    {
      ghost var b := buf[..];
      Store(buf, 12 + 12 * k, EncExt(rs[k]));
      WrittenNext(b, buf[..], rs, k, |rs|, max, 0);
    }
  }

  /** `write_extent_tree`: the 60-byte root, holding the runs themselves or one
      index entry for the leaf block. */
  method WriteRoot(area: array<byte>, rs: seq<Run>, leaf: Option<nat>) returns (ok: bool)
    requires area.Length == 60 && (leaf.Some? ==> rs != [])
    modifies area
    ensures ok <==> leaf.Some? || |rs| <= MAX_INLINE_EXTENTS
    ensures !ok ==> area[..] == old(area[..])
    ensures ok && leaf.None? && (forall i :: 0 <= i < |rs| ==> Storable(rs[i])) ==>
      NodeOk(area[..]) && Level(area[..]) == 0 && ExtsAt(area[..]) == ExtsOf(rs)
    ensures leaf.Some? && Storable(rs[0]) && leaf.value < START_LIMIT ==>
      && NodeOk(area[..]) && Level(area[..]) == 1 && KeysAt(area[..]) == [rs[0].logical]
      && PtrsAt(area[..]) == [leaf.value]
  {
    hide EncHeader, EncExt, EncIndex, ExtsAt, KeysAt, PtrsAt, NodeOk, Splice;
    if leaf.Some? {
      Store(area, 0, EncHeader(1, MAX_INLINE_EXTENTS, 1));
      ghost var b := area[..];
      Store(area, 12, EncIndex(rs[0].logical, leaf.value));
      assert area[..][..12] == b[..12] == b[0..12];
      if Storable(rs[0]) && leaf.value < START_LIMIT {
        RootRead(area[..], rs[0].logical, leaf.value);
      }
      return true;
    }
    if |rs| > MAX_INLINE_EXTENTS {
      return false;
    }
    Store(area, 0, EncHeader(|rs|, MAX_INLINE_EXTENTS, 0));
    assert area[..][0..12] == area[..12];
    WriteEntries(area, rs, MAX_INLINE_EXTENTS);
    if forall i :: 0 <= i < |rs| ==> Storable(rs[i]) {
      WrittenLeaf(area[..], rs, MAX_INLINE_EXTENTS);
    }
    ok := true;
  }

  lemma RootRead(b: seq<byte>, key: nat, ptr: nat)
    requires |b| == 60 && b[..12] == EncHeader(1, MAX_INLINE_EXTENTS, 1) && b[12..24] == EncIndex(key, ptr)
    requires key < U32_LIMIT && ptr < START_LIMIT
    ensures NodeOk(b) && Level(b) == 1 && KeysAt(b) == [key] && PtrsAt(b) == [ptr]
  {
    HeaderRead(b, 1, MAX_INLINE_EXTENTS, 1);
    IndexRead(b, 12, key, ptr);
    hide EncHeader, EncIndex, DecKey, DecPtr, U16;
    assert KeysAt(b)[0] == DecKey(b, 12 + 12 * 0) && PtrsAt(b)[0] == DecPtr(b, 12 + 12 * 0);
  }

  /** `write_extent_leaf_block`: a whole block of entries, with room for the
      checksum in its last four bytes. */
  method WriteLeafBlock(block: array<byte>, rs: seq<Run>, csum: Option<nat>)
    requires 1024 <= block.Length && |rs| <= (block.Length - 12 - 4) / 12 && |rs| < U16_LIMIT
    modifies block
    ensures (forall i :: 0 <= i < |rs| ==> Storable(rs[i])) ==>
      NodeOk(block[..]) && Level(block[..]) == 0 && ExtsAt(block[..]) == ExtsOf(rs)
    ensures csum.Some? ==> block[block.Length - 4..] == Le32(csum.value)
  {
    hide EncHeader, EncExt, ExtsAt, NodeOk, Splice, Le32;
    var max := (block.Length - 12 - 4) / 12;
    Store(block, 0, EncHeader(|rs|, max, 0));
    assert block[..][0..12] == block[..12];
    WriteEntries(block, rs, max);
    if csum.Some? {
      ghost var b := block[..];
      Store(block, block.Length - 4, Le32(csum.value));
      WrittenKept(b, block[..], rs, |rs|, |rs|, max, 0, block.Length - 4, Le32(csum.value));
      assert block[..][block.Length - 4..block.Length] == block[block.Length - 4..];
    }
    if forall i :: 0 <= i < |rs| ==> Storable(rs[i]) {
      WrittenLeaf(block[..], rs, max);
    }
  }

  // ----- the round trip -----

  /** The tree the writer leaves for `rs`. */
  function TreeFor(rs: seq<Run>, leaf: Option<nat>): Node
    requires leaf.Some? ==> rs != []
  {
    if leaf.Some? then IndexNode([rs[0].logical], [leaf.value], [LeafNode(ExtsOf(rs))]) else LeafNode(ExtsOf(rs))
  }

  /** The bytes written for `rs` are that tree, and are accepted again. */
  lemma WrittenTree(root: seq<byte>, block: seq<byte>, disk: Blocks, rs: seq<Run>, leaf: Option<nat>)
    requires leaf.Some? ==> rs != []
    requires leaf.None? ==> NodeOk(root) && Level(root) == 0 && ExtsAt(root) == ExtsOf(rs)
    requires leaf.Some? ==>
      && NodeOk(root) && Level(root) == 1 && KeysAt(root) == [rs[0].logical] && PtrsAt(root) == [leaf.value]
      && disk(leaf.value) == Some(block) && NodeOk(block) && Level(block) == 0 && ExtsAt(block) == ExtsOf(rs)
    ensures Shallow(root, disk) && TreeOf(root, disk) == TreeFor(rs, leaf) && Represents(root, disk, TreeFor(rs, leaf))
    ensures Exts(TreeFor(rs, leaf)) == ExtsOf(rs)
  {
    hide ExtsAt, KeysAt, PtrsAt, NodeOk, ExtsOf;
    if leaf.Some? {
      assert PtrsAt(root)[0] == leaf.value;
      assert LeafBlock(disk, leaf.value);
      var n := TreeFor(rs, leaf);
      assert KidExts(n, 1) == KidExts(n, 0) + Exts(n.kids[0]) == ExtsOf(rs);
    }
    TreeOfRepresents(root, disk);
  }

  lemma {:induction false} DataOfRuns(rs: seq<Run>)
    requires forall i :: 0 <= i < |rs| ==> rs[i].len > 0
    ensures |DataOfExts(ExtsOf(rs))| == |rs|
    ensures forall i :: 0 <= i < |rs| ==> DataOfExts(ExtsOf(rs))[i] == Extent(rs[i].physical, rs[i].len)
  {
    if rs != [] {
      var p := rs[..|rs| - 1];
      DataOfRuns(p);
      assert ExtsOf(rs)[..|rs| - 1] == ExtsOf(p);
    }
  }

  lemma {:induction false} TiledOrdered(rs: seq<Run>, i: nat, j: nat)
    requires Tiled(rs) && i < j < |rs|
    ensures rs[i].logical + rs[i].len <= rs[j].logical
  {
    var p := rs[..j];
    assert p[..i + 1] == rs[..i + 1];
    assert rs[..i + 1] == rs[..i] + [rs[i]];
    FlatRunsPush(rs[..i], rs[i]);
    FlatRunsPrefix(p, i + 1);
  }

  /** The layout of a file is read back block for block. */
  lemma LookTiled(rs: seq<Run>, l: nat)
    requires Tiled(rs)
    ensures Look(ExtsOf(rs), l) == if l < |FlatRuns(rs)| then Some(FlatRuns(rs)[l]) else None
  {
    hide Tiled, FlatRuns;
    RunIndexTiled(rs, l);
    var i := RunIndex(rs, l);
    if i < |rs| {
      LookAt(ExtsOf(rs), i, l);
      var r := rs[i];
      assert FlatRuns(rs)[l] == FlatRuns(rs)[r.logical..r.logical + r.len][l - r.logical];
    } else {
      LookNone(ExtsOf(rs), l);
    }
  }

  /** The writer's tree is well formed. */
  lemma TreeForWellFormed(rs: seq<Run>, leaf: Option<nat>, hi: nat)
    requires Tiled(rs) && (leaf.Some? ==> rs != []) && |FlatRuns(rs)| < hi
    ensures WellFormed(TreeFor(rs, leaf), 0, hi)
    ensures forall l :: MapRun(TreeFor(rs, leaf), l).Mapped?
  {
    hide Tiled, FlatRuns;
    var es := ExtsOf(rs);
    forall i | 0 <= i < |es| ensures es[i].block + es[i].len <= hi { RunSlice(rs, i); }
    forall i, j | 0 <= i < j < |es| ensures es[i].block + es[i].len <= es[j].block { TiledOrdered(rs, i, j); }
    assert Ordered(es, 0, hi);
    if leaf.Some? {
      FirstRun(rs);
      RunSlice(rs, 0);
    }
    forall l: nat ensures MapRun(TreeFor(rs, leaf), l).Mapped? {
      LeafMapped(es, l);
      if leaf.Some? { assert Below([rs[0].logical], l) == 1; }
    }
  }

  lemma FirstRun(rs: seq<Run>)
    requires Tiled(rs) && rs != []
    ensures rs[0].logical == 0
  {
    assert rs[..0] == [];
  }

  /** Write the tree of a file, then read it back: the same runs, the same leaf
      block, and for any logical block `l` the run that backs it. */
  method RoundTrip(rs: seq<Run>, leaf: Option<nat>, blockSize: nat, csum: Option<nat>, others: Blocks, l: nat)
    returns (data: seq<Extent>, index: seq<Extent>, x: Mapped)
    requires Tiled(rs) && (forall i :: 0 <= i < |rs| ==> Storable(rs[i])) && 1024 <= blockSize
    requires if leaf.None? then |rs| <= MAX_INLINE_EXTENTS
             else 0 < |rs| <= (blockSize - 12 - 4) / 12 && |rs| < U16_LIMIT && leaf.value < START_LIMIT
    ensures |data| == |rs| && forall i :: 0 <= i < |rs| ==> data[i] == Extent(rs[i].physical, rs[i].len)
    ensures index == if leaf.Some? then [Extent(leaf.value, 1)] else []
    ensures Backed(FlatRuns(rs), l, x)
  {
    hide Tiled, FlatRuns, ExtsOf, ExtsAt, KeysAt, PtrsAt, NodeOk, Exts, MapRun, DataOfExts, PtrExtents, Le32,
      WellFormed, Look, Represents, Shallow, TreeOf, Storable, Backed, Agrees;
    var area, block := new byte[60](_ => 0), new byte[blockSize](_ => 0);
    var disk := others;
    if leaf.Some? {
      WriteLeafBlock(block, rs, csum);
      var written := block[..];
      disk := p => if p == leaf.value then Some(written) else others(p);
    }
    var ok := WriteRoot(area, rs, leaf);
    WrittenTree(area[..], block[..], disk, rs, leaf);
    var got := Collect(area[..], disk);
    data, index := got.value.0, got.value.1;
    TiledLong(rs);
    DataOfRuns(rs);
    OnePtr(leaf);
    x := MapRunExtents(area[..], disk, l, TreeFor(rs, leaf));
    var hi := |FlatRuns(rs)| + l + 1;
    TreeForWellFormed(rs, leaf, hi);
    MapRunAgrees(TreeFor(rs, leaf), 0, hi, l);
    AgreesBacked(rs, l, x);
  }

  /** The run `x` reported at `l` is that of the file's block list. */
  ghost predicate Backed(flat: seq<nat>, l: nat, x: Mapped) {
    && x.Mapped? && x.run > 0
    && (x.phys.Some? ==> l + x.run <= |flat| && forall k :: l <= k < l + x.run ==> flat[k] == x.phys.value + (k - l))
    && (x.phys.None? ==> l >= |flat|)
  }

  lemma AgreesBacked(rs: seq<Run>, l: nat, x: Mapped)
    requires Tiled(rs) && Agrees(x, ExtsOf(rs), l)
    ensures Backed(FlatRuns(rs), l, x)
  {
    hide Tiled, FlatRuns, ExtsOf, Look;
    forall k | l <= k < l + x.run
      ensures Look(ExtsOf(rs), k) == if k < |FlatRuns(rs)| then Some(FlatRuns(rs)[k]) else None
    {
      LookTiled(rs, k);
    }
    assert Look(ExtsOf(rs), l) == Look(ExtsOf(rs), l + 0);
    assert Look(ExtsOf(rs), l + x.run - 1).Some? == x.phys.Some?;
  }

  lemma TiledLong(rs: seq<Run>)
    requires Tiled(rs)
    ensures forall i :: 0 <= i < |rs| ==> rs[i].len > 0
  {
  }

  lemma OnePtr(leaf: Option<nat>)
    ensures leaf.Some? ==> PtrExtents([leaf.value]) == [Extent(leaf.value, 1)]
  {
    if leaf.Some? { assert [leaf.value][..0] == []; }
  }
}
