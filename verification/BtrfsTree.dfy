/** btrfs B-trees (core/src/fs/btrfs/tree.rs): keys, nodes, the searches inside
    one node, and the sorted sequence of items a well-formed tree stands for. */
module BtrfsTree {
  import opened Bytes

  // ----- keys -----

  datatype Key = Key(objectid: nat, itemType: nat, offset: nat)

  predicate KeyOk(k: Key) { k.objectid < U64_LIMIT && k.itemType < 0x100 && k.offset < U64_LIMIT }

  /** Lexicographic order by object, type and offset. */
  predicate Less(a: Key, b: Key) {
    || a.objectid < b.objectid
    || (a.objectid == b.objectid && (a.itemType < b.itemType || (a.itemType == b.itemType && a.offset < b.offset)))
  }

  /** The order as a single number. */
  function Rank(k: Key): nat { (k.objectid * 0x100 + k.itemType) * U64_LIMIT + k.offset }

  lemma LessIsRank(a: Key, b: Key)
    requires KeyOk(a) && KeyOk(b)
    ensures Less(a, b) <==> Rank(a) < Rank(b)
    ensures a == b <==> Rank(a) == Rank(b)
  {
  }

  // ----- nodes -----

  datatype Item = Item(key: Key, data: seq<byte>)

  /** A node with what its block pointers lead to. */
  datatype Tree =
    | Leaf(items: seq<Item>)
    | Inner(level: nat, keys: seq<Key>, kids: seq<Tree>)

  function Level(t: Tree): nat { if t.Leaf? then 0 else t.level }

  function Count(t: Tree): nat { if t.Leaf? then |t.items| else |t.keys| }

  /** Key of entry `i`, in either kind of node. */
  function KeyAt(t: Tree, i: nat): Key
    requires i < Count(t)
  {
    if t.Leaf? then t.items[i].key else t.keys[i]
  }

  /** Every item below a node, left to right. */
  function Flat(t: Tree): seq<Item>
    decreases t, 1
  {
    if t.Leaf? then t.items else FlatKids(t, |t.kids|)
  }

  /** The items of the first `k` subtrees. */
  function FlatKids(t: Tree, k: nat): seq<Item>
    requires t.Inner? && k <= |t.kids|
    decreases t, 0, k
  {
    if k == 0 then [] else FlatKids(t, k - 1) + Flat(t.kids[k - 1])
  }

  ghost predicate Sorted(s: seq<Item>) {
    && (forall i :: 0 <= i < |s| ==> KeyOk(s[i].key))
    && (forall i, j :: 0 <= i < j < |s| ==> Rank(s[i].key) < Rank(s[j].key))
  }

  /** Keys strictly sorted, each pointer key the lowest key of its subtree,
      levels dropping by one, and no empty node below the root. */
  ghost predicate WellFormed(t: Tree)
    decreases t
  {
    && Sorted(Flat(t))
    && (t.Inner? ==>
          && 0 < |t.kids| == |t.keys| && 0 < t.level
          && forall i :: 0 <= i < |t.kids| ==> KidOk(t, i))
  }

  ghost predicate KidOk(t: Tree, i: nat)
    requires t.Inner? && i < |t.kids| == |t.keys|
    decreases t, 0
  {
    && WellFormed(t.kids[i]) && Level(t.kids[i]) + 1 == t.level && Flat(t.kids[i]) != []
    && t.keys[i] == Flat(t.kids[i])[0].key && 0 < Count(t.kids[i])
  }

  /** How many items have a key below `k`. */
  ghost function Below(s: seq<Item>, k: Key): (n: nat)
    ensures n <= |s|
  {
    if s == [] || Rank(s[0].key) >= Rank(k) then 0 else 1 + Below(s[1..], k)
  }

  lemma {:induction false} BelowIs(s: seq<Item>, k: Key, n: nat)
    requires Sorted(s) && n <= |s|
    requires forall i :: 0 <= i < n ==> Rank(s[i].key) < Rank(k)
    requires n < |s| ==> Rank(s[n].key) >= Rank(k)
    ensures Below(s, k) == n
  {
    if s != [] && n > 0 { BelowIs(s[1..], k, n - 1); }
  }

  lemma {:induction false} BelowSplits(s: seq<Item>, k: Key)
    requires Sorted(s)
    ensures forall i :: 0 <= i < Below(s, k) ==> Rank(s[i].key) < Rank(k)
    ensures forall i :: Below(s, k) <= i < |s| ==> Rank(s[i].key) >= Rank(k)
  {
    if s != [] && Rank(s[0].key) < Rank(k) {
      BelowSplits(s[1..], k);
      forall i | 0 <= i < Below(s, k) ensures Rank(s[i].key) < Rank(k) {
        if i > 0 { assert s[i] == s[1..][i - 1]; }
      }
      forall i | Below(s, k) <= i < |s| ensures Rank(s[i].key) >= Rank(k) {
        assert s[i] == s[1..][i - 1];
      }
    }
  }

  // ----- flattening -----

  lemma {:induction false} FlatPrefix(t: Tree, i: nat, k: nat)
    requires t.Inner? && i <= k <= |t.kids|
    ensures |FlatKids(t, i)| <= |FlatKids(t, k)| && FlatKids(t, k)[..|FlatKids(t, i)|] == FlatKids(t, i)
    decreases k
  {
    if i < k {
      FlatPrefix(t, i, k - 1);
      assert FlatKids(t, k) == FlatKids(t, k - 1) + Flat(t.kids[k - 1]);
    }
  }

  /** Subtree `i` sits after the subtrees before it. */
  lemma FlatKid(t: Tree, i: nat)
    requires t.Inner? && i < |t.kids|
    ensures
      var a := |FlatKids(t, i)|;
      && a + |Flat(t.kids[i])| == |FlatKids(t, i + 1)| <= |Flat(t)|
      && Flat(t)[a..a + |Flat(t.kids[i])|] == Flat(t.kids[i])
      && Flat(t)[..a] == FlatKids(t, i)
  {
    FlatPrefix(t, i + 1, |t.kids|);
    FlatPrefix(t, i, |t.kids|);
    var a, b := |FlatKids(t, i)|, |FlatKids(t, i + 1)|;
    assert FlatKids(t, i + 1) == FlatKids(t, i) + Flat(t.kids[i]);
    assert Flat(t)[a..b] == Flat(t)[..b][a..];
  }

  // ----- searching one node -----

  /** `lower_bound`: the first entry whose key is at or above `k`. */
  method LowerBound(t: Tree, k: Key) returns (i: nat)
    requires forall a :: 0 <= a < Count(t) ==> KeyOk(KeyAt(t, a))
    requires (forall a, b :: 0 <= a < b < Count(t) ==> Rank(KeyAt(t, a)) < Rank(KeyAt(t, b))) && KeyOk(k)
    ensures i <= Count(t) && forall a :: 0 <= a < i ==> Rank(KeyAt(t, a)) < Rank(k)
    ensures forall a :: i <= a < Count(t) ==> Rank(KeyAt(t, a)) >= Rank(k)
  {
    hide Rank, Less;
    var lo, hi := 0, Count(t);
    while lo < hi
      invariant 0 <= lo <= hi <= Count(t)
      invariant forall a :: 0 <= a < lo ==> Rank(KeyAt(t, a)) < Rank(k)
      invariant forall a :: hi <= a < Count(t) ==> Rank(KeyAt(t, a)) >= Rank(k)
      decreases hi - lo
    {
      var mid := lo + (hi - lo) / 2;
      LessIsRank(KeyAt(t, mid), k);
      if Less(KeyAt(t, mid), k) {
        lo := mid + 1;
      } else {
        hi := mid;
      }
    }
    i := lo;
  }

  /** The keys of an interior node are sorted too. */
  lemma KeysSorted(t: Tree)
    requires WellFormed(t)
    ensures forall a :: 0 <= a < Count(t) ==> KeyOk(KeyAt(t, a))
    ensures forall a, b :: 0 <= a < b < Count(t) ==> Rank(KeyAt(t, a)) < Rank(KeyAt(t, b))
  {
    hide Rank;
    if t.Inner? {
      forall a | 0 <= a < Count(t) ensures KeyOk(KeyAt(t, a)) {
        KeyPlace(t, a);
      }
      forall a, b | 0 <= a < b < Count(t) ensures Rank(KeyAt(t, a)) < Rank(KeyAt(t, b)) {
        KeyPlace(t, a);
        KeyPlace(t, b);
        FlatPrefix(t, a + 1, b);
      }
    }
  }

  /** Pointer key `i` is the key of the first item of its subtree. */
  lemma KeyPlace(t: Tree, i: nat)
    requires t.Inner? && WellFormed(t) && i < |t.keys|
    ensures |FlatKids(t, i)| < |FlatKids(t, i + 1)| <= |Flat(t)| && Flat(t)[|FlatKids(t, i)|].key == t.keys[i]
  {
    hide Rank, Sorted;
    FlatKid(t, i);
    assert KidOk(t, i);
    var a := |FlatKids(t, i)|;
    assert Flat(t)[a..a + |Flat(t.kids[i])|][0] == Flat(t.kids[i])[0];
  }

  /** `child_for`: the last subtree whose lowest key is at or below `k`, or the
      first one. */
  method ChildFor(t: Tree, k: Key) returns (i: nat)
    requires t.Inner? && WellFormed(t) && KeyOk(k)
    ensures i < |t.kids|
    ensures Below(Flat(t), k) == |FlatKids(t, i)| + Below(Flat(t.kids[i]), k)
  {
    hide Rank, Sorted, KidOk, Below;
    KeysSorted(t);
    var bound := LowerBound(t, k);
    if bound < Count(t) && KeyAt(t, bound) == k {
      i := bound;
    } else {
      if bound < Count(t) { SameRank(KeyAt(t, bound), k); }
      i := if bound == 0 then 0 else bound - 1;
    }
    assert forall a :: 0 <= a < |t.keys| ==> KeyAt(t, a) == t.keys[a];
    Descend(t, k, i);
  }

  lemma SameRank(a: Key, b: Key)
    requires KeyOk(a) && KeyOk(b)
    ensures Rank(a) == Rank(b) ==> a == b
  {
  }

  /** Everything below `k` is in the subtrees before `i` or below `k` in it. */
  lemma Descend(t: Tree, k: Key, i: nat)
    requires t.Inner? && WellFormed(t) && i < |t.kids|
    requires i > 0 ==> Rank(t.keys[i]) <= Rank(k)
    requires i + 1 < |t.keys| ==> Rank(t.keys[i + 1]) > Rank(k)
    ensures Below(Flat(t), k) == |FlatKids(t, i)| + Below(Flat(t.kids[i]), k)
  {
    hide Rank, Flat, FlatKids, Below, Sorted;
    var s, kid, a := Flat(t), Flat(t.kids[i]), |FlatKids(t, i)|;
    FlatKid(t, i);
    KeyPlace(t, i);
    assert KidOk(t, i);
    assert WellFormed(t.kids[i]);
    FirstSubtree(t, i);
    if a + |kid| < |s| {
      LastSubtree(t, i);
      KeyPlace(t, i + 1);
    }
    BelowInside(s, kid, a, k);
  }

  /** Counting below `k` in a part of a sorted list whose neighbours are known
      to lie on either side of `k`. */
  lemma BelowInside(s: seq<Item>, kid: seq<Item>, a: nat, k: Key)
    requires Sorted(s) && Sorted(kid) && kid != [] && a + |kid| <= |s| && s[a..a + |kid|] == kid
    requires (a > 0 ==> Rank(s[a].key) <= Rank(k)) && (a + |kid| < |s| ==> Rank(s[a + |kid|].key) > Rank(k))
    ensures Below(s, k) == a + Below(kid, k)
  {
    hide Rank, Below;
    BelowSplits(kid, k);
    var n := a + Below(kid, k);
    forall j | 0 <= j < n ensures Rank(s[j].key) < Rank(k) {
      if j >= a { assert s[j] == kid[j - a]; }
    }
    if n < a + |kid| { assert s[n] == kid[n - a]; }
    BelowIs(s, k, n);
  }

  lemma FirstSubtree(t: Tree, i: nat)
    requires t.Inner? && i <= |t.kids|
    ensures i == 0 ==> FlatKids(t, i) == []
  {
  }

  lemma LastSubtree(t: Tree, i: nat)
    requires t.Inner? && i < |t.kids| == |t.keys| && |FlatKids(t, i + 1)| < |Flat(t)|
    ensures i + 1 < |t.keys|
  {
  }
}
