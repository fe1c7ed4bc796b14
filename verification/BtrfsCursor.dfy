/** A cursor over a btrfs tree (core/src/fs/btrfs/cursor.rs): a mutable path
    that refines an index into the tree's sorted sequence of items. */
module BtrfsCursor {
  import opened Bytes
  import opened BtrfsTree

  datatype Result<+T> = Ok(value: T) | Err

  datatype Frame = Frame(node: Tree, i: nat)

  // ----- paths as positions -----

  /** `path` leads from `t` down to a leaf, whose index may be one past the
      end. */
  ghost predicate PathOk(t: Tree, path: seq<Frame>)
    decreases t
  {
    && path != [] && path[0].node == t
    && (if t.Leaf? then |path| == 1 && path[0].i <= |t.items|
        else path[0].i < |t.kids| && PathOk(t.kids[path[0].i], path[1..]))
  }

  /** The index in `Flat(t)` the path stands for. */
  ghost function Pos(t: Tree, path: seq<Frame>): nat
    requires PathOk(t, path)
    decreases t
  {
    if t.Leaf? then path[0].i else |FlatKids(t, path[0].i)| + Pos(t.kids[path[0].i], path[1..])
  }

  ghost predicate AtItem(path: seq<Frame>) {
    path != [] && path[|path| - 1].i < Count(path[|path| - 1].node)
  }

  /** A path stands inside the tree's items, at the item it points to. */
  lemma {:induction false} PosInside(t: Tree, path: seq<Frame>)
    requires WellFormed(t) && PathOk(t, path)
    ensures Pos(t, path) <= |Flat(t)| && path[|path| - 1].node.Leaf?
    ensures AtItem(path) ==>
      Pos(t, path) < |Flat(t)| && Flat(t)[Pos(t, path)] == path[|path| - 1].node.items[path[|path| - 1].i]
    decreases t
  {
    hide Sorted;
    if t.Inner? {
      var i, rest := path[0].i, path[1..];
      assert KidOk(t, i);
      PosInside(t.kids[i], rest);
      FlatKid(t, i);
      assert rest[|rest| - 1] == path[|path| - 1];
      var a := |FlatKids(t, i)|;
      if AtItem(path) {
        assert Flat(t)[a..a + |Flat(t.kids[i])|][Pos(t.kids[i], rest)] == Flat(t)[a + Pos(t.kids[i], rest)];
      }
    }
  }

  /** The leaf at the end of a non-root path has items. */
  lemma {:induction false} LeafNotEmpty(t: Tree, path: seq<Frame>)
    requires WellFormed(t) && PathOk(t, path) && Flat(t) != []
    ensures path[|path| - 1].node.Leaf? && 0 < |path[|path| - 1].node.items|
    decreases t
  {
    hide Sorted;
    if t.Inner? {
      assert KidOk(t, path[0].i);
      LeafNotEmpty(t.kids[path[0].i], path[1..]);
      assert path[1..][|path| - 2] == path[|path| - 1];
    }
  }

  /** The node at depth `d` and what is below it. */
  lemma {:induction false} PathTail(t: Tree, path: seq<Frame>, d: nat)
    requires WellFormed(t) && PathOk(t, path) && d < |path|
    ensures WellFormed(path[d].node) && PathOk(path[d].node, path[d..])
    ensures d < |path| - 1 ==> path[d].node.Inner? && path[d].i < |path[d].node.kids| == |path[d].node.keys|
    decreases d
  {
    hide Sorted;
    if d > 0 {
      assert KidOk(t, path[0].i);
      PathTail(t.kids[path[0].i], path[1..], d - 1);
      assert path[1..][d - 1..] == path[d..] && path[1..][d - 1] == path[d];
    } else {
      assert path[0..] == path;
    }
  }

  /** Replacing everything from depth `d` on by another path of the same node
      moves the position by what moved inside that node. */
  lemma {:induction false} Retail(t: Tree, path: seq<Frame>, d: nat, tail: seq<Frame>)
    requires WellFormed(t) && PathOk(t, path) && d < |path|
    requires PathOk(path[d].node, path[d..]) && PathOk(path[d].node, tail)
    ensures PathOk(t, path[..d] + tail)
    ensures Pos(t, path[..d] + tail) == Pos(t, path) - Pos(path[d].node, path[d..]) + Pos(path[d].node, tail)
    decreases d
  {
    hide Sorted;
    if d == 0 {
      assert path[..0] + tail == tail && path[0..] == path;
    } else {
      var i, rest := path[0].i, path[1..];
      assert KidOk(t, i);
      assert rest[d - 1] == path[d] && rest[d - 1..] == path[d..];
      Retail(t.kids[i], rest, d - 1, tail);
      var np := path[..d] + tail;
      assert np[0] == path[0] && np[1..] == rest[..d - 1] + tail;
    }
  }

  /** The first and the last path of a node. */
  ghost function Leftmost(t: Tree): seq<Frame>
    decreases t
  {
    if t.Leaf? || t.kids == [] then [Frame(t, 0)] else [Frame(t, 0)] + Leftmost(t.kids[0])
  }

  lemma {:induction false} LeftmostIs(t: Tree)
    requires WellFormed(t)
    ensures PathOk(t, Leftmost(t)) && Pos(t, Leftmost(t)) == 0
    decreases t
  {
    hide Sorted;
    if t.Inner? {
      assert KidOk(t, 0);
      LeftmostIs(t.kids[0]);
      assert Leftmost(t)[1..] == Leftmost(t.kids[0]);
    }
  }

  ghost function Rightmost(t: Tree): seq<Frame>
    decreases t
  {
    if t.Leaf? then [Frame(t, if t.items == [] then 0 else |t.items| - 1)]
    else if t.kids == [] then [Frame(t, 0)]
    else [Frame(t, |t.kids| - 1)] + Rightmost(t.kids[|t.kids| - 1])
  }

  lemma {:induction false} RightmostIs(t: Tree)
    requires WellFormed(t) && Flat(t) != []
    ensures PathOk(t, Rightmost(t)) && Pos(t, Rightmost(t)) == |Flat(t)| - 1
    decreases t
  {
    hide Sorted;
    if t.Inner? {
      var n := |t.kids| - 1;
      assert KidOk(t, n);
      RightmostIs(t.kids[n]);
      assert Rightmost(t)[1..] == Rightmost(t.kids[n]);
      FlatKid(t, n);
    }
  }

  /** The path is past the last item of every node from depth `d` on. */
  ghost predicate AtEnd(t: Tree, path: seq<Frame>) {
    PathOk(t, path) && Pos(t, path) == |Flat(t)|
  }

  lemma EndOfNode(t: Tree, path: seq<Frame>)
    requires t.Inner? && WellFormed(t) && PathOk(t, path) && AtEnd(t.kids[path[0].i], path[1..])
    ensures Pos(t, path) == |FlatKids(t, path[0].i + 1)|
    ensures path[0].i + 1 == |t.kids| ==> AtEnd(t, path)
    ensures path[0].i + 1 < |t.kids| ==> Pos(t, path) < |Flat(t)|
  {
    hide Sorted;
    FlatKid(t, path[0].i);
    if path[0].i + 1 < |t.kids| { KeyPlace(t, path[0].i + 1); }
  }

  // ----- the cursor -----

  class Cursor {
    const root: Tree
    var path: seq<Frame>

    constructor (root: Tree, path: seq<Frame>)
      ensures this.root == root && this.path == path
    {
      this.root, this.path := root, path;
    }

    /** The cursor stands at an item, or past the last one. */
    ghost predicate Ready()
      reads this
    {
      WellFormed(root) && PathOk(root, path) && (Pos(root, path) == |Flat(root)| || AtItem(path))
    }

    /** Which item. */
    ghost function At(): nat
      reads this
      requires Ready()
    {
      Pos(root, path)
    }

    predicate Valid()
      reads this
      requires path != []
    {
      path[|path| - 1].i < Count(path[|path| - 1].node)
    }

    lemma ReadyMeans()
      requires Ready()
      ensures path != [] && At() <= |Flat(root)| && (Valid() <==> At() < |Flat(root)|)
      ensures Valid() ==>
        path[|path| - 1].node.Leaf? && Flat(root)[At()] == path[|path| - 1].node.items[path[|path| - 1].i]
    {
      PosInside(root, path);
    }

    method Key() returns (k: BtrfsTree.Key)
      requires Ready() && path != [] && Valid()
      ensures At() < |Flat(root)| && k == Flat(root)[At()].key
    {
      ReadyMeans();
      k := path[|path| - 1].node.items[path[|path| - 1].i].key;
    }

    method Data() returns (d: seq<byte>)
      requires Ready() && path != [] && Valid()
      ensures At() < |Flat(root)| && d == Flat(root)[At()].data
    {
      ReadyMeans();
      d := path[|path| - 1].node.items[path[|path| - 1].i].data;
    }

    /** Push the leftmost path below `start`. */
    method DescendLeft(start: Tree, parentLevel: nat) returns (r: Result<()>)
      requires WellFormed(start) && Level(start) + 1 == parentLevel
      modifies this`path
      ensures r.Ok? && path == old(path) + Leftmost(start)
    {
      hide Sorted;
      var child, level := start, parentLevel;
      while true
        invariant WellFormed(child) && Level(child) + 1 == level
        invariant path + Leftmost(child) == old(path) + Leftmost(start)
        decreases child
      {
        if Level(child) + 1 != level {
          return Err;
        }
        level := Level(child);
        path := path + [Frame(child, 0)];
        if child.Leaf? {
          return Ok(());
        }
        assert KidOk(child, 0);
        Shift(old(path) + Leftmost(start), path[..|path| - 1], Frame(child, 0), Leftmost(child.kids[0]));
        child := child.kids[0];
      }
    }

    /** Push the rightmost path below `start`. */
    method DescendRight(start: Tree, parentLevel: nat) returns (r: Result<()>)
      requires WellFormed(start) && Level(start) + 1 == parentLevel && Flat(start) != [] && 0 < Count(start)
      modifies this`path
      ensures r.Ok? && path == old(path) + Rightmost(start)
    {
      hide Sorted;
      var child, level := start, parentLevel;
      while true
        invariant WellFormed(child) && Level(child) + 1 == level && 0 < Count(child)
        invariant path + Rightmost(child) == old(path) + Rightmost(start)
        decreases child
      {
        if Level(child) + 1 != level {
          return Err;
        }
        level := Level(child);
        if Count(child) == 0 {
          return Err;
        }
        var last := Count(child) - 1;
        path := path + [Frame(child, last)];
        if child.Leaf? {
          return Ok(());
        }
        assert KidOk(child, last);
        Shift(old(path) + Rightmost(start), path[..|path| - 1], Frame(child, last), Rightmost(child.kids[last]));
        child := child.kids[last];
      }
    }

    /** Move to the first item of the next leaf, if there is one. */
    method AdvanceLeaf() returns (r: Result<()>)
      requires WellFormed(root) && PathOk(root, path) && !AtItem(path)
      modifies this`path
      ensures r.Ok? && Ready() && At() == Pos(root, old(path))
    {
      hide Sorted, KidOk, Flat;
      var leaf := |path| - 1;
      PosInside(root, path);
      PathTail(root, path, leaf);
      LeafEnd(path[leaf].node, path[leaf..]);
      var idx := leaf;
      while idx > 0
        invariant 0 <= idx <= leaf && path == old(path)
        invariant PathOk(path[idx].node, path[idx..]) && AtEnd(path[idx].node, path[idx..])
        invariant WellFormed(path[idx].node)
      {
        PathTail(root, path, idx - 1);
        assert path[idx - 1..][1..] == path[idx..] && path[idx - 1..][0] == path[idx - 1];
        ghost var node := path[idx - 1].node;
        NodeBelow(node, path[idx - 1..]);
        EndOfNode(node, path[idx - 1..]);
        if path[idx - 1].i + 1 < Count(path[idx - 1].node) {
          r := Step(idx - 1);
          return;
        }
        idx := idx - 1;
      }
      assert path[0..] == path;
      r := Ok(());
    }

    /** Enter the next subtree of the node at depth `d`, below which the path is
        at its end. */
    method Step(d: nat) returns (r: Result<()>)
      requires WellFormed(root) && PathOk(root, path) && d < |path| && WellFormed(path[d].node)
      requires PathOk(path[d].node, path[d..])
      requires path[d].node.Inner? && path[d].i + 1 < |path[d].node.kids| == |path[d].node.keys|
      requires Pos(path[d].node, path[d..]) == |FlatKids(path[d].node, path[d].i + 1)|
      modifies this`path
      ensures r.Ok? && Ready() && At() == Pos(root, old(path))
    {
      hide Sorted, Flat, FlatKids, Pos, PathOk, WellFormed, Leftmost;
      ghost var p := path;
      var node, i := path[d].node, path[d].i + 1;
      NextKid(node, i);
      path := path[..d] + [Frame(node, i)];
      r := DescendLeft(node.kids[i], Level(node));
      ghost var tail := [Frame(node, i)] + Leftmost(node.kids[i]);
      AppendTail(p[..d], Frame(node, i), Leftmost(node.kids[i]));
      assert path == p[..d] + tail;
      LeftmostItem(node.kids[i]);
      EnterKid(node, i, Leftmost(node.kids[i]));
      Retail(root, p, d, tail);
      assert path[|path| - 1] == tail[|tail| - 1];
    }

    /** Step to the next item. */
    method Advance() returns (r: Result<()>)
      requires Ready()
      modifies this`path
      ensures r.Ok? && Ready() && At() == if old(At()) < |Flat(root)| then old(At()) + 1 else old(At())
    {
      hide Sorted, Flat, WellFormed;
      ReadyMeans();
      var last := |path| - 1;
      ghost var p := path;
      if path[last].i < Count(path[last].node) {
        PathTail(root, path, last);
        PosInside(root, path);
        path := path[..last] + [Frame(path[last].node, path[last].i + 1)];
        LeafStep(p[last].node, p[last..], Frame(p[last].node, p[last].i + 1));
        Retail(root, p, last, [Frame(p[last].node, p[last].i + 1)]);
      }
      if !Valid() {
        r := AdvanceLeaf();
      } else {
        r := Ok(());
      }
    }

    /** Step back one item; from the first one, nowhere. */
    method Retreat() returns (r: Result<()>)
      requires Ready()
      modifies this`path
      ensures r.Ok? && path != []
      ensures old(At()) > 0 ==> Ready() && At() == old(At()) - 1
      ensures old(At()) == 0 ==> !Valid()
    {
      hide Sorted, Flat, WellFormed;
      ReadyMeans();
      var last := |path| - 1;
      ghost var p := path;
      PathTail(root, path, last);
      PosInside(root, path);
      if path[last].i > 0 {
        path := path[..last] + [Frame(path[last].node, path[last].i - 1)];
        LeafStep(p[last].node, p[last..], Frame(p[last].node, p[last].i - 1));
        Retail(root, p, last, [Frame(p[last].node, p[last].i - 1)]);
        return Ok(());
      }
      r := RetreatLeaf();
    }

    /** Move to the last item of the previous leaf, or park past the end. */
    method RetreatLeaf() returns (r: Result<()>)
      requires WellFormed(root) && PathOk(root, path) && path != [] && path[|path| - 1].i == 0
      requires path[|path| - 1].node.Leaf?
      modifies this`path
      ensures r.Ok? && path != []
      ensures Pos(root, old(path)) > 0 ==> Ready() && At() == Pos(root, old(path)) - 1
      ensures Pos(root, old(path)) == 0 ==> !Valid()
    {
      hide Sorted, Flat, KidOk, FlatKids, Pos, WellFormed, Rightmost, PathOk;
      ghost var p := path;
      PathTail(root, path, |path| - 1);
      ZeroLeaf(p[|p| - 1].node, p[|p| - 1..]);
      while true
        invariant 0 < |path| <= |p| && path == p[..|path|]
        invariant PathOk(p[|path| - 1].node, p[|path| - 1..]) && Pos(p[|path| - 1].node, p[|path| - 1..]) == 0
        invariant WellFormed(p[|path| - 1].node)
        decreases |path|
      {
        if |path| == 1 {
          assert p[0..] == p;
          RootFrame(root, p);
          path := [Frame(path[0].node, Count(path[0].node))];
          return Ok(());
        }
        path := path[..|path| - 1];
        var last := |path| - 1;
        PathTail(root, p, last);
        assert p[last..][1..] == p[last + 1..] && p[last..][0] == p[last];
        NodeBelow(p[last].node, p[last..]);
        StartOfNode(p[last].node, p[last..]);
        if path[last].i == 0 {
          continue;
        }
        r := StepBack(last, p);
        return;
      }
    }

    /** Enter the previous subtree of the node at depth `d`, at whose beginning
        the path `p` stood. */
    method StepBack(d: nat, ghost p: seq<Frame>) returns (r: Result<()>)
      requires WellFormed(root) && PathOk(root, p) && |path| == d + 1 <= |p| && path == p[..d + 1]
      requires WellFormed(p[d].node) && PathOk(p[d].node, p[d..])
      requires p[d].node.Inner? && 0 < p[d].i < |p[d].node.kids|
      requires Pos(p[d].node, p[d..]) == |FlatKids(p[d].node, p[d].i)|
      modifies this`path
      ensures r.Ok? && Pos(root, p) > 0 && Ready() && At() == Pos(root, p) - 1 && path != []
    {
      hide Sorted, Flat, FlatKids, Pos, PathOk, WellFormed, Rightmost;
      var node, i := path[d].node, path[d].i - 1;
      NextKid(node, i);
      path := path[..d] + [Frame(node, i)];
      r := DescendRight(node.kids[i], Level(node));
      ghost var tail := [Frame(node, i)] + Rightmost(node.kids[i]);
      assert p[..d + 1][..d] == p[..d];
      AppendTail(p[..d], Frame(node, i), Rightmost(node.kids[i]));
      assert path == p[..d] + tail;
      RightmostIs(node.kids[i]);
      RightmostItem(node.kids[i]);
      EnterKid(node, i, Rightmost(node.kids[i]));
      KidLen(node, i);
      Retail(root, p, d, tail);
      assert path[|path| - 1] == tail[|tail| - 1];
    }
  }

  lemma RootFrame(t: Tree, path: seq<Frame>)
    requires PathOk(t, path)
    ensures path != [] && path[0].node == t
  {
  }

  lemma AppendTail(before: seq<Frame>, f: Frame, rest: seq<Frame>)
    ensures (before + [f]) + rest == before + ([f] + rest)
  {
  }

  lemma Shift(whole: seq<Frame>, before: seq<Frame>, f: Frame, rest: seq<Frame>)
    requires whole == before + ([f] + rest)
    ensures (before + [f]) + rest == whole
  {
  }

  /** A path one past a leaf's last item is at the end of the leaf. */
  lemma LeafEnd(t: Tree, path: seq<Frame>)
    requires PathOk(t, path) && t.Leaf? && path[0].i >= |t.items|
    ensures AtEnd(t, path)
  {
  }

  lemma ZeroLeaf(t: Tree, path: seq<Frame>)
    requires PathOk(t, path) && t.Leaf? && path[0].i == 0
    ensures Pos(t, path) == 0
  {
  }

  lemma NodeBelow(t: Tree, path: seq<Frame>)
    requires WellFormed(t) && PathOk(t, path) && t.Inner?
    ensures path[0].i < |t.kids| == |t.keys| && |path| > 1 && path[1].node == t.kids[path[0].i]
    ensures PathOk(t.kids[path[0].i], path[1..])
  {
  }

  lemma NextKid(t: Tree, i: nat)
    requires WellFormed(t) && t.Inner? && i < |t.kids|
    ensures WellFormed(t.kids[i]) && Level(t.kids[i]) + 1 == Level(t) && Flat(t.kids[i]) != [] && 0 < Count(t.kids[i])
  {
    assert KidOk(t, i);
  }

  lemma EnterKid(t: Tree, i: nat, rest: seq<Frame>)
    requires WellFormed(t) && t.Inner? && i < |t.kids| && PathOk(t.kids[i], rest)
    ensures PathOk(t, [Frame(t, i)] + rest) && Pos(t, [Frame(t, i)] + rest) == |FlatKids(t, i)| + Pos(t.kids[i], rest)
  {
    hide Flat, FlatKids;
    assert ([Frame(t, i)] + rest)[1..] == rest;
  }

  lemma KidLen(t: Tree, i: nat)
    requires t.Inner? && i < |t.kids|
    ensures |FlatKids(t, i + 1)| == |FlatKids(t, i)| + |Flat(t.kids[i])|
  {
  }

  lemma {:induction false} LeftmostItem(t: Tree)
    requires WellFormed(t) && Flat(t) != []
    ensures PathOk(t, Leftmost(t)) && Pos(t, Leftmost(t)) == 0 && AtItem(Leftmost(t))
    decreases t
  {
    LeftmostIs(t);
    LeafNotEmpty(t, Leftmost(t));
    LeftmostZero(t);
  }

  lemma {:induction false} LeftmostZero(t: Tree)
    ensures Leftmost(t) != [] && Leftmost(t)[|Leftmost(t)| - 1].i == 0
    decreases t
  {
    if t.Inner? && t.kids != [] { LeftmostZero(t.kids[0]); }
  }

  lemma {:induction false} RightmostItem(t: Tree)
    requires WellFormed(t) && Flat(t) != []
    ensures AtItem(Rightmost(t)) && Rightmost(t) != []
    decreases t
  {
    hide Sorted;
    if t.Inner? {
      assert KidOk(t, |t.kids| - 1);
      RightmostItem(t.kids[|t.kids| - 1]);
    }
  }

  lemma LeafStep(t: Tree, path: seq<Frame>, f: Frame)
    requires PathOk(t, path) && t.Leaf? && f.node == t && f.i <= |t.items|
    ensures PathOk(t, [f]) && Pos(t, [f]) == f.i && Pos(t, path) == path[0].i
  {
  }

  lemma StartOfNode(t: Tree, path: seq<Frame>)
    requires t.Inner? && PathOk(t, path) && Pos(t.kids[path[0].i], path[1..]) == 0
    ensures Pos(t, path) == |FlatKids(t, path[0].i)| && (path[0].i == 0 ==> Pos(t, path) == 0)
  {
  }

  // ----- searching -----

  /** `search`: at the first item whose key is at or above `k`. */
  method Search(root: Tree, k: Key) returns (r: Result<Cursor>)
    requires WellFormed(root) && KeyOk(k)
    ensures r.Ok? && fresh(r.value) && r.value.root == root && r.value.Ready()
    ensures r.value.At() == Below(Flat(root), k)
  {
    hide Sorted, Flat, FlatKids, WellFormed, Below, Rank, Leftmost;
    var path: seq<Frame> := [];
    var node := root;
    ghost var base: nat := 0;
    LeftmostIs(root);
    assert path + Leftmost(root) == Leftmost(root);
    while node.Inner? && Count(node) > 0
      invariant WellFormed(node) && Below(Flat(root), k) == base + Below(Flat(node), k)
      invariant Reached(root, path, node, base)
      decreases node
    {
      var i := ChildFor(node, k);
      var child := node.kids[i];
      NextKid(node, i);
      if Level(child) + 1 != Level(node) {
        return Err;
      }
      ReachDown(root, path, node, base, i);
      base := base + |FlatKids(node, i)|;
      path := path + [Frame(node, i)];
      node := child;
    }
    LeafAtLast(node);
    KeysSorted(node);
    var i := LowerBound(node, k);
    BelowInLeaf(node, k, i);
    ReachLeaf(root, path, node, base, i);
    var c := new Cursor(root, path + [Frame(node, i)]);
    if !c.Valid() {
      var across := c.AdvanceLeaf();
    }
    r := Ok(c);
  }

  /** The frames `path` lead from the root to `node`, whose items begin at
      `base`. */
  ghost predicate Reached(root: Tree, path: seq<Frame>, node: Tree, base: nat) {
    && PathOk(root, path + Leftmost(node)) && Pos(root, path + Leftmost(node)) == base && WellFormed(root)
    && WellFormed(node)
  }

  lemma ReachDown(root: Tree, path: seq<Frame>, node: Tree, base: nat, i: nat)
    requires Reached(root, path, node, base) && node.Inner? && i < |node.kids|
    ensures Reached(root, path + [Frame(node, i)], node.kids[i], base + |FlatKids(node, i)|)
  {
    hide Sorted, Flat, FlatKids, WellFormed;
    NextKid(node, i);
    var kid := node.kids[i];
    LeftmostIs(kid);
    EnterKid(node, i, Leftmost(kid));
    ReachTail(root, path, node, base, [Frame(node, i)] + Leftmost(kid));
    AppendTail(path, Frame(node, i), Leftmost(kid));
  }

  /** Any path below the node reached extends the frames. */
  lemma ReachTail(root: Tree, path: seq<Frame>, node: Tree, base: nat, tail: seq<Frame>)
    requires Reached(root, path, node, base) && PathOk(node, tail)
    ensures PathOk(root, path + tail) && Pos(root, path + tail) == base + Pos(node, tail)
  {
    hide Sorted, Flat, FlatKids, WellFormed, Leftmost;
    LeftmostIs(node);
    var full := path + Leftmost(node);
    RootFrame(node, Leftmost(node));
    assert full[|path|] == Leftmost(node)[0] && full[|path|..] == Leftmost(node) && full[..|path|] == path;
    Retail(root, full, |path|, tail);
  }

  lemma ReachLeaf(root: Tree, path: seq<Frame>, node: Tree, base: nat, i: nat)
    requires Reached(root, path, node, base) && node.Leaf? && i <= |node.items|
    ensures PathOk(root, path + [Frame(node, i)]) && Pos(root, path + [Frame(node, i)]) == base + i
  {
    hide Sorted, Flat, FlatKids, WellFormed;
    ReachTail(root, path, node, base, [Frame(node, i)]);
  }

  /** Below the root every node is either a leaf or has children. */
  lemma LeafAtLast(t: Tree)
    requires WellFormed(t) && !(t.Inner? && Count(t) > 0)
    ensures t.Leaf?
  {
  }

  lemma BelowInLeaf(t: Tree, k: Key, i: nat)
    requires WellFormed(t) && t.Leaf? && i <= |t.items|
    requires forall a :: 0 <= a < i ==> Rank(KeyAt(t, a)) < Rank(k)
    requires forall a :: i <= a < Count(t) ==> Rank(KeyAt(t, a)) >= Rank(k)
    ensures Below(Flat(t), k) == i
  {
    hide Rank;
    forall a | 0 <= a < |t.items| ensures KeyAt(t, a) == t.items[a].key { }
    BelowIs(t.items, k, i);
  }

  /** How many items have a key at or below `k`. */
  ghost function UpTo(s: seq<Item>, k: Key): nat {
    var n := Below(s, k);
    if n < |s| && s[n].key == k then n + 1 else n
  }

  /** `search_le`: at the last item whose key is at or below `k`; invalid
      exactly when there is none. */
  method SearchLe(root: Tree, k: Key) returns (r: Result<Cursor>)
    requires WellFormed(root) && KeyOk(k)
    ensures r.Ok? && fresh(r.value) && r.value.root == root && r.value.path != []
    ensures UpTo(Flat(root), k) > 0 ==> r.value.Ready() && r.value.At() == UpTo(Flat(root), k) - 1 && r.value.Valid()
    ensures UpTo(Flat(root), k) == 0 ==> !r.value.Valid()
  {
    hide Sorted, Flat, FlatKids, WellFormed, Below, Rank;
    var found := Search(root, k);
    if found.Err? {
      return Err;
    }
    var c := found.value;
    c.ReadyMeans();
    if c.Valid() {
      var key := c.Key();
      if key == k {
        return Ok(c);
      }
    }
    var back := c.Retreat();
    if UpTo(Flat(root), k) > 0 { c.ReadyMeans(); }
    r := Ok(c);
  }

  /** The items at or below `k` come first. */
  lemma UpToSplits(s: seq<Item>, k: Key)
    requires Sorted(s) && KeyOk(k)
    ensures UpTo(s, k) <= |s|
    ensures forall i :: 0 <= i < UpTo(s, k) ==> Rank(s[i].key) <= Rank(k)
    ensures forall i :: UpTo(s, k) <= i < |s| ==> Rank(s[i].key) > Rank(k)
  {
    hide Rank, Below;
    BelowSplits(s, k);
    var n := Below(s, k);
    if n < |s| {
      SameRank(s[n].key, k);
    }
  }

  // ----- enumerating -----

  /** `walk_tree`: every item, subtree by subtree. */
  method WalkTree(t: Tree) returns (r: Result<seq<Item>>)
    requires WellFormed(t)
    ensures r.Ok? && r.value == Flat(t)
    decreases t
  {
    hide Sorted, Rank;
    if t.Leaf? {
      return Ok(t.items);
    }
    var out: seq<Item> := [];
    for i := 0 to Count(t)
      invariant out == FlatKids(t, i)
    {
      var child := t.kids[i];
      assert KidOk(t, i);
      if Level(child) + 1 != Level(t) {
        return Err;
      }
      var part := WalkTree(child);
      if part.Err? {
        return Err;
      }
      out := out + part.value;
    }
    r := Ok(out);
  }

  /** Stepping a cursor from the first item on enumerates the same sequence. */
  method Enumerate(root: Tree) returns (out: seq<Item>)
    requires WellFormed(root)
    ensures out == Flat(root)
  {
    hide Sorted, Flat, WellFormed, Below, Rank;
    LowestKey(Flat(root));
    var found := Search(root, Key(0, 0, 0));
    var c := found.value;
    out := [];
    c.ReadyMeans();
    while c.Valid()
      invariant c.Ready() && c.root == root && c.path != [] && c.At() <= |Flat(root)|
      invariant c.Valid() <==> c.At() < |Flat(root)|
      invariant out == Flat(root)[..c.At()]
      decreases |Flat(root)| - c.At()
    {
      var key := c.Key();
      var data := c.Data();
      out := out + [Item(key, data)];
      var next := c.Advance();
      c.ReadyMeans();
    }
    assert Flat(root)[..|Flat(root)|] == Flat(root);
  }

  lemma LowestKey(s: seq<Item>)
    ensures Below(s, Key(0, 0, 0)) == 0
  {
  }

  /** The item belongs to the run of one object and type. */
  predicate InRun(x: Item, objectid: nat, itemType: nat) { x.key.objectid == objectid && x.key.itemType == itemType }

  /** `out` is all of that run, and it starts at `a`. */
  ghost predicate RunAt(s: seq<Item>, a: nat, out: seq<Item>, objectid: nat, itemType: nat) {
    && a + |out| <= |s| && out == s[a..a + |out|]
    && forall i :: 0 <= i < |s| ==> (InRun(s[i], objectid, itemType) <==> a <= i < a + |out|)
  }

  /** `for_each_item`: exactly the run of items of one object and type. */
  method ForEachItem(root: Tree, objectid: nat, itemType: nat) returns (out: seq<Item>)
    requires WellFormed(root) && objectid < U64_LIMIT && itemType < 0x100
    ensures exists a :: RunAt(Flat(root), a, out, objectid, itemType)
  {
    hide Sorted, Flat, WellFormed, Below, Rank;
    ghost var s := Flat(root);
    var k := Key(objectid, itemType, 0);
    var found := Search(root, k);
    var c := found.value;
    ghost var a := c.At();
    c.ReadyMeans();
    out := [];
    TreeSorted(root);
    while c.Valid()
      invariant c.Ready() && c.root == root && c.path != [] && c.At() <= |s| && (c.Valid() <==> c.At() < |s|)
      invariant c.At() == a + |out| && out == s[a..c.At()]
      invariant forall i :: a <= i < c.At() ==> InRun(s[i], objectid, itemType)
      decreases |s| - c.At()
    {
      var key := c.Key();
      if key.objectid != objectid || key.itemType != itemType {
        RunEnds(s, k, a, c.At());
        assert RunAt(s, a, out, objectid, itemType);
        return;
      }
      var data := c.Data();
      out := out + [Item(key, data)];
      var next := c.Advance();
      c.ReadyMeans();
    }
    RunEnds(s, k, a, |s|);
    assert RunAt(s, a, out, objectid, itemType);
  }

  lemma TreeSorted(t: Tree)
    requires WellFormed(t)
    ensures Sorted(Flat(t))
  {
  }

  /** A run of one object and type is contiguous. */
  lemma RunEnds(s: seq<Item>, k: Key, a: nat, b: nat)
    requires Sorted(s) && KeyOk(k) && k.offset == 0 && a == Below(s, k) && a <= b <= |s|
    requires forall i :: a <= i < b ==> InRun(s[i], k.objectid, k.itemType)
    requires b < |s| ==> !InRun(s[b], k.objectid, k.itemType)
    ensures forall i :: 0 <= i < |s| ==> (InRun(s[i], k.objectid, k.itemType) <==> a <= i < b)
  {
    BelowSplits(s, k);
    forall i | 0 <= i < |s| && InRun(s[i], k.objectid, k.itemType) ensures a <= i < b {
      LessIsRank(s[i].key, k);
      if b <= i {
        LessIsRank(s[b].key, s[i].key);
        LessIsRank(k, s[b].key);
        LessIsRank(s[b].key, k);
      }
    }
  }
}
