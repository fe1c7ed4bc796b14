/** Forward walks over one run of items, each describing a range that begins at
    its key's offset: what file extents and checksums have in common. */
module BtrfsWalk {
  import opened BtrfsTree
  import opened BtrfsCursor

  /** The items of one object and type, and where the range of each ends. */
  datatype Strand = Strand(objectid: nat, itemType: nat, end: Item -> nat)

  predicate Mine(t: Strand, x: Item) { InRun(x, t.objectid, t.itemType) }

  function KeyAt(t: Strand, p: nat): Key { Key(t.objectid, t.itemType, p) }

  /** Their ranges do not overlap. */
  ghost predicate Apart(t: Strand, s: seq<Item>) {
    forall i, j :: 0 <= i < j < |s| && Mine(t, s[i]) && Mine(t, s[j]) ==> t.end(s[i]) <= s[j].key.offset
  }

  /** The items before `c` are over by `p`. */
  ghost predicate Passed(t: Strand, s: seq<Item>, c: nat, p: nat) {
    c <= |s| && forall i :: 0 <= i < c && Mine(t, s[i]) ==> t.end(s[i]) <= p
  }

  /** Nothing from `c` on begins before `p`. */
  ghost predicate Beyond(t: Strand, s: seq<Item>, c: nat, p: nat) {
    forall i :: c <= i < |s| && Mine(t, s[i]) ==> s[i].key.offset >= p
  }

  lemma BeyondFrom(t: Strand, s: seq<Item>, c: nat, p: nat)
    requires Sorted(s) && c < |s| && Mine(t, s[c]) && s[c].key.offset >= p
    ensures Beyond(t, s, c, p)
  {
    forall i | c < i < |s| && Mine(t, s[i]) ensures s[i].key.offset >= p {
      LessIsRank(s[c].key, s[i].key);
    }
  }

  /** After an item that sorts behind the run comes none of it. */
  lemma BeyondRun(t: Strand, s: seq<Item>, c: nat, p: nat)
    requires Sorted(s) && c < |s| && !Mine(t, s[c]) && !Less(s[c].key, KeyAt(t, 0))
    ensures Beyond(t, s, c, p)
  {
    forall i | c <= i < |s| ensures !Mine(t, s[i]) {
      LessIsRank(s[c].key, s[i].key);
    }
  }

  lemma BeyondEnd(t: Strand, s: seq<Item>, c: nat, p: nat)
    requires |s| <= c
    ensures Beyond(t, s, c, p)
  {
  }

  lemma PassedNext(t: Strand, s: seq<Item>, c: nat, p: nat)
    requires Passed(t, s, c, p) && c < |s| && (Mine(t, s[c]) ==> t.end(s[c]) <= p)
    ensures Passed(t, s, c + 1, p)
  {
  }

  lemma PassedLater(t: Strand, s: seq<Item>, c: nat, p: nat, later: nat)
    requires Passed(t, s, c, p) && p <= later
    ensures Passed(t, s, c, later)
  {
  }

  /** The tree has a key at or below that of `p`. */
  ghost predicate Reachable(t: Strand, root: Tree, p: nat) {
    UpTo(Flat(root), KeyAt(t, p)) > 0
  }

  lemma ReachableIs(t: Strand, root: Tree, p: nat)
    ensures Reachable(t, root, p) <==> UpTo(Flat(root), Key(t.objectid, t.itemType, p)) > 0
  {
  }

  lemma ReachableLater(t: Strand, root: Tree, p: nat, later: nat)
    requires WellFormed(root) && KeyOk(KeyAt(t, later)) && Reachable(t, root, p) && p <= later
    ensures Reachable(t, root, later)
  {
    var s := Flat(root);
    TreeSorted(root);
    hide Flat, WellFormed, UpTo;
    UpToSplits(s, KeyAt(t, p));
    UpToSplits(s, KeyAt(t, later));
  }

  /** Where `search_le` leaves the walk, everything before is over. */
  lemma StartPassed(t: Strand, s: seq<Item>, p: nat)
    requires Sorted(s) && Apart(t, s) && KeyOk(KeyAt(t, p)) && UpTo(s, KeyAt(t, p)) > 0
    ensures Passed(t, s, UpTo(s, KeyAt(t, p)) - 1, p)
  {
    var k := KeyAt(t, p);
    UpToSplits(s, k);
    var c := UpTo(s, k) - 1;
    LessIsRank(s[c].key, k);
    forall i | 0 <= i < c && Mine(t, s[i]) ensures t.end(s[i]) <= p {
      LessIsRank(s[i].key, s[c].key);
    }
  }

  /** A walk over `s` that is done with everything before `p`. */
  ghost predicate Walking(t: Strand, c: Cursor, s: seq<Item>, p: nat)
    reads c
  {
    && c.Ready() && c.path != [] && s == Flat(c.root) && c.At() <= |s| && (c.Valid() <==> c.At() < |s|)
    && Passed(t, s, c.At(), p)
  }

  /** One item further, when the one here is over by `p` or not of the run. */
  method StepOver(t: Strand, c: Cursor, ghost s: seq<Item>, ghost p: nat)
    requires Walking(t, c, s, p) && c.path != [] && c.Valid() && c.At() < |s|
    requires Mine(t, s[c.At()]) ==> t.end(s[c.At()]) <= p
    modifies c
    ensures Walking(t, c, s, p) && c.path != [] && c.At() == old(c.At()) + 1
  {
    hide Passed, Flat, WellFormed, Sorted, PathOk, Pos, AtItem;
    PassedNext(t, s, c.At(), p);
    var next := c.Advance();
    c.ReadyMeans();
  }
}
