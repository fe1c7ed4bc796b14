/** Verifying file data (core/src/fs/btrfs/csum.rs): one forward cursor over the
    checksum tree gives the same answer as looking every sector up on its own. */
module BtrfsCsum {
  import opened Arith
  import opened Bytes
  import opened BtrfsTree
  import opened BtrfsCursor
  import opened BtrfsWalk

  const EXTENT_CSUM_OBJECTID: nat := 0xFFFF_FFFF_FFFF_FFF6
  const EXTENT_CSUM_KEY: nat := 128

  datatype Verified = All | Partial(unchecked: nat) | NoChecksumTree

  datatype Outcome = Fine(value: Verified) | Mismatch | Misaligned | Corrupt

  /** The shape of checksum items: one checksum of `width` bytes a sector, and
      whether a stored checksum is that of a sector's bytes. */
  datatype Scheme = Scheme(sector: nat, width: nat, matches: (seq<byte>, seq<byte>) -> bool)

  predicate SchemeOk(q: Scheme) { 0 < q.sector && 0 < q.width }

  predicate IsCsum(x: Item) { InRun(x, EXTENT_CSUM_OBJECTID, EXTENT_CSUM_KEY) }

  /** How many bytes of the device an item's checksums cover. */
  function Covered(q: Scheme, x: Item): nat
    requires SchemeOk(q)
  {
    |x.data| / q.width * q.sector
  }

  predicate CoversAt(q: Scheme, x: Item, target: nat)
    requires SchemeOk(q)
  {
    IsCsum(x) && x.key.offset <= target < x.key.offset + Covered(q, x)
  }

  /** The checksum an item holds for the sector at `target`. */
  function StoredIn(q: Scheme, x: Item, target: nat): (r: seq<byte>)
    requires SchemeOk(q) && CoversAt(q, x, target)
    ensures |r| == q.width
  {
    var index := (target - x.key.offset) / q.sector;
    SlotInside(q, x, target);
    x.data[index * q.width..index * q.width + q.width]
  }

  lemma SlotInside(q: Scheme, x: Item, target: nat)
    requires SchemeOk(q) && x.key.offset <= target
    ensures
      var index := (target - x.key.offset) / q.sector;
      index * q.width + q.width <= |x.data| <==> target < x.key.offset + Covered(q, x)
  {
    var d, n := target - x.key.offset, |x.data| / q.width;
    var index := d / q.sector;
    assert d == index * q.sector + d % q.sector;
    assert |x.data| == n * q.width + |x.data| % q.width;
    if index < n {
      Steps(index, n, q.width);
      Steps(index, n, q.sector);
    } else {
      MulMono(n, index, q.sector);
      MulMono(n, index, q.width);
      Steps(index, index + 1, q.width);
    }
  }

  lemma Steps(a: nat, b: nat, d: nat)
    requires a < b
    ensures a * d + d <= b * d
  {
    MulMono(a + 1, b, d);
    assert (a + 1) * d == a * d + d;
  }

  /** The checksum items, each covering so many bytes of the device. */
  function Sums(q: Scheme): Strand
    requires SchemeOk(q)
  {
    Strand(EXTENT_CSUM_OBJECTID, EXTENT_CSUM_KEY, (x: Item) => x.key.offset + Covered(q, x))
  }

  /** Looking one sector up on its own. */
  ghost function Lookup(q: Scheme, s: seq<Item>, target: nat): Option<seq<byte>>
    requires SchemeOk(q)
  {
    if exists i :: 0 <= i < |s| && CoversAt(q, s[i], target) then
      var i :| 0 <= i < |s| && CoversAt(q, s[i], target);
      Some(StoredIn(q, s[i], target))
    else None
  }

  lemma LookupIs(q: Scheme, s: seq<Item>, target: nat, k: nat)
    requires SchemeOk(q) && Apart(Sums(q), s) && k < |s| && CoversAt(q, s[k], target)
    ensures Lookup(q, s, target) == Some(StoredIn(q, s[k], target))
  {
    hide Covered, StoredIn, IsCsum;
    var i :| 0 <= i < |s| && CoversAt(q, s[i], target) && Lookup(q, s, target) == Some(StoredIn(q, s[i], target));
    CoverIsCsum(q, s[i], target);
    CoverIsCsum(q, s[k], target);
    MineIsCsum(q, s[i]);
    MineIsCsum(q, s[k]);
  }

  lemma CoverIsCsum(q: Scheme, x: Item, target: nat)
    requires SchemeOk(q) && CoversAt(q, x, target)
    ensures IsCsum(x) && x.key.offset <= target < x.key.offset + Covered(q, x)
  {
  }

  /** Sector `k` of the data. */
  function Sector(q: Scheme, data: seq<byte>, k: nat): seq<byte>
    requires k * q.sector + q.sector <= |data|
  {
    data[k * q.sector..k * q.sector + q.sector]
  }

  ghost predicate Checked(q: Scheme, s: seq<Item>, logical: nat, k: nat)
    requires SchemeOk(q)
  {
    Lookup(q, s, logical + k * q.sector).Some?
  }

  /** Sector `k` has a checksum, and it is not that of the data. */
  ghost predicate Bad(q: Scheme, s: seq<Item>, logical: nat, data: seq<byte>, k: nat)
    requires SchemeOk(q) && k * q.sector + q.sector <= |data|
  {
    Checked(q, s, logical, k) && !q.matches(Lookup(q, s, logical + k * q.sector).value, Sector(q, data, k))
  }

  /** How many of the first `n` sectors have no checksum. */
  ghost function Unchecked(q: Scheme, s: seq<Item>, logical: nat, n: nat): nat
    requires SchemeOk(q)
  {
    if n == 0 then 0 else Unchecked(q, s, logical, n - 1) + (if Checked(q, s, logical, n - 1) then 0 else 1)
  }

  lemma NoneCovers(q: Scheme, s: seq<Item>, c: nat, target: nat)
    requires SchemeOk(q) && Passed(Sums(q), s, c, target) && Beyond(Sums(q), s, c, target + 1)
    ensures Lookup(q, s, target).None?
  {
    hide Covered;
    forall i | 0 <= i < |s| ensures !CoversAt(q, s[i], target) {
      MineIsCsum(q, s[i]);
      assert i >= c && IsCsum(s[i]) ==> s[i].key.offset >= target + 1;
    }
  }

  lemma MineIsCsum(q: Scheme, x: Item)
    requires SchemeOk(q)
    ensures Mine(Sums(q), x) == IsCsum(x) && Sums(q).end(x) == x.key.offset + Covered(q, x)
  {
  }

  /** Step forward to the item that could cover `target`, and give its checksum
      for it if it does. */
  method Find(q: Scheme, c: Cursor, target: nat) returns (stored: Option<seq<byte>>)
    requires SchemeOk(q) && c.Ready() && c.path != [] && Apart(Sums(q), Flat(c.root))
    requires Passed(Sums(q), Flat(c.root), c.At(), target)
    modifies c
    ensures c.Ready() && c.path != [] && Passed(Sums(q), Flat(c.root), c.At(), target)
    ensures stored == Lookup(q, Flat(c.root), target)
  {
    hide Flat, WellFormed, Sorted, Apart, Rank, Passed, PathOk, Pos, AtItem, Less, Lookup, Covered, StoredIn, Beyond;
    ghost var s := Flat(c.root);
    ReadySorted(c);
    c.ReadyMeans();
    while c.Valid()
      invariant c.path != [] && Walking(Sums(q), c, s, target)
      decreases |s| - c.At()
    {
      var key := c.Key();
      ghost var at := c.At();
      if key.objectid != EXTENT_CSUM_OBJECTID || key.itemType != EXTENT_CSUM_KEY {
        if Less(key, Key(EXTENT_CSUM_OBJECTID, EXTENT_CSUM_KEY, 0)) {
          StepOver(Sums(q), c, s, target);
          continue;
        }
        BeyondRun(Sums(q), s, at, target + 1);
        NoneCovers(q, s, at, target);
        return None;
      }
      var data := c.Data();
      var x := Item(key, data);
      if key.offset + Covered(q, x) <= target {
        StepOver(Sums(q), c, s, target);
        continue;
      }
      if key.offset > target {
        BeyondFrom(Sums(q), s, at, target + 1);
        NoneCovers(q, s, at, target);
        return None;
      }
      LookupIs(q, s, target, at);
      return Some(StoredIn(q, x, target));
    }
    AllPassed(q, s, target);
    return None;
  }

  lemma ReadySorted(c: Cursor)
    requires c.Ready()
    ensures Sorted(Flat(c.root))
  {
    TreeSorted(c.root);
  }

  lemma AllPassed(q: Scheme, s: seq<Item>, target: nat)
    requires SchemeOk(q) && Passed(Sums(q), s, |s|, target)
    ensures Lookup(q, s, target).None?
  {
    BeyondEnd(Sums(q), s, |s|, target + 1);
    NoneCovers(q, s, |s|, target);
  }

  /** `verify_data` agrees with looking every sector up on its own, in every
      tree that has a key at or below the first sector; in any other it reports
      every sector as unchecked. */
  method VerifyData(q: Scheme, root: Option<Tree>, logical: nat, data: seq<byte>) returns (r: Outcome)
    requires SchemeOk(q) && logical < U64_LIMIT
    requires root.Some? ==> WellFormed(root.value) && Apart(Sums(q), Flat(root.value))
    ensures root.None? ==> r == Fine(NoChecksumTree)
    ensures root.Some? ==> (r == Misaligned <==> logical % q.sector != 0 || |data| % q.sector != 0) && r != Corrupt
    ensures root.Some? && r != Misaligned && !Reachable(Sums(q), root.value, logical) ==>
      r == Fine(if |data| < q.sector then All else Partial(|data| / q.sector))
    ensures root.Some? && r != Misaligned && Reachable(Sums(q), root.value, logical) ==>
      var n := |data| / q.sector;
      && Whole(q, data, n)
      && (r == Mismatch <==> exists k :: 0 <= k < n && Bad(q, Flat(root.value), logical, data, k))
      && (r != Mismatch ==>
            var missing := Unchecked(q, Flat(root.value), logical, n);
            r == Fine(if missing == 0 then All else Partial(missing)))
  {
    hide Flat, WellFormed, Sorted, Apart, Rank, Passed, PathOk, Pos, AtItem, Lookup, Covered, UpTo, Below, Bad, Sector;
    if root.None? {
      return Fine(NoChecksumTree);
    }
    if logical % q.sector != 0 || |data| % q.sector != 0 {
      return Misaligned;
    }
    ghost var s := Flat(root.value);
    TreeSorted(root.value);
    var found := SearchLe(root.value, Key(EXTENT_CSUM_OBJECTID, EXTENT_CSUM_KEY, logical));
    var c := found.value;
    var n := |data| / q.sector;
    WholeSectors(q, data);
    if !c.Valid() {
      // A cursor before the first item stays there: no sector is ever found.
      SomeSectors(|data|, q.sector);
      return Fine(if n == 0 then All else Partial(n));
    }
    StartPassed(Sums(q), s, logical);
    var missing := 0;
    for k := 0 to n
      invariant c.Ready() && c.path != [] && c.root == root.value && Passed(Sums(q), s, c.At(), logical + k * q.sector)
      invariant missing == Unchecked(q, s, logical, k)
      invariant forall j :: 0 <= j < k ==> !Bad(q, s, logical, data, j)
      modifies c
    {
      var stored := Find(q, c, logical + k * q.sector);
      SectorAt(q, data, n, k);
      if stored.None? {
        missing := missing + 1;
        NotBad(q, s, logical, data, k);
      } else if !q.matches(stored.value, Sector(q, data, k)) {
        IsBad(q, s, logical, data, k);
        return Mismatch;
      } else {
        IsGood(q, s, logical, data, k);
      }
      Steps(k, k + 1, q.sector);
      PassedLater(Sums(q), s, c.At(), logical + k * q.sector, logical + (k + 1) * q.sector);
    }
    r := Fine(if missing == 0 then All else Partial(missing));
  }

  /** Every one of `n` sectors is in the data. */
  ghost predicate Whole(q: Scheme, data: seq<byte>, n: nat) {
    forall k :: 0 <= k < n ==> k * q.sector + q.sector <= |data|
  }

  lemma WholeSectors(q: Scheme, data: seq<byte>)
    requires SchemeOk(q) && |data| % q.sector == 0
    ensures Whole(q, data, |data| / q.sector)
  {
    var n := |data| / q.sector;
    assert |data| == n * q.sector;
    forall k | 0 <= k < n ensures k * q.sector + q.sector <= |data| { Steps(k, n, q.sector); }
  }

  lemma SomeSectors(n: nat, sector: nat)
    requires 0 < sector
    ensures n / sector == 0 <==> n < sector
  {
    assert n == n / sector * sector + n % sector;
    if n / sector > 0 { MulMono(1, n / sector, sector); }
  }

  lemma SectorAt(q: Scheme, data: seq<byte>, n: nat, k: nat)
    requires Whole(q, data, n) && k < n
    ensures k * q.sector + q.sector <= |data|
  {
  }

  lemma NotBad(q: Scheme, s: seq<Item>, logical: nat, data: seq<byte>, k: nat)
    requires SchemeOk(q) && k * q.sector + q.sector <= |data| && Lookup(q, s, logical + k * q.sector).None?
    ensures !Bad(q, s, logical, data, k)
  {
  }

  lemma IsBad(q: Scheme, s: seq<Item>, logical: nat, data: seq<byte>, k: nat)
    requires SchemeOk(q) && k * q.sector + q.sector <= |data| && Lookup(q, s, logical + k * q.sector).Some?
    requires !q.matches(Lookup(q, s, logical + k * q.sector).value, Sector(q, data, k))
    ensures Bad(q, s, logical, data, k)
  {
  }

  lemma IsGood(q: Scheme, s: seq<Item>, logical: nat, data: seq<byte>, k: nat)
    requires SchemeOk(q) && k * q.sector + q.sector <= |data| && Lookup(q, s, logical + k * q.sector).Some?
    requires q.matches(Lookup(q, s, logical + k * q.sector).value, Sector(q, data, k))
    ensures !Bad(q, s, logical, data, k)
  {
  }
}
