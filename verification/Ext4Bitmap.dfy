/** Block bitmaps as the allocator changes them: which cells a plan sets or
    clears, and how many free cells that leaves in each group. */
module Ext4Bitmap {
  import opened Arith
  import opened Bytes
  import opened Extents
  import opened Ext4Disk
  import opened Ext4Steps

  /** Free cells below `n`. */
  function Zeros(bm: seq<bool>, n: nat): (z: nat)
    requires n <= |bm|
    ensures z <= n
  {
    if n == 0 then 0 else Zeros(bm, n - 1) + (if bm[n - 1] then 0 else 1)
  }

  lemma ZerosUpdate(bm: seq<bool>, n: nat, k: nat, v: bool)
    requires n <= |bm| && k < |bm| && bm[k] != v
    ensures Zeros(bm[k := v], n) == Zeros(bm, n) + (if k < n then (if v then -1 else 1) else 0)
  {
    if n > 0 { ZerosUpdate(bm, n - 1, k, v); }
  }

  lemma ZerosFull(bm: seq<bool>, n: nat)
    requires n <= |bm| && forall k :: 0 <= k < n ==> bm[k]
    ensures Zeros(bm, n) == 0
  {
  }

  lemma ZerosSome(bm: seq<bool>, n: nat, k: nat)
    requires k < n <= |bm| && !bm[k]
    ensures Zeros(bm, n) > 0
  {
  }

  /** The first free cell at or after `from` and below `limit`, or `limit`. */
  function FirstZero(bm: seq<bool>, from: nat, limit: nat): (k: nat)
    requires limit <= |bm|
    ensures from < limit ==> from <= k <= limit
    ensures k < limit ==> from <= k && !bm[k]
    ensures forall j :: from <= j < k && j < limit ==> bm[j]
    decreases limit - from
  {
    if from >= limit then limit else if !bm[from] then from else FirstZero(bm, from + 1, limit)
  }

  // ----- marking and clearing -----

  ghost predicate Shaped(geo: Geo, m: Bitmaps) {
    |m| == geo.groups && forall g :: 0 <= g < |m| ==> |m[g]| == geo.per
  }

  /** `after` is `before` with exactly the blocks of `s` set. */
  ghost predicate Marked(geo: Geo, before: Bitmaps, after: Bitmaps, s: seq<nat>) {
    && Shaped(geo, before) && Shaped(geo, after)
    && forall g, k :: 0 <= g < geo.groups && 0 <= k < geo.per ==>
         after[g][k] == (before[g][k] || At(geo, g, k) in s)
  }

  /** `after` is `before` with exactly the blocks of `s` cleared. */
  ghost predicate Cleared(geo: Geo, before: Bitmaps, after: Bitmaps, s: seq<nat>) {
    && Shaped(geo, before) && Shaped(geo, after)
    && forall g, k :: 0 <= g < geo.groups && 0 <= k < geo.per ==>
         after[g][k] == (before[g][k] && At(geo, g, k) !in s)
  }

  ghost predicate AllFree(geo: Geo, m: Bitmaps, s: seq<nat>)
    requires GeoOk(geo)
  {
    forall b :: b in s ==> ValidBlock(geo, b) && !BUsed(geo, m, b)
  }

  ghost predicate AllUsed(geo: Geo, m: Bitmaps, s: seq<nat>)
    requires GeoOk(geo)
  {
    forall b :: b in s ==> BUsed(geo, m, b)
  }

  lemma CellUsed(geo: Geo, m: Bitmaps, g: nat, k: nat)
    requires GeoOk(geo) && Shaped(geo, m) && g < geo.groups && k < geo.per
    ensures BUsed(geo, m, At(geo, g, k)) <==> m[g][k] && k < BlocksIn(geo, g)
  {
    CellOfBlock(geo, g, k);
  }

  lemma UsedCell(geo: Geo, m: Bitmaps, b: nat)
    requires GeoOk(geo) && Shaped(geo, m) && ValidBlock(geo, b)
    ensures GroupOf(geo, b) < geo.groups && BitOf(geo, b) < BlocksIn(geo, GroupOf(geo, b))
    ensures At(geo, GroupOf(geo, b), BitOf(geo, b)) == b
    ensures BUsed(geo, m, b) <==> m[GroupOf(geo, b)][BitOf(geo, b)]
  {
    BlockOfCell(geo, b);
  }

  lemma MarkedUsed(geo: Geo, before: Bitmaps, after: Bitmaps, s: seq<nat>)
    requires GeoOk(geo) && Marked(geo, before, after, s)
    ensures forall b :: BUsed(geo, after, b) <==> BUsed(geo, before, b) || (ValidBlock(geo, b) && b in s)
  {
    forall b | ValidBlock(geo, b)
      ensures BUsed(geo, after, b) <==> BUsed(geo, before, b) || b in s
    {
      UsedCell(geo, before, b);
      UsedCell(geo, after, b);
    }
  }

  lemma ClearedUsed(geo: Geo, before: Bitmaps, after: Bitmaps, s: seq<nat>)
    requires GeoOk(geo) && Cleared(geo, before, after, s)
    ensures forall b :: BUsed(geo, after, b) <==> BUsed(geo, before, b) && b !in s
  {
    forall b | ValidBlock(geo, b)
      ensures BUsed(geo, after, b) <==> BUsed(geo, before, b) && b !in s
    {
      UsedCell(geo, before, b);
      UsedCell(geo, after, b);
    }
  }

  /** Freeing what an allocation took restores the bitmaps bit for bit. */
  lemma MarkThenClear(geo: Geo, m0: Bitmaps, m1: Bitmaps, m2: Bitmaps, s: seq<nat>)
    requires GeoOk(geo) && AllFree(geo, m0, s) && Marked(geo, m0, m1, s) && Cleared(geo, m1, m2, s)
    ensures m2 == m0
  {
    forall g | 0 <= g < geo.groups ensures m2[g] == m0[g] {
      forall k | 0 <= k < geo.per ensures m2[g][k] == m0[g][k] {
        CellUsed(geo, m0, g, k);
        CellOfBlock(geo, g, k);
      }
    }
  }

  lemma MarkedTwice(geo: Geo, m0: Bitmaps, m1: Bitmaps, m2: Bitmaps, s: seq<nat>, t: seq<nat>)
    requires Marked(geo, m0, m1, s) && Marked(geo, m1, m2, t)
    ensures Marked(geo, m0, m2, s + t)
  {
  }

  lemma ClearedTwice(geo: Geo, m0: Bitmaps, m1: Bitmaps, m2: Bitmaps, s: seq<nat>, t: seq<nat>)
    requires Cleared(geo, m0, m1, s) && Cleared(geo, m1, m2, t)
    ensures Cleared(geo, m0, m2, s + t)
  {
  }

  // ----- plans -----

  /** A group's pending bitmap and how many cells of it change. */
  datatype PlanEntry = PlanEntry(g: nat, bm: seq<bool>, n: nat)

  /** The plan holds exactly the groups where `view` differs from `now`. */
  ghost predicate PlanOf(geo: Geo, now: Bitmaps, view: Bitmaps, plan: seq<PlanEntry>) {
    && Shaped(geo, now) && Shaped(geo, view)
    && (forall k :: 0 <= k < |plan| ==> plan[k].g < geo.groups && plan[k].bm == view[plan[k].g])
    && (forall j, k :: 0 <= j < k < |plan| ==> plan[j].g != plan[k].g)
    && (forall g :: 0 <= g < geo.groups && !InPlan(plan, g) ==> view[g] == now[g])
  }

  function FreeIn(geo: Geo, m: Bitmaps, g: nat): nat
    requires GeoOk(geo) && g < geo.groups && g < |m| && |m[g]| == geo.per
  {
    Zeros(m[g], BlocksIn(geo, g))
  }

  ghost predicate PlanTakes(geo: Geo, now: Bitmaps, view: Bitmaps, plan: seq<PlanEntry>)
    requires GeoOk(geo) && PlanOf(geo, now, view, plan)
  {
    forall k :: 0 <= k < |plan| ==> plan[k].n + FreeIn(geo, view, plan[k].g) == FreeIn(geo, now, plan[k].g)
  }

  ghost predicate PlanGives(geo: Geo, now: Bitmaps, view: Bitmaps, plan: seq<PlanEntry>)
    requires GeoOk(geo) && PlanOf(geo, now, view, plan)
  {
    forall k :: 0 <= k < |plan| ==> plan[k].n + FreeIn(geo, now, plan[k].g) == FreeIn(geo, view, plan[k].g)
  }

  function PlanTotal(plan: seq<PlanEntry>): nat {
    if plan == [] then 0 else PlanTotal(plan[..|plan| - 1]) + plan[|plan| - 1].n
  }

  // ----- claiming -----

  /** Extents that could not have been merged. */
  ghost predicate Maximal(out: seq<Extent>) {
    && (forall i :: 0 <= i < |out| ==> out[i].len > 0)
    && (forall i :: 0 <= i < |out| - 1 ==> out[i].physical + out[i].len != out[i + 1].physical)
  }

  /** `view` is `now` with the blocks of `out` claimed, none of them twice and
      none of them previously in use. */
  ghost predicate Claimed(geo: Geo, now: Bitmaps, view: Bitmaps, out: seq<Extent>)
    requires GeoOk(geo)
  {
    && Marked(geo, now, view, Flat(out)) && AllFree(geo, now, Flat(out)) && NoDup(Flat(out)) && Maximal(out)
  }

  function Claim(out: seq<Extent>, block: nat): seq<Extent> {
    if out != [] && out[|out| - 1].physical + out[|out| - 1].len == block
    then out[..|out| - 1] + [Extent(out[|out| - 1].physical, out[|out| - 1].len + 1)]
    else out + [Extent(block, 1)]
  }

  lemma ClaimFlat(out: seq<Extent>, block: nat)
    requires Maximal(out)
    ensures Flat(Claim(out, block)) == Flat(out) + [block] && Maximal(Claim(out, block))
  {
    ClaimAppends(out, block);
    hide Flat;
  }

  lemma ClaimAppends(out: seq<Extent>, block: nat)
    ensures Flat(Claim(out, block)) == Flat(out) + [block]
  {
    hide Flat, Span;
    if out != [] && out[|out| - 1].physical + out[|out| - 1].len == block {
      assert out == out[..|out| - 1] + [out[|out| - 1]];
      FlatGrow(out[..|out| - 1], out[|out| - 1]);
    } else {
      FlatPush(out, Extent(block, 1));
      assert Span(block, 1) == [block];
    }
  }

  lemma ClaimCell(geo: Geo, now: Bitmaps, view: Bitmaps, out: seq<Extent>, g: nat, k: nat)
    requires GeoOk(geo) && Claimed(geo, now, view, out)
    requires g < geo.groups && k < BlocksIn(geo, g) && !view[g][k]
    ensures Claimed(geo, now, view[g := view[g][k := true]], Claim(out, At(geo, g, k)))
  {
    var b := At(geo, g, k);
    ClaimFlat(out, b);
    CellUsed(geo, now, g, k);
    CellOfBlock(geo, g, k);
    assert b !in Flat(out);
    ClaimMark(geo, now, view, Flat(out), g, k);
    hide Maximal, Marked, Flat, At, BlocksIn, BUsed, GeoOk, Claim, ValidBlock;
    var s, t := Flat(out), Flat(out) + [b];
    assert NoDup(t);
    assert AllFree(geo, now, t);
  }

  lemma ClaimMark(geo: Geo, now: Bitmaps, view: Bitmaps, s: seq<nat>, g: nat, k: nat)
    requires GeoOk(geo) && Marked(geo, now, view, s) && g < geo.groups && k < geo.per
    ensures Marked(geo, now, view[g := view[g][k := true]], s + [At(geo, g, k)])
  {
    var view' := view[g := view[g][k := true]];
    CellOfBlock(geo, g, k);
    forall g', k' | 0 <= g' < geo.groups && 0 <= k' < geo.per
      ensures view'[g'][k'] == (now[g'][k'] || At(geo, g', k') in s + [At(geo, g, k)])
    {
      CellOfBlock(geo, g', k');
    }
  }

  // ----- releasing -----

  lemma ReleaseCell(geo: Geo, now: Bitmaps, view: Bitmaps, s: seq<nat>, b: nat)
    requires GeoOk(geo) && Cleared(geo, now, view, s) && ValidBlock(geo, b)
    ensures GroupOf(geo, b) < geo.groups && BitOf(geo, b) < BlocksIn(geo, GroupOf(geo, b))
    ensures Cleared(geo, now, view[GroupOf(geo, b) := view[GroupOf(geo, b)][BitOf(geo, b) := false]], s + [b])
    ensures view[GroupOf(geo, b)][BitOf(geo, b)] <==> BUsed(geo, now, b) && b !in s
  {
    var g, k := GroupOf(geo, b), BitOf(geo, b);
    UsedCell(geo, now, b);
    var view' := view[g := view[g][k := false]];
    forall g', k' | 0 <= g' < geo.groups && 0 <= k' < geo.per
      ensures view'[g'][k'] == (now[g'][k'] && At(geo, g', k') !in s + [b])
    {
      CellOfBlock(geo, g', k');
    }
  }

  // ----- supply -----

  /** Blocks the allocator may take from a group: never more than its
      descriptor says are free, never more than its bitmap has. */
  function Supply(geo: Geo, groups: seq<GroupDesc>, m: Bitmaps, g: nat): nat
    requires GeoOk(geo) && g < geo.groups == |groups| && g < |m| && |m[g]| == geo.per
  {
    Min(groups[g].freeBlocks, FreeIn(geo, m, g))
  }

  ghost predicate SupplyOk(geo: Geo, groups: seq<GroupDesc>, m: Bitmaps) {
    GeoOk(geo) && |groups| == geo.groups && Shaped(geo, m)
  }

  function Wrap(x: nat, n: nat): (w: nat)
    requires 0 < n
    ensures w < n
    ensures x < n ==> w == x
    ensures n <= x < 2 * n ==> w == x - n
  {
    assert n <= x < 2 * n ==> x % n == x - n by {
      if n <= x < 2 * n { DivModUnique(1, x - n, n); }
    }
    x % n
  }

  /** Supply of the `n` groups searched from `start`, wrapping around. */
  ghost function SupplyFrom(geo: Geo, groups: seq<GroupDesc>, m: Bitmaps, start: nat, n: nat): nat
    requires SupplyOk(geo, groups, m)
  {
    if n == 0 then 0
    else SupplyFrom(geo, groups, m, start, n - 1) + Supply(geo, groups, m, Wrap(start + n - 1, geo.groups))
  }

  lemma {:induction false} Rotate(geo: Geo, groups: seq<GroupDesc>, m: Bitmaps, start: nat, n: nat)
    requires SupplyOk(geo, groups, m) && start < geo.groups && n <= geo.groups
    ensures start + n <= geo.groups ==>
      SupplyFrom(geo, groups, m, 0, start) + SupplyFrom(geo, groups, m, start, n)
      == SupplyFrom(geo, groups, m, 0, start + n)
    ensures start + n > geo.groups ==>
      SupplyFrom(geo, groups, m, start, n)
      == SupplyFrom(geo, groups, m, 0, geo.groups) - SupplyFrom(geo, groups, m, 0, start)
         + SupplyFrom(geo, groups, m, 0, start + n - geo.groups)
  {
    hide Supply, GeoOk, Shaped, Wrap;
    if n > 0 {
      Rotate(geo, groups, m, start, n - 1);
      assert Wrap(start + n - 1, geo.groups)
          == if start + n <= geo.groups then start + n - 1 else start + n - geo.groups - 1;
    }
  }

  /** Where the search starts does not change what it can find. */
  lemma SupplyAnyStart(geo: Geo, groups: seq<GroupDesc>, m: Bitmaps, start: nat)
    requires SupplyOk(geo, groups, m) && start < geo.groups
    ensures SupplyFrom(geo, groups, m, start, geo.groups) == SupplyFrom(geo, groups, m, 0, geo.groups)
  {
    Rotate(geo, groups, m, start, geo.groups);
  }

  lemma RotationDistinct(start: nat, a: nat, b: nat, n: nat)
    requires a < b < n && start < n
    ensures Wrap(start + a, n) != Wrap(start + b, n)
  {
    hide Wrap;
  }

  // ----- the choice -----

  /** The free cells below `n`, lowest first. */
  function FreeCells(bm: seq<bool>, n: nat): (s: seq<nat>)
    requires n <= |bm|
    ensures |s| == Zeros(bm, n)
  {
    if n == 0 then [] else FreeCells(bm, n - 1) + (if bm[n - 1] then [] else [n - 1])
  }

  function BlocksAt(geo: Geo, g: nat, cells: seq<nat>): (s: seq<nat>)
    ensures |s| == |cells|
  {
    seq(|cells|, i requires 0 <= i < |cells| => At(geo, g, cells[i]))
  }

  /** The first `k` free blocks of a group, or all of them. */
  function LowestFree(geo: Geo, m: Bitmaps, g: nat, k: nat): (s: seq<nat>)
    requires GeoOk(geo) && g < geo.groups && g < |m| && |m[g]| == geo.per
    ensures |s| == Min(k, FreeIn(geo, m, g))
  {
    BlocksAt(geo, g, FreeCells(m[g], BlocksIn(geo, g))[..Min(k, FreeIn(geo, m, g))])
  }

  /** The blocks chosen from the `n` groups searched from `start`, no more than
      `count`: of each group as many as its descriptor admits, lowest first. */
  ghost function Choice(geo: Geo, groups: seq<GroupDesc>, m: Bitmaps, start: nat, n: nat, count: nat): (s: seq<nat>)
    requires SupplyOk(geo, groups, m)
    ensures |s| <= count
  {
    if n == 0 then []
    else
      var s, g := Choice(geo, groups, m, start, n - 1, count), Wrap(start + n - 1, geo.groups);
      s + LowestFree(geo, m, g, Min(groups[g].freeBlocks, count - |s|))
  }

  /** The group a search near `goal` starts with. */
  function StartOf(geo: Geo, goal: nat): (g: nat)
    requires GeoOk(geo)
    ensures g < geo.groups
  {
    if goal >= geo.first then Min(GroupOf(geo, goal), geo.groups - 1) else 0
  }

  /** Blocks claimed one by one, neighbours merged. */
  function ClaimAll(out: seq<Extent>, s: seq<nat>): seq<Extent> {
    if s == [] then out else Claim(ClaimAll(out, s[..|s| - 1]), s[|s| - 1])
  }

  /** The extents an allocation of `count` blocks near `goal` gives. */
  ghost function Allotted(geo: Geo, groups: seq<GroupDesc>, m: Bitmaps, goal: nat, count: nat): seq<Extent>
    requires SupplyOk(geo, groups, m)
  {
    ClaimAll([], Choice(geo, groups, m, StartOf(geo, goal), geo.groups, count))
  }

  lemma {:induction false} ClaimAllConcat(out: seq<Extent>, s: seq<nat>, t: seq<nat>)
    ensures ClaimAll(out, s + t) == ClaimAll(ClaimAll(out, s), t)
  {
    if t == [] {
      assert s + t == s;
    } else {
      ClaimAllConcat(out, s, t[..|t| - 1]);
      assert (s + t)[..|s + t| - 1] == s + t[..|t| - 1];
    }
  }

  /** Claiming the next free cell at or after `c`. */
  lemma {:induction false} FreeNext(bm: seq<bool>, c: nat, k: nat)
    requires c <= k <= |bm| && forall j :: c <= j < k ==> bm[j]
    ensures FreeCells(bm, k) == FreeCells(bm, c)
  {
    if c < k { FreeNext(bm, c, k - 1); }
  }

  lemma {:induction false} FreePrefix(bm: seq<bool>, c: nat, n: nat)
    requires c <= n <= |bm|
    ensures FreeCells(bm, c) <= FreeCells(bm, n)
  {
    if c < n { FreePrefix(bm, c, n - 1); }
  }

  lemma BlocksPush(geo: Geo, g: nat, cells: seq<nat>, k: nat)
    ensures BlocksAt(geo, g, cells + [k]) == BlocksAt(geo, g, cells) + [At(geo, g, k)]
  {
  }

  /** Enough is chosen: further groups add nothing. */
  lemma {:induction false} ChoiceDone(geo: Geo, groups: seq<GroupDesc>, m: Bitmaps, start: nat, n: nat, n': nat,
      count: nat)
    requires SupplyOk(geo, groups, m) && n <= n' && |Choice(geo, groups, m, start, n, count)| == count
    ensures Choice(geo, groups, m, start, n', count) == Choice(geo, groups, m, start, n, count)
    decreases n'
  {
    hide LowestFree, Shaped, GeoOk, Wrap;
    if n < n' { ChoiceDone(geo, groups, m, start, n, n' - 1, count); }
  }

  lemma ChoiceStart(geo: Geo, groups: seq<GroupDesc>, m: Bitmaps, start: nat, count: nat)
    requires SupplyOk(geo, groups, m)
    ensures Choice(geo, groups, m, start, 0, count) == [] && ClaimAll([], []) == []
  {
  }

  /** What the next group adds. */
  lemma ChoiceNext(geo: Geo, groups: seq<GroupDesc>, m: Bitmaps, start: nat, n: nat, count: nat)
    requires SupplyOk(geo, groups, m)
    ensures
      var s, g := Choice(geo, groups, m, start, n, count), Wrap(start + n, geo.groups);
      && Choice(geo, groups, m, start, n + 1, count)
         == s + LowestFree(geo, m, g, Min(groups[g].freeBlocks, count - |s|))
      && (groups[g].freeBlocks == 0 ==> Choice(geo, groups, m, start, n + 1, count) == s)
  {
    hide Shaped, GeoOk, Wrap, FreeCells;
  }

  /** Nothing is chosen for an empty request. */
  lemma {:induction false} ChoiceNone(geo: Geo, groups: seq<GroupDesc>, m: Bitmaps, start: nat, n: nat)
    requires SupplyOk(geo, groups, m)
    ensures Choice(geo, groups, m, start, n, 0) == []
  {
  }

  // ----- committing -----

  /** Every cell set in `floor` is set in `m`. */
  ghost predicate Covers(geo: Geo, m: Bitmaps, floor: Bitmaps) {
    && Shaped(geo, m) && Shaped(geo, floor)
    && forall g, k :: 0 <= g < geo.groups && 0 <= k < geo.per && floor[g][k] ==> m[g][k]
  }

  /** Bitmap before descriptor for every group, superblock last. */
  ghost predicate CommitOrdered(ws: seq<Write>) {
    && |ws| % 2 == 1 && ws[|ws| - 1].WSuper? && CommitPairs(ws[..|ws| - 1])
  }

  ghost predicate CommitPairs(ws: seq<Write>) {
    && |ws| % 2 == 0
    && forall k :: 0 <= k < |ws| / 2 ==>
         ws[2 * k].WBlockBitmap? && ws[2 * k + 1].WGroupDesc? && ws[2 * k].g == ws[2 * k + 1].g
  }

  lemma CommitNone()
    ensures CommitPairs([])
  {
  }

  lemma CommitPairsPush(ws: seq<Write>, g: nat, bm: seq<bool>, desc: GroupDesc)
    requires CommitPairs(ws)
    ensures CommitPairs(ws + [WBlockBitmap(g, bm)] + [WGroupDesc(g, desc)])
  {
    var r := ws + [WBlockBitmap(g, bm)] + [WGroupDesc(g, desc)];
    forall k | 0 <= k < |r| / 2
      ensures r[2 * k].WBlockBitmap? && r[2 * k + 1].WGroupDesc? && r[2 * k].g == r[2 * k + 1].g
    {
      if k < |ws| / 2 {
        assert r[2 * k] == ws[2 * k] && r[2 * k + 1] == ws[2 * k + 1];
      }
    }
  }

  lemma CommitSeal(ws: seq<Write>, w: Write)
    requires CommitPairs(ws) && w.WSuper?
    ensures CommitOrdered(ws + [w])
  {
    assert (ws + [w])[..|ws|] == ws;
  }

  /** In every prefix of a commit, a group's descriptor is new only if its
      bitmap is, and the superblock is new only if every group is. */
  lemma CommitPrefix(ws: seq<Write>, cut: nat, j: nat)
    requires CommitOrdered(ws) && j < cut <= |ws|
    ensures ws[j].WGroupDesc? ==> exists i :: 0 <= i < j && ws[i].WBlockBitmap? && ws[i].g == ws[j].g
    ensures ws[j].WSuper? ==> cut == |ws|
  {
    var ps := ws[..|ws| - 1];
    if j < |ps| {
      var k := j / 2;
      assert ps[2 * k] == ws[2 * k] && ps[2 * k + 1] == ws[2 * k + 1];
      assert ps[2 * k].WBlockBitmap? && ps[2 * k + 1].WGroupDesc?;
      assert j == 2 * k || j == 2 * k + 1;
    }
  }

  function SatSub(a: nat, b: nat): nat { if a < b then 0 else a - b }

  ghost predicate InPlan(plan: seq<PlanEntry>, g: nat) {
    exists j :: 0 <= j < |plan| && plan[j].g == g
  }

  /** The bitmaps once the plan is written. */
  ghost function Install(m: Bitmaps, plan: seq<PlanEntry>): (r: Bitmaps)
    requires forall j :: 0 <= j < |plan| ==> plan[j].g < |m|
    ensures |r| == |m|
  {
    if plan == [] then m
    else Install(m, plan[..|plan| - 1])[plan[|plan| - 1].g := plan[|plan| - 1].bm]
  }

  /** The group descriptors once the plan is committed. */
  ghost function Adjust(groups: seq<GroupDesc>, plan: seq<PlanEntry>, give: bool): (r: seq<GroupDesc>)
    requires forall j :: 0 <= j < |plan| ==> plan[j].g < |groups|
    ensures |r| == |groups|
  {
    if plan == [] then groups
    else
      var before := Adjust(groups, plan[..|plan| - 1], give);
      var e := plan[|plan| - 1];
      before[e.g := AdjustOne(before[e.g], e.n, give)]
  }

  function AdjustOne(d: GroupDesc, n: nat, give: bool): GroupDesc {
    d.(freeBlocks := if give then d.freeBlocks + n else SatSub(d.freeBlocks, n), blockUninit := false)
  }

  lemma {:induction false} InstallAt(geo: Geo, now: Bitmaps, view: Bitmaps, plan: seq<PlanEntry>, k: nat)
    requires PlanOf(geo, now, view, plan) && k <= |plan|
    ensures Shaped(geo, Install(now, plan[..k]))
    ensures forall g :: 0 <= g < geo.groups ==>
      Install(now, plan[..k])[g] == if InPlan(plan[..k], g) then view[g] else now[g]
  {
    if k > 0 {
      InstallAt(geo, now, view, plan, k - 1);
      assert plan[..k][..k - 1] == plan[..k - 1];
      assert plan[..k][k - 1] == plan[k - 1];
      forall g | 0 <= g < geo.groups
        ensures InPlan(plan[..k], g) <==> InPlan(plan[..k - 1], g) || plan[k - 1].g == g
      {
        if InPlan(plan[..k - 1], g) {
          var j :| 0 <= j < k - 1 && plan[..k - 1][j].g == g;
          assert plan[..k][j].g == g;
        }
        if InPlan(plan[..k], g) {
          var j :| 0 <= j < k && plan[..k][j].g == g;
          assert j < k - 1 ==> plan[..k - 1][j].g == g;
        }
      }
    }
  }

  /** A partly committed plan still covers what both ends cover. */
  lemma InstallCovers(geo: Geo, now: Bitmaps, view: Bitmaps, plan: seq<PlanEntry>, k: nat, floor: Bitmaps)
    requires PlanOf(geo, now, view, plan) && k <= |plan| && Covers(geo, now, floor) && Covers(geo, view, floor)
    ensures Covers(geo, Install(now, plan[..k]), floor)
  {
    InstallAt(geo, now, view, plan, k);
  }

  lemma InstallDone(geo: Geo, now: Bitmaps, view: Bitmaps, plan: seq<PlanEntry>)
    requires PlanOf(geo, now, view, plan)
    ensures Install(now, plan) == view
  {
    assert plan[..|plan|] == plan;
    InstallAt(geo, now, view, plan, |plan|);
  }

  lemma {:induction false} AdjustAt(groups: seq<GroupDesc>, plan: seq<PlanEntry>, give: bool, g: nat)
    requires forall j :: 0 <= j < |plan| ==> plan[j].g < |groups|
    requires forall j, k :: 0 <= j < k < |plan| ==> plan[j].g != plan[k].g
    requires g < |groups|
    ensures InPlan(plan, g) ==>
      exists j ::
        && 0 <= j < |plan| && plan[j].g == g && Adjust(groups, plan, give)[g] == AdjustOne(groups[g], plan[j].n, give)
    ensures !InPlan(plan, g) ==> Adjust(groups, plan, give)[g] == groups[g]
  {
    if plan != [] {
      var p, e := plan[..|plan| - 1], plan[|plan| - 1];
      AdjustAt(groups, p, give, g);
      if InPlan(p, g) {
        var j :| 0 <= j < |p| && p[j].g == g && Adjust(groups, p, give)[g] == AdjustOne(groups[g], p[j].n, give);
        assert plan[j].g == g;
      } else if e.g == g {
        assert plan[|plan| - 1].g == g;
      } else {
        assert !InPlan(plan, g);
      }
    }
  }

  lemma CoversNamed(geo: Geo, d: Disk, m: Bitmaps, floor: Bitmaps)
    requires GeoOk(geo) && Covers(geo, m, floor) && NamedIn(geo, d, floor)
    ensures NamedIn(geo, d, m)
  {
    CoversUsed(geo, m, floor);
  }

  lemma CoversUsed(geo: Geo, m: Bitmaps, floor: Bitmaps)
    requires GeoOk(geo) && Covers(geo, m, floor)
    ensures forall b :: BUsed(geo, floor, b) ==> BUsed(geo, m, b)
  {
    forall b | BUsed(geo, floor, b) ensures BUsed(geo, m, b) {
      UsedCell(geo, m, b);
    }
  }

  // ----- planning an allocation: reads only -----

  /** Take up to `want` free blocks of group `g`, lowest first. */
  method ClaimGroup(geo: Geo, now: Bitmaps, g: nat, want: nat, before: seq<Extent>, ghost view: Bitmaps)
    returns (bm: seq<bool>, taken: nat, out: seq<Extent>)
    requires GeoOk(geo) && g < geo.groups && Claimed(geo, now, view, before)
    requires g < |now| && g < |view| && view[g] == now[g] && |now[g]| == geo.per
    ensures |bm| == geo.per && Claimed(geo, now, view[g := bm], out)
    ensures taken == Min(want, FreeIn(geo, now, g))
    ensures |Flat(out)| == |Flat(before)| + taken
    ensures taken + Zeros(bm, BlocksIn(geo, g)) == FreeIn(geo, now, g)
    ensures taken == 0 ==> bm == now[g] && out == before
    ensures out == ClaimAll(before, LowestFree(geo, now, g, want))
  {
    hide Claimed, Flat, Zeros, BlocksIn, FirstZero, At, GeoOk, Claim, FreeCells, BlocksAt, ClaimAll, LowestFree;
    bm, taken, out := now[g], 0, before;
    CellsStart(geo, now, g, before);
    var limit := BlocksIn(geo, g);
    var cursor := 0;
    assert view[g := bm] == view;
    while taken < want
      invariant |bm| == geo.per && cursor <= limit && taken <= want
      invariant Claimed(geo, now, view[g := bm], out)
      invariant |Flat(out)| == |Flat(before)| + taken
      invariant taken + Zeros(bm, limit) == FreeIn(geo, now, g)
      invariant forall k :: 0 <= k < cursor ==> bm[k]
      invariant forall k :: cursor <= k < |bm| ==> bm[k] == now[g][k]
      invariant |FreeCells(now[g], cursor)| == taken
      invariant out == ClaimAll(before, BlocksAt(geo, g, FreeCells(now[g], cursor)))
      invariant taken == 0 ==> bm == now[g] && out == before
    {
      var bit := FirstZero(bm, cursor, limit);
      if bit >= limit {
        ZerosFull(bm, limit);
        FreeNext(now[g], cursor, limit);
        CellsFirst(geo, now, g, want, limit);
        return;
      }
      CellsNext(geo, now, g, before, cursor, bit);
      ZerosUpdate(bm, limit, bit, true);
      ZerosSome(bm, limit, bit);
      ClaimCell(geo, now, view[g := bm], out, g, bit);
      ClaimedGrow(geo, now, view[g := bm], out, At(geo, g, bit));
      assert view[g := bm][g := bm[bit := true]] == view[g := bm[bit := true]];
      bm := bm[bit := true];
      cursor := bit + 1;
      out := Claim(out, At(geo, g, bit));
      taken := taken + 1;
    }
    CellsFirst(geo, now, g, want, cursor);
  }

  lemma CellsStart(geo: Geo, now: Bitmaps, g: nat, before: seq<Extent>)
    requires g < |now|
    ensures FreeCells(now[g], 0) == [] && ClaimAll(before, BlocksAt(geo, g, [])) == before
  {
  }

  /** One more free cell is claimed. */
  lemma CellsNext(geo: Geo, now: Bitmaps, g: nat, before: seq<Extent>, cursor: nat, bit: nat)
    requires g < |now| && cursor <= bit < |now[g]| && !now[g][bit] && forall k :: cursor <= k < bit ==> now[g][k]
    ensures |FreeCells(now[g], bit + 1)| == |FreeCells(now[g], cursor)| + 1
    ensures
      ClaimAll(before, BlocksAt(geo, g, FreeCells(now[g], bit + 1)))
      == Claim(ClaimAll(before, BlocksAt(geo, g, FreeCells(now[g], cursor))), At(geo, g, bit))
  {
    FreeNext(now[g], cursor, bit);
    var cells := FreeCells(now[g], cursor);
    assert FreeCells(now[g], bit + 1) == cells + [bit];
    hide FreeCells, BlocksAt, Claim, At;
    BlocksPush(geo, g, cells, bit);
    var s := BlocksAt(geo, g, cells);
    assert (s + [At(geo, g, bit)])[..|s|] == s;
  }

  /** The cells claimed are the first free ones. */
  lemma CellsFirst(geo: Geo, now: Bitmaps, g: nat, want: nat, cursor: nat)
    requires GeoOk(geo) && g < geo.groups && g < |now| && |now[g]| == geo.per && cursor <= BlocksIn(geo, g) <= geo.per
    requires |FreeCells(now[g], cursor)| == Min(want, FreeIn(geo, now, g))
    ensures LowestFree(geo, now, g, want) == BlocksAt(geo, g, FreeCells(now[g], cursor))
  {
    hide Zeros, BlocksIn, At, GeoOk, FreeCells;
    var limit := BlocksIn(geo, g);
    FreePrefix(now[g], cursor, limit);
    assert FreeCells(now[g], limit)[..|FreeCells(now[g], cursor)|] == FreeCells(now[g], cursor);
  }

  lemma ClaimedGrow(geo: Geo, now: Bitmaps, view: Bitmaps, out: seq<Extent>, b: nat)
    requires GeoOk(geo) && Claimed(geo, now, view, out)
    ensures |Flat(Claim(out, b))| == |Flat(out)| + 1
  {
    hide Marked, AllFree, NoDup, Flat;
    ClaimFlat(out, b);
  }

  lemma {:induction false} SupplyMono(geo: Geo, groups: seq<GroupDesc>, m: Bitmaps, start: nat, a: nat, b: nat)
    requires SupplyOk(geo, groups, m) && a <= b
    ensures SupplyFrom(geo, groups, m, start, a) <= SupplyFrom(geo, groups, m, start, b)
  {
    if a < b {
      hide Supply, Shaped;
      SupplyMono(geo, groups, m, start, a, b - 1);
    }
  }

  lemma PlanPush(geo: Geo, now: Bitmaps, view: Bitmaps, plan: seq<PlanEntry>, e: PlanEntry)
    requires GeoOk(geo) && PlanOf(geo, now, view, plan) && PlanTakes(geo, now, view, plan)
    requires e.g < geo.groups && |e.bm| == geo.per && !InPlan(plan, e.g)
    requires e.n + Zeros(e.bm, BlocksIn(geo, e.g)) == FreeIn(geo, now, e.g)
    ensures PlanOf(geo, now, view[e.g := e.bm], plan + [e]) && PlanTakes(geo, now, view[e.g := e.bm], plan + [e])
    ensures PlanTotal(plan + [e]) == PlanTotal(plan) + e.n
  {
    hide Zeros, BlocksIn, GeoOk, InPlan;
    var plan', view' := plan + [e], view[e.g := e.bm];
    assert plan'[..|plan|] == plan;
    assert forall j :: 0 <= j < |plan| ==> plan'[j] == plan[j];
    InPlanPush(plan, e);
    assert PlanOf(geo, now, view', plan');
    hide PlanOf;
    assert forall j :: 0 <= j < |plan| ==> plan[j].g != e.g;
  }

  lemma InPlanPush(plan: seq<PlanEntry>, e: PlanEntry)
    requires !InPlan(plan, e.g)
    ensures forall g :: InPlan(plan + [e], g) <==> InPlan(plan, g) || g == e.g
    ensures forall j :: 0 <= j < |plan| ==> plan[j].g != e.g
  {
    var plan' := plan + [e];
    assert plan'[|plan|] == e;
    forall g | InPlan(plan, g) ensures InPlan(plan', g) {
      var j :| 0 <= j < |plan| && plan[j].g == g;
      assert plan'[j].g == g;
    }
  }

  /** Everything the plan phase of an allocation has established. */
  ghost predicate Planned(geo: Geo, groups: seq<GroupDesc>, now: Bitmaps, view: Bitmaps, out: seq<Extent>,
      plan: seq<PlanEntry>)
    requires GeoOk(geo)
  {
    && |groups| == geo.groups && Claimed(geo, now, view, out) && PlanOf(geo, now, view, plan)
    && PlanTakes(geo, now, view, plan)
    && PlanTotal(plan) == |Flat(out)|
    && forall k :: 0 <= k < |plan| ==> plan[k].n <= groups[plan[k].g].freeBlocks
  }

  /** The groups already planned are the ones searched so far. */
  ghost predicate Searched(plan: seq<PlanEntry>, at: seq<nat>, start: nat, n: nat, groups: nat)
    requires 0 < groups
  {
    |at| == |plan| && forall k :: 0 <= k < |plan| ==> at[k] < n && plan[k].g == Wrap(start + at[k], groups)
  }

  lemma SearchedFresh(plan: seq<PlanEntry>, at: seq<nat>, start: nat, n: nat, groups: nat)
    requires n < groups && start < groups && Searched(plan, at, start, n, groups)
    ensures !InPlan(plan, Wrap(start + n, groups))
  {
    forall k | 0 <= k < |plan| ensures plan[k].g != Wrap(start + n, groups) {
      RotationDistinct(start, at[k], n, groups);
    }
  }

  lemma PlannedNothing(geo: Geo, groups: seq<GroupDesc>, now: Bitmaps)
    requires SupplyOk(geo, groups, now)
    ensures Planned(geo, groups, now, now, [], []) && Flat([]) == []
  {
  }

  lemma PlannedView(geo: Geo, groups: seq<GroupDesc>, now: Bitmaps, view: Bitmaps, out: seq<Extent>,
      plan: seq<PlanEntry>, g: nat)
    requires GeoOk(geo) && Planned(geo, groups, now, view, out, plan) && g < geo.groups && !InPlan(plan, g)
    ensures |now| == |view| == geo.groups && view[g] == now[g] && |now[g]| == geo.per && Claimed(geo, now, view, out)
  {
  }

  lemma PlannedPush(geo: Geo, groups: seq<GroupDesc>, now: Bitmaps, view: Bitmaps, out: seq<Extent>,
      plan: seq<PlanEntry>,
                    e: PlanEntry, out': seq<Extent>)
    requires GeoOk(geo) && Planned(geo, groups, now, view, out, plan)
    requires e.g < geo.groups && |e.bm| == geo.per && !InPlan(plan, e.g) && e.n <= groups[e.g].freeBlocks
    requires e.g < |now| && |now[e.g]| == geo.per && e.n + Zeros(e.bm, BlocksIn(geo, e.g)) == FreeIn(geo, now, e.g)
    requires e.g < |view| && Claimed(geo, now, view[e.g := e.bm], out') && |Flat(out')| == |Flat(out)| + e.n
    ensures Planned(geo, groups, now, view[e.g := e.bm], out', plan + [e])
  {
    PlanPush(geo, now, view, plan, e);
    hide Claimed, PlanOf, PlanTakes, PlanTotal, Flat, GeoOk;
  }

  /** The plan phase of `alloc_blocks`: decide every block before anything is
      written. Refuses exactly when the groups cannot supply the request. */
  method PlanBlocks(geo: Geo, groups: seq<GroupDesc>, now: Bitmaps, goal: nat, count: nat)
    returns (r: Option<seq<Extent>>, plan: seq<PlanEntry>, ghost view: Bitmaps)
    requires SupplyOk(geo, groups, now)
    ensures r.None? <==> SupplyFrom(geo, groups, now, 0, geo.groups) < count
    ensures r.Some? ==> Planned(geo, groups, now, view, r.value, plan) && |Flat(r.value)| == count
    ensures r.Some? ==> r.value == Allotted(geo, groups, now, goal, count)
  {
    hide Planned, Claimed, Flat, Zeros, BlocksIn, Wrap, SupplyFrom, Searched, InPlan, Choice, LowestFree, ClaimAll;
    var start := if goal >= geo.first then Min(GroupOf(geo, goal), geo.groups - 1) else 0;
    assert start == StartOf(geo, goal);
    ChoiceStart(geo, groups, now, start, count);
    var out: seq<Extent> := [];
    ghost var at: seq<nat> := [];
    plan, view := [], now;
    PlannedNothing(geo, groups, now);
    SearchStart(geo, groups, now, start);
    var remaining, n := count, 0;
    while n < geo.groups && remaining > 0
      invariant n <= geo.groups && 0 <= remaining <= count && |Flat(out)| == count - remaining
      invariant Planned(geo, groups, now, view, out, plan)
      invariant Searched(plan, at, start, n, geo.groups)
      invariant count - remaining <= SupplyFrom(geo, groups, now, start, n)
      invariant remaining > 0 ==> count - remaining == SupplyFrom(geo, groups, now, start, n)
      invariant |Choice(geo, groups, now, start, n, count)| == count - remaining
      invariant out == ClaimAll([], Choice(geo, groups, now, start, n, count))
    {
      ChoiceNext(geo, groups, now, start, n, count);
      var g := Wrap(start + n, geo.groups);
      SearchNext(geo, groups, now, plan, at, start, n);
      if groups[g].freeBlocks > 0 {
        PlannedView(geo, groups, now, view, out, plan, g);
        var allowance := Min(groups[g].freeBlocks, remaining);
        var bm, taken, out' := ClaimGroup(geo, now, g, allowance, out, view);
        ClaimAllConcat([], Choice(geo, groups, now, start, n, count), LowestFree(geo, now, g, allowance));
        if taken > 0 {
          PlannedPush(geo, groups, now, view, out, plan, PlanEntry(g, bm, taken), out');
          SearchedPush(plan, at, start, n, geo.groups, PlanEntry(g, bm, taken));
          plan, at := plan + [PlanEntry(g, bm, taken)], at + [n];
          view := view[g := bm];
        }
        out := out';
        remaining := remaining - taken;
      }
      n := n + 1;
    }
    SupplyMono(geo, groups, now, start, n, geo.groups);
    SupplyAnyStart(geo, groups, now, start);
    if remaining == 0 { ChoiceDone(geo, groups, now, start, n, geo.groups, count); }
    r := if remaining > 0 then None else Some(out);
  }

  lemma SearchStart(geo: Geo, groups: seq<GroupDesc>, now: Bitmaps, start: nat)
    requires SupplyOk(geo, groups, now) && start < geo.groups
    ensures Searched([], [], start, 0, geo.groups) && SupplyFrom(geo, groups, now, start, 0) == 0
  {
  }

  lemma SearchNext(geo: Geo, groups: seq<GroupDesc>, now: Bitmaps, plan: seq<PlanEntry>, at: seq<nat>, start: nat,
      n: nat)
    requires SupplyOk(geo, groups, now) && start < geo.groups && n < geo.groups
    requires Searched(plan, at, start, n, geo.groups)
    ensures !InPlan(plan, Wrap(start + n, geo.groups)) && Searched(plan, at, start, n + 1, geo.groups)
    ensures SupplyFrom(geo, groups, now, start, n + 1)
         == SupplyFrom(geo, groups, now, start, n) + Supply(geo, groups, now, Wrap(start + n, geo.groups))
  {
    hide Wrap, Supply, Shaped;
    SearchedFresh(plan, at, start, n, geo.groups);
  }

  lemma SearchedPush(plan: seq<PlanEntry>, at: seq<nat>, start: nat, n: nat, groups: nat, e: PlanEntry)
    requires 0 < groups && Searched(plan, at, start, n + 1, groups) && e.g == Wrap(start + n, groups)
    ensures Searched(plan + [e], at + [n], start, n + 1, groups)
  {
    hide Wrap;
  }

  /** One group gave `t` blocks. */
  lemma {:induction false} SupplyLess(geo: Geo, g0: seq<GroupDesc>, m0: Bitmaps, g1: seq<GroupDesc>, m1: Bitmaps,
      x: nat, t: nat, n: nat)
    requires SupplyOk(geo, g0, m0) && SupplyOk(geo, g1, m1) && x < geo.groups && n <= geo.groups
    requires Supply(geo, g1, m1, x) + t == Supply(geo, g0, m0, x)
    requires forall g :: 0 <= g < geo.groups && g != x ==> g1[g] == g0[g] && m1[g] == m0[g]
    ensures SupplyFrom(geo, g1, m1, 0, n) + (if x < n then t else 0) == SupplyFrom(geo, g0, m0, 0, n)
  {
    if n > 0 {
      SupplyLess(geo, g0, m0, g1, m1, x, t, n - 1);
      hide Zeros, BlocksIn, GeoOk, Shaped, SupplyFrom;
      assert n - 1 != x ==> Supply(geo, g1, m1, n - 1) == Supply(geo, g0, m0, n - 1);
      SupplyStep(geo, g0, m0, n);
      SupplyStep(geo, g1, m1, n);
    }
  }

  lemma SupplyStep(geo: Geo, groups: seq<GroupDesc>, m: Bitmaps, n: nat)
    requires SupplyOk(geo, groups, m) && 0 < n <= geo.groups
    ensures SupplyFrom(geo, groups, m, 0, n) == SupplyFrom(geo, groups, m, 0, n - 1) + Supply(geo, groups, m, n - 1)
  {
    hide Supply;
  }

  /** An allocation takes what it takes off the supply, and nothing more. */
  lemma {:induction false} SupplyTaken(geo: Geo, groups: seq<GroupDesc>, now: Bitmaps, view: Bitmaps,
      plan: seq<PlanEntry>, k: nat)
    requires SupplyOk(geo, groups, now) && PlanOf(geo, now, view, plan) && PlanTakes(geo, now, view, plan)
    requires k <= |plan|
    requires forall j :: 0 <= j < |plan| ==> plan[j].n <= groups[plan[j].g].freeBlocks
    ensures SupplyOk(geo, Adjust(groups, plan[..k], false), Install(now, plan[..k]))
    ensures
      SupplyFrom(geo, Adjust(groups, plan[..k], false), Install(now, plan[..k]), 0, geo.groups) + PlanTotal(plan[..k])
      == SupplyFrom(geo, groups, now, 0, geo.groups)
  {
    hide SupplyFrom, Zeros, BlocksIn, GeoOk, InPlan, Adjust, Install, PlanTakes;
    if k > 0 {
      SupplyTaken(geo, groups, now, view, plan, k - 1);
      assert plan[..k][..k - 1] == plan[..k - 1];
      SupplyPlan(geo, groups, now, view, plan, k - 1);
    } else {
      PlanStartSupply(groups, now, plan);
    }
  }

  lemma PlanStartSupply(groups: seq<GroupDesc>, now: Bitmaps, plan: seq<PlanEntry>)
    ensures plan[..0] == [] && Adjust(groups, plan[..0], false) == groups && Install(now, plan[..0]) == now
    ensures PlanTotal(plan[..0]) == 0
  {
  }

  /** One more entry of the plan is carried out. */
  lemma SupplyPlan(geo: Geo, groups: seq<GroupDesc>, now: Bitmaps, view: Bitmaps, plan: seq<PlanEntry>, k: nat)
    requires SupplyOk(geo, groups, now) && PlanOf(geo, now, view, plan) && PlanTakes(geo, now, view, plan) && k < |plan|
    requires plan[k].n <= groups[plan[k].g].freeBlocks
    requires SupplyOk(geo, Adjust(groups, plan[..k], false), Install(now, plan[..k]))
    ensures SupplyOk(geo, Adjust(groups, plan[..k + 1], false), Install(now, plan[..k + 1]))
    ensures
      SupplyFrom(geo, Adjust(groups, plan[..k + 1], false), Install(now, plan[..k + 1]), 0, geo.groups) + plan[k].n
      == SupplyFrom(geo, Adjust(groups, plan[..k], false), Install(now, plan[..k]), 0, geo.groups)
  {
    hide Install, Adjust, SupplyFrom, Zeros, BlocksIn, GeoOk, InPlan;
    var e := plan[k];
    NotYet(plan, k);
    InstallAt(geo, now, view, plan, k);
    AdjustAt(groups, plan[..k], false, e.g);
    PlanMore(groups, now, plan, k);
    assert FreeIn(geo, view, e.g) + e.n == FreeIn(geo, now, e.g);
    SupplyLess(geo, Adjust(groups, plan[..k], false), Install(now, plan[..k]), Adjust(groups, plan[..k + 1], false),
      Install(now, plan[..k + 1]), e.g, e.n, geo.groups);
  }

  lemma PlanMore(groups: seq<GroupDesc>, now: Bitmaps, plan: seq<PlanEntry>, k: nat)
    requires k < |plan| && forall j :: 0 <= j < |plan| ==> plan[j].g < |groups| && plan[j].g < |now|
    ensures
      var e, g0 := plan[k], Adjust(groups, plan[..k], false);
      && Adjust(groups, plan[..k + 1], false) == g0[e.g := AdjustOne(g0[e.g], e.n, false)]
      && Install(now, plan[..k + 1]) == Install(now, plan[..k])[e.g := e.bm]
  {
    assert plan[..k + 1][..k] == plan[..k];
  }

  lemma NotYet(plan: seq<PlanEntry>, k: nat)
    requires k < |plan| && forall j, i :: 0 <= j < i < |plan| ==> plan[j].g != plan[i].g
    ensures !InPlan(plan[..k], plan[k].g)
  {
  }

  // ----- planning a release: reads only -----

  /** Everything the plan phase of a release has established for the blocks
      `s` seen so far. */
  ghost predicate Releasing(geo: Geo, now: Bitmaps, view: Bitmaps, s: seq<nat>, plan: seq<PlanEntry>)
    requires GeoOk(geo)
  {
    && Cleared(geo, now, view, s) && PlanOf(geo, now, view, plan) && PlanGives(geo, now, view, plan)
    && PlanTotal(plan) == |s| && AllUsed(geo, now, s) && NoDup(s)
  }

  lemma ReleasingNothing(geo: Geo, now: Bitmaps)
    requires GeoOk(geo) && Shaped(geo, now)
    ensures Releasing(geo, now, now, [], [])
  {
  }

  /** The plan's entry for group `g`, or `|plan|`. */
  function SlotOf(plan: seq<PlanEntry>, g: nat): (i: nat)
    ensures i <= |plan|
    ensures i < |plan| ==> plan[i].g == g
    ensures forall j :: 0 <= j < i ==> plan[j].g != g
  {
    if plan == [] || plan[0].g == g then 0 else 1 + SlotOf(plan[1..], g)
  }

  lemma SlotPush(geo: Geo, now: Bitmaps, view: Bitmaps, s: seq<nat>, plan: seq<PlanEntry>, g: nat)
    requires GeoOk(geo) && Releasing(geo, now, view, s, plan) && g < geo.groups && SlotOf(plan, g) == |plan|
    ensures g < |now| && Releasing(geo, now, view, s, plan + [PlanEntry(g, now[g], 0)])
  {
    hide Zeros, BlocksIn, Cleared, AllUsed, NoDup, GeoOk;
    var e := PlanEntry(g, now[g], 0);
    var plan' := plan + [e];
    assert plan'[..|plan|] == plan;
    assert !InPlan(plan, g);
    InPlanPush(plan, e);
    hide InPlan, SlotOf;
    assert forall j :: 0 <= j < |plan| ==> plan'[j] == plan[j];
    assert PlanOf(geo, now, view, plan');
  }

  lemma {:induction false} PlanTotalUpdate(plan: seq<PlanEntry>, i: nat, e: PlanEntry)
    requires i < |plan|
    ensures PlanTotal(plan[i := e]) == PlanTotal(plan) - plan[i].n + e.n
  {
    var p := plan[..|plan| - 1];
    if i < |plan| - 1 {
      PlanTotalUpdate(p, i, e);
      assert plan[i := e][..|plan| - 1] == p[i := e];
    } else {
      assert plan[i := e][..|plan| - 1] == p;
    }
  }

  /** Clearing one more bit of a planned group. */
  lemma SlotClear(geo: Geo, now: Bitmaps, view: Bitmaps, s: seq<nat>, plan: seq<PlanEntry>, i: nat, b: nat)
    requires GeoOk(geo) && Releasing(geo, now, view, s, plan) && ValidBlock(geo, b)
    requires i < |plan| && plan[i].g == GroupOf(geo, b) && BitOf(geo, b) < |plan[i].bm| && plan[i].bm[BitOf(geo, b)]
    ensures
      var e := PlanEntry(plan[i].g, plan[i].bm[BitOf(geo, b) := false], plan[i].n + 1);
      && plan[i].g < |view|
      && Releasing(geo, now, view[plan[i].g := e.bm], s + [b], plan[i := e])
  {
    hide Zeros, BlocksIn, GeoOk, NoDup;
    var g, k := plan[i].g, BitOf(geo, b);
    var e := PlanEntry(g, plan[i].bm[k := false], plan[i].n + 1);
    var plan', view' := plan[i := e], view[g := e.bm];
    ReleaseCell(geo, now, view, s, b);
    assert Cleared(geo, now, view', s + [b]) && BUsed(geo, now, b) && b !in s;
    ZerosUpdate(view[g], BlocksIn(geo, g), k, false);
    PlanTotalUpdate(plan, i, e);
    NoDupPush(s, b);
    hide Cleared, BUsed, GroupOf, BitOf, PlanTotal;
    assert forall j :: 0 <= j < |plan| && j != i ==> plan'[j] == plan[j] && plan[j].g != g;
    assert plan'[i] == e;
    SlotView(geo, now, view, plan, i, e);
    assert AllUsed(geo, now, s + [b]);
    assert PlanGives(geo, now, view', plan');
  }

  lemma SlotView(geo: Geo, now: Bitmaps, view: Bitmaps, plan: seq<PlanEntry>, i: nat, e: PlanEntry)
    requires PlanOf(geo, now, view, plan) && i < |plan| && e.g == plan[i].g && |e.bm| == geo.per
    ensures PlanOf(geo, now, view[e.g := e.bm], plan[i := e])
  {
    var plan' := plan[i := e];
    assert forall j :: 0 <= j < |plan| ==> plan'[j].g == plan[j].g;
    forall g | InPlan(plan, g) ensures InPlan(plan', g) {
      var j :| 0 <= j < |plan| && plan[j].g == g;
      assert plan'[j].g == g;
    }
  }

  lemma NoDupPush(s: seq<nat>, b: nat)
    requires NoDup(s) && b !in s
    ensures NoDup(s + [b])
  {
  }

  lemma SlotBit(geo: Geo, now: Bitmaps, view: Bitmaps, s: seq<nat>, plan: seq<PlanEntry>, i: nat, b: nat)
    requires GeoOk(geo) && Releasing(geo, now, view, s, plan) && ValidBlock(geo, b)
    requires i < |plan| && plan[i].g == GroupOf(geo, b)
    ensures BitOf(geo, b) < |plan[i].bm|
    ensures plan[i].bm[BitOf(geo, b)] <==> BUsed(geo, now, b) && b !in s
  {
    hide Zeros;
    ReleaseCell(geo, now, view, s, b);
  }

  /** What `free_blocks` accepts: blocks inside the filesystem, all marked used,
      none named twice. */
  ghost predicate Releasable(geo: Geo, now: Bitmaps, s: seq<nat>)
    requires GeoOk(geo)
  {
    AllUsed(geo, now, s) && NoDup(s)
  }

  lemma NotReleasable(geo: Geo, now: Bitmaps, s: seq<nat>, t: seq<nat>)
    requires GeoOk(geo) && s < t && (t[|s|] in s || !BUsed(geo, now, t[|s|]))
    ensures !Releasable(geo, now, t)
  {
    var b := t[|s|];
    if b in s {
      var i :| 0 <= i < |s| && s[i] == b;
      assert t[i] == b;
    }
    assert b in t;
  }

  /** Every group of the plan has one of the blocks `s`. */
  ghost predicate Touched(geo: Geo, s: seq<nat>, plan: seq<PlanEntry>)
    requires GeoOk(geo)
  {
    forall k :: 0 <= k < |plan| ==> exists b :: b in s && ValidBlock(geo, b) && GroupOf(geo, b) == plan[k].g
  }

  lemma TouchedNone(geo: Geo)
    requires GeoOk(geo)
    ensures Touched(geo, [], [])
  {
  }

  lemma TouchedMore(geo: Geo, s: seq<nat>, plan: seq<PlanEntry>, plan': seq<PlanEntry>, slot: nat, b: nat)
    requires GeoOk(geo) && Touched(geo, s, plan) && ValidBlock(geo, b) && slot < |plan'|
    requires plan'[slot].g == GroupOf(geo, b)
    requires forall j :: 0 <= j < |plan'| && j != slot ==> j < |plan| && plan'[j].g == plan[j].g
    ensures Touched(geo, s + [b], plan')
  {
    hide GeoOk, GroupOf;
    forall k | 0 <= k < |plan'|
      ensures exists c :: c in s + [b] && ValidBlock(geo, c) && GroupOf(geo, c) == plan'[k].g
    {
      if k == slot {
        assert b in s + [b];
      } else {
        assert plan'[k].g == plan[k].g;
        var c := PlanBlock(geo, s, plan, k);
        assert c in s + [b];
      }
    }
  }

  /** Every bitmap among the writes `ws` frees one of the blocks `s`. */
  ghost predicate Clearing(geo: Geo, s: seq<nat>, ws: seq<Write>)
    requires GeoOk(geo)
  {
    forall k :: 0 <= k < |ws| && ws[k].WBlockBitmap? ==> exists b :: b in s && Clears(geo, ws[k], b)
  }

  predicate Clears(geo: Geo, w: Write, b: nat)
    requires GeoOk(geo)
  {
    && ValidBlock(geo, b) && w.WBlockBitmap? && w.g == GroupOf(geo, b)
    && BitOf(geo, b) < |w.bm| && !w.bm[BitOf(geo, b)]
  }

  /** The bitmaps among the writes `ws` are those of the plan. */
  ghost predicate FromPlan(plan: seq<PlanEntry>, ws: seq<Write>) {
    forall k :: 0 <= k < |ws| && ws[k].WBlockBitmap? ==> exists j :: 0 <= j < |plan| && Planned1(plan[j], ws[k])
  }

  predicate Planned1(e: PlanEntry, w: Write) { w == WBlockBitmap(e.g, e.bm) }

  lemma FromPlanNone(plan: seq<PlanEntry>)
    ensures FromPlan(plan, [])
  {
  }

  lemma FromPlanPush(plan: seq<PlanEntry>, ws: seq<Write>, j: nat, desc: GroupDesc)
    requires FromPlan(plan, ws) && j < |plan|
    ensures FromPlan(plan, ws + [WBlockBitmap(plan[j].g, plan[j].bm)] + [WGroupDesc(plan[j].g, desc)])
  {
    assert Planned1(plan[j], WBlockBitmap(plan[j].g, plan[j].bm));
  }

  lemma FromPlanSeal(plan: seq<PlanEntry>, ws: seq<Write>, w: Write)
    requires FromPlan(plan, ws) && w.WSuper?
    ensures FromPlan(plan, ws + [w])
  {
  }

  lemma PlanClearing(geo: Geo, now: Bitmaps, view: Bitmaps, s: seq<nat>, plan: seq<PlanEntry>, ws: seq<Write>)
    requires GeoOk(geo) && Cleared(geo, now, view, s) && PlanOf(geo, now, view, plan) && Touched(geo, s, plan)
    requires FromPlan(plan, ws)
    ensures Clearing(geo, s, ws)
  {
    hide GeoOk, FromPlan, Touched;
    forall k | 0 <= k < |ws| && ws[k].WBlockBitmap? ensures exists b :: b in s && Clears(geo, ws[k], b) {
      var j := PlanSource(plan, ws, k);
      var b := PlanBlock(geo, s, plan, j);
      BlockOfCell(geo, b);
      assert Clears(geo, ws[k], b);
    }
  }

  lemma PlanSource(plan: seq<PlanEntry>, ws: seq<Write>, k: nat) returns (j: nat)
    requires FromPlan(plan, ws) && k < |ws| && ws[k].WBlockBitmap?
    ensures j < |plan| && ws[k] == WBlockBitmap(plan[j].g, plan[j].bm)
  {
    j :| 0 <= j < |plan| && Planned1(plan[j], ws[k]);
  }

  lemma PlanBlock(geo: Geo, s: seq<nat>, plan: seq<PlanEntry>, j: nat) returns (b: nat)
    requires GeoOk(geo) && Touched(geo, s, plan) && j < |plan|
    ensures b in s && ValidBlock(geo, b) && GroupOf(geo, b) == plan[j].g
  {
    var g := plan[j].g;
    b :| b in s && ValidBlock(geo, b) && GroupOf(geo, b) == g;
  }

  lemma ClearingConcat(geo: Geo, s: seq<nat>, t: seq<nat>, x: seq<Write>, y: seq<Write>)
    requires GeoOk(geo) && Clearing(geo, s, x) && Clearing(geo, t, y)
    ensures Clearing(geo, s + t, x + y)
  {
    hide GeoOk, Clears;
    forall k | 0 <= k < |x + y| && (x + y)[k].WBlockBitmap?
      ensures exists b :: b in s + t && Clears(geo, (x + y)[k], b)
    {
      if k < |x| {
        var b :| b in s && Clears(geo, x[k], b);
        assert b in s + t && (x + y)[k] == x[k];
      } else {
        var b :| b in t && Clears(geo, y[k - |x|], b);
        assert b in s + t && (x + y)[k] == y[k - |x|];
      }
    }
  }

  /** The plan phase of `free_blocks`. */
  method PlanFree(geo: Geo, now: Bitmaps, extents: seq<Extent>) returns (ok: bool, plan: seq<PlanEntry>,
      ghost view: Bitmaps)
    requires GeoOk(geo) && Shaped(geo, now)
    ensures ok <==> Releasable(geo, now, Flat(extents))
    ensures ok ==> Releasing(geo, now, view, Flat(extents), plan) && Touched(geo, Flat(extents), plan)
  {
    hide Touched, Releasing, Releasable, GeoOk, GroupOf, BitOf, Flat, Span, BUsed;
    plan, view := [], now;
    ReleasingNothing(geo, now);
    TouchedNone(geo);
    FlatEmpty(extents);
    for x := 0 to |extents|
      invariant Releasing(geo, now, view, Flat(extents[..x]), plan) && Touched(geo, Flat(extents[..x]), plan)
    {
      var e := extents[x];
      ghost var s0 := Flat(extents[..x]);
      SpanNone(s0, e);
      for j := 0 to e.len
        invariant Releasing(geo, now, view, s0 + Span(e.physical, j), plan)
        invariant Touched(geo, s0 + Span(e.physical, j), plan)
      {
        var b := e.physical + j;
        ghost var plan0 := plan;
        ghost var s := s0 + Span(e.physical, j);
        FlatPoint(extents, x, j);
        if b < geo.first || b >= geo.count {
          InvalidUnused(geo, now, b);
          NotReleasable(geo, now, s, Flat(extents));
          return false, plan, view;
        }
        GroupInRange(geo, b);
        var slot := SlotOf(plan, GroupOf(geo, b));
        if slot == |plan| {
          SlotPush(geo, now, view, s, plan, GroupOf(geo, b));
          plan := plan + [PlanEntry(GroupOf(geo, b), now[GroupOf(geo, b)], 0)];
        }
        SlotBit(geo, now, view, s, plan, slot, b);
        if !plan[slot].bm[BitOf(geo, b)] {
          NotReleasable(geo, now, s, Flat(extents));
          return false, plan, view;
        }
        SlotClear(geo, now, view, s, plan, slot, b);
        view := view[plan[slot].g := plan[slot].bm[BitOf(geo, b) := false]];
        plan := plan[slot := PlanEntry(plan[slot].g, plan[slot].bm[BitOf(geo, b) := false], plan[slot].n + 1)];
        TouchedMore(geo, s, plan0, plan, slot, b);
      }
      FlatStep(extents, x);
    }
    assert extents[..|extents|] == extents;
    ReleasingMeans(geo, now, view, Flat(extents), plan);
    ok := true;
  }

  lemma ReleasingMeans(geo: Geo, now: Bitmaps, view: Bitmaps, s: seq<nat>, plan: seq<PlanEntry>)
    requires GeoOk(geo) && Releasing(geo, now, view, s, plan)
    ensures Releasable(geo, now, s)
  {
  }

  lemma FlatEmpty(es: seq<Extent>)
    ensures Flat(es[..0]) == []
  {
  }

  lemma SpanNone(s: seq<nat>, e: Extent)
    ensures s + Span(e.physical, 0) == s
  {
  }

  lemma FlatStep(es: seq<Extent>, x: nat)
    requires x < |es|
    ensures Flat(es[..x + 1]) == Flat(es[..x]) + Span(es[x].physical, es[x].len)
  {
    assert es[..x + 1] == es[..x] + [es[x]];
    FlatPush(es[..x], es[x]);
  }

  /** Block `j` of extent `x` comes right after the blocks before it. */
  lemma FlatPoint(es: seq<Extent>, x: nat, j: nat)
    requires x < |es| && j < es[x].len
    ensures
      var s := Flat(es[..x]) + Span(es[x].physical, j);
      && s < Flat(es) && Flat(es)[|s|] == es[x].physical + j
      && s + [es[x].physical + j] == Flat(es[..x]) + Span(es[x].physical, j + 1)
  {
    FlatStep(es, x);
    FlatConcat(es[..x + 1], es[x + 1..]);
    assert es == es[..x + 1] + es[x + 1..];
    hide Flat;
    assert Span(es[x].physical, j) + [es[x].physical + j] == Span(es[x].physical, j + 1);
    assert Span(es[x].physical, j) < Span(es[x].physical, es[x].len);
  }

  lemma InvalidUnused(geo: Geo, now: Bitmaps, b: nat)
    requires GeoOk(geo) && (b < geo.first || b >= geo.count)
    ensures !BUsed(geo, now, b)
  {
  }

  lemma GroupInRange(geo: Geo, b: nat)
    requires GeoOk(geo) && ValidBlock(geo, b)
    ensures 0 < geo.per && geo.first <= b && GroupOf(geo, b) < geo.groups
  {
    BlockOfCell(geo, b);
  }
}
