/** What the ext4 writer keeps track of between device writes: the blocks and
    inodes that unfinished operations hold, how far the counters are from the
    bitmaps, and what claiming and returning them does. */
module Ext4Books {
  import opened Arith
  import opened Bytes
  import opened Extents
  import opened DirChain
  import opened Ext4Disk
  import opened Ext4Steps
  import opened Ext4Bitmap
  import opened Ext4Inodes
  import opened Ext4Data

  datatype Error =
    | FilesystemFull | NoFreeInodes | BadInode | CorruptFs | NotADirectory | AlreadyExists | NotFound
    | UnsupportedFsFeature | OutOfBounds

  datatype Result<+T> = Ok(value: T) | Err(error: Error)

  ghost predicate BlockCount(geo: Geo, groups: seq<GroupDesc>, m: Bitmaps, drift: seq<int>)
    requires GeoOk(geo)
  {
    && Shaped(geo, m) && |groups| == |drift| == geo.groups
    && forall g :: 0 <= g < geo.groups ==> groups[g].freeBlocks - FreeIn(geo, m, g) == drift[g]
  }

  /** Committing a plan moves a group's counter and its free cells together. */
  lemma CountKept(geo: Geo, groups: seq<GroupDesc>, now: Bitmaps, view: Bitmaps, plan: seq<PlanEntry>, give: bool,
      drift: seq<int>)
    requires GeoOk(geo) && BlockCount(geo, groups, now, drift) && PlanOf(geo, now, view, plan)
    requires give ==> PlanGives(geo, now, view, plan)
    requires !give ==>
      PlanTakes(geo, now, view, plan) && forall k :: 0 <= k < |plan| ==> plan[k].n <= groups[plan[k].g].freeBlocks
    ensures BlockCount(geo, Adjust(groups, plan, give), view, drift)
    ensures SameInodeSide(Adjust(groups, plan, give), groups)
  {
    hide Zeros, BlocksIn, GeoOk, Adjust;
    forall g | 0 <= g < geo.groups
      ensures Adjust(groups, plan, give)[g].freeBlocks - FreeIn(geo, view, g) == drift[g]
      ensures
        var x := Adjust(groups, plan, give)[g];
        x.(freeBlocks := groups[g].freeBlocks, blockUninit := groups[g].blockUninit) == groups[g]
    {
      AdjustAt(groups, plan, give, g);
    }
  }

  function SeqSet(s: seq<nat>): set<nat> { set x | x in s }

  /** Blocks just claimed were named by no one and held by no one. */
  lemma HeldAfterAlloc(geo: Geo, d: Disk, d': Disk, groups: seq<GroupDesc>, groups': seq<GroupDesc>,
                       held: map<nat, set<nat>>, owner: nat, s: seq<nat>)
    requires GeoOk(geo) && CrashSafe(geo, d) && HeldOk(geo, d, groups, held) && owner in held
    requires d'.inodes == d.inodes && d'.blocks == d.blocks && d'.ibm == d.ibm && SameInodeSide(groups', groups)
    requires Marked(geo, d.bbm, d'.bbm, s) && AllFree(geo, d.bbm, s)
    ensures HeldOk(geo, d', groups', held[owner := held[owner] + SeqSet(s)])
  {
    MarkedUsed(geo, d.bbm, d'.bbm, s);
    HeldFrame(geo, d, d', groups, groups');
    FreeFromUnused(geo, d, s);
    hide BUsed, GeoOk, Marked, CrashSafe, HeldIno, Free, SameInodeSide;
  }

  lemma FreeFromUnused(geo: Geo, d: Disk, s: seq<nat>)
    requires GeoOk(geo) && CrashSafe(geo, d) && AllFree(geo, d.bbm, s)
    ensures forall b :: b in s ==> Free(geo, d, b)
  {
    hide NamedBy, BUsed, GeoOk, EntriesOf, DirsOk, NamesLive, NamesUnique, Unshared, IUsed, DiskOk;
  }

  lemma HeldFrame(geo: Geo, d: Disk, d': Disk, groups: seq<GroupDesc>, groups': seq<GroupDesc>)
    requires GeoOk(geo) && SameInodeSide(groups', groups)
    requires d'.inodes == d.inodes && d'.blocks == d.blocks && d'.ibm == d.ibm
    ensures forall i :: HeldIno(geo, d', groups', i) == HeldIno(geo, d, groups, i)
    ensures forall i :: InUse(geo, d', i) == InUse(geo, d, i)
    ensures forall b :: Free(geo, d', b) == Free(geo, d, b)
  {
    hide NamedBy, GeoOk, IUsed;
    assert forall i :: InUse(geo, d', i) == InUse(geo, d, i);
  }

  lemma HeldAfterFree(geo: Geo, d: Disk, d': Disk, groups: seq<GroupDesc>, groups': seq<GroupDesc>,
                      held: map<nat, set<nat>>, s: seq<nat>)
    requires GeoOk(geo) && HeldOk(geo, d, groups, held) && Loose(geo, d, held, s)
    requires d'.inodes == d.inodes && d'.blocks == d.blocks && d'.ibm == d.ibm && SameInodeSide(groups', groups)
    requires Cleared(geo, d.bbm, d'.bbm, s)
    ensures HeldOk(geo, d', groups', held)
  {
    ClearedUsed(geo, d.bbm, d'.bbm, s);
    HeldFrame(geo, d, d', groups, groups');
    hide BUsed, GeoOk, Cleared, HeldIno, Free, SameInodeSide;
  }

  /** Releasing loose blocks keeps every named block set. */
  lemma LooseNamed(geo: Geo, d: Disk, held: map<nat, set<nat>>, view: Bitmaps, s: seq<nat>)
    requires GeoOk(geo) && CrashSafe(geo, d) && Loose(geo, d, held, s) && Cleared(geo, d.bbm, view, s)
    ensures NamedIn(geo, d, view) && Covers(geo, d.bbm, view) && Covers(geo, view, view)
  {
    ClearedUsed(geo, d.bbm, view, s);
    hide NamedBy, BUsed, GeoOk, DirsOk, NamesLive, NamesUnique, Unshared;
  }

  lemma ClaimedNamed(geo: Geo, d: Disk, view: Bitmaps, out: seq<Extent>)
    requires GeoOk(geo) && CrashSafe(geo, d) && Claimed(geo, d.bbm, view, out)
    ensures NamedIn(geo, d, d.bbm) && Covers(geo, d.bbm, d.bbm) && Covers(geo, view, d.bbm)
    ensures Marked(geo, d.bbm, view, Flat(out)) && AllFree(geo, d.bbm, Flat(out)) && NoDup(Flat(out)) && Maximal(out)
  {
    hide NamedBy, BUsed, GeoOk, DirsOk, NamesLive, NamesUnique, Unshared;
  }

  lemma SupplyReady(geo: Geo, d: Disk, groups: seq<GroupDesc>)
    requires GeoOk(geo) && CrashSafe(geo, d) && |groups| == geo.groups
    ensures SupplyOk(geo, groups, d.bbm)
  {
  }

  lemma PlanShape(geo: Geo, now: Bitmaps, view: Bitmaps, plan: seq<PlanEntry>, k: nat)
    requires PlanOf(geo, now, view, plan) && k < |plan|
    ensures plan[k].g < geo.groups && |plan[k].bm| == geo.per && |now| == geo.groups
  {
  }

  lemma PlanStart(geo: Geo, now: Bitmaps, view: Bitmaps, plan: seq<PlanEntry>, groups: seq<GroupDesc>, give: bool)
    requires PlanOf(geo, now, view, plan) && |groups| == geo.groups
    ensures |now| == geo.groups && forall j :: 0 <= j < |plan| ==> plan[j].g < geo.groups
    ensures plan[..0] == [] && PlanTotal(plan[..0]) == 0 && Install(now, plan[..0]) == now
    ensures Adjust(groups, plan[..0], give) == groups
  {
  }

  lemma PlanStep(now: Bitmaps, plan: seq<PlanEntry>, groups: seq<GroupDesc>, give: bool, k: nat)
    requires k < |plan| && |now| == |groups| && forall j :: 0 <= j < |plan| ==> plan[j].g < |now|
    ensures Install(now, plan[..k + 1]) == Install(now, plan[..k])[plan[k].g := plan[k].bm]
    ensures
      var g := Adjust(groups, plan[..k], give);
      Adjust(groups, plan[..k + 1], give) == g[plan[k].g := AdjustOne(g[plan[k].g], plan[k].n, give)]
    ensures PlanTotal(plan[..k + 1]) == PlanTotal(plan[..k]) + plan[k].n
  {
    assert plan[..k + 1][..k] == plan[..k];
    assert plan[..k + 1][k] == plan[k];
  }

  // ----- the counters on the medium -----

  /** Refused cells charged to a group in memory since its descriptor was last
      written. */
  datatype Owed = Owed(inodes: nat, dirs: nat)

  ghost predicate Clear(owed: seq<Owed>) {
    forall g :: 0 <= g < |owed| ==> owed[g] == Owed(0, 0)
  }

  ghost predicate OwedOk(drift: Drift, owed: seq<Owed>) {
    && |owed| == |drift.inodes| == |drift.dirs|
    && forall g :: 0 <= g < |owed| ==> owed[g].dirs <= drift.dirs[g] && (owed[g].dirs > 0 ==> owed[g].inodes > 0)
  }

  /** The distance of the counters on the medium. */
  ghost function OnMedium(drift: Drift, owed: seq<Owed>): Drift
    requires OwedOk(drift, owed)
  {
    drift.(
      inodes := seq(|owed|, g requires 0 <= g < |owed| => drift.inodes[g] + owed[g].inodes),
      dirs := seq(|owed|, g requires 0 <= g < |owed| => drift.dirs[g] - owed[g].dirs))
  }

  /** The counters on the medium keep their distance too, and but for what is
      owed the descriptors are those in memory. */
  ghost predicate Saved(geo: Geo, d: Disk, groups: seq<GroupDesc>, freeBlocks: nat, dirs: set<nat>, drift: Drift,
      owed: seq<Owed>)
    requires GeoOk(geo)
  {
    && |owed| == |groups| == |d.gd| == geo.groups && d.freeBlocks == freeBlocks && OwedOk(drift, owed)
    && BlockCount(geo, d.gd, d.bbm, drift.blocks) && InodeSide(geo, d, d.gd, dirs, OnMedium(drift, owed))
    && forall g :: 0 <= g < geo.groups && owed[g] == Owed(0, 0) ==> d.gd[g] == groups[g]
  }

  /** With nothing owed the medium says what memory says. */
  lemma SettledMedium(geo: Geo, d: Disk, groups: seq<GroupDesc>, freeBlocks: nat, dirs: set<nat>, drift: Drift,
      owed: seq<Owed>)
    requires GeoOk(geo) && Saved(geo, d, groups, freeBlocks, dirs, drift, owed) && Clear(owed)
    ensures d.gd == groups && OnMedium(drift, owed) == drift
  {
    hide InodeSide, BlockCount, GeoOk;
  }

  /** And only then. */
  lemma OwedShows(geo: Geo, d: Disk, groups: seq<GroupDesc>, freeBlocks: nat, dirs: set<nat>, drift: Drift,
      owed: seq<Owed>)
    requires GeoOk(geo) && Saved(geo, d, groups, freeBlocks, dirs, drift, owed)
    requires InodeSide(geo, d, groups, dirs, drift) && d.gd == groups
    ensures Clear(owed)
  {
    hide BlockCount, GeoOk, TailFree, DirCount, Tracked, Zeros;
    forall g | 0 <= g < |owed| ensures owed[g] == Owed(0, 0) {
      assert groups[g].freeInodes - Zeros(d.ibm[g], geo.iper) == drift.inodes[g];
      assert d.gd[g].freeInodes - Zeros(d.ibm[g], geo.iper) == OnMedium(drift, owed).inodes[g];
    }
  }

  /** A write that is no counter's. */
  lemma SavedSame(geo: Geo, d: Disk, d': Disk, groups: seq<GroupDesc>, freeBlocks: nat, dirs: set<nat>, drift: Drift,
      owed: seq<Owed>)
    requires GeoOk(geo) && Saved(geo, d, groups, freeBlocks, dirs, drift, owed)
    requires d' == d.(blocks := d'.blocks)
    ensures Saved(geo, d', groups, freeBlocks, dirs, drift, owed)
  {
    hide InodeSide, BlockCount, GeoOk, OnMedium;
    SameSideRefl(d.gd);
    SideFrame(geo, d, d', d.gd, d.gd, dirs, OnMedium(drift, owed));
  }

  lemma SavedPublish(geo: Geo, d: Disk, groups: seq<GroupDesc>, freeBlocks: nat, dirs: set<nat>, drift: Drift,
      owed: seq<Owed>, i: nat, rec: Record)
    requires GeoOk(geo) && Saved(geo, d, groups, freeBlocks, dirs, drift, owed) && rec.Inode?
    requires rec.kind == Dir <==> i in dirs
    ensures Saved(geo, Apply(d, WInode(i, rec)), groups, freeBlocks, dirs, drift, owed)
  {
    hide InodeSide, BlockCount, GeoOk, OnMedium;
    SidePublish(geo, d, d.gd, dirs, OnMedium(drift, owed), i, rec);
  }

  lemma SavedLinks(geo: Geo, d: Disk, groups: seq<GroupDesc>, freeBlocks: nat, dirs: set<nat>, drift: Drift,
      owed: seq<Owed>, i: nat, links: nat)
    requires GeoOk(geo) && Saved(geo, d, groups, freeBlocks, dirs, drift, owed) && IsDir(geo, d, i)
    ensures Saved(geo, Apply(d, WInode(i, d.inodes[i].(links := links))), groups, freeBlocks, dirs, drift, owed)
  {
    hide InodeSide, BlockCount, GeoOk, OnMedium, IUsed;
    SideLinks(geo, d, d.gd, dirs, OnMedium(drift, owed), i, links);
  }

  /** The debt once the descriptors of the groups `s` are written. */
  ghost function Paid(owed: seq<Owed>, s: set<nat>): (r: seq<Owed>)
    ensures |r| == |owed| && (Clear(owed) ==> Clear(r))
  {
    seq(|owed|, g requires 0 <= g < |owed| => if g in s then Owed(0, 0) else owed[g])
  }

  /** Descriptors of the groups `s` were written as they are in memory, and only
      these groups changed. */
  ghost predicate Rewrote(geo: Geo, d: Disk, g0: seq<GroupDesc>, d': Disk, g1: seq<GroupDesc>, s: set<nat>) {
    && |d.gd| == |d'.gd| == |g0| == |g1| == |d.bbm| == |d'.bbm| == |d.ibm| == |d'.ibm| == geo.groups
    && forall g :: 0 <= g < geo.groups ==>
         if g in s then d'.gd[g] == g1[g]
         else d'.gd[g] == d.gd[g] && g1[g] == g0[g] && d'.bbm[g] == d.bbm[g] && d'.ibm[g] == d.ibm[g]
  }

  lemma SavedCommit(geo: Geo, d: Disk, g0: seq<GroupDesc>, f0: nat, dirs0: set<nat>, owed: seq<Owed>,
                    d': Disk, g1: seq<GroupDesc>, dirs1: set<nat>, drift: Drift, s: set<nat>)
    requires GeoOk(geo) && Saved(geo, d, g0, f0, dirs0, drift, owed) && Rewrote(geo, d, g0, d', g1, s)
    requires BlockCount(geo, g1, d'.bbm, drift.blocks) && InodeSide(geo, d', g1, dirs1, drift)
    requires forall g :: 0 <= g < geo.groups && g !in s ==> DirsIn(geo, dirs1, g) == DirsIn(geo, dirs0, g)
    ensures Saved(geo, d', g1, d'.freeBlocks, dirs1, drift, Paid(owed, s))
  {
    hide GeoOk, Zeros, DirsIn, FreeIn, Tracked;
    var owed' := Paid(owed, s);
    assert OwedOk(drift, owed');
    var m, m' := OnMedium(drift, owed), OnMedium(drift, owed');
    forall g | 0 <= g < geo.groups ensures d'.gd[g].freeBlocks - FreeIn(geo, d'.bbm, g) == drift.blocks[g] {
      if g !in s { SameFree(geo, d.bbm, d'.bbm, g); }
    }
    assert InodeCount(geo, d'.gd, d'.ibm, m'.inodes);
    assert drift.tailKept ==> TailFree(geo, d'.gd, d'.ibm);
    if drift.dirsKept {
      assert DirCount(geo, d.gd, dirs0, m.dirs) && DirCount(geo, g1, dirs1, drift.dirs);
      assert DirCount(geo, d'.gd, dirs1, m'.dirs);
    }
  }

  lemma SameFree(geo: Geo, m: Bitmaps, m': Bitmaps, g: nat)
    requires GeoOk(geo) && g < geo.groups && g < |m| && g < |m'| && |m[g]| == geo.per && m'[g] == m[g]
    ensures FreeIn(geo, m', g) == FreeIn(geo, m, g)
  {
  }

  /** A refused cell is charged in memory and owed to the medium. */
  lemma SavedRefused(geo: Geo, d: Disk, groups: seq<GroupDesc>, freeBlocks: nat, dirs: set<nat>, drift: Drift,
      owed: seq<Owed>, g: nat, desc: GroupDesc, isDir: bool)
    requires GeoOk(geo) && Saved(geo, d, groups, freeBlocks, dirs, drift, owed) && g < geo.groups
    ensures g < |owed| == |drift.inodes| == |drift.dirs|
    ensures
      var owed' := owed[g := Owed(owed[g].inodes + 1, owed[g].dirs + if isDir then 1 else 0)];
      Saved(geo, d, groups[g := desc], freeBlocks, dirs, Charge(drift, g, isDir), owed')
  {
    hide GeoOk, InodeSide, BlockCount;
    var owed' := owed[g := Owed(owed[g].inodes + 1, owed[g].dirs + if isDir then 1 else 0)];
    var drift' := Charge(drift, g, isDir);
    assert OnMedium(drift', owed').inodes == OnMedium(drift, owed).inodes;
    assert OnMedium(drift', owed').dirs == OnMedium(drift, owed).dirs;
  }

  /** What refusing the number on offer leaves: the cell charged to its group
      and to the superblock counter, in memory only. */
  ghost predicate ChargedTo(geo: Geo, d: Disk, g0: seq<GroupDesc>, f0: nat, drift0: Drift, g1: seq<GroupDesc>, f1: nat,
      drift1: Drift, isDir: bool)
    requires GeoOk(geo)
  {
    && Overrun(geo, d, g0)
    && var i := Offered(geo, g0, d.ibm).value;
    && 0 < i && InoGroup(geo, i) < |g0| && InoGroup(geo, i) < |drift0.inodes| == |drift0.dirs|
    && g1 == g0[InoGroup(geo, i) := ClaimDesc(geo, g0[InoGroup(geo, i)], InoBit(geo, i), isDir)]
    && f1 == SatSub(f0, 1) && drift1 == Charge(drift0, InoGroup(geo, i), isDir)
  }

  /** The groups a plan changes. */
  ghost function PlanGroups(plan: seq<PlanEntry>): set<nat> { set k | 0 <= k < |plan| :: plan[k].g }

  lemma PlanGroupsIn(plan: seq<PlanEntry>)
    ensures forall g :: g in PlanGroups(plan) <==> InPlan(plan, g)
  {
  }

  /** The descriptors after the first entries of a plan were committed. */
  ghost predicate Written(gd0: seq<GroupDesc>, gd1: seq<GroupDesc>, groups: seq<GroupDesc>, plan: seq<PlanEntry>) {
    |gd1| == |gd0| == |groups| && forall g :: 0 <= g < |gd0| ==> gd1[g] == if InPlan(plan, g) then groups[g] else gd0[g]
  }

  lemma WrittenNone(gd: seq<GroupDesc>, groups: seq<GroupDesc>)
    requires |gd| == |groups|
    ensures Written(gd, gd, groups, [])
  {
  }

  lemma WrittenMore(gd0: seq<GroupDesc>, gd1: seq<GroupDesc>, groups: seq<GroupDesc>, groups': seq<GroupDesc>,
      plan: seq<PlanEntry>, k: nat)
    requires k < |plan| && Written(gd0, gd1, groups, plan[..k]) && plan[k].g < |gd0| && |groups'| == |groups|
    requires forall i, j :: 0 <= i < j < |plan| ==> plan[i].g != plan[j].g
    requires forall g :: 0 <= g < |groups| && g != plan[k].g ==> groups'[g] == groups[g]
    ensures Written(gd0, gd1[plan[k].g := groups'[plan[k].g]], groups', plan[..k + 1])
  {
    var p := plan[..k];
    assert plan[..k + 1] == p + [plan[k]];
    assert forall j :: 0 <= j < |p| ==> p[j].g == plan[j].g;
    InPlanPush(p, plan[k]);
  }

  lemma PlanDistinct(geo: Geo, now: Bitmaps, view: Bitmaps, plan: seq<PlanEntry>)
    requires PlanOf(geo, now, view, plan)
    ensures forall i, j :: 0 <= i < j < |plan| ==> plan[i].g != plan[j].g
  {
  }

  /** A committed plan has rewritten exactly its groups. */
  lemma PlanRewrote(geo: Geo, d: Disk, g0: seq<GroupDesc>, d': Disk, plan: seq<PlanEntry>, give: bool)
    requires GeoOk(geo) && PlanOf(geo, d.bbm, d'.bbm, plan) && |g0| == |d.ibm| == geo.groups && d'.ibm == d.ibm
    requires forall j :: 0 <= j < |plan| ==> plan[j].g < |g0|
    requires Written(d.gd, d'.gd, Adjust(g0, plan, give), plan)
    ensures Rewrote(geo, d, g0, d', Adjust(g0, plan, give), PlanGroups(plan))
  {
    hide Adjust, GeoOk;
    PlanGroupsIn(plan);
    forall g | 0 <= g < geo.groups ensures !InPlan(plan, g) ==> Adjust(g0, plan, give)[g] == g0[g] {
      AdjustAt(g0, plan, give, g);
    }
  }

  lemma ThreeWrites(log: seq<Write>, a: Write, b: Write, c: Write)
    ensures log + [a] + [b] + [c] == log + [a, b, c]
    ensures !a.Flush? && !b.Flush? && !c.Flush? ==> NoFlush([a, b, c])
  {
  }

  lemma InoPositive(geo: Geo, i: nat)
    requires GeoOk(geo) && InoExists(geo, i)
    ensures 0 < i && InoGroup(geo, i) < geo.groups
  {
  }

  lemma DescShape(geo: Geo, d: Disk)
    requires GeoOk(geo) && CrashSafe(geo, d)
    ensures |d.gd| == |d.ibm| == |d.bbm| == geo.groups
  {
  }

  /** A committed inode has rewritten exactly its group. */
  lemma InodeRewrote(geo: Geo, d: Disk, g0: seq<GroupDesc>, d': Disk, g1: seq<GroupDesc>, i: nat, v: bool)
    requires GeoOk(geo) && 0 < i && InoGroup(geo, i) < |d.ibm| && InoBit(geo, i) < |d.ibm[InoGroup(geo, i)]|
    requires |d.gd| == |g0| == |d.bbm| == |d.ibm| == geo.groups && d'.bbm == d.bbm && d'.ibm == SetIno(geo, d.ibm, i, v)
    requires |g1| == |g0| && (forall g :: 0 <= g < |g0| && g != InoGroup(geo, i) ==> g1[g] == g0[g])
    requires d'.gd == d.gd[InoGroup(geo, i) := g1[InoGroup(geo, i)]]
    ensures Rewrote(geo, d, g0, d', g1, {InoGroup(geo, i)})
  {
    hide GeoOk, InoGroup, InoBit;
  }

  lemma OtherDirs(geo: Geo, dirs: set<nat>, i: nat)
    requires GeoOk(geo) && 0 < i
    ensures forall g: nat :: g != InoGroup(geo, i) ==>
      DirsIn(geo, dirs + {i}, g) == DirsIn(geo, dirs, g) == DirsIn(geo, dirs - {i}, g)
  {
    hide GeoOk, InoGroup;
    forall g: nat | g != InoGroup(geo, i)
      ensures DirsIn(geo, dirs + {i}, g) == DirsIn(geo, dirs, g) == DirsIn(geo, dirs - {i}, g)
    {
      assert forall j :: j in DirsIn(geo, dirs + {i}, g) <==> j in DirsIn(geo, dirs, g);
      assert forall j :: j in DirsIn(geo, dirs - {i}, g) <==> j in DirsIn(geo, dirs, g);
    }
  }

  lemma ClaimOthers(geo: Geo, groups: seq<GroupDesc>, i: nat, isDir: bool)
    requires GeoOk(geo) && 0 < i && InoGroup(geo, i) < |groups|
    ensures forall g :: 0 <= g < |groups| && g != InoGroup(geo, i) ==>
      ClaimGroups(geo, groups, i, isDir)[g] == groups[g] && ReleaseGroups(geo, groups, i, isDir)[g] == groups[g]
  {
  }

  ghost function DirsOn(geo: Geo, d: Disk): set<nat>
    requires GeoOk(geo)
  {
    set i | i in d.inodes && IsDir(geo, d, i)
  }

  /** How far the counters of a mounted medium are from its bitmaps. */
  ghost function DriftOf(geo: Geo, d: Disk): Drift
    requires GeoOk(geo) && CrashSafe(geo, d)
  {
    var dirs, groups := DirsOn(geo, d), d.gd;
    Drift(
      seq(geo.groups, g requires 0 <= g < geo.groups => groups[g].freeBlocks - FreeIn(geo, d.bbm, g)),
      seq(geo.groups, g requires 0 <= g < geo.groups => groups[g].freeInodes - Zeros(d.ibm[g], geo.iper)),
      seq(geo.groups, g requires 0 <= g < geo.groups => SatSub(groups[g].usedDirs, |DirsIn(geo, dirs, g)|)),
      TailFree(geo, groups, d.ibm),
      forall g :: 0 <= g < geo.groups ==> |DirsIn(geo, dirs, g)| <= groups[g].usedDirs)
  }

  lemma MountedOk(geo: Geo, d: Disk)
    requires GeoOk(geo) && CrashSafe(geo, d)
    ensures SafeHistory(geo, d, []) && Replay(d, []) == d && HeldOk(geo, d, d.gd, map[]) && |d.gd| == geo.groups
    ensures BlockCount(geo, d.gd, d.bbm, DriftOf(geo, d).blocks)
    ensures InodeSide(geo, d, d.gd, DirsOn(geo, d), DriftOf(geo, d))
  {
    hide GeoOk, Backed, Unshared, DirsOk, NamesLive, NamesUnique, FreeIn, Zeros, DirsIn;
    assert Tracked(geo, d, DirsOn(geo, d));
    assert InodeCount(geo, d.gd, d.ibm, DriftOf(geo, d).inodes);
    var dirs, drift := DirsOn(geo, d), DriftOf(geo, d);
    if drift.dirsKept {
      forall g | 0 <= g < geo.groups ensures d.gd[g].usedDirs == drift.dirs[g] + |DirsIn(geo, dirs, g)| {
        assert drift.dirs[g] == SatSub(d.gd[g].usedDirs, |DirsIn(geo, dirs, g)|);
      }
    }
  }

  ghost function Nothing(n: nat): (r: seq<Owed>)
    ensures |r| == n && Clear(r)
  {
    seq(n, _ => Owed(0, 0))
  }

  lemma MountedSaved(geo: Geo, d: Disk)
    requires GeoOk(geo) && CrashSafe(geo, d)
    ensures Saved(geo, d, d.gd, d.freeBlocks, DirsOn(geo, d), DriftOf(geo, d), Nothing(geo.groups))
  {
    MountedOk(geo, d);
    hide InodeSide, BlockCount, GeoOk, CrashSafe, HeldOk, SafeHistory, FreeIn, Zeros, DirsIn, TailFree;
    var drift := DriftOf(geo, d);
    assert OnMedium(drift, Nothing(geo.groups)).inodes == drift.inodes;
    assert OnMedium(drift, Nothing(geo.groups)).dirs == drift.dirs;
  }

  /** The blocks unfinished files hold are as they were. */
  ghost predicate HeldKept(h: map<nat, set<nat>>, x: map<nat, Content>, y: map<nat, Content>) {
    forall i, b :: i in h && b in h[i] ==> (b in x <==> b in y) && (b in x ==> x[b] == y[b])
  }

  lemma HeldKeptRefl(h: map<nat, set<nat>>, x: map<nat, Content>)
    ensures HeldKept(h, x, x)
  {
  }

  lemma HeldKeptTrans(h: map<nat, set<nat>>, x: map<nat, Content>, y: map<nat, Content>, z: map<nat, Content>)
    requires HeldKept(h, x, y) && HeldKept(h, y, z)
    ensures HeldKept(h, x, z)
  {
  }

  /** A directory's own blocks are nobody's to hold. */
  lemma DirWriteKeeps(geo: Geo, d: Disk, groups: seq<GroupDesc>, held: map<nat, set<nat>>, dir: nat, b: nat, c: Content)
    requires GeoOk(geo) && HeldOk(geo, d, groups, held) && InUse(geo, d, dir) && b in DataOf(d.blocks, d.inodes[dir])
    ensures HeldKept(held, d.blocks, d.blocks[b := c])
  {
    hide GeoOk, IUsed, DataOf, MetaOf, HeldIno, BUsed;
    assert b in NamedBy(d.blocks, d.inodes[dir]);
    assert !Free(geo, d, b);
  }

  /** Blocks just claimed were held by nobody. */
  lemma ReservedKeeps(geo: Geo, d0: Disk, g0: seq<GroupDesc>, held: map<nat, set<nat>>, d1: Disk, g1: seq<GroupDesc>,
      i: nat, isDir: bool, s: seq<nat>)
    requires GeoOk(geo) && HeldOk(geo, d0, g0, held) && Reserved(geo, d0, g0, d1, g1, i, isDir, s)
    requires SameOutside(d0.blocks, d1.blocks, s)
    ensures HeldKept(held, d0.blocks, d1.blocks)
  {
    hide GeoOk, IUsed, HeldIno, BUsed, Marked, SetIno, ClaimGroups, SameInodeSide, InoGroup, InoBit, Free;
    assert forall j, b :: j in held && b in held[j] ==> b !in s;
  }

  lemma DirsSame(dirs: set<nat>)
    ensures dirs + {} == dirs
  {
  }

  lemma OutsideTrans(x: map<nat, Content>, y: map<nat, Content>, z: map<nat, Content>, s: seq<nat>)
    requires SameOutside(x, y, s) && SameOutside(y, z, s)
    ensures SameOutside(x, z, s)
  {
  }

  lemma GeoFirst(geo: Geo)
    requires GeoOk(geo)
    ensures 0 < geo.firstIno && 0 < geo.groups
  {
  }

  lemma UntouchedSafe(geo: Geo, d: Disk, blocks': map<nat, Content>)
    requires GeoOk(geo) && CrashSafe(geo, d) && Untouched(geo, d, blocks')
    ensures CrashSafe(geo, d.(blocks := blocks'))
  {
    StepContents(geo, d, blocks');
  }

  lemma HeldFacts(geo: Geo, d: Disk, groups: seq<GroupDesc>, held: map<nat, set<nat>>, i: nat)
    requires GeoOk(geo) && HeldOk(geo, d, groups, held) && i in held
    ensures !InUse(geo, d, i) && HeldIno(geo, d, groups, i)
  {
  }

  lemma SidePublish(geo: Geo, d: Disk, groups: seq<GroupDesc>, dirs: set<nat>, drift: Drift, i: nat, rec: Record)
    requires GeoOk(geo) && InodeSide(geo, d, groups, dirs, drift) && rec.Inode? && (rec.kind == Dir <==> i in dirs)
    ensures InodeSide(geo, Apply(d, WInode(i, rec)), groups, dirs, drift)
  {
    hide InodeCount, TailFree, DirCount, IUsed, GeoOk, ShapedI;
    var d' := Apply(d, WInode(i, rec));
    assert forall j :: j != i && InUse(geo, d', j) ==> InUse(geo, d, j) && d'.inodes[j] == d.inodes[j];
  }

  lemma PublishedInUse(geo: Geo, d: Disk, i: nat, rec: Record)
    requires GeoOk(geo) && IUsed(geo, d.ibm, i) && rec.Inode?
    ensures InUse(geo, Apply(d, WInode(i, rec)), i)
  {
  }

  lemma NamedWitness(es: seq<Entry>, e: Entry)
    requires e in es
    ensures Named(es, e.name)
  {
    var i :| 0 <= i < |es| && es[i] == e;
    assert es[i].name == e.name;
  }

  lemma NewEntryOk(geo: Geo, d: Disk, e: Entry)
    requires GeoOk(geo) && InUse(geo, d, e.ino) && e.ino < U32_LIMIT && NameOk(e.name)
    ensures EntryOk(e) && Real(e)
  {
  }

  lemma RoomFound(geo: Geo, d: Disk, dir: nat, b: nat, e: Entry)
    requires DirBlockOk(geo, d.blocks, b) && EntryOk(e) && Insert(d.blocks[b].chain, e).Some?
    ensures exists k :: 0 <= k < |d.blocks[b].chain| && Fits(d.blocks[b].chain[k], RecordLen(|e.name|))
  {
    hide RecordLen, Insert, Fits;
    InsertCorrect(d.blocks[b].chain, e);
  }

  lemma FullDirectory(geo: Geo, d: Disk, dir: nat, e: Entry)
    requires GeoOk(geo) && CrashSafe(geo, d) && IsDir(geo, d, dir) && EntryOk(e)
    requires
      var bs := DataOf(d.blocks, d.inodes[dir]);
      forall j :: 0 <= j < |bs| ==>
        bs[j] in d.blocks && d.blocks[bs[j]].DirBlock? && Insert(d.blocks[bs[j]].chain, e).None?
    ensures forall b :: b in DataOf(d.blocks, d.inodes[dir]) && b in d.blocks && d.blocks[b].DirBlock? ==>
      forall k :: 0 <= k < |d.blocks[b].chain| ==> !Fits(d.blocks[b].chain[k], RecordLen(|e.name|))
  {
    hide CrashSafe, GeoOk, DataOf, RecordLen, Insert, Fits;
    DirParts(geo, d, dir);
    forall b | b in DataOf(d.blocks, d.inodes[dir])
      ensures forall k :: 0 <= k < |d.blocks[b].chain| ==> !Fits(d.blocks[b].chain[k], RecordLen(|e.name|))
    {
      InsertCorrect(d.blocks[b].chain, e);
    }
  }

  lemma NameReal(name: Name)
    requires NameOk(name)
    ensures name != DOT && name != DOTDOT
  {
  }

  lemma RemoveInBlock(geo: Geo, blocks: map<nat, Content>, b: nat, name: Name)
    requires DirBlockOk(geo, blocks, b)
    ensures Remove(blocks[b].chain, name).Some? <==> Named(BlockEntries(blocks, b), name)
  {
    RemoveCorrect(blocks[b].chain, name);
  }

  /** A name is in one block of a directory. */
  lemma {:induction false} OneHolder(blocks: map<nat, Content>, bs: seq<nat>, i: nat, k: nat, name: Name)
    requires i < k < |bs| && Named(BlockEntries(blocks, bs[i]), name) && Named(BlockEntries(blocks, bs[k]), name)
    ensures !DistinctNames(EntriesIn(blocks, bs))
  {
    hide BlockEntries;
    var n := |bs| - 1;
    var p, q := EntriesIn(blocks, bs[..n]), BlockEntries(blocks, bs[n]);
    var es := EntriesIn(blocks, bs);
    assert es == p + q;
    if k < n {
      OneHolder(blocks, bs[..n], i, k, name);
      var x, y :| 0 <= x < y < |p| && p[x].name == p[y].name;
      assert es[x].name == es[y].name;
    } else {
      var u :| 0 <= u < |BlockEntries(blocks, bs[i])| && BlockEntries(blocks, bs[i])[u].name == name;
      var e := BlockEntries(blocks, bs[i])[u];
      assert bs[..n][i] == bs[i];
      BlockInDir(blocks, bs[..n], i, e);
      var x :| 0 <= x < |p| && p[x] == e;
      var y :| 0 <= y < |q| && q[y].name == name;
      assert es[x].name == es[|p| + y].name;
    }
  }

  /** What the directory has room for once block `b` lost the name `out`. */
  lemma RoomAfter(geo: Geo, d: Disk, dir: nat, k: nat, out: Name)
    requires GeoOk(geo) && CrashSafe(geo, d) && IsDir(geo, d, dir) && k < |DataOf(d.blocks, d.inodes[dir])|
    requires
      var b := DataOf(d.blocks, d.inodes[dir])[k];
      b in d.blocks && d.blocks[b].DirBlock? && Remove(d.blocks[b].chain, out).Some?
      && DataOf(d.blocks[b := DirBlock(Remove(d.blocks[b].chain, out).value)], d.inodes[dir])
         == DataOf(d.blocks, d.inodes[dir])
    ensures
      var b := DataOf(d.blocks, d.inodes[dir])[k];
      forall n: Name :: NoRoom(Apply(d, WBlock(b, DirBlock(Remove(d.blocks[b].chain, out).value))), dir, n) <==>
        NoRoomWithout(d, dir, out, n)
  {
    hide GeoOk, CrashSafe, DataOf, Remove, IUsed, NoRoom, NoRoomWithout;
    var bs := DataOf(d.blocks, d.inodes[dir]);
    var d' := Apply(d, WBlock(bs[k], DirBlock(Remove(d.blocks[bs[k]].chain, out).value)));
    OnlyHolder(geo, d, dir, k, out);
    forall n: Name ensures NoRoom(d', dir, n) <==> NoRoomWithout(d, dir, out, n) { RoomIs(d, d', dir, out, n); }
  }

  lemma OnlyHolder(geo: Geo, d: Disk, dir: nat, k: nat, out: Name)
    requires GeoOk(geo) && CrashSafe(geo, d) && IsDir(geo, d, dir) && k < |DataOf(d.blocks, d.inodes[dir])|
    requires
      var b := DataOf(d.blocks, d.inodes[dir])[k];
      b in d.blocks && d.blocks[b].DirBlock? && Remove(d.blocks[b].chain, out).Some?
    ensures
      var bs := DataOf(d.blocks, d.inodes[dir]);
      forall x :: x in bs && x in d.blocks && d.blocks[x].DirBlock? && x != bs[k] ==>
        Remove(d.blocks[x].chain, out).None?
  {
    DirNames(geo, d, dir);
    DirParts(geo, d, dir);
    hide GeoOk, CrashSafe, DataOf, Remove, IUsed, DirBlockOk, BlockEntries, EntriesIn, DistinctNames;
    var bs := DataOf(d.blocks, d.inodes[dir]);
    assert bs[k] in bs;
    RemoveInBlock(geo, d.blocks, bs[k], out);
    forall x | x in bs && x in d.blocks && d.blocks[x].DirBlock? && x != bs[k]
      ensures Remove(d.blocks[x].chain, out).None?
    {
      var i :| 0 <= i < |bs| && bs[i] == x;
      RemoveInBlock(geo, d.blocks, x, out);
      if Named(BlockEntries(d.blocks, x), out) {
        if i < k { OneHolder(d.blocks, bs, i, k, out); } else { OneHolder(d.blocks, bs, k, i, out); }
      }
    }
  }

  lemma RoomIs(d: Disk, d': Disk, dir: nat, out: Name, n: Name)
    requires dir in d.inodes && d'.inodes == d.inodes
    requires DataOf(d'.blocks, d.inodes[dir]) == DataOf(d.blocks, d.inodes[dir])
    requires forall x :: x in DataOf(d.blocks, d.inodes[dir]) ==>
      if x in d.blocks && d.blocks[x].DirBlock?
      then x in d'.blocks && d'.blocks[x] == DirBlock(Removed(d.blocks[x].chain, out))
      else x in d.blocks <==> x in d'.blocks && (x in d.blocks ==> d'.blocks[x] == d.blocks[x])
    ensures NoRoom(d', dir, n) <==> NoRoomWithout(d, dir, out, n)
  {
    hide DataOf, Removed, Fits, RecordLen;
  }

  lemma OutsideRefl(blocks: map<nat, Content>, s: seq<nat>)
    ensures SameOutside(blocks, blocks, s)
  {
  }

  lemma StoredLen(blocks: map<nat, Content>, flat: seq<nat>, data: seq<byte>, bs: nat, to: nat)
    requires Stored(blocks, flat, data, bs, 0, to)
    ensures to <= |flat|
  {
  }

  lemma NothingStored(blocks: map<nat, Content>, flat: seq<nat>, data: seq<byte>, bs: nat)
    ensures Stored(blocks, flat, data, bs, 0, 0)
  {
  }

  lemma RunsStart(rs: seq<Run>)
    ensures FlatRuns(rs[..0]) == []
  {
  }

  /** Run `k` of an end-to-end layout starts where the runs before it end. */
  lemma RunSpan(rs: seq<Run>, k: nat)
    requires Tiled(rs) && k < |rs|
    ensures
      var l := |FlatRuns(rs[..k])|;
      && 0 < rs[k].len && l + rs[k].len <= |FlatRuns(rs)|
      && FlatRuns(rs)[l..l + rs[k].len] == Span(rs[k].physical, rs[k].len)
      && |FlatRuns(rs[..k + 1])| == l + rs[k].len
  {
    RunSlice(rs, k);
    assert rs[..k + 1] == rs[..k] + [rs[k]];
    FlatRunsPush(rs[..k], rs[k]);
  }

  lemma SpanPart(flat: seq<nat>, from: nat, b: nat, n: nat, skip: nat, m: nat)
    requires from + n <= |flat| && flat[from..from + n] == Span(b, n) && skip + m <= n
    ensures flat[from + skip..from + skip + m] == Span(b + skip, m)
  {
    var part := flat[from + skip..from + skip + m];
    forall k | 0 <= k < m ensures part[k] == Span(b + skip, m)[k] {
      assert flat[from + skip + k] == flat[from..from + n][skip + k];
    }
  }

  /** How the bytes of a file of `size` fall on a run of `len` blocks that
      starts at block `l` of `n`. */
  lemma RunBytes(size: nat, bs: nat, l: nat, len: nat, n: nat)
    requires 0 < bs && n == CeilDiv(size, bs) && 0 < len && l + len <= n
    ensures
      var done := Min(l * bs, size);
      var take := Min(len * bs, size - done);
      var full := take / bs;
      && done == l * bs && done / bs == l
      && full * bs <= take
      && (if full * bs == take then full == len else full + 1 == len)
      && done + take == Min((l + len) * bs, size)
  {
    RunStarts(size, bs, l, len, n);
    DivModUnique(l, 0, bs);
    PartOfRun(len, bs, size - l * bs);
  }

  /** A run begins inside the file, and so does its last block. */
  lemma RunStarts(size: nat, bs: nat, l: nat, len: nat, n: nat)
    requires 0 < bs && n == CeilDiv(size, bs) && 0 < len && l + len <= n
    ensures l * bs < size && (l + len) * bs == l * bs + len * bs && l * bs + len * bs < size + bs
  {
    CeilBounds(size, bs);
    hide CeilDiv;
    MulMono(l + len - 1, n - 1, bs);
    MulMono(l, l + len - 1, bs);
    Distribute(l, len, bs);
    Distribute(l + len - 1, 1, bs);
  }

  /** Whole blocks of a run, and whether a part of one is left. */
  lemma PartOfRun(len: nat, bs: nat, left: nat)
    requires 0 < bs && 0 < len && (len * bs > left ==> len * bs - bs < left)
    ensures
      var take := Min(len * bs, left);
      var full := take / bs;
      full * bs <= take && if full * bs == take then full == len else full + 1 == len
  {
    if len * bs <= left {
      DivModUnique(len, 0, bs);
    } else {
      assert (len - 1) * bs == len * bs - bs;
      DivModUnique(len - 1, left - (len - 1) * bs, bs);
    }
  }

  ghost predicate NoFlush(ws: seq<Write>) {
    forall k :: 0 <= k < |ws| ==> !ws[k].Flush?
  }

  /** The writes that claim or release inode `i`. */
  ghost predicate IdleOut(i: nat, ws: seq<Write>) {
    |ws| == 4 && ws[0] == WInode(i, Blank) && ws[1].WInodeBitmap? && ws[2].WGroupDesc? && ws[3].WSuper?
  }

  /** Inode `t`, in use and unnamed on medium `m`, is released with its blocks
      by the writes `s1` and `s2`, which lead to medium `after`. */
  ghost predicate Erasing(geo: Geo, m: Disk, after: Disk, t: nat, s1: seq<Write>, s2: seq<Write>)
    requires GeoOk(geo)
  {
    && InUse(geo, m, t) && Unnamed(geo, m, t) && IdleOut(t, s1)
    && BlockSide(s2) && Clearing(geo, NamedBy(m.blocks, m.inodes[t]), s2)
    && forall j :: IUsed(geo, after.ibm, j) <==> IUsed(geo, m.ibm, j) && j != t
  }

  /** The writes that claim inode `i`, then those that claim its blocks. */
  ghost predicate ClaimSteps(i: nat, ws: seq<Write>) {
    exists s1, s2 :: ws == s1 + s2 && IdleOut(i, s1) && BlockSide(s2)
  }

  lemma ClaimStepsAre(i: nat, s1: seq<Write>, s2: seq<Write>)
    requires IdleOut(i, s1) && BlockSide(s2)
    ensures ClaimSteps(i, s1 + s2)
  {
    hide IdleOut, BlockSide;
  }

  /** Block bitmap and counter writes, and nothing else. */
  ghost predicate BlockSide(ws: seq<Write>) {
    forall k :: 0 <= k < |ws| ==> ws[k].WBlockBitmap? || ws[k].WGroupDesc? || ws[k].WSuper?
  }

  lemma BlockSideNone()
    ensures BlockSide([]) && NoFlush([])
  {
  }

  lemma NoFlushNone()
    ensures NoFlush([])
  {
  }

  lemma BlockSideNoFlush(ws: seq<Write>)
    requires BlockSide(ws)
    ensures NoFlush(ws)
  {
  }

  lemma BlockSideConcat(x: seq<Write>, y: seq<Write>)
    requires BlockSide(x) && BlockSide(y)
    ensures BlockSide(x + y)
  {
  }

  lemma ClearingNone(geo: Geo, s: seq<nat>)
    requires GeoOk(geo)
    ensures BlockSide([]) && Clearing(geo, s, [])
  {
  }

  lemma CommitBlockSide(ws: seq<Write>)
    requires CommitOrdered(ws)
    ensures BlockSide(ws)
  {
    var ps := ws[..|ws| - 1];
    forall k | 0 <= k < |ws| - 1 ensures ws[k].WBlockBitmap? || ws[k].WGroupDesc? {
      assert ps[2 * (k / 2)].WBlockBitmap? && ps[2 * (k / 2) + 1].WGroupDesc?;
      assert ps[k] == ws[k];
    }
  }

  lemma NoFlushConcat(a: seq<Write>, b: seq<Write>)
    requires NoFlush(a) && NoFlush(b)
    ensures NoFlush(a + b)
  {
  }

  /** Everything a file owns is marked used. */
  lemma ReleasedOwned(geo: Geo, d: Disk, groups: seq<GroupDesc>, held: map<nat, set<nat>>, dirs: set<nat>, drift: Drift,
      i: nat, s: seq<nat>)
    requires GeoOk(geo) && CrashSafe(geo, d) && HeldOk(geo, d, groups, held) && NoDup(s)
    requires forall b :: b in s ==>
      (i in held && b in held[i]) || (InUse(geo, d, i) && b in NamedBy(d.blocks, d.inodes[i]))
    ensures Releasable(geo, d.bbm, s)
  {
    hide NamedBy, BUsed, GeoOk, DirsOk, NamesLive, NamesUnique, Unshared, IUsed, HeldIno, DiskOk, NoDup;
  }

  /** Once its inode is gone, what a file owned belongs to nobody. */
  lemma OwnedLoose(geo: Geo, d: Disk, d': Disk, groups: seq<GroupDesc>, held: map<nat, set<nat>>, i: nat, s: seq<nat>)
    requires GeoOk(geo) && CrashSafe(geo, d) && HeldOk(geo, d, groups, held)
    requires forall b :: b in s ==>
      (i in held && b in held[i]) || (InUse(geo, d, i) && b in NamedBy(d.blocks, d.inodes[i]))
    requires 0 < i && InoGroup(geo, i) < |d.ibm| && InoBit(geo, i) < |d.ibm[InoGroup(geo, i)]|
    requires d'.inodes == d.inodes[i := Blank] && d'.ibm == SetIno(geo, d.ibm, i, false) && d'.blocks == d.blocks
    ensures Loose(geo, d', held - {i}, s)
  {
    hide GeoOk, CrashSafe, IUsed, ShapedI, SetIno, InoGroup, InoBit, HeldOk, InUse, NamedBy, Free;
    CrashShape(geo, d, i);
    SlotInUse(geo, d, d', i, false);
    forall b | b in s ensures Free(geo, d', b) {
      if i in held && b in held[i] {
        HeldIsFree(geo, d, groups, held, i, b);
      } else {
        NamedOnce(geo, d, d', i, b);
      }
    }
    OwnedApart(geo, d, groups, held, i, s);
  }

  lemma HeldIsFree(geo: Geo, d: Disk, groups: seq<GroupDesc>, held: map<nat, set<nat>>, i: nat, b: nat)
    requires GeoOk(geo) && HeldOk(geo, d, groups, held) && i in held && b in held[i]
    ensures Free(geo, d, b)
  {
  }

  lemma NamedOnce(geo: Geo, d: Disk, d': Disk, i: nat, b: nat)
    requires GeoOk(geo) && CrashSafe(geo, d) && InUse(geo, d, i) && b in NamedBy(d.blocks, d.inodes[i])
    requires d'.blocks == d.blocks
    requires forall j :: InUse(geo, d', j) ==> j != i && InUse(geo, d, j) && d'.inodes[j] == d.inodes[j]
    ensures Free(geo, d', b)
  {
    hide NamedBy, GeoOk, IUsed, Backed, DirsOk, NamesLive, NamesUnique, DiskOk, NoDup;
  }

  lemma OwnedApart(geo: Geo, d: Disk, groups: seq<GroupDesc>, held: map<nat, set<nat>>, i: nat, s: seq<nat>)
    requires GeoOk(geo) && HeldOk(geo, d, groups, held)
    requires forall b :: b in s ==>
      (i in held && b in held[i]) || (InUse(geo, d, i) && b in NamedBy(d.blocks, d.inodes[i]))
    ensures forall j, b :: j in held && j != i && b in s ==> b !in held[j]
  {
    hide NamedBy, GeoOk, IUsed, HeldIno, BUsed;
    forall j, b | j in held && j != i && b in held[j] ensures b !in s {
      assert Free(geo, d, b);
    }
  }

  lemma CrashShape(geo: Geo, d: Disk, i: nat)
    requires GeoOk(geo) && CrashSafe(geo, d) && 0 < i && InoGroup(geo, i) < |d.ibm|
    ensures ShapedI(geo, d.ibm) && InoGroup(geo, i) < geo.groups && InoBit(geo, i) < geo.iper
  {
    InoOfCell(geo, i);
  }

  /** What an unfinished file has been given. */
  datatype Reservation = Reservation(ino: nat, extents: seq<Extent>, runs: seq<Run>, leaf: Option<nat>)

  function LeafSeq(leaf: Option<nat>): seq<nat> { if leaf.Some? then [leaf.value] else [] }

  ghost predicate ReservationOk(geo: Geo, v: Reservation)
    requires GeoOk(geo)
  {
    && Tiled(v.runs) && |v.runs| <= MaxRuns(geo) && (v.leaf.Some? <==> |v.runs| > MAX_INLINE_EXTENTS)
    && Flat(v.extents) == FlatRuns(v.runs) + LeafSeq(v.leaf) && NoDup(Flat(v.extents))
  }

  /** What the medium `d0` says of an in-use inode, `blocks` still says: the
      same blocks, the same entries, and for a file the same contents. */
  ghost predicate Intact(x: map<nat, Content>, y: map<nat, Content>, r: Record) {
    && NamedBy(x, r) == NamedBy(y, r) && EntriesOf(x, r) == EntriesOf(y, r)
    && (r.Inode? && r.kind != Dir ==> AgreeOn(x, y, NamedBy(x, r)))
  }

  /** Every file and directory of `d0` is still there in `d1`. */
  ghost predicate Undisturbed(geo: Geo, d0: Disk, d1: Disk)
    requires GeoOk(geo)
  {
    forall i :: InUse(geo, d0, i) ==>
      i in d1.inodes && d1.inodes[i] == d0.inodes[i] && Intact(d0.blocks, d1.blocks, d0.inodes[i])
  }

  ghost predicate SameCounts(g0: seq<GroupDesc>, g1: seq<GroupDesc>) {
    |g0| == |g1| && forall g :: 0 <= g < |g0| ==>
      g1[g].freeBlocks == g0[g].freeBlocks && g1[g].freeInodes == g0[g].freeInodes && g1[g].usedDirs == g0[g].usedDirs
  }

  /** A refused operation left the bitmaps, the group counters and every file
      and directory as they were and made no new one; the counters on the medium
      are as they were too, if they were those in memory. */
  ghost predicate Restored(geo: Geo, d0: Disk, g0: seq<GroupDesc>, d1: Disk, g1: seq<GroupDesc>)
    requires GeoOk(geo)
  {
    && d1.bbm == d0.bbm && d1.ibm == d0.ibm && SameCounts(g0, g1) && Undisturbed(geo, d0, d1)
    && (d0.gd == g0 ==> d1.gd == g1)
    && forall j :: InUse(geo, d1, j) ==> InUse(geo, d0, j)
  }

  /** No group offers an inode. */
  ghost predicate NoInode(geo: Geo, d: Disk, groups: seq<GroupDesc>)
    requires GeoOk(geo)
  {
    |groups| == geo.groups && ShapedI(geo, d.ibm) && Offered(geo, groups, d.ibm).None?
  }

  /** The groups together offer fewer than `n` blocks. */
  ghost predicate Short(geo: Geo, d: Disk, groups: seq<GroupDesc>, n: nat) {
    SupplyOk(geo, groups, d.bbm) && SupplyFrom(geo, groups, d.bbm, 0, geo.groups) < n
  }

  /** The extents of a file of `n` blocks, none longer than an extent can be. */
  ghost function Needs(geo: Geo, d: Disk, groups: seq<GroupDesc>, n: nat): nat {
    if SupplyOk(geo, groups, d.bbm) then Pieces(Coalesced(Allotted(geo, groups, d.bbm, 0, n))) else 0
  }

  /** A file of `n` blocks needs a leaf for its extents, and gets it. */
  ghost predicate Leafy(geo: Geo, d: Disk, groups: seq<GroupDesc>, n: nat)
    requires GeoOk(geo)
  {
    MAX_INLINE_EXTENTS < Needs(geo, d, groups, n) <= MaxRuns(geo) && !Short(geo, d, groups, n + 1)
  }

  /** When a file of `n` blocks finds no place: no inode, one the superblock
      does not admit, no room, more extents than a leaf holds, or no leaf. */
  ghost predicate Unplaceable(geo: Geo, d: Disk, groups: seq<GroupDesc>, n: nat)
    requires GeoOk(geo)
  {
    || NoInode(geo, d, groups) || Overrun(geo, d, groups) || Short(geo, d, groups, n)
    || (MAX_INLINE_EXTENTS < Needs(geo, d, groups, n) && !Leafy(geo, d, groups, n))
  }

  /** When a directory finds no place: no inode, one the superblock does not
      admit, no room, or the first data block, which no directory may have. */
  ghost predicate Unhoused(geo: Geo, d: Disk, groups: seq<GroupDesc>)
    requires GeoOk(geo)
  {
    NoInode(geo, d, groups) || Overrun(geo, d, groups) || Short(geo, d, groups, 1) || FirstOffered(geo, d, groups)
  }

  ghost predicate FirstOffered(geo: Geo, d: Disk, groups: seq<GroupDesc>) {
    SupplyOk(geo, groups, d.bbm) && Choice(geo, groups, d.bbm, 0, geo.groups, 1) == [geo.first]
  }

  /** What `free_inode` accepts. */
  ghost predicate Freeable(geo: Geo, d: Disk, gs: seq<GroupDesc>, i: nat)
    requires GeoOk(geo)
  {
    && geo.firstIno <= i && InoExists(geo, i) && InoGroup(geo, i) < |gs| && !gs[InoGroup(geo, i)].inodeUninit
    && IUsed(geo, d.ibm, i)
  }

  /** No inode bitmap came out of use in between. */
  ghost predicate Thawed(g0: seq<GroupDesc>, g1: seq<GroupDesc>) {
    |g1| == |g0| && forall g :: 0 <= g < |g0| && g1[g].inodeUninit ==> g0[g].inodeUninit
  }

  lemma ThawedTrans(g0: seq<GroupDesc>, g1: seq<GroupDesc>, g2: seq<GroupDesc>)
    requires Thawed(g0, g1) && Thawed(g1, g2)
    ensures Thawed(g0, g2)
  {
  }

  lemma ThawedSide(g0: seq<GroupDesc>, g1: seq<GroupDesc>)
    requires SameInodeSide(g1, g0)
    ensures Thawed(g0, g1)
  {
  }

  lemma ThawedRelease(geo: Geo, g: seq<GroupDesc>, i: nat, wasDir: bool)
    requires GeoOk(geo) && 0 < i && InoGroup(geo, i) < |g|
    ensures Thawed(g, ReleaseGroups(geo, g, i, wasDir))
  {
    hide GeoOk, InoGroup;
  }

  /** No record of the directory has the slack for this name. */
  ghost predicate NoRoom(d: Disk, dir: nat, name: Name)
    requires dir in d.inodes
  {
    forall b :: b in DataOf(d.blocks, d.inodes[dir]) && b in d.blocks && d.blocks[b].DirBlock? ==>
      forall k :: 0 <= k < |d.blocks[b].chain| ==> !Fits(d.blocks[b].chain[k], RecordLen(|name|))
  }

  /** Nor has one once the name `out` is removed. */
  ghost predicate NoRoomWithout(d: Disk, dir: nat, out: Name, name: Name)
    requires dir in d.inodes
  {
    forall b :: b in DataOf(d.blocks, d.inodes[dir]) && b in d.blocks && d.blocks[b].DirBlock? ==>
      forall k :: 0 <= k < |Removed(d.blocks[b].chain, out)| ==>
        !Fits(Removed(d.blocks[b].chain, out)[k], RecordLen(|name|))
  }

  /** When `link_file` refuses: a bad name, something that is not a plain
      directory, a name already taken, a corrupt block pointer, no room. */
  ghost predicate LinkRefused(geo: Geo, d: Disk, dir: nat, name: Name)
    requires GeoOk(geo) && InUse(geo, d, dir)
  {
    || !NameOk(name) || !IsDir(geo, d, dir) || Sealed(d.inodes[dir])
    || Named(EntriesOf(d.blocks, d.inodes[dir]), name)
    || (exists b :: b in DataOf(d.blocks, d.inodes[dir]) && b <= geo.first)
    || NoRoom(d, dir, name)
  }

  /** What a file of `n` blocks claims before it is complete or refused: no
      inode and no block when there is no inode, no block when there are too few,
      and otherwise the blocks and the leaf it needs and gets. */
  ghost predicate Tally(geo: Geo, d: Disk, groups: seq<GroupDesc>, n: nat, nb: nat, ni: nat)
    requires GeoOk(geo)
  {
    nb == BlocksClaimed(geo, d, groups, n) && ni == InodesClaimed(geo, d, groups)
  }

  ghost function InodesClaimed(geo: Geo, d: Disk, groups: seq<GroupDesc>): nat
    requires GeoOk(geo)
  {
    if NoInode(geo, d, groups) then 0 else 1
  }

  ghost function BlocksClaimed(geo: Geo, d: Disk, groups: seq<GroupDesc>, n: nat): nat
    requires GeoOk(geo)
  {
    if NoInode(geo, d, groups) || Short(geo, d, groups, n) then 0 else n + (if Leafy(geo, d, groups, n) then 1 else 0)
  }

  /** What is claimed for `n` blocks and, once these are there, `more`. */
  ghost predicate Claims(geo: Geo, d: Disk, groups: seq<GroupDesc>, n: nat, more: nat, nb: nat, ni: nat)
    requires GeoOk(geo)
  {
    && ni == (if NoInode(geo, d, groups) then 0 else 1)
    && nb == if NoInode(geo, d, groups) || Short(geo, d, groups, n) then 0 else n + more
  }

  /** A superblock counter from which `n` were taken, stopping at zero, and to
      which `n` were given back: what it was, exactly if it was at least `n`. */
  predicate Recount(before: nat, after: nat, n: nat) {
    after == Max(before, n) && (after == before <==> n <= before)
  }

  lemma Recounted(a: nat, n: nat)
    ensures Recount(a, SatSub(a, n) + n, n) && Recount(a, a, 0)
  {
  }

  /** A mounted filesystem, but for what unfinished operations hold. */
  datatype State = State(disk: Disk, groups: seq<GroupDesc>, freeBlocks: nat, freeInodes: nat, drift: Drift,
      owed: seq<Owed>)

  /** No cell was charged in between, and a medium that had the counters of the
      memory has them again. */
  ghost predicate Keeps(a: State, b: State) {
    && b.drift == a.drift && (Clear(a.owed) ==> Clear(b.owed))
    && (a.disk.freeInodes == a.freeInodes ==> b.disk.freeInodes == b.freeInodes)
  }

  /** Everything claimed since `a`, at most `nb` blocks and `ni` inodes at a
      time, is back. */
  ghost predicate BackTo(geo: Geo, a: State, b: State, nb: nat, ni: nat)
    requires GeoOk(geo)
  {
    && Restored(geo, a.disk, a.groups, b.disk, b.groups) && Keeps(a, b)
    && Recount(a.freeBlocks, b.freeBlocks, nb) && Recount(a.freeInodes, b.freeInodes, ni)
  }

  /** What a refused creation leaves: nothing, but for the charge of a number
      beyond the inode count. */
  ghost predicate Refusal(geo: Geo, a: State, b: State, error: Error, isDir: bool, nb: nat, ni: nat)
    requires GeoOk(geo)
  {
    if error == BadInode then
      && b.disk == a.disk && b.freeBlocks == a.freeBlocks
      && ChargedTo(geo, a.disk, a.groups, a.freeInodes, a.drift, b.groups, b.freeInodes, b.drift, isDir)
    else BackTo(geo, a, b, nb, ni)
  }

  /** A state from which something may be claimed and returned. */
  ghost predicate Began(geo: Geo, a: State)
    requires GeoOk(geo)
  {
    && CrashSafe(geo, a.disk) && BlockCount(geo, a.groups, a.disk.bbm, a.drift.blocks)
    && (a.disk.gd == a.groups ==> Clear(a.owed))
  }

  lemma BackSame(geo: Geo, a: State)
    requires GeoOk(geo)
    ensures BackTo(geo, a, a, 0, 0)
  {
    hide GeoOk, Restored;
    RestoredRefl(geo, a.disk, a.groups);
  }

  lemma RefusalBack(geo: Geo, a: State, b: State, error: Error, isDir: bool, nb: nat, ni: nat)
    requires GeoOk(geo) && BackTo(geo, a, b, nb, ni) && error != BadInode
    ensures Refusal(geo, a, b, error, isDir, nb, ni)
  {
  }

  lemma BackBy(geo: Geo, a: State, b: State, nb: nat, ni: nat)
    requires GeoOk(geo) && Restored(geo, a.disk, a.groups, b.disk, b.groups) && Keeps(a, b)
    requires b.freeBlocks == SatSub(a.freeBlocks, nb) + nb && b.freeInodes == SatSub(a.freeInodes, ni) + ni
    ensures BackTo(geo, a, b, nb, ni)
  {
    hide GeoOk, Restored, Keeps;
    Recounted(a.freeBlocks, nb);
    Recounted(a.freeInodes, ni);
  }

  lemma RefusalCharged(geo: Geo, a: State, b: State, isDir: bool, nb: nat, ni: nat)
    requires GeoOk(geo) && b.disk == a.disk && b.freeBlocks == a.freeBlocks
    requires ChargedTo(geo, a.disk, a.groups, a.freeInodes, a.drift, b.groups, b.freeInodes, b.drift, isDir)
    ensures Refusal(geo, a, b, BadInode, isDir, nb, ni)
  {
  }

  /** The three answers of a search for an inode. */
  lemma OfferMeans(geo: Geo, d: Disk, groups: seq<GroupDesc>)
    requires GeoOk(geo) && |groups| == geo.groups && ShapedI(geo, d.ibm)
    ensures NoInode(geo, d, groups) <==> Offered(geo, groups, d.ibm).None?
    ensures Overrun(geo, d, groups) <==>
      Offered(geo, groups, d.ibm).Some? && Offered(geo, groups, d.ibm).value > geo.icount
  {
  }

  lemma SupplyShort(geo: Geo, d: Disk, groups: seq<GroupDesc>, n: nat)
    requires SupplyOk(geo, groups, d.bbm)
    ensures Short(geo, d, groups, n) <==> SupplyFrom(geo, groups, d.bbm, 0, geo.groups) < n
  {
  }

  /** Only an empty file claims no block. */
  lemma TallyEmpty(geo: Geo, d: Disk, groups: seq<GroupDesc>, size: nat, nb: nat)
    requires GeoOk(geo) && Tally(geo, d, groups, CeilDiv(size, geo.blockSize), nb, 1)
    requires !Short(geo, d, groups, CeilDiv(size, geo.blockSize))
    ensures nb == 0 <==> size == 0
  {
    hide NoInode, Short;
    CeilBounds(size, geo.blockSize);
    hide CeilDiv;
    NeedsNone(geo, d, groups);
  }

  lemma NeedsNone(geo: Geo, d: Disk, groups: seq<GroupDesc>)
    requires GeoOk(geo)
    ensures Needs(geo, d, groups, 0) == 0
  {
    hide GeoOk, Choice;
    if SupplyOk(geo, groups, d.bbm) { ChoiceNone(geo, groups, d.bbm, StartOf(geo, 0), geo.groups); }
  }

  /** One block is one extent. */
  lemma TallyOne(geo: Geo, d: Disk, groups: seq<GroupDesc>, nb: nat, ni: nat)
    requires GeoOk(geo) && Claims(geo, d, groups, 1, 0, nb, ni)
    ensures Tally(geo, d, groups, 1, nb, ni)
  {
    hide NoInode, Short, GeoOk, MaxRuns;
    if SupplyOk(geo, groups, d.bbm) { OnePiece(geo, groups, d.bbm); }
  }

  lemma OnePiece(geo: Geo, groups: seq<GroupDesc>, m: Bitmaps)
    requires SupplyOk(geo, groups, m)
    ensures Pieces(Coalesced(Allotted(geo, groups, m, 0, 1))) <= 1
  {
    hide Choice;
    var s := Choice(geo, groups, m, StartOf(geo, 0), geo.groups, 1);
    if s == [] {
    } else {
      assert s[..0] == [];
      assert ClaimAll([], s) == [Extent(s[0], 1)];
      assert [Extent(s[0], 1)][..0] == [];
    }
  }

  /** The first block on offer. */
  lemma OfferedFirst(geo: Geo, d: Disk, groups: seq<GroupDesc>, es: seq<Extent>)
    requires SupplyOk(geo, groups, d.bbm) && es == Allotted(geo, groups, d.bbm, 0, 1) && |es| == 1
    requires es[0].physical >= geo.first
    ensures FirstOffered(geo, d, groups) <==> es[0].physical <= geo.first
  {
    hide Choice, Shaped, GroupOf;
    var s := Choice(geo, groups, d.bbm, StartOf(geo, 0), geo.groups, 1);
    if s != [] {
      assert s[..0] == [];
      assert ClaimAll([], s) == [Extent(s[0], 1)];
      assert s == [s[0]];
    }
    StartZero(geo);
  }

  lemma StartZero(geo: Geo)
    requires GeoOk(geo)
    ensures StartOf(geo, 0) == 0
  {
    if geo.first == 0 { assert GroupOf(geo, 0) == 0; }
  }

  lemma KeepsRefl(a: State)
    ensures Keeps(a, a)
  {
  }

  lemma KeepsTrans(a: State, b: State, c: State)
    requires Keeps(a, b) && Keeps(b, c)
    ensures Keeps(a, c)
  {
  }

  lemma ClaimsNone(geo: Geo, d: Disk, groups: seq<GroupDesc>, n: nat)
    requires GeoOk(geo) && NoInode(geo, d, groups)
    ensures Claims(geo, d, groups, n, 0, 0, 0)
  {
  }

  lemma ClaimsData(geo: Geo, d: Disk, groups: seq<GroupDesc>, n: nat)
    requires GeoOk(geo) && !NoInode(geo, d, groups)
    ensures Claims(geo, d, groups, n, 0, if Short(geo, d, groups, n) then 0 else n, 1)
  {
  }

  /** With their places decided, the claims are the tally. */
  lemma TallyIs(geo: Geo, d: Disk, groups: seq<GroupDesc>, n: nat, nb: nat, ni: nat)
    requires GeoOk(geo) && Claims(geo, d, groups, n, 0, nb, ni)
    ensures !Leafy(geo, d, groups, n) ==> Tally(geo, d, groups, n, nb, ni)
    ensures NoInode(geo, d, groups) || Short(geo, d, groups, n) ==> Tally(geo, d, groups, n, nb, ni)
    ensures Leafy(geo, d, groups, n) && !NoInode(geo, d, groups) && !Short(geo, d, groups, n) ==>
      Tally(geo, d, groups, n, nb + 1, ni)
  {
    hide Leafy, NoInode, Short;
  }

  lemma NeedsAre(geo: Geo, d: Disk, groups: seq<GroupDesc>, n: nat, es: seq<Extent>)
    requires SupplyOk(geo, groups, d.bbm) && es == Allotted(geo, groups, d.bbm, 0, n)
    ensures Needs(geo, d, groups, n) == Pieces(Coalesced(es))
  {
    hide Allotted;
  }

  /** After `n` blocks are taken, `m` more can be had exactly if `n + m` could. */
  lemma ShortAfter(geo: Geo, d0: Disk, g0: seq<GroupDesc>, d1: Disk, g1: seq<GroupDesc>, n: nat, m: nat)
    requires SupplyOk(geo, g0, d0.bbm) && SupplyOk(geo, g1, d1.bbm)
    requires SupplyFrom(geo, g1, d1.bbm, 0, geo.groups) + n == SupplyFrom(geo, g0, d0.bbm, 0, geo.groups)
    ensures Short(geo, d1, g1, m) <==> Short(geo, d0, g0, n + m)
  {
    hide SupplyFrom, SupplyOk;
  }

  /** What an allocation gives and leaves. */
  ghost predicate Supplied(geo: Geo, d: Disk, groups: seq<GroupDesc>, d': Disk, groups': seq<GroupDesc>, goal: nat,
      n: nat, es: seq<Extent>) {
    && SupplyOk(geo, groups, d.bbm) && SupplyOk(geo, groups', d'.bbm) && es == Allotted(geo, groups, d.bbm, goal, n)
    && SupplyFrom(geo, groups', d'.bbm, 0, geo.groups) + n == SupplyFrom(geo, groups, d.bbm, 0, geo.groups)
  }

  lemma SuppliedBy(geo: Geo, d: Disk, groups: seq<GroupDesc>, d': Disk, goal: nat, n: nat, es: seq<Extent>,
      plan: seq<PlanEntry>)
    requires SupplyOk(geo, groups, d.bbm) && Planned(geo, groups, d.bbm, d'.bbm, es, plan) && |Flat(es)| == n
    requires es == Allotted(geo, groups, d.bbm, goal, n)
    ensures forall j :: 0 <= j < |plan| ==> plan[j].g < |groups|
    ensures Supplied(geo, d, groups, d', Adjust(groups, plan, false), goal, n, es)
  {
    hide Allotted, Claimed, Flat, SupplyFrom, Install, Adjust, Shaped, GeoOk, PlanTakes;
    SupplyTaken(geo, groups, d.bbm, d'.bbm, plan, |plan|);
    assert plan[..|plan|] == plan;
    InstallDone(geo, d.bbm, d'.bbm, plan);
  }

  lemma SuppliedNone(geo: Geo, d: Disk, groups: seq<GroupDesc>, goal: nat)
    requires SupplyOk(geo, groups, d.bbm)
    ensures Supplied(geo, d, groups, d, groups, goal, 0, [])
  {
    hide Choice, SupplyFrom, Shaped;
    ChoiceNone(geo, groups, d.bbm, StartOf(geo, goal), geo.groups);
  }

  /** The same free blocks and counts give the same choice. */
  lemma {:induction false} ChoiceSame(geo: Geo, m: Bitmaps, g0: seq<GroupDesc>, g1: seq<GroupDesc>, start: nat, n: nat,
      count: nat)
    requires SupplyOk(geo, g0, m) && SupplyOk(geo, g1, m) && SameBlockSide(g1, g0)
    ensures Choice(geo, g1, m, start, n, count) == Choice(geo, g0, m, start, n, count)
  {
    hide GeoOk, LowestFree, Wrap, Shaped;
    if n > 0 { ChoiceSame(geo, m, g0, g1, start, n - 1, count); }
  }

  lemma {:induction false} SupplySame(geo: Geo, m: Bitmaps, g0: seq<GroupDesc>, g1: seq<GroupDesc>, k: nat)
    requires SupplyOk(geo, g0, m) && SupplyOk(geo, g1, m) && SameBlockSide(g1, g0) && k <= geo.groups
    ensures SupplyFrom(geo, g1, m, 0, k) == SupplyFrom(geo, g0, m, 0, k)
  {
    hide GeoOk, FreeIn;
    if k > 0 { SupplySame(geo, m, g0, g1, k - 1); }
  }

  /** Claiming an inode changes nothing about the supply of blocks. */
  lemma ShortSame(geo: Geo, d0: Disk, g0: seq<GroupDesc>, d1: Disk, g1: seq<GroupDesc>, n: nat)
    requires d1.bbm == d0.bbm && SameBlockSide(g1, g0) && SupplyOk(geo, g1, d1.bbm)
    ensures SupplyOk(geo, g0, d0.bbm) && (Short(geo, d0, g0, n) <==> Short(geo, d1, g1, n))
  {
    SupplySame(geo, d0.bbm, g0, g1, geo.groups);
  }

  lemma SuppliedNeeds(geo: Geo, d: Disk, groups: seq<GroupDesc>, d': Disk, groups': seq<GroupDesc>, n: nat,
      es: seq<Extent>)
    requires Supplied(geo, d, groups, d', groups', 0, n, es)
    ensures Needs(geo, d, groups, n) == Pieces(Coalesced(es)) && SupplyOk(geo, groups', d'.bbm)
    ensures Short(geo, d', groups', 1) <==> Short(geo, d, groups, n + 1)
  {
    hide Choice, SupplyFrom, GeoOk, Shaped;
    NeedsAre(geo, d, groups, n, es);
    ShortAfter(geo, d, groups, d', groups', n, 1);
  }

  lemma SuppliedFirst(geo: Geo, d: Disk, groups: seq<GroupDesc>, d': Disk, groups': seq<GroupDesc>, es: seq<Extent>)
    requires GeoOk(geo) && Supplied(geo, d, groups, d', groups', 0, 1, es) && |es| == 1 && AllFree(geo, d.bbm, Flat(es))
    requires Flat(es) == [es[0].physical]
    ensures FirstOffered(geo, d, groups) <==> es[0].physical <= geo.first
  {
    hide Choice, SupplyFrom, GeoOk, Shaped, Flat, BUsed;
    assert es[0].physical in Flat(es);
    OfferedFirst(geo, d, groups, es);
  }

  lemma PlacedMeans(geo: Geo, d: Disk, groups: seq<GroupDesc>, n: nat)
    requires GeoOk(geo) && !Unplaceable(geo, d, groups, n)
    ensures !Short(geo, d, groups, n) && !NoInode(geo, d, groups)
  {
  }

  lemma SuppliedSame(geo: Geo, d0: Disk, g0: seq<GroupDesc>, d1: Disk, g1: seq<GroupDesc>, d2: Disk, g2: seq<GroupDesc>,
      goal: nat, n: nat, es: seq<Extent>)
    requires d1.bbm == d0.bbm && SameBlockSide(g1, g0) && Supplied(geo, d1, g1, d2, g2, goal, n, es)
    ensures Supplied(geo, d0, g0, d2, g2, goal, n, es)
  {
    hide Choice, SupplyFrom, GeoOk, Shaped;
    SupplySame(geo, d0.bbm, g0, g1, geo.groups);
    ChoiceSame(geo, d0.bbm, g0, g1, StartOf(geo, goal), geo.groups, n);
  }

  lemma ReservedFree(geo: Geo, d0: Disk, g0: seq<GroupDesc>, d1: Disk, g1: seq<GroupDesc>, i: nat, isDir: bool,
      s: seq<nat>)
    requires GeoOk(geo) && Reserved(geo, d0, g0, d1, g1, i, isDir, s)
    ensures AllFree(geo, d0.bbm, s)
  {
  }

  lemma LeafRoom(geo: Geo)
    requires GeoOk(geo)
    ensures MAX_INLINE_EXTENTS < MaxRuns(geo)
  {
  }

  /** The difference made by claiming inode `i` and the blocks `s`. */
  ghost predicate Reserved(geo: Geo, d0: Disk, g0: seq<GroupDesc>, d1: Disk, g1: seq<GroupDesc>, i: nat, isDir: bool,
      s: seq<nat>)
    requires GeoOk(geo)
  {
    && InoExists(geo, i) && geo.firstIno <= i && InoGroup(geo, i) < |d0.ibm|
    && InoBit(geo, i) < |d0.ibm[InoGroup(geo, i)]|
    && !IUsed(geo, d0.ibm, i) && d1.ibm == SetIno(geo, d0.ibm, i, true)
    && (forall j :: j != i ==>
          (j in d1.inodes <==> j in d0.inodes) && (j in d0.inodes ==> d1.inodes[j] == d0.inodes[j]))
    && Marked(geo, d0.bbm, d1.bbm, s) && AllFree(geo, d0.bbm, s)
    && InoGroup(geo, i) < |g0| && g0[InoGroup(geo, i)].freeInodes > 0
    && SameInodeSide(g1, ClaimGroups(geo, g0, i, isDir))
  }

  /** Undoing a reservation restores everything. */
  lemma UndoRestores(geo: Geo, drift: Drift, d0: Disk, g0: seq<GroupDesc>, d1: Disk, g1: seq<GroupDesc>,
                     d2: Disk, g2: seq<GroupDesc>, i: nat, isDir: bool, s: seq<nat>)
    requires GeoOk(geo) && CrashSafe(geo, d0) && Reserved(geo, d0, g0, d1, g1, i, isDir, s)
    requires BlockCount(geo, g0, d0.bbm, drift.blocks) && BlockCount(geo, g2, d2.bbm, drift.blocks)
    requires InoGroup(geo, i) < |d1.ibm| && InoBit(geo, i) < |d1.ibm[InoGroup(geo, i)]| && InoGroup(geo, i) < |g1|
    requires d2.ibm == SetIno(geo, d1.ibm, i, false) && d2.inodes == d1.inodes[i := Blank]
    requires Cleared(geo, d1.bbm, d2.bbm, s) && SameInodeSide(g2, ReleaseGroups(geo, g1, i, isDir))
    requires d2.blocks == d1.blocks && Undisturbed(geo, d0, d1) && (d0.gd == g0 ==> d2.gd == g2)
    ensures Restored(geo, d0, g0, d2, g2)
  {
    hide GeoOk, CrashSafe, IUsed, InUse, SetIno, InoGroup, InoBit, Marked, Cleared, AllFree, BlockCount, ClaimGroups,
      ReleaseGroups, SameInodeSide, SameOutside, SameCounts, Undisturbed;
    CrashShape(geo, d0, i);
    SetThenClear(geo, d0.ibm, i);
    MarkThenClear(geo, d0.bbm, d1.bbm, d2.bbm, s);
    CountsBack(geo, g0, g1, g2, d0.bbm, drift.blocks, i, isDir);
    UndisturbedBlank(geo, d0, d1, d2, i);
    NoneNew(geo, d0, d1, d2, i);
  }

  lemma NoneNew(geo: Geo, d0: Disk, d1: Disk, d2: Disk, i: nat)
    requires GeoOk(geo) && !IUsed(geo, d0.ibm, i) && d2.ibm == d0.ibm && d2.inodes == d1.inodes[i := Blank]
    requires forall j :: j != i ==>
      (j in d1.inodes <==> j in d0.inodes) && (j in d0.inodes ==> d1.inodes[j] == d0.inodes[j])
    ensures forall j :: InUse(geo, d2, j) ==> InUse(geo, d0, j)
  {
    hide GeoOk, IUsed;
  }

  lemma UndisturbedBlank(geo: Geo, d0: Disk, d1: Disk, d2: Disk, i: nat)
    requires GeoOk(geo) && Undisturbed(geo, d0, d1) && !IUsed(geo, d0.ibm, i)
    requires d2.blocks == d1.blocks && d2.inodes == d1.inodes[i := Blank]
    ensures Undisturbed(geo, d0, d2)
  {
    hide Intact, GeoOk, IUsed;
  }

  /** A reservation and writes to its own blocks disturb nothing. */
  lemma ReservedUndisturbed(geo: Geo, d0: Disk, g0: seq<GroupDesc>, d1: Disk, g1: seq<GroupDesc>, i: nat, isDir: bool,
      s: seq<nat>)
    requires GeoOk(geo) && CrashSafe(geo, d0) && Reserved(geo, d0, g0, d1, g1, i, isDir, s)
    requires SameOutside(d0.blocks, d1.blocks, s)
    ensures Undisturbed(geo, d0, d1)
  {
    hide CrashSafe, SetIno, InoGroup, InoBit, Marked, IUsed, ClaimGroups, SameInodeSide, SameOutside, Undisturbed,
      AllFree;
    FreeFromUnused(geo, d0, s);
    UndisturbedBy(geo, d0, d1, i, s);
  }

  /** An in-use record keeps the contents of every block it names. */
  lemma RecordAgrees(geo: Geo, d0: Disk, d1: Disk, s: seq<nat>, j: nat)
    requires GeoOk(geo) && CrashSafe(geo, d0) && AllFree(geo, d0.bbm, s) && SameOutside(d0.blocks, d1.blocks, s)
    requires InUse(geo, d0, j)
    ensures AgreeOn(d0.blocks, d1.blocks, NamedBy(d0.blocks, d0.inodes[j]))
  {
    hide GeoOk, IUsed, BUsed, NamedBy, DirsOk, NamesLive, NamesUnique, Unshared, DiskOk;
  }

  lemma CountsBack(geo: Geo, g0: seq<GroupDesc>, g1: seq<GroupDesc>, g2: seq<GroupDesc>, m: Bitmaps, drift: seq<int>,
      i: nat, isDir: bool)
    requires GeoOk(geo) && BlockCount(geo, g0, m, drift) && BlockCount(geo, g2, m, drift)
    requires 0 < i && InoGroup(geo, i) < |g0| && g0[InoGroup(geo, i)].freeInodes > 0 && InoGroup(geo, i) < |g1|
    requires SameInodeSide(g1, ClaimGroups(geo, g0, i, isDir)) && SameInodeSide(g2, ReleaseGroups(geo, g1, i, isDir))
    ensures SameCounts(g0, g2)
  {
    hide FreeIn, GeoOk, InoGroup, InoBit;
    forall g | 0 <= g < |g0|
      ensures g2[g].freeBlocks == g0[g].freeBlocks && g2[g].freeInodes == g0[g].freeInodes
      ensures g2[g].usedDirs == g0[g].usedDirs
    {
      assert g0[g].freeBlocks - FreeIn(geo, m, g) == drift[g] && g2[g].freeBlocks - FreeIn(geo, m, g) == drift[g];
      var c := ClaimGroups(geo, g0, i, isDir)[g];
      assert g1[g].freeInodes == c.freeInodes && g1[g].usedDirs == c.usedDirs;
      var e := ReleaseGroups(geo, g1, i, isDir)[g];
      assert g2[g].freeInodes == e.freeInodes && g2[g].usedDirs == e.usedDirs;
    }
  }

  /** Writes confined to one unused inode and to unnamed blocks disturb nothing. */
  lemma UndisturbedBy(geo: Geo, d0: Disk, d2: Disk, i: nat, s: seq<nat>)
    requires GeoOk(geo) && !IUsed(geo, d0.ibm, i) && (forall b :: b in s ==> Free(geo, d0, b))
    requires forall j :: j != i ==>
      (j in d2.inodes <==> j in d0.inodes) && (j in d0.inodes ==> d2.inodes[j] == d0.inodes[j])
    requires SameOutside(d0.blocks, d2.blocks, s)
    ensures Undisturbed(geo, d0, d2)
  {
    hide NamedBy, GeoOk, IUsed, EntriesOf;
    forall j | InUse(geo, d0, j)
      ensures j in d2.inodes && d2.inodes[j] == d0.inodes[j] && Intact(d0.blocks, d2.blocks, d0.inodes[j])
    {
      assert forall b :: b in NamedBy(d0.blocks, d0.inodes[j]) ==> b !in s;
      RecordFrame(d0.blocks, d2.blocks, d0.inodes[j]);
    }
  }

  lemma RestoredRefl(geo: Geo, d: Disk, groups: seq<GroupDesc>)
    requires GeoOk(geo)
    ensures Restored(geo, d, groups, d, groups)
  {
    hide NamedBy, GeoOk, IUsed;
  }

  lemma FlatNone()
    ensures Flat([]) == [] && NoDup([]) && SeqSet([]) == {}
  {
  }

  lemma NewNotDir(geo: Geo, d: Disk, dirs: set<nat>, groups: seq<GroupDesc>, drift: Drift, i: nat)
    requires GeoOk(geo) && InodeSide(geo, d, groups, dirs, drift) && !IUsed(geo, d.ibm, i)
    ensures i !in dirs
  {
  }

  lemma NilConcat(s: seq<nat>)
    ensures [] + s == s
  {
  }

  lemma HeldBack(h: map<nat, set<nat>>, i: nat, x: set<nat>)
    requires i !in h
    ensures h[i := x] - {i} == h
  {
  }

  lemma HeldGrow(h: map<nat, set<nat>>, i: nat, x: set<nat>, s: seq<nat>)
    ensures h[i := x][i := x + SeqSet(s)] == h[i := x + SeqSet(s)]
    ensures {} + SeqSet(s) == SeqSet(s)
    ensures forall b :: b in s ==> b in SeqSet(s)
  {
  }

  lemma ReservedStart(geo: Geo, d0: Disk, g0: seq<GroupDesc>, d1: Disk, g1: seq<GroupDesc>, i: nat, isDir: bool)
    requires GeoOk(geo) && CrashSafe(geo, d0) && InoExists(geo, i) && geo.firstIno <= i
    requires InoGroup(geo, i) < |d0.ibm| && InoBit(geo, i) < |d0.ibm[InoGroup(geo, i)]| && !IUsed(geo, d0.ibm, i)
    requires d1.inodes == d0.inodes[i := Blank] && d1.ibm == SetIno(geo, d0.ibm, i, true) && d1.bbm == d0.bbm
    requires InoGroup(geo, i) < |g0| && g0[InoGroup(geo, i)].freeInodes > 0 && g1 == ClaimGroups(geo, g0, i, isDir)
    ensures Reserved(geo, d0, g0, d1, g1, i, isDir, [])
  {
    hide Backed, DirsOk, NamesLive, NamesUnique, Unshared, InoGroup, InoBit, SetIno, ClaimGroups, IUsed, GeoOk;
    SameSideRefl(g1);
  }

  lemma ReservedMore(geo: Geo, d0: Disk, g0: seq<GroupDesc>, d1: Disk, g1: seq<GroupDesc>, d2: Disk, g2: seq<GroupDesc>,
                     i: nat, isDir: bool, s: seq<nat>, t: seq<nat>)
    requires GeoOk(geo) && Reserved(geo, d0, g0, d1, g1, i, isDir, s) && SameInodeSide(g2, g1)
    requires d2.inodes == d1.inodes && d2.ibm == d1.ibm && Marked(geo, d1.bbm, d2.bbm, t) && AllFree(geo, d1.bbm, t)
    ensures Reserved(geo, d0, g0, d2, g2, i, isDir, s + t)
  {
    MarkedUsed(geo, d0.bbm, d1.bbm, s);
    MarkedTwice(geo, d0.bbm, d1.bbm, d2.bbm, s, t);
    hide InoGroup, InoBit, SetIno, ClaimGroups, IUsed, GeoOk, Marked, BUsed;
  }

  lemma PlainReservation(geo: Geo, i: nat, extents: seq<Extent>, runs: seq<Run>)
    requires GeoOk(geo) && Tiled(runs) && |runs| <= MaxRuns(geo) && |runs| <= MAX_INLINE_EXTENTS
    requires FlatRuns(runs) == Flat(extents) && NoDup(Flat(extents))
    ensures ReservationOk(geo, Reservation(i, extents, runs, None))
  {
    assert FlatRuns(runs) + LeafSeq(None) == FlatRuns(runs);
  }

  lemma {:induction false} FlatAtLeast(es: seq<Extent>)
    requires forall i :: 0 <= i < |es| ==> es[i].len > 0
    ensures |Flat(es)| >= |es|
  {
    if es != [] { FlatAtLeast(es[..|es| - 1]); }
  }

  lemma OneBlock(es: seq<Extent>)
    requires |Flat(es)| == 1 && Maximal(es)
    ensures |es| == 1 && Flat(es) == [es[0].physical]
  {
    FlatAtLeast(es);
    var p, e := es[..|es| - 1], es[|es| - 1];
    assert Flat(es) == Flat(p) + Span(e.physical, e.len);
  }

  /** The leaf block is none of the data blocks, which were taken before it. */
  lemma LeafApart(geo: Geo, d0: Disk, g0: seq<GroupDesc>, d1: Disk, g1: seq<GroupDesc>, i: nat, s: seq<nat>, b: nat)
    requires GeoOk(geo) && Reserved(geo, d0, g0, d1, g1, i, false, s) && AllFree(geo, d1.bbm, [b]) && NoDup(s)
    ensures NoDup(s + [b])
  {
    MarkedUsed(geo, d0.bbm, d1.bbm, s);
    assert b in [b];
    hide Marked, BUsed, GeoOk;
    NoDupPush(s, b);
  }

  lemma SeqSetConcat(a: seq<nat>, b: seq<nat>)
    ensures SeqSet(a) + SeqSet(b) == SeqSet(a + b)
  {
  }

  lemma LeafReservation(geo: Geo, v: Reservation)
    requires GeoOk(geo) && Tiled(v.runs) && MAX_INLINE_EXTENTS < |v.runs| <= MaxRuns(geo) && v.leaf.Some?
    requires Flat(v.extents) == FlatRuns(v.runs) + [v.leaf.value] && NoDup(Flat(v.extents))
    ensures ReservationOk(geo, v)
  {
  }

  lemma ReservationFacts(geo: Geo, v: Reservation)
    requires GeoOk(geo) && ReservationOk(geo, v)
    ensures Flat(v.extents) == FlatRuns(v.runs) + LeafSeq(v.leaf) && NoDup(Flat(v.extents)) && Tiled(v.runs)
  {
  }

  /** The record of a regular file with one name to come. */
  function FileRecord(runs: seq<Run>, leaf: Option<nat>, size: nat): Record {
    Inode(File, 1, size, false, if leaf.Some? then Indexed([leaf.value]) else Inline(runs))
  }

  /** A complete file: every block it names is marked, and it reads as `data`. */
  ghost predicate NewFile(geo: Geo, d: Disk, rec: Record, data: seq<byte>)
    requires GeoOk(geo)
  {
    && rec.Inode? && rec.kind == File && rec.links == 1 && rec.size == |data|
    && (forall b :: b in NamedBy(d.blocks, rec) ==> BUsed(geo, d.bbm, b))
    && FileBytes(d.blocks, DataOf(d.blocks, rec), geo.blockSize, rec.size) == data
  }

  lemma GeoSize(geo: Geo)
    requires GeoOk(geo)
    ensures 0 < geo.blockSize
  {
  }

  lemma DataNoFlush(ws: seq<Write>)
    requires DataOnly(ws)
    ensures NoFlush(ws)
  {
  }

  lemma OneNoFlush(w: Write)
    requires !w.Flush?
    ensures NoFlush([w])
  {
  }

  lemma OutsideWider(x: map<nat, Content>, y: map<nat, Content>, v: Reservation)
    requires SameOutside(x, y, FlatRuns(v.runs)) && Flat(v.extents) == FlatRuns(v.runs) + LeafSeq(v.leaf)
    ensures SameOutside(x, y, Flat(v.extents))
  {
    hide Flat, FlatRuns;
  }

  lemma LeafHeld(geo: Geo, v: Reservation)
    requires GeoOk(geo) && ReservationOk(geo, v) && v.leaf.Some?
    ensures v.leaf.value in SeqSet(Flat(v.extents)) && v.leaf.value in Flat(v.extents)
  {
    hide Flat, FlatRuns, Tiled, GeoOk, NoDup;
  }

  lemma OutsideLeaf(geo: Geo, x: map<nat, Content>, y: map<nat, Content>, v: Reservation)
    requires GeoOk(geo) && ReservationOk(geo, v) && v.leaf.Some? && SameOutside(x, y, Flat(v.extents))
    ensures SameOutside(x, y[v.leaf.value := Leaf(v.runs)], Flat(v.extents))
  {
    hide Flat, FlatRuns, Tiled, GeoOk, NoDup;
  }

  /** The record names exactly the reserved blocks and finds its data in them. */
  lemma RecordNames(geo: Geo, b1: map<nat, Content>, b2: map<nat, Content>, v: Reservation, data: seq<byte>)
    requires GeoOk(geo) && ReservationOk(geo, v) && |FlatRuns(v.runs)| == CeilDiv(|data|, geo.blockSize)
    requires Stored(b1, FlatRuns(v.runs), data, geo.blockSize, 0, |FlatRuns(v.runs)|)
    requires b2 == if v.leaf.Some? then b1[v.leaf.value := Leaf(v.runs)] else b1
    ensures DataOf(b2, FileRecord(v.runs, v.leaf, |data|)) == FlatRuns(v.runs)
    ensures NamedBy(b2, FileRecord(v.runs, v.leaf, |data|)) == Flat(v.extents)
    ensures FileBytes(b2, FlatRuns(v.runs), geo.blockSize, |data|) == data
  {
    hide Flat, Tiled, GeoOk, FileBytes, Stored, FlatRuns, NoDup, DataOf, NamedBy;
    GeoSize(geo);
    LeafRecord(b2, v.runs, v.leaf, |data|);
    StoredOver(b1, b2, v.runs, v.leaf, data, geo.blockSize, |FlatRuns(v.runs)|);
    StoredReads(b2, FlatRuns(v.runs), data, geo.blockSize);
  }

  /** The blocks a file's record leads to, through its leaf if it has one. */
  lemma LeafRecord(blocks: map<nat, Content>, runs: seq<Run>, leaf: Option<nat>, size: nat)
    requires leaf.Some? ==> leaf.value in blocks && blocks[leaf.value] == Leaf(runs)
    ensures DataOf(blocks, FileRecord(runs, leaf, size)) == FlatRuns(runs)
    ensures NamedBy(blocks, FileRecord(runs, leaf, size)) == FlatRuns(runs) + LeafSeq(leaf)
  {
    hide FlatRuns;
    if leaf.Some? {
      var l := leaf.value;
      assert [l][..0] == [];
      assert LeafRuns(blocks, [l]) == LeafRuns(blocks, []) + runs == runs;
    }
  }

  /** Writing the leaf block leaves the stored data in place. */
  lemma StoredOver(b1: map<nat, Content>, b2: map<nat, Content>, runs: seq<Run>, leaf: Option<nat>, data: seq<byte>,
      bs: nat, to: nat)
    requires NoDup(FlatRuns(runs) + LeafSeq(leaf)) && Stored(b1, FlatRuns(runs), data, bs, 0, to)
    requires b2 == if leaf.Some? then b1[leaf.value := Leaf(runs)] else b1
    ensures Stored(b2, FlatRuns(runs), data, bs, 0, to)
  {
    hide FlatRuns, NoDup, Chunk;
    NoDupConcat(FlatRuns(runs), LeafSeq(leaf));
    assert leaf.Some? ==> leaf.value in LeafSeq(leaf);
    var flat := FlatRuns(runs);
    forall l | 0 <= l < to ensures flat[l] in b2 && b2[flat[l]] == Data(Chunk(data, bs, l)) {
      assert flat[l] in flat;
    }
  }

  lemma HeldPublishable(geo: Geo, d: Disk, groups: seq<GroupDesc>, held: map<nat, set<nat>>, i: nat, rec: Record)
    requires GeoOk(geo) && HeldOk(geo, d, groups, held) && i in held && rec.Inode? && rec.kind != Dir
    requires NoDup(NamedBy(d.blocks, rec)) && held[i] == SeqSet(NamedBy(d.blocks, rec))
    ensures Publishable(geo, d, rec)
    ensures forall b :: b in NamedBy(d.blocks, rec) ==> b in held[i] && BUsed(geo, d.bbm, b)
  {
    hide NamedBy, GeoOk, IUsed, HeldIno, BUsed, NoDup;
    assert forall b :: b in NamedBy(d.blocks, rec) ==> Free(geo, d, b);
  }

  /** Writing the record of the reserved inode keeps the reservation's account. */
  lemma ReservedKept(geo: Geo, d0: Disk, g0: seq<GroupDesc>, d1: Disk, g1: seq<GroupDesc>, d2: Disk, i: nat,
      isDir: bool, rec: Record, s: seq<nat>)
    requires GeoOk(geo) && Reserved(geo, d0, g0, d1, g1, i, isDir, s)
    requires d2.bbm == d1.bbm && d2.ibm == d1.ibm && d2.inodes == d1.inodes[i := rec]
    ensures Reserved(geo, d0, g0, d2, g1, i, isDir, s)
  {
    hide InoGroup, InoBit, SetIno, ClaimGroups, IUsed, GeoOk, Marked, AllFree, SameInodeSide;
  }

  lemma NewFileThere(geo: Geo, d: Disk, rec: Record, data: seq<byte>, v: Reservation)
    requires GeoOk(geo) && rec == FileRecord(v.runs, v.leaf, |data|)
    requires DataOf(d.blocks, rec) == FlatRuns(v.runs)
    requires FileBytes(d.blocks, FlatRuns(v.runs), geo.blockSize, |data|) == data
    requires forall b :: b in NamedBy(d.blocks, rec) ==> BUsed(geo, d.bbm, b)
    ensures NewFile(geo, d, rec, data)
  {
  }

  lemma AddedHas(es: seq<Entry>, e: Entry, es': seq<Entry>)
    requires AddedOnce(es, e, es')
    ensures e in es'
  {
    var k :| 0 <= k <= |es| && es' == es[..k] + [e] + es[k..];
    assert es'[k] == e;
  }

  /** Claiming an inode and blocks leaves the in-use inodes in use. */
  lemma SurvivesReserve(geo: Geo, d0: Disk, g0: seq<GroupDesc>, d1: Disk, g1: seq<GroupDesc>, i: nat, isDir: bool,
      s: seq<nat>, j: nat)
    requires GeoOk(geo) && CrashSafe(geo, d0) && Reserved(geo, d0, g0, d1, g1, i, isDir, s) && InUse(geo, d0, j)
    ensures InUse(geo, d1, j) && d1.inodes[j] == d0.inodes[j] && j != i && 0 < i < U32_LIMIT && 0 < j
    ensures !IUsed(geo, d0.ibm, i)
  {
    CrashShape(geo, d0, i);
    SetInoUsed(geo, d0.ibm, i, true);
    hide CrashSafe, SetIno, InoGroup, InoBit, Marked, AllFree, IUsed, ClaimGroups, SameInodeSide;
  }

  lemma KeysBack(held: map<nat, set<nat>>, dirs: set<nat>, i: nat)
    requires i !in held && i !in dirs
    ensures held - {i} == held && dirs - {i} == dirs
  {
  }

  lemma SideLinks(geo: Geo, d: Disk, groups: seq<GroupDesc>, dirs: set<nat>, drift: Drift, i: nat, links: nat)
    requires GeoOk(geo) && InodeSide(geo, d, groups, dirs, drift) && IsDir(geo, d, i)
    ensures InodeSide(geo, Apply(d, WInode(i, d.inodes[i].(links := links))), groups, dirs, drift)
  {
    hide InodeCount, TailFree, DirCount, IUsed, GeoOk, ShapedI;
    var d' := Apply(d, WInode(i, d.inodes[i].(links := links)));
    assert forall j :: InUse(geo, d', j) ==> InUse(geo, d, j) && d'.inodes[j].kind == d.inodes[j].kind;
  }

  function NewDirChain(geo: Geo, i: nat, parent: nat): seq<Rec>
    requires GeoOk(geo)
  {
    [Rec(12, Some(Entry(i, DOT, 2))), Rec(geo.usable - 12, Some(Entry(parent, DOTDOT, 2)))]
  }

  function DirRecord(geo: Geo, b: nat): Record {
    Inode(Dir, 2, geo.blockSize, false, Inline([Run(0, b, 1)]))
  }

  lemma DirRecordNames(geo: Geo, blocks: map<nat, Content>, b: nat)
    ensures DataOf(blocks, DirRecord(geo, b)) == [b] && NamedBy(blocks, DirRecord(geo, b)) == [b]
  {
    assert [Run(0, b, 1)][..0] == [];
    assert FlatRuns([Run(0, b, 1)]) == FlatRuns([]) + Span(b, 1);
    assert Span(b, 1) == [b];
  }

  lemma NewDirBlock(geo: Geo, blocks: map<nat, Content>, i: nat, parent: nat, b: nat)
    requires GeoOk(geo) && 0 < i < U32_LIMIT && 0 < parent < U32_LIMIT
    requires b in blocks && blocks[b] == DirBlock(NewDirChain(geo, i, parent))
    ensures DirBlockOk(geo, blocks, b)
    ensures EntriesOf(blocks, DirRecord(geo, b)) == [Entry(i, DOT, 2), Entry(parent, DOTDOT, 2)]
  {
    DirRecordNames(geo, blocks, b);
    var r1, r2 := Rec(12, Some(Entry(i, DOT, 2))), Rec(geo.usable - 12, Some(Entry(parent, DOTDOT, 2)));
    LiveTwo(r1, r2);
    LiveOne(r1);
    LiveOne(r2);
    hide Live, Tiles, DataOf;
    assert RecOk(r1) && RecOk(r2);
    EntriesOne(blocks, b);
    assert Live([r1]) + Live([r2]) == [Entry(i, DOT, 2), Entry(parent, DOTDOT, 2)];
  }

  /** A freshly formatted medium, with nothing but an empty root directory, is
      safe to mount. */
  lemma FormattedSafe(geo: Geo, d: Disk, root: nat, b: nat)
    requires GeoOk(geo) && DiskOk(geo, d) && 0 < root < U32_LIMIT && (forall i :: InUse(geo, d, i) <==> i == root)
    requires BUsed(geo, d.bbm, b) && b in d.blocks && d.blocks[b] == DirBlock(NewDirChain(geo, root, root))
    requires root in d.inodes && d.inodes[root] == DirRecord(geo, b)
    ensures CrashSafe(geo, d) && forall e :: !HasEntry(geo, d, root, e)
  {
    hide GeoOk, IUsed, BUsed, NamedBy, DataOf, EntriesOf, NewDirChain, DirBlockOk;
    NewDirBlock(geo, d.blocks, root, root, b);
    DirRecordNames(geo, d.blocks, b);
    assert forall i :: IsDir(geo, d, i) ==> i == root;
  }

  lemma EntriesOne(blocks: map<nat, Content>, b: nat)
    ensures EntriesIn(blocks, [b]) == BlockEntries(blocks, b)
  {
    hide BlockEntries;
    assert [b][..0] == [];
    assert EntriesIn(blocks, [b]) == EntriesIn(blocks, []) + BlockEntries(blocks, b);
  }

  lemma NewDirPublishable(geo: Geo, d: Disk, groups: seq<GroupDesc>, held: map<nat, set<nat>>, i: nat, parent: nat,
      b: nat)
    requires GeoOk(geo) && HeldOk(geo, d, groups, held) && i in held && b in held[i]
    requires 0 < i < U32_LIMIT && 0 < parent < U32_LIMIT
    requires b in d.blocks && d.blocks[b] == DirBlock(NewDirChain(geo, i, parent))
    ensures Publishable(geo, d, DirRecord(geo, b)) && NamedBy(d.blocks, DirRecord(geo, b)) == [b]
    ensures forall x :: x in NamedBy(d.blocks, DirRecord(geo, b)) ==> x in held[i]
    ensures EntriesOf(d.blocks, DirRecord(geo, b)) == [Entry(i, DOT, 2), Entry(parent, DOTDOT, 2)]
  {
    hide GeoOk, IUsed, HeldIno, BUsed, NamedBy, DataOf, EntriesOf, NewDirChain, ChainOk, Tiles;
    NewDirBlock(geo, d.blocks, i, parent, b);
    DirRecordNames(geo, d.blocks, b);
    assert Free(geo, d, b);
  }

  lemma OutsideOne(x: map<nat, Content>, b: nat, c: Content)
    ensures SameOutside(x, x[b := c], [b])
  {
  }

  lemma ReservedSame(geo: Geo, d0: Disk, g0: seq<GroupDesc>, d1: Disk, g1: seq<GroupDesc>, d2: Disk, i: nat,
      isDir: bool, s: seq<nat>)
    requires GeoOk(geo) && Reserved(geo, d0, g0, d1, g1, i, isDir, s)
    requires d2.bbm == d1.bbm && d2.ibm == d1.ibm && d2.inodes == d1.inodes
    ensures Reserved(geo, d0, g0, d2, g1, i, isDir, s)
  {
    hide InoGroup, InoBit, SetIno, ClaimGroups, IUsed, GeoOk, Marked, AllFree, SameInodeSide;
  }

  lemma DirWriteIntact(geo: Geo, d: Disk, dir: nat, b: nat, c: seq<Rec>)
    requires GeoOk(geo) && CrashSafe(geo, d) && IsDir(geo, d, dir) && b in DataOf(d.blocks, d.inodes[dir])
    ensures
      var blocks' := d.blocks[b := DirBlock(c)];
      && DataOf(blocks', d.inodes[dir]) == DataOf(d.blocks, d.inodes[dir])
      && NamedBy(blocks', d.inodes[dir]) == NamedBy(d.blocks, d.inodes[dir])
      && forall j :: InUse(geo, d, j) && j != dir ==> Intact(d.blocks, blocks', d.inodes[j])
  {
    hide CrashSafe, GeoOk, IUsed, EntriesOf, DataOf, NamedBy;
    DirWriteFrame(geo, d, dir, b, c);
  }

  lemma IntactTrans(x: map<nat, Content>, y: map<nat, Content>, z: map<nat, Content>, r: Record)
    requires Intact(x, y, r) && Intact(y, z, r)
    ensures Intact(x, z, r)
  {
    hide NamedBy, EntriesOf;
  }

  lemma IntactNames(x: map<nat, Content>, y: map<nat, Content>, r: Record)
    requires Intact(x, y, r)
    ensures NamedBy(x, r) == NamedBy(y, r) && EntriesOf(x, r) == EntriesOf(y, r)
  {
  }

  lemma UndisturbedTrans(geo: Geo, d0: Disk, d1: Disk, d2: Disk)
    requires GeoOk(geo) && Undisturbed(geo, d0, d1) && d2.inodes == d1.inodes
    requires forall j :: InUse(geo, d1, j) ==> Intact(d1.blocks, d2.blocks, d1.inodes[j])
    requires forall j :: InUse(geo, d0, j) ==> InUse(geo, d1, j)
    ensures Undisturbed(geo, d0, d2)
  {
    hide Intact, GeoOk, IUsed;
    forall i | InUse(geo, d0, i) ensures Intact(d0.blocks, d2.blocks, d0.inodes[i]) {
      IntactTrans(d0.blocks, d1.blocks, d2.blocks, d0.inodes[i]);
    }
  }

  /** Within one directory a name has one entry. */
  lemma SameName(geo: Geo, d: Disk, dir: nat, e: Entry, ino: nat)
    requires GeoOk(geo) && CrashSafe(geo, d) && HasEntry(geo, d, dir, e)
    requires exists f :: HasEntry(geo, d, dir, f) && f.name == e.name && f.ino == ino
    ensures ino == e.ino
  {
    hide GeoOk, IUsed, EntriesOf, DataOf, NamedBy, Backed, Unshared, NamesLive, NamesUnique, DiskOk, DirBlockOk;
    var f :| HasEntry(geo, d, dir, f) && f.name == e.name && f.ino == ino;
    var es := EntriesOf(d.blocks, d.inodes[dir]);
    assert DistinctNames(es);
    var x :| 0 <= x < |es| && es[x] == e;
    var y :| 0 <= y < |es| && es[y] == f;
  }

  lemma PatchedDir(geo: Geo, d: Disk, d': Disk, dir: nat, e: Entry)
    requires GeoOk(geo) && HasEntry(geo, d, dir, e) && IsDir(geo, d, e.ino) && e.ino != dir
    requires exists links :: d' == d.(inodes := d.inodes[dir := d.inodes[dir].(links := links)])
    ensures IsDir(geo, d', e.ino) && HasEntry(geo, d', dir, e) && d'.inodes[e.ino] == d.inodes[e.ino]
    ensures d'.blocks == d.blocks
  {
    hide GeoOk, IUsed;
  }

  lemma DirsBack(dirs: set<nat>, i: nat)
    requires i !in dirs
    ensures dirs + {i} - {i} == dirs
  {
  }

  lemma AllSurvive(geo: Geo, d0: Disk, g0: seq<GroupDesc>, d1: Disk, g1: seq<GroupDesc>, i: nat, isDir: bool,
      s: seq<nat>)
    requires GeoOk(geo) && CrashSafe(geo, d0) && Reserved(geo, d0, g0, d1, g1, i, isDir, s)
    ensures forall j :: InUse(geo, d0, j) ==> InUse(geo, d1, j)
  {
    hide CrashSafe, Reserved, InUse;
    forall j | InUse(geo, d0, j) ensures InUse(geo, d1, j) {
      SurvivesReserve(geo, d0, g0, d1, g1, i, isDir, s, j);
    }
  }

  /** The extents of a list of runs, zero-length ones skipped. */
  function RunExtents(rs: seq<Run>): seq<Extent> {
    if rs == [] then []
    else
      var r := rs[|rs| - 1];
      RunExtents(rs[..|rs| - 1]) + (if r.len == 0 then [] else [Extent(r.physical, r.len)])
  }

  lemma {:induction false} RunExtentsFlat(rs: seq<Run>)
    ensures Flat(RunExtents(rs)) == FlatRuns(rs)
  {
    if rs != [] {
      RunExtentsFlat(rs[..|rs| - 1]);
      var r := rs[|rs| - 1];
      if r.len > 0 {
        FlatPush(RunExtents(rs[..|rs| - 1]), Extent(r.physical, r.len));
      } else {
        assert FlatRuns(rs) == FlatRuns(rs[..|rs| - 1]) + Span(r.physical, 0) == FlatRuns(rs[..|rs| - 1]);
        assert RunExtents(rs) == RunExtents(rs[..|rs| - 1]);
      }
    }
  }

  function LeafExtents(ls: seq<nat>): seq<Extent> {
    if ls == [] then [] else LeafExtents(ls[..|ls| - 1]) + [Extent(ls[|ls| - 1], 1)]
  }

  lemma {:induction false} LeafExtentsFlat(ls: seq<nat>)
    ensures Flat(LeafExtents(ls)) == ls
  {
    if ls != [] {
      LeafExtentsFlat(ls[..|ls| - 1]);
      FlatPush(LeafExtents(ls[..|ls| - 1]), Extent(ls[|ls| - 1], 1));
      assert Span(ls[|ls| - 1], 1) == [ls[|ls| - 1]];
    }
  }

  lemma InUseNotHeld(geo: Geo, d: Disk, groups: seq<GroupDesc>, held: map<nat, set<nat>>, i: nat)
    requires GeoOk(geo) && HeldOk(geo, d, groups, held) && InUse(geo, d, i)
    ensures held - {i} == held
  {
    hide GeoOk, IUsed, Free, BUsed;
    assert i !in held;
  }

  lemma NamedNoDup(geo: Geo, d: Disk, i: nat)
    requires GeoOk(geo) && CrashSafe(geo, d) && InUse(geo, d, i)
    ensures NoDup(NamedBy(d.blocks, d.inodes[i]))
  {
  }

  lemma FreeableCell(geo: Geo, d: Disk, groups: seq<GroupDesc>, i: nat)
    requires GeoOk(geo) && InUse(geo, d, i)
    ensures 0 < i && (Freeable(geo, d, groups, i) ==> InoGroup(geo, i) < |groups|)
  {
  }

  lemma LooseSplit(geo: Geo, d: Disk, held: map<nat, set<nat>>, s: seq<nat>, t: seq<nat>)
    requires GeoOk(geo) && Loose(geo, d, held, s + t)
    ensures Loose(geo, d, held, s) && Loose(geo, d, held, t)
  {
    hide GeoOk, Free;
    assert forall b :: b in s || b in t ==> b in s + t;
  }

  lemma LooseFrame(geo: Geo, d: Disk, d': Disk, held: map<nat, set<nat>>, s: seq<nat>)
    requires GeoOk(geo) && Loose(geo, d, held, s) && d'.inodes == d.inodes && d'.blocks == d.blocks && d'.ibm == d.ibm
    ensures Loose(geo, d', held, s)
  {
    hide GeoOk, NamedBy, IUsed;
    assert forall i :: InUse(geo, d', i) == InUse(geo, d, i);
  }

  lemma ReleasableSplit(geo: Geo, m: Bitmaps, s: seq<nat>, t: seq<nat>)
    requires GeoOk(geo) && Releasable(geo, m, s + t)
    ensures Releasable(geo, m, s) && Releasable(geo, m, t) && forall b :: b in s ==> b !in t
  {
    NoDupConcat(s, t);
    hide BUsed, GeoOk;
    assert forall b :: b in s || b in t ==> b in s + t;
    forall i, j | 0 <= i < j < |t| ensures t[i] != t[j] {
      assert (s + t)[|s| + i] == t[i] && (s + t)[|s| + j] == t[j];
    }
  }

  lemma ReleasableRest(geo: Geo, m: Bitmaps, m': Bitmaps, s: seq<nat>, t: seq<nat>)
    requires GeoOk(geo) && Releasable(geo, m, t) && Cleared(geo, m, m', s) && forall b :: b in s ==> b !in t
    ensures Releasable(geo, m', t)
  {
    ClearedUsed(geo, m, m', s);
    hide BUsed, GeoOk, Cleared;
  }

  lemma ShapeCells(geo: Geo, ibm: Bitmaps, i: nat)
    requires GeoOk(geo) && ShapedI(geo, ibm) && 0 < i && InoGroup(geo, i) < geo.groups
    ensures InoGroup(geo, i) < |ibm| && InoBit(geo, i) < |ibm[InoGroup(geo, i)]|
  {
    InoCell(geo, ibm, i);
  }

  lemma CountFrame(geo: Geo, groups: seq<GroupDesc>, groups': seq<GroupDesc>, m: Bitmaps, drift: seq<int>)
    requires GeoOk(geo) && BlockCount(geo, groups, m, drift) && SameBlockSide(groups', groups)
    ensures BlockCount(geo, groups', m, drift)
  {
    hide FreeIn, GeoOk;
  }

  lemma BlockSideRefl(groups: seq<GroupDesc>)
    ensures SameBlockSide(groups, groups)
  {
  }

  lemma SameSideRefl(groups: seq<GroupDesc>)
    ensures SameInodeSide(groups, groups)
  {
  }

  lemma ShapedOf(geo: Geo, groups: seq<GroupDesc>, m: Bitmaps)
    requires SupplyOk(geo, groups, m)
    ensures Shaped(geo, m)
  {
  }

  lemma NothingClaimed(geo: Geo, d: Disk, groups: seq<GroupDesc>, held: map<nat, set<nat>>, owner: nat)
    requires GeoOk(geo) && CrashSafe(geo, d) && |groups| == geo.groups && owner in held
    ensures SameInodeSide(groups, groups) && Flat([]) == [] && NoDup([]) && Maximal([])
    ensures AllFree(geo, d.bbm, []) && Marked(geo, d.bbm, d.bbm, [])
    ensures held == held[owner := held[owner] + SeqSet([])]
  {
    hide NamedBy, EntriesOf, Backed, DirsOk, NamesLive, NamesUnique, Unshared;
    assert held[owner] + SeqSet([]) == held[owner];
    assert held == held[owner := held[owner]];
  }

  lemma NothingCleared(geo: Geo, m: Bitmaps)
    requires GeoOk(geo) && Shaped(geo, m)
    ensures Cleared(geo, m, m, Flat([])) && Flat([]) == []
  {
  }

  lemma PlannedMeans(geo: Geo, groups: seq<GroupDesc>, now: Bitmaps, view: Bitmaps, out: seq<Extent>,
      plan: seq<PlanEntry>)
    requires GeoOk(geo) && Planned(geo, groups, now, view, out, plan)
    ensures |groups| == geo.groups && Claimed(geo, now, view, out) && PlanOf(geo, now, view, plan)
    ensures PlanTakes(geo, now, view, plan)
    ensures PlanTotal(plan) == |Flat(out)|
    ensures forall k :: 0 <= k < |plan| ==> plan[k].g < geo.groups && plan[k].n <= groups[plan[k].g].freeBlocks
  {
  }

  lemma ReleasingParts(geo: Geo, now: Bitmaps, view: Bitmaps, s: seq<nat>, plan: seq<PlanEntry>)
    requires GeoOk(geo) && Releasing(geo, now, view, s, plan)
    ensures Cleared(geo, now, view, s) && PlanOf(geo, now, view, plan) && PlanGives(geo, now, view, plan)
    ensures PlanTotal(plan) == |s|
  {
  }

  // ----- what an operation leaves alone -----

  /** Inode `j` is in use before and after with the same record, the same
      blocks, the same entries, and for a file the same contents. */
  ghost predicate Same(geo: Geo, d: Disk, d': Disk, j: nat)
    requires GeoOk(geo)
  {
    InUse(geo, d, j) && InUse(geo, d', j) && d'.inodes[j] == d.inodes[j] && Intact(d.blocks, d'.blocks, d.inodes[j])
  }

  /** Nothing but directory `dir` and the inodes in `gone` was touched. */
  ghost predicate Elsewhere(geo: Geo, d: Disk, d': Disk, dir: nat, gone: set<nat>)
    requires GeoOk(geo)
  {
    forall j :: InUse(geo, d, j) && j != dir && j !in gone ==> Same(geo, d, d', j)
  }

  lemma ElsewhereTrans(geo: Geo, d0: Disk, d1: Disk, d2: Disk, dir: nat, gone: set<nat>)
    requires GeoOk(geo) && Elsewhere(geo, d0, d1, dir, gone) && Elsewhere(geo, d1, d2, dir, gone)
    ensures Elsewhere(geo, d0, d2, dir, gone)
  {
    hide GeoOk, IUsed, Intact;
    forall j | InUse(geo, d0, j) && j != dir && j !in gone ensures Same(geo, d0, d2, j) {
      assert Same(geo, d0, d1, j) && Same(geo, d1, d2, j);
      IntactTrans(d0.blocks, d1.blocks, d2.blocks, d0.inodes[j]);
    }
  }

  lemma ElsewhereRefl(geo: Geo, d: Disk, dir: nat, gone: set<nat>)
    requires GeoOk(geo)
    ensures Elsewhere(geo, d, d, dir, gone)
  {
    hide GeoOk, IUsed, NamedBy, EntriesOf;
  }

  lemma DirBlockElsewhere(geo: Geo, d: Disk, dir: nat, b: nat, c: seq<Rec>)
    requires GeoOk(geo) && CrashSafe(geo, d) && IsDir(geo, d, dir) && b in DataOf(d.blocks, d.inodes[dir])
    ensures
      var d' := d.(blocks := d.blocks[b := DirBlock(c)]);
      && Elsewhere(geo, d, d', dir, {}) && IsDir(geo, d', dir)
      && DataOf(d'.blocks, d.inodes[dir]) == DataOf(d.blocks, d.inodes[dir])
  {
    hide CrashSafe, GeoOk, IUsed, Intact, DataOf;
    DirWriteIntact(geo, d, dir, b, c);
  }

  lemma DirNames(geo: Geo, d: Disk, dir: nat)
    requires GeoOk(geo) && CrashSafe(geo, d) && IsDir(geo, d, dir)
    ensures DistinctNames(EntriesOf(d.blocks, d.inodes[dir]))
  {
  }

  /** `e` came into `dir`, and with it its inode; nothing else changed but the
      link count of `dir`. */
  ghost predicate Added(geo: Geo, d: Disk, d': Disk, dir: nat, e: Entry)
    requires GeoOk(geo)
  {
    && IsDir(geo, d, dir) && IsDir(geo, d', dir) && !InUse(geo, d, e.ino) && InUse(geo, d', e.ino)
    && d'.inodes[dir].(links := d.inodes[dir].links) == d.inodes[dir]
    && (forall j :: InUse(geo, d, j) && j != dir ==> Same(geo, d, d', j))
    && (forall j :: InUse(geo, d', j) ==> InUse(geo, d, j) || j == e.ino)
    && (forall f :: HasEntry(geo, d', dir, f) <==> HasEntry(geo, d, dir, f) || f == e)
  }

  lemma AddedBy(geo: Geo, d0: Disk, d1: Disk, d2: Disk, dir: nat, e: Entry)
    requires GeoOk(geo) && Undisturbed(geo, d0, d1) && !InUse(geo, d0, e.ino) && InUse(geo, d0, dir)
    requires forall j :: InUse(geo, d1, j) <==> InUse(geo, d0, j) || j == e.ino
    requires IsDir(geo, d1, dir) && IsDir(geo, d2, dir) && d2.inodes == d1.inodes && d2.ibm == d1.ibm
    requires Elsewhere(geo, d1, d2, dir, {})
    requires forall f :: HasEntry(geo, d2, dir, f) <==> HasEntry(geo, d1, dir, f) || f == e
    ensures Added(geo, d0, d2, dir, e)
  {
    hide GeoOk, IUsed, EntriesIn, NamedBy, DataOf, AgreeOn;
    forall j ensures InUse(geo, d2, j) == InUse(geo, d1, j) { }
    forall j | InUse(geo, d0, j) && j != dir ensures Same(geo, d0, d2, j) {
      assert Same(geo, d1, d2, j);
      IntactTrans(d0.blocks, d1.blocks, d2.blocks, d0.inodes[j]);
    }
    assert Intact(d0.blocks, d1.blocks, d0.inodes[dir]);
  }

  /** A link count does not show elsewhere. */
  lemma AddedPatched(geo: Geo, d0: Disk, d: Disk, d': Disk, dir: nat, e: Entry, links: nat)
    requires GeoOk(geo) && Added(geo, d0, d, dir, e) && e.ino != dir
    requires d' == d.(inodes := d.inodes[dir := d.inodes[dir].(links := links)])
    ensures Added(geo, d0, d', dir, e)
  {
    hide GeoOk, IUsed, EntriesIn, NamedBy, Intact;
    assert EntriesOf(d'.blocks, d'.inodes[dir]) == EntriesOf(d.blocks, d.inodes[dir]) by {
      PatchedEntries(d.blocks, d.inodes[dir], links);
    }
    forall j ensures InUse(geo, d', j) == InUse(geo, d, j) { }
    forall j | InUse(geo, d0, j) && j != dir ensures Same(geo, d0, d', j) {
      assert Same(geo, d0, d, j);
    }
    assert forall f :: HasEntry(geo, d', dir, f) <==> HasEntry(geo, d, dir, f);
  }

  lemma PatchedEntries(blocks: map<nat, Content>, r: Record, links: nat)
    requires r.Inode?
    ensures EntriesOf(blocks, r.(links := links)) == EntriesOf(blocks, r)
  {
    assert DataOf(blocks, r.(links := links)) == DataOf(blocks, r);
  }

  lemma ReservedInUse(geo: Geo, d0: Disk, g0: seq<GroupDesc>, d1: Disk, g1: seq<GroupDesc>, i: nat, isDir: bool,
      s: seq<nat>)
    requires GeoOk(geo) && CrashSafe(geo, d0) && Reserved(geo, d0, g0, d1, g1, i, isDir, s) && InUse(geo, d1, i)
    ensures !InUse(geo, d0, i) && forall j :: InUse(geo, d1, j) <==> InUse(geo, d0, j) || j == i
  {
    CrashShape(geo, d0, i);
    SetInoUsed(geo, d0.ibm, i, true);
    hide CrashSafe, SetIno, InoGroup, InoBit, Marked, AllFree, IUsed, ClaimGroups, SameInodeSide, GeoOk;
  }
}
