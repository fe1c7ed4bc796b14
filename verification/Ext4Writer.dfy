/** The ext4 writer (core/src/fs/ext4/alloc.rs, file.rs, dirent.rs, mod.rs): a
    mounted filesystem that changes its medium one device write at a time. */
module Ext4Writer {
  import opened Arith
  import opened Bytes
  import opened Extents
  import opened DirChain
  import opened Ext4Disk
  import opened Ext4Steps
  import opened Ext4Bitmap
  import opened Ext4Inodes
  import opened Ext4Data
  import opened Ext4Books

  class Ext4 {
    const geo: Geo
    var groups: seq<GroupDesc>
    var freeBlocks: nat
    var freeInodes: nat
    var disk: Disk
    ghost const base: Disk
    ghost var drift: Drift
    ghost var owed: seq<Owed>
    ghost var log: seq<Write>
    ghost var held: map<nat, set<nat>>
    ghost var dirs: set<nat>

    /** The medium is the replay of the writes issued since mount, and every
        prefix of them is safe. */
    ghost predicate History()
      reads this
    {
      && GeoOk(geo) && |groups| == geo.groups
      && disk == Replay(base, log) && SafeHistory(geo, base, log) && CrashSafe(geo, disk)
    }

    ghost predicate Valid()
      reads this
    {
      && History()
      && HeldOk(geo, disk, groups, held)
      && BlockCount(geo, groups, disk.bbm, drift.blocks)
      && InodeSide(geo, disk, groups, dirs, drift)
      && Saved(geo, disk, groups, freeBlocks, dirs, drift, owed)
    }

    ghost function Now(): State
      reads this
    {
      State(disk, groups, freeBlocks, freeInodes, drift, owed)
    }

    /** Nothing is owed: the counters on the medium are those in memory. */
    lemma SettledMeans()
      requires Valid() && Clear(owed) && disk.freeInodes == freeInodes
      ensures disk.gd == groups && disk.freeBlocks == freeBlocks && disk.freeInodes == freeInodes
    {
      hide CrashSafe, SafeHistory, Replay, GeoOk, HeldOk, BlockCount, InodeSide;
      SettledMedium(geo, disk, groups, freeBlocks, dirs, drift, owed);
    }

    lemma OwesNothing()
      requires Valid() && disk.gd == groups
      ensures Clear(owed)
    {
      hide CrashSafe, SafeHistory, Replay, GeoOk, HeldOk, BlockCount, InodeSide, Saved;
      OwedShows(geo, disk, groups, freeBlocks, dirs, drift, owed);
    }

    /** Mount a medium that is safe; what its counters say is taken as is. */
    constructor Mount(geo: Geo, disk: Disk)
      requires GeoOk(geo) && CrashSafe(geo, disk)
      ensures Valid() && this.geo == geo && this.disk == disk && base == disk && log == [] && held == map[]
      ensures groups == disk.gd && freeBlocks == disk.freeBlocks && freeInodes == disk.freeInodes && Clear(owed)
      ensures drift == DriftOf(geo, disk) && dirs == DirsOn(geo, disk)
    {
      this.geo, this.disk, this.groups, this.freeBlocks, this.freeInodes := geo, disk, disk.gd, disk.freeBlocks,
        disk.freeInodes;
      this.base, this.log, this.held := disk, [], map[];
      this.drift, this.dirs, this.owed := DriftOf(geo, disk), DirsOn(geo, disk), Nothing(geo.groups);
      MountedOk(geo, disk);
      MountedSaved(geo, disk);
      hide CrashSafe, GeoOk, HeldOk, BlockCount, InodeSide, Saved;
    }

    /** Issue one device write. */
    method Put(w: Write)
      requires History() && CrashSafe(geo, Apply(disk, w))
      modifies this`disk, this`log
      ensures History() && disk == Apply(old(disk), w) && log == old(log) + [w]
    {
      hide CrashSafe, SafeHistory, Replay, Apply;
      HistoryExtends(geo, base, log, w);
      disk := Apply(disk, w);
      log := log + [w];
    }

    // ----- blocks -----

    /** Write one group's bitmap and then its descriptor. */
    method CommitGroup(e: PlanEntry, give: bool)
      requires History() && e.g < geo.groups && |e.bm| == geo.per
      requires e.g < |disk.bbm| && NamedIn(geo, disk, disk.bbm[e.g := e.bm])
      modifies this`disk, this`log, this`groups, this`freeBlocks
      ensures History()
      ensures disk.inodes == old(disk.inodes) && disk.blocks == old(disk.blocks) && disk.ibm == old(disk.ibm)
      ensures e.g < |old(disk).bbm| && disk.bbm == old(disk.bbm)[e.g := e.bm]
      ensures groups == old(groups)[e.g := AdjustOne(old(groups)[e.g], e.n, give)]
      ensures freeBlocks == if give then old(freeBlocks) + e.n else SatSub(old(freeBlocks), e.n)
      ensures log == old(log) + [WBlockBitmap(e.g, e.bm)] + [WGroupDesc(e.g, groups[e.g])]
      ensures e.g < |old(disk).gd| && disk.gd == old(disk.gd)[e.g := groups[e.g]]
    {
      hide CrashSafe, GeoOk, NamedIn, SafeHistory, Replay;
      DescShape(geo, disk);
      groups := groups[e.g := AdjustOne(groups[e.g], e.n, give)];
      freeBlocks := if give then freeBlocks + e.n else SatSub(freeBlocks, e.n);
      StepBlockBitmap(geo, disk, e.g, e.bm);
      Put(WBlockBitmap(e.g, e.bm));
      StepCounters(geo, disk, WGroupDesc(e.g, groups[e.g]));
      Put(WGroupDesc(e.g, groups[e.g]));
    }

    /** Commit a plan: bitmap, then descriptor, group by group; superblock last.
        `floor` is what every intermediate bitmap still covers. */
    method Commit(plan: seq<PlanEntry>, give: bool, ghost view: Bitmaps,
        ghost floor: Bitmaps) returns (ghost steps: seq<Write>)
      requires History() && PlanOf(geo, disk.bbm, view, plan)
      requires Covers(geo, disk.bbm, floor) && Covers(geo, view, floor)
      requires NamedIn(geo, disk, floor)
      modifies this`disk, this`log, this`groups, this`freeBlocks
      ensures History()
      ensures disk.inodes == old(disk.inodes) && disk.blocks == old(disk.blocks) && disk.ibm == old(disk.ibm)
      ensures disk.bbm == view
      ensures log == old(log) + steps && CommitOrdered(steps) && FromPlan(plan, steps)
      ensures groups == Adjust(old(groups), plan, give)
      ensures freeBlocks == if give then old(freeBlocks) + PlanTotal(plan) else SatSub(old(freeBlocks), PlanTotal(plan))
      ensures Written(old(disk.gd), disk.gd, groups, plan) && disk.freeBlocks == freeBlocks
      ensures disk.freeInodes == freeInodes
    {
      hide CrashSafe, GeoOk, NamedIn, SafeHistory, Replay, Covers, CommitPairs, CommitOrdered, PlanOf, Install, Adjust,
        PlanTotal, FromPlan, AdjustOne, Written;
      DescShape(geo, disk);
      WrittenNone(disk.gd, groups);
      PlanDistinct(geo, disk.bbm, view, plan);
      steps := [];
      ghost var now := disk.bbm;
      CommitNone();
      FromPlanNone(plan);
      PlanStart(geo, now, view, plan, groups, give);
      for k := 0 to |plan|
        invariant History()
        invariant disk.inodes == old(disk.inodes) && disk.blocks == old(disk.blocks) && disk.ibm == old(disk.ibm)
        invariant disk.bbm == Install(now, plan[..k])
        invariant log == old(log) + steps && CommitPairs(steps) && FromPlan(plan, steps)
        invariant groups == Adjust(old(groups), plan[..k], give) && Written(old(disk.gd), disk.gd, groups, plan[..k])
        invariant freeBlocks ==
          if give then old(freeBlocks) + PlanTotal(plan[..k]) else SatSub(old(freeBlocks), PlanTotal(plan[..k]))
      {
        var e := plan[k];
        PlanShape(geo, now, view, plan, k);
        PlanStep(now, plan, old(groups), give, k);
        InstallCovers(geo, now, view, plan, k + 1, floor);
        NamedInFrame(geo, old(disk), disk, floor);
        CoversNamed(geo, disk, disk.bbm[e.g := e.bm], floor);
        ghost var gd, gs := disk.gd, groups;
        CommitGroup(e, give);
        WrittenMore(old(disk.gd), gd, gs, groups, plan, k);
        CommitPairsPush(steps, e.g, e.bm, groups[e.g]);
        FromPlanPush(plan, steps, k, groups[e.g]);
        ghost var w1, w2 := WBlockBitmap(e.g, e.bm), WGroupDesc(e.g, groups[e.g]);
        Assoc(old(log), steps, [w1]);
        Assoc(old(log), steps + [w1], [w2]);
        steps := steps + [w1] + [w2];
      }
      assert plan[..|plan|] == plan;
      StepCounters(geo, disk, WSuper(freeBlocks, freeInodes));
      InstallDone(geo, now, view, plan);
      Put(WSuper(freeBlocks, freeInodes));
      CommitSeal(steps, WSuper(freeBlocks, freeInodes));
      FromPlanSeal(plan, steps, WSuper(freeBlocks, freeInodes));
      Assoc(old(log), steps, [WSuper(freeBlocks, freeInodes)]);
      steps := steps + [WSuper(freeBlocks, freeInodes)];
    }

    /** Claim `count` free blocks near `goal` for the unfinished file `owner`. */
    method AllocBlocks(goal: nat, count: nat, ghost owner: nat) returns (r: Result<seq<Extent>>,
        ghost steps: seq<Write>)
      requires Valid() && owner in held
      modifies this`disk, this`log, this`groups, this`freeBlocks, this`held, this`owed
      ensures Valid() && log == old(log) + steps && Keeps(old(Now()), Now())
      ensures disk.inodes == old(disk.inodes) && disk.blocks == old(disk.blocks) && disk.ibm == old(disk.ibm)
      ensures SameInodeSide(groups, old(groups))
      ensures SupplyOk(geo, old(groups), old(disk.bbm))
      ensures r.Err? <==> SupplyFrom(geo, old(groups), old(disk.bbm), 0, geo.groups) < count
      ensures r.Err? ==> r.error == FilesystemFull && steps == [] && held == old(held)
      ensures r.Err? ==> Now() == old(Now())
      ensures r.Ok? ==>
        && |Flat(r.value)| == count && NoDup(Flat(r.value)) && Maximal(r.value)
        && AllFree(geo, old(disk.bbm), Flat(r.value)) && Marked(geo, old(disk.bbm), disk.bbm, Flat(r.value))
        && held == old(held)[owner := old(held)[owner] + SeqSet(Flat(r.value))]
        && freeBlocks == SatSub(old(freeBlocks), count)
        && (if count == 0 then steps == [] else CommitOrdered(steps))
        && Supplied(geo, old(disk), old(groups), disk, groups, goal, count, r.value)
      ensures NoFlush(steps) && BlockSide(steps)
    {
      hide FromPlan, BlockSide, NoFlush;
      BlockSideNone();
      hide CrashSafe, SafeHistory, Replay, GeoOk, HeldOk, BlockCount, InodeSide, Saved, Planned, Flat, NoDup, Maximal,
        AllFree, Marked, SupplyFrom, CommitOrdered, Adjust, NamedIn, Covers, PlanOf, PlanTakes, PlanTotal, Claimed,
        SupplyOk, SameInodeSide, SeqSet, Written, Rewrote, Clear, PlanGroups, Supplied, Allotted;
      SupplyReady(geo, disk, groups);
      if count == 0 {
        SuppliedNone(geo, disk, groups, goal);
        NothingClaimed(geo, disk, groups, held, owner);
        return Ok([]), [];
      }
      var got, plan, view := PlanBlocks(geo, groups, disk.bbm, goal, count);
      if got.None? {
        SameSideRefl(groups);
        return Err(FilesystemFull), [];
      }
      PlannedMeans(geo, groups, disk.bbm, view, got.value, plan);
      ClaimedNamed(geo, disk, view, got.value);
      CountKept(geo, groups, disk.bbm, view, plan, false, drift.blocks);
      ghost var d, gs, fb := disk, groups, freeBlocks;
      DescShape(geo, d);
      steps := Commit(plan, false, view, disk.bbm);
      CommitBlockSide(steps);
      BlockSideNoFlush(steps);
      SuppliedBy(geo, d, gs, disk, goal, count, got.value, plan);
      SideFrame(geo, d, disk, gs, groups, dirs, drift);
      PlanRewrote(geo, d, gs, disk, plan, false);
      SavedCommit(geo, d, gs, fb, dirs, owed, disk, groups, dirs, drift, PlanGroups(plan));
      owed := Paid(owed, PlanGroups(plan));
      HeldAfterAlloc(geo, d, disk, gs, groups, held, owner, Flat(got.value));
      held := held[owner := held[owner] + SeqSet(Flat(got.value))];
      r := Ok(got.value);
    }

    /** Release a batch of blocks that nothing names any more. */
    method FreeBlocks(extents: seq<Extent>) returns (r: Result<()>, ghost steps: seq<Write>)
      requires Valid() && Loose(geo, disk, held, Flat(extents))
      modifies this`disk, this`log, this`groups, this`freeBlocks, this`owed
      ensures Valid() && log == old(log) + steps && Keeps(old(Now()), Now())
      ensures disk.inodes == old(disk.inodes) && disk.blocks == old(disk.blocks) && disk.ibm == old(disk.ibm)
      ensures SameInodeSide(groups, old(groups))
      ensures r.Ok? <==> extents == [] || Releasable(geo, old(disk.bbm), Flat(extents))
      ensures r.Err? ==> r.error == CorruptFs && steps == [] && Now() == old(Now())
      ensures r.Ok? ==>
        Cleared(geo, old(disk.bbm), disk.bbm, Flat(extents)) && freeBlocks == old(freeBlocks) + |Flat(extents)|
      ensures r.Ok? ==> if extents == [] then steps == [] else CommitOrdered(steps)
      ensures BlockSide(steps) && Clearing(geo, Flat(extents), steps)
    {
      hide BlockSide, Clearing, Touched, FromPlan;
      hide CrashSafe, SafeHistory, Replay, GeoOk, HeldOk, BlockCount, InodeSide, Saved, Flat, Releasing, Releasable,
        Cleared, Loose, CommitOrdered, Adjust, NamedIn, Covers, PlanOf, PlanGives, PlanTotal, SupplyOk, SameInodeSide,
        Written, Rewrote, Clear, PlanGroups;
      SupplyReady(geo, disk, groups);
      ShapedOf(geo, groups, disk.bbm);
      SameSideRefl(groups);
      ClearingNone(geo, Flat(extents));
      if extents == [] {
        NothingCleared(geo, disk.bbm);
        return Ok(()), [];
      }
      var ok, plan, view := PlanFree(geo, disk.bbm, extents);
      if !ok {
        return Err(CorruptFs), [];
      }
      ReleasingParts(geo, disk.bbm, view, Flat(extents), plan);
      LooseNamed(geo, disk, held, view, Flat(extents));
      CountKept(geo, groups, disk.bbm, view, plan, true, drift.blocks);
      ghost var d, gs, fb := disk, groups, freeBlocks;
      DescShape(geo, d);
      steps := Commit(plan, true, view, view);
      CommitBlockSide(steps);
      PlanClearing(geo, d.bbm, view, Flat(extents), plan, steps);
      SideFrame(geo, d, disk, gs, groups, dirs, drift);
      PlanRewrote(geo, d, gs, disk, plan, true);
      SavedCommit(geo, d, gs, fb, dirs, owed, disk, groups, dirs, drift, PlanGroups(plan));
      owed := Paid(owed, PlanGroups(plan));
      HeldAfterFree(geo, d, disk, gs, groups, held, Flat(extents));
      r := Ok(());
    }
  
    // ----- inodes -----

    /** Write the inode bitmap cell, then descriptor, then superblock. */
    method CommitInode(i: nat, v: bool) returns (ghost steps: seq<Write>)
      requires History() && 0 < i && InoGroup(geo, i) < geo.groups && i in disk.inodes && disk.inodes[i].Blank?
      requires InoGroup(geo, i) < |disk.ibm| && InoBit(geo, i) < |disk.ibm[InoGroup(geo, i)]|
      modifies this`disk, this`log
      ensures History()
      ensures disk.inodes == old(disk.inodes) && disk.blocks == old(disk.blocks) && disk.bbm == old(disk.bbm)
      ensures disk.ibm == SetIno(geo, old(disk.ibm), i, v)
      ensures log == old(log) + steps && NoFlush(steps)
      ensures |steps| == 3 && steps[0].WInodeBitmap? && steps[1].WGroupDesc? && steps[2].WSuper?
      ensures InoGroup(geo, i) < |old(disk).gd| && disk.gd == old(disk.gd)[InoGroup(geo, i) := groups[InoGroup(geo, i)]]
      ensures disk.freeBlocks == freeBlocks && disk.freeInodes == freeInodes
    {
      DescShape(geo, disk);
      hide CrashSafe, SafeHistory, Replay, GeoOk, InoGroup, InoBit, NoFlush;
      var g := InoGroup(geo, i);
      var bm := disk.ibm[g][InoBit(geo, i) := v];
      StepInodeBitmap(geo, disk, i, v);
      Put(WInodeBitmap(g, bm));
      StepCounters(geo, disk, WGroupDesc(g, groups[g]));
      Put(WGroupDesc(g, groups[g]));
      StepCounters(geo, disk, WSuper(freeBlocks, freeInodes));
      Put(WSuper(freeBlocks, freeInodes));
      steps := [WInodeBitmap(g, bm), WGroupDesc(g, groups[g]), WSuper(freeBlocks, freeInodes)];
      ThreeWrites(old(log), steps[0], steps[1], steps[2]);
    }

    /** Claim one free inode. The slot is erased before the bitmap claims it.
        A number beyond the superblock's inode count is refused only after the
        counters in memory were charged for it. */
    method AllocInode(isDir: bool) returns (r: Result<nat>, ghost steps: seq<Write>)
      requires Valid()
      modifies this`disk, this`log, this`groups, this`freeInodes, this`held, this`dirs, this`drift, this`owed
      ensures Valid() && log == old(log) + steps
      ensures disk.bbm == old(disk.bbm) && disk.blocks == old(disk.blocks) && ShapedI(geo, old(disk.ibm))
      ensures |old(groups)| == geo.groups
      ensures r == match Offered(geo, old(groups), old(disk.ibm))
                   case None => Err(NoFreeInodes)
                   case Some(i) => if i > geo.icount then Err(BadInode) else Ok(i)
      ensures r.Err? ==> steps == [] && disk == old(disk) && held == old(held) && dirs == old(dirs)
      ensures r == Err(NoFreeInodes) ==> Now() == old(Now())
      ensures r == Err(BadInode) ==>
        ChargedTo(geo, old(disk), old(groups), old(freeInodes), old(drift), groups, freeInodes, drift, isDir)
      ensures r != Err(BadInode) ==> Keeps(old(Now()), Now())
      ensures SameBlockSide(groups, old(groups))
      ensures r.Ok? ==> Claimed1(old(disk), disk, r.value) && r.value !in old(held)
      ensures r.Ok? ==>
        groups == ClaimGroups(geo, old(groups), r.value, isDir) && freeInodes == SatSub(old(freeInodes), 1)
      ensures r.Ok? ==> old(groups)[InoGroup(geo, r.value)].freeInodes > 0
      ensures r.Ok? ==> held == old(held)[r.value := {}] && dirs == (if isDir then old(dirs) + {r.value} else old(dirs))
      ensures r.Ok? ==> IdleOut(r.value, steps)
      ensures NoFlush(steps)
    {
      hide CrashSafe, SafeHistory, Replay, GeoOk, HeldOk, BlockCount, InodeSide, Saved, InoGroup, InoBit, InoExists,
        IUsed, InUse, ShapedI, Candidate, SetIno, ClaimGroups, ClaimDesc, Unnamed, SameBlockSide, InoAt, Tracked,
        Offered, Rewrote, Clear, DirsIn, IdleOut, NoFlush;
      NoFlushNone();
      SideShape(geo, disk, groups, dirs, drift);
      DescShape(geo, disk);
      BlockSideRefl(groups);
      var found := FindInode(geo, groups, disk.ibm);
      if found.None? {
        return Err(NoFreeInodes), [];
      }
      var (g, bit) := found.value;
      var i := InoAt(geo, g, bit);
      Chosen(geo, disk, groups, g, bit);
      ClaimBlockSide(geo, groups, i, isDir);
      NotInUse(geo, disk, i);
      freeInodes := SatSub(freeInodes, 1);
      ghost var gs, d, ds := groups, disk, dirs;
      if !InoExists(geo, i) {
        groups := groups[g := ClaimDesc(geo, groups[g], bit, isDir)];
        HeldRefused(geo, disk, gs, held, g, bit, isDir);
        SideRefused(geo, disk, gs, dirs, drift, g, bit, isDir);
        SavedRefused(geo, disk, gs, freeBlocks, dirs, drift, owed, g, groups[g], isDir);
        CountFrame(geo, gs, groups, disk.bbm, drift.blocks);
        owed := owed[g := Owed(owed[g].inodes + 1, owed[g].dirs + if isDir then 1 else 0)];
        drift := Charge(drift, g, isDir);
        return Err(BadInode), [];
      }
      steps := ClaimInode(i, isDir);
      r := Ok(i);
    }

    /** Claim the free inode `i`: erase its slot, then set its bit. */
    method ClaimInode(i: nat, isDir: bool) returns (ghost steps: seq<Write>)
      requires History() && HeldOk(geo, disk, groups, held) && BlockCount(geo, groups, disk.bbm, drift.blocks)
      requires InodeSide(geo, disk, groups, dirs, drift) && Saved(geo, disk, groups, freeBlocks, dirs, drift, owed)
      requires InoExists(geo, i) && geo.firstIno <= i && !IUsed(geo, disk.ibm, i) && InoGroup(geo, i) < |groups|
      requires InoBit(geo, i) < geo.iper && groups[InoGroup(geo, i)].freeInodes > 0
      modifies this`disk, this`log, this`groups, this`held, this`dirs, this`owed
      ensures Valid() && log == old(log) + steps && disk.bbm == old(disk.bbm) && disk.blocks == old(disk.blocks)
      ensures disk.freeInodes == freeInodes && (Clear(old(owed)) ==> Clear(owed)) && SameBlockSide(groups, old(groups))
      ensures Claimed1(old(disk), disk, i) && i !in old(held) && groups == ClaimGroups(geo, old(groups), i, isDir)
      ensures held == old(held)[i := {}] && dirs == (if isDir then old(dirs) + {i} else old(dirs))
      ensures IdleOut(i, steps) && NoFlush(steps)
    {
      hide CrashSafe, SafeHistory, Replay, GeoOk, HeldOk, BlockCount, InodeSide, Saved, InoGroup, InoBit, InoExists,
        IUsed, InUse, ShapedI, SetIno, ClaimGroups, Unnamed, SameBlockSide, Tracked, Rewrote, Clear, DirsIn;
      InoPositive(geo, i);
      SideShape(geo, disk, groups, dirs, drift);
      DescShape(geo, disk);
      ClaimBlockSide(geo, groups, i, isDir);
      NotInUse(geo, disk, i);
      ghost var gs, d, ds := groups, disk, dirs;
      groups := ClaimGroups(geo, groups, i, isDir);
      ClaimOthers(geo, gs, i, isDir);
      BlankIsUnnamed(geo, disk, i);
      StepBlank(geo, disk, i);
      Put(WInode(i, Blank));
      ShapeCells(geo, disk.ibm, i);
      steps := CommitInode(i, true);
      Assoc(old(log), [WInode(i, Blank)], steps);
      steps := [WInode(i, Blank)] + steps;
      HeldClaim(geo, d, disk, gs, groups, held, i);
      SideClaim(geo, d, disk, gs, dirs, drift, i, isDir);
      CountFrame(geo, gs, groups, disk.bbm, drift.blocks);
      held := held[i := {}];
      dirs := if isDir then dirs + {i} else dirs;
      InodeRewrote(geo, d, gs, disk, groups, i, true);
      OtherDirs(geo, ds, i);
      SavedCommit(geo, d, gs, freeBlocks, ds, owed, disk, groups, dirs, drift, {InoGroup(geo, i)});
      owed := Paid(owed, {InoGroup(geo, i)});
    }

    /** Release an inode no entry leads to. Its record is erased before its bit
        is cleared. */
    method FreeInode(i: nat, wasDir: bool) returns (r: Result<()>, ghost steps: seq<Write>)
      requires Valid() && Unnamed(geo, disk, i) && (wasDir <==> i in dirs)
      modifies this`disk, this`log, this`groups, this`freeInodes, this`held, this`dirs, this`owed
      ensures Valid() && log == old(log) + steps && Keeps(old(Now()), Now())
      ensures disk.bbm == old(disk.bbm) && disk.blocks == old(disk.blocks)
      ensures r.Ok? <==> Freeable(geo, old(disk), old(groups), i)
      ensures r.Err? ==> r.error == BadInode || r.error == CorruptFs
      ensures r.Err? ==>
        steps == [] && disk == old(disk) && held == old(held) && dirs == old(dirs) && groups == old(groups)
      ensures r.Err? ==> freeInodes == old(freeInodes)
      ensures SameBlockSide(groups, old(groups))
      ensures r.Ok? ==> InoGroup(geo, i) < |old(disk.ibm)| && InoBit(geo, i) < |old(disk.ibm)[InoGroup(geo, i)]|
      ensures r.Ok? ==> disk.inodes == old(disk.inodes)[i := Blank] && disk.ibm == SetIno(geo, old(disk.ibm), i, false)
      ensures r.Ok? ==> groups == ReleaseGroups(geo, old(groups), i, wasDir) && freeInodes == old(freeInodes) + 1
      ensures r.Ok? ==> held == old(held) - {i} && dirs == old(dirs) - {i}
      ensures r.Ok? ==> IdleOut(i, steps)
    {
      hide CrashSafe, SafeHistory, Replay, GeoOk, HeldOk, BlockCount, InodeSide, Saved, InoGroup, InoBit, IUsed, InUse,
        ShapedI, SetIno, ReleaseGroups, ReleaseDesc, Unnamed, SameBlockSide, Tracked, Rewrote, Clear, DirsIn;
      SideShape(geo, disk, groups, dirs, drift);
      DescShape(geo, disk);
      BlockSideRefl(groups);
      GeoFirst(geo);
      if i < geo.firstIno || i > geo.icount {
        return Err(BadInode), [];
      }
      var g := InoGroup(geo, i);
      if g >= geo.groups {
        return Err(BadInode), [];
      }
      if groups[g].inodeUninit {
        return Err(CorruptFs), [];
      }
      ShapeCells(geo, disk.ibm, i);
      InoCell(geo, disk.ibm, i);
      if !disk.ibm[g][InoBit(geo, i)] {
        return Err(CorruptFs), [];
      }
      ClaimBlockSide(geo, groups, i, wasDir);
      ClaimOthers(geo, groups, i, wasDir);
      ghost var gs, d, ds := groups, disk, dirs;
      StepBlank(geo, disk, i);
      Put(WInode(i, Blank));
      groups := ReleaseGroups(geo, groups, i, wasDir);
      freeInodes := freeInodes + 1;
      steps := CommitInode(i, false);
      Assoc(old(log), [WInode(i, Blank)], steps);
      steps := [WInode(i, Blank)] + steps;
      HeldRelease(geo, d, disk, gs, groups, held, i);
      SideRelease(geo, d, disk, gs, dirs, drift, i);
      CountFrame(geo, gs, groups, disk.bbm, drift.blocks);
      held := held - {i};
      dirs := dirs - {i};
      InodeRewrote(geo, d, gs, disk, groups, i, false);
      OtherDirs(geo, ds, i);
      SavedCommit(geo, d, gs, freeBlocks, ds, owed, disk, groups, dirs, drift, {InoGroup(geo, i)});
      owed := Paid(owed, {InoGroup(geo, i)});
      r := Ok(());
    }

    // ----- records and contents -----

    /** Write one block of an unfinished file. */
    method PutBlock(b: nat, c: Content, ghost owner: nat)
      requires Valid() && owner in held && b in held[owner]
      modifies this`disk, this`log
      ensures Valid() && disk == old(disk).(blocks := old(disk.blocks)[b := c]) && log == old(log) + [WBlock(b, c)]
    {
      hide CrashSafe, SafeHistory, Replay, GeoOk, HeldOk, BlockCount, InodeSide, Saved, Untouched, SameInodeSide;
      HeldUntouched(geo, disk, groups, held, owner, b, c);
      UntouchedSafe(geo, disk, disk.blocks[b := c]);
      HeldContents(geo, disk, groups, held, disk.blocks[b := c]);
      SameSideRefl(groups);
      SideFrame(geo, disk, disk.(blocks := disk.blocks[b := c]), groups, groups, dirs, drift);
      SavedSame(geo, disk, disk.(blocks := disk.blocks[b := c]), groups, freeBlocks, dirs, drift, owed);
      Put(WBlock(b, c));
    }

    /** Write a run of data blocks of an unfinished file. */
    method PutData(b: nat, chunks: seq<seq<byte>>, ghost owner: nat)
      requires Valid() && owner in held && forall x :: b <= x < b + |chunks| ==> x in held[owner]
      modifies this`disk, this`log
      ensures Valid() && disk == old(disk).(blocks := PutRun(old(disk.blocks), b, chunks))
      ensures log == old(log) + [WRun(b, chunks)]
    {
      hide CrashSafe, SafeHistory, Replay, GeoOk, HeldOk, BlockCount, InodeSide, Saved, Untouched, SameInodeSide,
        PutRun;
      HeldRunUntouched(geo, disk, groups, held, owner, b, chunks);
      UntouchedSafe(geo, disk, PutRun(disk.blocks, b, chunks));
      HeldContents(geo, disk, groups, held, PutRun(disk.blocks, b, chunks));
      SameSideRefl(groups);
      SideFrame(geo, disk, disk.(blocks := PutRun(disk.blocks, b, chunks)), groups, groups, dirs, drift);
      SavedSame(geo, disk, disk.(blocks := PutRun(disk.blocks, b, chunks)), groups, freeBlocks, dirs, drift, owed);
      Put(WRun(b, chunks));
    }

    /** Push everything written so far to the medium. */
    method FlushDevice()
      requires Valid()
      modifies this`disk, this`log
      ensures Valid() && disk == old(disk) && log == old(log) + [Flush]
    {
      hide CrashSafe, SafeHistory, Replay, GeoOk, HeldOk, BlockCount, InodeSide, Saved;
      StepCounters(geo, disk, Flush);
      Put(Flush);
    }

    /** Publish the record of an unfinished file or directory. */
    method PutRecord(i: nat, rec: Record)
      requires Valid() && i in held && rec.Inode? && Publishable(geo, disk, rec) && (rec.kind == Dir <==> i in dirs)
      requires forall b :: b in NamedBy(disk.blocks, rec) ==> b in held[i]
      modifies this`disk, this`log, this`held
      ensures Valid() && disk == old(disk).(inodes := old(disk.inodes)[i := rec]) && log == old(log) + [WInode(i, rec)]
      ensures held == old(held) - {i} && InUse(geo, disk, i) && Unnamed(geo, disk, i)
    {
      hide CrashSafe, SafeHistory, Replay, GeoOk, HeldOk, BlockCount, InodeSide, Saved, Publishable, NamedBy, Unnamed,
        InUse;
      HeldFacts(geo, disk, groups, held, i);
      StepPublish(geo, disk, i, rec);
      HeldPublish(geo, disk, groups, held, i, rec);
      SidePublish(geo, disk, groups, dirs, drift, i, rec);
      SavedPublish(geo, disk, groups, freeBlocks, dirs, drift, owed, i, rec);
      ghost var d := disk;
      Put(WInode(i, rec));
      PublishedInUse(geo, d, i, rec);
      held := held - {i};
    }

    // ----- directories -----

    /** The first entry called `name` in the directory blocks `bs`. */
    method FindEntry(bs: seq<nat>, name: Name) returns (r: Result<Option<Entry>>)
      requires GeoOk(geo) && forall b :: b in bs ==> DirBlockOk(geo, disk.blocks, b)
      ensures r.Err? ==> r.error == CorruptFs && exists b :: b in bs && b <= geo.first
      ensures r.Ok? ==> (r.value.Some? <==> Named(EntriesIn(disk.blocks, bs), name))
      ensures r == Ok(None) ==> forall b :: b in bs ==> b > geo.first
      ensures r.Ok? && r.value.Some? ==> r.value.value in EntriesIn(disk.blocks, bs) && r.value.value.name == name
    {
      hide EntriesIn, BlockEntries, Named, Lookup, ChainOk, Tiles, GeoOk;
      NoEntries(disk.blocks, bs, name);
      for k := 0 to |bs|
        invariant !Named(EntriesIn(disk.blocks, bs[..k]), name)
        invariant forall j :: 0 <= j < k ==> bs[j] > geo.first
      {
        assert bs[k] in bs;
        if bs[k] <= geo.first {
          return Err(CorruptFs);
        }
        var e := Lookup(disk.blocks[bs[k]].chain, name);
        LookupInBlock(disk.blocks, bs[k], name);
        EntriesPrefix(disk.blocks, bs, k, name);
        if e.Some? {
          BlockInDir(disk.blocks, bs, k, e.value);
          NamedWitness(EntriesIn(disk.blocks, bs), e.value);
          return Ok(e);
        }
      }
      assert bs[..|bs|] == bs;
      r := Ok(None);
    }

    /** Give the written inode `ino` the name `name` in directory `dir`. */
    method LinkFile(dir: nat, name: Name, ino: nat, fileType: byte) returns (r: Result<()>)
      requires Valid() && InUse(geo, disk, dir) && InUse(geo, disk, ino) && ino < U32_LIMIT
      requires Single(disk, ino) ==> Unnamed(geo, disk, ino)
      modifies this`disk, this`log
      ensures Valid() && disk == old(disk).(blocks := disk.blocks)
      ensures r.Err? ==> disk == old(disk) && log == old(log)
      ensures r.Ok? ==> Linked(old(disk), disk, dir, Entry(ino, name, fileType)) && NameOk(name)
      ensures r.Ok? ==> |log| == |old(log)| + 1 && log[..|old(log)|] == old(log) && log[|old(log)|].WBlock?
      ensures r.Ok? ==> LinkWrite(geo, old(disk), dir, Entry(ino, name, fileType), log[|old(log)|])
      ensures r.Err? <==> LinkRefused(geo, old(disk), dir, name)
      ensures r.Err? ==> r.error != BadInode
      ensures HeldKept(held, old(disk.blocks), disk.blocks)
    {
      hide CrashSafe, SafeHistory, Replay, GeoOk, HeldOk, BlockCount, InodeSide, Saved, Unnamed, DataOf, EntriesIn,
        Insert, SameInodeSide, ChainOk, Tiles, Named, NameOk, Single, IUsed, HeldKept, LinkWrite;
      HeldKeptRefl(held, disk.blocks);
      if !NameOk(name) {
        return Err(CorruptFs);
      }
      var rec := disk.inodes[dir];
      if rec.kind != Dir {
        return Err(NotADirectory);
      }
      if Sealed(rec) {
        return Err(UnsupportedFsFeature);
      }
      var bs := DataOf(disk.blocks, rec);
      DirParts(geo, disk, dir);
      var there := FindEntry(bs, name);
      if there.Err? {
        return Err(there.error);
      }
      if there.value.Some? {
        return Err(AlreadyExists);
      }
      var e := Entry(ino, name, fileType);
      NewEntryOk(geo, disk, e);
      for k := 0 to |bs|
        invariant Valid() && disk == old(disk) && log == old(log)
        invariant forall j :: 0 <= j < k ==>
          bs[j] in disk.blocks && disk.blocks[bs[j]].DirBlock? && Insert(disk.blocks[bs[j]].chain, e).None?
      {
        var b := bs[k];
        assert b in bs;
        if b <= geo.first {
          return Err(CorruptFs);
        }
        var placed := Insert(disk.blocks[b].chain, e);
        if placed.Some? {
          RoomFound(geo, disk, dir, b, e);
          StepLink(geo, disk, dir, k, placed.value, e);
          LinkWriteIs(geo, disk, dir, k, placed.value, e);
          HeldDirWrite(geo, disk, groups, held, dir, b, placed.value);
          DirWriteKeeps(geo, disk, groups, held, dir, b, DirBlock(placed.value));
          SameSideRefl(groups);
          SideFrame(geo, disk, Apply(disk, WBlock(b, DirBlock(placed.value))), groups, groups, dirs, drift);
          SavedSame(geo, disk, Apply(disk, WBlock(b, DirBlock(placed.value))), groups, freeBlocks, dirs, drift, owed);
          Put(WBlock(b, DirBlock(placed.value)));
          return Ok(());
        }
      }
      FullDirectory(geo, disk, dir, e);
      r := Err(UnsupportedFsFeature);
    }

    lemma PlainRefused(d: Disk, dir: nat, name: Name)
      requires GeoOk(geo) && InUse(geo, d, dir)
      ensures !NameOk(name) || !IsDir(geo, d, dir) || Sealed(d.inodes[dir]) ==> LinkRefused(geo, d, dir, name)
      ensures (exists b :: b in DataOf(d.blocks, d.inodes[dir]) && b <= geo.first) ==> LinkRefused(geo, d, dir, name)
    {
    }

    /** Preparing a new inode does not change what can be linked. */
    lemma LinkRefusedSame(d0: Disk, d1: Disk, dir: nat, name: Name)
      requires GeoOk(geo) && CrashSafe(geo, d0) && InUse(geo, d0, dir)
      requires AgreeOn(d0.blocks, d1.blocks, NamedBy(d0.blocks, d0.inodes[dir]))
      requires InUse(geo, d1, dir) && d1.inodes[dir] == d0.inodes[dir]
      ensures LinkRefused(geo, d1, dir, name) <==> LinkRefused(geo, d0, dir, name)
    {
      RecordFrame(d0.blocks, d1.blocks, d0.inodes[dir]);
      hide GeoOk, IUsed, NameOk, Named, RecordLen, Fits, DataOf, EntriesOf, CrashSafe;
      var rec := d0.inodes[dir];
      assert forall b :: b in DataOf(d0.blocks, rec) ==> b in NamedBy(d0.blocks, rec);
      assert NoRoom(d1, dir, name) == NoRoom(d0, dir, name);
    }

    /** Removing a name from a directory block costs no other name its room. */
    lemma RoomKept(d: Disk, dir: nat, b: nat, name: Name, n: Name)
      requires GeoOk(geo) && dir in d.inodes && !NoRoom(d, dir, n) && b in d.blocks && d.blocks[b].DirBlock?
      requires ChainOk(d.blocks[b].chain)
      requires Remove(d.blocks[b].chain, name).Some?
      requires
        var blocks' := d.blocks[b := DirBlock(Remove(d.blocks[b].chain, name).value)];
        DataOf(blocks', d.inodes[dir]) == DataOf(d.blocks, d.inodes[dir])
      ensures !NoRoom(Apply(d, WBlock(b, DirBlock(Remove(d.blocks[b].chain, name).value))), dir, n)
    {
      hide GeoOk, DataOf, Remove, ChainOk, Fits, RecordLen;
      var x, k :| x in DataOf(d.blocks, d.inodes[dir]) && x in d.blocks && d.blocks[x].DirBlock?
        && 0 <= k < |d.blocks[x].chain|
        && Fits(d.blocks[x].chain[k], RecordLen(|n|));
      if x == b { RemoveKeepsRoom(d.blocks[b].chain, name, RecordLen(|n|), k); }
      var d' := Apply(d, WBlock(b, DirBlock(Remove(d.blocks[b].chain, name).value)));
      assert x in DataOf(d'.blocks, d'.inodes[dir]) && x in d'.blocks && d'.blocks[x].DirBlock?;
    }

    /** One entry was added to one block of `dir`, and nothing else changed. */
    ghost predicate Linked(d: Disk, d': Disk, dir: nat, e: Entry)
      requires GeoOk(geo)
    {
      && IsDir(geo, d, dir)
      && (exists b, c :: b in DataOf(d.blocks, d.inodes[dir]) && d' == d.(blocks := d.blocks[b := DirBlock(c)]))
      && AddedOnce(EntriesOf(d.blocks, d.inodes[dir]), e, EntriesOf(d'.blocks, d.inodes[dir]))
      && !Named(EntriesOf(d.blocks, d.inodes[dir]), e.name)
    }

    /** Remove the name `name` from directory `dir` and say what it named. */
    method UnlinkFile(dir: nat, name: Name) returns (r: Result<nat>)
      requires Valid() && InUse(geo, disk, dir)
      modifies this`disk, this`log
      ensures Valid() && disk == old(disk).(blocks := disk.blocks)
      ensures r.Err? ==> disk == old(disk) && log == old(log)
      ensures r.Ok? ==> Unlinked(old(disk), disk, dir, name, r.value) && NameOk(name) && !Sealed(disk.inodes[dir])
      ensures r.Ok? ==>
        !NoRoom(disk, dir, name) && forall n: Name :: !NoRoom(old(disk), dir, n) ==> !NoRoom(disk, dir, n)
      ensures r.Ok? ==> forall n: Name :: NoRoom(disk, dir, n) <==> NoRoomWithout(old(disk), dir, name, n)
      ensures r.Ok? ==> |log| == |old(log)| + 1 && log[..|old(log)|] == old(log) && log[|old(log)|].WBlock?
      ensures r.Ok? ==> UnlinkWrite(geo, old(disk), dir, name, log[|old(log)|])
      ensures HeldKept(held, old(disk.blocks), disk.blocks)
      ensures r == Err(NotFound) ==> !Named(EntriesOf(disk.blocks, disk.inodes[dir]), name)
      ensures r.Err? && r.error != NotFound ==>
        || !NameOk(name) || !IsDir(geo, disk, dir) || Sealed(disk.inodes[dir])
        || exists b :: b in DataOf(disk.blocks, disk.inodes[dir]) && b <= geo.first
    {
      hide CrashSafe, SafeHistory, Replay, GeoOk, HeldOk, BlockCount, InodeSide, Saved, Unnamed, DataOf, EntriesIn,
        Remove, SameInodeSide, ChainOk, Tiles, Named, NameOk, Single, IUsed, Lookup, BlockEntries, HeldKept,
        NoRoomWithout, UnlinkWrite;
      HeldKeptRefl(held, disk.blocks);
      if !NameOk(name) {
        return Err(CorruptFs);
      }
      var rec := disk.inodes[dir];
      if rec.kind != Dir {
        return Err(NotADirectory);
      }
      if Sealed(rec) {
        return Err(UnsupportedFsFeature);
      }
      var bs := DataOf(disk.blocks, rec);
      DirParts(geo, disk, dir);
      NoEntries(disk.blocks, bs, name);
      for k := 0 to |bs|
        invariant Valid() && disk == old(disk) && log == old(log)
        invariant !Named(EntriesIn(disk.blocks, bs[..k]), name)
      {
        var b := bs[k];
        assert b in bs;
        if b <= geo.first {
          return Err(CorruptFs);
        }
        var rest := Remove(disk.blocks[b].chain, name);
        EntriesPrefix(disk.blocks, bs, k, name);
        RemoveInBlock(geo, disk.blocks, b, name);
        if rest.Some? {
          NameReal(name);
          StepUnlink(geo, disk, dir, k, rest.value, name);
          UnlinkWriteIs(geo, disk, dir, k, rest.value, name);
          ghost var e := Lookup(disk.blocks[b].chain, name).value;
          var ino := Lookup(disk.blocks[b].chain, name).value.ino;
          HeldDirWrite(geo, disk, groups, held, dir, b, rest.value);
          DirWriteKeeps(geo, disk, groups, held, dir, b, DirBlock(rest.value));
          SameSideRefl(groups);
          SideFrame(geo, disk, Apply(disk, WBlock(b, DirBlock(rest.value))), groups, groups, dirs, drift);
          SavedSame(geo, disk, Apply(disk, WBlock(b, DirBlock(rest.value))), groups, freeBlocks, dirs, drift, owed);
          RemoveLeavesRoom(disk.blocks[b].chain, name);
          DirWriteFrame(geo, disk, dir, b, rest.value);
          RoomAfter(geo, disk, dir, k, name);
          forall n: Name | !NoRoom(disk, dir, n) ensures !NoRoom(Apply(disk, WBlock(b, DirBlock(rest.value))), dir, n) {
            RoomKept(disk, dir, b, name, n);
          }
          Put(WBlock(b, DirBlock(rest.value)));
          assert HasEntry(geo, old(disk), dir, e);
          return Ok(ino);
        }
      }
      assert bs[..|bs|] == bs;
      r := Err(NotFound);
    }

    /** The entry `name` of `dir`, which named `ino`, is gone; nothing else
        changed. */
    ghost predicate Unlinked(d: Disk, d': Disk, dir: nat, name: Name, ino: nat)
      requires GeoOk(geo)
    {
      && IsDir(geo, d, dir)
      && (exists b, c :: b in DataOf(d.blocks, d.inodes[dir]) && d' == d.(blocks := d.blocks[b := DirBlock(c)]))
      && EntriesOf(d'.blocks, d.inodes[dir]) == Without(EntriesOf(d.blocks, d.inodes[dir]), name)
      && (exists e :: HasEntry(geo, d, dir, e) && e.name == name && e.ino == ino)
      && (Single(d, ino) ==> Unnamed(geo, d', ino))
    }

    // ----- file contents -----

    /** What the data writers need of an unfinished file's layout. */
    ghost predicate Layout(runs: seq<Run>, owner: nat)
      reads this
    {
      && owner in held && Tiled(runs) && NoDup(FlatRuns(runs))
      && forall b :: b in FlatRuns(runs) ==> b in held[owner]
    }

    /** Write whole blocks of the stream `content` at byte offset `at`. */
    method WriteFullBlocks(runs: seq<Run>, at: nat, data: seq<byte>, ghost content: seq<byte>, ghost owner: nat)
      returns (r: Result<()>, ghost steps: seq<Write>)
      requires Piece(geo.blockSize, at, data, content) && Valid() && Layout(runs, owner)
      requires StoredTo(disk.blocks, FlatRuns(runs), content, geo.blockSize, at)
      modifies this`disk, this`log
      ensures Valid() && disk == old(disk).(blocks := disk.blocks)
      ensures SameOutside(old(disk.blocks), disk.blocks, FlatRuns(runs))
      ensures log == old(log) + steps && DataOnly(steps)
      ensures r.Err? ==> r.error == OutOfBounds
      ensures r.Ok? <==> Holds(at + |data|, geo.blockSize, |FlatRuns(runs)|)
      ensures r.Ok? ==> StoredTo(disk.blocks, FlatRuns(runs), content, geo.blockSize, at + |data|)
    {
      hide CrashSafe, SafeHistory, Replay, HeldOk, BlockCount, InodeSide, Saved, Stored, FlatRuns, Tiled, NoDup,
        RunIndex, PutRun, SameOutside, Chunks;
      ghost var flat, bs := FlatRuns(runs), geo.blockSize;
      var l0, n, done := at / geo.blockSize, |data| / geo.blockSize, 0;
      ExactBlocks(at, geo.blockSize);
      ExactBlocks(|data|, geo.blockSize);
      BlocksOfSum(at, |data|, geo.blockSize);
      steps := [];
      OutsideRefl(disk.blocks, flat);
      StoredLen(disk.blocks, flat, content, bs, l0);
      while done < n
        invariant done <= n && Valid() && disk == old(disk).(blocks := disk.blocks)
        invariant SameOutside(old(disk.blocks), disk.blocks, flat) && l0 + done <= |flat|
        invariant Stored(disk.blocks, flat, content, bs, 0, l0 + done)
        invariant log == old(log) + steps && DataOnly(steps)
      {
        var i := RunIndex(runs, l0 + done);
        RunIndexTiled(runs, l0 + done);
        if i == |runs| {
          return Err(OutOfBounds), steps;
        }
        var inRun := l0 + done - runs[i].logical;
        var take := Min(runs[i].len - inRun, n - done);
        ghost var b := runs[i].physical + inRun;
        RunPiece(runs, l0 + done, take);
        MulMono(done + take, n, bs);
        ChunksOfPiece(content, bs, l0, data, done, take);
        ghost var cs := Chunks(data, bs, done, take);
        StoredRun(disk.blocks, flat, content, bs, 0, l0 + done, b, take);
        RunOutside(old(disk.blocks), disk.blocks, flat, l0 + done, b, cs);
        PutData(runs[i].physical + inRun, Chunks(data, geo.blockSize, done, take), owner);
        Assoc(old(log), steps, [WRun(b, cs)]);
        steps := steps + [WRun(b, cs)];
        done := done + take;
      }
      r := Ok(());
    }

    /** The first `blocks` of `n` blocks take `done` of `size` bytes. */
    ghost predicate Upto(size: nat, n: nat, bs: nat, blocks: nat, done: nat) {
      0 < bs && n == CeilDiv(size, bs) && blocks <= n && done == Min(blocks * bs, size)
    }

    /** Write the part of `data` that falls on run `k`: its whole blocks in one
        write, then a last partial block padded with zeros. */
    method WriteRun(runs: seq<Run>, k: nat, data: seq<byte>, done: nat, ghost owner: nat, ghost blocks: nat)
      returns (take: nat, ghost steps: seq<Write>)
      requires Valid() && Layout(runs, owner) && k < |runs| && blocks == |FlatRuns(runs[..k])|
      requires Upto(|data|, |FlatRuns(runs)|, geo.blockSize, blocks, done)
      requires Stored(disk.blocks, FlatRuns(runs), data, geo.blockSize, 0, blocks)
      modifies this`disk, this`log
      ensures Valid() && disk == old(disk).(blocks := disk.blocks)
      ensures SameOutside(old(disk.blocks), disk.blocks, FlatRuns(runs))
      ensures log == old(log) + steps && DataOnly(steps)
      ensures |FlatRuns(runs[..k + 1])| == blocks + runs[k].len
      ensures Upto(|data|, |FlatRuns(runs)|, geo.blockSize, blocks + runs[k].len, done + take)
      ensures Stored(disk.blocks, FlatRuns(runs), data, geo.blockSize, 0, blocks + runs[k].len)
    {
      hide CrashSafe, SafeHistory, Replay, HeldOk, BlockCount, InodeSide, Saved, Stored, FlatRuns, Tiled, NoDup, PutRun,
        SameOutside, Chunks, CeilDiv;
      ghost var flat, bs := FlatRuns(runs), geo.blockSize;
      steps := [];
      OutsideRefl(disk.blocks, flat);
      var run := runs[k];
      RunSpan(runs, k);
      RunBytes(|data|, bs, blocks, run.len, |flat|);
      take := Min(run.len * geo.blockSize, |data| - done);
      var full := take / geo.blockSize;
      if full != 0 {
        ghost var cs := Chunks(data, bs, blocks, full);
        SpanPart(flat, blocks, run.physical, run.len, 0, full);
        StoredRun(disk.blocks, flat, data, bs, 0, blocks, run.physical, full);
        RunOutside(old(disk.blocks), disk.blocks, flat, blocks, run.physical, cs);
        PutData(run.physical, Chunks(data, geo.blockSize, done / geo.blockSize, full), owner);
        steps := [WRun(run.physical, cs)];
      }
      if full * geo.blockSize != take {
        ghost var cs := Chunks(data, bs, blocks + full, 1);
        SpanPart(flat, blocks, run.physical, run.len, full, 1);
        StoredRun(disk.blocks, flat, data, bs, 0, blocks + full, run.physical + full, 1);
        RunOutside(old(disk.blocks), disk.blocks, flat, blocks + full, run.physical + full, cs);
        PutData(run.physical + full, Chunks(data, geo.blockSize, done / geo.blockSize + full, 1), owner);
        Assoc(old(log), steps, [WRun(run.physical + full, cs)]);
        steps := steps + [WRun(run.physical + full, cs)];
      }
    }

    /** Write a whole file through its runs, the last block padded with zeros. */
    method WriteFileData(runs: seq<Run>, data: seq<byte>, ghost owner: nat) returns (ghost steps: seq<Write>)
      requires Valid() && Layout(runs, owner) && |FlatRuns(runs)| == CeilDiv(|data|, geo.blockSize)
      modifies this`disk, this`log
      ensures Valid() && disk == old(disk).(blocks := disk.blocks)
      ensures SameOutside(old(disk.blocks), disk.blocks, FlatRuns(runs))
      ensures log == old(log) + steps && DataOnly(steps)
      ensures Stored(disk.blocks, FlatRuns(runs), data, geo.blockSize, 0, |FlatRuns(runs)|)
    {
      hide CrashSafe, SafeHistory, Replay, HeldOk, BlockCount, InodeSide, Saved, Stored, FlatRuns, Tiled, NoDup,
        SameOutside, CeilDiv;
      ghost var flat, bs := FlatRuns(runs), geo.blockSize;
      var done := 0;
      ghost var blocks := 0;
      steps := [];
      OutsideRefl(disk.blocks, flat);
      NothingStored(disk.blocks, flat, data, bs);
      RunsStart(runs);
      for k := 0 to |runs|
        invariant Valid() && disk == old(disk).(blocks := disk.blocks) && 0 <= done
        invariant SameOutside(old(disk.blocks), disk.blocks, flat)
        invariant blocks == |FlatRuns(runs[..k])| && Upto(|data|, |flat|, bs, blocks, done)
        invariant Stored(disk.blocks, flat, data, bs, 0, blocks)
        invariant log == old(log) + steps && DataOnly(steps)
      {
        ghost var before := disk.blocks;
        var take, more := WriteRun(runs, k, data, done, owner, blocks);
        OutsideTrans(old(disk.blocks), before, disk.blocks, flat);
        Assoc(old(log), steps, more);
        steps := steps + more;
        done := done + take;
        blocks := blocks + runs[k].len;
      }
      assert runs[..|runs|] == runs;
    }

    // ----- rolling back -----

    /** `i` and the blocks `s` are what one unfinished or unnamed file has. */
    ghost predicate Owns(i: nat, s: seq<nat>)
      requires GeoOk(geo)
      reads this
    {
      && Unnamed(geo, disk, i) && NoDup(s) && Freeable(geo, disk, groups, i)
      && (forall b :: b in s ==>
            (i in held && b in held[i]) || (InUse(geo, disk, i) && b in NamedBy(disk.blocks, disk.inodes[i])))
    }

    /** Undo a file or directory that was never named: the inode first, so that
        nothing on disk points at the blocks when they are released. */
    method UndoNew(i: nat, extents: seq<Extent>, wasDir: bool)
      requires Valid() && Owns(i, Flat(extents)) && (wasDir <==> i in dirs)
      modifies this
      ensures Valid() && Keeps(old(Now()), Now())
      ensures disk.blocks == old(disk.blocks) && disk.inodes == old(disk.inodes)[i := Blank]
      ensures InoGroup(geo, i) < |old(disk.ibm)| && InoBit(geo, i) < |old(disk.ibm)[InoGroup(geo, i)]|
      ensures disk.ibm == SetIno(geo, old(disk.ibm), i, false) && Cleared(geo, old(disk.bbm), disk.bbm, Flat(extents))
      ensures InoGroup(geo, i) < |old(groups)| && SameInodeSide(groups, ReleaseGroups(geo, old(groups), i, wasDir))
      ensures freeBlocks == old(freeBlocks) + |Flat(extents)| && freeInodes == old(freeInodes) + 1
      ensures held == old(held) - {i} && dirs == old(dirs) - {i}
      ensures old(log) <= log && exists s1, s2 :: UndoTrace(old(log), log, i, s1, s2)
    {
      hide CrashSafe, SafeHistory, Replay, GeoOk, HeldOk, BlockCount, InodeSide, Saved, InoGroup, InoBit, IUsed, InUse,
        Flat, Cleared, SetIno, ReleaseGroups, Unnamed, SameBlockSide, SameInodeSide, NoDup, NamedBy, Loose, Releasable,
        CommitOrdered, NoFlush;
      ghost var d, h, gs := disk, held, groups;
      ReleasedOwned(geo, d, gs, h, dirs, drift, i, Flat(extents));
      var a, s1 := FreeInode(i, wasDir);
      OwnedLoose(geo, d, disk, gs, h, i, Flat(extents));
      var b, s2 := FreeBlocks(extents);
      assert b.Ok?;
      FlushDevice();
      assert UndoTrace(old(log), log, i, s1, s2) by { Assoc(old(log), s1, s2); }
    }

    /** The writes of a rollback: the inode's record and bit, then the block
        bitmaps, then a barrier. */
    ghost predicate UndoTrace(log0: seq<Write>, log1: seq<Write>, i: nat, s1: seq<Write>, s2: seq<Write>) {
      && log1 == log0 + s1 + s2 + [Flush]
      && IdleOut(i, s1) && (s2 == [] || CommitOrdered(s2))
    }

    lemma HeldOwns(i: nat, s: seq<nat>)
      requires Valid() && i in held && NoDup(s) && forall b :: b in s ==> b in held[i]
      ensures Owns(i, s)
    {
      hide CrashSafe, SafeHistory, Replay, GeoOk, BlockCount, InodeSide, Saved, NoDup, Unnamed, NamedBy;
      HeldFacts(geo, disk, groups, held, i);
      BlankIsUnnamed(geo, disk, i);
    }

    /** Roll back a reservation made since the filesystem was `a`. */
    method GiveBack(i: nat, extents: seq<Extent>, wasDir: bool, ghost a: State)
      requires Valid() && Owns(i, Flat(extents)) && (wasDir <==> i in dirs) && Began(geo, a)
      requires Reserved(geo, a.disk, a.groups, disk, groups, i, wasDir, Flat(extents)) && Undisturbed(geo, a.disk, disk)
      requires Keeps(a, Now()) && freeBlocks == SatSub(a.freeBlocks, |Flat(extents)|)
      requires freeInodes == SatSub(a.freeInodes, 1)
      modifies this
      ensures Valid() && BackTo(geo, a, Now(), |Flat(extents)|, 1) && old(log) <= log
      ensures disk.blocks == old(disk.blocks) && disk.bbm == a.disk.bbm
      ensures exists s1, s2 :: UndoTrace(old(log), log, i, s1, s2)
      ensures held == old(held) - {i} && dirs == old(dirs) - {i}
    {
      hide CrashSafe, SafeHistory, Replay, GeoOk, HeldOk, BlockCount, InodeSide, Saved, Reserved, SameInodeSide, Flat,
        Cleared, SetIno, ReleaseGroups, Owns, Undisturbed, InoGroup, InoBit, SameCounts, BackTo, UndoTrace;
      ghost var d1, g1 := disk, groups;
      ghost var b := Now();
      UndoNew(i, extents, wasDir);
      KeepsTrans(a, b, Now());
      if a.disk.gd == a.groups { SettledMedium(geo, disk, groups, freeBlocks, dirs, drift, owed); }
      UndoRestores(geo, drift, a.disk, a.groups, d1, g1, disk, groups, i, wasDir, Flat(extents));
      BackBy(geo, a, Now(), |Flat(extents)|, 1);
    }

    lemma BeganNow()
      requires Valid()
      ensures Began(geo, Now())
    {
      hide CrashSafe, SafeHistory, Replay, GeoOk, HeldOk, BlockCount, InodeSide, Saved, Clear;
      if disk.gd == groups { OwesNothing(); }
    }

    // ----- reserving -----

    /** Claim an inode and `n` blocks for it; on refusal put everything back.
        `nb` and `ni` count what was claimed and returned. */
    method ReserveData(isDir: bool, n: nat) returns (r: Result<(nat, seq<Extent>)>, ghost steps: seq<Write>,
        ghost nb: nat, ghost ni: nat)
      requires Valid()
      modifies this
      ensures Valid() && old(log) <= log
      ensures r == Err(BadInode) <==> Overrun(geo, old(disk), old(groups))
      ensures if r.Ok? then Keeps(old(Now()), Now()) else Refusal(geo, old(Now()), Now(), r.error, isDir, nb, ni)
      ensures r != Err(BadInode) ==> Claims(geo, old(disk), old(groups), n, 0, nb, ni)
      ensures r.Err? ==> held == old(held) && dirs == old(dirs)
      ensures r.Ok? ==> Reserved(geo, old(disk), old(groups), disk, groups, r.value.0, isDir, Flat(r.value.1))
      ensures r.Ok? ==> Supplied(geo, old(disk), old(groups), disk, groups, 0, n, r.value.1)
      ensures r.Ok? ==> |Flat(r.value.1)| == n && NoDup(Flat(r.value.1)) && Maximal(r.value.1)
      ensures disk.blocks == old(disk.blocks)
      ensures r.Ok? ==> r.value.0 !in old(held) && held == old(held)[r.value.0 := SeqSet(Flat(r.value.1))]
      ensures r.Ok? ==> r.value.0 !in old(dirs) && dirs == if isDir then old(dirs) + {r.value.0} else old(dirs)
      ensures r.Ok? ==> freeBlocks == SatSub(old(freeBlocks), n) && freeInodes == SatSub(old(freeInodes), 1)
      ensures r.Ok? ==> log == old(log) + steps && NoFlush(steps) && ClaimSteps(r.value.0, steps)
      ensures r.Err? <==>
        || NoInode(geo, old(disk), old(groups)) || Short(geo, old(disk), old(groups), n)
        || Overrun(geo, old(disk), old(groups))
      ensures r.Ok? ==> nb == n && ni == 1
    {
      hide CrashSafe, SafeHistory, Replay, GeoOk, HeldOk, BlockCount, InodeSide, Saved, Restored, Reserved, SetIno,
        SameInodeSide, SameBlockSide, Flat, NoDup, Marked, AllFree, Maximal, SupplyFrom, SupplyOk, CommitOrdered,
        NoFlush, SeqSet, Owns, ClaimGroups, Candidate, ShapedI, Offered, ChargedTo, Tally, Recount, Clear, Short, IUsed,
        InUse, InoGroup, InoBit, SameOutside, Undisturbed;
      hide Began, BackTo, Refusal, Keeps, NoInode, Overrun, Claims, Supplied, IdleOut, BlockSide, ClaimSteps;
      ghost var d0, g0, h0, a := disk, groups, held, Now();
      nb, ni := 0, 0;
      BackSame(geo, a);
      BeganNow();
      var claimed, s1 := AllocInode(isDir);
      steps := s1;
      OfferMeans(geo, d0, g0);
      if claimed.Err? {
        if claimed.error == NoFreeInodes {
          ClaimsNone(geo, d0, g0, n);
          RefusalBack(geo, a, Now(), NoFreeInodes, isDir, nb, ni);
        } else {
          RefusalCharged(geo, a, Now(), isDir, nb, ni);
        }
        return Err(claimed.error), steps, nb, ni;
      }
      var i := claimed.value;
      ni := 1;
      ReservedStart(geo, d0, g0, disk, groups, i, isDir);
      NewNotDir(geo, d0, old(dirs), g0, a.drift, i);
      ghost var d1, g1, b := disk, groups, Now();
      var got, s2 := AllocBlocks(0, n, i);
      KeepsTrans(a, b, Now());
      ShortSame(geo, d0, g0, d1, g1, n);
      SupplyShort(geo, d1, g1, n);
      Assoc(old(log), s1, s2);
      NoFlushConcat(s1, s2);
      steps := s1 + s2;
      ClaimStepsAre(i, s1, s2);
      FlatNone();
      ClaimsData(geo, d0, g0, n);
      if got.Err? {
        Retract(i, [], isDir, a);
        HeldBack(h0, i, {});
        RefusalBack(geo, a, Now(), got.error, isDir, nb, ni);
        return Err(got.error), steps, nb, ni;
      }
      nb := n;
      SuppliedSame(geo, d0, g0, d1, g1, disk, groups, 0, n, got.value);
      ReservedMore(geo, d0, g0, d1, g1, disk, groups, i, isDir, [], Flat(got.value));
      NilConcat(Flat(got.value));
      HeldGrow(h0, i, {}, Flat(got.value));
      r := Ok((i, got.value));
    }

    /** Roll back a reservation nothing was written for. */
    method Retract(i: nat, extents: seq<Extent>, isDir: bool, ghost a: State)
      requires Valid() && Began(geo, a) && i in held && (isDir <==> i in dirs) && NoDup(Flat(extents))
      requires held[i] == SeqSet(Flat(extents))
      requires Reserved(geo, a.disk, a.groups, disk, groups, i, isDir, Flat(extents)) && disk.blocks == a.disk.blocks
      requires Keeps(a, Now()) && freeBlocks == SatSub(a.freeBlocks, |Flat(extents)|)
      requires freeInodes == SatSub(a.freeInodes, 1)
      modifies this
      ensures Valid() && BackTo(geo, a, Now(), |Flat(extents)|, 1) && old(log) <= log && disk.blocks == old(disk.blocks)
      ensures held == old(held) - {i} && dirs == old(dirs) - {i}
    {
      hide CrashSafe, SafeHistory, Replay, GeoOk, HeldOk, BlockCount, InodeSide, Saved, Reserved, Flat, NoDup, SeqSet,
        Owns, SameOutside, Undisturbed, BackTo, Keeps, UndoTrace;
      OutsideRefl(disk.blocks, Flat(extents));
      HeldGrow(held, i, {}, Flat(extents));
      HeldOwns(i, Flat(extents));
      ReservedUndisturbed(geo, a.disk, a.groups, disk, groups, i, isDir, Flat(extents));
      GiveBack(i, extents, isDir, a);
    }

    /** Claim an inode and the blocks for `n` blocks of data, plus a leaf block
        when the layout does not fit in the inode. */
    method Reserve(n: nat) returns (r: Result<Reservation>, ghost steps: seq<Write>, ghost nb: nat, ghost ni: nat)
      requires Valid()
      modifies this
      ensures Valid() && old(log) <= log
      ensures r == Err(BadInode) <==> Overrun(geo, old(disk), old(groups))
      ensures if r.Ok? then Keeps(old(Now()), Now()) else Refusal(geo, old(Now()), Now(), r.error, false, nb, ni)
      ensures r != Err(BadInode) ==> Tally(geo, old(disk), old(groups), n, nb, ni)
      ensures r.Err? ==> held == old(held) && dirs == old(dirs)
      ensures r.Ok? ==> ReservationOk(geo, r.value) && |FlatRuns(r.value.runs)| == n
      ensures r.Ok? ==> Reserved(geo, old(disk), old(groups), disk, groups, r.value.ino, false, Flat(r.value.extents))
      ensures disk.blocks == old(disk.blocks)
      ensures r.Ok? ==> r.value.ino !in old(held) && held == old(held)[r.value.ino := SeqSet(Flat(r.value.extents))]
      ensures r.Ok? ==> dirs == old(dirs) && r.value.ino !in dirs
      ensures r.Ok? ==>
        freeBlocks == SatSub(old(freeBlocks), |Flat(r.value.extents)|) && freeInodes == SatSub(old(freeInodes), 1)
      ensures r.Ok? ==> log == old(log) + steps && NoFlush(steps)
      ensures r.Ok? ==> nb == |Flat(r.value.extents)| && ni == 1
      ensures r.Err? <==> Unplaceable(geo, old(disk), old(groups), n)
    {
      hide NoInode, Short, Needs, Supplied, Overrun, ChargedTo, Tally, Claims, Recount, Clear, Began, BackTo, Refusal,
        Keeps;
      hide CrashSafe, SafeHistory, Replay, GeoOk, HeldOk, BlockCount, InodeSide, Saved, Restored, Reserved,
        ReservationOk, SameInodeSide, Flat, FlatRuns, Tiled, NoDup, Marked, AllFree, Maximal, SupplyFrom, SupplyOk,
        CommitOrdered, NoFlush, SeqSet, Owns, Coalesced, Pieces, MaxRuns, SameOutside, Undisturbed;
      ghost var d0, g0, h0, a := disk, groups, held, Now();
      BeganNow();
      var data;
      data, steps, nb, ni := ReserveData(false, n);
      if data.Err? {
        if data.error != BadInode { TallyIs(geo, d0, g0, n, nb, ni); }
        return Err(data.error), steps, nb, ni;
      }
      var (i, extents) := data.value;
      TallyIs(geo, d0, g0, n, nb, ni);
      SuppliedNeeds(geo, d0, g0, disk, groups, n, extents);
      HeldBack(h0, i, SeqSet(Flat(extents)));
      KeysBack(h0, dirs, i);
      var runs := RunsFrom(extents, MaxRuns(geo));
      LeafRoom(geo);
      ReservedFree(geo, d0, g0, disk, groups, i, false, Flat(extents));
      if runs.None? {
        Retract(i, extents, false, a);
        RefusalBack(geo, a, Now(), UnsupportedFsFeature, false, nb, ni);
        return Err(UnsupportedFsFeature), steps, nb, ni;
      }
      if |runs.value| <= MAX_INLINE_EXTENTS {
        PlainReservation(geo, i, extents, runs.value);
        return Ok(Reservation(i, extents, runs.value, None)), steps, nb, ni;
      }
      ghost var d2, g2, b := disk, groups, Now();
      var leaf, s3 := AllocBlocks(0, 1, i);
      SupplyShort(geo, d2, g2, 1);
      KeepsTrans(a, b, Now());
      Assoc(old(log), steps, s3);
      NoFlushConcat(steps, s3);
      steps := steps + s3;
      if leaf.Err? {
        Retract(i, extents, false, a);
        RefusalBack(geo, a, Now(), leaf.error, false, nb, ni);
        return Err(leaf.error), steps, nb, ni;
      }
      OneBlock(leaf.value);
      FlatConcat(extents, leaf.value);
      LeafApart(geo, d0, g0, d2, g2, i, Flat(extents), leaf.value[0].physical);
      ReservedMore(geo, d0, g0, d2, g2, disk, groups, i, false, Flat(extents), Flat(leaf.value));
      HeldGrow(h0, i, SeqSet(Flat(extents)), Flat(leaf.value));
      SeqSetConcat(Flat(extents), Flat(leaf.value));
      nb := n + 1;
      r := Ok(Reservation(i, extents + leaf.value, runs.value, Some(leaf.value[0].physical)));
      LeafReservation(geo, r.value);
    }

    // ----- creating a file -----

    /** `write_new_file_runs`: a written, unnamed file holding `data`. */
    method WriteNewFile(data: seq<byte>)
      returns (r: Result<(nat, seq<Extent>)>, ghost rec: Record, ghost pre: seq<Write>, ghost nb: nat, ghost ni: nat)
      requires Valid()
      modifies this
      ensures 0 < geo.blockSize
      ensures Valid() && old(log) <= log && held == old(held) && dirs == old(dirs)
      ensures HeldKept(held, old(disk.blocks), disk.blocks)
      ensures r == Err(BadInode) <==> Overrun(geo, old(disk), old(groups))
      ensures if r.Ok? then Keeps(old(Now()), Now()) else Refusal(geo, old(Now()), Now(), r.error, false, nb, ni)
      ensures r != Err(BadInode) ==> Tally(geo, old(disk), old(groups), CeilDiv(|data|, geo.blockSize), nb, ni)
      ensures r.Ok? ==> Reserved(geo, old(disk), old(groups), disk, groups, r.value.0, false, Flat(r.value.1))
      ensures r.Ok? ==>
        SameOutside(old(disk.blocks), disk.blocks, Flat(r.value.1)) && r.value.0 !in dirs && r.value.0 !in held
      ensures r.Ok? ==> InUse(geo, disk, r.value.0) && Unnamed(geo, disk, r.value.0) && disk.inodes[r.value.0] == rec
      ensures r.Ok? ==>
        NewFile(geo, disk, rec, data) && NamedBy(disk.blocks, rec) == Flat(r.value.1) && NoDup(Flat(r.value.1))
      ensures r.Ok? ==>
        freeBlocks == SatSub(old(freeBlocks), |Flat(r.value.1)|) && freeInodes == SatSub(old(freeInodes), 1)
      ensures r.Ok? ==> nb == |Flat(r.value.1)| && ni == 1 && (Flat(r.value.1) == [] <==> data == [])
      ensures r.Ok? ==> rec.Inode? && log == old(log) + pre + [Flush] + [WInode(r.value.0, rec)] && NoFlush(pre)
      ensures r.Err? <==> Unplaceable(geo, old(disk), old(groups), CeilDiv(|data|, geo.blockSize))
    {
      hide NoInode, Short, Unplaceable, Overrun, ChargedTo, Tally, Recount, Clear, Began, BackTo, Refusal;
      hide CrashSafe, SafeHistory, Replay, GeoOk, HeldOk, BlockCount, InodeSide, Saved, Restored, Reserved,
        ReservationOk, Flat, FlatRuns, Tiled, NoDup, NoFlush, SeqSet, SameOutside, Stored, DataOnly, NamedBy,
        Publishable, NewFile, InUse, Unnamed, CeilDiv, Layout, HeldKept;
      ghost var d0, g0, h0 := disk, groups, held;
      HeldKeptRefl(held, disk.blocks);
      rec := Blank;
      var got;
      GeoSize(geo);
      got, pre, nb, ni := Reserve(CeilDiv(|data|, geo.blockSize));
      if got.Err? {
        return Err(got.error), rec, pre, nb, ni;
      }
      var v := got.value;
      PlacedMeans(geo, d0, g0, CeilDiv(|data|, geo.blockSize));
      TallyEmpty(geo, d0, g0, |data|, nb);
      ghost var b := Now();
      ghost var dr := disk;
      ReservationFacts(geo, v);
      LayoutReady(v);
      var s2 := WriteFileData(v.runs, data, v.ino);
      DataNoFlush(s2);
      Assoc(old(log), pre, s2);
      NoFlushConcat(pre, s2);
      pre := pre + s2;
      ghost var d1 := disk;
      OutsideWider(d0.blocks, disk.blocks, v);
      if v.leaf.Some? {
        LeafHeld(geo, v);
        ghost var w := WBlock(v.leaf.value, Leaf(v.runs));
        OutsideLeaf(geo, d0.blocks, disk.blocks, v);
        PutBlock(v.leaf.value, Leaf(v.runs), v.ino);
        Assoc(old(log), pre, [w]);
        OneNoFlush(w);
        NoFlushConcat(pre, [w]);
        pre := pre + [w];
      }
      rec := FileRecord(v.runs, v.leaf, |data|);
      RecordNames(geo, d1.blocks, disk.blocks, v, data);
      HeldPublishable(geo, disk, groups, held, v.ino, rec);
      FlushDevice();
      PutRecord(v.ino, FileRecord(v.runs, v.leaf, |data|));
      ReservedKept(geo, d0, g0, dr, groups, disk, v.ino, false, rec, Flat(v.extents));
      HeldBack(h0, v.ino, SeqSet(Flat(v.extents)));
      NewFileThere(geo, disk, rec, data, v);
      ReservedKeeps(geo, d0, g0, h0, disk, groups, v.ino, false, Flat(v.extents));
      r := Ok((v.ino, v.extents));
    }

    /** Create a file and give it a name, or leave the filesystem as it was. */
    method CreateFile(dir: nat, name: Name, data: seq<byte>, fileType: byte)
      returns (r: Result<nat>, ghost rec: Record, ghost pre: seq<Write>, ghost nb: nat, ghost ni: nat)
      requires Valid() && InUse(geo, disk, dir)
      modifies this
      ensures 0 < geo.blockSize
      ensures Valid() && old(log) <= log && held == old(held) && dirs == old(dirs)
      ensures HeldKept(held, old(disk.blocks), disk.blocks)
      ensures r == Err(BadInode) <==> NameOk(name) && Overrun(geo, old(disk), old(groups))
      ensures if r.Ok? then Keeps(old(Now()), Now()) else Refusal(geo, old(Now()), Now(), r.error, false, nb, ni)
      ensures r != Err(BadInode) ==>
        if NameOk(name) then Tally(geo, old(disk), old(groups), CeilDiv(|data|, geo.blockSize), nb, ni)
        else nb == 0 && ni == 0
      ensures r.Ok? ==> InUse(geo, disk, r.value) && disk.inodes[r.value] == rec && NewFile(geo, disk, rec, data)
      ensures r.Ok? ==> HasEntry(geo, disk, dir, Entry(r.value, name, fileType)) && !IUsed(geo, old(disk.ibm), r.value)
      ensures r.Ok? ==> CreateTrace(old(log), log, pre, r.value, rec) && Recorded(old(log), pre, r.value, rec, data)
      ensures r.Ok? ==> Added(geo, old(disk), disk, dir, Entry(r.value, name, fileType))
      ensures r.Err? && NameOk(name) && !Unplaceable(geo, old(disk), old(groups), CeilDiv(|data|, geo.blockSize)) ==>
        rec.Inode?
      ensures r.Err? && rec.Inode? ==> exists i, s1, s2 :: Refused(old(log), log, pre, i, rec, data, s1, s2)
      ensures r.Err? <==>
        || Unplaceable(geo, old(disk), old(groups), CeilDiv(|data|, geo.blockSize))
        || LinkRefused(geo, old(disk), dir, name)
      ensures r.Ok? ==> freeBlocks == SatSub(old(freeBlocks), nb) && freeInodes == SatSub(old(freeInodes), ni)
    {
      hide NoInode, Short, Unplaceable, LinkRefused, CeilDiv, Overrun, ChargedTo, Tally, Recount, Clear, Began, BackTo,
        Refusal;
      hide CrashSafe, SafeHistory, Replay, GeoOk, HeldOk, BlockCount, InodeSide, Saved, Restored, Reserved, Flat, NoDup,
        NoFlush, SameOutside, NamedBy, NewFile, InUse, Unnamed, Owns, NameOk, Single, Linked, Undisturbed, Named,
        HasEntry, SatSub, Max, IUsed, HeldKept, LinkWrite, UndoTrace, CreateTrace, Recorded, Refused;
      ghost var d0, g0, a := disk, groups, Now();
      HeldKeptRefl(held, disk.blocks);
      rec, pre, nb, ni := Blank, [], 0, 0;
      BackSame(geo, a);
      BeganNow();
      GeoSize(geo);
      if !NameOk(name) {
        PlainRefused(disk, dir, name);
        RefusalBack(geo, a, Now(), CorruptFs, false, 0, 0);
        return Err(CorruptFs), rec, pre, nb, ni;
      }
      var made;
      made, rec, pre, nb, ni := WriteNewFile(data);
      if made.Err? {
        return Err(made.error), Blank, pre, nb, ni;
      }
      var (i, extents) := made.value;
      FlushDevice();
      ghost var d1, g1, log2 := disk, groups, log;
      RecordedNow(old(log), pre, i, rec, data);
      Ready(d0, g0, i, false, Flat(extents), dir, name);
      var linked := LinkFile(dir, name, i, fileType);
      HeldKeptTrans(held, d0.blocks, d1.blocks, disk.blocks);
      if linked.Err? {
        Withdraw(i, extents, false, a);
        RefusedNow(old(log), log, pre, i, rec, data, d0, g0, d1, g1, Flat(extents));
        KeysBack(held, dirs, i);
        RefusalBack(geo, a, Now(), linked.error, false, nb, ni);
        return Err(linked.error), rec, pre, nb, ni;
      }
      LinkedFile(d1, disk, dir, Entry(i, name, fileType), rec, data);
      NamedNew(d0, d1, disk, dir, Entry(i, name, fileType));
      TraceDone(old(log), log, log2, pre, i, rec);
      r := Ok(i);
    }

    /** What holds once a new inode is written and not yet named. */
    lemma Ready(d0: Disk, g0: seq<GroupDesc>, i: nat, isDir: bool, s: seq<nat>, dir: nat, name: Name)
      requires GeoOk(geo) && CrashSafe(geo, d0) && Reserved(geo, d0, g0, disk, groups, i, isDir, s)
      requires SameOutside(d0.blocks, disk.blocks, s)
      requires InUse(geo, d0, dir) && InUse(geo, disk, i)
      ensures Undisturbed(geo, d0, disk) && InUse(geo, disk, dir) && disk.inodes[dir] == d0.inodes[dir] && dir != i
      ensures 0 < i < U32_LIMIT
      ensures LinkRefused(geo, disk, dir, name) <==> LinkRefused(geo, d0, dir, name)
      ensures !IUsed(geo, d0.ibm, i) && !InUse(geo, d0, i)
      ensures forall j :: InUse(geo, disk, j) <==> InUse(geo, d0, j) || j == i
    {
      hide GeoOk, CrashSafe, Reserved, SameOutside, InUse, Undisturbed, LinkRefused, AgreeOn, NamedBy, IUsed;
      SurvivesReserve(geo, d0, g0, disk, groups, i, isDir, s, dir);
      ReservedUndisturbed(geo, d0, g0, disk, groups, i, isDir, s);
      ReservedFree(geo, d0, g0, disk, groups, i, isDir, s);
      RecordAgrees(geo, d0, disk, s, dir);
      LinkRefusedSame(d0, disk, dir, name);
      ReservedInUse(geo, d0, g0, disk, groups, i, isDir, s);
    }

    /** Roll back a written file or directory that could not be named. */
    method Withdraw(i: nat, extents: seq<Extent>, isDir: bool, ghost a: State)
      requires Valid() && Began(geo, a) && InUse(geo, disk, i) && Unnamed(geo, disk, i) && (isDir <==> i in dirs)
      requires Reserved(geo, a.disk, a.groups, disk, groups, i, isDir, Flat(extents)) && Undisturbed(geo, a.disk, disk)
      requires NamedBy(disk.blocks, disk.inodes[i]) == Flat(extents) && NoDup(Flat(extents))
      requires Keeps(a, Now()) && freeBlocks == SatSub(a.freeBlocks, |Flat(extents)|)
      requires freeInodes == SatSub(a.freeInodes, 1)
      modifies this
      ensures Valid() && BackTo(geo, a, Now(), |Flat(extents)|, 1) && old(log) <= log && disk.blocks == old(disk.blocks)
      ensures disk.bbm == a.disk.bbm
      ensures exists s1, s2 :: UndoTrace(old(log), log, i, s1, s2)
      ensures held == old(held) - {i} && dirs == old(dirs) - {i}
    {
      hide CrashSafe, SafeHistory, Replay, GeoOk, HeldOk, BlockCount, InodeSide, Saved, Reserved, Flat, NoDup, Owns,
        Undisturbed, BackTo, Keeps, UndoTrace, NamedBy, InUse, Unnamed;
      PublishedOwns(a.disk, a.groups, i, isDir, Flat(extents));
      GiveBack(i, extents, isDir, a);
    }

    /** Once its record is written, a new file is complete. */
    ghost predicate Recorded(log0: seq<Write>, pre: seq<Write>, i: nat, rec: Record, data: seq<byte>)
      requires GeoOk(geo)
    {
      var mid := Replay(base, log0 + pre + [Flush] + [WInode(i, rec)]);
      NewFile(geo, mid, rec, data) && InUse(geo, mid, i) && mid.inodes[i] == rec
    }

    /** The writes of a `create_file` refused when its name was to be linked:
        the complete file, then its rollback, after which the bitmap offers the
        file's blocks again. The file names no block exactly if it is empty. */
    ghost predicate Refused(log0: seq<Write>, log1: seq<Write>, pre: seq<Write>, i: nat, rec: Record, data: seq<byte>,
        s1: seq<Write>, s2: seq<Write>)
      requires GeoOk(geo)
    {
      && NoFlush(pre) && UndoTrace(log0 + pre + [Flush] + [WInode(i, rec)] + [Flush], log1, i, s1, s2)
      && Recorded(log0, pre, i, rec, data)
      && (NamedBy(Replay(base, log0 + pre + [Flush] + [WInode(i, rec)]).blocks, rec) == [] <==> data == [])
      && forall b :: b in NamedBy(Replay(base, log0 + pre + [Flush] + [WInode(i, rec)]).blocks, rec) ==>
           !BUsed(geo, Replay(base, log1).bbm, b)
    }

    /** The writes of a successful `create_file`: data and bookkeeping, a
        barrier, the record, a barrier, the name. */
    ghost predicate CreateTrace(log0: seq<Write>, log1: seq<Write>, pre: seq<Write>, i: nat, rec: Record) {
      && NoFlush(pre) && |log1| == |log0| + |pre| + 4
      && log1[..|log1| - 1] == log0 + pre + [Flush] + [WInode(i, rec)] + [Flush]
      && log1[|log1| - 1].WBlock?
    }

    lemma RecordedNow(log0: seq<Write>, pre: seq<Write>, i: nat, rec: Record, data: seq<byte>)
      requires History() && log == log0 + pre + [Flush] + [WInode(i, rec)] + [Flush]
      requires NewFile(geo, disk, rec, data) && InUse(geo, disk, i) && disk.inodes[i] == rec
      ensures Recorded(log0, pre, i, rec, data)
      ensures disk == Replay(base, log0 + pre + [Flush] + [WInode(i, rec)])
    {
      hide CrashSafe, SafeHistory, GeoOk, NewFile, InUse;
      assert log[..|log| - 1] == log0 + pre + [Flush] + [WInode(i, rec)];
    }

    lemma RefusedNow(
      log0: seq<Write>, log1: seq<Write>, pre: seq<Write>, i: nat, rec: Record, data: seq<byte>, d0: Disk,
      g0: seq<GroupDesc>, d1: Disk,
      g1: seq<GroupDesc>, s: seq<nat>)
      requires History() && log1 == log && disk.bbm == d0.bbm && NoFlush(pre) && Recorded(log0, pre, i, rec, data)
      requires Reserved(geo, d0, g0, d1, g1, i, false, s)
      requires d1 == Replay(base, log0 + pre + [Flush] + [WInode(i, rec)]) && NamedBy(d1.blocks, rec) == s
      requires s == [] <==> data == []
      requires exists s1, s2 :: UndoTrace(log0 + pre + [Flush] + [WInode(i, rec)] + [Flush], log1, i, s1, s2)
      ensures exists s1, s2 :: Refused(log0, log1, pre, i, rec, data, s1, s2)
    {
      hide CrashSafe, SafeHistory, GeoOk, NewFile, InUse, NamedBy, BUsed, UndoTrace, Recorded, Replay, NoFlush,
        Reserved;
      ReservedFree(geo, d0, g0, d1, g1, i, false, s);
      var s1, s2 :| UndoTrace(log0 + pre + [Flush] + [WInode(i, rec)] + [Flush], log1, i, s1, s2);
      assert Refused(log0, log1, pre, i, rec, data, s1, s2);
    }

    lemma TraceDone(log0: seq<Write>, log1: seq<Write>, log2: seq<Write>, pre: seq<Write>, i: nat, rec: Record)
      requires NoFlush(pre) && log2 == log0 + pre + [Flush] + [WInode(i, rec)] + [Flush]
      requires |log1| == |log2| + 1 && log1[..|log2|] == log2 && log1[|log2|].WBlock?
      ensures CreateTrace(log0, log1, pre, i, rec)
    {
    }

    // ----- creating a directory -----

    /** Adjust a directory's link count. */
    method PatchLinks(dir: nat, delta: int) returns (r: Result<()>)
      requires Valid() && IsDir(geo, disk, dir)
      modifies this`disk, this`log
      ensures Valid() && old(log) <= log
      ensures r.Ok? <==> 0 <= old(disk).inodes[dir].links + delta < U16_LIMIT
      ensures r.Err? ==> disk == old(disk) && log == old(log) && r.error == CorruptFs
      ensures r.Ok? ==>
        var rec := old(disk).inodes[dir];
        && disk == old(disk).(inodes := old(disk.inodes)[dir := rec.(links := rec.links + delta)])
        && log == old(log) + [WInode(dir, rec.(links := rec.links + delta))] + [Flush]
    {
      hide CrashSafe, SafeHistory, Replay, GeoOk, HeldOk, BlockCount, InodeSide, Saved, IUsed;
      var links := disk.inodes[dir].links + delta;
      if links < 0 || links >= U16_LIMIT {
        return Err(CorruptFs);
      }
      StepLinks(geo, disk, dir, links);
      HeldLinks(geo, disk, groups, held, dir, links);
      SideLinks(geo, disk, groups, dirs, drift, dir, links);
      SavedLinks(geo, disk, groups, freeBlocks, dirs, drift, owed, dir, links);
      Put(WInode(dir, disk.inodes[dir].(links := links)));
      FlushDevice();
      r := Ok(());
    }

    /** What a new directory's record needs: a claimed inode and block, and the
        block written. */
    ghost predicate FoundSteps(m: Bitmaps, i: nat, ws: seq<Write>)
      requires GeoOk(geo)
    {
      exists s1, s2, b, c ::
        && ws == s1 + s2 + [WBlock(b, c)] + [WInode(i, DirRecord(geo, b))]
        && IdleOut(i, s1) && BlockSide(s2) && !BUsed(geo, m, b)
    }

    lemma FoundStepsAre(m: Bitmaps, i: nat, claim: seq<Write>, b: nat, c: Content)
      requires GeoOk(geo) && ClaimSteps(i, claim) && NoFlush(claim) && !BUsed(geo, m, b)
      ensures FoundSteps(m, i, claim + [WBlock(b, c)] + [WInode(i, DirRecord(geo, b))])
      ensures NoFlush(claim + [WBlock(b, c)] + [WInode(i, DirRecord(geo, b))])
    {
      hide IdleOut, BlockSide, GeoOk, BUsed, DirRecord;
      var s1, s2 :| claim == s1 + s2 && IdleOut(i, s1) && BlockSide(s2);
      assert claim + [WBlock(b, c)] + [WInode(i, DirRecord(geo, b))]
        == s1 + s2 + [WBlock(b, c)] + [WInode(i, DirRecord(geo, b))];
    }

    /** A directory written since `a` that nothing names yet. */
    ghost predicate Unlisted(a: State, dir: nat, i: nat, extents: seq<Extent>)
      requires GeoOk(geo)
      reads this
    {
      && Reserved(geo, a.disk, a.groups, disk, groups, i, true, Flat(extents))
      && SameOutside(a.disk.blocks, disk.blocks, Flat(extents)) && i in dirs && i !in held
      && IsDir(geo, disk, i) && Unnamed(geo, disk, i) && disk.inodes[i].links == 2
      && NamedBy(disk.blocks, disk.inodes[i]) == Flat(extents) && NoDup(Flat(extents))
      && EntriesOf(disk.blocks, disk.inodes[i]) == [Entry(i, DOT, 2), Entry(dir, DOTDOT, 2)]
      && freeBlocks == SatSub(a.freeBlocks, |Flat(extents)|) && freeInodes == SatSub(a.freeInodes, 1)
      && Keeps(a, Now())
    }

    /** A written, unnamed directory holding only `.` and `..`. */
    method WriteNewDir(dir: nat) returns (r: Result<(nat, seq<Extent>)>, ghost pre: seq<Write>, ghost nb: nat,
        ghost ni: nat)
      requires Valid() && InUse(geo, disk, dir) && dir < U32_LIMIT
      modifies this
      ensures Valid() && old(log) <= log && held == old(held) && HeldKept(held, old(disk.blocks), disk.blocks)
      ensures r.Err? ==> dirs == old(dirs)
      ensures r == Err(BadInode) <==> Overrun(geo, old(disk), old(groups))
      ensures if r.Ok? then Keeps(old(Now()), Now()) else Refusal(geo, old(Now()), Now(), r.error, true, nb, ni)
      ensures r != Err(BadInode) ==> Tally(geo, old(disk), old(groups), 1, nb, ni)
      ensures r.Ok? ==> Unlisted(old(Now()), dir, r.value.0, r.value.1)
      ensures r.Ok? ==> nb == |Flat(r.value.1)| == 1 && ni == 1
      ensures r.Ok? ==> dirs == old(dirs) + {r.value.0} && r.value.0 !in old(dirs)
      ensures r.Ok? ==> log == old(log) + pre && NoFlush(pre) && FoundSteps(old(disk.bbm), r.value.0, pre)
      ensures r.Err? <==> Unhoused(geo, old(disk), old(groups))
    {
      hide NoInode, Short, Overrun, FirstOffered, Claims, Supplied, ChargedTo, Tally, Recount, Clear, Began, BackTo,
        Refusal, ClaimSteps, FoundSteps;
      hide CrashSafe, SafeHistory, Replay, GeoOk, HeldOk, BlockCount, InodeSide, Saved, Restored, Reserved, Flat, NoDup,
        NoFlush, BUsed, SameOutside, NamedBy, Unnamed, Owns, Undisturbed, SatSub, Max, IUsed, Maximal, SeqSet,
        Publishable, EntriesOf, NewDirChain, DataOf, HeldKept;
      ghost var d0, g0, h0, a := disk, groups, held, Now();
      HeldKeptRefl(held, disk.blocks);
      BeganNow();
      var got;
      got, pre, nb, ni := ReserveData(true, 1);
      if got != Err(BadInode) { TallyOne(geo, d0, g0, nb, ni); }
      if got.Err? {
        return Err(got.error), pre, nb, ni;
      }
      var (i, extents) := got.value;
      OneBlock(extents);
      ReservedFree(geo, d0, g0, disk, groups, i, true, Flat(extents));
      SuppliedFirst(geo, d0, g0, disk, groups, extents);
      var b := extents[0].physical;
      HeldGrow(h0, i, {}, Flat(extents));
      HeldBack(h0, i, SeqSet(Flat(extents)));
      ghost var dr := disk;
      if b <= geo.first {
        Retract(i, extents, true, a);
        DirsBack(old(dirs), i);
        RefusalBack(geo, a, Now(), CorruptFs, true, nb, ni);
        return Err(CorruptFs), pre, nb, ni;
      }
      SurvivesReserve(geo, d0, g0, disk, groups, i, true, Flat(extents), dir);
      PutBlock(b, DirBlock(NewDirChain(geo, i, dir)), i);
      OutsideOne(d0.blocks, b, DirBlock(NewDirChain(geo, i, dir)));
      NewDirPublishable(geo, disk, groups, held, i, dir, b);
      PutRecord(i, DirRecord(geo, b));
      ReservedKept(geo, d0, g0, dr, groups, disk, i, true, DirRecord(geo, b), Flat(extents));
      ReservedKeeps(geo, d0, g0, h0, disk, groups, i, true, Flat(extents));
      FoundStepsAre(d0.bbm, i, pre, b, DirBlock(NewDirChain(geo, i, dir)));
      LogTwo(old(log), pre, WBlock(b, DirBlock(NewDirChain(geo, i, dir))), WInode(i, DirRecord(geo, b)));
      pre := pre + [WBlock(b, DirBlock(NewDirChain(geo, i, dir)))] + [WInode(i, DirRecord(geo, b))];
      r := Ok((i, extents));
    }

    lemma LogTwo(log0: seq<Write>, pre: seq<Write>, x: Write, y: Write)
      ensures log0 + pre + [x] + [y] == log0 + (pre + [x] + [y])
    {
    }

    /** Behind a barrier, give the directory written since `a` its name and its
        parent the link. */
    method NameNewDir(dir: nat, name: Name, i: nat, extents: seq<Extent>, ghost a: State) returns (r: Result<nat>)
      requires Valid() && Began(geo, a) && InUse(geo, a.disk, dir) && dir < U32_LIMIT && Unlisted(a, dir, i, extents)
      requires HeldKept(held, a.disk.blocks, disk.blocks)
      modifies this
      ensures Valid() && old(log) <= log && held == old(held) && HeldKept(held, a.disk.blocks, disk.blocks)
      ensures dirs == if r.Ok? then old(dirs) else old(dirs) - {i}
      ensures r.Ok? ==> Keeps(a, Now()) && r.value == i
      ensures r.Err? ==> r.error != BadInode && BackTo(geo, a, Now(), |Flat(extents)|, 1)
      ensures r.Ok? ==> IsDir(geo, disk, i) && HasEntry(geo, disk, dir, Entry(i, name, 2)) && !IUsed(geo, a.disk.ibm, i)
      ensures r.Ok? ==> disk.inodes[i].links == 2 && disk.inodes[dir].links == a.disk.inodes[dir].links + 1
      ensures r.Ok? ==> Added(geo, a.disk, disk, dir, Entry(i, name, 2))
      ensures r.Ok? ==> EntriesOf(disk.blocks, disk.inodes[i]) == [Entry(i, DOT, 2), Entry(dir, DOTDOT, 2)]
      ensures r.Err? <==> LinkRefused(geo, a.disk, dir, name) || a.disk.inodes[dir].links + 1 >= U16_LIMIT
      ensures r.Ok? ==> freeBlocks == SatSub(a.freeBlocks, |Flat(extents)|) && freeInodes == SatSub(a.freeInodes, 1)
      ensures r.Ok? ==> Named2(old(disk), old(log) + [Flush], log, dir, Entry(i, name, 2))
    {
      hide LinkRefused, Clear, Began, BackTo, Named2, LinkWrite, UnlinkWrite;
      hide CrashSafe, SafeHistory, Replay, GeoOk, HeldOk, BlockCount, InodeSide, Saved, Restored, Reserved, Flat, NoDup,
        NoFlush, SameOutside, NamedBy, Unnamed, Owns, NameOk, Single, Linked, Undisturbed, Named, HasEntry, SatSub, Max,
        IUsed, EntriesOf, DataOf, Unlinked, Intact, HeldKept, Added, BUsed, Sealed, UndoTrace;
      ghost var d0, d1 := a.disk, disk;
      BeganSafe(a);
      FlushDevice();
      Ready(d0, a.groups, i, true, Flat(extents), dir, name);
      var linked := LinkFile(dir, name, i, 2);
      HeldKeptTrans(held, d0.blocks, d1.blocks, disk.blocks);
      KeysBack(held, dirs - {i}, i);
      if linked.Err? {
        Withdraw(i, extents, true, a);
        return Err(linked.error);
      }
      ghost var d2, e, log2 := disk, Entry(i, name, 2), log;
      LinkedDir(d1, disk, dir, e);
      NamedNew(d0, d1, disk, dir, e);
      IntactNames(d1.blocks, disk.blocks, disk.inodes[i]);
      var patched := PatchLinks(dir, 1);
      if patched.Err? {
        var gone := UnlinkFile(dir, name);
        HeldKeptTrans(held, d0.blocks, d2.blocks, disk.blocks);
        PlainRefused(d1, dir, name);
        UnlinkSure(d2, disk, dir, e, gone);
        LinkUnlink(d0, d1, d2, disk, dir, e, gone.value);
        ReservedSame(geo, d0, a.groups, d1, groups, disk, i, true, Flat(extents));
        Withdraw(i, extents, true, a);
        return Err(patched.error);
      }
      PatchedDir(geo, d2, disk, dir, e);
      AddedPatched(geo, d0, d2, disk, dir, e, disk.inodes[dir].links);
      Named2Is(d1, old(log) + [Flush], log2, log, dir, e);
      r := Ok(i);
    }

    lemma BeganSafe(a: State)
      requires GeoOk(geo) && Began(geo, a)
      ensures CrashSafe(geo, a.disk)
    {
    }

    /** The entry `e` of `dir` was written, then the link it gives `dir`. */
    ghost predicate Named2(d: Disk, log0: seq<Write>, log1: seq<Write>, dir: nat, e: Entry)
      requires GeoOk(geo)
    {
      && IsDir(geo, d, dir) && e.ino != dir && |log1| == |log0| + 3 && LinkWrite(geo, d, dir, e, log1[|log0|])
      && log1 == log0 + [log1[|log0|]] + [WInode(dir, d.inodes[dir].(links := d.inodes[dir].links + 1))] + [Flush]
    }

    lemma Named2Is(d: Disk, log0: seq<Write>, log1: seq<Write>, log2: seq<Write>, dir: nat, e: Entry)
      requires GeoOk(geo) && IsDir(geo, d, dir) && e.ino != dir && |log1| == |log0| + 1 && log1[..|log0|] == log0
      requires LinkWrite(geo, d, dir, e, log1[|log0|])
      requires log2 == log1 + [WInode(dir, d.inodes[dir].(links := d.inodes[dir].links + 1))] + [Flush]
      ensures Named2(d, log0, log2, dir, e)
    {
      hide LinkWrite, GeoOk, IUsed;
      assert log1 == log0 + [log1[|log0|]];
      assert log2[|log0|] == log1[|log0|];
    }

    /** Create the directory `name` in `dir`, or leave the filesystem as it was. */
    method CreateDirectory(dir: nat, name: Name) returns (r: Result<nat>, ghost pre: seq<Write>, ghost nb: nat,
        ghost ni: nat)
      requires Valid() && InUse(geo, disk, dir) && dir < U32_LIMIT
      modifies this
      ensures Valid() && old(log) <= log && held == old(held) && HeldKept(held, old(disk.blocks), disk.blocks)
      ensures r.Err? ==> dirs == old(dirs)
      ensures r.Ok? ==> dirs == old(dirs) + {r.value} && r.value !in held
      ensures r == Err(BadInode) <==>
        NameOk(name) && old(disk).inodes[dir].kind == Dir && Overrun(geo, old(disk), old(groups))
      ensures if r.Ok? then Keeps(old(Now()), Now()) else Refusal(geo, old(Now()), Now(), r.error, true, nb, ni)
      ensures r != Err(BadInode) ==>
        if NameOk(name) && old(disk).inodes[dir].kind == Dir then Tally(geo, old(disk), old(groups), 1, nb, ni)
        else nb == 0 && ni == 0
      ensures r.Ok? ==>
        && IsDir(geo, disk, r.value) && HasEntry(geo, disk, dir, Entry(r.value, name, 2))
        && !IUsed(geo, old(disk.ibm), r.value)
      ensures r.Ok? ==> disk.inodes[r.value].links == 2 && disk.inodes[dir].links == old(disk).inodes[dir].links + 1
      ensures r.Ok? ==> Added(geo, old(disk), disk, dir, Entry(r.value, name, 2))
      ensures r.Ok? ==> EntriesOf(disk.blocks, disk.inodes[r.value]) == [Entry(r.value, DOT, 2), Entry(dir, DOTDOT, 2)]
      ensures r.Err? <==>
        || Unhoused(geo, old(disk), old(groups)) || LinkRefused(geo, old(disk), dir, name)
        || old(disk).inodes[dir].links + 1 >= U16_LIMIT
      ensures r.Ok? ==> freeBlocks == SatSub(old(freeBlocks), nb) && freeInodes == SatSub(old(freeInodes), ni)
      ensures r.Ok? ==> DirTrace(old(log), log, pre, dir, Entry(r.value, name, 2))
    {
      hide NoInode, Short, Unhoused, LinkRefused, Overrun, ChargedTo, Tally, Recount, Clear, Began, BackTo, Refusal;
      hide CrashSafe, SafeHistory, Replay, GeoOk, HeldOk, BlockCount, InodeSide, Saved, Flat, NoFlush, NameOk, HasEntry,
        SatSub, IUsed, EntriesOf, HeldKept, Added, BUsed, Unlisted, Named2, FoundSteps, DirTrace;
      ghost var a := Now();
      HeldKeptRefl(held, disk.blocks);
      DirsSame(dirs);
      pre, nb, ni := [], 0, 0;
      BackSame(geo, a);
      BeganNow();
      PlainRefused(disk, dir, name);
      if !NameOk(name) {
        RefusalBack(geo, a, Now(), CorruptFs, true, 0, 0);
        return Err(CorruptFs), pre, nb, ni;
      }
      if disk.inodes[dir].kind != Dir {
        RefusalBack(geo, a, Now(), NotADirectory, true, 0, 0);
        return Err(NotADirectory), pre, nb, ni;
      }
      var made;
      made, pre, nb, ni := WriteNewDir(dir);
      if made.Err? {
        return Err(made.error), pre, nb, ni;
      }
      var (i, extents) := made.value;
      UnlistedParts(a, dir, i, extents);
      DirsBack(old(dirs), i);
      ghost var log1, d1 := log + [Flush], disk;
      FlushSame(base, log);
      r := NameNewDir(dir, name, i, extents, a);
      if r.Err? {
        RefusalBack(geo, a, Now(), r.error, true, nb, ni);
      } else {
        DirTraceIs(a.disk, d1, old(log), log1, pre, dir, Entry(i, name, 2));
      }
    }

    lemma UnlistedParts(a: State, dir: nat, i: nat, extents: seq<Extent>)
      requires GeoOk(geo) && Unlisted(a, dir, i, extents)
      ensures i in dirs && i !in held && IsDir(geo, disk, i) && Unnamed(geo, disk, i)
      ensures EntriesOf(disk.blocks, disk.inodes[i]) == [Entry(i, DOT, 2), Entry(dir, DOTDOT, 2)]
    {
    }

    /** The writes of a `create_directory`: what the record needs and the record,
        a barrier, the name, the parent's link, a barrier. */
    ghost predicate DirTrace(log0: seq<Write>, log1: seq<Write>, pre: seq<Write>, dir: nat, e: Entry)
      requires GeoOk(geo)
    {
      var m := Replay(base, log0 + pre + [Flush]);
      && NoFlush(pre) && FoundSteps(Replay(base, log0).bbm, e.ino, pre)
      && IsDir(geo, m, e.ino) && Unnamed(geo, m, e.ino)
      && EntriesOf(m.blocks, m.inodes[e.ino]) == [Entry(e.ino, DOT, 2), Entry(dir, DOTDOT, 2)]
      && Named2(m, log0 + pre + [Flush], log1, dir, e)
    }

    lemma DirTraceIs(d0: Disk, d1: Disk, log0: seq<Write>, log1: seq<Write>, pre: seq<Write>, dir: nat, e: Entry)
      requires GeoOk(geo) && NoFlush(pre) && FoundSteps(d0.bbm, e.ino, pre) && d0 == Replay(base, log0)
      requires log1 == log0 + pre + [Flush] && d1 == Replay(base, log1)
      requires IsDir(geo, d1, e.ino) && Unnamed(geo, d1, e.ino)
      requires EntriesOf(d1.blocks, d1.inodes[e.ino]) == [Entry(e.ino, DOT, 2), Entry(dir, DOTDOT, 2)]
      requires Named2(d1, log1, log, dir, e)
      ensures DirTrace(log0, log, pre, dir, e)
    {
      hide GeoOk, NoFlush, FoundSteps, IUsed, Unnamed, EntriesOf, Named2, Replay;
    }

    /** Naming a new directory leaves its record and entries in place. */
    lemma LinkedDir(d: Disk, d': Disk, dir: nat, e: Entry)
      requires GeoOk(geo) && CrashSafe(geo, d) && Linked(d, d', dir, e) && NameOk(e.name) && IsDir(geo, d, e.ino)
      requires e.ino != dir
      ensures IsDir(geo, d', dir) && IsDir(geo, d', e.ino) && d'.inodes == d.inodes && HasEntry(geo, d', dir, e)
      ensures Intact(d.blocks, d'.blocks, d.inodes[e.ino])
      ensures DataOf(d'.blocks, d.inodes[dir]) == DataOf(d.blocks, d.inodes[dir])
    {
      hide CrashSafe, GeoOk, IUsed, EntriesOf, DataOf, AddedOnce, Intact;
      var b, c :| b in DataOf(d.blocks, d.inodes[dir]) && d' == d.(blocks := d.blocks[b := DirBlock(c)]);
      DirWriteIntact(geo, d, dir, b, c);
      AddedHas(EntriesOf(d.blocks, d.inodes[dir]), e, EntriesOf(d'.blocks, d.inodes[dir]));
      NameReal(e.name);
    }

    /** Taking a name back right after linking it undoes the link. */
    lemma LinkUnlink(d0: Disk, d1: Disk, d2: Disk, d3: Disk, dir: nat, e: Entry, ino: nat)
      requires GeoOk(geo) && CrashSafe(geo, d1) && CrashSafe(geo, d2)
      requires Linked(d1, d2, dir, e) && Unlinked(d2, d3, dir, e.name, ino) && HasEntry(geo, d2, dir, e)
      requires Undisturbed(geo, d0, d1) && IsDir(geo, d1, e.ino) && e.ino != dir
      requires forall j :: InUse(geo, d0, j) ==> InUse(geo, d1, j)
      ensures ino == e.ino && Unnamed(geo, d3, ino) && IsDir(geo, d3, ino) && d3.inodes == d1.inodes && d3.bbm == d1.bbm
      ensures d3.ibm == d1.ibm
      ensures Undisturbed(geo, d0, d3) && NamedBy(d3.blocks, d3.inodes[ino]) == NamedBy(d1.blocks, d1.inodes[ino])
    {
      hide CrashSafe, GeoOk, IUsed, EntriesOf, DataOf, NamedBy, AddedOnce, Intact, Unnamed, AgreeOn;
      var b, c :| b in DataOf(d1.blocks, d1.inodes[dir]) && d2 == d1.(blocks := d1.blocks[b := DirBlock(c)]);
      DirWriteIntact(geo, d1, dir, b, c);
      var b', c' :| b' in DataOf(d2.blocks, d2.inodes[dir]) && d3 == d2.(blocks := d2.blocks[b' := DirBlock(c')]);
      DirWriteIntact(geo, d2, dir, b', c');
      SameName(geo, d2, dir, e, ino);
      forall j | InUse(geo, d1, j)
        ensures Intact(d1.blocks, d3.blocks, d1.inodes[j])
      {
        if j == dir {
          UnlinkRestores(d1, d2, d3, dir, e);
        } else {
          IntactTrans(d1.blocks, d2.blocks, d3.blocks, d1.inodes[j]);
        }
      }
      IntactNames(d1.blocks, d3.blocks, d1.inodes[ino]);
      UndisturbedTrans(geo, d0, d1, d3);
    }

    /** An entry that is there can be unlinked. */
    lemma UnlinkSure(d: Disk, d': Disk, dir: nat, e: Entry, r: Result<nat>)
      requires GeoOk(geo) && HasEntry(geo, d, dir, e) && NameOk(e.name) && !Sealed(d.inodes[dir])
      requires forall b :: b in DataOf(d.blocks, d.inodes[dir]) ==> b > geo.first
      requires r == Err(NotFound) ==> !Named(EntriesOf(d.blocks, d.inodes[dir]), e.name)
      requires r.Err? && r.error != NotFound ==>
        || !NameOk(e.name) || !IsDir(geo, d, dir) || Sealed(d.inodes[dir])
        || exists b :: b in DataOf(d.blocks, d.inodes[dir]) && b <= geo.first
      ensures r.Ok?
    {
      hide GeoOk, IUsed, EntriesOf, DataOf, Named, NameOk;
      NamedWitness(EntriesOf(d.blocks, d.inodes[dir]), e);
    }

    lemma UnlinkRestores(d1: Disk, d2: Disk, d3: Disk, dir: nat, e: Entry)
      requires GeoOk(geo) && Linked(d1, d2, dir, e) && d2.inodes == d1.inodes && IsDir(geo, d1, dir)
      requires EntriesOf(d3.blocks, d1.inodes[dir]) == Without(EntriesOf(d2.blocks, d1.inodes[dir]), e.name)
      requires NamedBy(d2.blocks, d1.inodes[dir]) ==
        NamedBy(d1.blocks, d1.inodes[dir]) == NamedBy(d3.blocks, d1.inodes[dir])
      ensures Intact(d1.blocks, d3.blocks, d1.inodes[dir])
    {
      hide GeoOk, IUsed, EntriesOf, DataOf, NamedBy, Named;
      var es, es2 := EntriesOf(d1.blocks, d1.inodes[dir]), EntriesOf(d2.blocks, d1.inodes[dir]);
      var k :| 0 <= k <= |es| && es2 == es[..k] + [e] + es[k..];
      WithoutInserted(es, k, e);
    }

    // ----- deleting -----

    /** The blocks a record names, as `collect_extents` lists them. */
    method CollectExtents(rec: Record) returns (r: Result<(seq<Extent>, seq<Extent>)>)
      requires rec.Inode?
      ensures r.Err? <==> rec.tree.Foreign?
      ensures r.Err? ==> r.error == UnsupportedFsFeature
      ensures r.Ok? ==> Flat(r.value.0) == DataOf(disk.blocks, rec) && Flat(r.value.1) == MetaOf(rec)
    {
      match rec.tree
      case Embedded =>
        r := Ok(([], []));
      case Foreign(_, _) =>
        r := Err(UnsupportedFsFeature);
      case Inline(runs) =>
        RunExtentsFlat(runs);
        r := Ok((RunExtents(runs), []));
      case Indexed(leaves) =>
        RunExtentsFlat(LeafRuns(disk.blocks, leaves));
        LeafExtentsFlat(leaves);
        r := Ok((RunExtents(LeafRuns(disk.blocks, leaves)), LeafExtents(leaves)));
    }

    /** Invalidate an unnamed inode, then return its blocks to the free pool. */
    method DropInode(i: nat, data: seq<Extent>, index: seq<Extent>, wasDir: bool) returns (r: Result<()>,
        ghost s1: seq<Write>, ghost s2: seq<Write>)
      requires Valid() && InUse(geo, disk, i) && Unnamed(geo, disk, i) && (wasDir <==> i in dirs)
      requires Flat(data) == DataOf(disk.blocks, disk.inodes[i]) && Flat(index) == MetaOf(disk.inodes[i])
      modifies this
      ensures Valid() && old(log) <= log && disk.blocks == old(disk.blocks)
      ensures Keeps(old(Now()), Now())
      ensures r.Ok? <==> Freeable(geo, old(disk), old(groups), i)
      ensures r.Err? ==> disk == old(disk)
      ensures Thawed(old(groups), groups)
      ensures held == old(held) && dirs == if r.Ok? then old(dirs) - {i} else old(dirs)
      ensures r.Ok? ==> disk.inodes == old(disk.inodes)[i := Blank]
      ensures r.Ok? ==> InoGroup(geo, i) < |old(disk.ibm)| && InoBit(geo, i) < |old(disk.ibm)[InoGroup(geo, i)]|
      ensures r.Ok? ==> disk.ibm == SetIno(geo, old(disk.ibm), i, false)
      ensures r.Ok? ==> Cleared(geo, old(disk.bbm), disk.bbm, NamedBy(old(disk.blocks), old(disk.inodes)[i]))
      ensures log == old(log) + s1 + s2
      ensures r.Ok? ==>
        IdleOut(i, s1) && BlockSide(s2) && Clearing(geo, NamedBy(old(disk.blocks), old(disk.inodes)[i]), s2)
    {
      hide IdleOut, BlockSide, Clearing;
      s1, s2 := [], [];
      hide CrashSafe, SafeHistory, Replay, GeoOk, HeldOk, BlockCount, InodeSide, Saved, InoGroup, InoBit, IUsed, Flat,
        Cleared, SetIno, ReleaseGroups, Unnamed, SameBlockSide, SameInodeSide, NoDup, DataOf, MetaOf, Loose, Releasable,
        CommitOrdered, NoFlush, Freeable, InUse, Thawed;
      ghost var d, h, gs := disk, held, groups;
      SameSideRefl(gs);
      ThawedSide(gs, gs);
      ghost var s, t := Flat(data), Flat(index);
      NamedNoDup(geo, d, i);
      InUseNotHeld(geo, d, gs, h, i);
      ReleasedOwned(geo, d, gs, h, dirs, drift, i, s + t);
      var freed;
      freed, s1 := FreeInode(i, wasDir);
      if freed.Err? {
        return Err(freed.error), s1, s2;
      }
      FreeableCell(geo, d, gs, i);
      ThawedRelease(geo, gs, i, wasDir);
      ghost var g1 := groups;
      OwnedLoose(geo, d, disk, gs, h, i, s + t);
      LooseSplit(geo, disk, held, s, t);
      ReleasableSplit(geo, d.bbm, s, t);
      ghost var d1 := disk;
      var a;
      a, s2 := FreeBlocks(data);
      ThawedSide(g1, groups);
      ThawedTrans(gs, g1, groups);
      ghost var g2 := groups;
      LooseFrame(geo, d1, disk, held, t);
      ReleasableRest(geo, d1.bbm, disk.bbm, s, t);
      ghost var m2 := disk.bbm;
      if |index| > 0 {
        var b, s3 := FreeBlocks(index);
        Assoc(old(log) + s1, s2, s3);
        BlockSideConcat(s2, s3);
        ClearingConcat(geo, s, t, s2, s3);
        s2 := s2 + s3;
        ThawedSide(g2, groups);
        ThawedTrans(gs, g2, groups);
        ClearedTwice(geo, d1.bbm, m2, disk.bbm, s, t);
      } else {
        FlatNone();
        assert s + t == s;
      }
      r := Ok(());
    }

    lemma PublishedOwns(d0: Disk, g0: seq<GroupDesc>, i: nat, isDir: bool, s: seq<nat>)
      requires Valid() && Reserved(geo, d0, g0, disk, groups, i, isDir, s) && InUse(geo, disk, i)
      requires Unnamed(geo, disk, i)
      requires NamedBy(disk.blocks, disk.inodes[i]) == s && NoDup(s)
      ensures Owns(i, s)
    {
      hide CrashSafe, SafeHistory, Replay, GeoOk, HeldOk, BlockCount, InodeSide, Saved, NoDup, Unnamed, NamedBy, Marked,
        AllFree;
    }

    /** Linking adds one entry to `dir` and touches nothing else. */
    lemma LinkedMeans(d: Disk, d': Disk, dir: nat, e: Entry)
      requires GeoOk(geo) && CrashSafe(geo, d) && Linked(d, d', dir, e) && Real(e)
      ensures Elsewhere(geo, d, d', dir, {}) && IsDir(geo, d, dir) && IsDir(geo, d', dir) && d'.inodes == d.inodes
      ensures d'.ibm == d.ibm
      ensures DataOf(d'.blocks, d.inodes[dir]) == DataOf(d.blocks, d.inodes[dir])
      ensures forall f :: HasEntry(geo, d', dir, f) <==> HasEntry(geo, d, dir, f) || f == e
    {
      hide CrashSafe, GeoOk, IUsed, EntriesOf, DataOf, Elsewhere, AddedOnce, DistinctNames, Named;
      var b, c :| b in DataOf(d.blocks, d.inodes[dir]) && d' == d.(blocks := d.blocks[b := DirBlock(c)]);
      DirBlockElsewhere(geo, d, dir, b, c);
      DirNames(geo, d, dir);
      AddedDistinct(EntriesOf(d.blocks, d.inodes[dir]), e, EntriesOf(d'.blocks, d.inodes[dir]));
    }

    /** A new inode was prepared and then named. */
    lemma NamedNew(d0: Disk, d1: Disk, d2: Disk, dir: nat, e: Entry)
      requires GeoOk(geo) && CrashSafe(geo, d1) && Undisturbed(geo, d0, d1) && !InUse(geo, d0, e.ino)
      requires InUse(geo, d0, dir)
      requires (forall j :: InUse(geo, d1, j) <==> InUse(geo, d0, j) || j == e.ino) && Linked(d1, d2, dir, e)
      requires NameOk(e.name)
      ensures Added(geo, d0, d2, dir, e)
    {
      hide CrashSafe, GeoOk, InUse, Linked, HasEntry, Elsewhere, Undisturbed, DataOf, Added, NameOk;
      NameReal(e.name);
      LinkedMeans(d1, d2, dir, e);
      AddedBy(geo, d0, d1, d2, dir, e);
    }

    /** Linking a new file's name leaves its contents in place. */
    lemma LinkedFile(d: Disk, d': Disk, dir: nat, e: Entry, rec: Record, data: seq<byte>)
      requires GeoOk(geo) && CrashSafe(geo, d) && Linked(d, d', dir, e) && NameOk(e.name)
      requires InUse(geo, d, e.ino) && d.inodes[e.ino] == rec && NewFile(geo, d, rec, data)
      ensures InUse(geo, d', e.ino) && d'.inodes[e.ino] == rec && NewFile(geo, d', rec, data)
      ensures HasEntry(geo, d', dir, e)
    {
      hide CrashSafe, GeoOk, IUsed, EntriesOf, DataOf, MetaOf, FileBytes, BUsed, AddedOnce;
      var b, c :| b in DataOf(d.blocks, d.inodes[dir]) && d' == d.(blocks := d.blocks[b := DirBlock(c)]);
      DirWriteFrame(geo, d, dir, b, c);
      AddedHas(EntriesOf(d.blocks, d.inodes[dir]), e, EntriesOf(d'.blocks, d.inodes[dir]));
      NameReal(e.name);
      GeoSize(geo);
      FileBytesFrame(d.blocks, d'.blocks, DataOf(d.blocks, rec), geo.blockSize, rec.size);
    }

    lemma LayoutReady(v: Reservation)
      requires GeoOk(geo) && ReservationOk(geo, v) && v.ino in held && held[v.ino] == SeqSet(Flat(v.extents))
      ensures Layout(v.runs, v.ino)
    {
      hide Flat, FlatRuns, Tiled, GeoOk;
      NoDupConcat(FlatRuns(v.runs), LeafSeq(v.leaf));
    }

    /** The medium before and after claiming inode `i`. */
    ghost predicate Claimed1(d: Disk, d': Disk, i: nat)
      requires GeoOk(geo)
    {
      && InoExists(geo, i) && geo.firstIno <= i && InoGroup(geo, i) < |d.ibm|
      && InoBit(geo, i) < |d.ibm[InoGroup(geo, i)]|
      && !IUsed(geo, d.ibm, i)
      && d'.inodes == d.inodes[i := Blank] && d'.ibm == SetIno(geo, d.ibm, i, true)
    }
  }
}
