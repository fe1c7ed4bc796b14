/** Claiming and releasing inodes: what it does to the inode bitmap and to the
    four counters of a group that describe it. */
module Ext4Inodes {
  import opened Arith
  import opened Bytes
  import opened Ext4Disk
  import opened Ext4Steps
  import opened Ext4Bitmap

  ghost predicate ShapedI(geo: Geo, m: Bitmaps) {
    |m| == geo.groups && forall g :: 0 <= g < |m| ==> |m[g]| == geo.iper
  }

  /** Every bitmap cell of every group is an inode number the superblock admits. */
  predicate Whole(geo: Geo) { geo.groups * geo.iper <= geo.icount }

  ghost predicate InodeCount(geo: Geo, groups: seq<GroupDesc>, ibm: Bitmaps, drift: seq<int>) {
    && ShapedI(geo, ibm) && |groups| == |drift| == geo.groups
    && forall g :: 0 <= g < geo.groups ==> groups[g].freeInodes - Zeros(ibm[g], geo.iper) == drift[g]
  }

  /** No claimed inode lies in the never-used tail a descriptor declares. */
  ghost predicate TailFree(geo: Geo, groups: seq<GroupDesc>, ibm: Bitmaps) {
    && ShapedI(geo, ibm) && |groups| == geo.groups
    && forall g, k :: 0 <= g < geo.groups && 0 <= k < geo.iper && k + groups[g].itableUnused >= geo.iper ==> !ibm[g][k]
  }

  ghost function DirsIn(geo: Geo, dirs: set<nat>, g: nat): set<nat>
    requires GeoOk(geo)
  {
    set i | i in dirs && 0 < i && InoGroup(geo, i) == g
  }

  ghost predicate DirCount(geo: Geo, groups: seq<GroupDesc>, dirs: set<nat>, slack: seq<nat>)
    requires GeoOk(geo)
  {
    && |groups| == |slack| == geo.groups
    && forall g :: 0 <= g < geo.groups ==> groups[g].usedDirs == slack[g] + |DirsIn(geo, dirs, g)|
  }

  /** `dirs` are the inodes claimed as directories: all claimed, and exactly
      the directories among those whose record is written. */
  ghost predicate Tracked(geo: Geo, d: Disk, dirs: set<nat>)
    requires GeoOk(geo)
  {
    && (forall i :: i in dirs ==> IUsed(geo, d.ibm, i))
    && (forall i :: InUse(geo, d, i) ==> (d.inodes[i].kind == Dir <==> i in dirs))
  }

  function SetIno(geo: Geo, ibm: Bitmaps, i: nat, v: bool): Bitmaps
    requires GeoOk(geo) && 0 < i && InoGroup(geo, i) < |ibm| && InoBit(geo, i) < |ibm[InoGroup(geo, i)]|
  {
    ibm[InoGroup(geo, i) := ibm[InoGroup(geo, i)][InoBit(geo, i) := v]]
  }

  lemma InoCell(geo: Geo, ibm: Bitmaps, i: nat)
    requires GeoOk(geo) && ShapedI(geo, ibm) && 0 < i && InoGroup(geo, i) < geo.groups
    ensures InoBit(geo, i) < geo.iper == |ibm[InoGroup(geo, i)]| && InoGroup(geo, i) < |ibm|
    ensures IUsed(geo, ibm, i) == ibm[InoGroup(geo, i)][InoBit(geo, i)]
  {
    InoOfCell(geo, i);
  }

  lemma SetInoUsed(geo: Geo, ibm: Bitmaps, i: nat, v: bool)
    requires GeoOk(geo) && ShapedI(geo, ibm) && 0 < i && InoGroup(geo, i) < geo.groups && InoBit(geo, i) < geo.iper
    ensures ShapedI(geo, SetIno(geo, ibm, i, v))
    ensures forall j :: IUsed(geo, SetIno(geo, ibm, i, v), j) == if j == i then v else IUsed(geo, ibm, j)
  {
    forall j | 0 < j ensures IUsed(geo, SetIno(geo, ibm, i, v), j) == if j == i then v else IUsed(geo, ibm, j) {
      InoOfCell(geo, i);
      InoOfCell(geo, j);
    }
  }

  lemma SetThenClear(geo: Geo, ibm: Bitmaps, i: nat)
    requires GeoOk(geo) && ShapedI(geo, ibm) && 0 < i && InoGroup(geo, i) < geo.groups && InoBit(geo, i) < geo.iper
    requires !IUsed(geo, ibm, i)
    ensures ShapedI(geo, SetIno(geo, ibm, i, true))
    ensures SetIno(geo, SetIno(geo, ibm, i, true), i, false) == ibm
  {
    var g := InoGroup(geo, i);
    var m := SetIno(geo, SetIno(geo, ibm, i, true), i, false);
    assert m[g] == ibm[g];
    assert forall h :: 0 <= h < |ibm| ==> m[h] == ibm[h];
  }

  // ----- choosing an inode -----

  /** Whether the search of `alloc_inode` stops at this group. */
  predicate Candidate(geo: Geo, groups: seq<GroupDesc>, ibm: Bitmaps, g: nat)
    requires g < |groups| && g < |ibm| && |ibm[g]| == geo.iper
  {
    && groups[g].freeInodes > 0
    && FirstZero(ibm[g], 0, geo.iper) < geo.iper
    && InoAt(geo, g, FirstZero(ibm[g], 0, geo.iper)) >= geo.firstIno
  }

  /** The inode number on offer: the lowest free cell of the first group where
      the search stops, if there is one. */
  ghost function Offered(geo: Geo, groups: seq<GroupDesc>, ibm: Bitmaps): (r: Option<nat>)
    requires GeoOk(geo) && |groups| == geo.groups && ShapedI(geo, ibm)
    ensures r.None? <==> forall g :: 0 <= g < geo.groups ==> !Candidate(geo, groups, ibm, g)
  {
    if exists g: nat :: First(geo, groups, ibm, g) then
      var g: nat :| First(geo, groups, ibm, g);
      Some(InoAt(geo, g, FirstZero(ibm[g], 0, geo.iper)))
    else
      NoFirst(geo, groups, ibm, geo.groups);
      None
  }

  /** The search stops at group `g`. */
  ghost predicate First(geo: Geo, groups: seq<GroupDesc>, ibm: Bitmaps, g: nat)
    requires |groups| == geo.groups && ShapedI(geo, ibm)
  {
    g < geo.groups && Candidate(geo, groups, ibm, g) && forall h :: 0 <= h < g ==> !Candidate(geo, groups, ibm, h)
  }

  lemma {:induction false} NoFirst(geo: Geo, groups: seq<GroupDesc>, ibm: Bitmaps, n: nat)
    requires |groups| == geo.groups && ShapedI(geo, ibm) && n <= geo.groups
    requires !exists g: nat :: First(geo, groups, ibm, g)
    ensures forall g :: 0 <= g < n ==> !Candidate(geo, groups, ibm, g)
  {
    hide Candidate;
    if n > 0 {
      NoFirst(geo, groups, ibm, n - 1);
      assert !First(geo, groups, ibm, n - 1);
    }
  }

  lemma OfferedAt(geo: Geo, groups: seq<GroupDesc>, ibm: Bitmaps, g: nat)
    requires GeoOk(geo) && |groups| == geo.groups && ShapedI(geo, ibm) && First(geo, groups, ibm, g)
    ensures Offered(geo, groups, ibm) == Some(InoAt(geo, g, FirstZero(ibm[g], 0, geo.iper)))
  {
    hide Candidate, FirstZero, InoAt;
    assert forall h: nat :: First(geo, groups, ibm, h) ==> h == g;
  }

  /** The number on offer is one the superblock does not admit. */
  ghost predicate Overrun(geo: Geo, d: Disk, groups: seq<GroupDesc>)
    requires GeoOk(geo)
  {
    && |groups| == geo.groups && ShapedI(geo, d.ibm)
    && Offered(geo, groups, d.ibm).Some? && Offered(geo, groups, d.ibm).value > geo.icount
  }

  /** A bitmap whose cells all have a record never offers such a number. */
  lemma WholeNeverOverruns(geo: Geo, d: Disk, groups: seq<GroupDesc>)
    requires GeoOk(geo) && Whole(geo)
    ensures !Overrun(geo, d, groups)
  {
    if |groups| == geo.groups && ShapedI(geo, d.ibm) && Offered(geo, groups, d.ibm).Some? {
      var g: nat :| First(geo, groups, d.ibm, g);
      OfferedAt(geo, groups, d.ibm, g);
      CellBelow(geo, g, FirstZero(d.ibm[g], 0, geo.iper));
    }
  }

  lemma CellBelow(geo: Geo, g: nat, bit: nat)
    requires GeoOk(geo) && Whole(geo) && g < geo.groups && bit < geo.iper
    ensures InoAt(geo, g, bit) <= geo.icount
  {
    MulMono(g + 1, geo.groups, geo.iper);
    Distribute(g, 1, geo.iper);
  }

  /** One group of two cells for a single inode: once it is taken, the second
      cell is on offer. The medium can be mounted. */
  lemma ShortTable()
    ensures
      var geo := Geo(0, 16, 16, 1, 2, 1, 1, 1024, 1024);
      var d := Disk([seq(16, _ => true)], [[true, false]], [GroupDesc(0, 1, 0, 0, false, false)], 0, 0, map[], map[]);
      GeoOk(geo) && CrashSafe(geo, d) && !Whole(geo) && Overrun(geo, d, d.gd)
  {
    var geo := Geo(0, 16, 16, 1, 2, 1, 1, 1024, 1024);
    var ibm := [[true, false]];
    var groups := [GroupDesc(0, 1, 0, 0, false, false)];
    assert ibm[0] == [true, false];
    SecondCell(geo, groups, ibm);
  }

  lemma SecondCell(geo: Geo, groups: seq<GroupDesc>, ibm: Bitmaps)
    requires GeoOk(geo) && geo.groups == |groups| == |ibm| == 1 && geo.iper == 2 && ibm[0] == [true, false]
    requires groups[0].freeInodes == 1 && geo.firstIno == 1
    ensures Offered(geo, groups, ibm) == Some(2)
  {
    assert FirstZero(ibm[0], 1, 2) == 1;
    assert FirstZero(ibm[0], 0, 2) == 1;
    hide FirstZero, GeoOk;
    OfferedAt(geo, groups, ibm, 0);
  }

  /** The first group whose lowest free inode may be handed out. */
  method FindInode(geo: Geo, groups: seq<GroupDesc>, ibm: Bitmaps) returns (r: Option<(nat, nat)>)
    requires GeoOk(geo) && |groups| == geo.groups && ShapedI(geo, ibm)
    ensures r.None? <==> Offered(geo, groups, ibm).None?
    ensures r.Some? ==>
      var (g, bit) := r.value;
      && First(geo, groups, ibm, g) && bit == FirstZero(ibm[g], 0, geo.iper)
      && Offered(geo, groups, ibm) == Some(InoAt(geo, g, bit))
  {
    for g := 0 to geo.groups
      invariant forall h :: 0 <= h < g ==> !Candidate(geo, groups, ibm, h)
    {
      if groups[g].freeInodes > 0 {
        var bit := FirstZero(ibm[g], 0, geo.iper);
        if bit < geo.iper && InoAt(geo, g, bit) >= geo.firstIno {
          assert Candidate(geo, groups, ibm, g);
          OfferedAt(geo, groups, ibm, g);
          return Some((g, bit));
        }
      }
    }
    return None;
  }

  /** The descriptor once the inode at `bit` is claimed. */
  function ClaimDesc(geo: Geo, d: GroupDesc, bit: nat, isDir: bool): GroupDesc {
    var unused := SatSub(geo.iper, bit + 1);
    d.(freeInodes := SatSub(d.freeInodes, 1),
       usedDirs := if isDir then d.usedDirs + 1 else d.usedDirs,
       itableUnused := if d.itableUnused > unused then unused else d.itableUnused)
  }

  function ReleaseDesc(d: GroupDesc, wasDir: bool): GroupDesc {
    d.(freeInodes := d.freeInodes + 1, usedDirs := if wasDir then SatSub(d.usedDirs, 1) else d.usedDirs,
      inodeUninit := false)
  }

  // ----- what claiming and releasing keep -----

  lemma ClaimCounts(geo: Geo, groups: seq<GroupDesc>, ibm: Bitmaps, i: nat, isDir: bool, drift: seq<int>)
    requires GeoOk(geo) && InodeCount(geo, groups, ibm, drift) && 0 < i && InoGroup(geo, i) < geo.groups
    requires !IUsed(geo, ibm, i) && groups[InoGroup(geo, i)].freeInodes > 0
    ensures
      var g := InoGroup(geo, i);
      && InoBit(geo, i) < geo.iper
      && InodeCount(geo, groups[g := ClaimDesc(geo, groups[g], InoBit(geo, i), isDir).(inodeUninit := false)],
                    SetIno(geo, ibm, i, true), drift)
  {
    InoCell(geo, ibm, i);
    hide Zeros;
    ZerosUpdate(ibm[InoGroup(geo, i)], geo.iper, InoBit(geo, i), true);
  }

  lemma ReleaseCounts(geo: Geo, groups: seq<GroupDesc>, ibm: Bitmaps, i: nat, wasDir: bool, drift: seq<int>)
    requires GeoOk(geo) && InodeCount(geo, groups, ibm, drift) && 0 < i && InoGroup(geo, i) < geo.groups
    requires IUsed(geo, ibm, i)
    ensures
      var g := InoGroup(geo, i);
      && InoBit(geo, i) < geo.iper
      && InodeCount(geo, groups[g := ReleaseDesc(groups[g], wasDir)], SetIno(geo, ibm, i, false), drift)
  {
    InoCell(geo, ibm, i);
    hide Zeros;
    ZerosUpdate(ibm[InoGroup(geo, i)], geo.iper, InoBit(geo, i), false);
  }

  lemma ClaimTail(geo: Geo, groups: seq<GroupDesc>, ibm: Bitmaps, i: nat, isDir: bool)
    requires GeoOk(geo) && TailFree(geo, groups, ibm) && 0 < i && InoGroup(geo, i) < geo.groups
    ensures
      var g := InoGroup(geo, i);
      && InoBit(geo, i) < geo.iper
      && TailFree(geo, groups[g := ClaimDesc(geo, groups[g], InoBit(geo, i), isDir).(inodeUninit := false)],
                  SetIno(geo, ibm, i, true))
  {
    InoCell(geo, ibm, i);
  }

  lemma ReleaseTail(geo: Geo, groups: seq<GroupDesc>, ibm: Bitmaps, i: nat, wasDir: bool)
    requires GeoOk(geo) && TailFree(geo, groups, ibm) && 0 < i && InoGroup(geo, i) < geo.groups
    ensures
      var g := InoGroup(geo, i);
      && InoBit(geo, i) < geo.iper
      && TailFree(geo, groups[g := ReleaseDesc(groups[g], wasDir)], SetIno(geo, ibm, i, false))
  {
    InoCell(geo, ibm, i);
  }

  lemma DirsInAdd(geo: Geo, dirs: set<nat>, i: nat)
    requires GeoOk(geo) && 0 < i && i !in dirs
    ensures forall g: nat ::
      |DirsIn(geo, dirs + {i}, g)| == |DirsIn(geo, dirs, g)| + (if g == InoGroup(geo, i) then 1 else 0)
  {
    forall g: nat
      ensures |DirsIn(geo, dirs + {i}, g)| == |DirsIn(geo, dirs, g)| + (if g == InoGroup(geo, i) then 1 else 0)
    {
      if g == InoGroup(geo, i) {
        assert DirsIn(geo, dirs + {i}, g) == DirsIn(geo, dirs, g) + {i};
      } else {
        assert DirsIn(geo, dirs + {i}, g) == DirsIn(geo, dirs, g);
      }
    }
  }

  lemma ClaimDirs(geo: Geo, groups: seq<GroupDesc>, dirs: set<nat>, i: nat, slack: seq<nat>)
    requires GeoOk(geo) && DirCount(geo, groups, dirs, slack) && 0 < i && InoGroup(geo, i) < geo.groups && i !in dirs
    ensures
      var g := InoGroup(geo, i);
      && DirCount(geo, groups[g := ClaimDesc(geo, groups[g], InoBit(geo, i), true).(inodeUninit := false)],
                  dirs + {i}, slack)
      && DirCount(geo, groups[g := ClaimDesc(geo, groups[g], InoBit(geo, i), false).(inodeUninit := false)],
                  dirs, slack)
  {
    DirsInAdd(geo, dirs, i);
    hide DirsIn;
  }

  lemma ReleaseDirs(geo: Geo, groups: seq<GroupDesc>, dirs: set<nat>, i: nat, slack: seq<nat>)
    requires GeoOk(geo) && DirCount(geo, groups, dirs, slack) && 0 < i && InoGroup(geo, i) < geo.groups
    ensures
      var g := InoGroup(geo, i);
      DirCount(geo, groups[g := ReleaseDesc(groups[g], i in dirs)], dirs - {i}, slack)
  {
    if i in dirs {
      DirsInAdd(geo, dirs - {i}, i);
      assert dirs - {i} + {i} == dirs;
    } else {
      assert dirs - {i} == dirs;
    }
    hide DirsIn;
  }

  // ----- the medium around an inode that comes or goes -----

  lemma SlotInUse(geo: Geo, d: Disk, d': Disk, i: nat, v: bool)
    requires GeoOk(geo) && ShapedI(geo, d.ibm) && 0 < i && InoGroup(geo, i) < geo.groups && InoBit(geo, i) < geo.iper
    requires d'.inodes == d.inodes[i := Blank] && d'.ibm == SetIno(geo, d.ibm, i, v) && d'.blocks == d.blocks
    ensures forall j :: InUse(geo, d', j) <==> InUse(geo, d, j) && j != i
    ensures forall j :: InUse(geo, d', j) ==> d'.inodes[j] == d.inodes[j]
    ensures forall b :: Free(geo, d, b) ==> Free(geo, d', b)
    ensures forall j :: j != i ==> IUsed(geo, d'.ibm, j) == IUsed(geo, d.ibm, j)
    ensures IUsed(geo, d'.ibm, i) == v
  {
    SetInoUsed(geo, d.ibm, i, v);
    hide IUsed, GeoOk, SetIno, NamedBy, ShapedI;
    assert forall j :: InUse(geo, d', j) <==> InUse(geo, d, j) && j != i;
  }

  /** Claiming an inode adds it to the held ones. */
  lemma HeldClaim(geo: Geo, d: Disk, d': Disk, groups: seq<GroupDesc>, groups': seq<GroupDesc>, held: map<nat,
      set<nat>>, i: nat)
    requires GeoOk(geo) && ShapedI(geo, d.ibm) && HeldOk(geo, d, groups, held) && |groups| == |groups'| == geo.groups
    requires InoExists(geo, i) && geo.firstIno <= i && InoBit(geo, i) < geo.iper && !IUsed(geo, d.ibm, i)
    requires d'.inodes == d.inodes[i := Blank] && d'.ibm == SetIno(geo, d.ibm, i, true) && d'.blocks == d.blocks
    requires d'.bbm == d.bbm
    requires forall g :: 0 <= g < geo.groups && groups'[g].inodeUninit ==>
      groups[g].inodeUninit && g != InoGroup(geo, i)
    ensures HeldOk(geo, d', groups', held[i := {}]) && i !in held
  {
    SlotInUse(geo, d, d', i, true);
    assert i !in held;
    hide IUsed, GeoOk, SetIno, BUsed, Free, InoGroup, InUse, ShapedI;
    assert HeldIno(geo, d', groups', i);
    assert forall j :: j in held ==> HeldIno(geo, d', groups', j);
  }

  /** Releasing an inode drops it from the held ones. */
  lemma HeldRelease(geo: Geo, d: Disk, d': Disk, groups: seq<GroupDesc>, groups': seq<GroupDesc>, held: map<nat,
      set<nat>>, i: nat)
    requires GeoOk(geo) && ShapedI(geo, d.ibm) && HeldOk(geo, d, groups, held) && |groups| == |groups'| == geo.groups
    requires InoExists(geo, i) && InoBit(geo, i) < geo.iper
    requires d'.inodes == d.inodes[i := Blank] && d'.ibm == SetIno(geo, d.ibm, i, false) && d'.blocks == d.blocks
    requires d'.bbm == d.bbm
    requires forall g :: 0 <= g < geo.groups && groups'[g].inodeUninit ==> groups[g].inodeUninit
    ensures HeldOk(geo, d', groups', held - {i})
  {
    SlotInUse(geo, d, d', i, false);
    hide IUsed, GeoOk, SetIno, BUsed, Free, InoGroup, InUse, ShapedI;
    assert forall j :: j in held && j != i ==> HeldIno(geo, d', groups', j);
  }

  lemma TrackedSlot(geo: Geo, d: Disk, d': Disk, dirs: set<nat>, dirs': set<nat>, i: nat, v: bool)
    requires GeoOk(geo) && ShapedI(geo, d.ibm) && 0 < i && InoGroup(geo, i) < geo.groups && InoBit(geo, i) < geo.iper
    requires d'.inodes == d.inodes[i := Blank] && d'.ibm == SetIno(geo, d.ibm, i, v) && d'.blocks == d.blocks
    requires Tracked(geo, d, dirs) && (forall j :: j != i ==> (j in dirs' <==> j in dirs)) && (i in dirs' ==> v)
    ensures Tracked(geo, d', dirs')
  {
    SlotInUse(geo, d, d', i, v);
    hide IUsed, GeoOk, SetIno, ShapedI, InUse;
  }

  // ----- everything the inode counters promise -----

  /** How far each group's counters are from the truth of its bitmaps. Only a
      refused cell beyond the inode count changes it, so counters that start
      exact stay exact. */
  datatype Drift = Drift(blocks: seq<int>, inodes: seq<int>, dirs: seq<nat>, tailKept: bool, dirsKept: bool)

  /** The distance after a cell of group `g` was charged and refused. */
  function Charge(drift: Drift, g: nat, isDir: bool): Drift
    requires g < |drift.inodes| == |drift.dirs|
  {
    drift.(inodes := drift.inodes[g := drift.inodes[g] - 1],
      dirs := if isDir then drift.dirs[g := drift.dirs[g] + 1] else drift.dirs)
  }

  ghost predicate InodeSide(geo: Geo, d: Disk, groups: seq<GroupDesc>, dirs: set<nat>, drift: Drift)
    requires GeoOk(geo)
  {
    && ShapedI(geo, d.ibm) && |groups| == |drift.dirs| == geo.groups && Tracked(geo, d, dirs)
    && InodeCount(geo, groups, d.ibm, drift.inodes)
    && (drift.tailKept ==> TailFree(geo, groups, d.ibm))
    && (drift.dirsKept ==> DirCount(geo, groups, dirs, drift.dirs))
  }

  function ClaimGroups(geo: Geo, groups: seq<GroupDesc>, i: nat, isDir: bool): (r: seq<GroupDesc>)
    requires GeoOk(geo) && 0 < i && InoGroup(geo, i) < |groups|
    ensures |r| == |groups|
  {
    groups[InoGroup(geo, i) := ClaimDesc(geo, groups[InoGroup(geo, i)], InoBit(geo, i), isDir).(inodeUninit := false)]
  }

  function ReleaseGroups(geo: Geo, groups: seq<GroupDesc>, i: nat, wasDir: bool): (r: seq<GroupDesc>)
    requires GeoOk(geo) && 0 < i && InoGroup(geo, i) < |groups|
    ensures |r| == |groups|
  {
    groups[InoGroup(geo, i) := ReleaseDesc(groups[InoGroup(geo, i)], wasDir)]
  }

  lemma SideClaim(geo: Geo, d: Disk, d': Disk, groups: seq<GroupDesc>, dirs: set<nat>, drift: Drift, i: nat,
      isDir: bool)
    requires GeoOk(geo) && InodeSide(geo, d, groups, dirs, drift) && 0 < i && InoGroup(geo, i) < geo.groups
    requires InoBit(geo, i) < geo.iper && !IUsed(geo, d.ibm, i) && groups[InoGroup(geo, i)].freeInodes > 0
    requires d'.inodes == d.inodes[i := Blank] && d'.ibm == SetIno(geo, d.ibm, i, true) && d'.blocks == d.blocks
    ensures InodeSide(geo, d', ClaimGroups(geo, groups, i, isDir), if isDir then dirs + {i} else dirs, drift)
  {
    SetInoUsed(geo, d.ibm, i, true);
    TrackedSlot(geo, d, d', dirs, if isDir then dirs + {i} else dirs, i, true);
    ClaimCounts(geo, groups, d.ibm, i, isDir, drift.inodes);
    if drift.tailKept { ClaimTail(geo, groups, d.ibm, i, isDir); }
    if drift.dirsKept { ClaimDirs(geo, groups, dirs, i, drift.dirs); }
  }

  lemma SideRelease(geo: Geo, d: Disk, d': Disk, groups: seq<GroupDesc>, dirs: set<nat>, drift: Drift, i: nat)
    requires GeoOk(geo) && InodeSide(geo, d, groups, dirs, drift) && 0 < i && InoGroup(geo, i) < geo.groups
    requires InoBit(geo, i) < geo.iper && IUsed(geo, d.ibm, i)
    requires d'.inodes == d.inodes[i := Blank] && d'.ibm == SetIno(geo, d.ibm, i, false) && d'.blocks == d.blocks
    ensures InodeSide(geo, d', ReleaseGroups(geo, groups, i, i in dirs), dirs - {i}, drift)
  {
    SetInoUsed(geo, d.ibm, i, false);
    TrackedSlot(geo, d, d', dirs, dirs - {i}, i, false);
    ReleaseCounts(geo, groups, d.ibm, i, i in dirs, drift.inodes);
    if drift.tailKept { ReleaseTail(geo, groups, d.ibm, i, i in dirs); }
    if drift.dirsKept { ReleaseDirs(geo, groups, dirs, i, drift.dirs); }
  }

  /** Only the bitmap, the records and the inode half of the descriptors matter
      to the inode counters. */
  lemma SideFrame(geo: Geo, d: Disk, d': Disk, groups: seq<GroupDesc>, groups': seq<GroupDesc>, dirs: set<nat>,
      drift: Drift)
    requires GeoOk(geo) && InodeSide(geo, d, groups, dirs, drift) && SameInodeSide(groups', groups)
    requires d'.inodes == d.inodes && d'.ibm == d.ibm
    ensures InodeSide(geo, d', groups', dirs, drift)
  {
    hide Zeros, DirsIn, IUsed, GeoOk;
    assert forall i :: InUse(geo, d', i) == InUse(geo, d, i);
  }

  ghost predicate SameInodeSide(a: seq<GroupDesc>, b: seq<GroupDesc>) {
    && |a| == |b|
    && forall g :: 0 <= g < |a| ==>
         a[g].(freeBlocks := b[g].freeBlocks, blockUninit := b[g].blockUninit) == b[g]
  }

  ghost predicate SameBlockSide(a: seq<GroupDesc>, b: seq<GroupDesc>) {
    && |a| == |b|
    && forall g :: 0 <= g < |a| ==> a[g].freeBlocks == b[g].freeBlocks && a[g].blockUninit == b[g].blockUninit
  }

  /** Refusing a number the superblock does not admit moves the counters in
      memory by exactly the cell that was charged. */
  lemma SideRefused(geo: Geo, d: Disk, groups: seq<GroupDesc>, dirs: set<nat>, drift: Drift, g: nat, bit: nat,
      isDir: bool)
    requires GeoOk(geo) && InodeSide(geo, d, groups, dirs, drift) && g < geo.groups && groups[g].freeInodes > 0
    ensures g < |drift.inodes| == |drift.dirs|
    ensures InodeSide(geo, d, groups[g := ClaimDesc(geo, groups[g], bit, isDir)], dirs, Charge(drift, g, isDir))
  {
    hide Zeros, DirsIn, IUsed, GeoOk, Tracked;
  }

  lemma HeldRefused(geo: Geo, d: Disk, groups: seq<GroupDesc>, held: map<nat, set<nat>>, g: nat, bit: nat, isDir: bool)
    requires GeoOk(geo) && HeldOk(geo, d, groups, held) && g < |groups|
    ensures HeldOk(geo, d, groups[g := ClaimDesc(geo, groups[g], bit, isDir)], held)
  {
    var groups' := groups[g := ClaimDesc(geo, groups[g], bit, isDir)];
    hide IUsed, GeoOk, BUsed, Free;
    assert forall i :: i in held ==> HeldIno(geo, d, groups', i);
  }

  /** What the chosen cell means as an inode number. */
  lemma Chosen(geo: Geo, d: Disk, groups: seq<GroupDesc>, g: nat, bit: nat)
    requires GeoOk(geo) && ShapedI(geo, d.ibm) && |groups| == geo.groups && g < geo.groups
    requires Candidate(geo, groups, d.ibm, g) && bit == FirstZero(d.ibm[g], 0, geo.iper)
    ensures
      var i := InoAt(geo, g, bit);
      && 0 < i && geo.firstIno <= i && InoGroup(geo, i) == g && InoBit(geo, i) == bit < geo.iper
      && !IUsed(geo, d.ibm, i) && groups[g].freeInodes > 0
      && (InoExists(geo, i) <==> i <= geo.icount)
  {
    CellOfIno(geo, g, bit);
    MulMono(g + 1, geo.groups, geo.iper);
  }

  lemma SideShape(geo: Geo, d: Disk, groups: seq<GroupDesc>, dirs: set<nat>, drift: Drift)
    requires GeoOk(geo) && InodeSide(geo, d, groups, dirs, drift)
    ensures ShapedI(geo, d.ibm) && |groups| == geo.groups && Tracked(geo, d, dirs)
  {
  }

  lemma NotInUse(geo: Geo, d: Disk, i: nat)
    requires GeoOk(geo) && !IUsed(geo, d.ibm, i)
    ensures !InUse(geo, d, i)
  {
  }

  lemma ClaimBlockSide(geo: Geo, groups: seq<GroupDesc>, i: nat, isDir: bool)
    requires GeoOk(geo) && 0 < i && InoGroup(geo, i) < |groups|
    ensures SameBlockSide(ClaimGroups(geo, groups, i, isDir), groups)
    ensures SameBlockSide(ReleaseGroups(geo, groups, i, isDir), groups)
    ensures
      SameBlockSide(groups[InoGroup(geo, i) := ClaimDesc(geo, groups[InoGroup(geo, i)], InoBit(geo, i), isDir)], groups)
    ensures forall g :: 0 <= g < |groups| && ClaimGroups(geo, groups, i, isDir)[g].inodeUninit ==>
      groups[g].inodeUninit && g != InoGroup(geo, i)
    ensures forall g :: 0 <= g < |groups| && ReleaseGroups(geo, groups, i, isDir)[g].inodeUninit ==>
      groups[g].inodeUninit
  {
    hide GeoOk;
  }
}
