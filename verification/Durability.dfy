/** Power loss under a write-back cache: everything before the last barrier is
    on the medium, and of what was written since, any subset. What
    `create_file` and `finish_file` (core/src/fs/ext4/file.rs) promise then. */
module Durability {
  import opened Bytes
  import opened DirChain
  import opened Ext4Disk
  import opened Ext4Bitmap
  import opened Ext4Data
  import opened Ext4Books
  import opened Ext4Writer
  import opened Ext4Stream

  /** How much of the log the last barrier made durable. */
  function Barrier(log: seq<Write>): (f: nat)
    ensures f <= |log|
    ensures 0 < f ==> log[f - 1].Flush?
    ensures forall k :: f <= k < |log| ==> !log[k].Flush?
  {
    if log == [] then 0 else if log[|log| - 1].Flush? then |log| else Barrier(log[..|log| - 1])
  }

  /** The writes of `log` that reach the medium if those in `keep` happen to. */
  ghost function Kept(log: seq<Write>, f: nat, keep: set<nat>): seq<Write> {
    if log == [] then []
    else
      var n := |log| - 1;
      Kept(log[..n], f, keep) + (if n < f || n in keep then [log[n]] else [])
  }

  /** The writes on the medium after power is lost with `n` writes issued. */
  ghost function Survivors(log: seq<Write>, n: nat, keep: set<nat>): seq<Write>
    requires n <= |log|
  {
    Kept(log[..n], Barrier(log[..n]), keep)
  }

  /** Write `p` of the log is on the medium then. */
  ghost predicate Durable(log: seq<Write>, n: nat, keep: set<nat>, p: nat)
    requires n <= |log|
  {
    p < n && (p < Barrier(log[..n]) || p in keep)
  }

  lemma {:induction false} KeptPrefix(log: seq<Write>, f: nat, keep: set<nat>)
    requires f <= |log|
    ensures Kept(log, f, keep) == log[..f] + Kept2(log, f, |log|, keep)
  {
    if |log| == f {
      KeptAll(log, f, keep);
      assert log[..f] == log && log + [] == log;
    } else {
      var n := |log| - 1;
      KeptPrefix(log[..n], f, keep);
      assert log[..n][..f] == log[..f];
      Kept2Frame(log, log[..n], f, n, keep);
      Assoc(log[..f], Kept2(log, f, n, keep), if n in keep then [log[n]] else []);
    }
  }

  lemma {:induction false} KeptAll(log: seq<Write>, f: nat, keep: set<nat>)
    requires |log| <= f
    ensures Kept(log, f, keep) == log
  {
    if log != [] {
      var n := |log| - 1;
      KeptAll(log[..n], f, keep);
      assert log == log[..n] + [log[n]];
    }
  }

  /** The kept writes among those from `a` to `b`. */
  ghost function Kept2(log: seq<Write>, a: nat, b: nat, keep: set<nat>): seq<Write>
    requires b <= |log|
    decreases b
  {
    if b <= a then [] else Kept2(log, a, b - 1, keep) + (if b - 1 in keep then [log[b - 1]] else [])
  }

  lemma {:induction false} Kept2Frame(log: seq<Write>, log': seq<Write>, a: nat, b: nat, keep: set<nat>)
    requires b <= |log| && b <= |log'| && log[..b] == log'[..b]
    ensures Kept2(log, a, b, keep) == Kept2(log', a, b, keep)
    decreases b
  {
    if a < b {
      assert log[..b - 1] == log[..b][..b - 1] == log'[..b - 1];
      assert log[b - 1] == log[..b][b - 1] == log'[b - 1];
      Kept2Frame(log, log', a, b - 1, keep);
    }
  }

  /** What survives is the log up to the barrier and a choice of the rest. */
  lemma SurvivorsAre(log: seq<Write>, n: nat, keep: set<nat>, f: nat)
    requires n <= |log| && f == Barrier(log[..n])
    ensures Survivors(log, n, keep) == log[..f] + Kept2(log, f, n, keep)
  {
    KeptPrefix(log[..n], f, keep);
    assert log[..n][..f] == log[..f];
    Kept2Frame(log, log[..n], f, n, keep);
  }

  // ----- a record behind a barrier -----

  /** Writes `log0`, `pre` without a barrier, a barrier, and then a record. */
  ghost predicate RecordBehind(log: seq<Write>, log0: seq<Write>, pre: seq<Write>, i: nat, rec: Record) {
    log0 + pre + [Flush] + [WInode(i, rec)] <= log && NoFlush(pre)
  }

  lemma RecordAt(log: seq<Write>, log0: seq<Write>, pre: seq<Write>, i: nat, rec: Record)
    requires RecordBehind(log, log0, pre, i, rec)
    ensures
      var p := |log0| + |pre| + 1;
      p < |log| && log[p] == WInode(i, rec) && log[p - 1] == Flush && log[..p] == log0 + pre + [Flush]
      && log[..p + 1] == log0 + pre + [Flush] + [WInode(i, rec)]
  {
    var p := |log0| + |pre| + 1;
    var h := log0 + pre + [Flush] + [WInode(i, rec)];
    assert log[..p + 1] == h;
    assert h[..p] == log0 + pre + [Flush];
    assert log[..p] == log[..p + 1][..p];
    assert h[p] == WInode(i, rec) && h[p - 1] == Flush;
  }

  lemma BarrierAt(log: seq<Write>, n: nat, p: nat)
    requires p < n <= |log| && log[p].Flush? && forall k :: p < k < n ==> !log[k].Flush?
    ensures Barrier(log[..n]) == p + 1
  {
    var f := Barrier(log[..n]);
    assert log[..n][p] == log[p];
  }

  // ----- create_file -----

  /** Power lost anywhere in a successful `create_file`: a durable name means a
      durable record, and with the record everything written before it. */
  lemma CreateSurvives(fs: Ext4, log0: seq<Write>, pre: seq<Write>, i: nat, rec: Record, data: seq<byte>, n: nat,
      keep: set<nat>)
    requires fs.History() && fs.CreateTrace(log0, fs.log, pre, i, rec) && fs.Recorded(log0, pre, i, rec, data)
    requires NewFile(fs.geo, fs.disk, rec, data) && InUse(fs.geo, fs.disk, i) && fs.disk.inodes[i] == rec
    requires n <= |fs.log|
    ensures
      var d := Replay(fs.base, Survivors(fs.log, n, keep));
      var p := |log0| + |pre| + 1;
      && (Durable(fs.log, n, keep, |fs.log| - 1) ==> Durable(fs.log, n, keep, p) && d == fs.disk)
      && (Durable(fs.log, n, keep, p) ==> NewFile(fs.geo, d, rec, data) && InUse(fs.geo, d, i) && d.inodes[i] == rec)
  {
    hide CrashSafe, SafeHistory, GeoOk, NewFile, InUse, Replay, Kept2, Kept, Barrier;
    var log, p := fs.log, |log0| + |pre| + 1;
    CreateShape(fs, log0, log, pre, i, rec);
    RecordAt(log, log0, pre, i, rec);
    if Durable(log, n, keep, p) {
      var s := Survivors(log, n, keep);
      AfterRecord(log, n, keep, p);
      if n == p + 1 || n == p + 2 {
        FlushNothing(fs.base, log, p + 1);
        assert s == log[..n];
      } else {
        BarrierAt(log, n, p + 1);
        SurvivorsAre(log, n, keep, p + 2);
        LastKept(log, p + 2, keep);
        FlushNothing(fs.base, log, p + 1);
        assert log[..|log|] == log;
      }
    }
    if Durable(log, n, keep, |log| - 1) {
      BarrierAt(log, n, p + 1);
    }
  }

  lemma CreateShape(fs: Ext4, log0: seq<Write>, log: seq<Write>, pre: seq<Write>, i: nat, rec: Record)
    requires fs.CreateTrace(log0, log, pre, i, rec)
    ensures
      var p := |log0| + |pre| + 1;
      && RecordBehind(log, log0, pre, i, rec) && |log| == p + 3 && log[p + 1] == Flush && !log[p + 2].Flush?
      && !log[p].Flush?
  {
    var p := |log0| + |pre| + 1;
    var a := log0 + pre + [Flush] + [WInode(i, rec)];
    var h := a + [Flush];
    assert log[..|log| - 1] == h;
    assert h[p + 1] == Flush && h[p] == WInode(i, rec);
    assert log[..p + 1] == h[..p + 1] == a;
  }

  /** Nothing between a barrier and a durable write was lost. */
  lemma AfterRecord(log: seq<Write>, n: nat, keep: set<nat>, p: nat)
    requires 0 < p < n <= |log| && log[p - 1].Flush? && !log[p].Flush? && Durable(log, n, keep, p)
    ensures n == p + 1 ==> Survivors(log, n, keep) == log[..n]
    ensures n == p + 2 && log[p + 1].Flush? ==> Survivors(log, n, keep) == log[..n]
  {
    hide Kept;
    if n == p + 1 {
      BarrierAt(log, n, p - 1);
      SurvivorsAre(log, n, keep, p);
      Kept2One(log, p, keep);
      assert log[..p + 1] == log[..p] + [log[p]];
    } else if n == p + 2 && log[p + 1].Flush? {
      BarrierAt(log, n, p + 1);
      SurvivorsAre(log, n, keep, p + 2);
      assert log[..n] + [] == log[..n];
    }
  }

  lemma Kept2One(log: seq<Write>, p: nat, keep: set<nat>)
    requires p < |log|
    ensures Kept2(log, p, p + 1, keep) == if p in keep then [log[p]] else []
  {
    assert Kept2(log, p, p, keep) == [];
  }

  lemma FlushNothing(base: Disk, log: seq<Write>, p: nat)
    requires p < |log| && log[p].Flush?
    ensures Replay(base, log[..p + 1]) == Replay(base, log[..p])
  {
    assert log[..p + 1][..p] == log[..p];
  }

  lemma LastKept(log: seq<Write>, f: nat, keep: set<nat>)
    requires |log| == f + 1
    ensures log[..f] + Kept2(log, f, f + 1, keep) == if f in keep then log else log[..f]
  {
    Kept2One(log, f, keep);
    assert log == log[..f] + [log[f]];
    assert log[..f] + [] == log[..f];
  }

  // ----- finish_file -----

  /** `finish_file` has no barrier between record and name, but it has the one
      before the record: a durable record still brings everything it names. */
  lemma FinishSurvives(fs: Ext4, log0: seq<Write>, pre: seq<Write>, i: nat, rec: Record, data: seq<byte>, n: nat,
      keep: set<nat>)
    requires fs.History() && FinishTrace(log0, fs.log, pre, i, rec) && fs.Recorded(log0, pre, i, rec, data)
    requires NewFile(fs.geo, fs.disk, rec, data) && InUse(fs.geo, fs.disk, i) && fs.disk.inodes[i] == rec
    requires n <= |fs.log|
    ensures
      var d := Replay(fs.base, Survivors(fs.log, n, keep));
      Durable(fs.log, n, keep, |log0| + |pre| + 1) ==>
        NewFile(fs.geo, d, rec, data) && InUse(fs.geo, d, i) && d.inodes[i] == rec
  {
    hide CrashSafe, SafeHistory, GeoOk, NewFile, InUse, Replay, Kept2, Kept, Barrier;
    var log, p := fs.log, |log0| + |pre| + 1;
    FinishShape(log0, log, pre, i, rec);
    RecordAt(log, log0, pre, i, rec);
    if Durable(log, n, keep, p) {
      AfterRecord(log, n, keep, p);
      if n == p + 2 {
        BarrierAt(log, n, p - 1);
        SurvivorsAre(log, n, keep, p);
        LastTwo(log, p, keep);
        assert log[..|log|] == log;
      }
    }
  }

  lemma FinishShape(log0: seq<Write>, log: seq<Write>, pre: seq<Write>, i: nat, rec: Record)
    requires FinishTrace(log0, log, pre, i, rec)
    ensures
      var p := |log0| + |pre| + 1;
      RecordBehind(log, log0, pre, i, rec) && |log| == p + 2 && log[p + 1].WBlock? && !log[p].Flush?
  {
    var p := |log0| + |pre| + 1;
    var a := log0 + pre + [Flush] + [WInode(i, rec)];
    assert log[..p + 1] == a && a[p] == WInode(i, rec);
    assert log[p] == log[..p + 1][p];
  }

  lemma LastTwo(log: seq<Write>, p: nat, keep: set<nat>)
    requires |log| == p + 2
    ensures
      log[..p] + Kept2(log, p, p + 2, keep)
      == if p in keep then (if p + 1 in keep then log else log[..p + 1])
         else (if p + 1 in keep then log[..p] + [log[p + 1]] else log[..p])
  {
    Kept2One(log, p, keep);
    assert log[..p + 1] == log[..p] + [log[p]];
    assert log == log[..p] + [log[p]] + [log[p + 1]];
    Assoc(log[..p], [log[p]], [log[p + 1]]);
    assert log[..p] + [] == log[..p];
  }

  /** Power lost from the barrier of `finish_file` on: the medium is consistent
      unless the cache kept the name and lost the record, and then, for every
      file finished this way, the entry names an inode that is not in use. */
  lemma FinishDangles(fs: Ext4, log0: seq<Write>, pre: seq<Write>, i: nat, rec: Record, dir: nat, e: Entry, n: nat,
      keep: set<nat>)
    requires fs.History() && FinishTrace(log0, fs.log, pre, i, rec)
    requires !InUse(fs.geo, Replay(fs.base, log0 + pre + [Flush]), i)
    requires HasEntry(fs.geo, fs.disk, dir, e) && e.ino == i && dir != i && |log0| + |pre| < n <= |fs.log|
    ensures
      var d := Replay(fs.base, Survivors(fs.log, n, keep));
      var lost := n == |fs.log| && |fs.log| - 1 in keep && |fs.log| - 2 !in keep;
      && (CrashSafe(fs.geo, d) <==> !lost)
      && (HasEntry(fs.geo, d, dir, e) && !InUse(fs.geo, d, e.ino) <==> lost)
  {
    hide CrashSafe, SafeHistory, GeoOk, InUse, HasEntry, Kept2, Kept, Barrier, Replay, Survivors, FinishTrace,
      RecordBehind;
    var log, p := fs.log, |log0| + |pre| + 1;
    FinishShape(log0, log, pre, i, rec);
    RecordAt(log, log0, pre, i, rec);
    FinishOutcome(log, p, n, keep);
    FinishCase(fs, p, i, rec, dir, e, Survivors(log, n, keep), n == p + 2 && p + 1 in keep && p !in keep);
  }

  lemma FinishCase(fs: Ext4, p: nat, i: nat, rec: Record, dir: nat, e: Entry, s: seq<Write>, lost: bool)
    requires fs.History() && |fs.log| == p + 2 && fs.log[p] == WInode(i, rec) && fs.log[p + 1].WBlock?
    requires !InUse(fs.geo, Replay(fs.base, fs.log[..p]), i) && HasEntry(fs.geo, fs.disk, dir, e) && e.ino == i
    requires dir != i
    requires if lost then s == fs.log[..p] + [fs.log[p + 1]] else s <= fs.log
    ensures
      var d := Replay(fs.base, s);
      && (CrashSafe(fs.geo, d) <==> !lost)
      && (HasEntry(fs.geo, d, dir, e) && !InUse(fs.geo, d, e.ino) <==> lost)
  {
    hide CrashSafe, SafeHistory, GeoOk, InUse, HasEntry, Replay;
    if lost {
      NameOnly(fs, fs.log, p, i, rec, dir, e);
    } else {
      PrefixSafe(fs, s);
      if HasEntry(fs.geo, Replay(fs.base, s), dir, e) && !InUse(fs.geo, Replay(fs.base, s), e.ino) {
        NotSafe(fs.geo, Replay(fs.base, s), dir, e);
      }
    }
  }

  lemma PrefixSafe(fs: Ext4, s: seq<Write>)
    requires fs.History() && s <= fs.log
    ensures CrashSafe(fs.geo, Replay(fs.base, s))
  {
    hide CrashSafe, GeoOk, Replay;
    assert s == fs.log[..|s|];
  }

  /** What is left of a `finish_file` cut at or after its barrier. */
  lemma FinishOutcome(log: seq<Write>, p: nat, n: nat, keep: set<nat>)
    requires 0 < p && |log| == p + 2 && log[p - 1].Flush? && !log[p].Flush? && !log[p + 1].Flush? && p <= n <= |log|
    ensures
      var s := Survivors(log, n, keep);
      if n == p + 2 && p + 1 in keep && p !in keep then s == log[..p] + [log[p + 1]] else s <= log
  {
    hide Kept, Barrier;
    BarrierAt(log, n, p - 1);
    SurvivorsAre(log, n, keep, p);
    if n == p + 2 {
      hide Kept2;
      LastTwo(log, p, keep);
    } else if n == p + 1 {
      Kept2One(log, p, keep);
    }
  }

  lemma NameOnly(fs: Ext4, log: seq<Write>, p: nat, i: nat, rec: Record, dir: nat, e: Entry)
    requires fs.History() && log == fs.log && |log| == p + 2 && log[p] == WInode(i, rec) && log[p + 1].WBlock?
    requires !InUse(fs.geo, Replay(fs.base, log[..p]), i) && HasEntry(fs.geo, fs.disk, dir, e) && e.ino == i && dir != i
    ensures
      var d := Replay(fs.base, log[..p] + [log[p + 1]]);
      HasEntry(fs.geo, d, dir, e) && !InUse(fs.geo, d, i) && !CrashSafe(fs.geo, d)
  {
    hide CrashSafe, SafeHistory, GeoOk, IUsed, EntriesOf;
    var a := Replay(fs.base, log[..p]);
    var x := log[..p] + [log[p + 1]];
    assert x[..p] == log[..p];
    var d := Replay(fs.base, x);
    assert d == Apply(a, log[p + 1]);
    assert log[..p + 1][..p] == log[..p] && log[..p + 1][p] == log[p];
    assert Replay(fs.base, log[..p + 1]) == Apply(a, log[p]);
    assert log[..|log| - 1] == log[..p + 1];
    assert fs.disk == Apply(Apply(a, log[p]), log[p + 1]);
    assert d.blocks == fs.disk.blocks && d.inodes[dir] == fs.disk.inodes[dir];
    NotSafe(fs.geo, d, dir, e);
  }

  lemma NotSafe(geo: Geo, d: Disk, dir: nat, e: Entry)
    requires GeoOk(geo) && HasEntry(geo, d, dir, e) && !InUse(geo, d, e.ino)
    ensures !CrashSafe(geo, d)
  {
  }

  // ----- create_file refused at its name -----

  lemma {:induction false} ReplayConcat(d: Disk, a: seq<Write>, b: seq<Write>)
    ensures Replay(d, a + b) == Replay(Replay(d, a), b)
  {
    if b == [] {
      assert a + b == a;
    } else {
      assert (a + b)[..|a + b| - 1] == a + b[..|b| - 1];
      ReplayConcat(d, a, b[..|b| - 1]);
    }
  }

  /** The effect of bitmap and counter writes on the block bitmap depends on
      the block bitmap alone. */
  lemma {:induction false} BlockSideReplay(x: Disk, y: Disk, ws: seq<Write>)
    requires BlockSide(ws) && x.bbm == y.bbm
    ensures Replay(x, ws).bbm == Replay(y, ws).bbm
    ensures Replay(x, ws).inodes == x.inodes && Replay(x, ws).ibm == x.ibm && Replay(x, ws).blocks == x.blocks
  {
    if ws != [] {
      var p := ws[..|ws| - 1];
      BlockSideReplay(x, y, p);
      var w := ws[|ws| - 1];
      assert w.WBlockBitmap? || w.WGroupDesc? || w.WSuper?;
    }
  }

  /** Releasing an inode leaves the block bitmaps alone. */
  lemma IdleReplay(d: Disk, i: nat, s1: seq<Write>)
    requires IdleOut(i, s1)
    ensures Replay(d, s1).bbm == d.bbm && NoFlush(s1)
  {
    var a, b, c := s1[..3], s1[..2], s1[..1];
    assert a[..2] == b && b[..1] == c && c[..0] == [];
    assert a[2] == s1[2] && b[1] == s1[1] && c[0] == s1[0];
    assert Replay(d, c) == Apply(Replay(d, []), s1[0]);
    assert Replay(d, b) == Apply(Replay(d, c), s1[1]);
    assert Replay(d, a) == Apply(Replay(d, b), s1[2]);
  }

  /** The outcome that loses the erased record but keeps the freed bitmap. */
  lemma RefusedOutcome(fs: Ext4, log0: seq<Write>, log1: seq<Write>, pre: seq<Write>, i: nat, rec: Record,
      data: seq<byte>, s1: seq<Write>, s2: seq<Write>)
    returns (n: nat, keep: set<nat>)
    requires GeoOk(fs.geo) && fs.Refused(log0, log1, pre, i, rec, data, s1, s2)
    ensures n <= |log1|
    ensures
      var mid := Replay(fs.base, log0 + pre + [Flush] + [WInode(i, rec)]);
      var d := Replay(fs.base, Survivors(log1, n, keep));
      && InUse(fs.geo, d, i) && d.inodes[i] == rec && NamedBy(d.blocks, rec) == NamedBy(mid.blocks, rec)
      && forall b :: b in NamedBy(mid.blocks, rec) ==> !BUsed(fs.geo, d.bbm, b)
  {
    hide GeoOk, IUsed, NamedBy, BUsed, NewFile, Kept, Kept2, Barrier, Replay, IdleOut, CommitOrdered;
    var a := log0 + pre + [Flush] + [WInode(i, rec)];
    var l := a + [Flush];
    var mid := Replay(fs.base, a);
    n := |l| + |s1| + |s2|;
    keep := Range(|l| + |s1|, n);
    IdleReplay(mid, i, s1);
    if s2 != [] { CommitBlockSide(s2); }
    BlockSideNoFlush(s2);
    UndoCut(l, s1, s2, log1, n);
    BarrierAt(log1, n, |l| - 1);
    SurvivorsAre(log1, n, keep, |l|);
    KeepTail(log1, |l|, |l| + |s1|, n, keep, s2);
    FlushNothing(fs.base, l, |a|);
    assert l[..|a|] == a && l[..|a| + 1] == l;
    ReplayConcat(fs.base, l, s2);
    ReplayConcat(fs.base, l + s1, s2);
    ReplayConcat(fs.base, l, s1);
    FlushSame(fs.base, l + s1 + s2);
    BlockSideReplay(mid, Replay(fs.base, l + s1), s2);
  }

  ghost function Range(a: nat, b: nat): (r: set<nat>)
    ensures forall k :: k in r <==> a <= k < b
  {
    if b <= a then {} else Range(a, b - 1) + {b - 1}
  }

  lemma UndoCut(l: seq<Write>, s1: seq<Write>, s2: seq<Write>, log1: seq<Write>, n: nat)
    requires log1 == l + s1 + s2 + [Flush] && n == |l| + |s1| + |s2| && NoFlush(s1) && NoFlush(s2) && l != []
    requires l[|l| - 1].Flush?
    ensures n <= |log1| && log1[..|l|] == l && log1[|l| - 1].Flush? && (forall k :: |l| <= k < n ==> !log1[k].Flush?)
    ensures log1[|l| + |s1|..n] == s2
  {
    forall k | |l| <= k < n ensures !log1[k].Flush? {
      assert log1[k] == if k < |l| + |s1| then s1[k - |l|] else s2[k - |l| - |s1|];
    }
  }

  lemma {:induction false} KeepTail(log: seq<Write>, f: nat, m: nat, n: nat, keep: set<nat>, s: seq<Write>)
    requires f <= m <= n <= |log| && log[m..n] == s && forall k :: f <= k < n ==> (k in keep <==> m <= k)
    ensures Kept2(log, f, n, keep) == s
    decreases n
  {
    if n > m {
      KeepTail(log, f, m, n - 1, keep, log[m..n - 1]);
      assert log[m..n] == log[m..n - 1] + [log[n - 1]];
    } else if n > f {
      assert log[m..m] == [];
      assert log[m - 1..m - 1] == [];
      KeepNone(log, f, n, keep);
    }
  }

  lemma {:induction false} KeepNone(log: seq<Write>, f: nat, n: nat, keep: set<nat>)
    requires f <= n <= |log| && forall k :: f <= k < n ==> k !in keep
    ensures Kept2(log, f, n, keep) == []
    decreases n
  {
    if n > f { KeepNone(log, f, n - 1, keep); }
  }

  /** A record that names no block is complete on any medium. */
  lemma EmptyFile(geo: Geo, mid: Disk, d: Disk, rec: Record, data: seq<byte>)
    requires GeoOk(geo) && NewFile(geo, mid, rec, data) && NamedBy(mid.blocks, rec) == []
    ensures NewFile(geo, d, rec, data)
  {
    hide GeoOk;
    GeoSize(geo);
    match rec.tree
    case Indexed(leaves) => assert leaves == [];
    case _ =>
    assert DataOf(mid.blocks, rec) == [] && DataOf(d.blocks, rec) == [];
    FileBytesFrame(mid.blocks, d.blocks, [], geo.blockSize, rec.size);
  }

  /** A refused `create_file` leaves a record that stands only with everything
      it names, whatever the cache kept, exactly if it was given no data. */
  lemma RefusedSafeIff(fs: Ext4, log0: seq<Write>, log1: seq<Write>, pre: seq<Write>, i: nat, rec: Record,
      data: seq<byte>, s1: seq<Write>, s2: seq<Write>)
    requires GeoOk(fs.geo) && fs.Refused(log0, log1, pre, i, rec, data, s1, s2)
    ensures AlwaysWhole(fs.geo, fs.base, log1, i, rec, data) <==> data == []
  {
    hide GeoOk, IUsed, NamedBy, BUsed, NewFile, Kept, Replay, CommitOrdered, StandsWhole, Survivors;
    var mid := Replay(fs.base, log0 + pre + [Flush] + [WInode(i, rec)]);
    if NamedBy(mid.blocks, rec) == [] {
      forall n: nat, keep | n <= |log1|
        ensures StandsWhole(fs.geo, Replay(fs.base, Survivors(log1, n, keep)), i, rec, data)
      {
        EmptyFile(fs.geo, mid, Replay(fs.base, Survivors(log1, n, keep)), rec, data);
        WholeStands(fs.geo, Replay(fs.base, Survivors(log1, n, keep)), i, rec, data);
      }
    } else {
      var n, keep := RefusedOutcome(fs, log0, log1, pre, i, rec, data, s1, s2);
      var b := NamedBy(mid.blocks, rec)[0];
      assert b in NamedBy(mid.blocks, rec);
      NotWhole(fs.geo, Replay(fs.base, Survivors(log1, n, keep)), i, rec, data, b);
    }
  }

  /** Wherever power is lost and whatever the cache kept. */
  ghost predicate AlwaysWhole(geo: Geo, base: Disk, log: seq<Write>, i: nat, rec: Record, data: seq<byte>)
    requires GeoOk(geo)
  {
    forall n: nat, keep :: n <= |log| ==> StandsWhole(geo, Replay(base, Survivors(log, n, keep)), i, rec, data)
  }

  lemma WholeStands(geo: Geo, d: Disk, i: nat, rec: Record, data: seq<byte>)
    requires GeoOk(geo) && NewFile(geo, d, rec, data)
    ensures StandsWhole(geo, d, i, rec, data)
  {
  }

  /** If the record is there, so is everything it names. */
  ghost predicate StandsWhole(geo: Geo, d: Disk, i: nat, rec: Record, data: seq<byte>)
    requires GeoOk(geo)
  {
    InUse(geo, d, i) && d.inodes[i] == rec ==> NewFile(geo, d, rec, data)
  }

  lemma NotWhole(geo: Geo, d: Disk, i: nat, rec: Record, data: seq<byte>, b: nat)
    requires GeoOk(geo) && InUse(geo, d, i) && d.inodes[i] == rec && b in NamedBy(d.blocks, rec)
    requires !BUsed(geo, d.bbm, b)
    ensures !StandsWhole(geo, d, i, rec, data)
  {
    hide GeoOk, IUsed, NamedBy, BUsed, FileBytes, DataOf;
  }
}
