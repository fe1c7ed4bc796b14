/** Recursive deletion, `delete_file_at_depth` (core/src/fs/ext4/mod.rs):
    a successful call removes exactly the inodes below the target. */
module Ext4Delete {
  import opened Bytes
  import opened Extents
  import opened DirChain
  import opened Ext4Disk
  import opened Ext4Steps
  import opened Ext4Bitmap
  import opened Ext4Inodes
  import opened Ext4Books
  import opened Ext4Writer
  import opened Ext4Names

  const MAX_DELETE_DEPTH := 1024

  // ----- the subtree under an inode -----

  /** `j` is reached from `t` by following at most `n` entries. */
  ghost predicate Reach(geo: Geo, d: Disk, t: nat, j: nat, n: nat)
    requires GeoOk(geo)
    decreases n
  {
    j == t || (n > 0 && exists e :: HasEntry(geo, d, t, e) && Reach(geo, d, e.ino, j, n - 1))
  }

  /** `j` is `t` or lies in the subtree under it. */
  ghost predicate Below(geo: Geo, d: Disk, t: nat, j: nat)
    requires GeoOk(geo)
  {
    exists n: nat :: Reach(geo, d, t, j, n)
  }

  lemma BelowSelf(geo: Geo, d: Disk, t: nat)
    requires GeoOk(geo)
    ensures Below(geo, d, t, t)
  {
    assert Reach(geo, d, t, t, 0);
  }

  lemma BelowChild(geo: Geo, d: Disk, t: nat, e: Entry, j: nat)
    requires GeoOk(geo) && HasEntry(geo, d, t, e) && Below(geo, d, e.ino, j)
    ensures Below(geo, d, t, j)
  {
    var n: nat :| Reach(geo, d, e.ino, j, n);
    assert Reach(geo, d, t, j, n + 1);
  }

  lemma BelowSplit(geo: Geo, d: Disk, t: nat, j: nat) returns (e: Entry)
    requires GeoOk(geo) && Below(geo, d, t, j) && j != t
    ensures HasEntry(geo, d, t, e) && Below(geo, d, e.ino, j)
  {
    hide HasEntry;
    var n: nat :| Reach(geo, d, t, j, n);
    e :| HasEntry(geo, d, t, e) && Reach(geo, d, e.ino, j, n - 1);
  }

  lemma {:induction false} ReachAppend(geo: Geo, d: Disk, c: nat, p: nat, n: nat, e: Entry)
    requires GeoOk(geo) && Reach(geo, d, c, p, n) && HasEntry(geo, d, p, e)
    ensures Reach(geo, d, c, e.ino, n + 1)
    decreases n
  {
    hide HasEntry;
    if p == c {
      assert Reach(geo, d, e.ino, e.ino, n);
    } else {
      var f :| HasEntry(geo, d, c, f) && Reach(geo, d, f.ino, p, n - 1);
      ReachAppend(geo, d, f.ino, p, n - 1, e);
    }
  }

  /** A subtree only shrinks when entries disappear. */
  lemma {:induction false} ReachMono(geo: Geo, d: Disk, d': Disk, t: nat, j: nat, n: nat)
    requires GeoOk(geo) && Reach(geo, d, t, j, n)
    requires forall x, e :: HasEntry(geo, d, x, e) ==> HasEntry(geo, d', x, e)
    ensures Reach(geo, d', t, j, n)
    decreases n
  {
    hide HasEntry;
    if j != t {
      var e :| HasEntry(geo, d, t, e) && Reach(geo, d, e.ino, j, n - 1);
      ReachMono(geo, d, d', e.ino, j, n - 1);
    }
  }

  lemma BelowMono(geo: Geo, d: Disk, d': Disk, t: nat, j: nat)
    requires GeoOk(geo) && Below(geo, d, t, j)
    requires forall x, e :: HasEntry(geo, d, x, e) ==> HasEntry(geo, d', x, e)
    ensures Below(geo, d', t, j)
  {
    hide HasEntry;
    var n: nat :| Reach(geo, d, t, j, n);
    ReachMono(geo, d, d', t, j, n);
  }

  /** A path of `d` from a place below `c` in `d'`, none of whose stops lost
      an entry, is a path of `d'`. */
  lemma {:induction false} Follow(geo: Geo, d: Disk, d': Disk, c: nat, p: nat, m: nat, j: nat, n: nat)
    requires GeoOk(geo) && Reach(geo, d', c, p, m) && Reach(geo, d, p, j, n)
    requires forall x, e :: Below(geo, d', c, x) && HasEntry(geo, d, x, e) ==> HasEntry(geo, d', x, e)
    ensures Below(geo, d', c, j)
    decreases n
  {
    hide HasEntry;
    if j != p {
      var e :| HasEntry(geo, d, p, e) && Reach(geo, d, e.ino, j, n - 1);
      assert Below(geo, d', c, p);
      ReachAppend(geo, d', c, p, m, e);
      Follow(geo, d, d', c, e.ino, m + 1, j, n - 1);
    }
  }

  // ----- what a deletion leaves -----

  /** Whether or not it succeeds, deleting `name`, which names `t`, from `dir`
      adds nothing and leaves everything outside the subtree alone. */
  ghost predicate Cut(geo: Geo, d: Disk, d': Disk, dir: nat, name: Name, t: nat)
    requires GeoOk(geo)
  {
    && (forall j :: InUse(geo, d', j) ==> InUse(geo, d, j))
    && (forall j, f :: HasEntry(geo, d', j, f) ==> HasEntry(geo, d, j, f))
    && (forall j :: InUse(geo, d, j) && j != dir && !Below(geo, d, t, j) ==> Same(geo, d, d', j))
    && (!Below(geo, d, t, dir) ==>
          && IsDir(geo, d', dir)
          && forall f: Entry :: f.name != name ==> HasEntry(geo, d', dir, f) == HasEntry(geo, d, dir, f))
  }

  /** A successful deletion removes exactly the subtree and its name. */
  ghost predicate Deleted(geo: Geo, d: Disk, d': Disk, dir: nat, name: Name, t: nat)
    requires GeoOk(geo)
  {
    && (forall j :: InUse(geo, d', j) <==> InUse(geo, d, j) && !Below(geo, d, t, j))
    && (forall j :: InUse(geo, d', j) && j != dir ==> Same(geo, d, d', j))
    && IsDir(geo, d, dir) && IsDir(geo, d', dir) && t in d.inodes && d.inodes[t].Inode?
    && d'.inodes[dir] == d.inodes[dir].(links := d'.inodes[dir].links)
    && d'.inodes[dir].links == d.inodes[dir].links - (if d.inodes[t].kind == Dir then 1 else 0)
    && DataOf(d'.blocks, d'.inodes[dir]) == DataOf(d.blocks, d.inodes[dir])
    && (forall f :: HasEntry(geo, d', dir, f) <==> HasEntry(geo, d, dir, f) && f.name != name)
  }

  /** How many of the entries are directories. */
  ghost function SubDirs(d: Disk, es: seq<Entry>): nat {
    if es == [] then 0 else SubDirs(d, es[..|es| - 1]) + (if DirAt(d, es[|es| - 1].ino) then 1 else 0)
  }

  predicate DirAt(d: Disk, i: nat) { i in d.inodes && d.inodes[i].Inode? && d.inodes[i].kind == Dir }

  /** The link count of `t` does not allow for taking out all its directories. */
  ghost predicate LinksShort(geo: Geo, d: Disk, t: nat)
    requires GeoOk(geo)
  {
    IsDir(geo, d, t) && !(SubDirs(d, Listed(EntriesOf(d.blocks, d.inodes[t]))) <= d.inodes[t].links <= U16_LIMIT)
  }

  /** Why deleting the entry `e` of `dir` may fail: it cannot be taken out even
      if nothing is in it, it contains the directory, or something is in it and
      lies too deep, outnumbers its links or cannot be deleted itself. */
  ghost predicate Blocked(geo: Geo, d: Disk, gs: seq<GroupDesc>, dir: nat, e: Entry, n: nat)
    requires GeoOk(geo)
    decreases n
  {
    || (InUse(geo, d, e.ino) && InUse(geo, d, dir) && Attached(geo, d, gs, dir, e.name, e.ino))
    || Below(geo, d, e.ino, dir)
    || exists f ::
         HasEntry(geo, d, e.ino, f) && (n == 0 || LinksShort(geo, d, e.ino) || Blocked(geo, d, gs, e.ino, f, n - 1))
  }

  /** After the first `k` of `t`'s entries `es` were deleted. */
  ghost predicate Emptying(geo: Geo, d: Disk, d': Disk, t: nat, es: seq<Entry>, k: nat)
    requires GeoOk(geo)
  {
    && k <= |es| && InUse(geo, d, t) && InUse(geo, d', t) && d'.inodes[t] == d.inodes[t].(links := d'.inodes[t].links)
    && d'.inodes[t].links == d.inodes[t].links - SubDirs(d, es[..k])
    && DataOf(d'.blocks, d'.inodes[t]) == DataOf(d.blocks, d.inodes[t])
    && (forall j :: InUse(geo, d', j) <==> InUse(geo, d, j) && forall m :: 0 <= m < k ==> !Below(geo, d, es[m].ino, j))
    && (forall j :: InUse(geo, d', j) && j != t ==> Same(geo, d, d', j))
    && (forall f :: HasEntry(geo, d', t, f) <==> f in es[k..])
    && (forall f :: HasEntry(geo, d, t, f) <==> f in es)
  }

  lemma SameEntries(geo: Geo, d: Disk, d': Disk, j: nat)
    requires GeoOk(geo) && Same(geo, d, d', j)
    ensures forall f :: HasEntry(geo, d', j, f) == HasEntry(geo, d, j, f)
  {
    hide GeoOk, IUsed, EntriesOf, NamedBy;
  }

  lemma EmptyingShrinks(geo: Geo, d: Disk, d': Disk, t: nat, es: seq<Entry>, k: nat)
    requires GeoOk(geo) && Emptying(geo, d, d', t, es, k)
    ensures forall j, f :: HasEntry(geo, d', j, f) ==> HasEntry(geo, d, j, f)
  {
    hide GeoOk, Below, Same, EntriesOf, IUsed;
    forall j, f | HasEntry(geo, d', j, f) ensures HasEntry(geo, d, j, f) {
      if j == t {
        assert f in es[k..];
      } else {
        SameEntries(geo, d, d', j);
      }
    }
  }

  /** What is below the next entry does not change while its siblings go. */
  lemma StillBelow(geo: Geo, d: Disk, d': Disk, t: nat, es: seq<Entry>, k: nat, c: nat, j: nat)
    requires GeoOk(geo) && CrashSafe(geo, d') && Emptying(geo, d, d', t, es, k) && !Below(geo, d', c, t)
    requires InUse(geo, d', c)
    ensures Below(geo, d', c, j) == Below(geo, d, c, j)
  {
    hide GeoOk, CrashSafe, HasEntry, Emptying, Same, InUse, Reach;
    EmptyingShrinks(geo, d, d', t, es, k);
    if Below(geo, d', c, j) {
      BelowMono(geo, d', d, c, j);
    }
    if Below(geo, d, c, j) {
      var n: nat :| Reach(geo, d, c, j, n);
      forall x, e | Below(geo, d', c, x) && HasEntry(geo, d, x, e) ensures HasEntry(geo, d', x, e) {
        AliveBelow(geo, d', c, x);
        SurvivorSame(geo, d, d', t, es, k, x);
        SameEntries(geo, d, d', x);
      }
      ReachSelf(geo, d', c);
      Follow(geo, d, d', c, c, 0, j, n);
    }
  }

  lemma ReachSelf(geo: Geo, d: Disk, c: nat)
    requires GeoOk(geo)
    ensures Reach(geo, d, c, c, 0)
  {
  }

  lemma SurvivorSame(geo: Geo, d: Disk, d': Disk, t: nat, es: seq<Entry>, k: nat, x: nat)
    requires GeoOk(geo) && Emptying(geo, d, d', t, es, k) && InUse(geo, d', x) && x != t
    ensures Same(geo, d, d', x)
  {
  }

  /** Everything below an in-use inode is in use. */
  lemma AliveBelow(geo: Geo, d: Disk, c: nat, x: nat)
    requires GeoOk(geo) && CrashSafe(geo, d) && InUse(geo, d, c) && Below(geo, d, c, x)
    ensures InUse(geo, d, x)
  {
    hide GeoOk, CrashSafe, InUse, Reach;
    var n: nat :| Reach(geo, d, c, x, n);
    AliveReach(geo, d, c, x, n);
  }

  lemma {:induction false} AliveReach(geo: Geo, d: Disk, c: nat, x: nat, n: nat)
    requires GeoOk(geo) && CrashSafe(geo, d) && InUse(geo, d, c) && Reach(geo, d, c, x, n)
    ensures InUse(geo, d, x)
    decreases n
  {
    hide GeoOk, CrashSafe, HasEntry, InUse;
    if x != c {
      var e :| HasEntry(geo, d, c, e) && Reach(geo, d, e.ino, x, n - 1);
      EntryOf(geo, d, c, e);
      AliveReach(geo, d, e.ino, x, n - 1);
    }
  }

  /** One more entry was deleted. */
  lemma EmptyingStep(geo: Geo, d: Disk, d1: Disk, d2: Disk, t: nat, es: seq<Entry>, k: nat)
    requires GeoOk(geo) && CrashSafe(geo, d1) && Emptying(geo, d, d1, t, es, k) && k < |es| && DistinctNames(es)
    requires Deleted(geo, d1, d2, t, es[k].name, es[k].ino)
    ensures Emptying(geo, d, d2, t, es, k + 1)
  {
    hide GeoOk, CrashSafe, HasEntry, IUsed, Below, Intact, DistinctNames, SubDirs, DataOf;
    var c := es[k].ino;
    assert es[k] in es[k..];
    EntryOf(geo, d1, t, es[k]);
    assert !Below(geo, d1, c, t);
    forall j ensures Below(geo, d1, c, j) == Below(geo, d, c, j) {
      StillBelow(geo, d, d1, t, es, k, c, j);
    }
    forall j | InUse(geo, d2, j) && j != t ensures Same(geo, d, d2, j) {
      assert Same(geo, d, d1, j) && Same(geo, d1, d2, j);
      IntactTrans(d.blocks, d1.blocks, d2.blocks, d.inodes[j]);
    }
    RestWithout(es, k);
    assert forall f :: HasEntry(geo, d2, t, f) <==> f in es[k + 1..];
    BelowSelf(geo, d1, c);
    SurvivorSame(geo, d, d1, t, es, k, c);
    SubDirsNext(d, es, k);
  }

  lemma SubDirsNext(d: Disk, es: seq<Entry>, k: nat)
    requires k < |es|
    ensures SubDirs(d, es[..k + 1]) == SubDirs(d, es[..k]) + (if DirAt(d, es[k].ino) then 1 else 0)
  {
    assert es[..k + 1][..k] == es[..k];
  }

  lemma {:induction false} SubDirsMono(d: Disk, es: seq<Entry>, k: nat, m: nat)
    requires k <= m <= |es|
    ensures SubDirs(d, es[..k]) <= SubDirs(d, es[..m])
    decreases m
  {
    if k < m {
      SubDirsMono(d, es, k, m - 1);
      SubDirsNext(d, es, m - 1);
    }
  }

  lemma RestWithout(es: seq<Entry>, k: nat)
    requires k < |es| && DistinctNames(es)
    ensures forall f :: f in es[k + 1..] <==> f in es[k..] && f.name != es[k].name
  {
    assert es[k..] == [es[k]] + es[k + 1..];
  }

  /** A failure while deleting one entry is a failure of the whole deletion. */
  lemma CutShort(geo: Geo, d: Disk, d1: Disk, d2: Disk, dir: nat, name: Name, t: nat, es: seq<Entry>, k: nat)
    requires GeoOk(geo) && Emptying(geo, d, d1, t, es, k) && k < |es| && IsDir(geo, d, dir)
    requires Cut(geo, d1, d2, t, es[k].name, es[k].ino)
    ensures Cut(geo, d, d2, dir, name, t)
  {
    hide GeoOk, HasEntry, IUsed, Below, Intact;
    EmptyingShrinks(geo, d, d1, t, es, k);
    forall j | InUse(geo, d, j) && !Below(geo, d, t, j) ensures Same(geo, d, d2, j) {
      BelowSelf(geo, d, t);
      OutsideKept(geo, d, d1, t, es, k, j);
      assert Same(geo, d1, d2, j);
      IntactTrans(d.blocks, d1.blocks, d2.blocks, d.inodes[j]);
    }
    if !Below(geo, d, t, dir) {
      SameEntries(geo, d, d2, dir);
    }
  }

  lemma OutsideKept(geo: Geo, d: Disk, d1: Disk, t: nat, es: seq<Entry>, k: nat, j: nat)
    requires GeoOk(geo) && Emptying(geo, d, d1, t, es, k) && k < |es| && InUse(geo, d, j) && !Below(geo, d, t, j)
    ensures j != t && InUse(geo, d1, j) && Same(geo, d, d1, j) && !Below(geo, d1, es[k].ino, j)
  {
    hide GeoOk, HasEntry, IUsed, Below, Intact;
    BelowSelf(geo, d, t);
    forall m | 0 <= m < |es| ensures !Below(geo, d, es[m].ino, j) {
      if Below(geo, d, es[m].ino, j) {
        assert es[m] in es;
        BelowChild(geo, d, t, es[m], j);
      }
    }
    EmptyingShrinks(geo, d, d1, t, es, k);
    if Below(geo, d1, es[k].ino, j) {
      BelowMono(geo, d1, d, es[k].ino, j);
    }
  }

  // ----- the operation -----

  lemma {:induction false} ListedDistinct(es: seq<Entry>)
    requires DistinctNames(es)
    ensures DistinctNames(Listed(es))
  {
    if es != [] {
      var p, e := es[..|es| - 1], es[|es| - 1];
      var r := Listed(p);
      ListedDistinct(p);
      forall k | 0 <= k < |r| ensures r[k].name != e.name {
        assert r[k] in p;
        var m :| 0 <= m < |p| && p[m] == r[k];
        assert es[m].name != e.name;
      }
    }
  }

  function Find(es: seq<Entry>, name: Name): (r: Option<Entry>)
    ensures r.Some? ==> r.value in es && r.value.name == name
    ensures r.None? ==> forall e :: e in es ==> e.name != name
  {
    if es == [] then None
    else
      assert es == [es[0]] + es[1..];
      if es[0].name == name then Some(es[0]) else Find(es[1..], name)
  }

  lemma ListingMeans(geo: Geo, d: Disk, t: nat)
    requires GeoOk(geo) && CrashSafe(geo, d) && IsDir(geo, d, t)
    ensures forall f :: HasEntry(geo, d, t, f) <==> f in Listed(EntriesOf(d.blocks, d.inodes[t]))
    ensures DistinctNames(Listed(EntriesOf(d.blocks, d.inodes[t])))
  {
    hide GeoOk, CrashSafe, EntriesOf, Listed, DistinctNames, IUsed;
    DirNames(geo, d, t);
    ListedDistinct(EntriesOf(d.blocks, d.inodes[t]));
  }

  /** The effect of taking one emptied target out of its directory. */
  ghost predicate Detached(geo: Geo, d: Disk, d': Disk, dir: nat, name: Name, t: nat, ok: bool)
    requires GeoOk(geo)
  {
    && IsDir(geo, d, dir) && IsDir(geo, d', dir) && t in d.inodes && d.inodes[t].Inode?
    && (forall j :: InUse(geo, d', j) <==> InUse(geo, d, j) && (ok ==> j != t))
    && (forall j :: InUse(geo, d', j) && j != dir ==> Same(geo, d, d', j))
    && (ok ==>
          && d'.inodes[dir] == d.inodes[dir].(links := d'.inodes[dir].links)
          && d'.inodes[dir].links == d.inodes[dir].links - (if d.inodes[t].kind == Dir then 1 else 0)
          && DataOf(d'.blocks, d'.inodes[dir]) == DataOf(d.blocks, d.inodes[dir])
          && forall f :: HasEntry(geo, d', dir, f) <==> HasEntry(geo, d, dir, f) && f.name != name)
    && (forall f :: HasEntry(geo, d', dir, f) ==> HasEntry(geo, d, dir, f))
    && (forall f: Entry :: f.name != name ==> HasEntry(geo, d', dir, f) == HasEntry(geo, d, dir, f))
  }

  lemma DetachNothing(geo: Geo, d: Disk, dir: nat, name: Name, t: nat)
    requires GeoOk(geo) && IsDir(geo, d, dir) && InUse(geo, d, t)
    ensures Detached(geo, d, d, dir, name, t, false)
  {
    hide GeoOk, IUsed, EntriesOf, NamedBy;
  }

  /** Why a file or an empty directory may not be taken out of `dir`: further
      names, a mapping the writer cannot free, a bad name, a directory it does
      not change or whose link count is used up, an inode it does not free. */
  ghost predicate Attached(geo: Geo, d: Disk, gs: seq<GroupDesc>, dir: nat, name: Name, t: nat)
    requires GeoOk(geo) && InUse(geo, d, t) && InUse(geo, d, dir)
  {
    || (d.inodes[t].kind != Dir && d.inodes[t].links > 1) || d.inodes[t].tree.Foreign? || !NameOk(name)
    || Fixed(geo, d, dir)
    || (d.inodes[t].kind == Dir && (d.inodes[t].tree.Embedded? || !(0 < d.inodes[dir].links <= U16_LIMIT)))
    || !Freeable(geo, d, gs, t)
  }

  /** The writes that remove an emptied directory: its name, the link it gave
      its parent, a barrier, its inode, its blocks, a barrier. */
  ghost predicate DropDirTrace(geo: Geo, base: Disk, log0: seq<Write>, log1: seq<Write>, dir: nat, e: Entry,
      s1: seq<Write>, s2: seq<Write>)
    requires GeoOk(geo)
  {
    var d := Replay(base, log0);
    && HasEntry(geo, d, dir, e) && e.ino != dir && 0 < d.inodes[dir].links && |log0| + 3 <= |log1|
    && var mid := log0 + [log1[|log0|]] + [WInode(dir, d.inodes[dir].(links := d.inodes[dir].links - 1))] + [Flush];
    && log1 == mid + s1 + s2 + [Flush]
    && UnlinkWrite(geo, d, dir, e.name, log1[|log0|])
    && Erasing(geo, Replay(base, mid), Replay(base, log1), e.ino, s1, s2)
  }

  lemma DropDirTraceIs(geo: Geo, base: Disk, d: Disk, log0: seq<Write>, l1: seq<Write>, l2: seq<Write>, d2: Disk,
      log3: seq<Write>, d3: Disk, dir: nat, e: Entry, s1: seq<Write>, s2: seq<Write>)
    requires GeoOk(geo) && d == Replay(base, log0) && HasEntry(geo, d, dir, e) && e.ino != dir
    requires |l1| == |log0| + 1 && l1[..|log0|] == log0 && UnlinkWrite(geo, d, dir, e.name, l1[|log0|])
    requires 0 < d.inodes[dir].links
    requires l2 == l1 + [WInode(dir, d.inodes[dir].(links := d.inodes[dir].links - 1))] + [Flush]
    requires d2 == Replay(base, l2) && log3 == l2 + s1 + s2 && d3 == Replay(base, log3)
    requires Erasing(geo, d2, d3, e.ino, s1, s2)
    ensures DropDirTrace(geo, base, log0, log3 + [Flush], dir, e, s1, s2)
  {
    hide GeoOk, UnlinkWrite, Erasing, Replay, HasEntry;
    FlushSame(base, log3);
    assert l1 <= l2;
    assert l2 <= log3 + [Flush];
    FirstWrite(log0, l1, log3 + [Flush]);
  }

  lemma FirstWrite(log0: seq<Write>, l1: seq<Write>, log: seq<Write>)
    requires |l1| == |log0| + 1 && l1[..|log0|] == log0 && l1 <= log
    ensures log[|log0|] == l1[|log0|] && l1 == log0 + [log[|log0|]]
  {
  }

  /** Sever the name, give the parent its link back, drop the inode. */
  method Detach(fs: Ext4, dir: nat, name: Name, t: nat, isDir: bool, ghost e: Entry) returns (r: Result<()>)
    requires fs.Valid() && HasEntry(fs.geo, fs.disk, dir, e) && e.name == name && e.ino == t && t != dir
    requires InUse(fs.geo, fs.disk, t) && (isDir <==> fs.disk.inodes[t].kind == Dir)
    modifies fs
    ensures Keeps(old(fs.Now()), fs.Now())
    ensures fs.Valid() && old(fs.log) <= fs.log
    ensures Detached(fs.geo, old(fs.disk), fs.disk, dir, name, t, r.Ok?)
    ensures r.Err? ==> Attached(fs.geo, old(fs.disk), old(fs.groups), dir, name, t)
    ensures r.Ok? && !isDir ==> exists s1, s2 :: DropTrace(fs.geo, fs.base, old(fs.log), fs.log, dir, e, s1, s2)
    ensures r.Ok? && isDir ==> exists s1, s2 :: DropDirTrace(fs.geo, fs.base, old(fs.log), fs.log, dir, e, s1, s2)
    ensures Thawed(old(fs.groups), fs.groups)
    ensures fs.held == old(fs.held) && fs.dirs <= old(fs.dirs) && HeldKept(fs.held, old(fs.disk.blocks), fs.disk.blocks)
  {
    hide Clear, DropTrace, DropDirTrace, UnlinkWrite, Erasing, IdleOut, BlockSide, Clearing;
    hide CrashSafe, SafeHistory, Replay, GeoOk, HeldOk, BlockCount, InodeSide, Saved, IUsed, EntriesOf, DataOf, MetaOf,
      Flat, Elsewhere, Unnamed, Cleared, SetIno, InoGroup, InoBit, NameOk, Named, Detached, Same, HeldKept, Fixed,
      Thawed, NoRoom, NoRoomWithout;
    ghost var d0, geo := fs.disk, fs.geo;
    SameSideRefl(fs.groups);
    ThawedSide(fs.groups, fs.groups);
    HeldKeptRefl(fs.held, d0.blocks);
    EntryOf(geo, d0, dir, e);
    DetachNothing(geo, d0, dir, name, t);
    var rec := fs.disk.inodes[t];
    if !isDir && rec.links > 1 {
      return Err(UnsupportedFsFeature);
    }
    var blocks := fs.CollectExtents(rec);
    if blocks.Err? {
      return Err(blocks.error);
    }
    var removed := fs.UnlinkFile(dir, name);
    if removed.Err? {
      UnlinkMust(fs, d0, dir, e, removed);
      return Err(removed.error);
    }
    ghost var d1, l1 := fs.disk, fs.log;
    SeveredTarget(fs, d0, d1, dir, e, removed.value);
    UnlinkedMeans(fs, d0, d1, dir, name, t);
    if isDir {
      var patched := fs.PatchLinks(dir, -1);
      PatchedLinks(geo, d0, d1, fs.disk, dir, name, t);
      if patched.Err? {
        return Err(patched.error);
      }
    } else {
      PatchedLinks(geo, d0, d1, fs.disk, dir, name, t);
    }
    ghost var d2, l2 := fs.disk, fs.log;
    TrackedKind(fs, t);
    var dropped, s1, s2 := fs.DropInode(t, blocks.value.0, blocks.value.1, isDir);
    if dropped.Err? {
      return Err(dropped.error);
    }
    DroppedMeans(geo, d2, fs.disk, t);
    DetachedDropped(geo, d0, d2, fs.disk, dir, name, t);
    ErasingIs(geo, d2, fs.disk, t, s1, s2);
    if isDir {
      DropDirTraceIs(geo, fs.base, d0, old(fs.log), l1, l2, d2, fs.log, fs.disk, dir, e, s1, s2);
    } else {
      DropTraceIs(geo, fs.base, d0, old(fs.log), l1, d1, fs.log, fs.disk, dir, e, s1, s2);
    }
    fs.FlushDevice();
    r := Ok(());
  }

  /** Between severing the name and dropping the inode. */
  lemma PatchedLinks(geo: Geo, d0: Disk, d1: Disk, d2: Disk, dir: nat, name: Name, t: nat)
    requires GeoOk(geo) && IsDir(geo, d0, dir) && IsDir(geo, d1, dir) && d1.inodes == d0.inodes && InUse(geo, d0, t)
    requires t != dir
    requires d1.ibm == d0.ibm && Elsewhere(geo, d0, d1, dir, {}) && Unnamed(geo, d1, t)
    requires forall f :: HasEntry(geo, d1, dir, f) <==> HasEntry(geo, d0, dir, f) && f.name != name
    requires IsDir(geo, d2, dir)
    requires d2 == d1.(inodes := d1.inodes[dir := d1.inodes[dir].(links := d2.inodes[dir].links)])
    requires DataOf(d1.blocks, d0.inodes[dir]) == DataOf(d0.blocks, d0.inodes[dir])
    ensures DataOf(d2.blocks, d2.inodes[dir]) == DataOf(d0.blocks, d0.inodes[dir])
    ensures Detached(geo, d0, d2, dir, name, t, false) && Unnamed(geo, d2, t) && d2.inodes[t] == d0.inodes[t]
    ensures forall f :: HasEntry(geo, d2, dir, f) <==> HasEntry(geo, d0, dir, f) && f.name != name
    ensures d2.inodes[dir] == d0.inodes[dir].(links := d2.inodes[dir].links)
  {
    hide GeoOk, IUsed, EntriesIn, DataOf, Intact;
    assert forall j :: InUse(geo, d2, j) == InUse(geo, d0, j);
    assert DataOf(d2.blocks, d2.inodes[dir]) == DataOf(d1.blocks, d1.inodes[dir]) by {
      SameData(d1.blocks, d1.inodes[dir], d2.inodes[dir]);
    }
    forall j | InUse(geo, d0, j) && j != dir ensures Same(geo, d0, d2, j) {
      assert Same(geo, d0, d1, j);
    }
    assert forall j, f :: HasEntry(geo, d2, j, f) == HasEntry(geo, d1, j, f);
  }

  lemma SameData(blocks: map<nat, Content>, r: Record, r': Record)
    requires r.Inode? && r'.Inode? && r.tree == r'.tree
    ensures DataOf(blocks, r) == DataOf(blocks, r')
  {
  }

  lemma DetachedDropped(geo: Geo, d0: Disk, d2: Disk, d3: Disk, dir: nat, name: Name, t: nat)
    requires GeoOk(geo) && Detached(geo, d0, d2, dir, name, t, false) && t != dir
    requires forall f :: HasEntry(geo, d2, dir, f) <==> HasEntry(geo, d0, dir, f) && f.name != name
    requires d2.inodes[dir] == d0.inodes[dir].(links := d2.inodes[dir].links)
    requires d2.inodes[dir].links == d0.inodes[dir].links - (if d0.inodes[t].kind == Dir then 1 else 0)
    requires d3.blocks == d2.blocks && DataOf(d2.blocks, d2.inodes[dir]) == DataOf(d0.blocks, d0.inodes[dir])
    requires !InUse(geo, d3, t) && forall j :: InUse(geo, d2, j) && j != t ==> Same(geo, d2, d3, j)
    requires forall j :: InUse(geo, d3, j) ==> InUse(geo, d2, j) && j != t
    ensures Detached(geo, d0, d3, dir, name, t, true)
  {
    hide GeoOk, IUsed, EntriesOf, Intact, DataOf;
    assert Same(geo, d2, d3, dir);
    SameEntries(geo, d2, d3, dir);
    forall j | InUse(geo, d3, j) && j != dir ensures Same(geo, d0, d3, j) {
      assert Same(geo, d0, d2, j) && Same(geo, d2, d3, j);
      IntactTrans(d0.blocks, d2.blocks, d3.blocks, d0.inodes[j]);
    }
  }

  /** `delete_file_at_depth` on the entry `name` of directory `dir`. */
  method DeleteAt(fs: Ext4, dir: nat, name: Name, depth: nat) returns (r: Result<()>)
    requires fs.Valid() && InUse(fs.geo, fs.disk, dir)
    modifies fs
    ensures Keeps(old(fs.Now()), fs.Now())
    ensures fs.Valid() && old(fs.log) <= fs.log
    ensures forall e :: HasEntry(fs.geo, old(fs.disk), dir, e) && e.name == name ==>
      && Cut(fs.geo, old(fs.disk), fs.disk, dir, name, e.ino)
      && (r.Ok? ==> Deleted(fs.geo, old(fs.disk), fs.disk, dir, name, e.ino))
    ensures (forall e :: HasEntry(fs.geo, old(fs.disk), dir, e) ==> e.name != name) ==>
      r.Err? && fs.disk == old(fs.disk)
    ensures r.Err? && depth <= MAX_DELETE_DEPTH ==>
      forall e :: HasEntry(fs.geo, old(fs.disk), dir, e) && e.name == name ==>
        Blocked(fs.geo, old(fs.disk), old(fs.groups), dir, e, MAX_DELETE_DEPTH - depth)
    ensures Thawed(old(fs.groups), fs.groups)
    ensures fs.held == old(fs.held) && fs.dirs <= old(fs.dirs) && HeldKept(fs.held, old(fs.disk.blocks), fs.disk.blocks)
    decreases SatSub(MAX_DELETE_DEPTH + 1, depth)
  {
    hide Clear;
    hide CrashSafe, SafeHistory, Replay, GeoOk, HeldOk, BlockCount, InodeSide, Saved, IUsed, EntriesOf, Cut, Deleted,
      Emptying, Detached, Below, HasEntry, Listed, Find, DistinctNames, Names, HeldKept, Blocked, Attached, Thawed;
    ghost var d0, geo, gs := fs.disk, fs.geo, fs.groups;
    SameSideRefl(gs);
    ThawedSide(gs, gs);
    HeldKeptRefl(fs.held, d0.blocks);
    CutNothing(geo, d0, dir, name);
    if depth > MAX_DELETE_DEPTH {
      return Err(CorruptFs);
    }
    if fs.disk.inodes[dir].kind != Dir {
      FilesHaveNone(geo, d0, dir);
      return Err(NotADirectory);
    }
    ListingMeans(geo, d0, dir);
    var found := Find(Listed(EntriesOf(fs.disk.blocks, fs.disk.inodes[dir])), name);
    if found.None? {
      return Err(NotFound);
    }
    ghost var e := found.value;
    var t := found.value.ino;
    EntryOf(geo, d0, dir, e);
    forall f | HasEntry(geo, d0, dir, f) && f.name == name ensures f == e {
      OneEntry(geo, d0, dir, e, f);
    }
    var isDir := fs.disk.inodes[t].kind == Dir;
    var es := [];
    if isDir {
      if fs.disk.inodes[t].tree.Embedded? {
        EmbeddedBlocked(geo, d0, gs, dir, e, MAX_DELETE_DEPTH - depth);
        return Err(UnsupportedFsFeature);
      }
      es := Listed(EntriesOf(fs.disk.blocks, fs.disk.inodes[t]));
      ListingMeans(geo, d0, t);
    } else {
      FilesHaveNone(geo, d0, t);
      NoNames();
    }
    NothingEmptied(geo, d0, t, es);
    for k := 0 to |es|
      invariant fs.Valid() && old(fs.log) <= fs.log && Emptying(geo, d0, fs.disk, t, es, k) && DistinctNames(es)
      invariant fs.held == old(fs.held) && fs.dirs <= old(fs.dirs) && HeldKept(fs.held, d0.blocks, fs.disk.blocks)
      invariant Thawed(gs, fs.groups)
      invariant Keeps(old(fs.Now()), fs.Now())
    {
      assert HasEntry(geo, d0, t, es[k]);
      ghost var d1, g1 := fs.disk, fs.groups;
      EmptyingNext(geo, d0, d1, t, es, k);
      var gone := DeleteAt(fs, t, es[k].name, depth + 1);
      HeldKeptTrans(fs.held, d0.blocks, d1.blocks, fs.disk.blocks);
      ThawedTrans(gs, g1, fs.groups);
      if gone.Err? {
        CutShort(geo, d0, d1, fs.disk, dir, name, t, es, k);
        ChildBlocked(geo, d0, gs, d1, g1, dir, e, es, k, MAX_DELETE_DEPTH - depth);
        return Err(gone.error);
      }
      EmptyingStep(geo, d0, d1, fs.disk, t, es, k);
    }
    ghost var d1, g1 := fs.disk, fs.groups;
    CutEmptied(geo, d0, d1, dir, name, t, es);
    var alive := IsDir(fs.geo, fs.disk, dir);
    if !alive {
      LostBlocked(geo, d0, gs, d1, dir, e, es, MAX_DELETE_DEPTH - depth);
      return Err(NotFound);
    }
    ListingMeans(geo, d1, dir);
    var again := Find(Listed(EntriesOf(fs.disk.blocks, fs.disk.inodes[dir])), name);
    if again.None? {
      GoneBlocked(geo, d0, gs, d1, dir, e, es, MAX_DELETE_DEPTH - depth);
      return Err(NotFound);
    }
    StillThere(geo, d0, d1, dir, t, es, e, again.value);
    r := Detach(fs, dir, name, again.value.ino, isDir, again.value);
    HeldKeptTrans(fs.held, d0.blocks, d1.blocks, fs.disk.blocks);
    DetachedAll(geo, d0, d1, fs.disk, dir, name, t, es, r.Ok?);
    ThawedTrans(gs, g1, fs.groups);
    if r.Err? { SelfBlocked(geo, d0, gs, d1, g1, dir, e, es, MAX_DELETE_DEPTH - depth); }
  }

  lemma BlockedBy(geo: Geo, d: Disk, gs: seq<GroupDesc>, dir: nat, e: Entry, n: nat)
    requires GeoOk(geo) && InUse(geo, d, e.ino) && InUse(geo, d, dir)
    ensures Attached(geo, d, gs, dir, e.name, e.ino) || Below(geo, d, e.ino, dir) ==> Blocked(geo, d, gs, dir, e, n)
  {
    hide GeoOk, InUse, Attached, Below, HasEntry, LinksShort;
  }

  lemma EmbeddedBlocked(geo: Geo, d: Disk, gs: seq<GroupDesc>, dir: nat, e: Entry, n: nat)
    requires GeoOk(geo) && InUse(geo, d, e.ino) && InUse(geo, d, dir) && d.inodes[e.ino].kind == Dir
    requires d.inodes[e.ino].tree.Embedded?
    ensures Blocked(geo, d, gs, dir, e, n)
  {
    hide GeoOk, IUsed, Blocked, NameOk, Fixed;
    BlockedBy(geo, d, gs, dir, e, n);
  }

  /** A directory that is untouched is fixed or not as before. */
  lemma SameFixed(geo: Geo, d: Disk, d': Disk, p: nat)
    requires GeoOk(geo) && IsDir(geo, d, p) && IsDir(geo, d', p)
    requires d'.inodes[p] == d.inodes[p].(links := d'.inodes[p].links)
    requires DataOf(d'.blocks, d'.inodes[p]) == DataOf(d.blocks, d.inodes[p])
    ensures Fixed(geo, d', p) == Fixed(geo, d, p)
  {
    hide GeoOk, IUsed, DataOf;
  }

  lemma IntactData(x: map<nat, Content>, y: map<nat, Content>, r: Record)
    requires Intact(x, y, r)
    ensures DataOf(y, r) == DataOf(x, r)
  {
    hide EntriesOf, DataOf, AgreeOn;
    var a, b, m := DataOf(x, r), DataOf(y, r), MetaOf(r);
    assert a == (a + m)[..|a + m| - |m|] && b == (b + m)[..|b + m| - |m|];
  }

  /** What keeps an entry in its directory now did so before. */
  lemma AttachedBack(geo: Geo, d: Disk, gs: seq<GroupDesc>, d': Disk, gs': seq<GroupDesc>, p: nat, name: Name, t: nat)
    requires GeoOk(geo) && IsDir(geo, d, p) && IsDir(geo, d', p) && InUse(geo, d, t) && InUse(geo, d', t)
    requires Thawed(gs, gs')
    requires d'.inodes[p] == d.inodes[p].(links := d'.inodes[p].links)
    requires DataOf(d'.blocks, d'.inodes[p]) == DataOf(d.blocks, d.inodes[p])
    requires d'.inodes[t].kind == d.inodes[t].kind && d'.inodes[t].tree == d.inodes[t].tree
    requires d.inodes[t].kind != Dir ==> d'.inodes[t] == d.inodes[t]
    requires Attached(geo, d', gs', p, name, t)
    ensures Attached(geo, d, gs, p, name, t) || (d.inodes[t].kind == Dir && !(0 < d'.inodes[p].links <= U16_LIMIT))
  {
    hide GeoOk, DataOf, NameOk, Fixed, InoGroup, InoExists;
    SameFixed(geo, d, d', p);
  }

  /** An entry in a part of the tree that is as it was is blocked as it was. */
  lemma {:induction false} InnerBack(geo: Geo, d: Disk, gs: seq<GroupDesc>, d': Disk, gs': seq<GroupDesc>, p: nat,
      f: Entry, n: nat)
    requires GeoOk(geo) && CrashSafe(geo, d') && Thawed(gs, gs') && HasEntry(geo, d', p, f)
    requires Blocked(geo, d', gs', p, f, n)
    requires forall x :: Below(geo, d', p, x) ==> Same(geo, d, d', x)
    requires forall x, e :: HasEntry(geo, d', x, e) ==> HasEntry(geo, d, x, e)
    ensures Blocked(geo, d, gs, p, f, n)
    decreases n
  {
    hide GeoOk, CrashSafe, IUsed, EntriesOf, DataOf, Below, Attached, Thawed, Intact, NamedBy, HasEntry, LinksShort;
    BelowSelf(geo, d', p);
    BelowSelf(geo, d', f.ino);
    BelowChild(geo, d', p, f, f.ino);
    EntryIn(geo, d', p, f);
    IntactData(d.blocks, d'.blocks, d.inodes[p]);
    if Attached(geo, d', gs', p, f.name, f.ino) {
      AttachedBack(geo, d, gs, d', gs', p, f.name, f.ino);
      LinksAttach(geo, d, gs, p, f.name, f.ino);
    } else if Below(geo, d', f.ino, p) {
      BelowMono(geo, d', d, f.ino, p);
    } else {
      var g :| HasEntry(geo, d', f.ino, g) && (n == 0 || LinksShort(geo, d', f.ino) || Blocked(geo, d', gs', f.ino, g,
        n - 1));
      forall x | Below(geo, d', f.ino, x) ensures Below(geo, d', p, x) { BelowChild(geo, d', p, f, x); }
      if n > 0 && !LinksShort(geo, d', f.ino) { InnerBack(geo, d, gs, d', gs', f.ino, g, n - 1); }
      if LinksShort(geo, d', f.ino) { LinksBack(geo, d, d', f.ino); }
      assert HasEntry(geo, d, f.ino, g);
    }
  }

  lemma EntryIn(geo: Geo, d: Disk, p: nat, f: Entry)
    requires GeoOk(geo) && CrashSafe(geo, d) && HasEntry(geo, d, p, f)
    ensures IsDir(geo, d, p) && InUse(geo, d, f.ino)
  {
    hide GeoOk, CrashSafe, EntriesOf, IUsed;
    EntryOf(geo, d, p, f);
  }

  lemma LinksAttach(geo: Geo, d: Disk, gs: seq<GroupDesc>, p: nat, name: Name, t: nat)
    requires GeoOk(geo) && InUse(geo, d, t) && InUse(geo, d, p)
    ensures d.inodes[t].kind == Dir && !(0 < d.inodes[p].links <= U16_LIMIT) ==> Attached(geo, d, gs, p, name, t)
  {
  }

  lemma LinksBack(geo: Geo, d: Disk, d': Disk, t: nat)
    requires GeoOk(geo) && CrashSafe(geo, d') && Same(geo, d, d', t) && LinksShort(geo, d', t)
    requires forall x :: Below(geo, d', t, x) ==> Same(geo, d, d', x)
    ensures LinksShort(geo, d, t)
  {
    hide GeoOk, CrashSafe, IUsed, NamedBy, Below, EntriesOf, SubDirs, Listed;
    var es := Listed(EntriesOf(d'.blocks, d'.inodes[t]));
    ListingMeans(geo, d', t);
    forall e | e in es ensures DirAt(d', e.ino) == DirAt(d, e.ino) {
      BelowSelf(geo, d', e.ino);
      BelowChild(geo, d', t, e, e.ino);
    }
    SubDirsSame(d, d', es);
  }

  lemma {:induction false} SubDirsSame(d: Disk, d': Disk, es: seq<Entry>)
    requires forall e :: e in es ==> DirAt(d', e.ino) == DirAt(d, e.ino)
    ensures SubDirs(d', es) == SubDirs(d, es)
  {
    if es != [] { SubDirsSame(d, d', es[..|es| - 1]); }
  }

  /** An entry of the target was blocked when its turn came. */
  lemma ChildBlocked(geo: Geo, d: Disk, gs: seq<GroupDesc>, d1: Disk, g1: seq<GroupDesc>, dir: nat, e: Entry,
      es: seq<Entry>, k: nat, n: nat)
    requires GeoOk(geo) && CrashSafe(geo, d) && CrashSafe(geo, d1) && Thawed(gs, g1)
    requires Emptying(geo, d, d1, e.ino, es, k) && k < |es|
    requires IsDir(geo, d, e.ino) && es == Listed(EntriesOf(d.blocks, d.inodes[e.ino]))
    requires n > 0 ==> Blocked(geo, d1, g1, e.ino, es[k], n - 1)
    ensures Blocked(geo, d, gs, dir, e, n)
  {
    hide GeoOk, CrashSafe, Emptying, Thawed, Below, Attached, LinksShort, EntriesOf, HasEntry, IsDir, InUse;
    var t, f := e.ino, es[k];
    ListingMeans(geo, d, t);
    assert f in es;
    if n > 0 && !LinksShort(geo, d, t) {
      if Below(geo, d1, f.ino, t) {
        EmptyingShrinks(geo, d, d1, t, es, k);
        BelowMono(geo, d1, d, f.ino, t);
        BlockedBelow(geo, d, gs, t, f, n - 1);
      } else {
        TurnBack(geo, d, gs, d1, g1, t, es, k, n - 1);
      }
    }
    assert HasEntry(geo, d, t, f);
  }

  lemma BlockedBelow(geo: Geo, d: Disk, gs: seq<GroupDesc>, dir: nat, e: Entry, n: nat)
    requires GeoOk(geo) && Below(geo, d, e.ino, dir)
    ensures Blocked(geo, d, gs, dir, e, n)
  {
    hide GeoOk, InUse, Attached, Below, HasEntry, LinksShort;
  }

  /** The target's own entry, when the entries before it are gone. */
  lemma TurnBack(geo: Geo, d: Disk, gs: seq<GroupDesc>, d1: Disk, g1: seq<GroupDesc>, t: nat, es: seq<Entry>, k: nat,
      n: nat)
    requires GeoOk(geo) && CrashSafe(geo, d) && CrashSafe(geo, d1) && Thawed(gs, g1) && Emptying(geo, d, d1, t, es, k)
    requires k < |es|
    requires IsDir(geo, d, t) && es == Listed(EntriesOf(d.blocks, d.inodes[t])) && !LinksShort(geo, d, t)
    requires !Below(geo, d1, es[k].ino, t) && Blocked(geo, d1, g1, t, es[k], n)
    ensures Blocked(geo, d, gs, t, es[k], n)
  {
    hide GeoOk, CrashSafe, Thawed, Below, Attached, EntriesOf, HasEntry, IUsed, Listed, DataOf, SubDirs, Same, Blocked;
    var f := es[k];
    EmptyingNext(geo, d, d1, t, es, k);
    EntryIn(geo, d1, t, f);
    EmptyingShrinks(geo, d, d1, t, es, k);
    BelowSelf(geo, d1, f.ino);
    assert f.ino != t;
    SurvivorSame(geo, d, d1, t, es, k, f.ino);
    SameRecord(geo, d, d1, f.ino);
    BlockedParts(geo, d1, g1, t, f, n);
    if Attached(geo, d1, g1, t, f.name, f.ino) {
      AttachedBack(geo, d, gs, d1, g1, t, f.name, f.ino);
      if DirAt(d, f.ino) { LinksEnough(d, es, k, d.inodes[t].links); }
      BlockedBy(geo, d, gs, t, f, n);
    } else {
      var g :| HasEntry(geo, d1, f.ino, g) && (n == 0 || LinksShort(geo, d1, f.ino) || Blocked(geo, d1, g1, f.ino, g,
        n - 1));
      forall x | Below(geo, d1, f.ino, x) ensures Same(geo, d, d1, x) {
        AliveBelow(geo, d1, f.ino, x);
        SurvivorSame(geo, d, d1, t, es, k, x);
      }
      if n > 0 && !LinksShort(geo, d1, f.ino) {
        InnerBack(geo, d, gs, d1, g1, f.ino, g, n - 1);
      } else if LinksShort(geo, d1, f.ino) {
        LinksBack(geo, d, d1, f.ino);
      }
      BlockedInner(geo, d, gs, t, f, g, n);
    }
  }

  lemma SameRecord(geo: Geo, d: Disk, d': Disk, i: nat)
    requires GeoOk(geo) && Same(geo, d, d', i)
    ensures InUse(geo, d, i) && InUse(geo, d', i) && d'.inodes[i] == d.inodes[i]
  {
  }

  lemma BlockedParts(geo: Geo, d: Disk, gs: seq<GroupDesc>, dir: nat, e: Entry, n: nat)
    requires GeoOk(geo) && Blocked(geo, d, gs, dir, e, n) && !Below(geo, d, e.ino, dir)
    ensures
      || (InUse(geo, d, e.ino) && InUse(geo, d, dir) && Attached(geo, d, gs, dir, e.name, e.ino))
      || exists f ::
           HasEntry(geo, d, e.ino, f) && (n == 0 || LinksShort(geo, d, e.ino) || Blocked(geo, d, gs, e.ino, f, n - 1))
  {
    hide GeoOk, InUse, Attached, Below, HasEntry, LinksShort;
  }

  lemma BlockedInner(geo: Geo, d: Disk, gs: seq<GroupDesc>, dir: nat, e: Entry, f: Entry, n: nat)
    requires GeoOk(geo) && HasEntry(geo, d, e.ino, f)
    requires n == 0 || LinksShort(geo, d, e.ino) || Blocked(geo, d, gs, e.ino, f, n - 1)
    ensures Blocked(geo, d, gs, dir, e, n)
  {
    hide GeoOk, InUse, Attached, Below, HasEntry, LinksShort;
  }

  /** With links for all its directories, there is one for each in turn. */
  lemma LinksEnough(d: Disk, es: seq<Entry>, k: nat, links: nat)
    requires k < |es| && DirAt(d, es[k].ino) && SubDirs(d, es) <= links <= U16_LIMIT
    ensures 0 < links - SubDirs(d, es[..k]) <= U16_LIMIT
  {
    SubDirsNext(d, es, k);
    SubDirsMono(d, es, k + 1, |es|);
    assert es[..|es|] == es;
  }

  /** The directory went with the target. */
  lemma LostBlocked(geo: Geo, d: Disk, gs: seq<GroupDesc>, d1: Disk, dir: nat, e: Entry, es: seq<Entry>, n: nat)
    requires GeoOk(geo) && IsDir(geo, d, dir) && !IsDir(geo, d1, dir) && Cut(geo, d, d1, dir, e.name, e.ino)
    ensures Blocked(geo, d, gs, dir, e, n)
  {
    hide GeoOk, Below, HasEntry, Same, Blocked, InUse;
    BlockedBelow(geo, d, gs, dir, e, n);
  }

  lemma GoneBlocked(geo: Geo, d: Disk, gs: seq<GroupDesc>, d1: Disk, dir: nat, e: Entry, es: seq<Entry>, n: nat)
    requires GeoOk(geo) && HasEntry(geo, d, dir, e) && Emptying(geo, d, d1, e.ino, es, |es|) && IsDir(geo, d1, dir)
    requires forall f :: HasEntry(geo, d1, dir, f) ==> f.name != e.name
    ensures Blocked(geo, d, gs, dir, e, n)
  {
    hide GeoOk, Below, EntriesOf, Same, Blocked, IUsed, SubDirs, DataOf;
    BelowSelf(geo, d, e.ino);
    if dir != e.ino {
      SameEntries(geo, d, d1, dir);
    } else {
      BlockedBelow(geo, d, gs, dir, e, n);
    }
  }

  /** The emptied target itself could not be taken out. */
  lemma SelfBlocked(geo: Geo, d: Disk, gs: seq<GroupDesc>, d1: Disk, g1: seq<GroupDesc>, dir: nat, e: Entry,
      es: seq<Entry>, n: nat)
    requires GeoOk(geo) && CrashSafe(geo, d) && Thawed(gs, g1) && Emptying(geo, d, d1, e.ino, es, |es|) && e.ino != dir
    requires HasEntry(geo, d, dir, e) && IsDir(geo, d1, dir) && (d.inodes[e.ino].kind != Dir ==> es == [])
    requires Attached(geo, d1, g1, dir, e.name, e.ino)
    ensures Blocked(geo, d, gs, dir, e, n)
  {
    hide GeoOk, CrashSafe, Thawed, Below, Attached, EntriesOf, IUsed, DataOf, SubDirs, Blocked, Intact;
    EntryIn(geo, d, dir, e);
    assert Same(geo, d, d1, dir);
    IntactData(d.blocks, d1.blocks, d.inodes[dir]);
    if es == [] { NoSubDirs(d, es); }
    AttachedBack(geo, d, gs, d1, g1, dir, e.name, e.ino);
    LinksAttach(geo, d, gs, dir, e.name, e.ino);
    BlockedBy(geo, d, gs, dir, e, n);
  }

  lemma NoSubDirs(d: Disk, es: seq<Entry>)
    requires es == []
    ensures SubDirs(d, es[..|es|]) == 0
  {
  }

  lemma CutNothing(geo: Geo, d: Disk, dir: nat, name: Name)
    requires GeoOk(geo) && InUse(geo, d, dir)
    ensures forall e :: HasEntry(geo, d, dir, e) && e.name == name ==> Cut(geo, d, d, dir, name, e.ino)
  {
    hide GeoOk, IUsed, EntriesOf, NamedBy, Below;
  }

  lemma FilesHaveNone(geo: Geo, d: Disk, i: nat)
    requires GeoOk(geo) && InUse(geo, d, i) && d.inodes[i].kind != Dir
    ensures forall f :: !HasEntry(geo, d, i, f)
  {
  }

  lemma NoNames()
    ensures DistinctNames([])
  {
  }

  lemma OneEntry(geo: Geo, d: Disk, dir: nat, e: Entry, f: Entry)
    requires GeoOk(geo) && CrashSafe(geo, d) && HasEntry(geo, d, dir, e) && HasEntry(geo, d, dir, f) && e.name == f.name
    ensures e == f
  {
    hide GeoOk, CrashSafe, EntriesOf, IUsed;
    DirNames(geo, d, dir);
    var es := EntriesOf(d.blocks, d.inodes[dir]);
    var x :| 0 <= x < |es| && es[x] == e;
    var y :| 0 <= y < |es| && es[y] == f;
  }

  lemma NothingEmptied(geo: Geo, d: Disk, t: nat, es: seq<Entry>)
    requires GeoOk(geo) && InUse(geo, d, t) && forall f :: HasEntry(geo, d, t, f) <==> f in es
    ensures Emptying(geo, d, d, t, es, 0)
  {
    hide GeoOk, IUsed, EntriesOf, NamedBy, Below, HasEntry;
    assert es[0..] == es;
  }

  lemma EmptyingNext(geo: Geo, d: Disk, d': Disk, t: nat, es: seq<Entry>, k: nat)
    requires GeoOk(geo) && Emptying(geo, d, d', t, es, k) && k < |es|
    ensures InUse(geo, d', t) && HasEntry(geo, d', t, es[k])
  {
    hide GeoOk, IUsed, Below, HasEntry, Same;
    assert es[k] in es[k..];
  }

  lemma CutEmptied(geo: Geo, d: Disk, d1: Disk, dir: nat, name: Name, t: nat, es: seq<Entry>)
    requires GeoOk(geo) && Emptying(geo, d, d1, t, es, |es|) && IsDir(geo, d, dir)
    ensures Cut(geo, d, d1, dir, name, t)
  {
    hide GeoOk, HasEntry, IUsed, Below, Intact;
    EmptyingShrinks(geo, d, d1, t, es, |es|);
    forall j | InUse(geo, d, j) && !Below(geo, d, t, j) ensures Same(geo, d, d1, j) {
      BelowSelf(geo, d, t);
      forall m | 0 <= m < |es| ensures !Below(geo, d, es[m].ino, j) {
        assert es[m] in es;
        if Below(geo, d, es[m].ino, j) { BelowChild(geo, d, t, es[m], j); }
      }
    }
    if !Below(geo, d, t, dir) { SameEntries(geo, d, d1, dir); }
  }

  /** The name looked up again is the same, and not inside the emptied target. */
  lemma StillThere(geo: Geo, d: Disk, d1: Disk, dir: nat, t: nat, es: seq<Entry>, e: Entry, f: Entry)
    requires GeoOk(geo) && CrashSafe(geo, d) && Emptying(geo, d, d1, t, es, |es|)
    requires HasEntry(geo, d, dir, e) && e.ino == t && HasEntry(geo, d1, dir, f) && f.name == e.name
    ensures f == e && t != dir && InUse(geo, d1, t) && d1.inodes[t].kind == d.inodes[t].kind
  {
    hide GeoOk, IUsed, Below, EntriesOf, Same, CrashSafe;
    assert es[|es|..] == [];
    assert dir != t;
    SameEntries(geo, d, d1, dir);
    OneEntry(geo, d, dir, e, f);
  }

  lemma DetachedAll(geo: Geo, d: Disk, d1: Disk, d2: Disk, dir: nat, name: Name, t: nat, es: seq<Entry>, ok: bool)
    requires GeoOk(geo) && Emptying(geo, d, d1, t, es, |es|) && Detached(geo, d1, d2, dir, name, t, ok) && t != dir
    requires IsDir(geo, d, dir)
    requires Cut(geo, d, d1, dir, name, t)
    ensures Cut(geo, d, d2, dir, name, t) && (ok ==> Deleted(geo, d, d2, dir, name, t))
  {
    hide GeoOk, IUsed, Below, EntriesOf, Intact, DataOf, SubDirs;
    assert Same(geo, d, d1, dir);
    IntactData(d.blocks, d1.blocks, d.inodes[dir]);
    SameEntries(geo, d, d1, dir);
    forall j | InUse(geo, d2, j) && j != dir && j != t ensures Same(geo, d, d2, j) {
      assert Same(geo, d, d1, j) && Same(geo, d1, d2, j);
      IntactTrans(d.blocks, d1.blocks, d2.blocks, d.inodes[j]);
    }
    BelowSelf(geo, d, t);
    forall j ensures Below(geo, d, t, j) <==> j == t || exists m :: 0 <= m < |es| && Below(geo, d, es[m].ino, j) {
      BelowEntries(geo, d, t, es, j);
    }
    forall j, f | HasEntry(geo, d2, j, f) ensures HasEntry(geo, d1, j, f) {
      if j != dir { SameEntries(geo, d1, d2, j); }
    }
  }

  lemma BelowEntries(geo: Geo, d: Disk, t: nat, es: seq<Entry>, j: nat)
    requires GeoOk(geo) && forall f :: HasEntry(geo, d, t, f) <==> f in es
    ensures Below(geo, d, t, j) <==> j == t || exists m :: 0 <= m < |es| && Below(geo, d, es[m].ino, j)
  {
    hide GeoOk, HasEntry, Below;
    BelowSelf(geo, d, t);
    if Below(geo, d, t, j) && j != t {
      var e := BelowSplit(geo, d, t, j);
      var m :| 0 <= m < |es| && es[m] == e;
    }
    forall m | 0 <= m < |es| && Below(geo, d, es[m].ino, j) ensures Below(geo, d, t, j) {
      assert es[m] in es;
      BelowChild(geo, d, t, es[m], j);
    }
  }
}
