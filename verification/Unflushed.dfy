/** What the cache can leave of `create_directory`, `rename_file` and
    `delete_file` (core/src/fs/ext4/file.rs, mod.rs) when power is lost, with
    everything before the operation on the medium. */
module Unflushed {
  import opened Extents
  import opened DirChain
  import opened Ext4Disk
  import opened Ext4Steps
  import opened Ext4Bitmap
  import opened Ext4Books
  import opened Ext4Writer
  import opened Ext4Names
  import opened Ext4Delete
  import opened Durability

  // ----- what survives after a settled beginning -----

  /** The first `m` writes are on the medium. */
  ghost predicate Settled(log: seq<Write>, n: nat, keep: set<nat>, m: nat)
    requires n <= |log|
  {
    forall k :: 0 <= k < m ==> Durable(log, n, keep, k)
  }

  /** The writes that are on the medium, by number. */
  ghost function Stays(log: seq<Write>, n: nat, keep: set<nat>): set<nat>
    requires n <= |log|
  {
    keep + Range(0, Barrier(log[..n]))
  }

  lemma {:induction false} KeptIs(log: seq<Write>, n: nat, f: nat, keep: set<nat>)
    requires n <= |log|
    ensures Kept(log[..n], f, keep) == Kept2(log, 0, n, keep + Range(0, f))
  {
    if n > 0 {
      KeptIs(log, n - 1, f, keep);
      assert log[..n][..n - 1] == log[..n - 1];
    }
  }

  lemma {:induction false} Kept2Split(log: seq<Write>, a: nat, m: nat, n: nat, s: set<nat>)
    requires a <= m <= n <= |log|
    ensures Kept2(log, a, n, s) == Kept2(log, a, m, s) + Kept2(log, m, n, s)
  {
    if n > m {
      Kept2Split(log, a, m, n - 1, s);
    }
  }

  /** With everything kept it is the log itself. */
  lemma AllKept(base: Disk, log: seq<Write>, m: nat, n: nat, s: set<nat>)
    requires m <= n <= |log| && forall k :: m <= k < n ==> k in s
    ensures Replay(base, log[..n]) == Replay(Replay(base, log[..m]), Kept2(log, m, n, s))
  {
    hide Replay, Kept2;
    KeepTail(log, m, m, n, s, log[m..n]);
    assert log[..n] == log[..m] + log[m..n];
    ReplayConcat(base, log[..m], log[m..n]);
  }

  lemma SettledOutcome(base: Disk, log: seq<Write>, n: nat, keep: set<nat>, m: nat)
    requires m <= n <= |log| && Settled(log, n, keep, m)
    ensures
      Replay(base, Survivors(log, n, keep))
      == Replay(Replay(base, log[..m]), Kept2(log, m, n, Stays(log, n, keep)))
  {
    hide Replay, Kept2, Kept, Barrier;
    var s := Stays(log, n, keep);
    KeptIs(log, n, Barrier(log[..n]), keep);
    Kept2Split(log, 0, m, n, s);
    assert forall k :: 0 <= k < m ==> k in s by {
      forall k | 0 <= k < m ensures k in s { assert Durable(log, n, keep, k); }
    }
    KeepTail(log, 0, 0, m, s, log[0..m]);
    assert log[0..m] == log[..m];
    ReplayConcat(base, log[..m], Kept2(log, m, n, s));
  }

  lemma KeptStep(d: Disk, log: seq<Write>, m: nat, n: nat, s: set<nat>)
    requires m < n <= |log|
    ensures
      var x := Replay(d, Kept2(log, m, n - 1, s));
      Replay(d, Kept2(log, m, n, s)) == if n - 1 in s then Apply(x, log[n - 1]) else x
  {
    hide Apply;
    var a := Kept2(log, m, n - 1, s);
    if n - 1 in s {
      assert (a + [log[n - 1]])[..|a|] == a;
    } else {
      assert a + [] == a;
    }
  }

  lemma NothingKept(d: Disk, log: seq<Write>, m: nat, n: nat, s: set<nat>)
    requires n <= m && n <= |log|
    ensures Replay(d, Kept2(log, m, n, s)) == d
  {
  }

  /** Two writes behind what is settled, and then a barrier. */
  lemma TwoWrites(base: Disk, log: seq<Write>, m: nat, n: nat, keep: set<nat>)
    requires m + 3 <= |log| && m <= n <= m + 3 && log[m + 2] == Flush && Settled(log, n, keep, m)
    ensures
      var d := Replay(base, log[..m]);
      var x := if Durable(log, n, keep, m) then Apply(d, log[m]) else d;
      Replay(base, Survivors(log, n, keep)) == if Durable(log, n, keep, m + 1) then Apply(x, log[m + 1]) else x
  {
    hide Replay, Kept2, Barrier, Survivors;
    var d, s := Replay(base, log[..m]), Stays(log, n, keep);
    SettledOutcome(base, log, n, keep, m);
    NothingKept(d, log, m, m, s);
    if m < n { KeptStep(d, log, m, m + 1, s); }
    if m + 1 < n { KeptStep(d, log, m, m + 2, s); }
    if m + 2 < n { KeptStep(d, log, m, m + 3, s); }
  }

  // ----- one directory write -----

  lemma SafeAt(fs: Ext4, k: nat)
    requires fs.History() && k <= |fs.log|
    ensures CrashSafe(fs.geo, Replay(fs.base, fs.log[..k]))
  {
    hide CrashSafe, GeoOk, Replay;
  }

  lemma FrameOf(geo: Geo, d: Disk, dir: nat, b: nat, chain: seq<Rec>)
    requires GeoOk(geo) && CrashSafe(geo, d) && IsDir(geo, d, dir) && b in DataOf(d.blocks, d.inodes[dir])
    ensures
      var d' := Apply(d, WBlock(b, DirBlock(chain)));
      && IsDir(geo, d', dir) && d'.inodes == d.inodes && d'.ibm == d.ibm && d'.bbm == d.bbm
      && DataOf(d'.blocks, d.inodes[dir]) == DataOf(d.blocks, d.inodes[dir])
      && (forall j, f :: j != dir ==> HasEntry(geo, d', j, f) == HasEntry(geo, d, j, f))
      && (forall j :: InUse(geo, d, j) ==> NamedBy(d'.blocks, d.inodes[j]) == NamedBy(d.blocks, d.inodes[j]))
      && (forall j :: InUse(geo, d, j) && j != dir ==>
            EntriesOf(d'.blocks, d.inodes[j]) == EntriesOf(d.blocks, d.inodes[j]))
  {
    DirWriteFrame(geo, d, dir, b, chain);
    hide CrashSafe, GeoOk, IUsed, DataOf, NamedBy, EntriesOf;
  }

  /** Taking a name out, for the directory and for all others. */
  lemma Unlinking(geo: Geo, d: Disk, dir: nat, name: Name, w: Write)
    requires GeoOk(geo) && CrashSafe(geo, d) && UnlinkWrite(geo, d, dir, name, w)
    ensures w.WBlock? && CrashSafe(geo, Apply(d, w)) && IsDir(geo, d, dir) && IsDir(geo, Apply(d, w), dir)
    ensures w.block in DataOf(d.blocks, d.inodes[dir])
    ensures DataOf(Apply(d, w).blocks, d.inodes[dir]) == DataOf(d.blocks, d.inodes[dir])
    ensures EntriesOf(Apply(d, w).blocks, d.inodes[dir]) == Without(EntriesOf(d.blocks, d.inodes[dir]), name)
    ensures forall f :: HasEntry(geo, Apply(d, w), dir, f) <==> HasEntry(geo, d, dir, f) && f.name != name
    ensures forall j, f :: j != dir ==> HasEntry(geo, Apply(d, w), j, f) == HasEntry(geo, d, j, f)
    ensures forall j :: InUse(geo, d, j) ==> NamedBy(Apply(d, w).blocks, d.inodes[j]) == NamedBy(d.blocks, d.inodes[j])
  {
    hide CrashSafe, GeoOk, IUsed, DataOf, NamedBy, EntriesOf, Without;
    var k: nat, chain :| Severs(geo, d, dir, k, chain, name)
      && w == WBlock(DataOf(d.blocks, d.inodes[dir])[k], DirBlock(chain));
    FrameOf(geo, d, dir, DataOf(d.blocks, d.inodes[dir])[k], chain);
    StepUnlink(geo, d, dir, k, chain, name);
    DirNames(geo, d, dir);
    WithoutDistinct(EntriesOf(d.blocks, d.inodes[dir]), name);
  }

  /** Entering a name, for the directory and for all others. */
  lemma Linking(geo: Geo, d: Disk, dir: nat, e: Entry, w: Write)
    requires GeoOk(geo) && CrashSafe(geo, d) && LinkWrite(geo, d, dir, e, w)
    ensures w.WBlock? && IsDir(geo, d, dir) && IsDir(geo, Apply(d, w), dir)
    ensures forall f :: HasEntry(geo, Apply(d, w), dir, f) <==> HasEntry(geo, d, dir, f) || f == e
    ensures forall j, f :: j != dir ==> HasEntry(geo, Apply(d, w), j, f) == HasEntry(geo, d, j, f)
    ensures forall j :: InUse(geo, d, j) && j != dir ==>
      EntriesOf(Apply(d, w).blocks, d.inodes[j]) == EntriesOf(d.blocks, d.inodes[j])
    ensures InUse(geo, d, e.ino) && (Single(d, e.ino) ==> Unnamed(geo, d, e.ino)) ==> CrashSafe(geo, Apply(d, w))
  {
    hide CrashSafe, GeoOk, IUsed, DataOf, NamedBy, EntriesOf, AddedOnce, Unnamed, Single, Insert, Named, DirBlockOk;
    var k: nat, chain :| Places(geo, d, dir, k, chain, e)
      && w == WBlock(DataOf(d.blocks, d.inodes[dir])[k], DirBlock(chain));
    FrameOf(geo, d, dir, DataOf(d.blocks, d.inodes[dir])[k], chain);
    if InUse(geo, d, e.ino) && (Single(d, e.ino) ==> Unnamed(geo, d, e.ino)) { StepLink(geo, d, dir, k, chain, e); }
    LinkEntries(geo, d, dir, k, chain, e);
    AddedDistinct(EntriesOf(d.blocks, d.inodes[dir]), e, EntriesOf(Apply(d, w).blocks, d.inodes[dir]));
  }

  // ----- rename_file -----

  /** The directory's entries when `out` says whether those called `name` are
      gone and `in_` whether `e` came. */
  ghost predicate Entries(geo: Geo, d0: Disk, d: Disk, dir: nat, name: Name, out: bool, e: Entry, in_: bool)
    requires GeoOk(geo)
  {
    forall f :: HasEntry(geo, d, dir, f) <==>
      (in_ && f == e) || (HasEntry(geo, d0, dir, f) && !(out && f.name == name))
  }

  /** Power lost in a move, with everything before it on the medium. `out` and
      `in_` say which of its two writes the cache kept; the second carries the
      first if both are of one block. The medium is consistent unless the cache
      kept only the new name, in another block, of an inode with one link. */
  lemma RenameSurvives(fs: Ext4, log0: seq<Write>, dir: nat, e: Entry, new_: Name, n: nat, keep: set<nat>)
    requires fs.History() && MoveTrace(fs.geo, fs.base, log0, fs.log, dir, e, new_)
    requires |log0| <= n <= |fs.log| && Settled(fs.log, n, keep, |log0|)
    ensures
      var d0, d, p := Replay(fs.base, log0), Replay(fs.base, Survivors(fs.log, n, keep)), |log0|;
      var in_ := Durable(fs.log, n, keep, p + 1);
      var out := Durable(fs.log, n, keep, p) || (in_ && SameBlock(fs.log[p], fs.log[p + 1]));
      && Entries(fs.geo, d0, d, dir, e.name, out, Entry(e.ino, new_, 1), in_)
      && (CrashSafe(fs.geo, d) <==> !(in_ && !out && Single(d0, e.ino)))
      && d == d0.(blocks := d.blocks)
  {
    hide CrashSafe, SafeHistory, GeoOk, HasEntry, Replay, Survivors, Single, UnlinkWrite, LinkWrite, Entries, Apply;
    var log, p := fs.log, |log0|;
    assert log[..p] == log0 && log[p + 2] == Flush;
    SafeAt(fs, p);
    TwoWrites(fs.base, log, p, n, keep);
    RenameCase(fs.geo, Replay(fs.base, log0), dir, e, Entry(e.ino, new_, 1), log[p], log[p + 1],
      Durable(log, n, keep, p), Durable(log, n, keep, p + 1));
  }

  predicate SameBlock(x: Write, y: Write) { x.WBlock? && y.WBlock? && x.block == y.block }

  lemma RenameCase(geo: Geo, d: Disk, dir: nat, e: Entry, f: Entry, w1: Write, w2: Write, out: bool, in_: bool)
    requires GeoOk(geo) && CrashSafe(geo, d) && HasEntry(geo, d, dir, e) && f.ino == e.ino && f.name != e.name
    requires UnlinkWrite(geo, d, dir, e.name, w1) && LinkWrite(geo, Apply(d, w1), dir, f, w2)
    ensures
      var x := if out then Apply(d, w1) else d;
      var y := if in_ then Apply(x, w2) else x;
      var gone := out || (in_ && SameBlock(w1, w2));
      && Entries(geo, d, y, dir, e.name, gone, f, in_) && y == d.(blocks := y.blocks)
      && (CrashSafe(geo, y) <==> !(in_ && !gone && Single(d, e.ino)))
  {
    hide CrashSafe, GeoOk, HasEntry, UnlinkWrite, LinkWrite, Single, Apply, Entries;
    WritesBlocks(geo, d, dir, e.name, w1, f, w2);
    if out || (in_ && SameBlock(w1, w2)) {
      MovedAway(geo, d, dir, e, f, w1, w2);
    } else if in_ {
      BothNames(geo, d, dir, e, w1, f, w2);
    } else {
      EntriesSame(geo, d, dir, e.name, f);
    }
  }

  lemma EntriesSame(geo: Geo, d: Disk, dir: nat, name: Name, f: Entry)
    requires GeoOk(geo)
    ensures Entries(geo, d, d, dir, name, false, f, false)
  {
    hide GeoOk, HasEntry;
  }

  lemma WritesBlocks(geo: Geo, d: Disk, dir: nat, name: Name, w1: Write, f: Entry, w2: Write)
    requires GeoOk(geo) && UnlinkWrite(geo, d, dir, name, w1) && LinkWrite(geo, Apply(d, w1), dir, f, w2)
    ensures w1.WBlock? && w2.WBlock?
    ensures Apply(d, w1) == d.(blocks := Apply(d, w1).blocks) && Apply(d, w2) == d.(blocks := Apply(d, w2).blocks)
    ensures Apply(Apply(d, w1), w2) == d.(blocks := Apply(Apply(d, w1), w2).blocks)
    ensures SameBlock(w1, w2) ==> Apply(d, w2) == Apply(Apply(d, w1), w2)
  {
    hide GeoOk, Severs, Places, DataOf;
  }

  /** With the old name gone, whether or not the new one came. */
  lemma MovedAway(geo: Geo, d: Disk, dir: nat, e: Entry, f: Entry, w1: Write, w2: Write)
    requires GeoOk(geo) && CrashSafe(geo, d) && HasEntry(geo, d, dir, e) && f.ino == e.ino
    requires UnlinkWrite(geo, d, dir, e.name, w1) && LinkWrite(geo, Apply(d, w1), dir, f, w2)
    ensures CrashSafe(geo, Apply(d, w1)) && Entries(geo, d, Apply(d, w1), dir, e.name, true, f, false)
    ensures CrashSafe(geo, Apply(Apply(d, w1), w2))
    ensures Entries(geo, d, Apply(Apply(d, w1), w2), dir, e.name, true, f, true)
  {
    hide CrashSafe, GeoOk, HasEntry, UnlinkWrite, LinkWrite, Single, Unnamed, InUse;
    Unlinking(geo, d, dir, e.name, w1);
    MovedInode(geo, d, w1, dir, e);
    hide Apply;
    Linking(geo, Apply(d, w1), dir, f, w2);
  }

  /** An inode whose name was taken out can be named again. */
  lemma MovedInode(geo: Geo, d: Disk, w: Write, dir: nat, e: Entry)
    requires GeoOk(geo) && CrashSafe(geo, d) && HasEntry(geo, d, dir, e) && UnlinkWrite(geo, d, dir, e.name, w)
    ensures InUse(geo, Apply(d, w), e.ino) && (Single(Apply(d, w), e.ino) ==> Unnamed(geo, Apply(d, w), e.ino))
  {
    NamesUniqueOf(geo, d);
    hide CrashSafe, GeoOk, IUsed, EntriesOf, DataOf, UnlinkWrite;
    Unlinking(geo, d, dir, e.name, w);
  }

  /** The new name without the loss of the old one. */
  lemma BothNames(geo: Geo, d: Disk, dir: nat, e: Entry, w1: Write, f: Entry, w2: Write)
    requires GeoOk(geo) && CrashSafe(geo, d) && HasEntry(geo, d, dir, e) && f.ino == e.ino && f.name != e.name
    requires UnlinkWrite(geo, d, dir, e.name, w1) && LinkWrite(geo, Apply(d, w1), dir, f, w2) && !SameBlock(w1, w2)
    ensures Entries(geo, d, Apply(d, w2), dir, e.name, false, f, true)
    ensures CrashSafe(geo, Apply(d, w2)) <==> !Single(d, e.ino)
  {
    InUseOf(geo, d, dir, e);
    hide CrashSafe, GeoOk, HasEntry, UnlinkWrite, LinkWrite, InUse, Unnamed;
    LinkWithout(geo, d, dir, e.name, w1, f, w2);
    WritesBlocks(geo, d, dir, e.name, w1, f, w2);
    assert Single(Apply(d, w2), e.ino) == Single(d, e.ino);
    hide Apply, Single;
    Linking(geo, d, dir, f, w2);
    if Single(d, e.ino) { TwiceNamed(geo, Apply(d, w2), dir, e, f); }
  }

  lemma InUseOf(geo: Geo, d: Disk, dir: nat, e: Entry)
    requires GeoOk(geo) && CrashSafe(geo, d) && HasEntry(geo, d, dir, e)
    ensures InUse(geo, d, e.ino)
  {
  }

  lemma TwiceNamed(geo: Geo, d: Disk, dir: nat, e: Entry, f: Entry)
    requires GeoOk(geo) && HasEntry(geo, d, dir, e) && HasEntry(geo, d, dir, f) && e.ino == f.ino && e.name != f.name
    requires Single(d, e.ino)
    ensures !CrashSafe(geo, d)
  {
    hide HasEntry, Single, GeoOk;
  }

  /** In another block, the entry could have been made with the old name there. */
  lemma LinkWithout(geo: Geo, d: Disk, dir: nat, name: Name, w1: Write, f: Entry, w2: Write)
    requires GeoOk(geo) && CrashSafe(geo, d) && f.name != name
    requires UnlinkWrite(geo, d, dir, name, w1) && LinkWrite(geo, Apply(d, w1), dir, f, w2) && !SameBlock(w1, w2)
    ensures LinkWrite(geo, d, dir, f, w2)
  {
    hide CrashSafe, GeoOk, IUsed, EntriesOf, DataOf, Insert, Without, EntryOk, UnlinkWrite;
    Unlinking(geo, d, dir, name, w1);
    var d1 := Apply(d, w1);
    var k: nat, chain :| Places(geo, d1, dir, k, chain, f)
      && w2 == WBlock(DataOf(d1.blocks, d1.inodes[dir])[k], DirBlock(chain));
    NamedBesides(EntriesOf(d.blocks, d.inodes[dir]), name, f.name);
    hide Named;
    assert Places(geo, d, dir, k, chain, f);
  }

  lemma {:induction false} NamedBesides(es: seq<Entry>, name: Name, other: Name)
    requires other != name
    ensures Named(Without(es, name), other) == Named(es, other)
  {
    if es != [] {
      var rest := Without(es[1..], name);
      NamedBesides(es[1..], name, other);
      NamedSplit(es[0], es[1..], other);
      if es[0].name != name { NamedSplit(es[0], rest, other); }
      assert es == [es[0]] + es[1..];
    }
  }

  lemma NamedSplit(h: Entry, t: seq<Entry>, name: Name)
    ensures Named([h] + t, name) <==> h.name == name || Named(t, name)
  {
    if h.name == name { assert ([h] + t)[0].name == name; }
    if Named(t, name) {
      var i :| 0 <= i < |t| && t[i].name == name;
      assert ([h] + t)[i + 1].name == name;
    }
  }

  // ----- create_directory -----

  lemma LinksNothing(geo: Geo, d: Disk, dir: nat, links: nat)
    requires GeoOk(geo) && IsDir(geo, d, dir)
    ensures
      var d' := Apply(d, WInode(dir, d.inodes[dir].(links := links)));
      && (forall j :: IsDir(geo, d', j) == IsDir(geo, d, j))
      && (forall j, f :: HasEntry(geo, d', j, f) == HasEntry(geo, d, j, f))
  {
    var d' := Apply(d, WInode(dir, d.inodes[dir].(links := links)));
    assert EntriesOf(d'.blocks, d'.inodes[dir]) == EntriesOf(d.blocks, d.inodes[dir]);
    hide GeoOk, IUsed, EntriesOf;
    assert forall j :: j != dir && j in d.inodes ==> d'.inodes[j] == d.inodes[j];
  }

  /** From the barrier of `create_directory` on, whatever the cache kept: the
      medium is consistent and the directory stands with `.` and `..`; it has its
      name, and its parent the link, exactly if that write was kept. */
  lemma DirectorySurvives(fs: Ext4, log0: seq<Write>, pre: seq<Write>, dir: nat, e: Entry, n: nat, keep: set<nat>)
    requires fs.History() && fs.DirTrace(log0, fs.log, pre, dir, e) && |log0| + |pre| < n <= |fs.log|
    ensures
      var m, d, p := Replay(fs.base, log0 + pre + [Flush]), Replay(fs.base, Survivors(fs.log, n, keep)),
        |log0| + |pre| + 1;
      && CrashSafe(fs.geo, d) && IsDir(fs.geo, d, e.ino)
      && EntriesOf(d.blocks, d.inodes[e.ino]) == [Entry(e.ino, DOT, 2), Entry(dir, DOTDOT, 2)]
      && (forall f :: HasEntry(fs.geo, d, dir, f) <==>
            HasEntry(fs.geo, m, dir, f) || (f == e && Durable(fs.log, n, keep, p)))
      && IsDir(fs.geo, m, dir) && IsDir(fs.geo, d, dir)
      && d.inodes[dir].links == m.inodes[dir].links + (if Durable(fs.log, n, keep, p + 1) then 1 else 0)
  {
    hide CrashSafe, SafeHistory, GeoOk, HasEntry, Replay, Survivors, Unnamed, LinkWrite, fs.FoundSteps, NoFlush,
      EntriesOf, IUsed;
    var log, p := fs.log, |log0| + |pre| + 1;
    var l := log0 + pre + [Flush];
    var m := Replay(fs.base, l);
    assert log[..p] == l && log[p + 2] == Flush && l[p - 1] == Flush && log[p - 1] == log[..p][p - 1];
    SafeAt(fs, p);
    SettledBehind(log, n, keep, p);
    TwoWrites(fs.base, log, p, n, keep);
    DirectoryCase(fs.geo, m, dir, e, log[p], m.inodes[dir].links + 1, Durable(log, n, keep, p),
      Durable(log, n, keep, p + 1));
  }

  lemma SettledBehind(log: seq<Write>, n: nat, keep: set<nat>, p: nat)
    requires 0 < p <= n <= |log| && log[p - 1].Flush?
    ensures Settled(log, n, keep, p)
  {
    var f := Barrier(log[..n]);
    assert log[..n][p - 1] == log[p - 1];
  }

  /** The media that the name and the parent's link can leave. */
  lemma DirectoryCase(geo: Geo, m: Disk, dir: nat, e: Entry, w: Write, links: nat, in_: bool, counted: bool)
    requires GeoOk(geo) && CrashSafe(geo, m) && IsDir(geo, m, dir) && IsDir(geo, m, e.ino) && Unnamed(geo, m, e.ino)
    requires LinkWrite(geo, m, dir, e, w) && e.ino != dir
    ensures
      var x := if in_ then Apply(m, w) else m;
      var y := if counted then Apply(x, WInode(dir, m.inodes[dir].(links := links))) else x;
      && CrashSafe(geo, y) && IsDir(geo, y, e.ino) && IsDir(geo, y, dir)
      && EntriesOf(y.blocks, y.inodes[e.ino]) == EntriesOf(m.blocks, m.inodes[e.ino])
      && (forall f :: HasEntry(geo, y, dir, f) <==> HasEntry(geo, m, dir, f) || (f == e && in_))
      && y.inodes[dir].links == if counted then links else m.inodes[dir].links
  {
    hide CrashSafe, GeoOk, IUsed, Unnamed, LinkWrite, EntriesOf, Single;
    Linking(geo, m, dir, e, w);
    var x := if in_ then Apply(m, w) else m;
    assert x == m.(blocks := x.blocks);
    assert x.inodes[dir] == m.inodes[dir];
    StepLinks(geo, x, dir, links);
    LinksNothing(geo, x, dir, links);
    hide HasEntry;
  }

  /** Before that barrier the record and the bitmap that marks its block are
      unordered: for every directory created there is an outcome with a record
      in use that names a block nobody marked. */
  lemma DirectoryTorn(fs: Ext4, log0: seq<Write>, pre: seq<Write>, dir: nat, e: Entry) returns (n: nat, keep: set<nat>)
    requires fs.History() && fs.DirTrace(log0, fs.log, pre, dir, e)
    ensures n <= |fs.log| && n == |log0| + |pre| && Settled(fs.log, n, keep, |log0|)
    ensures
      var d := Replay(fs.base, Survivors(fs.log, n, keep));
      && IsDir(fs.geo, d, e.ino) && !CrashSafe(fs.geo, d)
      && exists b :: b in NamedBy(d.blocks, d.inodes[e.ino]) && !BUsed(fs.geo, d.bbm, b)
  {
    hide CrashSafe, SafeHistory, GeoOk, Replay, Kept, Kept2, Barrier, Survivors, Unnamed, EntriesOf, BUsed, IdleOut,
      BlockSide, DirRecord, LinkWrite, IUsed, NoFlush;
    var log := fs.log;
    var s1, s2, b, c :| pre == s1 + s2 + [WBlock(b, c)] + [WInode(e.ino, DirRecord(fs.geo, b))]
      && IdleOut(e.ino, s1) && BlockSide(s2) && !BUsed(fs.geo, Replay(fs.base, log0).bbm, b);
    var a := |log0| + |s1|;
    var z := a + |s2|;
    n := |log0| + |pre|;
    keep := Range(0, a) + Range(z, n);
    TornLog(log0, pre, s1, s2, WBlock(b, c), WInode(e.ino, DirRecord(fs.geo, b)), log, n);
    var s := Stays(log, n, keep);
    NoBarrier(log0, pre, log, n);
    assert forall k :: a <= k < n ==> (k in s <==> z <= k);
    assert Settled(log, n, keep, a);
    SettledOutcome(fs.base, log, n, keep, a);
    KeepTail(log, a, z, n, s, log[z..n]);
    LostClaim(fs.base, log0, s1, s2, b, c, e.ino, DirRecord(fs.geo, b));
    FlushSame(fs.base, log0 + pre);
    var d := Replay(fs.base, Survivors(log, n, keep));
    DirRecordNames(fs.geo, d.blocks, b);
    assert IsDir(fs.geo, d, e.ino);
    Unbacked(fs.geo, d, e.ino, b);
  }

  lemma Unbacked(geo: Geo, d: Disk, i: nat, b: nat)
    requires GeoOk(geo) && InUse(geo, d, i) && b in NamedBy(d.blocks, d.inodes[i]) && !BUsed(geo, d.bbm, b)
    ensures !CrashSafe(geo, d)
  {
    hide GeoOk, IUsed, NamedBy, BUsed;
  }

  lemma TornLog(log0: seq<Write>, pre: seq<Write>, s1: seq<Write>, s2: seq<Write>, x: Write, y: Write, log: seq<Write>,
      n: nat)
    requires pre == s1 + s2 + [x] + [y] && log0 + pre <= log && n == |log0| + |pre|
    ensures log[..n] == log0 + pre && log[..|log0| + |s1|] == log0 + s1 && log[|log0| + |s1| + |s2|..n] == [x] + [y]
    ensures log0 + pre == log0 + s1 + s2 + [x] + [y]
  {
    assert log[..n] == log0 + pre;
    assert log[..|log0| + |s1|] == (log0 + pre)[..|log0| + |s1|];
    assert log[|log0| + |s1| + |s2|..n] == (log0 + pre)[|log0| + |s1| + |s2|..n];
  }

  lemma NoBarrier(log0: seq<Write>, pre: seq<Write>, log: seq<Write>, n: nat)
    requires log0 + pre <= log && n == |log0| + |pre| && NoFlush(pre)
    ensures Barrier(log[..n]) <= |log0|
  {
    assert log[..n] == log0 + pre;
    assert forall k :: |log0| <= k < n ==> (log0 + pre)[k] == pre[k - |log0|];
  }

  /** Without the writes that mark its blocks, a record is still written. */
  lemma LostClaim(base: Disk, log0: seq<Write>, s1: seq<Write>, s2: seq<Write>, b: nat, c: Content, i: nat, rec: Record)
    requires IdleOut(i, s1) && BlockSide(s2)
    ensures
      var d := Replay(Replay(base, log0 + s1), [WBlock(b, c)] + [WInode(i, rec)]);
      var full := Replay(base, log0 + s1 + s2 + [WBlock(b, c)] + [WInode(i, rec)]);
      && d.blocks == full.blocks && d.inodes == full.inodes && d.ibm == full.ibm && d.bbm == Replay(base, log0).bbm
      && i in d.inodes && d.inodes[i] == rec
  {
    hide Replay, IdleOut, BlockSide;
    var x, tail := Replay(base, log0 + s1), [WBlock(b, c)] + [WInode(i, rec)];
    ReplayConcat(base, log0, s1);
    IdleReplay(Replay(base, log0), i, s1);
    ReplayConcat(base, log0 + s1, s2);
    BlockSideReplay(x, x, s2);
    ReplayConcat(base, log0 + s1 + s2, tail);
    assert log0 + s1 + s2 + tail == log0 + s1 + s2 + [WBlock(b, c)] + [WInode(i, rec)];
    TwoMore(x, WBlock(b, c), WInode(i, rec));
    TwoMore(Replay(x, s2), WBlock(b, c), WInode(i, rec));
  }

  lemma TwoMore(d: Disk, x: Write, y: Write)
    ensures Replay(d, [x] + [y]) == Apply(Apply(d, x), y)
  {
    hide Apply;
    var t := [x] + [y];
    assert t[..1] == [x] && [x][..0] == [];
    assert Replay(d, [x]) == Apply(Replay(d, []), x);
  }

  // ----- delete_file -----

  /** From `a` on the log releases inode `t` and then blocks. */
  ghost predicate Drops(log: seq<Write>, a: nat, t: nat) {
    && a + 2 <= |log| && log[a] == WInode(t, Blank) && log[a + 1].WInodeBitmap?
    && forall k :: a + 2 <= k < |log| ==> log[k].WBlockBitmap? || log[k].WGroupDesc? || log[k].WSuper? || log[k].Flush?
  }

  lemma {:induction false} DropOutcome(d: Disk, log: seq<Write>, a: nat, n: nat, s: set<nat>, t: nat)
    requires Drops(log, a, t) && n <= |log|
    ensures
      var x := Replay(d, Kept2(log, a, n, s));
      && x.blocks == d.blocks
      && x.inodes == (if a < n && a in s then d.inodes[t := Blank] else d.inodes)
      && x.ibm == (if a + 1 < n && a + 1 in s then Apply(d, log[a + 1]).ibm else d.ibm)
    decreases n
  {
    hide Replay, Kept2;
    if n <= a {
      NothingKept(d, log, a, n, s);
    } else {
      DropOutcome(d, log, a, n - 1, s, t);
      KeptStep(d, log, a, n, s);
    }
  }

  /** A block bitmap from `a` on is on the medium. */
  ghost predicate Freed(log: seq<Write>, a: nat, n: nat, s: set<nat>)
    requires n <= |log|
  {
    exists k :: a <= k < n && k in s && log[k].WBlockBitmap?
  }

  /** The block bitmaps are as before unless one of the new ones was kept, and
      then one of the blocks `bs` is free. */
  lemma {:induction false} FreedOutcome(geo: Geo, d: Disk, log: seq<Write>, a: nat, n: nat, s: set<nat>, bs: seq<nat>)
    requires GeoOk(geo) && n <= |log|
    requires forall k :: a <= k < n && log[k].WBlockBitmap? ==> exists b :: b in bs && Clears(geo, log[k], b)
    ensures
      var x := Replay(d, Kept2(log, a, n, s));
      if Freed(log, a, n, s) then exists b :: b in bs && !BUsed(geo, x.bbm, b) else x.bbm == d.bbm
    decreases n
  {
    hide Replay, Kept2, GeoOk, Clears, BUsed;
    if n <= a {
      NothingKept(d, log, a, n, s);
    } else {
      FreedOutcome(geo, d, log, a, n - 1, s, bs);
      KeptStep(d, log, a, n, s);
      var x := Replay(d, Kept2(log, a, n - 1, s));
      if n - 1 in s && log[n - 1].WBlockBitmap? {
        var b :| b in bs && Clears(geo, log[n - 1], b);
        ClearsBit(geo, x, log[n - 1], b);
      }
    }
  }

  lemma ClearsBit(geo: Geo, d: Disk, w: Write, b: nat)
    requires GeoOk(geo) && Clears(geo, w, b)
    ensures !BUsed(geo, Apply(d, w).bbm, b)
  {
    hide GeoOk;
  }

  /** A block marked on every medium on the way stays marked. */
  lemma {:induction false} BitKept(geo: Geo, base: Disk, log: seq<Write>, m: nat, n: nat, s: set<nat>, b: nat)
    requires GeoOk(geo) && m <= n <= |log|
    requires forall k :: m <= k <= n ==> BUsed(geo, Replay(base, log[..k]).bbm, b)
    ensures BUsed(geo, Replay(Replay(base, log[..m]), Kept2(log, m, n, s)).bbm, b)
    decreases n
  {
    hide Replay, Kept2, GeoOk, BUsed;
    var d := Replay(base, log[..m]);
    if n == m {
      NothingKept(d, log, m, n, s);
    } else {
      BitKept(geo, base, log, m, n - 1, s, b);
      KeptStep(d, log, m, n, s);
      PrefixStep(base, log, n);
      SameBit(geo, Replay(base, log[..n - 1]), Replay(d, Kept2(log, m, n - 1, s)), log[n - 1], b);
    }
  }

  lemma PrefixStep(base: Disk, log: seq<Write>, n: nat)
    requires 0 < n <= |log|
    ensures Replay(base, log[..n]) == Apply(Replay(base, log[..n - 1]), log[n - 1])
  {
    hide Apply;
    assert log[..n][..n - 1] == log[..n - 1];
  }

  lemma SameBit(geo: Geo, x: Disk, y: Disk, w: Write, b: nat)
    requires GeoOk(geo) && BUsed(geo, Apply(x, w).bbm, b) && BUsed(geo, y.bbm, b)
    ensures BUsed(geo, Apply(y, w).bbm, b)
  {
    hide GeoOk, GroupOf, BitOf;
  }

  /** So does the size of every bitmap. */
  lemma {:induction false} ShapeKept(geo: Geo, base: Disk, log: seq<Write>, m: nat, n: nat, s: set<nat>)
    requires m <= n <= |log|
    requires forall k :: m <= k <= n ==> DiskOk(geo, Replay(base, log[..k]))
    ensures DiskOk(geo, Replay(Replay(base, log[..m]), Kept2(log, m, n, s)))
    decreases n
  {
    hide Replay, Kept2, DiskOk;
    var d := Replay(base, log[..m]);
    if n == m {
      NothingKept(d, log, m, n, s);
    } else {
      ShapeKept(geo, base, log, m, n - 1, s);
      KeptStep(d, log, m, n, s);
      PrefixStep(base, log, n);
      SameShape(geo, Replay(base, log[..n - 1]), Replay(d, Kept2(log, m, n - 1, s)), log[n - 1]);
    }
  }

  lemma SameShape(geo: Geo, x: Disk, y: Disk, w: Write)
    requires DiskOk(geo, x) && DiskOk(geo, Apply(x, w)) && DiskOk(geo, y)
    ensures DiskOk(geo, Apply(y, w))
  {
    if w.WBlockBitmap? && w.g < geo.groups { assert Apply(x, w).bbm[w.g] == w.bm; }
    if w.WInodeBitmap? && w.g < geo.groups { assert Apply(x, w).ibm[w.g] == w.bm; }
  }

  /** The other in-use inodes of `y`, and `t` too unless `gone`, are on `x` with
      their records and blocks. */
  ghost predicate Remains(geo: Geo, y: Disk, x: Disk, t: nat, gone: bool)
    requires GeoOk(geo)
  {
    && x.blocks == y.blocks && DiskOk(geo, x)
    && (forall j :: InUse(geo, x, j) <==> InUse(geo, y, j) && !(gone && j == t))
    && (forall j :: InUse(geo, x, j) ==> x.inodes[j] == y.inodes[j])
    && (forall j, b :: InUse(geo, y, j) && j != t && b in NamedBy(y.blocks, y.inodes[j]) ==> BUsed(geo, x.bbm, b))
  }

  /** A medium with fewer inodes in use is safe if no name led to those gone and
      every block still named is marked. */
  lemma FewerSafe(geo: Geo, y: Disk, x: Disk, t: nat, gone: bool)
    requires GeoOk(geo) && CrashSafe(geo, y) && Remains(geo, y, x, t, gone) && (gone ==> Unnamed(geo, y, t))
    requires !gone && InUse(geo, y, t) ==> forall b :: b in NamedBy(y.blocks, y.inodes[t]) ==> BUsed(geo, x.bbm, b)
    ensures CrashSafe(geo, x)
  {
    hide NamedBy, BUsed, EntriesOf, DataOf, NoDup, DirBlockOk, DistinctNames, GeoOk, IUsed;
    assert forall j, e :: HasEntry(geo, x, j, e) ==> HasEntry(geo, y, j, e);
    assert forall j, e :: HasEntry(geo, x, j, e) && Single(x, e.ino) ==> InUse(geo, y, e.ino);
  }

  /** When a removal that was cut short leaves a safe medium. */
  lemma Verdict(geo: Geo, y: Disk, x: Disk, t: nat, dir: nat, e: Entry, cut: bool, gone: bool, freed: bool)
    requires GeoOk(geo) && CrashSafe(geo, y) && InUse(geo, y, t) && t != dir && Remains(geo, y, x, t, gone)
    requires if cut then Unnamed(geo, y, t) else HasEntry(geo, y, dir, e) && e.ino == t
    requires freed <==> exists b :: b in NamedBy(y.blocks, y.inodes[t]) && !BUsed(geo, x.bbm, b)
    ensures CrashSafe(geo, x) <==> (gone ==> cut) && (freed ==> gone)
    ensures forall f :: HasEntry(geo, x, dir, f) == HasEntry(geo, y, dir, f)
  {
    hide NamedBy, BUsed, EntriesOf, GeoOk, IUsed, CrashSafe, DiskOk, Unnamed;
    assert IsDir(geo, x, dir) == IsDir(geo, y, dir);
    if gone && !cut {
      NotSafe(geo, x, dir, e);
    } else if freed && !gone {
      var b :| b in NamedBy(y.blocks, y.inodes[t]) && !BUsed(geo, x.bbm, b);
      Unbacked(geo, x, t, b);
    } else {
      FewerSafe(geo, y, x, t, gone);
    }
  }

  /** What the writes that release inode `t`, from `a` on, can leave of the
      medium `m` before them, of which `y` has the blocks. */
  lemma Leftovers(fs: Ext4, p: nat, a: nat, n: nat, s: set<nat>, m: Disk, y: Disk, t: nat)
    requires fs.History() && p <= n <= |fs.log| && p <= a && Drops(fs.log, a, t) && m == Replay(fs.base, fs.log[..a])
    requires y.inodes == m.inodes && y.ibm == m.ibm && CrashSafe(fs.geo, y) && InUse(fs.geo, m, t)
    requires forall j :: InUse(fs.geo, m, j) ==> NamedBy(y.blocks, m.inodes[j]) == NamedBy(m.blocks, m.inodes[j])
    requires forall k :: p <= k < a ==>
      forall j, b :: InUse(fs.geo, m, j) && b in NamedBy(m.blocks, m.inodes[j]) ==>
        BUsed(fs.geo, Replay(fs.base, fs.log[..k]).bbm, b)
    requires Replay(Replay(fs.base, fs.log[..p]), Kept2(fs.log, p, n, s)) == Replay(y, Kept2(fs.log, a, n, s))
    requires forall j :: IUsed(fs.geo, fs.disk.ibm, j) <==> IUsed(fs.geo, m.ibm, j) && j != t
    ensures
      var x := Replay(y, Kept2(fs.log, a, n, s));
      Remains(fs.geo, y, x, t, (a < n && a in s) || (a + 1 < n && a + 1 in s))
  {
    hide CrashSafe, SafeHistory, GeoOk, Replay, Kept2, NamedBy, BUsed, DiskOk, IUsed;
    var log := fs.log;
    DropOutcome(y, log, a, n, s, t);
    Released(fs, a, m, y, t);
    forall k | p <= k <= n ensures DiskOk(fs.geo, Replay(fs.base, log[..k])) {
      SafeAt(fs, k);
      ShapeOf(fs.geo, Replay(fs.base, log[..k]));
    }
    ShapeKept(fs.geo, fs.base, log, p, n, s);
    forall j, b | InUse(fs.geo, y, j) && j != t && b in NamedBy(y.blocks, y.inodes[j])
      ensures BUsed(fs.geo, Replay(y, Kept2(log, a, n, s)).bbm, b)
    {
      forall k | p <= k <= n ensures BUsed(fs.geo, Replay(fs.base, log[..k]).bbm, b) {
        if a <= k { StillMarked(fs, a, k, m, t, j, b); }
      }
      BitKept(fs.geo, fs.base, log, p, n, s, b);
    }
  }

  lemma ShapeOf(geo: Geo, d: Disk)
    requires GeoOk(geo) && CrashSafe(geo, d)
    ensures DiskOk(geo, d)
  {
  }

  /** The new inode bitmap differs in the bit of `t` alone. */
  lemma Released(fs: Ext4, a: nat, m: Disk, y: Disk, t: nat)
    requires fs.History() && Drops(fs.log, a, t) && m == Replay(fs.base, fs.log[..a]) && y.ibm == m.ibm
    requires forall j :: IUsed(fs.geo, fs.disk.ibm, j) <==> IUsed(fs.geo, m.ibm, j) && j != t
    ensures forall j ::
      IUsed(fs.geo, Apply(y, fs.log[a + 1]).ibm, j) <==> IUsed(fs.geo, y.ibm, j) && j != t
  {
    hide CrashSafe, SafeHistory, GeoOk, Replay, Kept2, IUsed;
    var log, all := fs.log, Range(0, |fs.log|);
    AllKept(fs.base, log, a, |log|, all);
    assert log[..|log|] == log;
    DropOutcome(m, log, a, |log|, all, t);
  }

  /** On the way, the blocks of the other inodes stay marked. */
  lemma StillMarked(fs: Ext4, a: nat, k: nat, m: Disk, t: nat, j: nat, b: nat)
    requires fs.History() && Drops(fs.log, a, t) && a <= k <= |fs.log| && m == Replay(fs.base, fs.log[..a])
    requires forall i :: IUsed(fs.geo, fs.disk.ibm, i) <==> IUsed(fs.geo, m.ibm, i) && i != t
    requires InUse(fs.geo, m, j) && j != t && b in NamedBy(m.blocks, m.inodes[j])
    ensures BUsed(fs.geo, Replay(fs.base, fs.log[..k]).bbm, b)
  {
    hide CrashSafe, SafeHistory, GeoOk, Replay, Kept2, NamedBy, BUsed, IUsed;
    var log, all := fs.log, Range(0, |fs.log|);
    AllKept(fs.base, log, a, k, all);
    DropOutcome(m, log, a, k, all, t);
    Released(fs, a, m, m, t);
    SafeAt(fs, k);
    BackedAt(fs.geo, Replay(fs.base, log[..k]), j, b);
  }

  lemma BackedAt(geo: Geo, d: Disk, j: nat, b: nat)
    requires GeoOk(geo) && CrashSafe(geo, d) && InUse(geo, d, j) && b in NamedBy(d.blocks, d.inodes[j])
    ensures BUsed(geo, d.bbm, b)
  {
    hide GeoOk, NamedBy, BUsed, IUsed;
  }

  lemma FirstOf(d: Disk, log: seq<Write>, p: nat, n: nat, s: set<nat>)
    requires p <= n <= |log|
    ensures
      Replay(d, Kept2(log, p, n, s))
      == Replay(if p < n && p in s then Apply(d, log[p]) else d, Kept2(log, p + 1, n, s))
  {
    hide Replay, Kept2, Apply;
    if p < n {
      Kept2Split(log, p, p + 1, n, s);
      ReplayConcat(d, Kept2(log, p, p + 1, s), Kept2(log, p + 1, n, s));
      NothingKept(d, log, p, p, s);
      KeptStep(d, log, p, p + 1, s);
    } else {
      NothingKept(d, log, p, n, s);
      NothingKept(d, log, p + 1, n, s);
    }
  }

  lemma DropsIs(geo: Geo, mid: seq<Write>, s1: seq<Write>, s2: seq<Write>, log: seq<Write>, t: nat, bs: seq<nat>)
    requires GeoOk(geo) && log == mid + s1 + s2 + [Flush] && IdleOut(t, s1) && BlockSide(s2) && Clearing(geo, bs, s2)
    ensures Drops(log, |mid|, t)
    ensures forall k :: |mid| <= k < |log| && log[k].WBlockBitmap? ==> exists b :: b in bs && Clears(geo, log[k], b)
  {
    hide GeoOk, Clears;
    var a := |mid|;
    forall k | a <= k < |log|
      ensures log[k] == if k < a + 4 then s1[k - a] else if k < |log| - 1 then s2[k - a - 4] else Flush
    {
    }
    forall k | a <= k < |log| && log[k].WBlockBitmap? ensures exists b :: b in bs && Clears(geo, log[k], b) {
      assert log[k] == s2[k - a - 4];
    }
  }

  /** Which of the blocks `bs` the outcome of a removal leaves marked. */
  lemma FreedIff(geo: Geo, y: Disk, log: seq<Write>, a: nat, n: nat, s: set<nat>, t: nat)
    requires GeoOk(geo) && CrashSafe(geo, y) && InUse(geo, y, t) && n <= |log|
    requires forall k :: a <= k < |log| && log[k].WBlockBitmap? ==>
      exists b :: b in NamedBy(y.blocks, y.inodes[t]) && Clears(geo, log[k], b)
    ensures
      var x := Replay(y, Kept2(log, a, n, s));
      Freed(log, a, n, s) <==> exists b :: b in NamedBy(y.blocks, y.inodes[t]) && !BUsed(geo, x.bbm, b)
  {
    hide GeoOk, CrashSafe, Replay, Kept2, NamedBy, BUsed, IUsed, Clears, Freed;
    FreedOutcome(geo, y, log, a, n, s, NamedBy(y.blocks, y.inodes[t]));
    forall b | b in NamedBy(y.blocks, y.inodes[t]) ensures BUsed(geo, y.bbm, b) {
      BackedAt(geo, y, t, b);
    }
  }

  /** Power lost in the removal of a file, with everything before it on the
      medium. The file has its name unless the first write was kept, and its
      inode is in use unless the second or the third was; the medium is
      consistent exactly if the inode did not go before the name, nor any of its
      blocks before the inode. */
  lemma DeleteSurvives(fs: Ext4, log0: seq<Write>, dir: nat, e: Entry, s1: seq<Write>, s2: seq<Write>, n: nat,
      keep: set<nat>)
    requires fs.History() && DropTrace(fs.geo, fs.base, log0, fs.log, dir, e, s1, s2)
    requires |log0| <= n <= |fs.log| && Settled(fs.log, n, keep, |log0|)
    ensures
      var d0, d, p := Replay(fs.base, log0), Replay(fs.base, Survivors(fs.log, n, keep)), |log0|;
      var cut := Durable(fs.log, n, keep, p);
      var gone := Durable(fs.log, n, keep, p + 1) || Durable(fs.log, n, keep, p + 2);
      var freed := Freed(fs.log, p + 1, n, Stays(fs.log, n, keep));
      && (CrashSafe(fs.geo, d) <==> (gone ==> cut) && (freed ==> gone))
      && (forall f :: HasEntry(fs.geo, d, dir, f) <==> HasEntry(fs.geo, d0, dir, f) && !(cut && f.name == e.name))
      && (forall j :: InUse(fs.geo, d, j) <==> InUse(fs.geo, d0, j) && !(gone && j == e.ino))
      && (forall j :: InUse(fs.geo, d, j) ==> d.inodes[j] == d0.inodes[j])
  {
    hide CrashSafe, SafeHistory, GeoOk, HasEntry, Replay, Kept2, Barrier, Survivors, UnlinkWrite, Erasing, Single,
      Remains, Drops, Freed, InUse, NamedBy, Unnamed;
    var log, p, t, s := fs.log, |log0|, e.ino, Stays(fs.log, n, keep);
    var d0, w := Replay(fs.base, log0), log[|log0|];
    var m := Apply(d0, w);
    assert log[..p] == log0;
    PrefixStep(fs.base, log, p + 1);
    SafeAt(fs, p);
    SafeAt(fs, p + 1);
    SettledOutcome(fs.base, log, n, keep, p);
    FirstOf(d0, log, p, n, s);
    var cut := p < n && p in s;
    var y := if cut then m else d0;
    FileDropped(fs, log0, dir, e, s1, s2, d0, m, y);
    Leftovers(fs, p, p + 1, n, s, m, y, t);
    FreedIff(fs.geo, y, log, p + 1, n, s, t);
    var x := Replay(y, Kept2(log, p + 1, n, s));
    var gone := (p + 1 < n && p + 1 in s) || (p + 2 < n && p + 2 in s);
    Verdict(fs.geo, y, x, t, dir, e, cut, gone, Freed(log, p + 1, n, s));
    RemainsAre(fs.geo, y, x, t, gone);
  }

  lemma RemainsAre(geo: Geo, y: Disk, x: Disk, t: nat, gone: bool)
    requires GeoOk(geo) && Remains(geo, y, x, t, gone)
    ensures forall j :: InUse(geo, x, j) <==> InUse(geo, y, j) && !(gone && j == t)
    ensures forall j :: InUse(geo, x, j) ==> x.inodes[j] == y.inodes[j]
  {
    hide GeoOk, InUse, NamedBy, BUsed, DiskOk;
  }

  /** The removal of a file as `Leftovers` and `Verdict` need it. */
  lemma FileDropped(fs: Ext4, log0: seq<Write>, dir: nat, e: Entry, s1: seq<Write>, s2: seq<Write>, d0: Disk, m: Disk,
      y: Disk)
    requires fs.History() && DropTrace(fs.geo, fs.base, log0, fs.log, dir, e, s1, s2) && d0 == Replay(fs.base, log0)
    requires m == Apply(d0, fs.log[|log0|]) && (y == m || y == d0) && CrashSafe(fs.geo, d0) && CrashSafe(fs.geo, m)
    requires Replay(fs.base, fs.log[..|log0|]) == d0
    ensures Drops(fs.log, |log0| + 1, e.ino) && InUse(fs.geo, m, e.ino) && InUse(fs.geo, y, e.ino)
    ensures y.inodes == m.inodes == d0.inodes && y.ibm == m.ibm == d0.ibm && CrashSafe(fs.geo, y)
    ensures forall j :: InUse(fs.geo, m, j) ==> NamedBy(y.blocks, m.inodes[j]) == NamedBy(m.blocks, m.inodes[j])
    ensures forall j, b :: InUse(fs.geo, m, j) && b in NamedBy(m.blocks, m.inodes[j]) ==> BUsed(fs.geo, d0.bbm, b)
    ensures forall j :: IUsed(fs.geo, fs.disk.ibm, j) <==> IUsed(fs.geo, m.ibm, j) && j != e.ino
    ensures forall k :: |log0| + 1 <= k < |fs.log| && fs.log[k].WBlockBitmap? ==>
      exists b :: b in NamedBy(y.blocks, y.inodes[e.ino]) && Clears(fs.geo, fs.log[k], b)
    ensures Unnamed(fs.geo, m, e.ino) && HasEntry(fs.geo, d0, dir, e)
    ensures forall f :: HasEntry(fs.geo, m, dir, f) <==> HasEntry(fs.geo, d0, dir, f) && f.name != e.name
    ensures forall j :: InUse(fs.geo, y, j) == InUse(fs.geo, d0, j)
  {
    hide CrashSafe, SafeHistory, GeoOk, HasEntry, Replay, UnlinkWrite, Single, Drops, NamedBy, Unnamed, BUsed, IUsed,
      IdleOut, BlockSide, Clearing, Clears;
    var log, w := fs.log, fs.log[|log0|];
    Unlinking(fs.geo, d0, dir, e.name, w);
    assert forall j :: InUse(fs.geo, m, j) == InUse(fs.geo, d0, j);
    DropsIs(fs.geo, log0 + [w], s1, s2, log, e.ino, NamedBy(m.blocks, m.inodes[e.ino]));
    forall j, b | InUse(fs.geo, m, j) && b in NamedBy(m.blocks, m.inodes[j]) ensures BUsed(fs.geo, d0.bbm, b) {
      BackedAt(fs.geo, d0, j, b);
    }
  }

  /** Power lost in the removal of an emptied directory, before its barrier: the
      medium is consistent, and the name and the parent's link are gone exactly
      if that write was kept. */
  lemma DeleteDirFirst(fs: Ext4, log0: seq<Write>, dir: nat, e: Entry, s1: seq<Write>, s2: seq<Write>, n: nat,
      keep: set<nat>)
    requires fs.History() && DropDirTrace(fs.geo, fs.base, log0, fs.log, dir, e, s1, s2)
    requires |log0| <= n <= |log0| + 3 && n <= |fs.log| && Settled(fs.log, n, keep, |log0|)
    ensures
      var d0, d, p := Replay(fs.base, log0), Replay(fs.base, Survivors(fs.log, n, keep)), |log0|;
      && CrashSafe(fs.geo, d) && IsDir(fs.geo, d0, dir) && IsDir(fs.geo, d, dir)
      && (forall f :: HasEntry(fs.geo, d, dir, f) <==>
            HasEntry(fs.geo, d0, dir, f) && !(Durable(fs.log, n, keep, p) && f.name == e.name))
      && d.inodes[dir].links == d0.inodes[dir].links - (if Durable(fs.log, n, keep, p + 1) then 1 else 0)
  {
    hide CrashSafe, SafeHistory, GeoOk, HasEntry, Replay, Survivors, UnlinkWrite, Erasing, IUsed;
    var log, p := fs.log, |log0|;
    var d0 := Replay(fs.base, log0);
    EntryDir(fs.geo, d0, dir, e);
    var v := WInode(dir, d0.inodes[dir].(links := d0.inodes[dir].links - 1));
    DropDirLog(log0, log[p], v, s1, s2, log);
    SafeAt(fs, p);
    TwoWrites(fs.base, log, p, n, keep);
    Unlinking(fs.geo, d0, dir, e.name, log[p]);
    UnlinkedCase(fs.geo, d0, dir, e.name, log[p], d0.inodes[dir].links - 1, Durable(log, n, keep, p),
      Durable(log, n, keep, p + 1));
  }

  lemma EntryDir(geo: Geo, d: Disk, dir: nat, e: Entry)
    requires GeoOk(geo) && HasEntry(geo, d, dir, e)
    ensures IsDir(geo, d, dir)
  {
  }

  lemma DropDirLog(log0: seq<Write>, w: Write, v: Write, s1: seq<Write>, s2: seq<Write>, log: seq<Write>)
    requires log == log0 + [w] + [v] + [Flush] + s1 + s2 + [Flush]
    ensures log[..|log0|] == log0 && log[|log0|] == w && log[|log0| + 1] == v && log[|log0| + 2] == Flush
    ensures log[..|log0| + 3] == log0 + [w] + [v] + [Flush]
  {
    var mid := log0 + [w] + [v] + [Flush];
    assert log == mid + (s1 + s2 + [Flush]);
    assert mid[..|log0|] == log0;
  }

  lemma UnlinkedCase(geo: Geo, m: Disk, dir: nat, name: Name, w: Write, links: nat, out: bool, counted: bool)
    requires GeoOk(geo) && CrashSafe(geo, m) && IsDir(geo, m, dir) && UnlinkWrite(geo, m, dir, name, w)
    ensures
      var x := if out then Apply(m, w) else m;
      var y := if counted then Apply(x, WInode(dir, m.inodes[dir].(links := links))) else x;
      && CrashSafe(geo, y) && IsDir(geo, y, dir)
      && (forall f :: HasEntry(geo, y, dir, f) <==> HasEntry(geo, m, dir, f) && !(out && f.name == name))
      && y.inodes[dir].links == if counted then links else m.inodes[dir].links
  {
    hide CrashSafe, GeoOk, IUsed, UnlinkWrite, EntriesOf;
    Unlinking(geo, m, dir, name, w);
    var x := if out then Apply(m, w) else m;
    assert x.inodes == m.inodes && x.ibm == m.ibm;
    StepLinks(geo, x, dir, links);
    LinksNothing(geo, x, dir, links);
    hide HasEntry;
  }

  /** And after it, when no name leads to the directory: the medium is consistent
      exactly if none of its blocks was freed before its inode. */
  lemma DeleteDirRest(fs: Ext4, log0: seq<Write>, dir: nat, e: Entry, s1: seq<Write>, s2: seq<Write>, n: nat,
      keep: set<nat>)
    requires fs.History() && DropDirTrace(fs.geo, fs.base, log0, fs.log, dir, e, s1, s2)
    requires |log0| + 3 <= n <= |fs.log|
    ensures
      var d, p := Replay(fs.base, Survivors(fs.log, n, keep)), |log0| + 3;
      var gone := Durable(fs.log, n, keep, p) || Durable(fs.log, n, keep, p + 1);
      && (CrashSafe(fs.geo, d) <==> (Freed(fs.log, p, n, Stays(fs.log, n, keep)) ==> gone))
      && Unnamed(fs.geo, d, e.ino) && (InUse(fs.geo, d, e.ino) <==> !gone)
  {
    hide CrashSafe, SafeHistory, GeoOk, HasEntry, Replay, Kept2, Barrier, Survivors, UnlinkWrite, Remains, Drops, Freed,
      NamedBy, Unnamed, IdleOut, BlockSide, Clearing, Clears, IUsed;
    var log, p, t, s := fs.log, |log0| + 3, e.ino, Stays(fs.log, n, keep);
    var d0 := Replay(fs.base, log0);
    EntryDir(fs.geo, d0, dir, e);
    DropDirLog(log0, log[|log0|], WInode(dir, d0.inodes[dir].(links := d0.inodes[dir].links - 1)), s1, s2, log);
    var m := Replay(fs.base, log[..p]);
    SafeAt(fs, p);
    SettledBehind(log, n, keep, p);
    SettledOutcome(fs.base, log, n, keep, p);
    DropsIs(fs.geo, log[..p], s1, s2, log, t, NamedBy(m.blocks, m.inodes[t]));
    Leftovers(fs, p, p, n, s, m, m, t);
    FreedIff(fs.geo, m, log, p, n, s, t);
    var x := Replay(m, Kept2(log, p, n, s));
    var gone := (p < n && p in s) || (p + 1 < n && p + 1 in s);
    Verdict(fs.geo, m, x, t, dir, e, true, gone, Freed(log, p, n, s));
    RemainsAre(fs.geo, m, x, t, gone);
    RemainsUnnamed(fs.geo, m, x, t, gone);
  }

  lemma RemainsUnnamed(geo: Geo, y: Disk, x: Disk, t: nat, gone: bool)
    requires GeoOk(geo) && Remains(geo, y, x, t, gone) && Unnamed(geo, y, t)
    ensures Unnamed(geo, x, t)
  {
    hide GeoOk, IUsed, NamedBy, BUsed, DiskOk, EntriesOf;
    assert forall j, f :: HasEntry(geo, x, j, f) ==> HasEntry(geo, y, j, f);
  }
}
