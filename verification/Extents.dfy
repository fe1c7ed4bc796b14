/** Physical extents, the logical runs of a file, and how one is laid out as
    the other (core/src/fs/ext4/file.rs, `coalesce_extents` and `runs_from`). */
module Extents {
  import opened Bytes

  /** `ee_len` above this marks an uninitialised extent. */
  const MAX_EXTENT_LEN: nat := 32768
  const MAX_INLINE_EXTENTS: nat := 4

  /** A contiguous run of physical blocks, as the allocator hands it out. */
  datatype Extent = Extent(physical: nat, len: nat)

  /** `len` logical blocks from `logical`, backed by the blocks from `physical`. */
  datatype Run = Run(logical: nat, physical: nat, len: nat)

  /** Blocks `p`, `p + 1`, ..., `p + n - 1`. */
  function Span(p: nat, n: nat): (s: seq<nat>)
    ensures |s| == n
    ensures forall i :: 0 <= i < n ==> s[i] == p + i
  {
    seq(n, i requires 0 <= i => p + i)
  }

  lemma SpanSplit(p: nat, a: nat, b: nat)
    ensures Span(p, a + b) == Span(p, a) + Span(p + a, b)
  {
  }

  /** The blocks of a list of extents, in file order. */
  function Flat(es: seq<Extent>): seq<nat> {
    if es == [] then [] else Flat(es[..|es| - 1]) + Span(es[|es| - 1].physical, es[|es| - 1].len)
  }

  /** The blocks of a list of runs: entry `l` backs the file's logical block `l`
      whenever the runs are laid end to end. */
  function FlatRuns(rs: seq<Run>): seq<nat> {
    if rs == [] then [] else FlatRuns(rs[..|rs| - 1]) + Span(rs[|rs| - 1].physical, rs[|rs| - 1].len)
  }

  ghost predicate NoDup(s: seq<nat>) {
    forall i, j :: 0 <= i < j < |s| ==> s[i] != s[j]
  }

  /** Runs laid end to end from logical block 0, each short enough to be stored
      as an initialised extent. */
  ghost predicate Tiled(rs: seq<Run>) {
    forall i :: 0 <= i < |rs| ==>
      0 < rs[i].len <= MAX_EXTENT_LEN && rs[i].logical == |FlatRuns(rs[..i])|
  }

  lemma FlatPush(es: seq<Extent>, e: Extent)
    ensures Flat(es + [e]) == Flat(es) + Span(e.physical, e.len)
  {
    assert (es + [e])[..|es|] == es;
  }

  lemma {:induction false} FlatConcat(a: seq<Extent>, b: seq<Extent>)
    ensures Flat(a + b) == Flat(a) + Flat(b)
  {
    if b == [] {
      assert a + b == a;
    } else {
      var b', e := b[..|b| - 1], b[|b| - 1];
      FlatConcat(a, b');
      hide Flat, Span;
      assert b == b' + [e];
      FlatPush(b', e);
      FlatPush(a + b', e);
      assert a + b == (a + b') + [e];
      Assoc(Flat(a), Flat(b'), Span(e.physical, e.len));
    }
  }

  lemma FlatRunsPush(rs: seq<Run>, r: Run)
    ensures FlatRuns(rs + [r]) == FlatRuns(rs) + Span(r.physical, r.len)
  {
    assert (rs + [r])[..|rs|] == rs;
  }

  lemma FlatRunsPrefix(rs: seq<Run>, i: nat)
    requires i <= |rs|
    ensures |FlatRuns(rs[..i])| <= |FlatRuns(rs)|
    ensures FlatRuns(rs)[..|FlatRuns(rs[..i])|] == FlatRuns(rs[..i])
  {
    if i < |rs| {
      FlatRunsPrefix(rs[..|rs| - 1], i);
      assert rs[..|rs| - 1][..i] == rs[..i];
    } else {
      assert rs[..i] == rs;
    }
  }

  /** Growing the last extent by one block appends that block. */
  lemma FlatGrow(es: seq<Extent>, e: Extent)
    ensures Flat(es + [Extent(e.physical, e.len + 1)]) == Flat(es + [e]) + [e.physical + e.len]
  {
    FlatPush(es, Extent(e.physical, e.len + 1));
    FlatPush(es, e);
  }

  // ----- coalescing -----

  function CoalesceStep(merged: seq<Extent>, e: Extent): seq<Extent> {
    if merged != [] && merged[|merged| - 1].physical + merged[|merged| - 1].len == e.physical
    then merged[..|merged| - 1] + [Extent(merged[|merged| - 1].physical, merged[|merged| - 1].len + e.len)]
    else merged + [e]
  }

  function Coalesced(es: seq<Extent>): seq<Extent> {
    if es == [] then [] else CoalesceStep(Coalesced(es[..|es| - 1]), es[|es| - 1])
  }

  lemma CoalesceStepFlat(m: seq<Extent>, e: Extent)
    ensures Flat(CoalesceStep(m, e)) == Flat(m) + Span(e.physical, e.len)
  {
    if m != [] && m[|m| - 1].physical + m[|m| - 1].len == e.physical {
      var init, l := m[..|m| - 1], m[|m| - 1];
      assert m == init + [l];
      FlatPush(init, Extent(l.physical, l.len + e.len));
      assert Span(l.physical, l.len + e.len) == Span(l.physical, l.len) + Span(e.physical, e.len);
    } else {
      FlatPush(m, e);
    }
  }

  /** Merging neighbours changes no block and no block's place in the file. */
  lemma {:induction false} CoalescedFlat(es: seq<Extent>)
    ensures Flat(Coalesced(es)) == Flat(es)
  {
    if es != [] {
      CoalescedFlat(es[..|es| - 1]);
      CoalesceStepFlat(Coalesced(es[..|es| - 1]), es[|es| - 1]);
    }
  }

  method Coalesce(extents: seq<Extent>) returns (merged: seq<Extent>)
    ensures merged == Coalesced(extents)
    ensures Flat(merged) == Flat(extents)
  {
    merged := [];
    for k := 0 to |extents|
      invariant merged == Coalesced(extents[..k])
    {
      var e := extents[k];
      assert extents[..k + 1][..k] == extents[..k];
      if |merged| > 0 && merged[|merged| - 1].physical + merged[|merged| - 1].len == e.physical {
        merged := merged[..|merged| - 1] + [merged[|merged| - 1].(len := merged[|merged| - 1].len + e.len)];
      } else {
        merged := merged + [e];
      }
    }
    assert extents[..|extents|] == extents;
    CoalescedFlat(extents);
  }

  // ----- laying extents out as runs -----

  /** Pieces of at most `MAX_EXTENT_LEN` blocks needed for these extents. */
  function Pieces(es: seq<Extent>): nat {
    if es == [] then 0
    else Pieces(es[..|es| - 1]) + CeilPieces(es[|es| - 1].len)
  }

  lemma PiecesPush(es: seq<Extent>, e: Extent)
    ensures Pieces(es + [e]) == Pieces(es) + CeilPieces(e.len)
  {
    assert (es + [e])[..|es|] == es;
  }

  lemma TiledPush(rs: seq<Run>, r: Run)
    requires Tiled(rs) && r.logical == |FlatRuns(rs)| && 0 < r.len <= MAX_EXTENT_LEN
    ensures Tiled(rs + [r])
  {
    var x := rs + [r];
    forall i | 0 <= i < |x|
      ensures 0 < x[i].len <= MAX_EXTENT_LEN && x[i].logical == |FlatRuns(x[..i])|
    {
      assert x[..i] == rs[..i];
      assert i == |rs| ==> rs[..i] == rs;
    }
  }

  /** Carving the next piece off an extent appends exactly its blocks. */
  lemma CarveStep(runs: seq<Run>, base: seq<nat>, e: Extent, offset: nat, len: nat)
    requires Tiled(runs) && FlatRuns(runs) == base + Span(e.physical, offset)
    requires 0 < len <= MAX_EXTENT_LEN
    ensures
      var run := Run(|FlatRuns(runs)|, e.physical + offset, len);
      && Tiled(runs + [run])
      && FlatRuns(runs + [run]) == base + Span(e.physical, offset + len)
  {
    hide FlatRuns, Tiled, Span;
    var run := Run(|FlatRuns(runs)|, e.physical + offset, len);
    FlatRunsPush(runs, run);
    TiledPush(runs, run);
    SpanSplit(e.physical, offset, len);
    Assoc(base, Span(e.physical, offset), Span(run.physical, len));
  }

  function CeilPieces(n: nat): nat { (n + MAX_EXTENT_LEN - 1) / MAX_EXTENT_LEN }

  /** Lay one merged extent out as runs of at most `MAX_EXTENT_LEN` blocks. */
  method Carve(before: seq<Run>, e: Extent) returns (runs: seq<Run>)
    requires Tiled(before)
    ensures Tiled(runs) && FlatRuns(runs) == FlatRuns(before) + Span(e.physical, e.len)
    ensures |runs| == |before| + CeilPieces(e.len)
  {
    hide Tiled, FlatRuns, Span;
    runs := before;
    var logical := |FlatRuns(before)|;
    var offset := 0;
    Assoc(FlatRuns(before), [], []);
    while offset < e.len
      invariant offset <= e.len
      invariant offset == e.len || offset % MAX_EXTENT_LEN == 0
      invariant Tiled(runs) && logical == |FlatRuns(runs)|
      invariant FlatRuns(runs) == FlatRuns(before) + Span(e.physical, offset)
      invariant |runs| == |before| + CeilPieces(offset)
    {
      var len := if e.len - offset < MAX_EXTENT_LEN then e.len - offset else MAX_EXTENT_LEN;
      CarveStep(runs, FlatRuns(before), e, offset, len);
      assert CeilPieces(offset + len) == CeilPieces(offset) + 1;
      runs := runs + [Run(logical, e.physical + offset, len)];
      logical := logical + len;
      offset := offset + len;
    }
  }

  /** `runs_from`: the file layout of `extents`, refused exactly when it needs
      more runs than one leaf block can hold. */
  method RunsFrom(extents: seq<Extent>, maxRuns: nat) returns (r: Option<seq<Run>>)
    ensures r.None? <==> Pieces(Coalesced(extents)) > maxRuns
    ensures r.Some? ==> Tiled(r.value) && FlatRuns(r.value) == Flat(extents)
    ensures r.Some? ==> |r.value| == Pieces(Coalesced(extents))
  {
    var runs: seq<Run> := [];
    var merged := Coalesce(extents);
    assert Tiled([]);
    hide Tiled, Coalesced;
    for k := 0 to |merged|
      invariant Tiled(runs) && FlatRuns(runs) == Flat(merged[..k])
      invariant |runs| == Pieces(merged[..k])
    {
      hide FlatRuns, Flat, Pieces, Span;
      assert merged[..k + 1] == merged[..k] + [merged[k]];
      FlatPush(merged[..k], merged[k]);
      PiecesPush(merged[..k], merged[k]);
      runs := Carve(runs, merged[k]);
    }
    assert merged[..|merged|] == merged;
    r := if |runs| > maxRuns then None else Some(runs);
  }

  /** The blocks of a prefix of the extents stay where they are when more
      extents are appended: what was written is never remapped. */
  lemma LayoutStable(held: seq<Extent>, more: seq<Extent>, before: seq<Run>, after: seq<Run>)
    requires FlatRuns(before) == Flat(held) && FlatRuns(after) == Flat(held + more)
    ensures FlatRuns(before) <= FlatRuns(after)
  {
    FlatConcat(held, more);
  }

  // ----- mapping a logical block -----

  /** The run holding logical block `l`, or `|rs|`. */
  function RunIndex(rs: seq<Run>, l: nat): (i: nat)
    ensures i <= |rs|
    ensures i < |rs| ==> rs[i].logical <= l < rs[i].logical + rs[i].len
    ensures forall j :: 0 <= j < i ==> !(rs[j].logical <= l < rs[j].logical + rs[j].len)
  {
    if rs == [] || rs[0].logical <= l < rs[0].logical + rs[0].len then 0 else 1 + RunIndex(rs[1..], l)
  }

  /** In an end-to-end layout every mapped block is found in the run holding
      it, and the rest of that run is contiguous with it. */
  lemma RunIndexTiled(rs: seq<Run>, l: nat)
    requires Tiled(rs)
    ensures RunIndex(rs, l) < |rs| <==> l < |FlatRuns(rs)|
    ensures RunIndex(rs, l) < |rs| ==>
      var r := rs[RunIndex(rs, l)];
      && r.logical + r.len <= |FlatRuns(rs)|
      && FlatRuns(rs)[r.logical..r.logical + r.len] == Span(r.physical, r.len)
  {
    forall i | 0 <= i < |rs|
      ensures rs[i].logical + rs[i].len <= |FlatRuns(rs)|
      ensures FlatRuns(rs)[rs[i].logical..rs[i].logical + rs[i].len] == Span(rs[i].physical, rs[i].len)
    {
      RunSlice(rs, i);
    }
    if l < |FlatRuns(rs)| {
      var i := RunHolding(rs, l);
    }
  }

  lemma RunSlice(rs: seq<Run>, i: nat)
    requires Tiled(rs) && i < |rs|
    ensures rs[i].logical + rs[i].len <= |FlatRuns(rs)|
    ensures FlatRuns(rs)[rs[i].logical..rs[i].logical + rs[i].len] == Span(rs[i].physical, rs[i].len)
  {
    assert rs[..i + 1] == rs[..i] + [rs[i]];
    FlatRunsPush(rs[..i], rs[i]);
    FlatRunsPrefix(rs, i + 1);
    var cut := rs[i].logical + rs[i].len;
    assert FlatRuns(rs)[rs[i].logical..cut] == FlatRuns(rs)[..cut][rs[i].logical..];
  }

  lemma RunHolding(rs: seq<Run>, l: nat) returns (i: nat)
    requires Tiled(rs) && l < |FlatRuns(rs)|
    ensures i < |rs| && rs[i].logical <= l < rs[i].logical + rs[i].len
  {
    i := |rs| - 1;
    assert rs[..|rs|] == rs;
    while l < rs[i].logical
      invariant 0 <= i < |rs| && l < |FlatRuns(rs[..i + 1])|
      decreases i
    {
      i := i - 1;
    }
    assert rs[..i + 1] == rs[..i] + [rs[i]];
    FlatRunsPush(rs[..i], rs[i]);
  }
}
