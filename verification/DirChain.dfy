/** A directory block as a chain of variable-length records
    (core/src/fs/ext4/dirent.rs): what inserting and removing a record does to
    the chain and to the list of live entries a reader sees. */
module DirChain {
  import opened Bytes

  const DIRENT_HEADER: nat := 8

  type Name = seq<byte>

  /** What `find_entry` and `list_inode` report of a live record. */
  datatype Entry = Entry(ino: nat, name: Name, fileType: byte)

  /** One record. `ino == 0` marks free space; the name of such a record is
      meaningless and normalised away. */
  datatype Rec = Rec(len: nat, entry: Option<Entry>)

  function RecordLen(nameLen: nat): (n: nat)
    ensures n % 4 == 0 && DIRENT_HEADER + nameLen <= n < DIRENT_HEADER + nameLen + 4
  {
    (DIRENT_HEADER + nameLen + 3) / 4 * 4
  }

  /** Bytes of the record that its own name needs. */
  function OwnLen(r: Rec): nat {
    if r.entry.None? then 0 else RecordLen(|r.entry.value.name|)
  }

  predicate EntryOk(e: Entry) {
    0 < e.ino < U32_LIMIT && |e.name| < 0x100
  }

  predicate RecOk(r: Rec) {
    && DIRENT_HEADER <= r.len && r.len % 4 == 0
    && (r.entry.Some? ==> EntryOk(r.entry.value))
    && OwnLen(r) <= r.len
  }

  predicate ChainOk(c: seq<Rec>) {
    forall i :: 0 <= i < |c| ==> RecOk(c[i])
  }

  /** Bytes tiled by the chain. */
  function Tiles(c: seq<Rec>): nat {
    if c == [] then 0 else c[0].len + Tiles(c[1..])
  }

  /** The entries a reader sees, in block order. */
  function Live(c: seq<Rec>): seq<Entry> {
    if c == [] then []
    else (if c[0].entry.Some? then [c[0].entry.value] else []) + Live(c[1..])
  }

  const DOT: Name := [46]
  const DOTDOT: Name := [46, 46]

  predicate Real(e: Entry) { e.name != DOT && e.name != DOTDOT }

  /** The entries of a listing: all but `.` and `..`. */
  function Listed(es: seq<Entry>): (r: seq<Entry>)
    ensures forall e :: e in r <==> e in es && Real(e)
  {
    if es == [] then []
    else
      assert es == es[..|es| - 1] + [es[|es| - 1]];
      Listed(es[..|es| - 1]) + (if Real(es[|es| - 1]) then [es[|es| - 1]] else [])
  }

  function Lookup(c: seq<Rec>, name: Name): Option<Entry> {
    if c == [] then None
    else if c[0].entry.Some? && c[0].entry.value.name == name then c[0].entry
    else Lookup(c[1..], name)
  }

  predicate Fits(r: Rec, needed: nat) {
    OwnLen(r) + needed <= r.len
  }

  /** The records that replace `r` when `e` is placed in its slack. */
  function Split(r: Rec, e: Entry): seq<Rec>
    requires OwnLen(r) <= r.len
  {
    if r.entry.None? then [Rec(r.len, Some(e))]
    else [Rec(OwnLen(r), r.entry), Rec(r.len - OwnLen(r), Some(e))]
  }

  /** Index of the first record with `needed` bytes of slack, or `|c|`. */
  function FirstFit(c: seq<Rec>, needed: nat): (i: nat)
    ensures i <= |c|
    ensures i < |c| ==> Fits(c[i], needed)
    ensures forall j :: 0 <= j < i ==> !Fits(c[j], needed)
  {
    if c == [] || Fits(c[0], needed) then 0 else 1 + FirstFit(c[1..], needed)
  }

  /** Place `e` in the first record with enough slack. */
  function Insert(c: seq<Rec>, e: Entry): Option<seq<Rec>> {
    var i := FirstFit(c, RecordLen(|e.name|));
    if i == |c| then None else Some(c[..i] + Split(c[i], e) + c[i + 1..])
  }

  /** Index of the first live record called `name`, or `|c|`. */
  function IndexOf(c: seq<Rec>, name: Name): (i: nat)
    ensures i <= |c|
    ensures i < |c| ==> c[i].entry.Some? && c[i].entry.value.name == name
    ensures forall j :: 0 <= j < i ==> !(c[j].entry.Some? && c[j].entry.value.name == name)
  {
    if c == [] then 0
    else if c[0].entry.Some? && c[0].entry.value.name == name then 0
    else 1 + IndexOf(c[1..], name)
  }

  /** Drop the first record called `name`: its bytes go to the record before
      it, or it becomes free space when nothing precedes it in the block. */
  function Remove(c: seq<Rec>, name: Name): Option<seq<Rec>> {
    var i := IndexOf(c, name);
    if i == |c| then None
    else if i == 0 then Some([Rec(c[0].len, None)] + c[1..])
    else Some(c[..i - 1] + [Rec(c[i - 1].len + c[i].len, c[i - 1].entry)] + c[i + 1..])
  }

  /** The chain after `name` is removed, if it is there. */
  function Removed(c: seq<Rec>, name: Name): seq<Rec> {
    if Remove(c, name).Some? then Remove(c, name).value else c
  }

  // ----- entry lists -----

  predicate Named(es: seq<Entry>, name: Name) {
    exists i :: 0 <= i < |es| && es[i].name == name
  }

  /** `es` without its first entry called `name`. */
  function Without(es: seq<Entry>, name: Name): seq<Entry> {
    if es == [] then []
    else if es[0].name == name then es[1..]
    else [es[0]] + Without(es[1..], name)
  }

  lemma LiveConcat(a: seq<Rec>, b: seq<Rec>)
    ensures Live(a + b) == Live(a) + Live(b)
    ensures Tiles(a + b) == Tiles(a) + Tiles(b)
  {
    if a == [] {
      assert a + b == b;
    } else {
      assert (a + b)[1..] == a[1..] + b;
      LiveConcat(a[1..], b);
    }
  }

  lemma {:induction false} LookupIsLive(c: seq<Rec>, name: Name)
    ensures Lookup(c, name).Some? <==> Named(Live(c), name)
    ensures Lookup(c, name).Some? ==> Lookup(c, name).value in Live(c) && Lookup(c, name).value.name == name
    ensures Lookup(c, name).Some? <==> IndexOf(c, name) < |c|
    ensures Lookup(c, name).Some? ==> Lookup(c, name) == c[IndexOf(c, name)].entry
  {
    if c != [] {
      LookupIsLive(c[1..], name);
      var h := if c[0].entry.Some? then [c[0].entry.value] else [];
      assert Live(c) == h + Live(c[1..]);
      if h != [] && h[0].name == name {
        assert Live(c)[0].name == name;
      } else if Lookup(c, name).Some? {
        var i :| 0 <= i < |Live(c[1..])| && Live(c[1..])[i].name == name;
        assert Live(c)[|h| + i].name == name;
      }
    }
  }

  /** `c` with the records from `i` up to `j` replaced by `m`. */
  function Replace(c: seq<Rec>, i: nat, j: nat, m: seq<Rec>): seq<Rec>
    requires i <= j <= |c|
  {
    c[..i] + m + c[j..]
  }

  lemma ReplaceLive(c: seq<Rec>, i: nat, j: nat, m: seq<Rec>)
    requires i <= j <= |c|
    ensures Live(Replace(c, i, j, m)) == Live(c[..i]) + Live(m) + Live(c[j..])
    ensures Tiles(Replace(c, i, j, m)) == Tiles(c[..i]) + Tiles(m) + Tiles(c[j..])
  {
    LiveConcat(c[..i] + m, c[j..]);
    LiveConcat(c[..i], m);
  }

  lemma LiveOne(r: Rec)
    ensures Live([r]) == if r.entry.Some? then [r.entry.value] else []
    ensures Tiles([r]) == r.len
  {
  }

  lemma LiveTwo(a: Rec, b: Rec)
    ensures Live([a, b]) == Live([a]) + Live([b])
    ensures Tiles([a, b]) == a.len + b.len
  {
    assert [a, b] == [a] + [b];
    LiveConcat([a], [b]);
    LiveOne(a);
    LiveOne(b);
  }

  /** `es` with `e` added at one position. */
  predicate AddedOnce(es: seq<Entry>, e: Entry, r: seq<Entry>) {
    exists k :: 0 <= k <= |es| && r == es[..k] + [e] + es[k..]
  }

  lemma SplitOk(r: Rec, e: Entry)
    requires RecOk(r) && EntryOk(e) && Fits(r, RecordLen(|e.name|))
    ensures ChainOk(Split(r, e)) && Tiles(Split(r, e)) == r.len
    ensures Live(Split(r, e)) == Live([r]) + [e]
  {
    LiveOne(r);
    if r.entry.None? {
      LiveOne(Rec(r.len, Some(e)));
    } else {
      LiveTwo(Rec(OwnLen(r), r.entry), Rec(r.len - OwnLen(r), Some(e)));
    }
  }

  lemma InsertedLive(c: seq<Rec>, i: nat, e: Entry)
    requires i < |c| && RecOk(c[i]) && EntryOk(e) && Fits(c[i], RecordLen(|e.name|))
    ensures Tiles(Replace(c, i, i + 1, Split(c[i], e))) == Tiles(c)
    ensures AddedOnce(Live(c), e, Live(Replace(c, i, i + 1, Split(c[i], e))))
  {
    hide Live, Tiles, RecordLen, Split, RecOk;
    var m := Split(c[i], e);
    SplitOk(c[i], e);
    ReplaceLive(c, i, i + 1, m);
    ReplaceLive(c, i, i + 1, [c[i]]);
    assert Replace(c, i, i + 1, [c[i]]) == c;
    LiveOne(c[i]);
    var front, back := Live(c[..i]) + Live([c[i]]), Live(c[i + 1..]);
    assert Live(c) == front + back;
    assert Live(c)[..|front|] == front && Live(c)[|front|..] == back;
    assert Live(Replace(c, i, i + 1, m)) == front + [e] + back;
  }

  /** Inserting keeps the tiling, adds exactly the given entry at one place and
      succeeds exactly when some record has the slack for it. */
  lemma InsertCorrect(c: seq<Rec>, e: Entry)
    requires ChainOk(c) && EntryOk(e)
    ensures Insert(c, e).Some? <==> exists i :: 0 <= i < |c| && Fits(c[i], RecordLen(|e.name|))
    ensures Insert(c, e).Some? ==>
      var r := Insert(c, e).value;
      ChainOk(r) && Tiles(r) == Tiles(c) && AddedOnce(Live(c), e, Live(r))
  {
    hide Live, Tiles, RecordLen, FirstFit, AddedOnce;
    var i := FirstFit(c, RecordLen(|e.name|));
    if i < |c| {
      SplitOk(c[i], e);
      InsertedLive(c, i, e);
      hide Split;
      assert Insert(c, e).value == Replace(c, i, i + 1, Split(c[i], e));
    }
  }

  /** Removing keeps the tiling, deletes exactly the first entry of that name
      and succeeds exactly when there is one. */
  lemma RemoveCorrect(c: seq<Rec>, name: Name)
    requires ChainOk(c)
    ensures Remove(c, name).Some? <==> Named(Live(c), name)
    ensures Remove(c, name).Some? ==>
      var r := Remove(c, name).value;
      ChainOk(r) && Tiles(r) == Tiles(c) && Live(r) == Without(Live(c), name)
  {
    hide Live, Tiles, RecordLen, Without, IndexOf, Lookup;
    LookupIsLive(c, name);
    var i := IndexOf(c, name);
    if i < |c| {
      assert Replace(c, i, i + 1, [c[i]]) == c;
      ReplaceLive(c, i, i + 1, [c[i]]);
      LiveOne(c[i]);
      WithoutAt(c[..i], c[i].entry.value, Live(c[i + 1..]));
      if i == 0 {
        var free := Rec(c[0].len, None);
        LiveOne(free);
        ReplaceLive(c, 0, 1, [free]);
        assert Remove(c, name).value == Replace(c, 0, 1, [free]);
      } else {
        MergeLive(c, i);
      }
    }
  }

  lemma MergeLive(c: seq<Rec>, i: nat)
    requires 0 < i < |c|
    ensures
      var r := Replace(c, i - 1, i + 1, [Rec(c[i - 1].len + c[i].len, c[i - 1].entry)]);
      && Live(r) == Live(c[..i]) + Live(c[i + 1..])
      && Tiles(r) == Tiles(c[..i]) + c[i].len + Tiles(c[i + 1..])
  {
    var p := c[i - 1];
    var m := Rec(p.len + c[i].len, p.entry);
    ReplaceLive(c, i - 1, i + 1, [m]);
    LiveConcat(c[..i - 1], [p]);
    assert c[..i] == c[..i - 1] + [p];
    LiveOne(m);
    LiveOne(p);
  }

  lemma WithoutAt(pre: seq<Rec>, e: Entry, post: seq<Entry>)
    requires forall j :: 0 <= j < |pre| ==> !(pre[j].entry.Some? && pre[j].entry.value.name == e.name)
    ensures Without(Live(pre) + [e] + post, e.name) == Live(pre) + post
  {
    if pre == [] {
      assert Live(pre) + [e] + post == [e] + post;
    } else {
      WithoutAt(pre[1..], e, post);
      var h := if pre[0].entry.Some? then [pre[0].entry.value] else [];
      var tail := Live(pre[1..]) + [e] + post;
      assert Live(pre) + [e] + post == h + tail;
      assert Live(pre) + post == h + (Live(pre[1..]) + post);
      if h == [] {
        assert h + tail == tail;
      } else {
        assert (h + tail)[1..] == tail;
      }
    }
  }

  lemma {:induction false} WithoutInserted(es: seq<Entry>, k: nat, e: Entry)
    requires k <= |es| && !Named(es, e.name)
    ensures Without(es[..k] + [e] + es[k..], e.name) == es
  {
    var r := es[..k] + [e] + es[k..];
    if k == 0 {
      assert r[1..] == es;
    } else {
      assert es[0].name != e.name;
      assert r[1..] == es[1..][..k - 1] + [e] + es[1..][k - 1..];
      forall i | 0 <= i < |es[1..]| ensures es[1..][i].name != e.name { assert es[i + 1].name != e.name; }
      WithoutInserted(es[1..], k - 1, e);
    }
  }

  /** Linking a fresh name and unlinking it again leaves every reader with the
      entry list it had. */
  lemma InsertThenRemove(c: seq<Rec>, e: Entry)
    requires ChainOk(c) && EntryOk(e) && !Named(Live(c), e.name)
    requires Insert(c, e).Some?
    ensures Remove(Insert(c, e).value, e.name).Some?
    ensures Live(Remove(Insert(c, e).value, e.name).value) == Live(c)
  {
    InsertCorrect(c, e);
    var r := Insert(c, e).value;
    var k :| 0 <= k <= |Live(c)| && Live(r) == Live(c)[..k] + [e] + Live(c)[k..];
    assert Live(r)[k].name == e.name;
    RemoveCorrect(r, e.name);
    WithoutInserted(Live(c), k, e);
  }

  /** Removing a name leaves room to put it back. */
  lemma RemoveLeavesRoom(c: seq<Rec>, name: Name)
    requires ChainOk(c) && Remove(c, name).Some?
    ensures exists k :: 0 <= k < |Remove(c, name).value| && Fits(Remove(c, name).value[k], RecordLen(|name|))
  {
    hide RecordLen, IndexOf;
    var i := IndexOf(c, name);
    var r := Remove(c, name).value;
    assert OwnLen(c[i]) == RecordLen(|name|) <= c[i].len;
    var k := if i == 0 then 0 else i - 1;
    assert r[k] == if i == 0 then Rec(c[0].len, None) else Rec(c[k].len + c[i].len, c[k].entry);
    assert RecOk(c[k]);
    assert Fits(r[k], RecordLen(|name|));
  }

  /** Removing a name costs no other name its room. */
  lemma RemoveKeepsRoom(c: seq<Rec>, name: Name, needed: nat, j: nat)
    requires ChainOk(c) && Remove(c, name).Some? && j < |c| && Fits(c[j], needed)
    ensures exists k :: 0 <= k < |Remove(c, name).value| && Fits(Remove(c, name).value[k], needed)
  {
    hide RecordLen, IndexOf;
    var i := IndexOf(c, name);
    var r := Remove(c, name).value;
    if i == 0 {
      assert r[j] == if j == 0 then Rec(c[0].len, None) else c[j];
      assert Fits(r[j], needed);
    } else {
      var k := if j < i then j else j - 1;
      assert r[k] == if k == i - 1 then Rec(c[k].len + c[i].len, c[k].entry) else c[j];
      assert RecOk(c[i - 1]);
      assert Fits(r[k], needed);
    }
  }

  // ----- entry lists of a whole directory -----

  ghost predicate DistinctNames(es: seq<Entry>) {
    forall i, j :: 0 <= i < j < |es| ==> es[i].name != es[j].name
  }

  lemma AddedDistinct(es: seq<Entry>, e: Entry, r: seq<Entry>)
    requires DistinctNames(es) && !Named(es, e.name) && AddedOnce(es, e, r)
    ensures DistinctNames(r)
    ensures forall f :: f in r <==> f in es || f == e
  {
    var k :| 0 <= k <= |es| && r == es[..k] + [e] + es[k..];
    AddedMembers(es, e, r, k);
    hide AddedOnce, Named;
    forall i, j | 0 <= i < j < |r| ensures r[i].name != r[j].name {
      AddedPair(es, e, r, k, i, j);
    }
  }

  lemma AddedPair(es: seq<Entry>, e: Entry, r: seq<Entry>, k: nat, i: nat, j: nat)
    requires DistinctNames(es) && !Named(es, e.name) && k <= |es| && r == es[..k] + [e] + es[k..] && i < j < |r|
    ensures r[i].name != r[j].name
  {
    AddedAt(es, e, r, k, i);
    AddedAt(es, e, r, k, j);
  }

  lemma AddedMembers(es: seq<Entry>, e: Entry, r: seq<Entry>, k: nat)
    requires k <= |es| && r == es[..k] + [e] + es[k..]
    ensures forall f :: f in r <==> f in es || f == e
  {
    assert es == es[..k] + es[k..];
  }

  /** The entries around the one added keep their order. */
  lemma AddedAt(es: seq<Entry>, e: Entry, r: seq<Entry>, k: nat, i: nat)
    requires k <= |es| && r == es[..k] + [e] + es[k..] && i < |r|
    ensures |r| == |es| + 1 && r[i] == if i == k then e else es[if i < k then i else i - 1]
  {
  }

  lemma {:induction false} WithoutDistinct(es: seq<Entry>, name: Name)
    requires DistinctNames(es)
    ensures DistinctNames(Without(es, name))
    ensures forall f :: f in Without(es, name) <==> f in es && f.name != name
  {
    if es != [] {
      TailDistinct(es);
      WithoutDistinct(es[1..], name);
      if es[0].name != name {
        HeadDistinct(es[0], Without(es[1..], name));
      }
    }
  }

  lemma TailDistinct(es: seq<Entry>)
    requires DistinctNames(es) && es != []
    ensures DistinctNames(es[1..]) && (forall f :: f in es[1..] ==> f.name != es[0].name)
    ensures forall f :: f in es <==> f == es[0] || f in es[1..]
  {
    assert es == [es[0]] + es[1..];
  }

  lemma HeadDistinct(h: Entry, t: seq<Entry>)
    requires DistinctNames(t) && forall f :: f in t ==> f.name != h.name
    ensures DistinctNames([h] + t)
  {
    forall i, j | 0 <= i < j < |[h] + t| ensures ([h] + t)[i].name != ([h] + t)[j].name {
      assert t[j - 1] in t;
    }
  }

  lemma {:induction false} WithoutMiddle(pre: seq<Entry>, mid: seq<Entry>, post: seq<Entry>, name: Name)
    requires !Named(pre, name) && Named(mid, name)
    ensures Without(pre + mid + post, name) == pre + Without(mid, name) + post
  {
    var s := pre + mid + post;
    if pre == [] {
      assert s == mid + post;
      WithoutFront(mid, post, name);
    } else {
      assert pre[0].name != name;
      assert s[1..] == pre[1..] + mid + post;
      forall i | 0 <= i < |pre[1..]| ensures pre[1..][i].name != name { assert pre[i + 1].name != name; }
      WithoutMiddle(pre[1..], mid, post, name);
    }
  }

  lemma {:induction false} WithoutFront(mid: seq<Entry>, post: seq<Entry>, name: Name)
    requires Named(mid, name)
    ensures Without(mid + post, name) == Without(mid, name) + post
  {
    if mid[0].name == name {
      assert (mid + post)[1..] == mid[1..] + post;
    } else {
      var i :| 0 <= i < |mid| && mid[i].name == name;
      assert mid[1..][i - 1].name == name;
      assert (mid + post)[1..] == mid[1..] + post;
      WithoutFront(mid[1..], post, name);
    }
  }

  lemma AddedMiddle(pre: seq<Entry>, mid: seq<Entry>, post: seq<Entry>, e: Entry, mid': seq<Entry>)
    requires AddedOnce(mid, e, mid')
    ensures AddedOnce(pre + mid + post, e, pre + mid' + post)
  {
    var k :| 0 <= k <= |mid| && mid' == mid[..k] + [e] + mid[k..];
    var s := pre + mid + post;
    assert s[..|pre| + k] == pre + mid[..k];
    assert s[|pre| + k..] == mid[k..] + post;
    assert pre + mid' + post == s[..|pre| + k] + [e] + s[|pre| + k..];
  }
}
