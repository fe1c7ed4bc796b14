/** Asynchronous bulk transfers (usbfs/src/lib.rs): URB slots with generations,
    a kernel that answers in any order, repeatedly or about something else, the
    drain, and the retry with a smaller limit. */
module Urb {
  import opened Arith
  import opened Bytes

  const MAX_URB_SLOTS: nat := 32
  const CHUNK_SIZE: nat := 128 * 1024
  const MIN_MAX_TRANSFER: nat := 4 * 1024
  const MAX_MAX_TRANSFER: nat := 4 * 1024 * 1024
  const EINTR: nat := 4
  const ENOMEM: nat := 12
  const EINVAL: nat := 22
  const ENODEV: nat := 19
  const EBADF: nat := 9
  const ESHUTDOWN: nat := 108
  const ETIMEDOUT: nat := 110
  const ENOENT: nat := 2
  const ECONNRESET: nat := 104

  datatype Slot = Slot(generation: nat, index: nat, inUse: bool, submitted: bool, reaped: bool)

  datatype State = Healthy | Draining | Dead

  /** What waiting for a completion may bring: nothing before the deadline, a
      failing call, or some slot's completion, or one that is no slot's. */
  datatype Answer = NoPoll(errno: nat) | NoReap(errno: nat) | Reaped(slot: Option<nat>, errno: nat, actual: nat)

  // ----- slots -----

  function Free(slots: seq<Slot>): nat {
    if slots == [] then 0 else Free(slots[..|slots| - 1]) + (if slots[|slots| - 1].inUse then 0 else 1)
  }

  /** The slots in `ids` belong to one transfer, in order. */
  ghost predicate Taken(slots: seq<Slot>, ids: seq<nat>, generation: nat) {
    && (forall i :: 0 <= i < |ids| ==>
          ids[i] < |slots| && slots[ids[i]].generation == generation && slots[ids[i]].index == i)
    && (forall i, j :: 0 <= i < j < |ids| ==> ids[i] < ids[j])
  }

  ghost predicate Older(slots: seq<Slot>, generation: nat) {
    forall i :: 0 <= i < |slots| ==> slots[i].generation < generation
  }

  class UrbArena {
    var slots: seq<Slot>
    var nextGeneration: nat

    ghost predicate Valid()
      reads this
    {
      |slots| == MAX_URB_SLOTS && 0 < nextGeneration < U64_LIMIT && Older(slots, nextGeneration)
    }

    constructor ()
      ensures Valid() && forall i :: 0 <= i < |slots| ==> !slots[i].inUse
    {
      slots := seq(MAX_URB_SLOTS, _ => Slot(0, 0, false, false, false));
      nextGeneration := 1;
    }

    /** Claim `count` free slots under a new generation; granted exactly when
        there are that many. A refusal leaves every slot as free as it was. */
    method Allocate(count: nat) returns (r: Option<(nat, seq<nat>)>)
      requires Valid() && nextGeneration + 1 < U64_LIMIT
      modifies this
      ensures Valid() && |slots| == |old(slots)| && nextGeneration == old(nextGeneration) + 1
      ensures r.Some? <==> 0 < count <= Free(old(slots))
      ensures r.None? ==> forall i :: 0 <= i < |slots| ==> slots[i].inUse == old(slots)[i].inUse
      ensures r.Some? ==>
        |r.value.1| == count && Taken(slots, r.value.1, r.value.0) && r.value.0 == old(nextGeneration) < nextGeneration
      ensures r.Some? ==>
        forall i :: 0 <= i < count ==>
          r.value.1[i] < |slots| && Fresh(slots[r.value.1[i]]) && !old(slots)[r.value.1[i]].inUse
      ensures r.Some? ==> forall k :: 0 <= k < |slots| && k !in r.value.1 ==> slots[k] == old(slots)[k]
    {
      hide Claimed;
      var generation := nextGeneration;
      nextGeneration := NextGeneration(nextGeneration);
      var ids: seq<nat> := [];
      ghost var was := slots;
      ClaimNone(was, generation);
      for i := 0 to |slots|
        invariant |slots| == |was| && Valid() && Claimed(was, slots, ids, i, generation)
        invariant (|ids| < count || count == 0) && nextGeneration == generation + 1
      {
        ClaimStep(was, slots, ids, i, generation);
        if !slots[i].inUse {
          slots := slots[i := Slot(generation, |ids|, true, false, false)];
          ids := ids + [i];
          if |ids| == count {
            ClaimedMeans(was, slots, ids, i + 1, generation);
            return Some((generation, ids));
          }
        }
      }
      ClaimedMeans(was, slots, ids, |was|, generation);
      Release(ids);
      r := None;
    }

    /** Give slots back. */
    method Release(ids: seq<nat>)
      requires Valid() && forall k :: 0 <= k < |ids| ==> ids[k] < |slots|
      modifies this`slots
      ensures Valid() && forall i :: 0 <= i < |slots| ==>
        slots[i] == if i in ids then old(slots)[i].(inUse := false) else old(slots)[i]
    {
      for k := 0 to |ids|
        invariant Valid() && |slots| == |old(slots)|
        invariant forall i :: 0 <= i < |slots| ==>
          slots[i] == if i in ids[..k] then old(slots)[i].(inUse := false) else old(slots)[i]
      {
        assert ids[..k + 1] == ids[..k] + [ids[k]];
        slots := slots[ids[k] := slots[ids[k]].(inUse := false)];
      }
      assert ids[..|ids|] == ids;
    }
  }

  /** The free slots among the first `i` have been claimed as `ids`. */
  ghost predicate Claimed(was: seq<Slot>, now: seq<Slot>, ids: seq<nat>, i: nat, generation: nat) {
    && |now| == |was| && i <= |was| && Taken(now, ids, generation) && |ids| == Free(was[..i])
    && (forall k :: 0 <= k < |ids| ==> ids[k] < i && Fresh(now[ids[k]]) && !was[ids[k]].inUse)
    && (forall k :: 0 <= k < |now| && k !in ids ==> now[k] == was[k])
    && (forall k :: 0 <= k < i && !was[k].inUse ==> k in ids)
  }

  lemma ClaimNone(was: seq<Slot>, generation: nat)
    ensures Claimed(was, was, [], 0, generation)
  {
  }

  lemma ClaimStep(was: seq<Slot>, now: seq<Slot>, ids: seq<nat>, i: nat, generation: nat)
    requires Claimed(was, now, ids, i, generation) && i < |was|
    ensures now[i] == was[i]
    ensures
      if now[i].inUse then Claimed(was, now, ids, i + 1, generation)
      else Claimed(was, now[i := Slot(generation, |ids|, true, false, false)], ids + [i], i + 1, generation)
  {
    assert i !in ids;
    assert was[..i + 1][..i] == was[..i];
  }

  lemma ClaimedMeans(was: seq<Slot>, now: seq<Slot>, ids: seq<nat>, i: nat, generation: nat)
    requires Claimed(was, now, ids, i, generation)
    ensures |ids| <= Free(was) && (i == |was| ==> |ids| == Free(was)) && Taken(now, ids, generation)
    ensures forall k :: 0 <= k < |ids| ==> ids[k] < |now| && Fresh(now[ids[k]]) && !was[ids[k]].inUse
    ensures forall k :: 0 <= k < |now| && k !in ids ==> now[k] == was[k]
    ensures forall k :: 0 <= k < |now| && k in ids ==> !was[k].inUse
  {
    FreeMore(was, i);
    assert i == |was| ==> was[..i] == was;
  }

  /** Generations wrap around, but never to zero. */
  function NextGeneration(g: nat): nat {
    var n := (g + 1) % U64_LIMIT;
    if n == 0 then 1 else n
  }

  predicate Fresh(s: Slot) { s.inUse && !s.submitted && !s.reaped }

  lemma {:induction false} FreeMore(slots: seq<Slot>, i: nat)
    requires i <= |slots|
    ensures Free(slots[..i]) <= Free(slots)
  {
    if i < |slots| {
      FreeMore(slots[..|slots| - 1], i);
      assert slots[..|slots| - 1][..i] == slots[..i];
    } else {
      assert slots[..i] == slots;
    }
  }

  // ----- completions -----

  /** What a completion does to the slots: the first one for a slot of this
      transfer releases it and counts; one for an older transfer only releases
      its slot; any other changes nothing. */
  predicate Hits(slots: seq<Slot>, k: Option<nat>, generation: nat) {
    && k.Some? && k.value < |slots|
    && slots[k.value].generation == generation && slots[k.value].submitted && !slots[k.value].reaped
  }

  function OnReap(slots: seq<Slot>, k: Option<nat>, generation: nat): (r: seq<Slot>)
    ensures |r| == |slots|
  {
    if Hits(slots, k, generation) then slots[k.value := slots[k.value].(reaped := true, inUse := false)]
    else if k.Some? && k.value < |slots| && slots[k.value].inUse && slots[k.value].generation < generation then
      slots[k.value := slots[k.value].(inUse := false)]
    else slots
  }

  /** How many of a transfer's slots have been reaped. */
  function Reaps(slots: seq<Slot>, ids: seq<nat>): nat
    requires forall i :: 0 <= i < |ids| ==> ids[i] < |slots|
  {
    if ids == [] then 0 else Reaps(slots, ids[..|ids| - 1]) + (if slots[ids[|ids| - 1]].reaped then 1 else 0)
  }

  /** A transfer under way: its slots `ids` all submitted, each in use until it
      is reaped, `completed` of them reaped; no other slot has its generation. */
  ghost predicate InFlight(slots: seq<Slot>, ids: seq<nat>, generation: nat, completed: nat) {
    && Taken(slots, ids, generation) && completed == Reaps(slots, ids)
    && (forall i :: 0 <= i < |ids| ==> slots[ids[i]].submitted && (slots[ids[i]].inUse <==> !slots[ids[i]].reaped))
    && (forall k :: 0 <= k < |slots| && k !in ids ==>
          !(slots[k].generation == generation && slots[k].submitted && !slots[k].reaped))
  }

  lemma {:induction false} ReapsSame(x: seq<Slot>, y: seq<Slot>, ids: seq<nat>)
    requires |x| == |y| && forall i :: 0 <= i < |ids| ==> ids[i] < |x| && x[ids[i]].reaped == y[ids[i]].reaped
    ensures Reaps(x, ids) == Reaps(y, ids)
  {
    if ids != [] { ReapsSame(x, y, ids[..|ids| - 1]); }
  }

  lemma {:induction false} ReapsOne(x: seq<Slot>, y: seq<Slot>, ids: seq<nat>, i: nat)
    requires |x| == |y| && i < |ids| && (forall j :: 0 <= j < |ids| ==> ids[j] < |x|)
    requires (forall j, k :: 0 <= j < k < |ids| ==> ids[j] < ids[k]) && !x[ids[i]].reaped && y[ids[i]].reaped
    requires forall j :: 0 <= j < |ids| && j != i ==> x[ids[j]].reaped == y[ids[j]].reaped
    ensures Reaps(y, ids) == Reaps(x, ids) + 1
  {
    var p := ids[..|ids| - 1];
    if i < |p| {
      ReapsOne(x, y, p, i);
    } else {
      ReapsSame(x, y, p);
    }
  }

  lemma {:induction false} ReapsAll(slots: seq<Slot>, ids: seq<nat>)
    requires forall i :: 0 <= i < |ids| ==> ids[i] < |slots|
    ensures Reaps(slots, ids) <= |ids|
    ensures Reaps(slots, ids) == |ids| <==> forall i :: 0 <= i < |ids| ==> slots[ids[i]].reaped
  {
    if ids != [] { ReapsAll(slots, ids[..|ids| - 1]); }
  }

  /** A completion keeps the books, and counts a URB at most once. */
  lemma ReapKeeps(slots: seq<Slot>, ids: seq<nat>, generation: nat, completed: nat, k: Option<nat>)
    requires InFlight(slots, ids, generation, completed)
    ensures
      var completed' := if Hits(slots, k, generation) then completed + 1 else completed;
      InFlight(OnReap(slots, k, generation), ids, generation, completed')
    ensures Hits(slots, k, generation) ==> slots[k.value].index < |ids| && ids[slots[k.value].index] == k.value
    ensures Hits(slots, k, generation) ==> completed < |ids|
  {
    var now := OnReap(slots, k, generation);
    if Hits(slots, k, generation) {
      assert k.value in ids;
      var i :| 0 <= i < |ids| && ids[i] == k.value;
      ReapsOne(slots, now, ids, i);
      ReapsAll(now, ids);
    } else {
      ReapsSame(slots, now, ids);
    }
  }

  /** Nothing else comes into use. */
  ghost predicate OnlyReleased(x: seq<Slot>, y: seq<Slot>, ids: seq<nat>) {
    && |x| == |y|
    && forall k :: 0 <= k < |x| && k !in ids ==> (y[k].inUse ==> x[k].inUse) && y[k].(inUse := x[k].inUse) == x[k]
  }

  lemma ReapReleases(slots: seq<Slot>, ids: seq<nat>, generation: nat, completed: nat, k: Option<nat>)
    requires InFlight(slots, ids, generation, completed)
    ensures OnlyReleased(slots, OnReap(slots, k, generation), ids)
  {
  }

  lemma ReleasedTrans(x: seq<Slot>, y: seq<Slot>, z: seq<Slot>, ids: seq<nat>)
    requires OnlyReleased(x, y, ids) && OnlyReleased(y, z, ids)
    ensures OnlyReleased(x, z, ids)
  {
  }

  // ----- outcomes -----

  /** `contiguous_prefix`: the bytes of the longest run of successes. */
  function ContiguousPrefix(outcomes: seq<Option<nat>>): nat {
    if outcomes == [] || outcomes[0].None? then 0 else outcomes[0].value + ContiguousPrefix(outcomes[1..])
  }

  /** The first completion the kernel reported for slot `k`. */
  function First(heard: seq<Answer>, k: nat): (r: Option<Answer>)
    ensures r.Some? ==> r.value.Reaped? && r.value.slot == Some(k)
  {
    if heard == [] then None
    else if heard[0].Reaped? && heard[0].slot == Some(k) then Some(heard[0])
    else First(heard[1..], k)
  }

  /** What a URB is worth: its bytes if it completed without an error. */
  function Score(a: Option<Answer>): Option<nat> {
    if a.Some? && a.value.Reaped? && a.value.errno == 0 then Some(a.value.actual) else None
  }

  /** An error of its own, as opposed to having been discarded. */
  predicate Harmful(a: Option<Answer>) {
    a.Some? && a.value.Reaped? && a.value.errno != 0 && a.value.errno != ENOENT && a.value.errno != ECONNRESET
  }

  lemma {:induction false} FirstPush(heard: seq<Answer>, a: Answer, k: nat)
    ensures First(heard + [a], k) ==
      if First(heard, k).Some? then First(heard, k) else if a.Reaped? && a.slot == Some(k) then Some(a) else None
  {
    if heard == [] {
      assert ([] + [a])[1..] == [];
    } else {
      assert (heard + [a])[1..] == heard[1..] + [a];
      FirstPush(heard[1..], a, k);
    }
  }

  /** The outcomes are those of the first completion of each URB, and the slots
      reaped are those that had one. */
  ghost predicate Recorded(slots: seq<Slot>, ids: seq<nat>, outcomes: seq<Option<nat>>, heard: seq<Answer>) {
    && |ids| <= |outcomes|
    && (forall i :: 0 <= i < |outcomes| ==> outcomes[i] == if i < |ids| then Score(First(heard, ids[i])) else None)
    && Counted(slots, ids, heard)
  }

  ghost predicate Counted(slots: seq<Slot>, ids: seq<nat>, heard: seq<Answer>) {
    forall i :: 0 <= i < |ids| ==> ids[i] < |slots| && (slots[ids[i]].reaped <==> First(heard, ids[i]).Some?)
  }

  /** Every URB came back without an error of its own. */
  ghost predicate Unharmed(ids: seq<nat>, heard: seq<Answer>) {
    forall i :: 0 <= i < |ids| ==> !Harmful(First(heard, ids[i]))
  }

  /** Why waiting stopped: the last call failed, or the deadline passed. */
  function Stopped(heard: seq<Answer>): nat {
    if heard == [] then ETIMEDOUT
    else match heard[|heard| - 1]
      case NoPoll(e) => e
      case NoReap(e) => if e == EINTR then ETIMEDOUT else e
      case _ => ETIMEDOUT
  }

  /** `errno` is that of a URB that came to harm. */
  ghost predicate Culprit(ids: seq<nat>, heard: seq<Answer>, errno: nat) {
    exists i :: 0 <= i < |ids| && Harmful(First(heard, ids[i])) && First(heard, ids[i]).value.errno == errno
  }

  /** The error a wait that was answered `heard` ends with: that of a URB, or
      else of the wait. */
  ghost predicate Blamed(ids: seq<nat>, heard: seq<Answer>, errno: nat) {
    if Unharmed(ids, heard) then errno == Stopped(heard)
    else Culprit(ids, heard, errno)
  }

  /** An answer that ends the wait. */
  predicate Stops(a: Answer) { a.NoPoll? || (a.NoReap? && a.errno != EINTR) }

  /** Waiting goes on until all URBs are back, an answer ends it or no more
      comes, and no further. */
  ghost predicate Waited(ids: seq<nat>, heard: seq<Answer>, left: seq<Answer>) {
    && (AllBack(ids, heard) || (heard != [] && Stops(heard[|heard| - 1])) || left == [])
    && forall n :: 0 <= n < |heard| ==> GoesOn(ids, heard[..n])
  }

  ghost predicate GoesOn(ids: seq<nat>, heard: seq<Answer>) {
    !AllBack(ids, heard) && (heard != [] ==> !Stops(heard[|heard| - 1]))
  }

  /** How many of `num` URBs the kernel takes before it refuses one. */
  function Accepting(accepts: seq<Option<nat>>, num: nat): (n: nat)
    ensures n <= num
    ensures n < num ==> n < |accepts| && accepts[n].Some?
  {
    if num == 0 || accepts == [] then num
    else if accepts[0].Some? then 0
    else 1 + Accepting(accepts[1..], num - 1)
  }

  /** What is left of the kernel's answers once `num` URBs were offered. */
  function Unused(accepts: seq<Option<nat>>, num: nat): seq<Option<nat>> {
    var n := Accepting(accepts, num);
    var used := if n < num then n + 1 else n;
    if used <= |accepts| then accepts[used..] else []
  }

  lemma {:induction false} AcceptingIs(accepts: seq<Option<nat>>, num: nat, n: nat)
    requires n <= num && (forall i :: 0 <= i < n && i < |accepts| ==> accepts[i].None?)
    requires n < num ==> n < |accepts| && accepts[n].Some?
    ensures Accepting(accepts, num) == n
  {
    if n > 0 && accepts != [] { AcceptingIs(accepts[1..], num - 1, n - 1); }
  }

  lemma UnusedIs(accepts: seq<Option<nat>>, num: nat, n: nat, left: seq<Option<nat>>)
    requires n <= num && (forall i :: 0 <= i < n && i < |accepts| ==> accepts[i].None?)
    requires n < num ==> n < |accepts| && accepts[n].Some?
    requires
      var used := if n < num then n + 1 else n;
      left == if used <= |accepts| then accepts[used..] else []
    ensures Accepting(accepts, num) == n && Unused(accepts, num) == left
  {
    AcceptingIs(accepts, num, n);
  }

  // ----- one attempt -----

  datatype AttemptResult = NoSlots | Moved(prefix: nat) | Failed(prefix: nat, errno: nat)

  /** A transport and its kernel between two attempts. */
  datatype Snapshot = Snapshot(slots: seq<Slot>, generation: nat, script: seq<Answer>, accepts: seq<Option<nat>>,
      state: State)

  /** One attempt: the limit it ran under, how it ended, the slots it claimed,
      how many URBs the kernel took and gave back, and what it answered before
      the attempt was judged. */
  datatype Try = Try(limit: nat, result: AttemptResult, ids: seq<nat>, n: nat, completed: nat, heard: seq<Answer>)

  /** What the kernel answered between two snapshots. */
  ghost function Between(a: Snapshot, b: Snapshot): seq<Answer> {
    if |b.script| <= |a.script| then a.script[..|a.script| - |b.script|] else []
  }

  /** The outcome of each URB: its first completion among those heard. */
  function Outcomes(ids: seq<nat>, n: nat, heard: seq<Answer>): (r: seq<Option<nat>>)
    requires n <= |ids|
    ensures |r| == |ids|
  {
    seq(|ids|, i requires 0 <= i < |ids| => if i < n then Score(First(heard, ids[i])) else None)
  }

  /** The whole effect of an attempt to move `total` bytes. */
  ghost predicate Attempted(total: nat, a: Snapshot, b: Snapshot, t: Try) {
    && b.generation == a.generation + 1 && |b.slots| == |a.slots| && Suffix(b.script, a.script)
    && (t.result == NoSlots <==> CeilDiv(total, CHUNK_SIZE) > Free(a.slots))
    && (t.result == NoSlots ==>
          && b == a.(slots := b.slots, generation := b.generation) && t.heard == [] && t.ids == []
          && forall i :: 0 <= i < |a.slots| ==> b.slots[i].inUse == a.slots[i].inUse)
    && (t.result != NoSlots ==>
          && |t.ids| == CeilDiv(total, CHUNK_SIZE) && t.n == Accepting(a.accepts, |t.ids|)
          && b.accepts == Unused(a.accepts, |t.ids|)
          && (forall i :: 0 <= i < |t.ids| ==> t.ids[i] < |a.slots| && !a.slots[t.ids[i]].inUse)
          && InFlight(b.slots, t.ids[..t.n], a.generation, t.completed) && Counted(b.slots, t.ids[..t.n], Between(a, b))
          && t.completed <= t.n && t.heard <= Between(a, b)
          && (b.state == Dead || t.completed == t.n)
          && (t.completed == t.n ==> forall i :: 0 <= i < |t.ids| ==> !b.slots[t.ids[i]].inUse)
          && t.result.prefix == ContiguousPrefix(Outcomes(t.ids, t.n, t.heard)))
    && Judged(a, t)
    && (AllFree(a.slots) && b.state != Dead ==> AllFree(b.slots))
  }

  /** Success exactly when every URB was taken and came back unharmed, else the
      first refusal's error or that of the wait. */
  ghost predicate Judged(a: Snapshot, t: Try) {
    t.result != NoSlots ==>
      && t.n <= |t.ids| && (t.result.Moved? <==> t.n == |t.ids| && Unharmed(t.ids, t.heard) && AllBack(t.ids, t.heard))
      && (t.n < |t.ids| ==>
            t.heard == [] && t.result.Failed? && t.n < |a.accepts| && a.accepts[t.n] == Some(t.result.errno))
      && (t.n == |t.ids| && t.result.Failed? ==> Blamed(t.ids, t.heard, t.result.errno))
      && (t.n == |t.ids| ==> t.heard <= a.script && Waited(t.ids, t.heard, a.script[|t.heard|..]))
  }

  ghost predicate AllBack(ids: seq<nat>, heard: seq<Answer>) {
    forall i :: 0 <= i < |ids| ==> First(heard, ids[i]).Some?
  }

  predicate Suffix(x: seq<Answer>, y: seq<Answer>) {
    |x| <= |y| && x == y[|y| - |x|..]
  }

  class UsbTransport {
    const arena: UrbArena
    var state: State
    var limit: nat
    /** What the kernel will answer, one entry a wait; then nothing comes. */
    var script: seq<Answer>
    /** Whether it takes a URB, one entry each; then it takes all. */
    var accepts: seq<Option<nat>>

    ghost function Now(): Snapshot
      reads this, arena
    {
      Snapshot(arena.slots, arena.nextGeneration, script, accepts, state)
    }

    ghost predicate Valid()
      reads this, arena
    {
      arena.Valid() && MIN_MAX_TRANSFER <= limit <= MAX_MAX_TRANSFER
    }

    constructor (script: seq<Answer>, accepts: seq<Option<nat>>)
      ensures Valid() && state == Healthy && fresh(arena) && AllFree(arena.slots) && this.script == script
      ensures this.accepts == accepts
    {
      arena := new UrbArena();
      state, limit, this.script, this.accepts := Healthy, 1024 * 1024, script, accepts;
    }

    /** Wait for a completion. */
    method Wait() returns (a: Answer)
      modifies this`script
      ensures old(script) == [] ==> a == NoPoll(ETIMEDOUT) && script == []
      ensures old(script) != [] ==> a == old(script)[0] && script == old(script)[1..]
    {
      if script == [] {
        return NoPoll(ETIMEDOUT);
      }
      a := script[0];
      script := script[1..];
    }

    /** Hand one URB to the kernel. */
    method Offer() returns (err: Option<nat>)
      modifies this`accepts
      ensures old(accepts) == [] ==> err.None? && accepts == []
      ensures old(accepts) != [] ==> err == old(accepts)[0] && accepts == old(accepts)[1..]
    {
      err := None;
      if accepts != [] {
        err, accepts := accepts[0], accepts[1..];
      }
    }

    /** Hand URBs to the kernel until it refuses one. */
    method Submit(ids: seq<nat>, generation: nat) returns (n: nat, err: Option<nat>)
      requires arena.Valid() && Taken(arena.slots, ids, generation)
      requires forall i :: 0 <= i < |ids| ==> Fresh(arena.slots[ids[i]])
      requires forall k :: 0 <= k < |arena.slots| && k !in ids ==> arena.slots[k].generation < generation
      modifies arena`slots, this`accepts
      ensures arena.Valid() && n == Accepting(old(accepts), |ids|)
      ensures err == (if n < |ids| then old(accepts)[n] else None)
      ensures OnlyReleased(old(arena.slots), arena.slots, ids) && accepts == Unused(old(accepts), |ids|)
      ensures InFlight(arena.slots, ids[..n], generation, 0)
      ensures forall i :: n <= i < |ids| ==> !arena.slots[ids[i]].inUse
    {
      hide InFlight, OnlyReleased, Accepting, Unused, Handed;
      assert forall i :: 0 <= i < |ids| ==> ids[i] < |arena.slots|;
      HandNone(arena.slots);
      n := 0;
      err := None;
      while n < |ids|
        invariant 0 <= n <= |ids| && arena.Valid() && err.None? && Handed(old(arena.slots), arena.slots, ids[..n])
        invariant accepts == (if n <= |old(accepts)| then old(accepts)[n..] else [])
        invariant forall i :: 0 <= i < n && i < |old(accepts)| ==> old(accepts)[i].None?
      {
        err := Offer();
        if err.Some? {
          break;
        }
        HandOne(old(arena.slots), arena.slots, ids, n);
        arena.slots := arena.slots[ids[n] := arena.slots[ids[n]].(submitted := true)];
        n := n + 1;
      }
      UnusedIs(old(accepts), |ids|, n, accepts);
      ghost var mid := arena.slots;
      arena.Release(ids[n..]);
      Submitted(old(arena.slots), mid, arena.slots, ids, n, generation);
    }

    /** Take completions in until all have come or something fails. */
    method Reap(ids: seq<nat>, generation: nat, num: nat)
      returns (completed: nat, outcomes: seq<Option<nat>>, err: Option<nat>, ghost heard: seq<Answer>)
      requires arena.Valid() && InFlight(arena.slots, ids, generation, 0) && |ids| <= num
      modifies this`script, arena`slots
      ensures arena.Valid() && InFlight(arena.slots, ids, generation, completed) && completed <= |ids|
      ensures OnlyReleased(old(arena.slots), arena.slots, ids) && old(script) == heard + script
      ensures |outcomes| == num && Recorded(arena.slots, ids, outcomes, heard)
      ensures err.None? <==> AllBack(ids, heard) && Unharmed(ids, heard)
      ensures err.None? ==> completed == |ids|
      ensures err.Some? ==> Blamed(ids, heard, err.value)
      ensures Waited(ids, heard, script)
    {
      hide InFlight, OnlyReleased, Watching, Older, Recorded, Unharmed, AllBack, Blamed, Stopped, GoesOn;
      completed := 0;
      outcomes := seq(num, _ => None);
      ghost var start := arena.slots;
      var completion, wait: Option<nat> := None, None;
      heard := [];
      NothingYet(arena.slots, ids, generation, num);
      NotStopped([], NoPoll(0));
      while completed < |ids|
        invariant arena.Valid() && InFlight(arena.slots, ids, generation, completed) && completed <= |ids| && wait.None?
        invariant OnlyReleased(start, arena.slots, ids) && |outcomes| == num
        invariant Watching(arena.slots, ids, outcomes, heard, completion)
        invariant old(script) == heard + script && Stopped(heard) == ETIMEDOUT
        invariant heard != [] ==> !Stops(heard[|heard| - 1])
        invariant forall n :: 0 <= n < |heard| ==> GoesOn(ids, heard[..n])
        decreases |script|, |ids| - completed
      {
        if script == [] {
          wait := Some(ETIMEDOUT);
          break;
        }
        var a := Wait();
        ghost var was := heard;
        heard := heard + [a];
        WaitsOn(arena.slots, ids, generation, completed, outcomes, was, completion, a);
        Heard(old(script), was, a, script);
        NotStopped(was, a);
        match a
        case NoPoll(e) =>
          Ignored(arena.slots, ids, outcomes, was, completion, a);
          wait := Some(e);
          break;
        case NoReap(e) =>
          Ignored(arena.slots, ids, outcomes, was, completion, a);
          if e == EINTR {
            continue;
          }
          wait := Some(e);
          break;
        case Reaped(k, e, actual) =>
          ghost var before := arena.slots;
          ReapKeeps(before, ids, generation, completed, k);
          ReapReleases(before, ids, generation, completed, k);
          ReleasedTrans(start, before, OnReap(before, k, generation), ids);
          OlderKeeps(before, arena.nextGeneration, k, generation);
          if Hits(arena.slots, k, generation) {
            var index := arena.slots[k.value].index;
            HitStep(before, ids, generation, completed, outcomes, was, completion, a, index);
            arena.slots := OnReap(arena.slots, k, generation);
            completed := completed + 1;
            if e != 0 {
              if e != ENOENT && e != ECONNRESET && completion.None? {
                completion := Some(e);
              }
            } else if index < |outcomes| {
              outcomes := outcomes[index := Some(actual)];
            }
          } else {
            MissStep(before, ids, generation, completed, outcomes, was, completion, a);
            arena.slots := OnReap(arena.slots, k, generation);
          }
      }
      err := if completion.Some? then completion else wait;
      WaitEnds(arena.slots, ids, generation, completed, outcomes, heard, completion, wait);
    }

    /** Discard what is still out and take it back in, within a budget; what
        cannot be taken back leaves the transport dead. */
    method Drain(ids: seq<nat>, generation: nat, done: nat, ghost before: seq<Answer>) returns (completed: nat,
        ghost heard: seq<Answer>)
      requires arena.Valid() && InFlight(arena.slots, ids, generation, done) && done <= |ids|
      requires Counted(arena.slots, ids, before)
      modifies this`script, this`state, arena`slots
      ensures arena.Valid() && InFlight(arena.slots, ids, generation, completed) && done <= completed <= |ids|
      ensures OnlyReleased(old(arena.slots), arena.slots, ids)
      ensures old(script) == heard + script && Counted(arena.slots, ids, before + heard)
      ensures done == |ids| ==> state == old(state)
      ensures done < |ids| ==> state == if completed == |ids| then Healthy else Dead
    {
      hide InFlight, OnlyReleased, Older, Counted;
      completed, heard := done, [];
      assert before + heard == before;
      ghost var start := arena.slots;
      ReleasedNone(start, ids);
      if completed >= |ids| {
        return;
      }
      state := Draining;
      while completed < |ids|
        invariant arena.Valid() && InFlight(arena.slots, ids, generation, completed) && done <= completed <= |ids|
        invariant OnlyReleased(start, arena.slots, ids) && old(script) == heard + script
        invariant Counted(arena.slots, ids, before + heard)
        decreases |script|, |ids| - completed
      {
        var late: bool := *;
        if late || script == [] {
          break;
        }
        var a := Wait();
        Heard(old(script), heard, a, script);
        CountStep(arena.slots, ids, generation, completed, before + heard, a);
        assert before + (heard + [a]) == before + heard + [a];
        heard := heard + [a];
        match a
        case NoPoll(e) =>
          if e == ENODEV || e == EBADF || e == ESHUTDOWN {
            break;
          }
        case NoReap(e) =>
          if e == ENODEV || e == EBADF || e == ESHUTDOWN {
            break;
          }
        case Reaped(k, _, _) =>
          ghost var was := arena.slots;
          ReapKeeps(was, ids, generation, completed, k);
          ReapReleases(was, ids, generation, completed, k);
          ReleasedTrans(start, was, OnReap(was, k, generation), ids);
          OlderKeeps(was, arena.nextGeneration, k, generation);
          if Hits(arena.slots, k, generation) {
            completed := completed + 1;
          }
          arena.slots := OnReap(arena.slots, k, generation);
      }
      state := if completed == |ids| then Healthy else Dead;
    }

    /** One iteration of `bulk_out` or `bulk_in`. Whatever the kernel answers,
        each URB is counted at most once, and at the end either every URB handed
        over has been taken back and its slot released, or the transport is
        dead. */
    method Attempt(total: nat) returns (r: AttemptResult, ghost t: Try)
      requires Valid() && 0 < total <= limit && arena.nextGeneration + 1 < U64_LIMIT
      modifies this`script, this`accepts, this`state, arena
      ensures Valid() && t.limit == limit && t.result == r && Attempted(total, old(Now()), Now(), t)
      ensures arena.nextGeneration == old(arena.nextGeneration) + 1
    {
      hide InFlight, OnlyReleased, Recorded, Counted, Older, Taken, ContiguousPrefix, AllFree, Attempted, Judged,
        Unharmed, AllBack, Blamed, Accepting, Unused, Outcomes, Between, Suffix, Watching, Waited;
      ghost var a := Now();
      var got := arena.Allocate(CeilDiv(total, CHUNK_SIZE));
      if got.None? {
        t := Try(limit, NoSlots, [], 0, 0, []);
        Starved(total, a, Now(), t);
        return NoSlots, t;
      }
      var (generation, slots) := got.value;
      ghost var taken := arena.slots;
      OthersOlder(a.slots, taken, slots, generation);
      var accepted, refused := Submit(slots, generation);
      ghost var mine, flying := slots[..accepted], arena.slots;
      var done, scores, err := 0, seq(|slots|, _ => None), refused;
      ghost var heard: seq<Answer>, more: seq<Answer> := [], [];
      NothingYet(arena.slots, mine, generation, |slots|);
      if refused.None? {
        done, scores, err, heard := Reap(slots[..accepted], generation, |slots|);
        assert heard <= a.script && a.script[|heard|..] == script;
      }
      ghost var reaped := arena.slots;
      RecordedIs(reaped, slots, accepted, scores, heard);
      if accepted > 0 && (err.Some? || done < accepted) {
        done, more := Drain(slots[..accepted], generation, done, heard);
      } else if accepted > 0 {
        ReleasedNone(arena.slots, mine);
        BackAlready(arena.slots, mine, generation, done);
        arena.Release(slots[..accepted]);
        assert arena.slots == reaped;
        assert heard + more == heard;
      } else {
        ReleasedNone(arena.slots, mine);
        assert mine == [];
        assert heard + more == heard;
      }
      ReleasedTrans(flying, reaped, arena.slots, mine);
      AttemptEnds(a.slots, taken, flying, arena.slots, slots, accepted, generation, done);
      var prefix := ContiguousPrefix(scores);
      r := if err.None? then Moved(prefix) else Failed(prefix, err.value);
      t := Try(limit, r, slots, accepted, done, heard);
      HeardBoth(a, Now(), heard, more);
      Concluded(a, t, err, refused);
      Done(total, a, Now(), t);
    }
  }

  ghost predicate AllFree(slots: seq<Slot>) {
    forall i :: 0 <= i < |slots| ==> !slots[i].inUse
  }

  lemma OlderKeeps(slots: seq<Slot>, generation: nat, k: Option<nat>, g: nat)
    requires Older(slots, generation)
    ensures Older(OnReap(slots, k, g), generation)
  {
  }

  lemma NothingYet(slots: seq<Slot>, ids: seq<nat>, generation: nat, num: nat)
    requires InFlight(slots, ids, generation, 0) && |ids| <= num
    ensures OnlyReleased(slots, slots, ids) && Watching(slots, ids, seq(num, _ => None), [], None)
    ensures Recorded(slots, ids, seq(num, _ => None), [])
  {
    ReapsNone(slots, ids);
  }

  lemma {:induction false} ReapsNone(slots: seq<Slot>, ids: seq<nat>)
    requires (forall i :: 0 <= i < |ids| ==> ids[i] < |slots|) && Reaps(slots, ids) == 0
    ensures forall i :: 0 <= i < |ids| ==> !slots[ids[i]].reaped
  {
    if ids != [] { ReapsNone(slots, ids[..|ids| - 1]); }
  }

  /** What a wait has learnt from the answers so far. */
  ghost predicate Watching(slots: seq<Slot>, ids: seq<nat>, outcomes: seq<Option<nat>>, heard: seq<Answer>,
      completion: Option<nat>) {
    Recorded(slots, ids, outcomes, heard) && Blame(ids, heard, completion)
  }

  /** The error reported is that of a URB that came to harm, if one did. */
  ghost predicate Blame(ids: seq<nat>, heard: seq<Answer>, completion: Option<nat>) {
    && (completion.None? <==> Unharmed(ids, heard))
    && (completion.Some? ==> Culprit(ids, heard, completion.value))
  }

  lemma Heard(all: seq<Answer>, heard: seq<Answer>, a: Answer, rest: seq<Answer>)
    requires all == heard + ([a] + rest)
    ensures all == heard + [a] + rest
  {
  }

  lemma NotStopped(heard: seq<Answer>, a: Answer)
    ensures Stopped([]) == ETIMEDOUT
    ensures Stopped(heard + [a]) ==
      if a.NoPoll? then a.errno else if a.NoReap? && a.errno != EINTR then a.errno else ETIMEDOUT
  {
  }

  /** An answer that is no completion changes nothing. */
  lemma Ignored(slots: seq<Slot>, ids: seq<nat>, outcomes: seq<Option<nat>>, heard: seq<Answer>,
      completion: Option<nat>, a: Answer)
    requires Watching(slots, ids, outcomes, heard, completion) && !a.Reaped?
    ensures Watching(slots, ids, outcomes, heard + [a], completion)
  {
    forall i | 0 <= i < |ids| ensures First(heard + [a], ids[i]) == First(heard, ids[i]) {
      FirstPush(heard, a, ids[i]);
    }
    SameFirst(ids, heard, heard + [a], completion);
  }

  lemma SameFirst(ids: seq<nat>, heard: seq<Answer>, heard': seq<Answer>, completion: Option<nat>)
    requires forall i :: 0 <= i < |ids| ==> First(heard', ids[i]) == First(heard, ids[i])
    ensures Unharmed(ids, heard') == Unharmed(ids, heard)
    ensures completion.Some? && Culprit(ids, heard, completion.value) ==> Culprit(ids, heard', completion.value)
  {
  }

  /** A completion that is stale, repeated or about something else changes
      nothing of this transfer. */
  lemma MissStep(slots: seq<Slot>, ids: seq<nat>, generation: nat, completed: nat, outcomes: seq<Option<nat>>,
      heard: seq<Answer>, completion: Option<nat>, a: Answer)
    requires InFlight(slots, ids, generation, completed) && Watching(slots, ids, outcomes, heard, completion)
    requires a.Reaped? && !Hits(slots, a.slot, generation)
    ensures Watching(OnReap(slots, a.slot, generation), ids, outcomes, heard + [a], completion)
  {
    forall i | 0 <= i < |ids| ensures First(heard + [a], ids[i]) == First(heard, ids[i]) {
      FirstPush(heard, a, ids[i]);
    }
    SameFirst(ids, heard, heard + [a], completion);
  }

  /** The first completion of a URB is recorded. */
  lemma HitStep(slots: seq<Slot>, ids: seq<nat>, generation: nat, completed: nat, outcomes: seq<Option<nat>>,
      heard: seq<Answer>, completion: Option<nat>, a: Answer, index: nat)
    requires InFlight(slots, ids, generation, completed) && Watching(slots, ids, outcomes, heard, completion)
    requires a.Reaped? && Hits(slots, a.slot, generation) && slots[a.slot.value].index == index
    ensures index < |outcomes|
    ensures
      var outcomes' := if a.errno == 0 then outcomes[index := Some(a.actual)] else outcomes;
      var completion' := if Harmful(Some(a)) && completion.None? then Some(a.errno) else completion;
      Watching(OnReap(slots, a.slot, generation), ids, outcomes', heard + [a], completion')
  {
    hide First, Harmful, Score, Reaps, OnReap, Blame;
    HitIs(slots, ids, generation, completed, a.slot);
    forall i | 0 <= i < |ids|
      ensures First(heard + [a], ids[i]) == if i == index then Some(a) else First(heard, ids[i])
    {
      FirstPush(heard, a, ids[i]);
    }
    RecordStep(slots, ids, generation, outcomes, heard, a, index);
    HarmStep(ids, heard, a, index, completion);
  }

  /** A completion that hits is for a URB of the transfer not yet reaped. */
  lemma HitIs(slots: seq<Slot>, ids: seq<nat>, generation: nat, completed: nat, k: Option<nat>)
    requires InFlight(slots, ids, generation, completed) && Hits(slots, k, generation)
    ensures slots[k.value].index < |ids| && ids[slots[k.value].index] == k.value && !slots[k.value].reaped
    ensures forall i :: 0 <= i < |ids| && i != slots[k.value].index ==> ids[i] != k.value
  {
    hide Reaps;
    ReapKeeps(slots, ids, generation, completed, k);
  }

  lemma RecordStep(slots: seq<Slot>, ids: seq<nat>, generation: nat, outcomes: seq<Option<nat>>, heard: seq<Answer>,
      a: Answer, index: nat)
    requires Recorded(slots, ids, outcomes, heard) && a.Reaped? && Hits(slots, a.slot, generation) && index < |ids|
    requires ids[index] == a.slot.value
    requires forall i :: 0 <= i < |ids| && i != index ==> ids[i] != a.slot.value
    requires forall i :: 0 <= i < |ids| ==>
      First(heard + [a], ids[i]) == if i == index then Some(a) else First(heard, ids[i])
    ensures
      var outcomes' := if a.errno == 0 then outcomes[index := Some(a.actual)] else outcomes;
      Recorded(OnReap(slots, a.slot, generation), ids, outcomes', heard + [a])
  {
    hide First;
  }

  /** The first URB that came to harm is remembered. */
  lemma HarmStep(ids: seq<nat>, heard: seq<Answer>, a: Answer, index: nat, completion: Option<nat>)
    requires Blame(ids, heard, completion) && a.Reaped? && index < |ids| && First(heard, ids[index]).None?
    requires forall i :: 0 <= i < |ids| ==>
      First(heard + [a], ids[i]) == if i == index then Some(a) else First(heard, ids[i])
    ensures Blame(ids, heard + [a], if Harmful(Some(a)) && completion.None? then Some(a.errno) else completion)
  {
    hide First;
    if completion.Some? {
      var i :| 0 <= i < |ids| && Harmful(First(heard, ids[i])) && First(heard, ids[i]).value.errno == completion.value;
      assert Harmful(First(heard + [a], ids[i]));
    } else if Harmful(Some(a)) {
      assert Harmful(First(heard + [a], ids[index]));
    }
  }

  /** The slots reaped follow the answers, also while draining. */
  lemma CountStep(slots: seq<Slot>, ids: seq<nat>, generation: nat, completed: nat, heard: seq<Answer>, a: Answer)
    requires InFlight(slots, ids, generation, completed) && Counted(slots, ids, heard)
    ensures Counted(if a.Reaped? then OnReap(slots, a.slot, generation) else slots, ids, heard + [a])
  {
    forall i | 0 <= i < |ids| ensures First(heard + [a], ids[i]) ==
      if First(heard, ids[i]).Some? then First(heard, ids[i])
      else if a.Reaped? && a.slot == Some(ids[i]) then Some(a) else None
    {
      FirstPush(heard, a, ids[i]);
    }
  }

  /** Something is still out, and nothing heard ends the wait. */
  lemma WaitsOn(slots: seq<Slot>, ids: seq<nat>, generation: nat, completed: nat, outcomes: seq<Option<nat>>,
      heard: seq<Answer>, completion: Option<nat>, a: Answer)
    requires InFlight(slots, ids, generation, completed) && Watching(slots, ids, outcomes, heard, completion)
    requires completed < |ids|
    requires heard != [] ==> !Stops(heard[|heard| - 1])
    requires forall n :: 0 <= n < |heard| ==> GoesOn(ids, heard[..n])
    ensures forall n :: 0 <= n < |heard + [a]| ==> GoesOn(ids, (heard + [a])[..n])
  {
    hide First, Blame;
    ReapsAll(slots, ids);
    assert !AllBack(ids, heard);
    hide AllBack, Reaps, InFlight, Watching;
    forall n | 0 <= n < |heard + [a]| ensures GoesOn(ids, (heard + [a])[..n]) {
      assert (heard + [a])[..n] == if n < |heard| then heard[..n] else heard;
    }
  }

  lemma WaitEnds(slots: seq<Slot>, ids: seq<nat>, generation: nat, completed: nat, outcomes: seq<Option<nat>>,
      heard: seq<Answer>, completion: Option<nat>, wait: Option<nat>)
    requires InFlight(slots, ids, generation, completed) && Watching(slots, ids, outcomes, heard, completion)
    requires wait.None? <==> completed == |ids|
    requires wait.Some? ==> wait.value == Stopped(heard)
    ensures
      var err := if completion.Some? then completion else wait;
      && (err.None? <==> AllBack(ids, heard) && Unharmed(ids, heard)) && (err.None? ==> completed == |ids|)
      && (err.Some? ==> Blamed(ids, heard, err.value)) && Recorded(slots, ids, outcomes, heard)
      && (completed == |ids| ==> AllBack(ids, heard))
  {
    ReapsAll(slots, ids);
  }

  lemma RecordedIs(slots: seq<Slot>, ids: seq<nat>, n: nat, outcomes: seq<Option<nat>>, heard: seq<Answer>)
    requires n <= |ids| && Recorded(slots, ids[..n], outcomes, heard) && |outcomes| == |ids|
    ensures outcomes == Outcomes(ids, n, heard) && Counted(slots, ids[..n], heard)
  {
    assert forall i :: 0 <= i < n ==> ids[..n][i] == ids[i];
  }

  lemma HeardBoth(a: Snapshot, b: Snapshot, heard: seq<Answer>, more: seq<Answer>)
    requires a.script == heard + (more + b.script)
    ensures Suffix(b.script, a.script) && Between(a, b) == heard + more && heard <= Between(a, b)
  {
    assert a.script == (heard + more) + b.script;
  }

  lemma Starved(total: nat, a: Snapshot, b: Snapshot, t: Try)
    requires t.result == NoSlots && t.heard == [] && t.ids == [] && CeilDiv(total, CHUNK_SIZE) > Free(a.slots)
    requires b == a.(slots := b.slots, generation := b.generation) && b.generation == a.generation + 1
    requires |b.slots| == |a.slots|
    requires forall i :: 0 <= i < |a.slots| ==> b.slots[i].inUse == a.slots[i].inUse
    ensures Attempted(total, a, b, t)
  {
    hide InFlight, Counted;
    StillFree(a.slots, b.slots);
  }

  lemma Concluded(a: Snapshot, t: Try, err: Option<nat>, refused: Option<nat>)
    requires t.n == Accepting(a.accepts, |t.ids|) && t.result != NoSlots
    requires (t.result.Moved? <==> err.None?) && (err.Some? ==> t.result.Failed? && t.result.errno == err.value)
    requires refused == if t.n < |t.ids| then a.accepts[t.n] else None
    requires refused.Some? ==> err == refused && t.heard == []
    requires refused.None? ==>
      var mine := t.ids[..t.n];
      && (err.None? <==> AllBack(mine, t.heard) && Unharmed(mine, t.heard))
      && (err.Some? ==> Blamed(mine, t.heard, err.value))
      && t.heard <= a.script && Waited(mine, t.heard, a.script[|t.heard|..])
    ensures Judged(a, t)
  {
    hide AllBack, Unharmed, Blamed, Waited;
    if t.n == |t.ids| { assert t.ids[..t.n] == t.ids; }
  }

  lemma Done(total: nat, a: Snapshot, b: Snapshot, t: Try)
    requires b.generation == a.generation + 1 && |b.slots| == |a.slots| && Suffix(b.script, a.script)
    requires t.result != NoSlots
    requires CeilDiv(total, CHUNK_SIZE) <= Free(a.slots) && |t.ids| == CeilDiv(total, CHUNK_SIZE)
    requires t.n == Accepting(a.accepts, |t.ids|)
    requires b.accepts == Unused(a.accepts, |t.ids|)
    requires forall i :: 0 <= i < |t.ids| ==> t.ids[i] < |a.slots| && !a.slots[t.ids[i]].inUse
    requires InFlight(b.slots, t.ids[..t.n], a.generation, t.completed) && Counted(b.slots, t.ids[..t.n], Between(a, b))
    requires t.completed <= t.n && t.heard <= Between(a, b) && (b.state == Dead || t.completed == t.n)
    requires t.completed == t.n ==> forall i :: 0 <= i < |t.ids| ==> t.ids[i] < |b.slots| && !b.slots[t.ids[i]].inUse
    requires t.result.prefix == ContiguousPrefix(Outcomes(t.ids, t.n, t.heard)) && Judged(a, t)
    requires t.completed == t.n && AllFree(a.slots) ==> AllFree(b.slots)
    ensures Attempted(total, a, b, t)
  {
    hide InFlight, Counted, Judged, AllFree, ContiguousPrefix, Outcomes, Suffix, Between;
  }

  /** The slots `ids` have been handed to the kernel. */
  ghost predicate Handed(was: seq<Slot>, now: seq<Slot>, ids: seq<nat>) {
    |now| == |was| && forall k :: 0 <= k < |was| ==> now[k] == if k in ids then was[k].(submitted := true) else was[k]
  }

  lemma HandNone(slots: seq<Slot>)
    ensures Handed(slots, slots, [])
  {
  }

  lemma HandOne(was: seq<Slot>, now: seq<Slot>, ids: seq<nat>, n: nat)
    requires n < |ids| && Handed(was, now, ids[..n]) && ids[n] < |was|
    ensures |now| == |was| && Handed(was, now[ids[n] := now[ids[n]].(submitted := true)], ids[..n + 1])
  {
    assert ids[..n + 1] == ids[..n] + [ids[n]];
  }

  /** After submitting, the accepted URBs are in flight and the rest free. */
  lemma Submitted(was: seq<Slot>, mid: seq<Slot>, now: seq<Slot>, ids: seq<nat>, n: nat, generation: nat)
    requires Taken(was, ids, generation) && (forall i :: 0 <= i < |ids| ==> Fresh(was[ids[i]])) && n <= |ids|
    requires |was| == |mid| == |now| && forall k :: 0 <= k < |was| && k !in ids ==> was[k].generation < generation
    requires Handed(was, mid, ids[..n])
    requires forall k :: 0 <= k < |was| ==> now[k] == if k in ids[n..] then mid[k].(inUse := false) else mid[k]
    ensures InFlight(now, ids[..n], generation, 0) && OnlyReleased(was, now, ids)
    ensures forall i :: n <= i < |ids| ==> !now[ids[i]].inUse
  {
    hide InFlight, OnlyReleased;
    forall i | 0 <= i < n ensures now[ids[i]] == was[ids[i]].(submitted := true) {
      assert ids[..n][i] == ids[i];
      assert ids[i] !in ids[n..];
    }
    forall i | n <= i < |ids| ensures now[ids[i]] == was[ids[i]].(inUse := false) {
      assert ids[n..][i - n] == ids[i];
      assert ids[i] !in ids[..n];
    }
    forall k | 0 <= k < |was| && k !in ids ensures now[k] == was[k] {
      assert k !in ids[..n] && k !in ids[n..];
    }
    Accepted(was, now, ids, n, generation);
  }

  lemma Accepted(was: seq<Slot>, now: seq<Slot>, ids: seq<nat>, n: nat, generation: nat)
    requires Taken(was, ids, generation) && (forall i :: 0 <= i < |ids| ==> Fresh(was[ids[i]])) && n <= |ids|
    requires |was| == |now|
    requires forall k :: 0 <= k < |was| && k !in ids ==> was[k].generation < generation && now[k] == was[k]
    requires forall i :: 0 <= i < n ==> now[ids[i]] == was[ids[i]].(submitted := true)
    requires forall i :: n <= i < |ids| ==> now[ids[i]] == was[ids[i]].(inUse := false)
    ensures InFlight(now, ids[..n], generation, 0) && OnlyReleased(was, now, ids)
    ensures forall i :: n <= i < |ids| ==> !now[ids[i]].inUse
  {
    var a := ids[..n];
    assert forall i :: 0 <= i < n ==> a[i] == ids[i];
    NoneReaped(now, a);
    forall k | 0 <= k < |now| && k !in a
      ensures !(now[k].generation == generation && now[k].submitted && !now[k].reaped)
    {
      if k in ids {
        var i :| 0 <= i < |ids| && ids[i] == k;
        assert n <= i;
      }
    }
  }

  lemma {:induction false} NoneReaped(slots: seq<Slot>, ids: seq<nat>)
    requires forall i :: 0 <= i < |ids| ==> ids[i] < |slots| && !slots[ids[i]].reaped
    ensures Reaps(slots, ids) == 0
  {
    if ids != [] { NoneReaped(slots, ids[..|ids| - 1]); }
  }

  lemma ReleasedNone(slots: seq<Slot>, ids: seq<nat>)
    ensures OnlyReleased(slots, slots, ids)
  {
  }

  lemma StillFree(x: seq<Slot>, y: seq<Slot>)
    requires |x| == |y| && forall i :: 0 <= i < |y| ==> y[i].inUse == x[i].inUse
    ensures AllFree(x) ==> AllFree(y)
  {
  }

  lemma OthersOlder(was: seq<Slot>, now: seq<Slot>, ids: seq<nat>, generation: nat)
    requires |was| == |now| && Older(was, generation) && forall k :: 0 <= k < |now| && k !in ids ==> now[k] == was[k]
    ensures forall k :: 0 <= k < |now| && k !in ids ==> now[k].generation < generation
  {
  }

  /** Slots whose URBs have all come back are free already. */
  lemma BackAlready(slots: seq<Slot>, ids: seq<nat>, generation: nat, completed: nat)
    requires InFlight(slots, ids, generation, completed) && completed == |ids|
    ensures forall i :: 0 <= i < |ids| ==> ids[i] < |slots| && !slots[ids[i]].inUse
    ensures forall k :: 0 <= k < |slots| && k in ids ==> slots[k].(inUse := false) == slots[k]
  {
    ReapsAll(slots, ids);
    forall k | 0 <= k < |slots| && k in ids ensures slots[k].(inUse := false) == slots[k] {
      var i :| 0 <= i < |ids| && ids[i] == k;
      assert slots[ids[i]].reaped;
    }
  }

  /** Nothing is left in use by an attempt whose URBs all came back. */
  lemma AttemptEnds(start: seq<Slot>, taken: seq<Slot>, flying: seq<Slot>, end: seq<Slot>, ids: seq<nat>, n: nat,
      generation: nat, completed: nat)
    requires |start| == |taken| && (forall k :: 0 <= k < |taken| && k !in ids ==> taken[k] == start[k])
    requires Taken(taken, ids, generation)
    requires OnlyReleased(taken, flying, ids) && n <= |ids| && OnlyReleased(flying, end, ids[..n])
    requires forall i :: n <= i < |ids| ==> ids[i] < |flying| && !flying[ids[i]].inUse
    requires InFlight(end, ids[..n], generation, completed)
    ensures completed <= n
    ensures completed == n ==> forall i :: 0 <= i < |ids| ==> ids[i] < |end| && !end[ids[i]].inUse
    ensures completed == n && AllFree(start) ==> AllFree(end)
  {
    hide OnlyReleased, InFlight, AllFree;
    EndCount(end, ids[..n], generation, completed);
    if completed == n {
      BackAlready(end, ids[..n], generation, completed);
      forall i | 0 <= i < |ids| ensures ids[i] < |end| && !end[ids[i]].inUse {
        if i < n {
          assert ids[..n][i] == ids[i];
        } else {
          Ahead(taken, ids, generation, n, i);
          Quiet(flying, end, ids[..n], ids[i]);
        }
      }
      FreeAgain(start, taken, flying, end, ids, n);
    }
  }

  lemma EndCount(slots: seq<Slot>, ids: seq<nat>, generation: nat, completed: nat)
    requires InFlight(slots, ids, generation, completed)
    ensures completed <= |ids|
  {
    ReapsAll(slots, ids);
  }

  lemma Ahead(slots: seq<Slot>, ids: seq<nat>, generation: nat, n: nat, i: nat)
    requires Taken(slots, ids, generation) && n <= i < |ids|
    ensures ids[i] !in ids[..n]
  {
  }

  lemma Quiet(x: seq<Slot>, y: seq<Slot>, ids: seq<nat>, k: nat)
    requires OnlyReleased(x, y, ids) && k < |x| && k !in ids && !x[k].inUse
    ensures k < |y| && !y[k].inUse
  {
  }

  lemma FreeAgain(start: seq<Slot>, taken: seq<Slot>, flying: seq<Slot>, end: seq<Slot>, ids: seq<nat>, n: nat)
    requires |start| == |taken| && (forall k :: 0 <= k < |taken| && k !in ids ==> taken[k] == start[k])
    requires OnlyReleased(taken, flying, ids) && n <= |ids| && OnlyReleased(flying, end, ids[..n])
    requires forall i :: 0 <= i < |ids| ==> ids[i] < |end| && !end[ids[i]].inUse
    ensures AllFree(start) ==> AllFree(end)
  {
    if AllFree(start) {
      forall k | 0 <= k < |end| ensures !end[k].inUse {
        if k in ids {
          var i :| 0 <= i < |ids| && ids[i] == k;
        } else {
          assert k !in ids[..n];
        }
      }
    }
  }

  // ----- the whole transfer -----

  /** How often the limit can still be halved. */
  function Halvings(limit: nat): nat
    decreases limit
  {
    if limit <= MIN_MAX_TRANSFER then 0 else 1 + Halvings(Smaller(limit))
  }

  function Smaller(limit: nat): (n: nat)
    ensures limit > MIN_MAX_TRANSFER ==> MIN_MAX_TRANSFER <= n < limit
  {
    if limit / 2 < MIN_MAX_TRANSFER then MIN_MAX_TRANSFER else limit / 2
  }

  lemma {:induction false} FewHalvings(limit: nat, k: nat, bound: nat)
    requires limit <= bound && bound == MIN_MAX_TRANSFER * Power(k)
    ensures Halvings(limit) <= k
    decreases k
  {
    if limit > MIN_MAX_TRANSFER && k > 0 {
      FewHalvings(Smaller(limit), k - 1, MIN_MAX_TRANSFER * Power(k - 1));
    }
  }

  function Power(k: nat): nat { if k == 0 then 1 else 2 * Power(k - 1) }

  /** An attempt that starts with every slot free always gets its slots. */
  lemma {:induction false} EnoughSlots(slots: seq<Slot>, total: nat)
    requires AllFree(slots) && |slots| == MAX_URB_SLOTS && total <= MAX_MAX_TRANSFER
    ensures CeilDiv(total, CHUNK_SIZE) <= Free(slots)
  {
    FreeAll(slots);
  }

  lemma {:induction false} FreeAll(slots: seq<Slot>)
    requires AllFree(slots)
    ensures Free(slots) == |slots|
  {
    if slots != [] { FreeAll(slots[..|slots| - 1]); }
  }

  datatype Transfer = Sent(bytes: nat) | Refused

  /** An attempt that is followed by another at half its limit: nothing moved,
      and the error says the kernel found it too large. */
  predicate Shrinks(t: Try) {
    && t.result.Failed? && (t.result.errno == EINVAL || t.result.errno == ENOMEM) && t.limit > MIN_MAX_TRANSFER
    && t.result.prefix == 0
  }

  /** What the last attempt amounts to. */
  function Verdict(t: Try): Transfer {
    match t.result
    case NoSlots => Refused
    case Moved(prefix) => Sent(prefix)
    case Failed(prefix, _) => if prefix > 0 then Sent(prefix) else Refused
  }

  /** The limit after an attempt. */
  function NextLimit(t: Try): nat {
    if && t.result.Failed? && t.limit > MIN_MAX_TRANSFER
       && (t.result.errno == EINVAL || t.result.errno == ENOMEM || t.result.errno == ETIMEDOUT)
    then Smaller(t.limit) else t.limit
  }

  /** The `i`th attempt starts where the one before it ended. */
  ghost predicate LinkOk(len: nat, snaps: seq<Snapshot>, tries: seq<Try>, i: nat)
    requires |snaps| == |tries| + 1 && i < |tries|
  {
    && Attempted(Min(len, tries[i].limit), snaps[i], snaps[i + 1], tries[i])
    && (0 < i ==> Shrinks(tries[i - 1]) && tries[i].limit == Smaller(tries[i - 1].limit))
  }

  /** A chain of attempts: each starts where the one before it ended, at the
      limit that one left, and only after one that asks for it. */
  ghost predicate Chain(len: nat, limit: nat, snaps: seq<Snapshot>, tries: seq<Try>) {
    && |snaps| == |tries| + 1
    && (forall i :: 0 <= i < |tries| ==> LinkOk(len, snaps, tries, i))
    && (tries != [] ==> tries[0].limit == limit)
  }

  /** `bulk_out` and `bulk_in`. The ghost results are the chain of attempts
      from the transport as it was to the transport as it is: at most eleven, at
      ever smaller limits, the last of which gives the result. */
  method BulkTransfer(t: UsbTransport, len: nat) returns (r: Transfer, ghost snaps: seq<Snapshot>,
      ghost tries: seq<Try>)
    requires t.Valid() && t.arena.nextGeneration + 12 < U64_LIMIT
    modifies t, t.arena
    ensures t.Valid() && Chain(len, old(t.limit), snaps, tries) && snaps[0] == old(t.Now()) && snaps[|tries|] == t.Now()
    ensures |tries| <= 11 && t.arena.nextGeneration == old(t.arena.nextGeneration) + |tries|
    ensures tries == [] <==> len == 0 || old(t.state) == Dead
    ensures tries == [] ==> r == (if len == 0 then Sent(0) else Refused) && t.limit == old(t.limit)
    ensures tries != [] ==>
      var last := tries[|tries| - 1];
      !Shrinks(last) && r == Verdict(last) && t.limit == NextLimit(last)
    ensures AllFree(old(t.arena.slots)) && (forall i :: 0 < i < |snaps| ==> snaps[i].state != Dead) ==>
      AllFree(t.arena.slots) && forall i :: 0 <= i < |tries| ==> tries[i].result != NoSlots
  {
    hide AllFree, Halvings, Attempted;
    snaps, tries := [t.Now()], [];
    if len == 0 {
      return Sent(0), snaps, tries;
    }
    if t.state == Dead {
      return Refused, snaps, tries;
    }
    Bound(t.limit);
    ghost var start, first := t.Now(), t.limit;
    while true
      invariant t.Valid() && |tries| + Halvings(t.limit) <= 10 && Chain(len, first, snaps, tries)
      invariant snaps[0] == start && snaps[|tries|] == t.Now()
      invariant t.arena.nextGeneration == old(t.arena.nextGeneration) + |tries|
      invariant
        if tries == [] then t.limit == first
        else Shrinks(tries[|tries| - 1]) && t.limit == Smaller(tries[|tries| - 1].limit)
      invariant Clean(start, snaps, tries)
      decreases t.limit
    {
      var limit := t.limit;
      ghost var before := t.Now();
      ghost var one;
      var a;
      a, one := t.Attempt(Min(len, limit));
      ChainMore(len, first, snaps, tries, t.Now(), one);
      CleanMore(len, start, snaps, tries, t.Now(), one);
      snaps, tries := snaps + [t.Now()], tries + [one];
      if a == NoSlots {
        return Refused, snaps, tries;
      }
      if a.Moved? {
        return Sent(a.prefix), snaps, tries;
      }
      var shrinkable := a.errno == EINVAL || a.errno == ENOMEM;
      if (shrinkable || a.errno == ETIMEDOUT) && limit > MIN_MAX_TRANSFER {
        HalvingStep(limit);
        t.limit := Smaller(limit);
        if shrinkable && a.prefix == 0 {
          continue;
        }
      }
      if a.prefix > 0 {
        return Sent(a.prefix), snaps, tries;
      }
      return Refused, snaps, tries;
    }
  }

  /** While no attempt leaves the transport dead, no slot stays in use and no
      attempt lacks one. */
  ghost predicate Clean(start: Snapshot, snaps: seq<Snapshot>, tries: seq<Try>)
    requires |snaps| == |tries| + 1
  {
    AllFree(start.slots) && (forall i :: 0 < i < |snaps| ==> snaps[i].state != Dead) ==>
      AllFree(snaps[|tries|].slots) && forall i :: 0 <= i < |tries| ==> tries[i].result != NoSlots
  }

  /** The limit strictly falls from attempt to attempt. */
  lemma {:induction false} LimitsFall(len: nat, limit: nat, snaps: seq<Snapshot>, tries: seq<Try>, i: nat, j: nat)
    requires Chain(len, limit, snaps, tries) && i < j < |tries|
    ensures tries[j].limit < tries[i].limit
  {
    hide Attempted;
    assert LinkOk(len, snaps, tries, j);
    if i < j - 1 { LimitsFall(len, limit, snaps, tries, i, j - 1); }
  }

  lemma ChainMore(len: nat, limit: nat, snaps: seq<Snapshot>, tries: seq<Try>, b: Snapshot, t: Try)
    requires Chain(len, limit, snaps, tries) && Attempted(Min(len, t.limit), snaps[|tries|], b, t)
    requires
      if tries == [] then t.limit == limit
      else Shrinks(tries[|tries| - 1]) && t.limit == Smaller(tries[|tries| - 1].limit)
    ensures Chain(len, limit, snaps + [b], tries + [t])
  {
    hide Attempted, Shrinks;
    var snaps', tries' := snaps + [b], tries + [t];
    forall i | 0 <= i < |tries'| ensures LinkOk(len, snaps', tries', i) {
      if i < |tries| { assert LinkOk(len, snaps, tries, i); }
    }
  }

  lemma CleanMore(len: nat, start: Snapshot, snaps: seq<Snapshot>, tries: seq<Try>, b: Snapshot, t: Try)
    requires |snaps| == |tries| + 1 && Clean(start, snaps, tries) && Attempted(Min(len, t.limit), snaps[|tries|], b, t)
    requires |snaps[|tries|].slots| == MAX_URB_SLOTS && t.limit <= MAX_MAX_TRANSFER
    ensures Clean(start, snaps + [b], tries + [t])
  {
    hide InFlight, Counted, Judged, AllFree, ContiguousPrefix, Outcomes, Suffix, Between;
    var a, total := snaps[|tries|], Min(len, t.limit);
    var snaps', tries' := snaps + [b], tries + [t];
    if AllFree(start.slots) && forall i :: 0 < i < |snaps'| ==> snaps'[i].state != Dead {
      forall i | 0 < i < |snaps| ensures snaps[i].state != Dead {
        assert snaps'[i] == snaps[i];
      }
      EnoughSlots(a.slots, total);
      assert snaps'[|tries| + 1] == b;
    }
  }

  lemma Bound(limit: nat)
    requires limit <= MAX_MAX_TRANSFER
    ensures Halvings(limit) <= 10
  {
    assert Power(10) == 1024 by { assert Power(5) == 32; }
    FewHalvings(limit, 10, MAX_MAX_TRANSFER);
  }

  lemma HalvingStep(limit: nat)
    requires limit > MIN_MAX_TRANSFER
    ensures Halvings(limit) == 1 + Halvings(Smaller(limit))
  {
  }
}
