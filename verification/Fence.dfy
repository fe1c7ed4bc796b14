/** The write fence and the writer claim (jni/src/bridge.rs,
    jni/src/bridge/writer.rs): any number of threads writing, reading and
    fencing volumes, one lock acquisition or atomic access at a time. */
module Fence {
  import opened Bytes

  /** Where a thread stands. A writer passes the consent gate, looks at the
      fence, takes the filesystem lock, looks again, claims the device and runs
      its body; a fencing thread takes the lock, latches, discards. */
  datatype Pc =
    | Gate | FirstLook | WantLock | SecondLook | Claim | Claiming | Body
    | FenceWant(reason: nat) | FenceLatch(reason: nat) | FenceDiscard
    | ReadWant | Reading
    | Over

  datatype Thread = Thread(vol: nat, pc: Pc)

  /** A volume handle. The active batch of the filesystem is an opaque value. */
  datatype Vol = Vol(
    device: nat, live: bool, lock: Option<nat>, poisoned: bool, fence: Option<nat>, batch: Option<nat>,
    encrypted: bool, armed: bool, holds: bool)

  datatype State = State(vols: map<nat, Vol>, flags: map<nat, bool>, threads: map<nat, Thread>)

  /** How a write body ends: done, refused in an ordinary way, failed in a way
      that leaves the drive unknown, or in a panic under the lock. */
  datatype Ending = Fine | Ordinary | Unknown(reason: nat) | Panic

  datatype Action =
    | Open(v: nat, device: nat, encrypted: bool)
    | Arm(v: nat)
    | Write(t: nat, v: nat)
    | Read(t: nat, v: nat)
    | BeginFence(t: nat, v: nat, reason: nat)
    | Step(t: nat)
    | Work(t: nat, batch: Option<nat>)
    | End(t: nat, how: Ending)
    | Close(v: nat)

  predicate HoldsLock(pc: Pc) {
    pc.SecondLook? || pc.Claim? || pc.Claiming? || pc.Body? || pc.FenceLatch? || pc.FenceDiscard? || pc.Reading?
  }

  /** Past the second look at the fence. */
  predicate Claimant(pc: Pc) { pc.Claim? || pc.Claiming? || pc.Body? }

  /** Waiting for the filesystem lock. */
  predicate Waits(pc: Pc) { pc.WantLock? || pc.FenceWant? || pc.ReadWant? }

  predicate Enabled(s: State, a: Action) {
    match a
    case Open(v, _, _) => v !in s.vols
    case Arm(v) => v in s.vols && s.vols[v].live
    case Write(t, v) => t !in s.threads && v in s.vols && s.vols[v].live
    case Read(t, v) => t !in s.threads && v in s.vols && s.vols[v].live
    case BeginFence(t, v, _) => t !in s.threads && v in s.vols && s.vols[v].live
    case Step(t) =>
      && t in s.threads && s.threads[t].vol in s.vols && s.threads[t].pc != Over && s.threads[t].pc != Body
      && (Waits(s.threads[t].pc) ==> s.vols[s.threads[t].vol].lock.None?)
    case Work(t, _) => t in s.threads && s.threads[t].vol in s.vols && s.threads[t].pc == Body
    case End(t, _) => t in s.threads && s.threads[t].vol in s.vols && s.threads[t].pc == Body
    case Close(v) =>
      && v in s.vols && s.vols[v].live
      && forall t :: t in s.threads && s.threads[t].vol == v ==> s.threads[t].pc == Over
  }

  /** The state with thread `t` at `pc` and its volume as given. */
  function Put(s: State, t: nat, x: Vol, pc: Pc): State
    requires t in s.threads
  {
    s.(vols := s.vols[s.threads[t].vol := x], threads := s.threads[t := s.threads[t].(pc := pc)])
  }

  /** The device's writer flag; a device not seen yet has no writer. */
  function Flag(s: State, d: nat): bool { d in s.flags && s.flags[d] }

  /** What a step makes of the thread's volume and place, and whether it sets
      the device's writer flag. */
  datatype Local = Local(vol: Vol, pc: Pc, sets: bool)

  function LocalStep(x: Vol, pc: Pc, t: nat, flag: bool): Local {
    match pc
    case Gate => Local(x, if x.encrypted || x.armed then FirstLook else Over, false)
    case FirstLook => Local(x, if x.fence.Some? then Over else WantLock, false)
    case WantLock => if x.poisoned then Local(x, Over, false) else Local(x.(lock := Some(t)), SecondLook, false)
    case SecondLook => if x.fence.Some? then Local(x.(lock := None), Over, false) else Local(x, Claim, false)
    case Claim =>
      if x.holds then Local(x, Body, false)
      else if flag then Local(x.(lock := None), Over, false)
      else Local(x, Claiming, true)
    case Claiming => Local(x.(holds := true), Body, false)
    case FenceWant(reason) => Local(x.(lock := Some(t)), FenceLatch(reason), false)
    case FenceLatch(reason) => if x.fence.Some? then Local(x.(lock := None), Over,
      false) else Local(x.(fence := Some(reason)), FenceDiscard, false)
    case FenceDiscard => Local(x.(batch := None, lock := None), Over, false)
    case ReadWant => Local(x.(lock := Some(t)), Reading, false)
    case Reading => Local(x.(lock := None), Over, false)
    case _ => Local(x, pc, false)
  }

  /** One step of thread `t`. */
  function Move(s: State, t: nat): State
    requires Enabled(s, Step(t))
  {
    var x := s.vols[s.threads[t].vol];
    var l := LocalStep(x, s.threads[t].pc, t, Flag(s, x.device));
    Put(s, t, l.vol, l.pc).(flags := if l.sets then s.flags[x.device := true] else s.flags)
  }

  function Do(s: State, a: Action): State
    requires Enabled(s, a)
  {
    match a
    case Open(v, device, encrypted) => s.(vols := s.vols[v := Vol(device, true, None, false, None, None, encrypted,
      false, false)])
    case Arm(v) => s.(vols := s.vols[v := s.vols[v].(armed := true)])
    case Write(t, v) => s.(threads := s.threads[t := Thread(v, Gate)])
    case Read(t, v) => s.(threads := s.threads[t := Thread(v, ReadWant)])
    case BeginFence(t, v, reason) => s.(threads := s.threads[t := Thread(v, FenceWant(reason))])
    case Step(t) => Move(s, t)
    case Work(t, batch) => Put(s, t, s.vols[s.threads[t].vol].(batch := batch), Body)
    case End(t, how) =>
      var x := s.vols[s.threads[t].vol];
      Put(s, t, x.(lock := None, poisoned := x.poisoned || how.Panic?),
        if how.Unknown? then FenceWant(how.reason) else Over)
    case Close(v) =>
      var x := s.vols[v];
      s.(vols := s.vols[v := x.(live := false, holds := false)],
         flags := if x.holds then s.flags[x.device := false] else s.flags)
  }

  // ----- the invariant -----

  /** The lock and the thread that has it agree. */
  ghost predicate LocksOk(s: State) {
    && (forall t :: t in s.threads ==> s.threads[t].vol in s.vols)
    && (forall t :: t in s.threads && HoldsLock(s.threads[t].pc) ==> s.vols[s.threads[t].vol].lock == Some(t))
    && (forall v :: v in s.vols && s.vols[v].lock.Some? ==>
          && s.vols[v].lock.value in s.threads && s.threads[s.vols[v].lock.value].vol == v
          && HoldsLock(s.threads[s.vols[v].lock.value].pc))
    && (forall t :: t in s.threads && s.threads[t].pc != Over ==> s.vols[s.threads[t].vol].live)
  }

  /** Past its second look a writer sees no fence; a fenced volume has no batch,
      unless the thread that fenced it is about to discard it. */
  ghost predicate FenceOk(s: State) {
    && (forall t :: t in s.threads && s.threads[t].vol in s.vols && Claimant(s.threads[t].pc) ==>
          s.vols[s.threads[t].vol].fence.None?)
    && (forall v :: v in s.vols && s.vols[v].fence.Some? && s.vols[v].batch.Some? ==> Discarding(s, v))
  }

  ghost predicate Discarding(s: State, v: nat)
    requires v in s.vols
  {
    s.vols[v].lock.Some? && s.vols[v].lock.value in s.threads && s.threads[s.vols[v].lock.value].pc.FenceDiscard?
  }

  /** The volume has the device's writer claim, or is just taking it. */
  ghost predicate Claims(s: State, v: nat) {
    && v in s.vols && s.vols[v].live
    && (|| s.vols[v].holds
        || (s.vols[v].lock.Some? && s.vols[v].lock.value in s.threads && s.threads[s.vols[v].lock.value].pc.Claiming?))
  }

  /** One live volume claims a device exactly when its flag is set. */
  ghost predicate ClaimsOk(s: State) {
    && (forall v :: Claims(s, v) ==> Flag(s, s.vols[v].device))
    && (forall v, w :: Claims(s, v) && Claims(s, w) && s.vols[v].device == s.vols[w].device ==> v == w)
    && (forall t :: t in s.threads && s.threads[t].pc.Body? && s.threads[t].vol in s.vols ==>
          s.vols[s.threads[t].vol].holds)
    && (forall t :: t in s.threads && s.threads[t].pc.Claiming? && s.threads[t].vol in s.vols ==>
          !s.vols[s.threads[t].vol].holds)
  }

  ghost predicate Inv(s: State) { LocksOk(s) && FenceOk(s) && ClaimsOk(s) }

  // ----- one thread moves -----

  /** A thread takes the lock only when it is free and leaves nobody else's. */
  predicate LockMove(x: Vol, y: Vol, t: nat, pc: Pc) {
    && y.live == x.live && y.device == x.device
    && (if HoldsLock(pc) then y.lock == Some(t) && (x.lock == Some(t) || x.lock.None?)
        else if x.lock == Some(t) then y.lock.None? else y.lock == x.lock)
  }

  /** The fence is set only under the lock and never changed; past its second
      look a writer has seen none; a fenced volume gains no batch. */
  predicate FenceMove(x: Vol, y: Vol, t: nat, was: Pc, pc: Pc) {
    && (Claimant(pc) ==> y.fence.None?)
    && (y.fence != x.fence ==> x.fence.None? && x.lock == Some(t) && !Claimant(was))
    && (y.fence.Some? && y.batch.Some? ==>
          pc.FenceDiscard? || (y.fence == x.fence && y.batch == x.batch && x.lock != Some(t) && y.lock == x.lock))
  }

  /** The claim is taken through the flag, under the lock, and kept. */
  predicate ClaimMove(x: Vol, y: Vol, t: nat, was: Pc, pc: Pc, flag: bool, flag': bool) {
    && (pc.Body? ==> y.holds) && (y.holds ==> x.holds || was.Claiming?)
    && (x.holds ==> y.holds) && (pc.Claiming? ==> !y.holds && !flag && flag' && was.Claim?)
    && (was.Claiming? ==> y.holds)
    && (!pc.Claiming? ==> flag' == flag)
  }

  /** A thread holds the lock exactly when the lock names it. */
  lemma NotMine(s: State, t: nat)
    requires LocksOk(s) && t in s.threads
    ensures s.threads[t].vol in s.vols && (s.vols[s.threads[t].vol].lock == Some(t) <==> HoldsLock(s.threads[t].pc))
  {
  }

  /** What the fence invariant says of one thread and its volume. */
  ghost predicate FencedHere(x: Vol, pc: Pc, t: nat) {
    && (Claimant(pc) ==> x.fence.None?)
    && (x.fence.Some? && x.batch.Some? ==> x.lock.Some? && (x.lock == Some(t) ==> pc.FenceDiscard?))
  }

  lemma Fenced(s: State, t: nat)
    requires LocksOk(s) && FenceOk(s) && t in s.threads
    ensures s.threads[t].vol in s.vols && FencedHere(s.vols[s.threads[t].vol], s.threads[t].pc, t)
  {
    if s.vols[s.threads[t].vol].fence.Some? && s.vols[s.threads[t].vol].batch.Some? {
      assert Discarding(s, s.threads[t].vol);
    }
  }

  /** Every step moves as it should. */
  lemma LocalMoves(x: Vol, pc: Pc, t: nat, flag: bool)
    requires (x.lock == Some(t) <==> HoldsLock(pc)) && FencedHere(x, pc, t) && (pc.Claiming? ==> !x.holds)
    requires (Waits(pc) ==> x.lock.None?) && pc != Over && pc != Body
    ensures
      var l := LocalStep(x, pc, t, flag);
      && LockMove(x, l.vol, t, l.pc) && FenceMove(x, l.vol, t, pc, l.pc)
      && ClaimMove(x, l.vol, t, pc, l.pc, flag, l.sets || flag)
  {
  }

  lemma PutLocks(s: State, t: nat, y: Vol, pc: Pc)
    requires LocksOk(s) && t in s.threads && LockMove(s.vols[s.threads[t].vol], y, t, pc) && (pc != Over ==> y.live)
    ensures LocksOk(Put(s, t, y, pc))
  {
    var n, v := Put(s, t, y, pc), s.threads[t].vol;
    forall u | u in n.threads && HoldsLock(n.threads[u].pc) ensures n.vols[n.threads[u].vol].lock == Some(u) {
      if u != t { assert HoldsLock(s.threads[u].pc); }
    }
    forall w | w in n.vols && n.vols[w].lock.Some?
      ensures n.vols[w].lock.value in n.threads && n.threads[n.vols[w].lock.value].vol == w
      ensures HoldsLock(n.threads[n.vols[w].lock.value].pc)
    {
      if w == v && y.lock == Some(t) {
      } else {
        assert w in s.vols && s.vols[w].lock.Some?;
      }
    }
  }

  lemma PutFence(s: State, t: nat, y: Vol, pc: Pc)
    requires LocksOk(s) && FenceOk(s) && t in s.threads && LockMove(s.vols[s.threads[t].vol], y, t, pc)
    requires FenceMove(s.vols[s.threads[t].vol], y, t, s.threads[t].pc, pc)
    ensures FenceOk(Put(s, t, y, pc))
  {
    var n, v := Put(s, t, y, pc), s.threads[t].vol;
    var x := s.vols[v];
    forall u | u in n.threads && n.threads[u].vol in n.vols && Claimant(n.threads[u].pc)
      ensures n.vols[n.threads[u].vol].fence.None?
    {
      if u != t {
        assert HoldsLock(s.threads[u].pc);
      }
    }
    forall w | w in n.vols && n.vols[w].fence.Some? && n.vols[w].batch.Some? ensures Discarding(n, w) {
      if w != v {
        assert Discarding(s, w);
        assert s.vols[w].lock.value != t by { assert s.threads[s.vols[w].lock.value].vol == w; }
      } else if !pc.FenceDiscard? {
        assert Discarding(s, v);
      }
    }
  }

  lemma PutClaims(s: State, t: nat, y: Vol, pc: Pc, flags: map<nat, bool>)
    requires LocksOk(s) && ClaimsOk(s) && t in s.threads && LockMove(s.vols[s.threads[t].vol], y, t, pc)
    requires
      var x := s.vols[s.threads[t].vol];
      && (flags == s.flags || flags == s.flags[x.device := true])
      && ClaimMove(x, y, t, s.threads[t].pc, pc, Flag(s, x.device), Flag(s.(flags := flags), x.device))
    ensures ClaimsOk(Put(s, t, y, pc).(flags := flags))
  {
    var n, v := Put(s, t, y, pc).(flags := flags), s.threads[t].vol;
    var x := s.vols[v];
    forall w | Claims(n, w) ensures Claims(s, w) || (w == v && pc.Claiming?) {
      OldClaim(s, t, y, pc, flags, w);
    }
    PutHolds(s, t, y, pc, flags);
  }

  /** Bodies run under a claim and only the claiming thread is still without. */
  lemma PutHolds(s: State, t: nat, y: Vol, pc: Pc, flags: map<nat, bool>)
    requires LocksOk(s) && ClaimsOk(s) && t in s.threads && LockMove(s.vols[s.threads[t].vol], y, t, pc)
    requires
      var x := s.vols[s.threads[t].vol];
      ClaimMove(x, y, t, s.threads[t].pc, pc, Flag(s, x.device), Flag(s.(flags := flags), x.device))
    ensures
      var n := Put(s, t, y, pc).(flags := flags);
      && (forall u :: u in n.threads && n.threads[u].pc.Body? && n.threads[u].vol in n.vols ==>
            n.vols[n.threads[u].vol].holds)
      && (forall u :: u in n.threads && n.threads[u].pc.Claiming? && n.threads[u].vol in n.vols ==>
            !n.vols[n.threads[u].vol].holds)
  {
    hide Claims, Flag;
    var n, v := Put(s, t, y, pc).(flags := flags), s.threads[t].vol;
    forall u | u in n.threads && n.threads[u].pc.Claiming? && n.threads[u].vol in n.vols
      ensures !n.vols[n.threads[u].vol].holds
    {
      if u != t && s.threads[u].vol == v {
        assert s.vols[v].lock == Some(u);
      }
    }
  }

  /** Who claims after a move claimed before, or is the thread's own volume. */
  lemma OldClaim(s: State, t: nat, y: Vol, pc: Pc, flags: map<nat, bool>, w: nat)
    requires LocksOk(s) && t in s.threads && LockMove(s.vols[s.threads[t].vol], y, t, pc)
    requires
      var x := s.vols[s.threads[t].vol];
      ClaimMove(x, y, t, s.threads[t].pc, pc, Flag(s, x.device), Flag(s.(flags := flags), x.device))
    requires Claims(Put(s, t, y, pc).(flags := flags), w)
    ensures Claims(s, w) || (w == s.threads[t].vol && pc.Claiming?)
  {
    var v := s.threads[t].vol;
    var n := Put(s, t, y, pc).(flags := flags);
    if w == v {
      if y.holds && !s.vols[v].holds { assert s.vols[v].lock == Some(t); }
    } else if !s.vols[w].holds {
      assert s.vols[w].lock.value != t by { assert s.threads[s.vols[w].lock.value].vol == w; }
    }
  }

  /** Every action keeps the invariant. */
  lemma Kept(s: State, a: Action)
    requires Inv(s) && Enabled(s, a)
    ensures Inv(Do(s, a))
  {
    match a
    case Step(t) =>
      MoveKept(s, t);
    case Work(t, batch) =>
      BodyKept(s, t, s.vols[s.threads[t].vol].(batch := batch), Body);
    case End(t, how) =>
      var x := s.vols[s.threads[t].vol];
      BodyKept(s, t, x.(lock := None, poisoned := x.poisoned || how.Panic?),
        if how.Unknown? then FenceWant(how.reason) else Over);
    case Open(v, device, encrypted) => OpenKept(s, v, device, encrypted);
    case Close(v) => CloseKept(s, v);
    case Arm(v) => ArmKept(s, v);
    case Write(t, v) => SpawnKept(s, t, v, Gate);
    case Read(t, v) => SpawnKept(s, t, v, ReadWant);
    case BeginFence(t, v, reason) => SpawnKept(s, t, v, FenceWant(reason));
  }

  lemma MoveKept(s: State, t: nat)
    requires Inv(s) && Enabled(s, Step(t))
    ensures Inv(Move(s, t))
  {
    hide LocalStep, LockMove, FenceMove, ClaimMove;
    NotMine(s, t);
    Fenced(s, t);
    var x, was := s.vols[s.threads[t].vol], s.threads[t].pc;
    LocalMoves(x, was, t, Flag(s, x.device));
    var l := LocalStep(x, was, t, Flag(s, x.device));
    var n := Move(s, t);
    LiveMove(x, l.vol, t, l.pc);
    PutLocks(s, t, l.vol, l.pc);
    PutFence(s, t, l.vol, l.pc);
    assert Flag(s.(flags := n.flags), x.device) == (l.sets || Flag(s, x.device));
    PutClaims(s, t, l.vol, l.pc, n.flags);
    FlagsOnly(Put(s, t, l.vol, l.pc), n);
  }

  lemma LiveMove(x: Vol, y: Vol, t: nat, pc: Pc)
    requires LockMove(x, y, t, pc)
    ensures y.live == x.live
  {
  }

  /** Locks and fences do not look at the flags. */
  lemma FlagsOnly(s: State, n: State)
    requires n.vols == s.vols && n.threads == s.threads
    ensures LocksOk(s) == LocksOk(n) && FenceOk(s) == FenceOk(n)
  {
    hide HoldsLock;
  }

  lemma BodyKept(s: State, t: nat, y: Vol, pc: Pc)
    requires Inv(s) && t in s.threads && s.threads[t].pc.Body? && (pc.Body? || pc.Over? || pc.FenceWant?)
    requires
      var x := s.vols[s.threads[t].vol];
      && y.(batch := x.batch, lock := x.lock, poisoned := x.poisoned) == x
      && (if pc.Body? then y.lock == x.lock else y.lock.None? && y.batch == x.batch)
    ensures Inv(Put(s, t, y, pc))
  {
    assert s.threads[t].pc != Over;
    PutLocks(s, t, y, pc);
    PutFence(s, t, y, pc);
    PutClaims(s, t, y, pc, s.flags);
    assert Put(s, t, y, pc).(flags := s.flags) == Put(s, t, y, pc);
  }

  /** `n` has the threads and volumes of `s` in the same places; the rest of
      what changed matters to no invariant. */
  ghost predicate Alike(s: State, n: State) {
    && (forall v :: v in s.vols ==> v in n.vols && SameVol(s.vols[v], n.vols[v]))
    && (forall v :: v in n.vols && v !in s.vols ==> n.vols[v].lock.None? && n.vols[v].fence.None? && !n.vols[v].holds)
    && (forall t :: t in s.threads ==> t in n.threads && n.threads[t] == s.threads[t])
    && (forall t :: t in n.threads && t !in s.threads ==> Newcomer(n, n.threads[t]))
    && n.flags == s.flags
  }

  /** The same but for the consent. */
  predicate SameVol(x: Vol, y: Vol) { y.(armed := x.armed) == x }

  ghost predicate Newcomer(n: State, x: Thread) {
    x.vol in n.vols && n.vols[x.vol].live && (x.pc.Gate? || Waits(x.pc))
  }

  lemma AlikeLocks(s: State, n: State)
    requires LocksOk(s) && Alike(s, n)
    ensures LocksOk(n)
  {
    forall v | v in n.vols && n.vols[v].lock.Some?
      ensures n.vols[v].lock.value in n.threads && n.threads[n.vols[v].lock.value].vol == v
      ensures HoldsLock(n.threads[n.vols[v].lock.value].pc)
    {
      assert v in s.vols && s.vols[v].lock.Some?;
    }
  }

  lemma AlikeFence(s: State, n: State)
    requires LocksOk(s) && FenceOk(s) && Alike(s, n)
    ensures FenceOk(n)
  {
    forall v | v in n.vols && n.vols[v].fence.Some? && n.vols[v].batch.Some? ensures Discarding(n, v) {
      assert v in s.vols && Discarding(s, v);
    }
  }

  lemma AlikeClaims(s: State, n: State)
    requires LocksOk(s) && ClaimsOk(s) && Alike(s, n)
    ensures ClaimsOk(n)
  {
    forall v | Claims(n, v) ensures Claims(s, v) { }
  }

  lemma AlikeKept(s: State, n: State)
    requires Inv(s) && Alike(s, n)
    ensures Inv(n)
  {
    hide LocksOk, FenceOk, ClaimsOk, Alike;
    AlikeLocks(s, n);
    AlikeFence(s, n);
    AlikeClaims(s, n);
  }

  lemma SpawnKept(s: State, t: nat, v: nat, pc: Pc)
    requires Inv(s) && t !in s.threads && v in s.vols && s.vols[v].live && (pc.Gate? || Waits(pc))
    ensures Inv(s.(threads := s.threads[t := Thread(v, pc)]))
  {
    hide Inv;
    AlikeKept(s, s.(threads := s.threads[t := Thread(v, pc)]));
  }

  lemma ArmKept(s: State, v: nat)
    requires Inv(s) && v in s.vols && s.vols[v].live
    ensures Inv(s.(vols := s.vols[v := s.vols[v].(armed := true)]))
  {
    hide Inv;
    AlikeKept(s, s.(vols := s.vols[v := s.vols[v].(armed := true)]));
  }

  lemma OpenKept(s: State, v: nat, device: nat, encrypted: bool)
    requires Inv(s) && v !in s.vols
    ensures Inv(Do(s, Open(v, device, encrypted)))
  {
    hide Inv;
    AlikeKept(s, Do(s, Open(v, device, encrypted)));
  }

  lemma CloseKept(s: State, v: nat)
    requires Inv(s) && Enabled(s, Close(v))
    ensures Inv(Do(s, Close(v)))
  {
    hide FenceOk, ClaimsOk;
    var n := Do(s, Close(v));
    assert s.vols[v].lock.None?;
    assert LocksOk(n);
    CloseFence(s, v);
    CloseClaims(s, v);
  }

  lemma CloseFence(s: State, v: nat)
    requires Inv(s) && Enabled(s, Close(v)) && s.vols[v].lock.None?
    ensures FenceOk(Do(s, Close(v)))
  {
    hide ClaimsOk;
    var n := Do(s, Close(v));
    forall w | w in n.vols && n.vols[w].fence.Some? && n.vols[w].batch.Some? ensures Discarding(n, w) {
      assert Discarding(s, w);
    }
  }

  lemma CloseClaims(s: State, v: nat)
    requires Inv(s) && Enabled(s, Close(v)) && s.vols[v].lock.None?
    ensures ClaimsOk(Do(s, Close(v)))
  {
    hide FenceOk;
    var n := Do(s, Close(v));
    forall w | Claims(n, w) ensures Claims(s, w) && w != v { }
    assert s.vols[v].holds ==> Claims(s, v);
    hide LocksOk;
  }

  // ----- whole runs -----

  /** The states of a run, one action after another. */
  ghost predicate IsRun(states: seq<State>, actions: seq<Action>) {
    && |states| == |actions| + 1 && states[0] == State(map[], map[], map[])
    && forall i :: 0 <= i < |actions| ==> Enabled(states[i], actions[i]) && states[i + 1] == Do(states[i], actions[i])
  }

  /** Every state of every run is safe. */
  lemma {:induction false} RunSafe(states: seq<State>, actions: seq<Action>, i: nat)
    requires IsRun(states, actions) && i < |states|
    ensures Inv(states[i])
  {
    hide Enabled, Do;
    if i == 0 {
      EmptySafe();
    } else {
      RunSafe(states, actions, i - 1);
      Kept(states[i - 1], actions[i - 1]);
    }
  }

  lemma EmptySafe()
    ensures Inv(State(map[], map[], map[]))
  {
  }

  /** A write body runs only while the fence is unset, alone on its volume, and
      with its volume holding the device's writer claim. */
  lemma BodyAllowed(states: seq<State>, actions: seq<Action>, i: nat, t: nat)
    requires IsRun(states, actions) && i < |states| && t in states[i].threads && states[i].threads[t].pc.Body?
    ensures
      var s, v := states[i], states[i].threads[t].vol;
      && v in s.vols && s.vols[v].live && s.vols[v].fence.None? && s.vols[v].holds
      && forall u :: u in s.threads && s.threads[u].vol == v && s.threads[u].pc.Body? ==> u == t
  {
    hide Enabled, Do;
    RunSafe(states, actions, i);
    var s := states[i];
    assert HoldsLock(s.threads[t].pc);
    assert forall u :: u in s.threads && s.threads[u].pc.Body? ==> HoldsLock(s.threads[u].pc);
  }

  /** At most one live volume of a device holds the writer claim. */
  lemma OneWriter(states: seq<State>, actions: seq<Action>, i: nat, v: nat, w: nat)
    requires IsRun(states, actions) && i < |states| && v in states[i].vols && w in states[i].vols
    requires states[i].vols[v].live && states[i].vols[w].live && states[i].vols[v].holds && states[i].vols[w].holds
    requires states[i].vols[v].device == states[i].vols[w].device
    ensures v == w && Flag(states[i], states[i].vols[v].device)
  {
    hide Enabled, Do;
    RunSafe(states, actions, i);
    assert Claims(states[i], v) && Claims(states[i], w);
  }

  /** One action never changes a fence that is set, and never gives a fenced
      volume without a batch a new one. */
  lemma FenceStays(s: State, a: Action, v: nat)
    requires Inv(s) && Enabled(s, a) && v in s.vols && s.vols[v].fence.Some?
    ensures v in Do(s, a).vols && Do(s, a).vols[v].fence == s.vols[v].fence
    ensures s.vols[v].batch.None? ==> Do(s, a).vols[v].batch.None?
  {
    hide LocksOk, FenceOk, ClaimsOk, LocalStep;
    if a.Step? || a.Work? || a.End? {
      Fenced(s, a.t);
      if a.Step? {
        StepStays(s.vols[s.threads[a.t].vol], s.threads[a.t].pc, a.t, Flag(s, s.vols[s.threads[a.t].vol].device));
      }
    }
  }

  lemma StepStays(x: Vol, pc: Pc, t: nat, flag: bool)
    requires FencedHere(x, pc, t)
    ensures
      var y := LocalStep(x, pc, t, flag).vol;
      x.fence.Some? ==> y.fence == x.fence && (x.batch.None? ==> y.batch.None?)
  {
  }

  /** Once latched, the first reason stays, and once discarded the batch stays
      gone. */
  lemma {:induction false} FirstReasonWins(states: seq<State>, actions: seq<Action>, i: nat, j: nat, v: nat)
    requires IsRun(states, actions) && i <= j < |states| && v in states[i].vols && states[i].vols[v].fence.Some?
    ensures v in states[j].vols && states[j].vols[v].fence == states[i].vols[v].fence
    ensures states[i].vols[v].batch.None? ==> states[j].vols[v].batch.None?
    decreases j
  {
    hide Enabled, Do, Inv;
    if i < j {
      FirstReasonWins(states, actions, i, j - 1, v);
      RunSafe(states, actions, j - 1);
      FenceStays(states[j - 1], actions[j - 1], v);
    }
  }

  /** A latched fence means a discarded batch, except while the thread that
      latched it still holds the lock to discard it. */
  lemma FencedMeansDiscarded(states: seq<State>, actions: seq<Action>, i: nat, v: nat)
    requires IsRun(states, actions) && i < |states| && v in states[i].vols && states[i].vols[v].fence.Some?
    ensures states[i].vols[v].batch.None? || Discarding(states[i], v)
  {
    hide Enabled, Do;
    RunSafe(states, actions, i);
  }
}
