/**
 The checkpoint protocol of the threaded backfill port: workers that each own one chunk, a lock around
 the shared progress dictionary, and a second lock that orders snapshots and their delivery.
 */
module ThreadedProgress {
  import opened Wrappers
  import opened Backfill

  // ----- the shared state and the program counters -----

  datatype Update = Update(chunk: string, state: ChunkState)

  /**
   Where a worker is in `set_chunk` and `emit_progress`. `at` is the position of its update in the order
   in which the dictionary was written.
   */
  datatype Pc =
    | Idle
    | WantsLock(state: ChunkState)
    | Writes(state: ChunkState)
    | Wrote(at: nat)
    | WantsPersist(at: nat)
    | WantsSnapshot(at: nat)
    | Copies(at: nat)
    | Copied(at: nat, snapshot: Progress, upto: nat)
    | Delivers(at: nat, snapshot: Progress, upto: nat)
    | Delivered(at: nat)
    | Dead

  /** A snapshot handed to `on_progress`, and how many updates it contains. */
  datatype Delivery = Delivery(snapshot: Progress, upto: nat)

  datatype Sys = Sys(
    progress: Progress, lock: Option<string>, persistLock: Option<string>, workers: map<string, Pc>,
    updates: seq<Update>, deliveries: seq<Delivery>, returned: set<nat>)

  function Begin(progress: Progress): Sys {
    Sys(progress, None, None, map c | c in progress :: Idle, [], [], {})
  }

  /** The dictionary after these updates. */
  function After(init: Progress, updates: seq<Update>): Progress {
    if updates == [] then init
    else
      var last := updates[|updates| - 1];
      After(init, updates[..|updates| - 1])[last.chunk := last.state]
  }

  predicate Is(s: Sys, c: string, pc: Pc) {
    c in s.workers && s.workers[c] == pc
  }

  function Goto(s: Sys, c: string, pc: Pc): Sys {
    s.(workers := s.workers[c := pc])
  }

  // ----- the steps of one worker -----

  predicate Call(s: Sys, t: Sys, c: string, state: ChunkState) {
    Is(s, c, Idle) && t == Goto(s, c, WantsLock(state))
  }

  predicate AcquireToWrite(s: Sys, t: Sys, c: string, state: ChunkState) {
    Is(s, c, WantsLock(state)) && s.lock.None? && t == Goto(s, c, Writes(state)).(lock := Some(c))
  }

  predicate Write(s: Sys, t: Sys, c: string, state: ChunkState) {
    && Is(s, c, Writes(state))
    && t == Goto(s, c, Wrote(|s.updates|)).(progress := s.progress[c := state], updates := s.updates + [Update(c, state)])
  }

  predicate ReleaseWritten(s: Sys, t: Sys, c: string, at: nat) {
    Is(s, c, Wrote(at)) && t == Goto(s, c, WantsPersist(at)).(lock := None)
  }

  predicate AcquirePersist(s: Sys, t: Sys, c: string, at: nat) {
    Is(s, c, WantsPersist(at)) && s.persistLock.None? && t == Goto(s, c, WantsSnapshot(at)).(persistLock := Some(c))
  }

  predicate AcquireToCopy(s: Sys, t: Sys, c: string, at: nat) {
    Is(s, c, WantsSnapshot(at)) && s.lock.None? && t == Goto(s, c, Copies(at)).(lock := Some(c))
  }

  predicate Copy(s: Sys, t: Sys, c: string, at: nat) {
    Is(s, c, Copies(at)) && t == Goto(s, c, Copied(at, s.progress, |s.updates|))
  }

  predicate ReleaseCopied(s: Sys, t: Sys, c: string, at: nat, snapshot: Progress, upto: nat) {
    Is(s, c, Copied(at, snapshot, upto)) && t == Goto(s, c, Delivers(at, snapshot, upto)).(lock := None)
  }

  predicate Deliver(s: Sys, t: Sys, c: string, at: nat, snapshot: Progress, upto: nat) {
    && Is(s, c, Delivers(at, snapshot, upto))
    && t == Goto(s, c, Delivered(at)).(deliveries := s.deliveries + [Delivery(snapshot, upto)])
  }

  predicate Return(s: Sys, t: Sys, c: string, at: nat) {
    && Is(s, c, Delivered(at))
    && t == Goto(s, c, Idle).(persistLock := None, returned := s.returned + {at})
  }

  /** `on_progress` raises: the locks are released and the worker ends. */
  predicate Raise(s: Sys, t: Sys, c: string, at: nat, snapshot: Progress, upto: nat) {
    && Is(s, c, Delivers(at, snapshot, upto))
    && t == Goto(s, c, Dead).(persistLock := None)
  }

  // ----- the invariant -----

  predicate HoldsLock(pc: Pc) {
    pc.Writes? || pc.Wrote? || pc.Copies? || pc.Copied?
  }

  predicate HoldsPersist(pc: Pc) {
    pc.WantsSnapshot? || pc.Copies? || pc.Copied? || pc.Delivers? || pc.Delivered?
  }

  /** The update numbered `at` is the last one of its chunk. */
  predicate LastOf(updates: seq<Update>, at: nat, c: string) {
    at < |updates| && updates[at].chunk == c && forall i :: at < i < |updates| ==> updates[i].chunk != c
  }

  /** What a worker still has to deliver: its own update is the last of its chunk. */
  predicate Owes(pc: Pc) {
    pc.Wrote? || pc.WantsPersist? || pc.WantsSnapshot? || pc.Copies? || pc.Copied? || pc.Delivers? || pc.Delivered?
  }

  /** A snapshot copied behind update `at` was delivered, and shows its chunk in its state. */
  predicate Shown(deliveries: seq<Delivery>, at: nat, c: string, state: ChunkState) {
    exists i :: 0 <= i < |deliveries| && at < deliveries[i].upto && c in deliveries[i].snapshot && deliveries[i].snapshot[c] == state
  }

  predicate Snapshots(init: Progress, updates: seq<Update>, snapshot: Progress, upto: nat) {
    upto <= |updates| && snapshot == After(init, updates[..upto])
  }

  predicate DeliveredUpTo(deliveries: seq<Delivery>, upto: nat) {
    forall i :: 0 <= i < |deliveries| ==> deliveries[i].upto <= upto
  }

  ghost predicate WorkerOk(init: Progress, s: Sys, c: string, pc: Pc) {
    && (HoldsLock(pc) <==> s.lock == Some(c))
    && (HoldsPersist(pc) <==> s.persistLock == Some(c))
    && (Owes(pc) ==> LastOf(s.updates, pc.at, c))
    && (pc.Copied? || pc.Delivers? ==>
          Snapshots(init, s.updates, pc.snapshot, pc.upto) && pc.at < pc.upto && DeliveredUpTo(s.deliveries, pc.upto))
    && (pc.Delivered? ==> Shown(s.deliveries, pc.at, c, s.updates[pc.at].state))
  }

  ghost predicate DeliveriesOk(init: Progress, updates: seq<Update>, deliveries: seq<Delivery>) {
    && (forall i :: 0 <= i < |deliveries| ==> Snapshots(init, updates, deliveries[i].snapshot, deliveries[i].upto))
    && (forall i, j :: 0 <= i <= j < |deliveries| ==> deliveries[i].upto <= deliveries[j].upto)
  }

  ghost predicate ReturnedOk(updates: seq<Update>, deliveries: seq<Delivery>, returned: set<nat>) {
    forall at :: at in returned ==> at < |updates| && Shown(deliveries, at, updates[at].chunk, updates[at].state)
  }

  ghost predicate Inv(init: Progress, s: Sys) {
    && s.progress == After(init, s.updates)
    && s.workers.Keys == init.Keys
    && (s.lock.Some? ==> s.lock.value in s.workers) && (s.persistLock.Some? ==> s.persistLock.value in s.workers)
    && (forall c :: c in s.workers ==> WorkerOk(init, s, c, s.workers[c]))
    && DeliveriesOk(init, s.updates, s.deliveries)
    && ReturnedOk(s.updates, s.deliveries, s.returned)
  }

  // ----- what the updates amount to -----

  lemma AfterAppend(init: Progress, updates: seq<Update>, u: Update)
    ensures After(init, updates + [u]) == After(init, updates)[u.chunk := u.state]
  {
    assert (updates + [u])[..|updates|] == updates;
  }

  /** No update is lost: the last one of a chunk decides what the dictionary shows. */
  lemma {:induction false} LastDecides(init: Progress, updates: seq<Update>, at: nat)
    requires at < |updates| && LastOf(updates, at, updates[at].chunk)
    ensures updates[at].chunk in After(init, updates) && After(init, updates)[updates[at].chunk] == updates[at].state
  {
    if at < |updates| - 1 {
      var front := updates[..|updates| - 1];
      LastDecides(init, front, at);
      assert updates[|updates| - 1].chunk != updates[at].chunk;
    }
  }

  lemma SnapshotShows(init: Progress, updates: seq<Update>, at: nat, c: string, snapshot: Progress, upto: nat)
    requires LastOf(updates, at, c) && Snapshots(init, updates, snapshot, upto) && at < upto
    ensures c in snapshot && snapshot[c] == updates[at].state
  {
    LastDecides(init, updates[..upto], at);
  }

  lemma SnapshotsStay(init: Progress, updates: seq<Update>, u: Update, snapshot: Progress, upto: nat)
    requires Snapshots(init, updates, snapshot, upto)
    ensures Snapshots(init, updates + [u], snapshot, upto)
  {
    assert (updates + [u])[..upto] == updates[..upto];
  }

  // ----- the steps keep it -----

  /** A worker moves without touching dictionary, updates or deliveries. */
  lemma MoveKeeps(init: Progress, s: Sys, t: Sys, c: string, pc: Pc)
    requires Inv(init, s) && c in s.workers
    requires t == Goto(s, c, pc).(lock := t.lock, persistLock := t.persistLock)
    requires t.lock == s.lock || (s.lock.None? && t.lock == Some(c)) || (s.lock == Some(c) && t.lock.None?)
    requires t.persistLock == s.persistLock || (s.persistLock.None? && t.persistLock == Some(c)) || (s.persistLock == Some(c) && t.persistLock.None?)
    requires WorkerOk(init, t, c, pc)
    ensures Inv(init, t)
  {
    hide LastOf, Snapshots, DeliveredUpTo, Shown, After, DeliveriesOk, ReturnedOk;
    forall d | d in t.workers ensures WorkerOk(init, t, d, t.workers[d]) {
      if d != c {
        assert WorkerOk(init, s, d, s.workers[d]);
      }
    }
  }

  lemma WriteKeeps(init: Progress, s: Sys, t: Sys, c: string, state: ChunkState)
    requires Inv(init, s) && Write(s, t, c, state)
    ensures Inv(init, t)
  {
    var u := Update(c, state);
    AfterAppend(init, s.updates, u);
    hide After;
    forall d | d in t.workers ensures WorkerOk(init, t, d, t.workers[d]) {
      assert WorkerOk(init, s, d, s.workers[d]);
      if d != c && (s.workers[d].Copied? || s.workers[d].Delivers?) {
        SnapshotsStay(init, s.updates, u, s.workers[d].snapshot, s.workers[d].upto);
      }
    }
    forall i | 0 <= i < |s.deliveries| ensures Snapshots(init, t.updates, s.deliveries[i].snapshot, s.deliveries[i].upto) {
      SnapshotsStay(init, s.updates, u, s.deliveries[i].snapshot, s.deliveries[i].upto);
    }
  }

  lemma CopyKeeps(init: Progress, s: Sys, t: Sys, c: string, at: nat)
    requires Inv(init, s) && Copy(s, t, c, at)
    ensures Inv(init, t)
  {
    assert s.updates[..|s.updates|] == s.updates;
    assert WorkerOk(init, s, c, s.workers[c]);
    MoveKeeps(init, s, t, c, Copied(at, s.progress, |s.updates|));
  }

  lemma MoreShown(deliveries: seq<Delivery>, x: Delivery, at: nat, c: string, state: ChunkState)
    requires Shown(deliveries, at, c, state)
    ensures Shown(deliveries + [x], at, c, state)
  {
    var i :| 0 <= i < |deliveries| && at < deliveries[i].upto && c in deliveries[i].snapshot && deliveries[i].snapshot[c] == state;
    assert (deliveries + [x])[i] == deliveries[i];
  }

  lemma DeliverKeeps(init: Progress, s: Sys, t: Sys, c: string, at: nat, snapshot: Progress, upto: nat)
    requires Inv(init, s) && Deliver(s, t, c, at, snapshot, upto)
    ensures Inv(init, t)
  {
    var x := Delivery(snapshot, upto);
    assert WorkerOk(init, s, c, s.workers[c]);
    SnapshotShows(init, s.updates, at, c, snapshot, upto);
    assert Shown(t.deliveries, at, c, s.updates[at].state) by {
      assert t.deliveries[|s.deliveries|] == x;
    }
    hide After, Snapshots, LastOf;
    forall d | d in t.workers ensures WorkerOk(init, t, d, t.workers[d]) {
      assert WorkerOk(init, s, d, s.workers[d]);
    }
    hide Shown;
    forall r | r in s.returned ensures Shown(t.deliveries, r, s.updates[r].chunk, s.updates[r].state) {
      MoreShown(s.deliveries, x, r, s.updates[r].chunk, s.updates[r].state);
    }
  }

  lemma ReturnKeeps(init: Progress, s: Sys, t: Sys, c: string, at: nat)
    requires Inv(init, s) && Return(s, t, c, at)
    ensures Inv(init, t)
  {
    var m := s.(returned := t.returned);
    assert WorkerOk(init, s, c, s.workers[c]);
    assert ReturnedOk(s.updates, s.deliveries, t.returned);
    assert Inv(init, m) by {
      hide After, Snapshots, DeliveredUpTo, Shown, DeliveriesOk;
      forall d | d in m.workers ensures WorkerOk(init, m, d, m.workers[d]) {
        assert WorkerOk(init, s, d, s.workers[d]);
      }
    }
    MoveKeeps(init, m, t, c, Idle);
  }

  datatype Act =
    | Calls(c: string, state: ChunkState) | AcquiresToWrite(c: string, state: ChunkState) | WritesIt(c: string, state: ChunkState)
    | ReleasesWritten(c: string, at: nat) | AcquiresPersist(c: string, at: nat) | AcquiresToCopy(c: string, at: nat)
    | CopiesIt(c: string, at: nat) | ReleasesCopied(c: string, at: nat, snapshot: Progress, upto: nat)
    | DeliversIt(c: string, at: nat, snapshot: Progress, upto: nat) | Returns(c: string, at: nat)
    | Raises(c: string, at: nat, snapshot: Progress, upto: nat)

  predicate Does(s: Sys, act: Act, t: Sys) {
    match act
    case Calls(c, state) => Call(s, t, c, state)
    case AcquiresToWrite(c, state) => AcquireToWrite(s, t, c, state)
    case WritesIt(c, state) => Write(s, t, c, state)
    case ReleasesWritten(c, at) => ReleaseWritten(s, t, c, at)
    case AcquiresPersist(c, at) => AcquirePersist(s, t, c, at)
    case AcquiresToCopy(c, at) => AcquireToCopy(s, t, c, at)
    case CopiesIt(c, at) => Copy(s, t, c, at)
    case ReleasesCopied(c, at, snapshot, upto) => ReleaseCopied(s, t, c, at, snapshot, upto)
    case DeliversIt(c, at, snapshot, upto) => Deliver(s, t, c, at, snapshot, upto)
    case Returns(c, at) => Return(s, t, c, at)
    case Raises(c, at, snapshot, upto) => Raise(s, t, c, at, snapshot, upto)
  }

  predicate OnlyMoves(act: Act) {
    !act.WritesIt? && !act.CopiesIt? && !act.DeliversIt? && !act.Returns?
  }

  lemma MovesKeep(init: Progress, s: Sys, act: Act, t: Sys)
    requires Inv(init, s) && Does(s, act, t) && OnlyMoves(act)
    ensures Inv(init, t)
  {
    hide LastOf, Snapshots, DeliveredUpTo, Shown, After, DeliveriesOk, ReturnedOk;
    assert WorkerOk(init, s, act.c, s.workers[act.c]);
    MoveKeeps(init, s, t, act.c, t.workers[act.c]);
  }

  lemma StepKeeps(init: Progress, s: Sys, act: Act, t: Sys)
    requires Inv(init, s) && Does(s, act, t)
    ensures Inv(init, t)
  {
    hide Inv, Write, Copy, Deliver, Return;
    match act
    case WritesIt(c, state) => WriteKeeps(init, s, t, c, state);
    case CopiesIt(c, at) => CopyKeeps(init, s, t, c, at);
    case DeliversIt(c, at, snapshot, upto) => DeliverKeeps(init, s, t, c, at, snapshot, upto);
    case Returns(c, at) => ReturnKeeps(init, s, t, c, at);
    case _ =>
      hide Does;
      MovesKeep(init, s, act, t);
  }

  ghost predicate IsRun(init: Progress, states: seq<Sys>, acts: seq<Act>) {
    && |states| == |acts| + 1
    && states[0] == Begin(init)
    && forall i :: 0 <= i < |acts| ==> Does(states[i], acts[i], states[i + 1])
  }

  lemma {:induction false} RunsKeepInv(init: Progress, states: seq<Sys>, acts: seq<Act>)
    requires IsRun(init, states, acts)
    ensures Inv(init, states[|acts|])
  {
    if acts != [] {
      hide Inv, Does;
      var n := |acts| - 1;
      RunsKeepInv(init, states[..n + 1], acts[..n]);
      StepKeeps(init, states[n], acts[n], states[n + 1]);
    }
  }

  // ----- the promises -----

  /** Every delivered snapshot is a state the dictionary was in, and later deliveries never fall behind earlier ones. */
  lemma DeliveriesAreOrdered(init: Progress, states: seq<Sys>, acts: seq<Act>, i: nat, j: nat)
    requires IsRun(init, states, acts) && i <= j < |states[|acts|].deliveries|
    ensures var s := states[|acts|];
      && s.deliveries[i].upto <= s.deliveries[j].upto <= |s.updates|
      && s.deliveries[i].snapshot == After(init, s.updates[..s.deliveries[i].upto])
      && s.deliveries[j].snapshot == After(init, s.updates[..s.deliveries[j].upto])
  {
    RunsKeepInv(init, states, acts);
    hide IsRun, WorkerOk, After;
    var s := states[|acts|];
    assert Snapshots(init, s.updates, s.deliveries[i].snapshot, s.deliveries[i].upto);
    assert Snapshots(init, s.updates, s.deliveries[j].snapshot, s.deliveries[j].upto);
  }

  /** No update is lost: the dictionary always shows every chunk's latest update. */
  lemma NoUpdateIsLost(init: Progress, states: seq<Sys>, acts: seq<Act>, at: nat)
    requires IsRun(init, states, acts) && at < |states[|acts|].updates|
    requires LastOf(states[|acts|].updates, at, states[|acts|].updates[at].chunk)
    ensures var s := states[|acts|];
      s.updates[at].chunk in s.progress && s.progress[s.updates[at].chunk] == s.updates[at].state
  {
    RunsKeepInv(init, states, acts);
    LastDecides(init, states[|acts|].updates, at);
  }

  /** Once `set_chunk` has returned, a snapshot copied behind its transition was delivered and shows it. */
  lemma ReturnedMeansDelivered(init: Progress, states: seq<Sys>, acts: seq<Act>, at: nat)
    requires IsRun(init, states, acts) && at in states[|acts|].returned
    ensures var s := states[|acts|];
      at < |s.updates| && Shown(s.deliveries, at, s.updates[at].chunk, s.updates[at].state)
  {
    RunsKeepInv(init, states, acts);
  }

  /** The two locks never let two workers write, copy or deliver at once. */
  lemma LocksExclude(init: Progress, states: seq<Sys>, acts: seq<Act>, c: string, d: string)
    requires IsRun(init, states, acts) && c in states[|acts|].workers && d in states[|acts|].workers && c != d
    ensures var w := states[|acts|].workers; !(HoldsLock(w[c]) && HoldsLock(w[d])) && !(HoldsPersist(w[c]) && HoldsPersist(w[d]))
  {
    RunsKeepInv(init, states, acts);
    var s := states[|acts|];
    assert WorkerOk(init, s, c, s.workers[c]) && WorkerOk(init, s, d, s.workers[d]);
  }
}
