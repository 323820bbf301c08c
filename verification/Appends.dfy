/**
 The append side of the executor: a serialized, poisoning chain in front of a journal that may lose
 answers. Writes travel on a wire: a write that was sent may land at any later moment, any number of
 times, whether or not its answer was seen.
 */
module Appends {
  import opened Wrappers
  import opened Journal

  /** The journal, the wire, and the fields of one stream's progress that appends touch. */
  datatype Line = Line(
    rows: seq<Event>,          // physical journal rows
    wire: set<Event>,          // facts sent; each may land (again)
    pending: Option<Event>,    // the fact being written, unconfirmed
    live: bool,                // an executor process is running
    poisoned: bool,            // a fact could not be confirmed: nothing is appended any more
    stale: bool,               // a confirmed commit whose caller had already been cancelled
    seqNo: nat, version: nat, envelope: Option<Envelope>, lastSuccess: nat)

  const FRESH := Line([], {}, None, false, false, false, 0, 0, None, 0)

  datatype Step =
    | Restart
    | Crash
    | StartWrite(e: Event)
    | Land(e: Event)
    | Confirm
    | ConfirmUnseen
    | Poison

  /** Restart reads the checkpoint; nothing unconfirmed lands after that read. */
  predicate Enabled(scope: Scope, l: Line, step: Step) {
    match step
    case Restart => !l.live && ReadCheckpoint(scope, l.rows).Projected?
    case Crash => l.live
    case StartWrite(e) =>
      && l.live && !l.poisoned && l.pending.None? && !(l.stale && e.kind.BatchCommitted?)
      && e.seqNo == l.seqNo + 1
      && (e.kind.BatchCommitted? ==> Follows(l.version, l.envelope, e))
    case Land(e) => e in l.wire
    case Confirm => l.live && !l.poisoned && l.pending.Some? && l.pending.value in l.rows
    case ConfirmUnseen =>
      l.live && !l.poisoned && l.pending.Some? && l.pending.value in l.rows && l.pending.value.kind.BatchCommitted?
    case Poison => l.live
  }

  function Next(scope: Scope, l: Line, step: Step): Line
    requires Enabled(scope, l, step)
  {
    match step
    case Restart =>
      var c := ReadCheckpoint(scope, l.rows).checkpoint;
      Line(l.rows, (set e | e in l.wire && e in l.rows), None, true, false, false,
           c.headSeq, c.version, c.envelope, c.lastSuccessSeq)
    case Crash => l.(live := false)
    case StartWrite(e) => l.(pending := Some(e), wire := l.wire + {e})
    case Land(e) => l.(rows := l.rows + [e])
    case Confirm =>
      var e := l.pending.value;
      var confirmed := l.(pending := None, seqNo := e.seqNo);
      if e.kind.BatchCommitted? then confirmed.(version := e.version, envelope := e.checkpoint) else confirmed
    case ConfirmUnseen => l.(pending := None, seqNo := l.pending.value.seqNo, stale := true)
    case Poison => l.(poisoned := true)
  }

  // ----- the invariant -----

  predicate OnlyPendingMayBeNew(l: Line) {
    forall e :: e in l.wire ==> e in l.rows || l.pending == Some(e)
  }

  /** The fact being written is stored, or it is the next one. */
  predicate PendingFits(l: Line) {
    l.pending.Some? ==> l.pending.value in l.rows || IsNextFact(l.rows, l.pending.value)
  }

  predicate Landed(l: Line) {
    l.pending.Some? && l.pending.value in l.rows
  }

  /** What a live process believes about its namespace. */
  predicate Believes(l: Line) {
    && (l.pending.Some? ==> l.pending.value.seqNo == l.seqNo + 1)
    && HeadSeq(l.rows) == (if Landed(l) then l.seqNo + 1 else l.seqNo)
    && (!l.stale ==>
          if Landed(l) && l.pending.value.kind.BatchCommitted? then
            && Projection(l.rows).version == l.pending.value.version
            && Projection(l.rows).envelope == l.pending.value.checkpoint
          else
            Projection(l.rows).version == l.version && Projection(l.rows).envelope == l.envelope)
    && (!l.stale && l.pending.Some? && l.pending.value.kind.BatchCommitted? ==> Follows(l.version, l.envelope, l.pending.value))
    && (l.stale ==> l.pending.Some? ==> !l.pending.value.kind.BatchCommitted?)
  }

  ghost predicate Inv(l: Line) {
    Healthy(l.rows) && OnlyPendingMayBeNew(l) && PendingFits(l) && (l.live ==> Believes(l))
  }

  lemma SequencesStartAtOne(rows: seq<Event>)
    requires Gapless(rows)
    ensures forall e :: e in rows ==> e.seqNo >= 1
  {
    forall e | e in rows ensures e.seqNo >= 1 {
      SeqIsPresent(rows, e);
    }
  }

  /** The checkpoint of a history the protocol left behind is always read, never refused. */
  lemma CheckpointIsReadable(scope: Scope, l: Line)
    requires Inv(l)
    ensures ReadCheckpoint(scope, l.rows) == Projected(Projection(l.rows))
  {
    SequencesStartAtOne(l.rows);
    ValidatorAcceptsExactlyHistories(scope, l.rows);
    if l.rows == [] {
      assert Commits(l.rows) == [];
    }
  }

  lemma LandKeepsInv(l: Line, e: Event)
    requires Inv(l) && e in l.wire
    ensures Inv(l.(rows := l.rows + [e]))
    ensures e in l.rows ==> Projection(l.rows + [e]) == Projection(l.rows)
  {
    if e in l.rows {
      DuplicateKeepsHistory(l.rows, e);
    } else {
      NextFactKeepsHistory(l.rows, e);
    }
  }

  lemma StartKeepsInv(scope: Scope, l: Line, e: Event)
    requires Inv(l) && Enabled(scope, l, StartWrite(e))
    ensures e !in l.rows && Inv(Next(scope, l, StartWrite(e)))
  {
    if e in l.rows {
      HeadBounds(l.rows, e);
    }
  }

  lemma RestartKeepsInv(scope: Scope, l: Line)
    requires Inv(l) && Enabled(scope, l, Restart)
    ensures Inv(Next(scope, l, Restart))
  {
    CheckpointIsReadable(scope, l);
  }

  lemma StepKeepsInv(scope: Scope, l: Line, step: Step)
    requires Inv(l) && Enabled(scope, l, step)
    ensures Inv(Next(scope, l, step))
  {
    match step
    case Restart => RestartKeepsInv(scope, l);
    case StartWrite(e) => StartKeepsInv(scope, l, e);
    case Land(e) => LandKeepsInv(l, e);
    case _ =>
  }

  // ----- runs -----

  /** A run of the protocol: its states and the steps between them. */
  ghost predicate IsRun(scope: Scope, states: seq<Line>, steps: seq<Step>) {
    && |states| == |steps| + 1
    && states[0] == FRESH
    && forall i :: 0 <= i < |steps| ==> Enabled(scope, states[i], steps[i]) && states[i + 1] == Next(scope, states[i], steps[i])
  }

  lemma FreshIsFine()
    ensures Inv(FRESH)
  {
    assert Commits([]) == [];
  }

  /**
   Every history that one process at a time can leave behind passes the validator, at every moment
   and for every interleaving of landing, lost answers, retries, cancellation, crashes and restarts.
   */
  lemma {:induction false} EveryHistoryIsValid(scope: Scope, states: seq<Line>, steps: seq<Step>)
    requires IsRun(scope, states, steps)
    ensures Inv(states[|steps|])
    ensures ReadCheckpoint(scope, states[|steps|].rows) == Projected(Projection(states[|steps|].rows))
    ensures MemoryProjection(states[|steps|].rows) == Projection(states[|steps|].rows)
  {
    var n := |steps|;
    if n == 0 {
      FreshIsFine();
    } else {
      EveryHistoryIsValid(scope, states[..n], steps[..n - 1]);
      StepKeepsInv(scope, states[n - 1], steps[n - 1]);
    }
    CheckpointIsReadable(scope, states[n]);
    SequencesStartAtOne(states[n].rows);
    ProjectionsAgree(scope, states[n].rows);
  }

  // ----- the assumption on restarts -----

  /** As `Next`, but a fact that had not landed when the journal was read may still land. */
  function LooseNext(scope: Scope, l: Line, step: Step): Line
    requires Enabled(scope, l, step)
  {
    if step.Restart? then Next(scope, l, step).(wire := l.wire) else Next(scope, l, step)
  }

  ghost predicate IsLooseRun(scope: Scope, states: seq<Line>, steps: seq<Step>) {
    && |states| == |steps| + 1
    && states[0] == FRESH
    && forall i :: 0 <= i < |steps| ==> Enabled(scope, states[i], steps[i]) && states[i + 1] == LooseNext(scope, states[i], steps[i])
  }

  lemma TwoFactsOfOneSeq(scope: Scope, a: Event, b: Event)
    requires a.seqNo == b.seqNo && a != b
    ensures ReadCheckpoint(scope, [b, a]).NotAHistory?
  {
    var rows := [b, a];
    if OwnersAgree(scope, rows) && PayloadsAgree(scope, rows) {
      AgreementIsOneFact(scope, rows);
      assert a in rows && b in rows;
      OneFactAt(rows, a, b);
    }
  }

  lemma FreshIsRead(scope: Scope)
    ensures ReadCheckpoint(scope, []) == Projected(Committed(0, None, 0, 0))
  {
  }

  lemma LooseMore(scope: Scope, states: seq<Line>, steps: seq<Step>, step: Step, t: Line)
    requires IsLooseRun(scope, states, steps)
    requires Enabled(scope, states[|steps|], step) && t == LooseNext(scope, states[|steps|], step)
    ensures IsLooseRun(scope, states + [t], steps + [step])
  {
    hide Enabled, LooseNext;
  }

  /** Behind a restart from an empty journal; a fact of the process before may still be travelling. */
  function Started(wire: set<Event>): Line {
    Line([], wire, None, true, false, false, 0, 0, None, 0)
  }

  lemma SendsAndDies(scope: Scope, a: Event) returns (states: seq<Line>, steps: seq<Step>)
    requires a.seqNo == 1 && !a.kind.BatchCommitted?
    ensures IsLooseRun(scope, states, steps) && steps == [Restart, StartWrite(a), Crash, Restart] && states[4] == Started({a})
  {
    FreshIsRead(scope);
    hide ReadCheckpoint;
    states, steps := [FRESH], [];
    LooseMore(scope, states, steps, Restart, Started({}));
    states, steps := states + [Started({})], steps + [Restart];
    var sent := Started({}).(pending := Some(a), wire := {a});
    LooseMore(scope, states, steps, StartWrite(a), sent);
    states, steps := states + [sent], steps + [StartWrite(a)];
    var dead := sent.(live := false);
    LooseMore(scope, states, steps, Crash, dead);
    states, steps := states + [dead], steps + [Crash];
    LooseMore(scope, states, steps, Restart, Started({a}));
    states, steps := states + [Started({a})], steps + [Restart];
  }

  lemma LandsLate(scope: Scope, a: Event, b: Event, states: seq<Line>, steps: seq<Step>) returns (states': seq<Line>, steps': seq<Step>)
    requires b.seqNo == 1 && !b.kind.BatchCommitted?
    requires IsLooseRun(scope, states, steps) && states[|steps|] == Started({a})
    ensures IsLooseRun(scope, states', steps') && steps' == steps + [StartWrite(b), Land(b), Land(a)]
    ensures states'[|steps'|].rows == [b, a]
  {
    hide ReadCheckpoint;
    var sent := Started({a, b}).(pending := Some(b));
    assert {a} + {b} == {a, b};
    LooseMore(scope, states, steps, StartWrite(b), sent);
    states', steps' := states + [sent], steps + [StartWrite(b)];
    var stored := sent.(rows := [b]);
    assert [] + [b] == [b] && [b] + [a] == [b, a];
    LooseMore(scope, states', steps', Land(b), stored);
    states', steps' := states' + [stored], steps' + [Land(b)];
    LooseMore(scope, states', steps', Land(a), stored.(rows := [b, a]));
    states', steps' := states' + [stored.(rows := [b, a])], steps' + [Land(a)];
  }

  /**
   The assumption is needed: a process sends a fact and dies, the next one reads the empty journal and
   writes its own first fact, and then the first one lands. The journal is refused from then on.
   */
  lemma LateLandingBreaksHistory(scope: Scope, a: Event, b: Event) returns (states: seq<Line>, steps: seq<Step>)
    requires a.seqNo == 1 && b.seqNo == 1 && a != b && !a.kind.BatchCommitted? && !b.kind.BatchCommitted?
    ensures IsLooseRun(scope, states, steps)
    ensures steps == [Restart, StartWrite(a), Crash, Restart, StartWrite(b), Land(b), Land(a)]
    ensures ReadCheckpoint(scope, states[|steps|].rows).NotAHistory?
  {
    TwoFactsOfOneSeq(scope, a, b);
    var states0, steps0 := SendsAndDies(scope, a);
    hide ReadCheckpoint, Enabled, LooseNext, Started;
    states, steps := LandsLate(scope, a, b, states0, steps0);
  }
}
