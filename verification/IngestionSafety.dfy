/**
 The safety of the ingestion protocol over every run: a checkpoint never covers rows without sink
 evidence, success means everything was read, acknowledged and committed, the journal stays readable
 and the guards of the model never stop the executor.
 */
module IngestionSafety {
  import opened Wrappers
  import opened Digest
  import opened Journal
  import opened Batching
  import opened Loading
  import opened Ingestion
  import opened IngestionInvariant
  import opened IngestionSteps
  import Appends

  // ----- runs -----

  datatype Act =
    | Restarts | Crashes | Aborts | Poisons
    | AddsNote(kind: Kind) | StartsWrite(e: Event) | LandsFact(e: Event)
    | ConfirmsNote | ConfirmsCommit | ConfirmsRetry | ConfirmsFinish | ConfirmsUnseen
    | StartsAttempt | Pulls | EndsRead | CutsRead | PushesOne | Pops
    | SendsUnit | LandsInsert(x: Insert) | AcksUnit | Reloads | LoadIsDone | StopsLoading
    | Abandons | RequestsRetry | RequestsFinish(outcome: WorkState)

  predicate Does(cfg: Config, s: Sys, act: Act, t: Sys)
    requires cfg.maxRows > 0
  {
    match act
    case Restarts => Restart(cfg, s, t)
    case Crashes => Crash(cfg, s, t)
    case Aborts => Abort(s, t)
    case Poisons => Poison(cfg, s, t)
    case AddsNote(kind) => AddNote(s, t, kind)
    case StartsWrite(e) => StartWrite(cfg, s, t, e)
    case LandsFact(e) => LandFact(cfg, s, t, e)
    case ConfirmsNote => ConfirmNote(cfg, s, t)
    case ConfirmsCommit => ConfirmCommit(cfg, s, t)
    case ConfirmsRetry => ConfirmRetry(cfg, s, t)
    case ConfirmsFinish => ConfirmFinish(cfg, s, t)
    case ConfirmsUnseen => ConfirmUnseen(cfg, s, t)
    case StartsAttempt => StartAttempt(s, t)
    case Pulls => Pull(cfg, s, t)
    case EndsRead => EndRead(cfg, s, t)
    case CutsRead => CutRead(cfg, s, t)
    case PushesOne => Push(cfg, s, t)
    case Pops => Pop(cfg, s, t)
    case SendsUnit => SendUnit(cfg, s, t)
    case LandsInsert(x) => LandInsert(s, t, x)
    case AcksUnit => AckUnit(cfg, s, t)
    case Reloads => Reload(s, t)
    case LoadIsDone => LoadDone(cfg, s, t)
    case StopsLoading => StopLoading(s, t)
    case Abandons => Abandon(s, t)
    case RequestsRetry => RequestRetry(s, t)
    case RequestsFinish(outcome) => RequestFinish(s, t, outcome)
  }

  lemma StepKeeps(cfg: Config, s: Sys, act: Act, t: Sys)
    requires cfg.maxRows > 0 && Inv(cfg, s) && Does(cfg, s, act, t)
    ensures Inv(cfg, t)
  {
    hide Inv, Restart, Crash, Abort, Poison, AddNote, StartWrite, LandFact, ConfirmNote, ConfirmCommit, ConfirmRetry, ConfirmFinish,
         ConfirmUnseen, StartAttempt, Pull, EndRead, CutRead, Push, Pop, SendUnit, LandInsert, AckUnit, Reload, LoadDone, StopLoading,
         Abandon, RequestRetry, RequestFinish;
    match act
    case Restarts => RestartKeeps(cfg, s, t);
    case Crashes => CrashKeeps(cfg, s, t);
    case Aborts => AbortKeeps(cfg, s, t);
    case Poisons => PoisonKeeps(cfg, s, t);
    case AddsNote(kind) => AddNoteKeeps(cfg, s, t, kind);
    case StartsWrite(e) => StartWriteKeeps(cfg, s, t, e);
    case LandsFact(e) => LandFactKeeps(cfg, s, t, e);
    case ConfirmsNote => ConfirmNoteKeeps(cfg, s, t);
    case ConfirmsCommit => ConfirmCommitKeeps(cfg, s, t);
    case ConfirmsRetry => ConfirmRetryKeeps(cfg, s, t);
    case ConfirmsFinish => ConfirmFinishKeeps(cfg, s, t);
    case ConfirmsUnseen => ConfirmUnseenKeeps(cfg, s, t);
    case StartsAttempt => StartAttemptKeeps(cfg, s, t);
    case Pulls => PullKeeps(cfg, s, t);
    case EndsRead => EndReadKeeps(cfg, s, t);
    case CutsRead => CutReadKeeps(cfg, s, t);
    case PushesOne => PushKeeps(cfg, s, t);
    case Pops => PopKeeps(cfg, s, t);
    case SendsUnit => SendUnitKeeps(cfg, s, t);
    case LandsInsert(x) => LandInsertKeeps(cfg, s, t, x);
    case AcksUnit => AckUnitKeeps(cfg, s, t);
    case Reloads => ReloadKeeps(cfg, s, t);
    case LoadIsDone => LoadDoneKeeps(cfg, s, t);
    case StopsLoading => StopLoadingKeeps(cfg, s, t);
    case Abandons => AbandonKeeps(cfg, s, t);
    case RequestsRetry => RequestRetryKeeps(cfg, s, t);
    case RequestsFinish(outcome) => RequestFinishKeeps(cfg, s, t, outcome);
  }

  // ----- where attempts start -----

  /** The state an attempt starts from was carried by a batch that an earlier attempt loaded. */
  ghost predicate CarriedBefore(atts: seq<Attempt>, a: nat, state: string) {
    exists b: nat, k: nat :: b < a && b < |atts| && k < |atts[b].loaded| && atts[b].loaded[k].cut.batch.state == Some(state)
  }

  ghost predicate StartOk(atts: seq<Attempt>, a: nat, att: Attempt) {
    att.start.Some? ==> CarriedBefore(atts, a, att.start.value)
  }

  ghost predicate StartsOk(atts: seq<Attempt>) {
    forall a :: 0 <= a < |atts| ==> StartOk(atts, a, atts[a])
  }

  ghost predicate LoadsOn(x: Attempt, y: Attempt) {
    x.start == y.start && x.loaded <= y.loaded
  }

  ghost predicate Extends(xs: seq<Attempt>, ys: seq<Attempt>) {
    |xs| <= |ys| && forall a :: 0 <= a < |xs| ==> LoadsOn(xs[a], ys[a])
  }

  lemma ExtendsSame(xs: seq<Attempt>)
    ensures Extends(xs, xs)
  {
  }

  lemma ExtendsLast(xs: seq<Attempt>, y: Attempt)
    requires xs != [] && LoadsOn(xs[|xs| - 1], y)
    ensures Extends(xs, ReplaceLast(xs, y))
  {
  }

  /** Steps of the producer and the loader, a new attempt and a confirmed commit. */
  predicate TouchesAttempts(act: Act) {
    act.ConfirmsCommit? || act.LoadIsDone? || act.Pulls? || act.EndsRead? || act.CutsRead? || act.StartsAttempt?
  }

  lemma OtherStepsLeaveAttempts(cfg: Config, s: Sys, act: Act, t: Sys)
    requires cfg.maxRows > 0 && Does(cfg, s, act, t) && !TouchesAttempts(act)
    ensures t.attempts == s.attempts
  {
    hide Appends.Next, Appends.Enabled, UnitPending, UnitCount, InsertsOf, BatchIdFor, Writes, Drained, OpenEnded,
         ConfirmCommit, LoadDone, Pull, EndRead, CutRead, StartAttempt;
  }

  lemma StepExtends(cfg: Config, s: Sys, act: Act, t: Sys)
    requires cfg.maxRows > 0 && Does(cfg, s, act, t)
    ensures Extends(s.attempts, t.attempts)
    ensures !act.StartsAttempt? ==> |t.attempts| == |s.attempts|
  {
    hide Appends.Next, Appends.Enabled, Extends, UnitPending, CommitFor, Feed, Flush, Held, Chunks, OpenEnded, Seen;
    if TouchesAttempts(act) {
      match act
      case StartsAttempt => ExtendsNew(s.attempts, t.attempts[|t.attempts| - 1]);
      case ConfirmsCommit => ExtendsLast(s.attempts, Last(t));
      case LoadIsDone => ExtendsLast(s.attempts, Last(t));
      case Pulls => ExtendsLast(s.attempts, Last(t));
      case EndsRead => ExtendsLast(s.attempts, Last(t));
      case CutsRead => ExtendsLast(s.attempts, Last(t));
    } else {
      hide Does;
      OtherStepsLeaveAttempts(cfg, s, act, t);
      ExtendsSame(s.attempts);
    }
  }

  lemma ExtendsNew(xs: seq<Attempt>, y: Attempt)
    ensures Extends(xs, xs + [y])
  {
  }

  lemma StillCarried(xs: seq<Attempt>, ys: seq<Attempt>, a: nat, state: string)
    requires Extends(xs, ys) && CarriedBefore(xs, a, state)
    ensures CarriedBefore(ys, a, state)
  {
    var b: nat, k: nat :| b < a && b < |xs| && k < |xs[b].loaded| && xs[b].loaded[k].cut.batch.state == Some(state);
    assert LoadsOn(xs[b], ys[b]);
    assert ys[b].loaded[k] == xs[b].loaded[k];
  }

  lemma StartsStillOk(xs: seq<Attempt>, ys: seq<Attempt>)
    requires StartsOk(xs) && Extends(xs, ys)
    ensures forall a :: 0 <= a < |xs| ==> StartOk(ys, a, ys[a])
  {
    hide CarriedBefore;
    forall a | 0 <= a < |xs| ensures StartOk(ys, a, ys[a]) {
      assert StartOk(xs, a, xs[a]) && LoadsOn(xs[a], ys[a]);
      if xs[a].start.Some? {
        StillCarried(xs, ys, a, xs[a].start.value);
      }
    }
  }

  // ----- where a checkpoint comes from -----

  /** The current envelope was written by a commit that advanced. */
  lemma {:induction false} EnvelopeHasAnAdvance(cs: seq<Event>)
    requires TransitionsValid(cs) && EnvelopeAfter(cs).Some?
    ensures exists i :: 0 <= i < |cs| && cs[i].version != cs[i].expected && cs[i].checkpoint == EnvelopeAfter(cs)
  {
    var front, last := cs[..|cs| - 1], cs[|cs| - 1];
    if last.version == last.expected {
      EnvelopeHasAnAdvance(front);
      var i :| 0 <= i < |front| && front[i].version != front[i].expected && front[i].checkpoint == EnvelopeAfter(front);
      assert cs[i] == front[i];
    }
  }

  lemma AdvanceIsStored(rows: seq<Event>)
    requires Healthy(rows) && Projection(rows).envelope.Some?
    ensures exists e :: e in rows && e.kind.BatchCommitted? && e.version != e.expected && e.checkpoint == Projection(rows).envelope
  {
    var cs := Commits(rows);
    EnvelopeHasAnAdvance(cs);
    var i :| 0 <= i < |cs| && cs[i].version != cs[i].expected && cs[i].checkpoint == EnvelopeAfter(cs);
    CommitsAreStored(rows, HeadSeq(rows), cs[i]);
  }

  lemma AdvanceIsCarried(cfg: Config, atts: seq<Attempt>, e: Event)
    requires BackedBy(cfg, atts, e) && e.version != e.expected && e.checkpoint.Some?
    ensures CarriedBefore(atts, |atts|, e.checkpoint.value.state)
    ensures e.checkpoint.value.strategy == cfg.strategy && e.checkpoint.value.version == cfg.strategyVersion
  {
    var a := e.attemptNo;
    var k :| 0 <= k < |atts[a].loaded| && atts[a].loaded[k].batchId.text == e.batchId
      && Carries(cfg, e.expected, e.version, e.checkpoint, atts[a].loaded[k]);
    assert atts[a].loaded[k].cut.batch.state == Some(e.checkpoint.value.state);
  }

  /** The projected envelope carries the state of a loaded batch. */
  lemma EnvelopeIsCarried(cfg: Config, s: Sys)
    requires cfg.maxRows > 0 && Inv(cfg, s) && Projection(s.line.rows).envelope.Some?
    ensures CarriedBefore(s.attempts, |s.attempts|, Projection(s.line.rows).envelope.value.state)
    ensures Projection(s.line.rows).envelope.value.strategy == cfg.strategy
    ensures Projection(s.line.rows).envelope.value.version == cfg.strategyVersion
  {
    hide AttemptsOk, PipelineOk, ConsumerOk, RequestsOk, OrderOk, LifeOk, PendingOk, CommitsStored, Complete, Projection, Healthy, BackedBy,
         CarriedBefore, Appends.PendingFits, Appends.OnlyPendingMayBeNew, Appends.Believes;
    AdvanceIsStored(s.line.rows);
    hide Appends.Inv;
    var e :| e in s.line.rows && e.kind.BatchCommitted? && e.version != e.expected && e.checkpoint == Projection(s.line.rows).envelope;
    assert FactBacked(cfg, s.attempts, e);
    AdvanceIsCarried(cfg, s.attempts, e);
  }

  /** An attempt starts from exactly the committed checkpoint, whatever is still travelling. */
  lemma StartIsTheCheckpoint(cfg: Config, s: Sys, t: Sys)
    requires cfg.maxRows > 0 && Inv(cfg, s) && StartAttempt(s, t)
    ensures Last(t).start == StateOf(Projection(s.line.rows).envelope)
    ensures s.line.version == Projection(s.line.rows).version && s.line.envelope == Projection(s.line.rows).envelope
  {
    hide AttemptsOk, PipelineOk, ConsumerOk, RequestsOk, OrderOk, FactsBacked, CommitsStored, Projection, Healthy, Appends.PendingFits, Appends.OnlyPendingMayBeNew, HeadSeq;
    NoCommitWaits(cfg, s.line.version, s.line.envelope, s.chain, s.run, s.attempts);
  }

  ghost predicate Reachable(cfg: Config, s: Sys)
    requires cfg.maxRows > 0
  {
    Inv(cfg, s) && StartsOk(s.attempts)
  }

  lemma StartKeepsStarts(cfg: Config, s: Sys, t: Sys)
    requires cfg.maxRows > 0 && Reachable(cfg, s) && StartAttempt(s, t)
    ensures StartOk(t.attempts, |s.attempts|, Last(t))
  {
    hide Inv, StartsOk, Projection, CarriedBefore, OpenEnded;
    StartIsTheCheckpoint(cfg, s, t);
    if Last(t).start.Some? {
      EnvelopeIsCarried(cfg, s);
      ExtendsNew(s.attempts, Last(t));
      StillCarried(s.attempts, t.attempts, |s.attempts|, Last(t).start.value);
    }
  }

  lemma StepStaysReachable(cfg: Config, s: Sys, act: Act, t: Sys)
    requires cfg.maxRows > 0 && Reachable(cfg, s) && Does(cfg, s, act, t)
    ensures Reachable(cfg, t)
  {
    hide Inv, Extends, StartOk;
    StepKeeps(cfg, s, act, t);
    StepExtends(cfg, s, act, t);
    StartsStillOk(s.attempts, t.attempts);
    if act.StartsAttempt? {
      StartKeepsStarts(cfg, s, t);
      assert |t.attempts| == |s.attempts| + 1;
    } else {
      hide Does;
    }
  }

  /** A run: its states and the steps between them. */
  ghost predicate IsRun(cfg: Config, states: seq<Sys>, acts: seq<Act>)
    requires cfg.maxRows > 0
  {
    && |states| == |acts| + 1
    && states[0] == START
    && forall i :: 0 <= i < |acts| ==> Does(cfg, states[i], acts[i], states[i + 1])
  }

  lemma StartIsFine(cfg: Config)
    requires cfg.maxRows > 0
    ensures Reachable(cfg, START)
  {
    Appends.FreshIsFine();
    hide Appends.Inv;
    assert START.line.rows == [];
  }

  lemma {:induction false} RunsStayReachable(cfg: Config, states: seq<Sys>, acts: seq<Act>)
    requires cfg.maxRows > 0 && IsRun(cfg, states, acts)
    ensures Reachable(cfg, states[|acts|])
  {
    hide Reachable, Does;
    if acts == [] {
      StartIsFine(cfg);
    } else {
      var n := |acts| - 1;
      RunsStayReachable(cfg, states[..n + 1], acts[..n]);
      StepStaysReachable(cfg, states[n], acts[n], states[n + 1]);
    }
  }
}
