/**
 What the destination holds, over every run of the ingestion protocol: an accepted token stands for
 the rows of its batch, and a new sync never meets a token of its own.
 */
module IngestionContent {
  import opened Wrappers
  import opened Digest
  import opened Journal
  import opened Batching
  import opened Loading
  import opened Ingestion
  import opened IngestionInvariant
  import opened IngestionSteps
  import opened IngestionSafety
  import Appends

  // ----- an insert is a unit of a batch with a batch's identity -----

  /** A batch id this stream computes for these rows, in a process that knew no success behind `limit`. */
  ghost predicate IdOf(cfg: Config, limit: nat, id: Digest, b: Batch) {
    exists ls: nat, v: nat, n: nat :: ls <= limit && id == BatchId(cfg.scope.namespaceId, ls, v, n, cfg.discriminator(b))
  }

  ghost predicate UnitOf(cfg: Config, limit: nat, x: Insert, id: Digest, b: Batch)
    requires cfg.maxRows > 0
  {
    && IdOf(cfg, limit, id, b) && x.token.batchId == id
    && x.token.unit < |InsertsOf(id, b.rows, cfg.maxRows)| && x == InsertsOf(id, b.rows, cfg.maxRows)[x.token.unit]
  }

  ghost predicate Genuine(cfg: Config, limit: nat, x: Insert)
    requires cfg.maxRows > 0
  {
    exists b :: UnitOf(cfg, limit, x, x.token.batchId, b)
  }

  ghost predicate AllGenuine(cfg: Config, limit: nat, xs: set<Insert>)
    requires cfg.maxRows > 0
  {
    forall x :: x in xs ==> Genuine(cfg, limit, x)
  }

  /** The log and the tokens say the same, and every insert in the log is genuine. */
  ghost predicate DestOk(cfg: Config, limit: nat, d: Dest)
    requires cfg.maxRows > 0
  {
    && (forall x :: x in d.log ==> Genuine(cfg, limit, x) && x.token in d.tokens)
    && (forall t :: t in d.tokens ==> exists x :: x in d.log && x.token == t)
  }

  ghost predicate LoadedIds(cfg: Config, limit: nat, att: Attempt) {
    forall k :: 0 <= k < |att.loaded| ==> IdOf(cfg, limit, att.loaded[k].batchId, att.loaded[k].cut.batch)
  }

  ghost predicate KnownIds(cfg: Config, limit: nat, atts: seq<Attempt>) {
    forall a :: 0 <= a < |atts| ==> LoadedIds(cfg, limit, atts[a])
  }

  ghost predicate HandId(cfg: Config, limit: nat, run: Option<Run>) {
    run.Some? && run.value.consumer.Loading? ==> IdOf(cfg, limit, run.value.consumer.batchId, run.value.consumer.cut.batch)
  }

  ghost predicate ContentOk(cfg: Config, s: Sys)
    requires cfg.maxRows > 0
  {
    var limit := s.line.lastSuccess;
    && limit <= LastSuccessSeq(s.line.rows)
    && AllGenuine(cfg, limit, s.flights) && DestOk(cfg, limit, s.dest)
    && KnownIds(cfg, limit, s.attempts) && HandId(cfg, limit, s.run)
  }

  // ----- steps -----

  lemma PopId(cfg: Config, s: Sys, t: Sys)
    requires Pop(cfg, s, t)
    ensures HandId(cfg, t.line.lastSuccess, t.run)
  {
    var b := s.run.value.queue[0].batch;
    assert BatchIdFor(cfg, s.line, s.run.value.since, b)
      == BatchId(cfg.scope.namespaceId, s.line.lastSuccess, s.line.version, s.run.value.since, cfg.discriminator(b));
  }

  lemma SendGenuine(cfg: Config, limit: nat, s: Sys, t: Sys)
    requires cfg.maxRows > 0 && SendUnit(cfg, s, t) && AllGenuine(cfg, limit, s.flights) && HandId(cfg, limit, s.run)
    ensures AllGenuine(cfg, limit, t.flights)
  {
    hide IdOf;
    var c := s.run.value.consumer;
    var x := InsertsOf(c.batchId, c.cut.batch.rows, cfg.maxRows)[c.unit];
    InsertsFromShape(c.batchId, c.cut.batch.rows, cfg.maxRows, 0, 0, c.unit);
    assert UnitOf(cfg, limit, x, c.batchId, c.cut.batch);
    hide UnitOf;
  }

  lemma LandGenuine(cfg: Config, limit: nat, d: Dest, x: Insert)
    requires cfg.maxRows > 0 && DestOk(cfg, limit, d) && Genuine(cfg, limit, x)
    ensures DestOk(cfg, limit, Deliver(d, x))
  {
    hide Genuine;
    var e := Deliver(d, x);
    forall t | t in e.tokens ensures exists y :: y in e.log && y.token == t {
      if t in d.tokens {
        var y :| y in d.log && y.token == t;
        assert y in e.log;
      } else {
        assert x in e.log && x.token == t;
      }
    }
  }

  lemma LoadIds(cfg: Config, limit: nat, s: Sys, t: Sys)
    requires cfg.maxRows > 0 && LoadDone(cfg, s, t) && KnownIds(cfg, limit, s.attempts) && HandId(cfg, limit, s.run)
    ensures KnownIds(cfg, limit, t.attempts)
  {
    hide IdOf, CommitFor, UnitPending;
    assert LoadedIds(cfg, limit, Last(s));
    assert LoadedIds(cfg, limit, Last(t));
    hide LoadedIds;
  }

  lemma SameLoadedIds(cfg: Config, limit: nat, atts: seq<Attempt>, y: Attempt)
    requires atts != [] && KnownIds(cfg, limit, atts) && y.loaded == atts[|atts| - 1].loaded
    ensures KnownIds(cfg, limit, ReplaceLast(atts, y))
  {
    hide IdOf;
    assert LoadedIds(cfg, limit, atts[|atts| - 1]);
    assert LoadedIds(cfg, limit, y);
    hide LoadedIds;
  }

  lemma NewAttemptIds(cfg: Config, limit: nat, atts: seq<Attempt>, y: Attempt)
    requires KnownIds(cfg, limit, atts) && y.loaded == []
    ensures KnownIds(cfg, limit, atts + [y])
  {
    hide IdOf;
    assert LoadedIds(cfg, limit, y);
    hide LoadedIds;
  }

  lemma InFlight(cfg: Config, limit: nat, xs: set<Insert>, x: Insert)
    requires cfg.maxRows > 0 && AllGenuine(cfg, limit, xs) && x in xs
    ensures Genuine(cfg, limit, x)
  {
  }

  lemma LaterId(cfg: Config, early: nat, late: nat, id: Digest, b: Batch)
    requires early <= late && IdOf(cfg, early, id, b)
    ensures IdOf(cfg, late, id, b)
  {
    hide BatchId;
  }

  lemma LaterGenuine(cfg: Config, early: nat, late: nat, x: Insert)
    requires cfg.maxRows > 0 && early <= late && Genuine(cfg, early, x)
    ensures Genuine(cfg, late, x)
  {
    hide IdOf, InsertsOf;
    var b :| UnitOf(cfg, early, x, x.token.batchId, b);
    LaterId(cfg, early, late, x.token.batchId, b);
    assert UnitOf(cfg, late, x, x.token.batchId, b);
  }

  lemma LaterContent(cfg: Config, early: nat, late: nat, flights: set<Insert>, d: Dest, atts: seq<Attempt>)
    requires cfg.maxRows > 0 && early <= late && AllGenuine(cfg, early, flights) && DestOk(cfg, early, d) && KnownIds(cfg, early, atts)
    ensures AllGenuine(cfg, late, flights) && DestOk(cfg, late, d) && KnownIds(cfg, late, atts)
  {
    hide Genuine, IdOf;
    forall x | x in flights ensures Genuine(cfg, late, x) {
      LaterGenuine(cfg, early, late, x);
    }
    forall x | x in d.log ensures Genuine(cfg, late, x) {
      LaterGenuine(cfg, early, late, x);
    }
    forall a | 0 <= a < |atts| ensures LoadedIds(cfg, late, atts[a]) {
      assert LoadedIds(cfg, early, atts[a]);
      forall k | 0 <= k < |atts[a].loaded| ensures IdOf(cfg, late, atts[a].loaded[k].batchId, atts[a].loaded[k].cut.batch) {
        LaterId(cfg, early, late, atts[a].loaded[k].batchId, atts[a].loaded[k].cut.batch);
      }
    }
  }

  lemma RestartContent(cfg: Config, s: Sys, t: Sys)
    requires cfg.maxRows > 0 && ContentOk(cfg, s) && Restart(cfg, s, t)
    ensures ContentOk(cfg, t) && t.line.lastSuccess == LastSuccessSeq(s.line.rows)
  {
    hide AllGenuine, DestOk, KnownIds, HandId, VersionAfter, EnvelopeAfter, Commits, HeadSeq, OwnersAgree, PayloadsAgree, TransitionsValid;
    LaterContent(cfg, s.line.lastSuccess, t.line.lastSuccess, s.flights, s.dest, s.attempts);
    assert HandId(cfg, t.line.lastSuccess, None) by {
      NothingInHand(cfg, t.line.lastSuccess);
    }
  }

  lemma NothingInHand(cfg: Config, limit: nat)
    ensures HandId(cfg, limit, None)
  {
  }

  /** Steps that neither send, land, load nor start anything. */
  predicate LeavesContent(act: Act) {
    !act.Pops? && !act.SendsUnit? && !act.LandsInsert? && !act.Restarts? && !TouchesAttempts(act)
  }

  lemma OtherStepsLeaveContent(cfg: Config, s: Sys, act: Act, t: Sys)
    requires cfg.maxRows > 0 && Does(cfg, s, act, t) && LeavesContent(act)
    ensures t.flights == s.flights && t.dest == s.dest && t.attempts == s.attempts
    ensures HandId(cfg, s.line.lastSuccess, s.run) ==> HandId(cfg, s.line.lastSuccess, t.run)
  {
    hide Appends.Next, Appends.Enabled, UnitCount, Writes, Drained, OpenEnded, IdOf,
         Pop, SendUnit, LandInsert, Restart, ConfirmCommit, LoadDone, Pull, EndRead, CutRead, StartAttempt;
  }

  lemma AttemptsKeepIds(cfg: Config, s: Sys, act: Act, t: Sys)
    requires cfg.maxRows > 0 && Does(cfg, s, act, t) && TouchesAttempts(act) && !act.LoadIsDone?
    requires KnownIds(cfg, s.line.lastSuccess, s.attempts)
    ensures t.flights == s.flights && t.dest == s.dest && KnownIds(cfg, s.line.lastSuccess, t.attempts)
    ensures HandId(cfg, s.line.lastSuccess, s.run) ==> HandId(cfg, s.line.lastSuccess, t.run)
  {
    hide Appends.Next, Appends.Enabled, Feed, Flush, Held, Chunks, OpenEnded, Seen, KnownIds, IdOf;
    match act
    case StartsAttempt => NewAttemptIds(cfg, s.line.lastSuccess, s.attempts, Last(t));
    case ConfirmsCommit => SameLoadedIds(cfg, s.line.lastSuccess, s.attempts, Last(t));
    case Pulls => SameLoadedIds(cfg, s.line.lastSuccess, s.attempts, Last(t));
    case EndsRead => SameLoadedIds(cfg, s.line.lastSuccess, s.attempts, Last(t));
    case CutsRead => SameLoadedIds(cfg, s.line.lastSuccess, s.attempts, Last(t));
  }

  /** Steps that involve the journal. */
  predicate TouchesLine(act: Act) {
    act.Restarts? || act.Crashes? || act.Poisons? || act.StartsWrite? || act.LandsFact? || act.ConfirmsNote? || act.ConfirmsCommit?
    || act.ConfirmsRetry? || act.ConfirmsFinish? || act.ConfirmsUnseen?
  }

  lemma OtherStepsLeaveLine(cfg: Config, s: Sys, act: Act, t: Sys)
    requires cfg.maxRows > 0 && Does(cfg, s, act, t) && !TouchesLine(act)
    ensures t.line == s.line
  {
    hide Restart, Crash, Poison, StartWrite, LandFact, ConfirmNote, ConfirmCommit, ConfirmRetry, ConfirmFinish, ConfirmUnseen,
         UnitPending, Drained, OpenEnded, Feed, Flush, Held, Chunks, CommitFor, Seen, InsertsOf, BatchIdFor;
  }

  /** What a step of the append line leaves: the last success it read, and the rows unless one lands. */
  lemma LineKeepsSuccess(cfg: Config, l: Appends.Line, step: Appends.Step)
    requires Appends.Enabled(cfg.scope, l, step) && !step.Restart?
    ensures Appends.Next(cfg.scope, l, step).lastSuccess == l.lastSuccess
    ensures Appends.Next(cfg.scope, l, step).rows == if step.Land? then l.rows + [step.e] else l.rows
  {
  }

  lemma JournalStepsKeepSuccess(cfg: Config, s: Sys, act: Act, t: Sys)
    requires cfg.maxRows > 0 && Does(cfg, s, act, t) && TouchesLine(act) && !act.Restarts?
    ensures t.line.lastSuccess == s.line.lastSuccess
    ensures t.line.rows == if act.LandsFact? then s.line.rows + [act.e] else s.line.rows
  {
    hide Abort, AddNote, StartAttempt, Pull, EndRead, CutRead, Push, Pop, SendUnit, LandInsert, AckUnit, Reload, LoadDone, StopLoading,
         Abandon, RequestRetry, RequestFinish, Writes, Follows, ReplaceLast, Appends.Next;
    match act
    case Crashes => LineKeepsSuccess(cfg, s.line, Appends.Crash);
    case Poisons => LineKeepsSuccess(cfg, s.line, Appends.Poison);
    case StartsWrite(e) => LineKeepsSuccess(cfg, s.line, Appends.StartWrite(e));
    case LandsFact(e) => LineKeepsSuccess(cfg, s.line, Appends.Land(e));
    case ConfirmsUnseen => LineKeepsSuccess(cfg, s.line, Appends.ConfirmUnseen);
    case _ => LineKeepsSuccess(cfg, s.line, Appends.Confirm);
  }

  /** Only a restart reads the last success again, and facts only add to it. */
  lemma SuccessStaysKnown(cfg: Config, s: Sys, act: Act, t: Sys)
    requires cfg.maxRows > 0 && Does(cfg, s, act, t) && !act.Restarts?
    ensures t.line.lastSuccess == s.line.lastSuccess && LastSuccessSeq(s.line.rows) <= LastSuccessSeq(t.line.rows)
  {
    hide Does, LastSuccessSeq;
    if TouchesLine(act) {
      JournalStepsKeepSuccess(cfg, s, act, t);
      if act.LandsFact? {
        SeqsAppend(s.line.rows, act.e);
      }
    } else {
      OtherStepsLeaveLine(cfg, s, act, t);
    }
  }

  lemma StepKeepsContent(cfg: Config, s: Sys, act: Act, t: Sys)
    requires cfg.maxRows > 0 && ContentOk(cfg, s) && Does(cfg, s, act, t)
    ensures ContentOk(cfg, t)
  {
    hide AllGenuine, DestOk, KnownIds, IdOf, BatchIdFor, InsertsOf, Deliver, CommitFor, UnitPending, LastSuccessSeq;
    if act.Restarts? {
      RestartContent(cfg, s, t);
    } else {
      SuccessStaysKnown(cfg, s, act, t);
      if act.LoadIsDone? {
        LoadIds(cfg, s.line.lastSuccess, s, t);
      } else if TouchesAttempts(act) {
        hide Does, HandId;
        AttemptsKeepIds(cfg, s, act, t);
      } else if LeavesContent(act) {
        hide Does, HandId;
        OtherStepsLeaveContent(cfg, s, act, t);
      } else {
        match act
        case Pops => PopId(cfg, s, t);
        case SendsUnit => SendGenuine(cfg, s.line.lastSuccess, s, t);
        case LandsInsert(x) =>
          InFlight(cfg, s.line.lastSuccess, s.flights, x);
          LandGenuine(cfg, s.line.lastSuccess, s.dest, x);
      }
    }
  }

  lemma {:induction false} RunsKeepContent(cfg: Config, states: seq<Sys>, acts: seq<Act>)
    requires cfg.maxRows > 0 && IsRun(cfg, states, acts)
    ensures ContentOk(cfg, states[|acts|])
  {
    hide ContentOk, Does;
    if acts == [] {
      assert ContentOk(cfg, START) by {
        NothingStored(cfg);
      }
    } else {
      var n := |acts| - 1;
      RunsKeepContent(cfg, states[..n + 1], acts[..n]);
      StepKeepsContent(cfg, states[n], acts[n], states[n + 1]);
    }
  }

  lemma NothingStored(cfg: Config)
    requires cfg.maxRows > 0
    ensures ContentOk(cfg, START)
  {
  }

  // ----- acknowledged means stored -----

  /** Batches with the same discriminator have the same rows: their content is their identity. */
  ghost predicate ByContent(cfg: Config) {
    forall b, c :: cfg.discriminator(b) == cfg.discriminator(c) ==> b.rows == c.rows
  }

  /** The rows behind an accepted token are the rows of any batch that has it. */
  lemma TokenMeansRows(cfg: Config, limit: nat, d: Dest, id: Digest, b: Batch, u: nat)
    requires cfg.maxRows > 0 && ByContent(cfg) && DestOk(cfg, limit, d) && IdOf(cfg, limit, id, b)
    requires u < |InsertsOf(id, b.rows, cfg.maxRows)| && Token(id, u) in d.tokens
    ensures InsertsOf(id, b.rows, cfg.maxRows)[u] in d.log
  {
    hide InsertsOf;
    var x :| x in d.log && x.token == Token(id, u);
    assert Genuine(cfg, limit, x);
    var c :| UnitOf(cfg, limit, x, id, c);
    var ls: nat, v: nat, n: nat :| id == BatchId(cfg.scope.namespaceId, ls, v, n, cfg.discriminator(b));
    var ls': nat, v': nat, n': nat :| id == BatchId(cfg.scope.namespaceId, ls', v', n', cfg.discriminator(c));
    BatchIdInjective(cfg.scope.namespaceId, ls, v, n, cfg.discriminator(b),
                     cfg.scope.namespaceId, ls', v', n', cfg.discriminator(c));
  }

  /** With content identities, acknowledged means stored: every unit of a loaded batch is in the destination. */
  lemma AcknowledgedMeansStored(cfg: Config, states: seq<Sys>, acts: seq<Act>, a: nat, k: nat, u: nat)
    requires cfg.maxRows > 0 && ByContent(cfg) && IsRun(cfg, states, acts)
    requires a < |states[|acts|].attempts| && k < |states[|acts|].attempts[a].loaded|
    ensures var l := states[|acts|].attempts[a].loaded[k];
      u < |InsertsOf(l.batchId, l.cut.batch.rows, cfg.maxRows)| ==>
        InsertsOf(l.batchId, l.cut.batch.rows, cfg.maxRows)[u] in states[|acts|].dest.log
  {
    var s := states[|acts|];
    RunsKeepContent(cfg, states, acts);
    RunsStayReachable(cfg, states, acts);
    hide IsRun, ByContent, PipelineOk, ConsumerOk, RequestsOk, OrderOk, LifeOk, PendingOk, FactsBacked, CommitsStored, Appends.Inv, StartsOk,
         Pushed, Cuts, Chunks, IdOf, DestOk, HandId, AllGenuine, InsertsOf, LastSuccessSeq;
    assert AttemptOk(cfg, a, s.attempts[a], s.dest.tokens) && LoadedIds(cfg, s.line.lastSuccess, s.attempts[a]);
    var l := s.attempts[a].loaded[k];
    if u < UnitCount(cfg, l.batchId, l.cut) {
      TokenMeansRows(cfg, s.line.lastSuccess, s.dest, l.batchId, l.cut.batch, u);
    }
  }
}
