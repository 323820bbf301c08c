/**
 Every step of the ingestion protocol keeps its invariant.
 */
module IngestionSteps {
  import opened Wrappers
  import opened Digest
  import opened Journal
  import opened Batching
  import opened Loading
  import opened Ingestion
  import opened IngestionInvariant
  import Appends

  // ----- steps that only change the running attempt -----

  /** Everything but the pipeline is untouched by a change of the volatile part. */
  lemma RunChanges(cfg: Config, s: Sys, t: Sys, r: Run)
    requires cfg.maxRows > 0 && Inv(cfg, s) && InAttempt(s) && t == s.(run := Some(r))
    requires r.abandoned == s.run.value.abandoned || r.abandoned
    requires r.consumer == s.run.value.consumer || !s.run.value.consumer.Committing?
    requires s.run.value.consumer.Stopped? ==> r.consumer.Stopped?
    requires PipelineOk(cfg, t.run, t.attempts) && ConsumerOk(cfg, t.run, t.attempts, t.dest.tokens)
    ensures Inv(cfg, t)
  {
    GrowsRefl(cfg, s.attempts);
    hide Grows, Appends.Inv, AttemptsOk, PipelineOk, ConsumerOk, RequestsOk, OrderOk, PendingOk, FactsBacked, CommitsStored;
    if r.consumer == s.run.value.consumer {
      RequestsKept(cfg, s.line.version, s.line.envelope, s.chain, s.run, s.attempts, t.run, t.attempts);
    } else {
      NoCommitWaits(cfg, s.line.version, s.line.envelope, s.chain, s.run, s.attempts);
      RequestsFree(cfg, s.line.version, s.line.envelope, s.line.version, s.line.envelope, s.chain, s.run, s.attempts, t.run, t.attempts);
    }
  }

  lemma NoCommitWaits(cfg: Config, version: nat, envelope: Option<Envelope>, chain: seq<Request>, run: Option<Run>, atts: seq<Attempt>)
    requires RequestsOk(cfg, version, envelope, chain, run, atts)
    requires run.Some? ==> !run.value.consumer.Committing?
    ensures forall i :: 0 <= i < |chain| ==> !chain[i].Commit? && (chain[i].RetryNote? ==> run.Some? && run.value.abandoned)
  {
    forall i | 0 <= i < |chain|
      ensures !chain[i].Commit? && (chain[i].RetryNote? ==> run.Some? && run.value.abandoned)
    {
      assert RequestOk(cfg, version, envelope, chain[i], run, atts);
    }
  }

  lemma MoveHead<T>(a: seq<T>, q: seq<T>, h: seq<T>)
    requires h != []
    ensures a + (q + [h[0]]) + h[1..] == a + q + h
  {
  }

  lemma PushPipeline(cfg: Config, s: Sys, t: Sys)
    requires Push(cfg, s, t) && PipelineOk(cfg, s.run, s.attempts)
    ensures PipelineOk(cfg, t.run, t.attempts)
  {
    hide Pushed, Cuts, InHand;
    var r := s.run.value;
    MoveHead(Cuts(Last(s).loaded) + InHand(r.consumer), r.queue, r.handoff);
  }

  lemma PushKeeps(cfg: Config, s: Sys, t: Sys)
    requires cfg.maxRows > 0 && Inv(cfg, s) && Push(cfg, s, t)
    ensures Inv(cfg, t)
  {
    hide PipelineOk, Appends.Inv, AttemptsOk, RequestsOk, OrderOk, PendingOk, FactsBacked, CommitsStored, Pushed, Cuts, InHand, UnitCount;
    PushPipeline(cfg, s, t);
    RunChanges(cfg, s, t, t.run.value);
  }

  lemma TakeHead<T>(a: seq<T>, q: seq<T>, h: seq<T>)
    requires q != []
    ensures a + [q[0]] + q[1..] + h == a + [] + q + h
  {
  }

  lemma PopPipeline(cfg: Config, s: Sys, t: Sys)
    requires Pop(cfg, s, t) && PipelineOk(cfg, s.run, s.attempts)
    ensures PipelineOk(cfg, t.run, t.attempts)
  {
    hide Pushed, Cuts, BatchIdFor;
    var r := s.run.value;
    TakeHead(Cuts(Last(s).loaded), r.queue, r.handoff);
  }

  lemma PopKeeps(cfg: Config, s: Sys, t: Sys)
    requires cfg.maxRows > 0 && Inv(cfg, s) && Pop(cfg, s, t)
    ensures Inv(cfg, t)
  {
    hide PipelineOk, Appends.Inv, AttemptsOk, RequestsOk, OrderOk, PendingOk, FactsBacked, CommitsStored, Pushed, Cuts, UnitCount, BatchIdFor;
    PopPipeline(cfg, s, t);
    RunChanges(cfg, s, t, t.run.value);
  }

  lemma AckUnitKeeps(cfg: Config, s: Sys, t: Sys)
    requires cfg.maxRows > 0 && Inv(cfg, s) && AckUnit(cfg, s, t)
    ensures Inv(cfg, t)
  {
    hide Appends.Inv, AttemptsOk, RequestsOk, OrderOk, PendingOk, FactsBacked, CommitsStored, Pushed, Cuts, UnitCount;
    RunChanges(cfg, s, t, t.run.value);
  }

  lemma ReloadKeeps(cfg: Config, s: Sys, t: Sys)
    requires cfg.maxRows > 0 && Inv(cfg, s) && Reload(s, t)
    ensures Inv(cfg, t)
  {
    hide Appends.Inv, AttemptsOk, RequestsOk, OrderOk, PendingOk, FactsBacked, CommitsStored, Pushed, Cuts, UnitCount;
    RunChanges(cfg, s, t, t.run.value);
  }

  lemma StopLoadingKeeps(cfg: Config, s: Sys, t: Sys)
    requires cfg.maxRows > 0 && Inv(cfg, s) && StopLoading(s, t)
    ensures Inv(cfg, t)
  {
    hide Appends.Inv, AttemptsOk, RequestsOk, OrderOk, PendingOk, FactsBacked, CommitsStored, Pushed, Cuts, UnitCount;
    RunChanges(cfg, s, t, t.run.value);
  }

  lemma AbandonKeeps(cfg: Config, s: Sys, t: Sys)
    requires cfg.maxRows > 0 && Inv(cfg, s) && Abandon(s, t)
    ensures Inv(cfg, t)
  {
    hide Appends.Inv, AttemptsOk, RequestsOk, OrderOk, PendingOk, FactsBacked, CommitsStored, Pushed, Cuts, UnitCount;
    RunChanges(cfg, s, t, t.run.value);
  }

  // ----- the producer -----

  /** A step that only reads further and hands over what it decided. */
  ghost predicate ReadsOn(cfg: Config, s: Sys, t: Sys, y: Attempt, handoff: seq<Cut>) {
    && MayRead(s) && HandsOver(s, t, y, handoff)
    && y == Last(s).(pos := y.pos, ended := y.ended, cutShort := y.cutShort)
    && Pushed(cfg, |s.attempts| - 1, y) == Pushed(cfg, |s.attempts| - 1, Last(s)) + handoff
    && y.pos <= |Chunks(cfg, |s.attempts| - 1, y)|
    && (y.cutShort ==> y.ended)
    && (y.ended && !y.cutShort ==> y.pos == |Chunks(cfg, |s.attempts| - 1, y)|)
  }

  lemma ReadsOnAttempts(cfg: Config, s: Sys, t: Sys, y: Attempt, handoff: seq<Cut>)
    requires cfg.maxRows > 0 && ReadsOn(cfg, s, t, y, handoff) && AttemptsOk(cfg, s.attempts, s.dest.tokens)
    ensures AttemptsOk(cfg, t.attempts, t.dest.tokens) && Grows(cfg, s.attempts, t.attempts)
    ensures Last(s).commits <= |Last(s).loaded|
  {
    hide UnitsIn;
    var a, att := |s.attempts| - 1, Last(s);
    assert AttemptOk(cfg, a, att, s.dest.tokens);
    PrefixOfSum(Cuts(att.loaded), Pushed(cfg, a, att), handoff);
    hide Pushed, Cuts;
    ReplaceLastGrows(cfg, s.attempts, y);
    ReplaceLastAttempt(cfg, s.attempts, y, s.dest.tokens);
  }

  lemma ReadsOnPipeline(cfg: Config, s: Sys, t: Sys, y: Attempt, handoff: seq<Cut>)
    requires cfg.maxRows > 0 && ReadsOn(cfg, s, t, y, handoff)
    requires PipelineOk(cfg, s.run, s.attempts) && ConsumerOk(cfg, s.run, s.attempts, s.dest.tokens)
    ensures PipelineOk(cfg, t.run, t.attempts) && ConsumerOk(cfg, t.run, t.attempts, t.dest.tokens)
  {
    hide Pushed, Cuts, InHand, UnitCount;
    var before := Cuts(Last(s).loaded) + InHand(s.run.value.consumer) + s.run.value.queue;
    assert before + [] == before;
  }

  lemma ReadsOnKeeps(cfg: Config, s: Sys, t: Sys, y: Attempt, handoff: seq<Cut>)
    requires cfg.maxRows > 0 && Inv(cfg, s) && ReadsOn(cfg, s, t, y, handoff)
    ensures Inv(cfg, t)
  {
    ReadsOnAttempts(cfg, s, t, y, handoff);
    ReadsOnPipeline(cfg, s, t, y, handoff);
    hide Appends.Inv, AttemptsOk, PipelineOk, ConsumerOk, FactsBacked, CommitsStored, Grows, RequestsOk, OrderOk, PendingOk, Pushed, Chunks;
    RequestsKept(cfg, s.line.version, s.line.envelope, s.chain, s.run, s.attempts, t.run, t.attempts);
    GrowsKeepsFacts(cfg, s.line.rows, s.line.wire, s.attempts, t.attempts);
    CommitsKept(s.line.rows, s.attempts, y);
  }

  lemma ReadWithinChunks(cfg: Config, s: Sys)
    requires cfg.maxRows > 0 && Inv(cfg, s) && InAttempt(s)
    ensures !Last(s).ended ==> !Last(s).cutShort
    ensures Last(s).pos <= |Chunks(cfg, |s.attempts| - 1, Last(s))|
  {
    hide Appends.Inv, PipelineOk, ConsumerOk, FactsBacked, CommitsStored, RequestsOk, OrderOk, PendingOk, Pushed, Chunks, UnitsIn, Cuts;
    assert AttemptOk(cfg, |s.attempts| - 1, Last(s), s.dest.tokens);
  }

  /** One more chunk: the pushes grow by what the loop decides for it. */
  lemma PullPushes(cfg: Config, a: nat, att: Attempt)
    requires !att.ended && att.pos < |Chunks(cfg, a, att)|
    ensures Pushed(cfg, a, att.(pos := att.pos + 1))
      == Pushed(cfg, a, att) + Feed(cfg.batchSize, Held(cfg, a, att), Chunks(cfg, a, att)[att.pos], att.pos).pushed
  {
    var chunks := Chunks(cfg, a, att);
    assert chunks[..att.pos + 1] == chunks[..att.pos] + [chunks[att.pos]];
    ReadAppend(cfg.batchSize, chunks[..att.pos], chunks[att.pos]);
  }

  lemma PullKeeps(cfg: Config, s: Sys, t: Sys)
    requires cfg.maxRows > 0 && Inv(cfg, s) && Pull(cfg, s, t)
    ensures Inv(cfg, t)
  {
    hide Inv;
    ReadWithinChunks(cfg, s);
    PullPushes(cfg, |s.attempts| - 1, Last(s));
    hide Pushed, Feed, Held;
    ReadsOnKeeps(cfg, s, t, Last(t), t.run.value.handoff);
  }

  /** The end of the reading: the pushes grow by the final flush. */
  lemma EndPushes(cfg: Config, a: nat, att: Attempt, cut: bool)
    requires !att.ended
    ensures Pushed(cfg, a, att.(ended := true, cutShort := cut))
      == Pushed(cfg, a, att)
         + Flush(Held(cfg, a, att), if cut then None else cfg.complete(a, att.start), |Seen(cfg, a, att)|)
  {
  }

  lemma EndReadKeeps(cfg: Config, s: Sys, t: Sys)
    requires cfg.maxRows > 0 && Inv(cfg, s) && EndRead(cfg, s, t)
    ensures Inv(cfg, t)
  {
    hide Inv;
    ReadWithinChunks(cfg, s);
    EndPushes(cfg, |s.attempts| - 1, Last(s), false);
    hide Pushed, Flush, Held, Seen;
    ReadsOnKeeps(cfg, s, t, Last(t), t.run.value.handoff);
  }

  lemma CutReadKeeps(cfg: Config, s: Sys, t: Sys)
    requires cfg.maxRows > 0 && Inv(cfg, s) && CutRead(cfg, s, t)
    ensures Inv(cfg, t)
  {
    hide Inv;
    ReadWithinChunks(cfg, s);
    EndPushes(cfg, |s.attempts| - 1, Last(s), true);
    hide Pushed, Flush, Held, Seen;
    ReadsOnKeeps(cfg, s, t, Last(t), t.run.value.handoff);
  }

  // ----- an attempt starts -----

  lemma NewAttemptOk(cfg: Config, atts: seq<Attempt>, start: Option<string>, tokens: set<Token>)
    requires cfg.maxRows > 0 && AttemptsOk(cfg, atts, tokens)
    ensures var y := Attempt(start, 0, false, false, [], 0);
      && AttemptsOk(cfg, atts + [y], tokens) && Grows(cfg, atts, atts + [y])
      && Pushed(cfg, |atts|, y) == []
  {
    hide UnitsIn;
    var y := Attempt(start, 0, false, false, [], 0);
    assert Seen(cfg, |atts|, y) == [];
    assert AttemptOk(cfg, |atts|, y, tokens);
    hide AttemptOk, CompleteAttempt;
    forall a | 0 <= a < |atts + [y]| ensures AttemptOk(cfg, a, (atts + [y])[a], tokens) {
      if a < |atts| {
        assert AttemptOk(cfg, a, atts[a], tokens);
      }
    }
  }

  lemma NewAttemptCommits(rows: seq<Event>, atts: seq<Attempt>, y: Attempt)
    requires CommitsStored(rows, atts) && y.loaded == []
    ensures CommitsStored(rows, atts + [y])
  {
    hide CommitStored;
  }

  lemma StartAttemptKeeps(cfg: Config, s: Sys, t: Sys)
    requires cfg.maxRows > 0 && Inv(cfg, s) && StartAttempt(s, t)
    ensures Inv(cfg, t)
  {
    var y := t.attempts[|t.attempts| - 1];
    NewAttemptOk(cfg, s.attempts, y.start, s.dest.tokens);
    NewAttemptCommits(s.line.rows, s.attempts, y);
    NoCommitWaits(cfg, s.line.version, s.line.envelope, s.chain, s.run, s.attempts);
    hide Appends.Inv, AttemptsOk, FactsBacked, CommitsStored, RequestsOk, OrderOk, PendingOk, Pushed, Grows, UnitCount, StateOf;
    GrowsKeepsFacts(cfg, s.line.rows, s.line.wire, s.attempts, t.attempts);
    RequestsFree(cfg, s.line.version, s.line.envelope, s.line.version, s.line.envelope, s.chain, s.run, s.attempts, t.run, t.attempts);
  }

  // ----- the destination -----

  lemma MoreTokens(cfg: Config, atts: seq<Attempt>, run: Option<Run>, few: set<Token>, many: set<Token>)
    requires cfg.maxRows > 0 && few <= many && AttemptsOk(cfg, atts, few) && ConsumerOk(cfg, run, atts, few)
    ensures AttemptsOk(cfg, atts, many) && ConsumerOk(cfg, run, atts, many)
  {
    hide UnitCount, Pushed, Cuts, Chunks;
    forall a | 0 <= a < |atts| ensures AttemptOk(cfg, a, atts[a], many) {
      assert AttemptOk(cfg, a, atts[a], few);
    }
  }

  lemma SendUnitKeeps(cfg: Config, s: Sys, t: Sys)
    requires cfg.maxRows > 0 && Inv(cfg, s) && SendUnit(cfg, s, t)
    ensures Inv(cfg, t)
  {
    hide Appends.Inv, AttemptsOk, PipelineOk, ConsumerOk, FactsBacked, CommitsStored, RequestsOk, OrderOk, PendingOk, LifeOk, UnitCount;
  }

  lemma LandInsertKeeps(cfg: Config, s: Sys, t: Sys, x: Insert)
    requires cfg.maxRows > 0 && Inv(cfg, s) && LandInsert(s, t, x)
    ensures Inv(cfg, t)
  {
    hide Appends.Inv, AttemptsOk, PipelineOk, ConsumerOk, FactsBacked, CommitsStored, RequestsOk, OrderOk, PendingOk, LifeOk;
    MoreTokens(cfg, s.attempts, s.run, s.dest.tokens, t.dest.tokens);
  }

  // ----- requests -----

  lemma AppendRequest(cfg: Config, version: nat, envelope: Option<Envelope>, chain: seq<Request>, r: Request, run: Option<Run>, atts: seq<Attempt>)
    requires RequestsOk(cfg, version, envelope, chain, run, atts) && RequestOk(cfg, version, envelope, r, run, atts)
    ensures RequestsOk(cfg, version, envelope, chain + [r], run, atts)
  {
    hide RequestOk;
  }

  lemma AddNoteKeeps(cfg: Config, s: Sys, t: Sys, kind: Kind)
    requires cfg.maxRows > 0 && Inv(cfg, s) && AddNote(s, t, kind)
    ensures Inv(cfg, t)
  {
    hide Appends.Inv, AttemptsOk, PipelineOk, ConsumerOk, FactsBacked, CommitsStored, RequestsOk, LifeOk, Writes;
    AppendRequest(cfg, s.line.version, s.line.envelope, s.chain, Note(kind), s.run, s.attempts);
  }

  lemma RequestRetryKeeps(cfg: Config, s: Sys, t: Sys)
    requires cfg.maxRows > 0 && Inv(cfg, s) && RequestRetry(s, t)
    ensures Inv(cfg, t)
  {
    hide Appends.Inv, AttemptsOk, PipelineOk, ConsumerOk, FactsBacked, CommitsStored, RequestsOk, LifeOk, Writes;
    AppendRequest(cfg, s.line.version, s.line.envelope, s.chain, RetryNote, s.run, s.attempts);
  }

  /** Producer and consumer done without a cut: the attempt is complete. */
  lemma DrainedIsComplete(cfg: Config, s: Sys)
    requires cfg.maxRows > 0 && Inv(cfg, s) && Drained(s) && !Last(s).cutShort
    ensures Complete(cfg, s.attempts, |s.attempts| - 1)
  {
    hide Appends.Inv, FactsBacked, CommitsStored, RequestsOk, OrderOk, PendingOk, Pushed, Chunks, UnitsIn, UnitCount, Cuts;
    assert AttemptOk(cfg, |s.attempts| - 1, Last(s), s.dest.tokens);
    var all := Cuts(Last(s).loaded);
    assert all + [] + [] + [] == all;
  }

  lemma FinishRequestOk(cfg: Config, s: Sys, t: Sys, outcome: WorkState)
    requires cfg.maxRows > 0 && Inv(cfg, s) && RequestFinish(s, t, outcome)
    ensures RequestOk(cfg, s.line.version, s.line.envelope, t.chain[|t.chain| - 1], t.run, s.attempts)
  {
    hide Inv, Complete;
    if outcome.Succeeded? {
      DrainedIsComplete(cfg, s);
    }
  }

  lemma RequestFinishKeeps(cfg: Config, s: Sys, t: Sys, outcome: WorkState)
    requires cfg.maxRows > 0 && Inv(cfg, s) && RequestFinish(s, t, outcome)
    ensures Inv(cfg, t)
  {
    hide Complete, Drained, Appends.Inv, AttemptsOk, PipelineOk, ConsumerOk, FactsBacked, CommitsStored, RequestsOk, LifeOk, Writes, RequestOk;
    var m := s.(run := t.run);
    AbandonedKeeps(cfg, s, m);
    FinishRequestOk(cfg, s, t, outcome);
    AppendRequest(cfg, s.line.version, s.line.envelope, s.chain, t.chain[|t.chain| - 1], m.run, s.attempts);
  }

  lemma AbandonedKeeps(cfg: Config, s: Sys, m: Sys)
    requires cfg.maxRows > 0 && Inv(cfg, s)
    requires m == s.(run := if s.run.Some? then Some(s.run.value.(abandoned := true)) else None)
    ensures Inv(cfg, m)
  {
    hide Appends.Inv, AttemptsOk, PipelineOk, ConsumerOk, FactsBacked, CommitsStored, RequestsOk, OrderOk, PendingOk;
    if s.run.Some? {
      AbandonKeeps(cfg, s, m);
    } else {
      assert m == s;
    }
  }

  // ----- a batch is loaded -----

  /** What was read does not depend on what was loaded. */
  lemma ReadingIsTheSame(cfg: Config, a: nat, x: Attempt, y: Attempt)
    requires x.start == y.start && x.pos == y.pos && x.ended == y.ended && x.cutShort == y.cutShort
    ensures Pushed(cfg, a, x) == Pushed(cfg, a, y) && Chunks(cfg, a, x) == Chunks(cfg, a, y)
  {
  }

  lemma TakenIsPrefix<T>(a: seq<T>, x: T, q: seq<T>, h: seq<T>)
    ensures (a + [x]) + [] + q + h == a + [x] + q + h
    ensures a + [x] <= a + [x] + q + h
  {
  }

  lemma LoadedPipeline(cfg: Config, s: Sys, t: Sys)
    requires cfg.maxRows > 0 && LoadDone(cfg, s, t) && PipelineOk(cfg, s.run, s.attempts)
    ensures PipelineOk(cfg, t.run, t.attempts)
    ensures Cuts(Last(t).loaded) <= Pushed(cfg, |t.attempts| - 1, Last(t))
  {
    var att, c := Last(s), s.run.value.consumer;
    ReadingIsTheSame(cfg, |s.attempts| - 1, att, Last(t));
    CutsAppend(att.loaded, Loaded(c.cut, c.batchId));
    TakenIsPrefix(Cuts(att.loaded), c.cut, s.run.value.queue, s.run.value.handoff);
    hide Cuts, Pushed, Chunks, CommitFor, UnitPending;
  }

  lemma LoadedUnits(cfg: Config, s: Sys, t: Sys)
    requires cfg.maxRows > 0 && LoadDone(cfg, s, t) && ConsumerOk(cfg, s.run, s.attempts, s.dest.tokens)
    ensures ConsumerOk(cfg, t.run, t.attempts, t.dest.tokens)
    ensures Last(t).commits + 1 == |Last(t).loaded|
    ensures UnitsIn(cfg, Last(t).loaded[|Last(t).loaded| - 1], t.dest.tokens)
  {
    hide CommitFor, UnitCount;
  }

  /** An attempt that reads as before is fine when what it loaded is. */
  lemma LoadedMore(cfg: Config, a: nat, x: Attempt, y: Attempt, tokens: set<Token>)
    requires cfg.maxRows > 0 && AttemptOk(cfg, a, x, tokens) && y == x.(loaded := y.loaded, commits := y.commits)
    requires Cuts(y.loaded) <= Pushed(cfg, a, y) && y.commits <= |y.loaded|
    requires forall k :: 0 <= k < |y.loaded| ==> UnitsIn(cfg, y.loaded[k], tokens)
    ensures AttemptOk(cfg, a, y, tokens)
  {
    hide Cuts, Pushed, UnitsIn;
  }

  lemma LoadedLastOk(cfg: Config, s: Sys, t: Sys)
    requires cfg.maxRows > 0 && LoadDone(cfg, s, t)
    requires AttemptOk(cfg, |s.attempts| - 1, Last(s), s.dest.tokens)
    requires UnitsIn(cfg, Last(t).loaded[|Last(t).loaded| - 1], s.dest.tokens)
    requires Cuts(Last(t).loaded) <= Pushed(cfg, |t.attempts| - 1, Last(t))
    ensures AttemptOk(cfg, |s.attempts| - 1, Last(t), s.dest.tokens)
  {
    hide Cuts, Pushed, Chunks, CommitFor, UnitPending, UnitsIn;
    var x, y := Last(s), Last(t);
    assert forall k :: 0 <= k < |x.loaded| ==> UnitsIn(cfg, x.loaded[k], s.dest.tokens);
    hide AttemptOk;
    LoadedMore(cfg, |s.attempts| - 1, x, y, s.dest.tokens);
  }

  lemma LoadedAttempt(cfg: Config, s: Sys, t: Sys)
    requires cfg.maxRows > 0 && LoadDone(cfg, s, t)
    requires AttemptsOk(cfg, s.attempts, s.dest.tokens) && PipelineOk(cfg, s.run, s.attempts)
    requires ConsumerOk(cfg, s.run, s.attempts, s.dest.tokens)
    ensures AttemptsOk(cfg, t.attempts, t.dest.tokens) && Grows(cfg, s.attempts, t.attempts)
  {
    hide Cuts, Pushed, Chunks, CommitFor, UnitPending, UnitsIn, AttemptOk, CompleteAttempt, PipelineOk, ConsumerOk, Grows;
    assert AttemptOk(cfg, |s.attempts| - 1, Last(s), s.dest.tokens);
    LoadedPipeline(cfg, s, t);
    LoadedUnits(cfg, s, t);
    LoadedLastOk(cfg, s, t);
    NotYetComplete(cfg, s);
    hide AttemptsOk;
    ReplaceLastGrows(cfg, s.attempts, Last(t));
    ReplaceLastAttempt(cfg, s.attempts, Last(t), s.dest.tokens);
  }

  /** While the consumer holds a batch its attempt is not complete. */
  lemma NotYetComplete(cfg: Config, s: Sys)
    requires cfg.maxRows > 0 && PipelineOk(cfg, s.run, s.attempts) && InAttempt(s)
    requires s.run.value.consumer.Loading?
    ensures !CompleteAttempt(cfg, |s.attempts| - 1, Last(s))
  {
    hide Cuts, Pushed, Chunks;
    var done, c := Cuts(Last(s).loaded), s.run.value.consumer.cut;
    assert |done + [c] + s.run.value.queue + s.run.value.handoff| > |done|;
  }

  lemma LoadedCommitOk(cfg: Config, s: Sys, t: Sys)
    requires cfg.maxRows > 0 && LoadDone(cfg, s, t) && ConsumerOk(cfg, s.run, s.attempts, s.dest.tokens)
    ensures CommitOk(cfg, t.line.version, t.line.envelope, t.chain[|t.chain| - 1], t.run, t.attempts)
  {
    hide UnitCount, UnitPending;
  }

  lemma LoadedRequests(cfg: Config, s: Sys, t: Sys)
    requires cfg.maxRows > 0 && LoadDone(cfg, s, t)
    requires RequestsOk(cfg, s.line.version, s.line.envelope, s.chain, s.run, s.attempts) && OrderOk(s.chain)
    requires ConsumerOk(cfg, s.run, s.attempts, s.dest.tokens) && Grows(cfg, s.attempts, t.attempts)
    ensures RequestsOk(cfg, t.line.version, t.line.envelope, t.chain, t.run, t.attempts) && OrderOk(t.chain)
  {
    NoCommitWaits(cfg, s.line.version, s.line.envelope, s.chain, s.run, s.attempts);
    LoadedCommitOk(cfg, s, t);
    hide Grows, RequestsOk, ConsumerOk, CommitOk, UnitPending, NextEnvelope;
    RequestsFree(cfg, s.line.version, s.line.envelope, s.line.version, s.line.envelope, s.chain, s.run, s.attempts, t.run, t.attempts);
    AppendRequest(cfg, s.line.version, s.line.envelope, s.chain, t.chain[|t.chain| - 1], t.run, t.attempts);
  }

  lemma LoadDoneKeeps(cfg: Config, s: Sys, t: Sys)
    requires cfg.maxRows > 0 && Inv(cfg, s) && LoadDone(cfg, s, t)
    ensures Inv(cfg, t)
  {
    hide Appends.Inv, AttemptsOk, PipelineOk, ConsumerOk, FactsBacked, CommitsStored, RequestsOk, OrderOk, Grows, Cuts, Pushed, CommitFor, UnitPending, Writes, UnitsIn;
    LoadedPipeline(cfg, s, t);
    LoadedUnits(cfg, s, t);
    LoadedAttempt(cfg, s, t);
    LoadedRequests(cfg, s, t);
    GrowsKeepsFacts(cfg, s.line.rows, s.line.wire, s.attempts, t.attempts);
    CommitsKept(s.line.rows, s.attempts, Last(t));
  }

  // ----- the journal -----

  lemma AbortKeeps(cfg: Config, s: Sys, t: Sys)
    requires cfg.maxRows > 0 && Inv(cfg, s) && Abort(s, t)
    ensures Inv(cfg, t)
  {
    hide Appends.Inv, AttemptsOk, PipelineOk, ConsumerOk, FactsBacked, CommitsStored, RequestsOk, OrderOk, PendingOk;
  }

  lemma PoisonKeeps(cfg: Config, s: Sys, t: Sys)
    requires cfg.maxRows > 0 && Inv(cfg, s) && Poison(cfg, s, t)
    ensures Inv(cfg, t)
  {
    hide Appends.Inv, AttemptsOk, PipelineOk, ConsumerOk, FactsBacked, CommitsStored, RequestsOk, OrderOk, PendingOk, LifeOk;
    Appends.StepKeepsInv(cfg.scope, s.line, Appends.Poison);
  }

  lemma CrashKeeps(cfg: Config, s: Sys, t: Sys)
    requires cfg.maxRows > 0 && Inv(cfg, s) && Crash(cfg, s, t)
    ensures Inv(cfg, t)
  {
    hide Appends.Inv, AttemptsOk, FactsBacked, CommitsStored, RequestOk;
    Appends.StepKeepsInv(cfg.scope, s.line, Appends.Crash);
  }

  /** Whatever a new process reads, the facts stay backed: its wire holds only what landed. */
  lemma RestartKeepsFacts(cfg: Config, s: Sys)
    requires Appends.Enabled(cfg.scope, s.line, Appends.Restart) && FactsBacked(cfg, s.line.rows, s.line.wire, s.attempts)
    ensures var l := Appends.Next(cfg.scope, s.line, Appends.Restart);
      l.rows == s.line.rows && l.pending.None? && !l.stale && FactsBacked(cfg, l.rows, l.wire, s.attempts)
  {
    hide FactBacked, ReadCheckpoint;
  }

  lemma RestartKeeps(cfg: Config, s: Sys, t: Sys)
    requires cfg.maxRows > 0 && Inv(cfg, s) && Restart(cfg, s, t)
    ensures Inv(cfg, t)
  {
    hide Appends.Inv, Appends.Next, AttemptsOk, CommitsStored, RequestOk, ReadCheckpoint, FactsBacked;
    RestartKeepsFacts(cfg, s);
    Appends.StepKeepsInv(cfg.scope, s.line, Appends.Restart);
  }

  lemma MoreFacts(cfg: Config, rows: seq<Event>, wire: set<Event>, atts: seq<Attempt>, e: Event)
    requires FactsBacked(cfg, rows, wire, atts) && FactBacked(cfg, atts, e)
    ensures FactsBacked(cfg, rows, wire + {e}, atts) && FactsBacked(cfg, rows + [e], wire, atts)
  {
    hide FactBacked;
  }

  /** What is written next is backed by the attempt that asked for it. */
  lemma WrittenFactIsBacked(cfg: Config, version: nat, envelope: Option<Envelope>, r: Request, run: Option<Run>, atts: seq<Attempt>, e: Event)
    requires RequestOk(cfg, version, envelope, r, run, atts) && Writes(r, e)
    ensures FactBacked(cfg, atts, e)
  {
    hide Complete, Carries;
    if r.Commit? {
      var att := atts[|atts| - 1];
      var k := |att.loaded| - 1;
      assert att.loaded[k].batchId.text == e.batchId && Carries(cfg, e.expected, e.version, e.checkpoint, att.loaded[k]);
    }
  }

  lemma StartWriteKeeps(cfg: Config, s: Sys, t: Sys, e: Event)
    requires cfg.maxRows > 0 && Inv(cfg, s) && StartWrite(cfg, s, t, e)
    ensures Inv(cfg, t)
  {
    hide Appends.Inv, AttemptsOk, PipelineOk, ConsumerOk, FactsBacked, FactBacked, CommitsStored, RequestsOk, OrderOk, LifeOk, Writes, RequestOk;
    Appends.StepKeepsInv(cfg.scope, s.line, Appends.StartWrite(e));
    FirstRequest(cfg, s.line.version, s.line.envelope, s.chain, s.run, s.attempts);
    WrittenFactIsBacked(cfg, s.line.version, s.line.envelope, s.chain[0], s.run, s.attempts, e);
    MoreFacts(cfg, s.line.rows, s.line.wire, s.attempts, e);
  }

  lemma FirstRequest(cfg: Config, version: nat, envelope: Option<Envelope>, chain: seq<Request>, run: Option<Run>, atts: seq<Attempt>)
    requires RequestsOk(cfg, version, envelope, chain, run, atts) && chain != []
    ensures RequestOk(cfg, version, envelope, chain[0], run, atts)
  {
    hide RequestOk;
  }

  lemma MoreRows(rows: seq<Event>, atts: seq<Attempt>, e: Event)
    requires CommitsStored(rows, atts)
    ensures CommitsStored(rows + [e], atts)
  {
    forall a, k | 0 <= a < |atts| && 0 <= k < atts[a].commits && k < |atts[a].loaded|
      ensures CommitStored(rows + [e], a, atts[a].loaded[k])
    {
      assert CommitStored(rows, a, atts[a].loaded[k]);
      var f :| f in rows && f.kind.BatchCommitted? && f.attemptNo == a && f.batchId == atts[a].loaded[k].batchId.text;
      assert f in rows + [e];
    }
  }

  lemma WireIsBacked(cfg: Config, rows: seq<Event>, wire: set<Event>, atts: seq<Attempt>, e: Event)
    requires FactsBacked(cfg, rows, wire, atts) && e in wire
    ensures FactBacked(cfg, atts, e)
  {
  }

  lemma LandFactKeeps(cfg: Config, s: Sys, t: Sys, e: Event)
    requires cfg.maxRows > 0 && Inv(cfg, s) && LandFact(cfg, s, t, e)
    ensures Inv(cfg, t)
  {
    hide Appends.Inv, AttemptsOk, PipelineOk, ConsumerOk, FactsBacked, FactBacked, CommitsStored, RequestsOk, OrderOk, LifeOk, PendingOk;
    Appends.StepKeepsInv(cfg.scope, s.line, Appends.Land(e));
    WireIsBacked(cfg, s.line.rows, s.line.wire, s.attempts, e);
    MoreFacts(cfg, s.line.rows, s.line.wire, s.attempts, e);
    MoreRows(s.line.rows, s.attempts, e);
  }

  // ----- a request is confirmed -----

  lemma RestIsOrdered(chain: seq<Request>)
    requires OrderOk(chain) && chain != []
    ensures OrderOk(chain[1..])
    ensures chain[0].Commit? ==> forall i :: 0 <= i < |chain[1..]| ==> !chain[1..][i].Commit?
    ensures chain[0].RetryNote? ==> forall i :: 0 <= i < |chain[1..]| ==> !chain[1..][i].Commit? && !chain[1..][i].RetryNote?
  {
    forall i | 0 <= i < |chain[1..]|
      ensures chain[0].Commit? ==> !chain[1..][i].Commit?
      ensures chain[0].RetryNote? ==> !chain[1..][i].Commit? && !chain[1..][i].RetryNote?
    {
      assert chain[1..][i] == chain[i + 1];
    }
    forall i, j | 0 <= i < j < |chain[1..]|
      ensures !(chain[1..][i].Commit? && chain[1..][j].Commit?)
      ensures !(chain[1..][i].RetryNote? && (chain[1..][j].RetryNote? || chain[1..][j].Commit?))
    {
      assert chain[1..][i] == chain[i + 1] && chain[1..][j] == chain[j + 1];
    }
  }

  lemma RestOfRequests(cfg: Config, version: nat, envelope: Option<Envelope>, chain: seq<Request>, run: Option<Run>, atts: seq<Attempt>)
    requires RequestsOk(cfg, version, envelope, chain, run, atts) && chain != []
    ensures RequestsOk(cfg, version, envelope, chain[1..], run, atts)
  {
    hide RequestOk;
  }

  lemma ConfirmNoteKeeps(cfg: Config, s: Sys, t: Sys)
    requires cfg.maxRows > 0 && Inv(cfg, s) && ConfirmNote(cfg, s, t)
    ensures Inv(cfg, t)
  {
    hide Appends.Inv, AttemptsOk, PipelineOk, ConsumerOk, FactsBacked, CommitsStored, RequestsOk, OrderOk, LifeOk;
    Appends.StepKeepsInv(cfg.scope, s.line, Appends.Confirm);
    RestIsOrdered(s.chain);
    FirstRequest(cfg, s.line.version, s.line.envelope, s.chain, s.run, s.attempts);
    RestOfRequests(cfg, s.line.version, s.line.envelope, s.chain, s.run, s.attempts);
  }

  lemma ConfirmRetryKeeps(cfg: Config, s: Sys, t: Sys)
    requires cfg.maxRows > 0 && Inv(cfg, s) && ConfirmRetry(cfg, s, t)
    ensures Inv(cfg, t)
  {
    GrowsRefl(cfg, s.attempts);
    hide Appends.Inv, AttemptsOk, FactsBacked, CommitsStored, RequestsOk, OrderOk, Grows;
    Appends.StepKeepsInv(cfg.scope, s.line, Appends.Confirm);
    RestIsOrdered(s.chain);
    RestOfRequests(cfg, s.line.version, s.line.envelope, s.chain, s.run, s.attempts);
    RequestsFree(cfg, s.line.version, s.line.envelope, t.line.version, t.line.envelope, t.chain, s.run, s.attempts, None, s.attempts);
  }

  lemma ConfirmFinishKeeps(cfg: Config, s: Sys, t: Sys)
    requires cfg.maxRows > 0 && Inv(cfg, s) && ConfirmFinish(cfg, s, t)
    ensures Inv(cfg, t)
  {
    hide Appends.Inv, AttemptsOk, FactsBacked, CommitsStored, RequestOk;
    Appends.StepKeepsInv(cfg.scope, s.line, Appends.Confirm);
    Appends.StepKeepsInv(cfg.scope, ConfirmedLine(cfg, s), Appends.Crash);
  }

  lemma ConfirmUnseenKeeps(cfg: Config, s: Sys, t: Sys)
    requires cfg.maxRows > 0 && Inv(cfg, s) && ConfirmUnseen(cfg, s, t)
    ensures Inv(cfg, t)
  {
    GrowsRefl(cfg, s.attempts);
    hide Appends.Inv, AttemptsOk, FactsBacked, CommitsStored, RequestsOk, OrderOk, Grows;
    Appends.StepKeepsInv(cfg.scope, s.line, Appends.ConfirmUnseen);
    RestIsOrdered(s.chain);
    RestOfRequests(cfg, s.line.version, s.line.envelope, s.chain, s.run, s.attempts);
    NoRetryWithout(cfg, s.line.version, s.line.envelope, t.chain, s.run, s.attempts);
    RequestsFree(cfg, s.line.version, s.line.envelope, t.line.version, t.line.envelope, t.chain, s.run, s.attempts, t.run, t.attempts);
  }

  lemma NoRetryWithout(cfg: Config, version: nat, envelope: Option<Envelope>, chain: seq<Request>, run: Option<Run>, atts: seq<Attempt>)
    requires RequestsOk(cfg, version, envelope, chain, run, atts)
    ensures forall i :: 0 <= i < |chain| && chain[i].RetryNote? ==> run.Some? && run.value.abandoned
  {
    forall i | 0 <= i < |chain| && chain[i].RetryNote?
      ensures run.Some? && run.value.abandoned
    {
      assert RequestOk(cfg, version, envelope, chain[i], run, atts);
    }
  }

  // ----- a commit is confirmed -----

  lemma CommittedLastOk(cfg: Config, a: nat, x: Attempt, tokens: set<Token>)
    requires cfg.maxRows > 0 && AttemptOk(cfg, a, x, tokens) && |x.loaded| == x.commits + 1
    ensures var y := x.(commits := x.commits + 1); AttemptOk(cfg, a, y, tokens) && AttemptGrows(cfg, a, x, y)
  {
    var y := x.(commits := x.commits + 1);
    ReadingIsTheSame(cfg, a, x, y);
    hide Cuts, Pushed, Chunks, UnitsIn;
  }

  lemma CommittedAttempts(cfg: Config, s: Sys, t: Sys)
    requires cfg.maxRows > 0 && ConfirmCommit(cfg, s, t) && AttemptsOk(cfg, s.attempts, s.dest.tokens)
    requires |Last(s).loaded| == Last(s).commits + 1
    ensures AttemptsOk(cfg, t.attempts, t.dest.tokens) && Grows(cfg, s.attempts, t.attempts)
  {
    hide AttemptOk, Appends.Next, Grows, AttemptGrows;
    assert AttemptOk(cfg, |s.attempts| - 1, Last(s), s.dest.tokens);
    CommittedLastOk(cfg, |s.attempts| - 1, Last(s), s.dest.tokens);
    hide AttemptsOk;
    ReplaceLastGrows(cfg, s.attempts, Last(t));
    ReplaceLastAttempt(cfg, s.attempts, Last(t), s.dest.tokens);
  }

  lemma CommittedPipeline(cfg: Config, s: Sys, t: Sys)
    requires cfg.maxRows > 0 && ConfirmCommit(cfg, s, t) && PipelineOk(cfg, s.run, s.attempts)
    requires s.run.value.consumer.Committing? && |Last(s).loaded| == Last(s).commits + 1
    ensures PipelineOk(cfg, t.run, t.attempts) && ConsumerOk(cfg, t.run, t.attempts, t.dest.tokens)
  {
    ReadingIsTheSame(cfg, |s.attempts| - 1, Last(s), Last(t));
    hide Cuts, Pushed, Chunks, Appends.Next;
  }

  /** The confirmed commit is the one the attempt waited for. */
  lemma CommittedFact(cfg: Config, s: Sys, t: Sys)
    requires cfg.maxRows > 0 && ConfirmCommit(cfg, s, t) && CommitsStored(s.line.rows, s.attempts)
    requires Writes(s.chain[0], s.line.pending.value) && s.chain[0].attempt == |s.attempts| - 1
    requires |Last(s).loaded| == Last(s).commits + 1
    requires s.chain[0].batchId == Last(s).loaded[|Last(s).loaded| - 1].batchId.text
    ensures CommitsStored(t.line.rows, t.attempts)
  {
    var e := s.line.pending.value;
    assert CommitStored(s.line.rows, |s.attempts| - 1, Last(s).loaded[Last(s).commits]) by {
      assert e in s.line.rows && e.kind.BatchCommitted?;
    }
    hide CommitStored;
    forall a, k | 0 <= a < |t.attempts| && 0 <= k < t.attempts[a].commits && k < |t.attempts[a].loaded|
      ensures CommitStored(t.line.rows, a, t.attempts[a].loaded[k])
    {
      if a < |s.attempts| - 1 || k < Last(s).commits {
        assert CommitStored(s.line.rows, a, s.attempts[a].loaded[k]);
      }
    }
  }

  lemma CommittedRequests(cfg: Config, s: Sys, t: Sys)
    requires cfg.maxRows > 0 && ConfirmCommit(cfg, s, t) && OrderOk(s.chain) && Grows(cfg, s.attempts, t.attempts)
    requires RequestsOk(cfg, s.line.version, s.line.envelope, s.chain, s.run, s.attempts)
    ensures RequestsOk(cfg, t.line.version, t.line.envelope, t.chain, t.run, t.attempts) && OrderOk(t.chain)
  {
    hide Grows, RequestsOk, OrderOk, Appends.Next;
    RestIsOrdered(s.chain);
    RestOfRequests(cfg, s.line.version, s.line.envelope, s.chain, s.run, s.attempts);
    NoRetryWithout(cfg, s.line.version, s.line.envelope, t.chain, s.run, s.attempts);
    RequestsFree(cfg, s.line.version, s.line.envelope, t.line.version, t.line.envelope, t.chain, s.run, s.attempts, t.run, t.attempts);
  }

  lemma ConfirmCommitKeeps(cfg: Config, s: Sys, t: Sys)
    requires cfg.maxRows > 0 && Inv(cfg, s) && ConfirmCommit(cfg, s, t)
    ensures Inv(cfg, t)
  {
    hide Appends.Inv, AttemptsOk, PipelineOk, ConsumerOk, FactsBacked, CommitsStored, RequestsOk, OrderOk, Grows, Writes, Carries;
    Appends.StepKeepsInv(cfg.scope, s.line, Appends.Confirm);
    FirstRequest(cfg, s.line.version, s.line.envelope, s.chain, s.run, s.attempts);
    CommittedAttempts(cfg, s, t);
    CommittedPipeline(cfg, s, t);
    CommittedFact(cfg, s, t);
    CommittedRequests(cfg, s, t);
    GrowsKeepsFacts(cfg, s.line.rows, s.line.wire, s.attempts, t.attempts);
  }
}
