/**
 What every reachable state of the ingestion protocol keeps, component by component, and how each
 component survives the changes that steps make.
 */
module IngestionInvariant {
  import opened Wrappers
  import opened Digest
  import opened Journal
  import opened Batching
  import opened Loading
  import opened Ingestion
  import Appends

  // ----- the invariant -----

  /** Every unit of a loaded batch was accepted by the destination. */
  ghost predicate UnitsIn(cfg: Config, l: Loaded, tokens: set<Token>)
    requires cfg.maxRows > 0
  {
    forall u :: 0 <= u < UnitCount(cfg, l.batchId, l.cut) ==> Token(l.batchId, u) in tokens
  }

  /** What was loaded in an attempt is a prefix of what its producer pushed, and is acknowledged. */
  ghost predicate AttemptOk(cfg: Config, a: nat, att: Attempt, tokens: set<Token>)
    requires cfg.maxRows > 0
  {
    && att.pos <= |Chunks(cfg, a, att)|
    && (att.cutShort ==> att.ended)
    && (att.ended && !att.cutShort ==> att.pos == |Chunks(cfg, a, att)|)
    && Cuts(att.loaded) <= Pushed(cfg, a, att)
    && att.commits <= |att.loaded|
    && forall k :: 0 <= k < |att.loaded| ==> UnitsIn(cfg, att.loaded[k], tokens)
  }

  ghost predicate AttemptsOk(cfg: Config, atts: seq<Attempt>, tokens: set<Token>)
    requires cfg.maxRows > 0
  {
    forall a :: 0 <= a < |atts| ==> AttemptOk(cfg, a, atts[a], tokens)
  }

  function InHand(c: Consumer): seq<Cut> {
    if c.Loading? then [c.cut] else []
  }

  /** Nothing is lost between producer and loader: loaded, in hand, queued, handed over. */
  ghost predicate PipelineOk(cfg: Config, run: Option<Run>, atts: seq<Attempt>) {
    run.Some? && atts != [] && !run.value.consumer.Stopped? ==>
      Cuts(atts[|atts| - 1].loaded) + InHand(run.value.consumer) + run.value.queue + run.value.handoff
      == Pushed(cfg, |atts| - 1, atts[|atts| - 1])
  }

  ghost predicate ConsumerOk(cfg: Config, run: Option<Run>, atts: seq<Attempt>, tokens: set<Token>)
    requires cfg.maxRows > 0
  {
    run.Some? && atts != [] ==>
      var c, att := run.value.consumer, atts[|atts| - 1];
      && (c.Idle? || c.Loading? ==> att.commits == |att.loaded|)
      && (c.Committing? ==> att.commits + 1 == |att.loaded|)
      && (c.Loading? ==>
            && c.unit <= UnitCount(cfg, c.batchId, c.cut)
            && forall u :: 0 <= u < c.unit ==> Token(c.batchId, u) in tokens)
  }

  /** A commit that advances carries the state of the batch it commits. */
  predicate Carries(cfg: Config, expected: nat, version: nat, checkpoint: Option<Envelope>, l: Loaded) {
    version != expected ==>
      l.cut.batch.state.Some?
      && checkpoint == Some(Envelope(cfg.strategy, cfg.strategyVersion, l.cut.batch.state.value))
  }

  /** Every chunk of the attempt was read, every batch of it loaded and committed. */
  ghost predicate CompleteAttempt(cfg: Config, a: nat, att: Attempt) {
    && att.ended && !att.cutShort && att.pos == |Chunks(cfg, a, att)|
    && Cuts(att.loaded) == Pushed(cfg, a, att) && att.commits == |att.loaded|
  }

  ghost predicate Complete(cfg: Config, atts: seq<Attempt>, a: nat) {
    a < |atts| && CompleteAttempt(cfg, a, atts[a])
  }

  /** The commit the consumer waits for. */
  predicate CommitOk(cfg: Config, version: nat, envelope: Option<Envelope>, r: Request, run: Option<Run>, atts: seq<Attempt>)
    requires r.Commit?
  {
    && run.Some? && atts != [] && run.value.consumer.Committing? && r.attempt == |atts| - 1
    && (var att := atts[|atts| - 1];
        && |att.loaded| == att.commits + 1
        && r.batchId == att.loaded[|att.loaded| - 1].batchId.text
        && Carries(cfg, r.expected, r.version, r.checkpoint, att.loaded[|att.loaded| - 1]))
    && r.expected == version && r.expected <= r.version <= r.expected + 1
    && (r.version == r.expected ==> r.checkpoint == envelope)
  }

  ghost predicate RequestOk(cfg: Config, version: nat, envelope: Option<Envelope>, r: Request, run: Option<Run>, atts: seq<Attempt>) {
    match r
    case Note(kind) => !kind.BatchCommitted? && !kind.WorkFinished?
    case Commit(_, _, _, _, _) => CommitOk(cfg, version, envelope, r, run, atts)
    case RetryNote => run.Some? && run.value.abandoned
    case Finish(a, outcome) => outcome.Succeeded? ==> Complete(cfg, atts, a)
  }

  ghost predicate RequestsOk(cfg: Config, version: nat, envelope: Option<Envelope>, chain: seq<Request>, run: Option<Run>, atts: seq<Attempt>) {
    forall i :: 0 <= i < |chain| ==> RequestOk(cfg, version, envelope, chain[i], run, atts)
  }

  /** At most one commit waits, at most one retry, and no commit behind a retry. */
  ghost predicate OrderOk(chain: seq<Request>) {
    forall i, j :: 0 <= i < j < |chain| ==>
      && !(chain[i].Commit? && chain[j].Commit?)
      && !(chain[i].RetryNote? && (chain[j].RetryNote? || chain[j].Commit?))
  }

  predicate LifeOk(live: bool, stale: bool, aborted: bool, run: Option<Run>, atts: seq<Attempt>) {
    && (run.Some? ==> live && atts != [])
    && (live && stale ==> aborted && (run.Some? ==> run.value.consumer.Stopped?))
  }

  predicate PendingOk(live: bool, pending: Option<Event>, chain: seq<Request>) {
    live && pending.Some? ==> chain != [] && Writes(chain[0], pending.value)
  }

  /** A stored or travelling commit names a loaded batch, and its new state is that batch's. */
  ghost predicate BackedBy(cfg: Config, atts: seq<Attempt>, e: Event) {
    e.attemptNo < |atts|
    && exists k :: (&& 0 <= k < |atts[e.attemptNo].loaded|
                    && atts[e.attemptNo].loaded[k].batchId.text == e.batchId
                    && Carries(cfg, e.expected, e.version, e.checkpoint, atts[e.attemptNo].loaded[k]))
  }

  ghost predicate FactBacked(cfg: Config, atts: seq<Attempt>, e: Event) {
    && (e.kind.BatchCommitted? ==> BackedBy(cfg, atts, e))
    && (e.kind.WorkFinished? && e.workState.Succeeded? ==> Complete(cfg, atts, e.attemptNo))
  }

  ghost predicate FactsBacked(cfg: Config, rows: seq<Event>, wire: set<Event>, atts: seq<Attempt>) {
    (forall e :: e in rows ==> FactBacked(cfg, atts, e)) && (forall e :: e in wire ==> FactBacked(cfg, atts, e))
  }

  /** The journal holds a commit for a batch of an attempt. */
  ghost predicate CommitStored(rows: seq<Event>, a: nat, l: Loaded) {
    exists e :: e in rows && e.kind.BatchCommitted? && e.attemptNo == a && e.batchId == l.batchId.text
  }

  ghost predicate CommitsStored(rows: seq<Event>, atts: seq<Attempt>) {
    forall a, k :: 0 <= a < |atts| && 0 <= k < atts[a].commits && k < |atts[a].loaded| ==>
      CommitStored(rows, a, atts[a].loaded[k])
  }

  ghost predicate Inv(cfg: Config, s: Sys)
    requires cfg.maxRows > 0
  {
    && Appends.Inv(s.line)
    && AttemptsOk(cfg, s.attempts, s.dest.tokens)
    && PipelineOk(cfg, s.run, s.attempts)
    && ConsumerOk(cfg, s.run, s.attempts, s.dest.tokens)
    && RequestsOk(cfg, s.line.version, s.line.envelope, s.chain, s.run, s.attempts)
    && OrderOk(s.chain)
    && LifeOk(s.line.live, s.line.stale, s.aborted, s.run, s.attempts)
    && PendingOk(s.line.live, s.line.pending, s.chain)
    && FactsBacked(cfg, s.line.rows, s.line.wire, s.attempts)
    && CommitsStored(s.line.rows, s.attempts)
  }

  // ----- attempts only grow -----

  ghost predicate AttemptGrows(cfg: Config, a: nat, x: Attempt, y: Attempt) {
    x.start == y.start && x.loaded <= y.loaded && x.commits <= y.commits && (CompleteAttempt(cfg, a, x) ==> x == y)
  }

  ghost predicate Grows(cfg: Config, xs: seq<Attempt>, ys: seq<Attempt>) {
    |xs| <= |ys| && forall a :: 0 <= a < |xs| ==> AttemptGrows(cfg, a, xs[a], ys[a])
  }

  lemma GrowsKeepsFact(cfg: Config, xs: seq<Attempt>, ys: seq<Attempt>, e: Event)
    requires Grows(cfg, xs, ys) && FactBacked(cfg, xs, e)
    ensures FactBacked(cfg, ys, e)
  {
    if e.attemptNo < |xs| {
      var a := e.attemptNo;
      assert AttemptGrows(cfg, a, xs[a], ys[a]);
      if e.kind.BatchCommitted? {
        var k :| (&& 0 <= k < |xs[a].loaded| && xs[a].loaded[k].batchId.text == e.batchId
                  && Carries(cfg, e.expected, e.version, e.checkpoint, xs[a].loaded[k]));
        assert ys[a].loaded[k] == xs[a].loaded[k];
      }
    }
  }

  lemma GrowsKeepsFacts(cfg: Config, rows: seq<Event>, wire: set<Event>, xs: seq<Attempt>, ys: seq<Attempt>)
    requires Grows(cfg, xs, ys) && FactsBacked(cfg, rows, wire, xs)
    ensures FactsBacked(cfg, rows, wire, ys)
  {
    hide Grows, FactBacked;
    forall e | e in rows ensures FactBacked(cfg, ys, e) {
      GrowsKeepsFact(cfg, xs, ys, e);
    }
    forall e | e in wire ensures FactBacked(cfg, ys, e) {
      GrowsKeepsFact(cfg, xs, ys, e);
    }
  }

  lemma ReplaceLastGrows(cfg: Config, xs: seq<Attempt>, y: Attempt)
    requires xs != [] && AttemptGrows(cfg, |xs| - 1, xs[|xs| - 1], y)
    ensures Grows(cfg, xs, ReplaceLast(xs, y))
  {
  }

  lemma ReplaceLastAttempt(cfg: Config, xs: seq<Attempt>, y: Attempt, tokens: set<Token>)
    requires cfg.maxRows > 0 && xs != [] && AttemptsOk(cfg, xs, tokens) && AttemptOk(cfg, |xs| - 1, y, tokens)
    ensures AttemptsOk(cfg, ReplaceLast(xs, y), tokens)
  {
  }

  // ----- pure facts -----

  lemma CutsAppend(loaded: seq<Loaded>, l: Loaded)
    ensures Cuts(loaded + [l]) == Cuts(loaded) + [l.cut]
  {
    assert (loaded + [l])[..|loaded|] == loaded;
  }

  lemma {:induction false} CutsAt(loaded: seq<Loaded>, k: nat)
    requires k < |loaded|
    ensures |Cuts(loaded)| == |loaded| && Cuts(loaded)[k] == loaded[k].cut
    decreases |loaded|
  {
    if |loaded| > 1 {
      CutsAt(loaded[..|loaded| - 1], if k < |loaded| - 1 then k else 0);
    }
  }

  /** One more chunk: the pushes grow by what the loop decides for it. */
  lemma PullPushes(cfg: Config, a: nat, att: Attempt)
    requires !att.ended && att.pos < |Chunks(cfg, a, att)|
    ensures var chunks := Chunks(cfg, a, att);
      var fed := Feed(cfg.batchSize, Read(cfg.batchSize, chunks[..att.pos]).pending, chunks[att.pos], att.pos);
      Pushed(cfg, a, att.(pos := att.pos + 1)) == Pushed(cfg, a, att) + fed.pushed
  {
    var chunks := Chunks(cfg, a, att);
    assert chunks[..att.pos + 1] == chunks[..att.pos] + [chunks[att.pos]];
    ReadAppend(cfg.batchSize, chunks[..att.pos], chunks[att.pos]);
  }

  lemma PrefixOfSum<T>(a: seq<T>, b: seq<T>, c: seq<T>)
    requires a <= b
    ensures a <= b + c
  {
  }

  // ----- what does not look at a change -----

  lemma GrowsKeepsComplete(cfg: Config, xs: seq<Attempt>, ys: seq<Attempt>, a: nat)
    requires Grows(cfg, xs, ys) && Complete(cfg, xs, a)
    ensures Complete(cfg, ys, a)
  {
    hide CompleteAttempt;
    assert AttemptGrows(cfg, a, xs[a], ys[a]);
  }

  /** The last attempt as the append chain sees it. */
  predicate SameClaims(run: Option<Run>, xs: seq<Attempt>, run': Option<Run>, ys: seq<Attempt>) {
    && run.Some? && run'.Some? && xs != [] && |xs| == |ys|
    && run'.value.consumer == run.value.consumer && (run.value.abandoned ==> run'.value.abandoned)
    && xs[|xs| - 1].loaded == ys[|ys| - 1].loaded && xs[|xs| - 1].commits == ys[|ys| - 1].commits
  }

  lemma RequestKept(cfg: Config, version: nat, envelope: Option<Envelope>, r: Request,
                    run: Option<Run>, xs: seq<Attempt>, run': Option<Run>, ys: seq<Attempt>)
    requires RequestOk(cfg, version, envelope, r, run, xs)
    requires SameClaims(run, xs, run', ys) && Grows(cfg, xs, ys)
    ensures RequestOk(cfg, version, envelope, r, run', ys)
  {
    if r.Finish? && r.outcome.Succeeded? {
      GrowsKeepsComplete(cfg, xs, ys, r.attempt);
    }
  }

  lemma RequestsKept(cfg: Config, version: nat, envelope: Option<Envelope>, chain: seq<Request>,
                     run: Option<Run>, xs: seq<Attempt>, run': Option<Run>, ys: seq<Attempt>)
    requires RequestsOk(cfg, version, envelope, chain, run, xs)
    requires SameClaims(run, xs, run', ys) && Grows(cfg, xs, ys)
    ensures RequestsOk(cfg, version, envelope, chain, run', ys)
  {
    hide RequestOk, SameClaims, Grows;
    forall i | 0 <= i < |chain| ensures RequestOk(cfg, version, envelope, chain[i], run', ys) {
      RequestKept(cfg, version, envelope, chain[i], run, xs, run', ys);
    }
  }

  /** Requests that are neither commits nor retries do not look at the running attempt. */
  lemma RequestsFree(cfg: Config, v: nat, env: Option<Envelope>, v': nat, env': Option<Envelope>, chain: seq<Request>,
                     run: Option<Run>, xs: seq<Attempt>, run': Option<Run>, ys: seq<Attempt>)
    requires RequestsOk(cfg, v, env, chain, run, xs) && Grows(cfg, xs, ys)
    requires forall i :: 0 <= i < |chain| ==> !chain[i].Commit? && (chain[i].RetryNote? ==> run'.Some? && run'.value.abandoned)
    ensures RequestsOk(cfg, v', env', chain, run', ys)
  {
    hide Grows, Complete;
    forall i | 0 <= i < |chain| ensures RequestOk(cfg, v', env', chain[i], run', ys) {
      assert RequestOk(cfg, v, env, chain[i], run, xs);
      if chain[i].Finish? && chain[i].outcome.Succeeded? {
        GrowsKeepsComplete(cfg, xs, ys, chain[i].attempt);
      }
    }
  }

  lemma GrowsRefl(cfg: Config, xs: seq<Attempt>)
    ensures Grows(cfg, xs, xs)
  {
  }

  lemma CommitsKept(rows: seq<Event>, xs: seq<Attempt>, y: Attempt)
    requires CommitsStored(rows, xs) && xs != []
    requires xs[|xs| - 1].loaded <= y.loaded && xs[|xs| - 1].commits == y.commits <= |xs[|xs| - 1].loaded|
    ensures CommitsStored(rows, ReplaceLast(xs, y))
  {
    hide CommitStored;
    var ys := ReplaceLast(xs, y);
    forall a, k | 0 <= a < |ys| && 0 <= k < ys[a].commits && k < |ys[a].loaded|
      ensures CommitStored(rows, a, ys[a].loaded[k])
    {
      assert CommitStored(rows, a, xs[a].loaded[k]);
    }
  }
}
