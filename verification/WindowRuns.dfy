/**
 Successive executions of a windowed stream: what watermark each one commits, and a run in which the
 watermark moves back.
 */
module WindowRuns {
  import opened Wrappers
  import opened Digest
  import opened Journal
  import opened Batching
  import opened Loading
  import opened Ingestion
  import opened IngestionInvariant
  import opened IngestionSafety
  import opened Replay
  import opened ExactlyOnce
  import opened SyncRuns
  import W = Window
  import Appends

  /** The watermark a new process would read. */
  function Stored(c: W.Clock, s: Sys): Option<int> {
    W.Watermark(c, StateOf(Projection(s.line.rows).envelope))
  }

  // ----- one execution -----

  /** A selection that claims a state is completed by its last push. */
  lemma LastPushCompletes(batchSize: nat, chunks: seq<Chunk>, completed: Option<string>)
    requires completed.Some?
    ensures var p := Pushes(batchSize, chunks, completed); p != [] && p[|p| - 1].batch.state == completed
  {
  }

  /** The success of the sync is stored, its answer still to come. */
  predicate Finishing(y: Sync, s: Sys, e: Event) {
    && s.line.live && !s.line.poisoned && !s.line.stale && s.line.pending == Some(e) && |s.chain| == 1 && s.chain[0].Finish?
    && s.line.lastSuccess == y.lastSuccess && e in s.line.rows && e.kind.WorkFinished? && e.workState.Succeeded?
  }

  lemma ToTheEnd(cfg: Config, y: Sync, base: seq<Row>, s: Sys, completed: Option<string>) returns (t: Sys, e: Event)
    requires cfg.maxRows > 0 && OnItsWay(cfg, y, base, s) && Last(s).loaded == [] && y.first < |s.attempts|
    requires completed.Some? && Whole(cfg, s) != [] && Whole(cfg, s)[|Whole(cfg, s)| - 1].batch.state == completed
    ensures Leads(cfg, y, s, t) && Succeeds(y, t, e) && Finishing(y, t, e)
    ensures StateOf(t.line.envelope) == completed && |t.attempts| == |s.attempts|
  {
    hide Leads, OnItsWay, Whole, Reachable, Working, AllOlder, Stock;
    var all := Whole(cfg, s);
    var m := Drain(cfg, y, base, s, |all| - 1);
    SameWhole(cfg, s, m);
    var n := OneMore(cfg, y, base, m);
    SameWhole(cfg, m, n);
    WayIsWorking(cfg, y, base, n);
    var r := ReadToEnd(cfg, y, n);
    LeadsStaysReachable(cfg, y, n, r);
    FetchedIsWorking(y, n, r);
    t, e := Succeed(cfg, y, r);
    Both(cfg, y, s, m, n);
    Both(cfg, y, s, n, r);
    Both(cfg, y, s, r, t);
  }

  lemma WindowCompletes(cfg: Config, o: W.Options, c: W.Clock, s: Sys)
    requires W.Windowed(cfg, o, c) && s.attempts != []
    requires W.WindowOf(o, c, |s.attempts| - 1, Last(s).start).Some?
    ensures var all, completed := Whole(cfg, s), Some(c.text(c.cutoff(|s.attempts| - 1)));
      all != [] && all[|all| - 1].batch.state == completed
  {
    hide Pushes;
    LastPushCompletes(cfg.batchSize, Chunks(cfg, |s.attempts| - 1, Last(s)), cfg.complete(|s.attempts| - 1, Last(s).start));
  }

  lemma StartsAtFirst(cfg: Config, y: Sync, s: Sys)
    requires cfg.maxRows > 0 && SyncStarts(cfg, y, s)
    ensures Reachable(cfg, s) && |s.attempts| == y.first
  {
    hide Reachable;
  }

  /** An execution that is left alone commits the end of its window and records a success. */
  lemma Executes(cfg: Config, o: W.Options, c: W.Clock, y: Sync, p: Sys, s: Sys) returns (t: Sys, e: Event)
    requires cfg.maxRows > 0 && W.Windowed(cfg, o, c) && Restart(cfg, p, s) && SyncStarts(cfg, y, s) && y.first < y.beyond
    requires W.WindowOf(o, c, y.first, StateOf(y.envelope)).Some?
    ensures Leads(cfg, y, s, t) && Succeeds(y, t, e) && Finishing(y, t, e) && |t.attempts| == y.first + 1
    ensures StateOf(t.line.envelope) == Some(c.text(c.cutoff(y.first)))
  {
    hide *;
    StartIsWorking(cfg, y, p, s);
    StartsAtFirst(cfg, y, s);
    var b := Begin(cfg, y, s);
    BegunIs(s);
    WindowCompletes(cfg, o, c, b);
    t, e := ToTheEnd(cfg, y, Stock(cfg, y, s), b, Some(c.text(c.cutoff(y.first))));
    Both(cfg, y, s, b, t);
  }

  lemma BegunIs(s: Sys)
    ensures var b := Begun(s);
      |b.attempts| == |s.attempts| + 1 && Last(b).start == StateOf(s.line.envelope) && Last(b).loaded == []
  {
  }

  // ----- one execution behind the other -----

  /** What a process believes while its success is on the way is what is stored. */
  lemma FinishingIsStored(cfg: Config, y: Sync, s: Sys, e: Event)
    requires cfg.maxRows > 0 && Reachable(cfg, s) && Finishing(y, s, e)
    ensures Projection(s.line.rows).envelope == s.line.envelope && LastSuccessSeq(s.line.rows) >= 1
  {
    ReachableHasLine(cfg, s);
    SuccessIsRecorded(s.line.rows, e);
    hide Reachable, Healthy, Projection, LastSuccessSeq, HeadSeq;
  }

  function Finished(cfg: Config, s: Sys): Sys
    requires Confirms(cfg, s)
  {
    s.(line := ConfirmedLine(cfg, s).(live := false), chain := [], run := None)
  }

  lemma Finishes(cfg: Config, y: Sync, s: Sys, e: Event)
    requires cfg.maxRows > 0 && Finishing(y, s, e)
    ensures Confirms(cfg, s) && Does(cfg, s, ConfirmsFinish, Finished(cfg, s))
    ensures Finished(cfg, s).line.rows == s.line.rows && !Finished(cfg, s).line.live
    ensures Finished(cfg, s).line.lastSuccess == y.lastSuccess && Finished(cfg, s).attempts == s.attempts
  {
  }

  /** The next process starts from what is stored. */
  lemma NextStarts(cfg: Config, s: Sys) returns (t: Sys)
    requires cfg.maxRows > 0 && Reachable(cfg, s) && !s.line.live
    ensures Restart(cfg, s, t) && t.attempts == s.attempts && t.line.rows == s.line.rows
    ensures t.line.envelope == Projection(s.line.rows).envelope && t.line.version == Projection(s.line.rows).version
    ensures t.line.lastSuccess == LastSuccessSeq(s.line.rows)
  {
    ReachableHasLine(cfg, s);
    hide Reachable, Healthy, VersionAfter, EnvelopeAfter, Commits, LastSuccessSeq, HeadSeq, ReadCheckpoint;
    Appends.CheckpointIsReadable(cfg.scope, s.line);
    t := s.(line := Appends.Next(cfg.scope, s.line, Appends.Restart), chain := [], aborted := false, run := None);
  }

  ghost predicate RunTo(cfg: Config, states: seq<Sys>, acts: seq<Act>, t: Sys)
    requires cfg.maxRows > 0
  {
    IsRun(cfg, states, acts) && states[|acts|] == t
  }

  lemma OneStepMore(cfg: Config, states: seq<Sys>, acts: seq<Act>, s: Sys, act: Act, t: Sys)
    requires cfg.maxRows > 0 && RunTo(cfg, states, acts, s) && Does(cfg, s, act, t)
    ensures RunTo(cfg, states + [t], acts + [act], t)
  {
    hide Does;
    var more, does := states + [t], acts + [act];
    forall i | 0 <= i < |does| ensures Does(cfg, more[i], does[i], more[i + 1]) {
      if i < |acts| {
        assert more[i] == states[i] && more[i + 1] == states[i + 1];
      }
    }
  }

  lemma PathMore(cfg: Config, y: Sync, states: seq<Sys>, acts: seq<Act>, s: Sys, t: Sys, path: seq<Sys>, does: seq<Act>)
    returns (states': seq<Sys>, acts': seq<Act>)
    requires cfg.maxRows > 0 && RunTo(cfg, states, acts, s) && Joins(cfg, y, s, t, path, does)
    ensures RunTo(cfg, states', acts', t) && states <= states'
    decreases |does|
  {
    hide RunTo, Does;
    if does == [] {
      states', acts' := states, acts;
    } else {
      var n := |does| - 1;
      assert Joins(cfg, y, s, path[n], path[..n + 1], does[..n]);
      var more, acts0 := PathMore(cfg, y, states, acts, s, path[n], path[..n + 1], does[..n]);
      OneStepMore(cfg, more, acts0, path[n], does[n], t);
      states', acts' := more + [t], acts0 + [does[n]];
    }
  }

  lemma LeadsMore(cfg: Config, y: Sync, states: seq<Sys>, acts: seq<Act>, s: Sys, t: Sys) returns (states': seq<Sys>, acts': seq<Act>)
    requires cfg.maxRows > 0 && RunTo(cfg, states, acts, s) && Leads(cfg, y, s, t)
    ensures RunTo(cfg, states', acts', t) && states <= states'
  {
    hide RunTo, Joins;
    var path, does :| Joins(cfg, y, s, t, path, does);
    states', acts' := PathMore(cfg, y, states, acts, s, t, path, does);
  }

  lemma RunIsReachable(cfg: Config, states: seq<Sys>, acts: seq<Act>, t: Sys)
    requires cfg.maxRows > 0 && RunTo(cfg, states, acts, t)
    ensures Reachable(cfg, t)
  {
    hide Reachable;
    RunsStayReachable(cfg, states, acts);
  }

  /** The sync a process begins that reads this checkpoint. */
  function SyncFrom(s: Sys): Sync {
    Sync([], None, _ => 0, |s.attempts|, |s.attempts| + 1, s.line.lastSuccess, s.line.version, s.line.envelope)
  }

  /** The first execution, from an empty journal. */
  lemma FirstExecution(cfg: Config, o: W.Options, c: W.Clock) returns (states: seq<Sys>, acts: seq<Act>, y: Sync, t: Sys, e: Event)
    requires cfg.maxRows > 0 && W.Windowed(cfg, o, c) && o.start <= c.cutoff(0)
    ensures RunTo(cfg, states, acts, t) && Finishing(y, t, e) && y.lastSuccess == 0
    ensures Stored(c, t) == Some(c.cutoff(0)) && |t.attempts| == 1
  {
    StartIsFine(cfg);
    var s := FirstStart(cfg);
    y := SyncFrom(s);
    FirstSyncStarts(cfg, y, s);
    hide Restart, SyncStarts, Reachable, Leads, Finishing;
    t, e := Executes(cfg, o, c, y, START, s);
    assert RunTo(cfg, [START], [], START);
    OneStepMore(cfg, [START], [], START, Restarts, s);
    states, acts := LeadsMore(cfg, y, [START] + [s], [] + [Restarts], s, t);
    RunIsReachable(cfg, states, acts, t);
    hide Stored;
    StoredIs(cfg, o, c, y, t, e, c.cutoff(0));
  }

  lemma FirstStart(cfg: Config) returns (s: Sys)
    requires cfg.maxRows > 0
    ensures Restart(cfg, START, s) && s.attempts == [] && s.line.envelope == None && s.line.version == 0 && s.line.lastSuccess == 0
  {
    s := START.(line := Appends.Next(cfg.scope, START.line, Appends.Restart));
  }

  /** The process behind a recorded success begins the next sync. */
  lemma BeginsNext(cfg: Config, y: Sync, states: seq<Sys>, acts: seq<Act>, s: Sys, e: Event)
    returns (states': seq<Sys>, acts': seq<Act>, u: Sys, t: Sys)
    requires cfg.maxRows > 0 && RunTo(cfg, states, acts, s) && Finishing(y, s, e) && y.lastSuccess == 0
    ensures RunTo(cfg, states', acts', t) && states <= states' && Restart(cfg, u, t)
    ensures SyncStarts(cfg, SyncFrom(t), t) && t.attempts == s.attempts && t.line.envelope == s.line.envelope
  {
    RunIsReachable(cfg, states, acts, s);
    FinishingIsStored(cfg, y, s, e);
    Finishes(cfg, y, s, e);
    u := Finished(cfg, s);
    hide Finishing, Finished, Reachable, Confirms, ConfirmFinish, Projection, LastSuccessSeq, SyncStarts;
    OneStepMore(cfg, states, acts, s, ConfirmsFinish, u);
    var more, does := states + [u], acts + [ConfirmsFinish];
    RunIsReachable(cfg, more, does, u);
    t := NextStarts(cfg, u);
    LaterSyncStarts(cfg, SyncFrom(t), more, does, t);
    hide Restart;
    OneStepMore(cfg, more, does, u, Restarts, t);
    states', acts' := more + [t], does + [Restarts];
  }

  lemma StoredIs(cfg: Config, o: W.Options, c: W.Clock, y: Sync, s: Sys, e: Event, at: int)
    requires cfg.maxRows > 0 && W.Windowed(cfg, o, c) && Reachable(cfg, s) && Finishing(y, s, e)
    requires StateOf(s.line.envelope) == Some(c.text(at))
    ensures Stored(c, s) == Some(at)
  {
    FinishingIsStored(cfg, y, s, e);
    hide Reachable, Projection, LastSuccessSeq;
    assert c.time(c.text(at)) == at;
  }

  lemma WindowFits(cfg: Config, o: W.Options, c: W.Clock, y: Sync, s: Sys, e: Event, t: Sys)
    requires cfg.maxRows > 0 && Reachable(cfg, s) && Finishing(y, s, e) && t.line.envelope == s.line.envelope && t.attempts == s.attempts
    requires Stored(c, s).Some? && Stored(c, s).value - o.overlap <= c.cutoff(|s.attempts|)
    ensures W.WindowOf(o, c, SyncFrom(t).first, StateOf(SyncFrom(t).envelope)).Some?
  {
    FinishingIsStored(cfg, y, s, e);
    hide Reachable, Projection, LastSuccessSeq, Finishing;
  }

  lemma ChainPrefix<T>(a: seq<T>, b: seq<T>, c: seq<T>)
    requires a <= b <= c
    ensures a <= c
  {
  }

  /** The next execution, from the watermark it finds. */
  lemma NextExecution(cfg: Config, o: W.Options, c: W.Clock, y: Sync, states: seq<Sys>, acts: seq<Act>, s: Sys, e: Event)
    returns (states': seq<Sys>, acts': seq<Act>, y': Sync, t: Sys, e': Event)
    requires cfg.maxRows > 0 && W.Windowed(cfg, o, c) && RunTo(cfg, states, acts, s) && Finishing(y, s, e) && y.lastSuccess == 0
    requires Stored(c, s).Some? && Stored(c, s).value - o.overlap <= c.cutoff(|s.attempts|)
    ensures RunTo(cfg, states', acts', t) && states <= states' && Finishing(y', t, e') && Succeeds(y', t, e')
    ensures Stored(c, t) == Some(c.cutoff(|s.attempts|)) && y'.first == |s.attempts|
  {
    hide *;
    RunIsReachable(cfg, states, acts, s);
    var more, does, u, v := BeginsNext(cfg, y, states, acts, s, e);
    y' := SyncFrom(v);
    WindowFits(cfg, o, c, y, s, e, v);
    StartsNow(v);
    t, e' := Executes(cfg, o, c, y', u, v);
    states', acts' := LeadsMore(cfg, y', more, does, v, t);
    ChainPrefix(states, more, states');
    RunIsReachable(cfg, states', acts', t);
    StoredIs(cfg, o, c, y', t, e', c.cutoff(|s.attempts|));
  }

  lemma StartsNow(s: Sys)
    ensures SyncFrom(s).first == |s.attempts| && SyncFrom(s).beyond == |s.attempts| + 1
  {
  }

  /** A success was recorded for this attempt or a later one. */
  predicate HasSuccess(s: Sys, attempt: nat) {
    exists e :: e in s.line.rows && e.kind.WorkFinished? && e.workState.Succeeded? && e.attemptNo >= attempt
  }

  /**
   The watermark can move back: a clock that went back by no more than the overlap makes the next
   execution plan a window that ends before the watermark, load it, commit its end and succeed.
   */
  lemma WatermarkMovesBack(cfg: Config, o: W.Options, c: W.Clock) returns (states: seq<Sys>, acts: seq<Act>, i: nat)
    requires cfg.maxRows > 0 && W.Windowed(cfg, o, c)
    requires o.start <= c.cutoff(0) && c.cutoff(0) - o.overlap <= c.cutoff(1) < c.cutoff(0)
    ensures IsRun(cfg, states, acts) && i <= |acts|
    ensures HasSuccess(states[i], 0) && HasSuccess(states[|acts|], 1)
    ensures Stored(c, states[i]) == Some(c.cutoff(0)) && Stored(c, states[|acts|]) == Some(c.cutoff(1))
  {
    hide Stored, Does, Restart, W.Windowed;
    var states0, acts0, y, s, e := FirstExecution(cfg, o, c);
    i := |acts0|;
    var y', t, e';
    states, acts, y', t, e' := NextExecution(cfg, o, c, y, states0, acts0, s, e);
    assert states[i] == states0[i];
  }

  // ----- a reader that claims too early -----

  lemma ShorterRows(p: seq<Cut>, i: nat, j: nat)
    requires i <= j <= |p|
    ensures |CutRows(p[..i])| <= |CutRows(p[..j])|
  {
    assert p[..j] == p[..i] + p[i..j];
    CutRowsAppend(p[..i], p[i..j]);
  }

  /** Rows behind a push are in none of the pushes up to it. */
  lemma RowsMissing(cfg: Config, chunks: seq<Chunk>, completed: Option<string>, k: nat, i: nat)
    requires i <= k < |Pushes(cfg.batchSize, chunks, completed)|
    requires var c := Pushes(cfg.batchSize, chunks, completed)[k]; c.upto <= |chunks| && ChunkRows(chunks[c.upto..]) != []
    ensures CutRows(Pushes(cfg.batchSize, chunks, completed)[..i + 1]) != ChunkRows(chunks)
  {
    var p := Pushes(cfg.batchSize, chunks, completed);
    var u := p[k].upto;
    PushesCover(cfg.batchSize, chunks, completed, k);
    hide Pushes, CutRows, ChunkRows;
    ShorterRows(p, i + 1, k + 1);
    assert chunks == chunks[..u] + chunks[u..];
    ChunkRowsAppend(chunks[..u], chunks[u..]);
  }

  /** The attempt loaded these pushes, and rows stand behind the last of them. */
  ghost predicate LoadedShort(cfg: Config, att: Attempt, k: nat) {
    var chunks := Chunks(cfg, 0, att);
    var all := Pushes(cfg.batchSize, chunks, cfg.complete(0, att.start));
    && k < |all| && |att.loaded| == k + 1 && Cuts(att.loaded) == all[..k + 1]
    && all[k].upto <= |chunks| && ChunkRows(chunks[all[k].upto..]) != []
  }

  lemma NotAllAcknowledged(cfg: Config, att: Attempt, tokens: set<Token>, k: nat, i: nat)
    requires cfg.maxRows > 0 && LoadedShort(cfg, att, k)
    ensures !W.AllAcknowledged(cfg, 0, att, tokens, i)
  {
    if i <= k {
      var chunks := Chunks(cfg, 0, att);
      var all := Pushes(cfg.batchSize, chunks, cfg.complete(0, att.start));
      RowsMissing(cfg, chunks, cfg.complete(0, att.start), k, i);
      hide Chunks, CutRows, ChunkRows, UnitsIn, Pushes, Cuts;
      assert Cuts(att.loaded)[..i + 1] == all[..i + 1];
    }
  }

  /** No window of a lone attempt is loaded whole while rows of it are missing. */
  lemma NotLoadedWhole(cfg: Config, o: W.Options, c: W.Clock, atts: seq<Attempt>, tokens: set<Token>, k: nat, watermark: int)
    requires cfg.maxRows > 0 && |atts| == 1 && LoadedShort(cfg, atts[0], k)
    ensures !W.StandsBehind(cfg, o, c, atts, tokens, watermark)
  {
    hide LoadedShort, W.AllAcknowledged, W.WindowOf;
    forall i: nat ensures !W.AllAcknowledged(cfg, 0, atts[0], tokens, i) {
      NotAllAcknowledged(cfg, atts[0], tokens, k, i);
    }
  }

  /** A batch that carries state while rows of its selection stand behind it. */
  predicate ClaimsEarly(cfg: Config, a: nat, start: Option<string>, k: nat) {
    var chunks := cfg.read(a, start);
    var all := Pushes(cfg.batchSize, chunks, cfg.complete(a, start));
    k < |all| && all[k].batch.state.Some? && all[k].upto <= |chunks| && ChunkRows(chunks[all[k].upto..]) != []
  }

  /** The state the claiming batch carries. */
  function ClaimOf(cfg: Config, a: nat, start: Option<string>, k: nat): (claim: Option<string>)
    requires ClaimsEarly(cfg, a, start, k)
    ensures claim.Some?
  {
    Pushes(cfg.batchSize, cfg.read(a, start), cfg.complete(a, start))[k].batch.state
  }

  lemma WholeOfClaim(cfg: Config, s: Sys, k: nat)
    requires |s.attempts| == 1 && ClaimsEarly(cfg, 0, Last(s).start, k)
    ensures k < |Whole(cfg, s)| && Whole(cfg, s)[k].batch.state == ClaimOf(cfg, 0, Last(s).start, k) && ClaimOf(cfg, 0, Last(s).start, k).Some?
    ensures |Last(s).loaded| == k + 1 && Cuts(Last(s).loaded) == Whole(cfg, s)[..k + 1] ==> LoadedShort(cfg, Last(s), k)
  {
    hide Pushes, ChunkRows, Cuts;
  }

  lemma StoredIsBelieved(cfg: Config, s: Sys)
    requires cfg.maxRows > 0 && Reachable(cfg, s) && s.line.live && s.line.pending.None? && !s.line.stale
    ensures Projection(s.line.rows).envelope == s.line.envelope
  {
    hide Reachable, Projection, ReadCheckpoint;
    BelievesCheckpoint(cfg, s);
  }

  lemma SpotCarries(cfg: Config, spot: Spot, b: Batch)
    requires b.state.Some?
    ensures StateOf(SpotAfter(cfg, spot, b).envelope) == b.state
  {
  }

  lemma EarlyCommit(cfg: Config, y: Sync, base: seq<Row>, s: Sys, k: nat) returns (t: Sys)
    requires cfg.maxRows > 0 && OnItsWay(cfg, y, base, s) && Last(s).loaded == [] && |s.attempts| == 1
    requires ClaimsEarly(cfg, 0, Last(s).start, k)
    ensures Leads(cfg, y, s, t) && |t.attempts| == 1 && LoadedShort(cfg, t.attempts[0], k)
    ensures StateOf(Projection(t.line.rows).envelope) == ClaimOf(cfg, 0, Last(s).start, k)
  {
    hide Leads, OnItsWay, Whole, Reachable, AllOlder, Stock, ClaimsEarly, ClaimOf, LoadedShort, Projection, SpotAfter;
    WholeOfClaim(cfg, s, k);
    var m := Drain(cfg, y, base, s, k);
    SameWhole(cfg, s, m);
    WayIsBetween(cfg, y, base, m);
    t := OneMore(cfg, y, base, m);
    SameWhole(cfg, m, t);
    Both(cfg, y, s, m, t);
    WayIsWorking(cfg, y, base, t);
    LoadedPrefix(cfg, y, base, t);
    WholeOfClaim(cfg, t, k);
    SpotCarries(cfg, SpotOf(m), Whole(cfg, m)[k].batch);
    StoredIsBelieved(cfg, t);
  }

  /** The first attempt of a stream. */
  lemma FirstAttemptBegins(cfg: Config) returns (y: Sync, s: Sys, b: Sys)
    requires cfg.maxRows > 0
    ensures Does(cfg, START, Restarts, s) && Leads(cfg, y, s, b) && OnItsWay(cfg, y, Stock(cfg, y, s), b)
    ensures |b.attempts| == 1 && Last(b).loaded == [] && Last(b).start == None
  {
    s := FirstStart(cfg);
    y := SyncFrom(s);
    FirstSyncStarts(cfg, y, s);
    hide Restart, SyncStarts, Reachable, Leads, AllOlder, Stock, OnItsWay, Working;
    StartIsWorking(cfg, y, START, s);
    StartsAtFirst(cfg, y, s);
    StartsNow(s);
    b := Begin(cfg, y, s);
    BegunIs(s);
  }

  /**
   The assumption on chunk states is needed: when a batch of the first attempt carries state and rows are
   still to come, there is a run in which its watermark is committed and no window was loaded whole.
   */
  lemma EarlyClaimLeavesGap(cfg: Config, o: W.Options, c: W.Clock, k: nat) returns (states: seq<Sys>, acts: seq<Act>)
    requires cfg.maxRows > 0 && ClaimsEarly(cfg, 0, None, k)
    ensures IsRun(cfg, states, acts)
    ensures var s, claim := states[|acts|], ClaimOf(cfg, 0, None, k);
      && StateOf(Projection(s.line.rows).envelope) == claim
      && !W.StandsBehind(cfg, o, c, s.attempts, s.dest.tokens, c.time(claim.value))
  {
    var y, s, b := FirstAttemptBegins(cfg);
    assert RunTo(cfg, [START], [], START);
    hide Does, Leads, OnItsWay, ClaimsEarly, ClaimOf, LoadedShort, Projection, W.StandsBehind, Stock;
    OneStepMore(cfg, [START], [], START, Restarts, s);
    var t := EarlyCommit(cfg, y, Stock(cfg, y, s), b, k);
    Both(cfg, y, s, b, t);
    states, acts := LeadsMore(cfg, y, [START] + [s], [] + [Restarts], s, t);
    NotLoadedWhole(cfg, o, c, t.attempts, t.dest.tokens, k, c.time(ClaimOf(cfg, 0, None, k).value));
  }
}
