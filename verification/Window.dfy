/**
 Timestamp windows: planning the next window from the committed watermark, and what the ingestion
 protocol leaves covered when its streams use this strategy, whatever finished, failed or crashed.
 */
module Window {
  import opened Wrappers
  import opened Digest
  import opened Journal
  import opened Batching
  import opened Loading
  import opened Ingestion
  import opened IngestionInvariant
  import opened IngestionSafety
  import opened IngestionGuarantees
  import Appends
  import Replay

  /** `start` mode: the configured lower bound and the overlap re-read before a watermark. */
  datatype Options = Options(start: int, overlap: nat)

  datatype Range = Range(from: int, to: int)

  /** `plan` for a scheduled execution; `None` when the lower bound lies behind the upper one. */
  function Plan(o: Options, watermark: Option<int>, cutoff: int): Option<Range> {
    var from := if watermark.Some? then watermark.value - o.overlap else o.start;
    if from > cutoff then None else Some(Range(from, cutoff))
  }

  /** `complete`: the upper bound of the loaded window becomes the watermark. */
  function Complete(r: Range): int {
    r.to
  }

  // ----- a stream with this strategy -----

  /** The cutoff of the execution an attempt belongs to, and the text a watermark is stored as. */
  datatype Clock = Clock(cutoff: nat -> int, text: int -> string, time: string -> int)

  /** `Date.parse` reads what `toISOString` wrote. */
  ghost predicate Faithful(c: Clock) {
    forall t: int :: c.time(c.text(t)) == t
  }

  function Watermark(c: Clock, state: Option<string>): Option<int> {
    if state.Some? then Some(c.time(state.value)) else None
  }

  function WindowOf(o: Options, c: Clock, a: nat, start: Option<string>): Option<Range> {
    Plan(o, Watermark(c, start), c.cutoff(a))
  }

  function CompletionOf(c: Clock, w: Option<Range>): Option<string> {
    if w.Some? then Some(c.text(Complete(w.value))) else None
  }

  /** Each attempt plans its window from the state it starts with. */
  ghost predicate Completes(cfg: Config, o: Options, c: Clock) {
    Faithful(c) && forall a: nat, start :: cfg.complete(a, start) == CompletionOf(c, WindowOf(o, c, a, start))
  }

  /** Only the last chunk of a selection may carry state, and then that of the whole. */
  predicate EndsOnly(chunks: seq<Chunk>, completed: Option<string>) {
    forall i :: 0 <= i < |chunks| && chunks[i].state.Some? ==> i == |chunks| - 1 && chunks[i].state == completed
  }

  /** ... and its reader claims nothing before the end of the window. */
  ghost predicate Windowed(cfg: Config, o: Options, c: Clock) {
    Completes(cfg, o, c) && forall a: nat, start :: EndsOnly(cfg.read(a, start), cfg.complete(a, start))
  }

  /** Readers whose chunks carry no state do so. */
  lemma NoStateEndsOnly(chunks: seq<Chunk>, completed: Option<string>)
    requires Replay.NoState(chunks)
    ensures EndsOnly(chunks, completed)
  {
  }

  /** Every row the reader yielded for the whole window of an attempt was acknowledged by the destination. */
  ghost predicate WindowLoaded(cfg: Config, o: Options, c: Clock, atts: seq<Attempt>, tokens: set<Token>, a: nat, w: Range)
    requires cfg.maxRows > 0
  {
    && a < |atts| && WindowOf(o, c, a, atts[a].start) == Some(w)
    && exists k :: AllAcknowledged(cfg, a, atts[a], tokens, k)
  }

  ghost predicate AllAcknowledged(cfg: Config, a: nat, att: Attempt, tokens: set<Token>, k: nat)
    requires cfg.maxRows > 0
  {
    && k < |att.loaded| == |Cuts(att.loaded)|
    && (forall j :: 0 <= j <= k ==> UnitsIn(cfg, att.loaded[j], tokens))
    && CutRows(Cuts(att.loaded)[..k + 1]) == ChunkRows(Chunks(cfg, a, att))
  }

  /** This moment lies in a window that was loaded whole. */
  ghost predicate Covered(cfg: Config, o: Options, c: Clock, atts: seq<Attempt>, tokens: set<Token>, x: int)
    requires cfg.maxRows > 0
  {
    exists a: nat, w :: WindowLoaded(cfg, o, c, atts, tokens, a, w) && w.from <= x <= w.to
  }

  // ----- a watermark stands behind its window -----

  /** Only the end of the selection completes a window: a state that was earned is that of a whole window. */
  lemma EarnedIsComplete(cfg: Config, o: Options, c: Clock, a: nat, att: Attempt, k: nat, state: string)
    requires Windowed(cfg, o, c) && StateEarned(cfg, a, att, k) && att.loaded[k].cut.batch.state == Some(state)
    ensures att.loaded[k].cut.upto == |Chunks(cfg, a, att)|
    ensures WindowOf(o, c, a, att.start).Some? && c.time(state) == WindowOf(o, c, a, att.start).value.to
  {
    var completed := cfg.complete(a, att.start);
    assert EndsOnly(Chunks(cfg, a, att), completed) && completed == CompletionOf(c, WindowOf(o, c, a, att.start));
  }

  lemma SafeIsWhole(cfg: Config, o: Options, c: Clock, atts: seq<Attempt>, tokens: set<Token>, a: nat, k: nat, state: string)
    returns (w: Range)
    requires cfg.maxRows > 0 && Windowed(cfg, o, c) && Safe(cfg, atts, tokens, a, k, state)
    ensures WindowLoaded(cfg, o, c, atts, tokens, a, w) && w.to == c.time(state)
  {
    hide Windowed, StateEarned, UnitsIn, ChunkRows, CutRows, Cuts, WindowOf;
    EarnedIsComplete(cfg, o, c, a, atts[a], k, state);
    w := WindowOf(o, c, a, atts[a].start).value;
    var chunks := Chunks(cfg, a, atts[a]);
    assert chunks[..|chunks|] == chunks;
    assert AllAcknowledged(cfg, a, atts[a], tokens, k);
  }

  /** Below a safe watermark there is no gap: its window is whole, and so are those it was planned from. */
  lemma {:induction false} SafeIsCovered(cfg: Config, o: Options, c: Clock, atts: seq<Attempt>, tokens: set<Token>, a: nat, k: nat, state: string, x: int)
    requires cfg.maxRows > 0 && Windowed(cfg, o, c) && Safe(cfg, atts, tokens, a, k, state)
    requires o.start <= x <= c.time(state)
    ensures Covered(cfg, o, c, atts, tokens, x)
    decreases a
  {
    var w := SafeIsWhole(cfg, o, c, atts, tokens, a, k, state);
    hide Windowed, RowsAcknowledged, StateEarned, AllAcknowledged;
    if x < w.from {
      var b: nat, m: nat :| b < a && Safe(cfg, atts, tokens, b, m, atts[a].start.value);
      hide Safe;
      SafeIsCovered(cfg, o, c, atts, tokens, b, m, atts[a].start.value, x);
    }
  }

  /** This watermark was committed behind its own whole window, and nothing below it is missing. */
  ghost predicate StandsBehind(cfg: Config, o: Options, c: Clock, atts: seq<Attempt>, tokens: set<Token>, watermark: int)
    requires cfg.maxRows > 0
  {
    && (exists a: nat, w :: WindowLoaded(cfg, o, c, atts, tokens, a, w) && w.to == watermark)
    && forall x :: o.start <= x <= watermark ==> Covered(cfg, o, c, atts, tokens, x)
  }

  lemma SafeStandsBehind(cfg: Config, o: Options, c: Clock, atts: seq<Attempt>, tokens: set<Token>, a: nat, k: nat, state: string)
    requires cfg.maxRows > 0 && Windowed(cfg, o, c) && Safe(cfg, atts, tokens, a, k, state)
    ensures StandsBehind(cfg, o, c, atts, tokens, c.time(state))
  {
    hide Windowed, Safe, WindowLoaded, Covered;
    var w := SafeIsWhole(cfg, o, c, atts, tokens, a, k, state);
    forall x | o.start <= x <= c.time(state) ensures Covered(cfg, o, c, atts, tokens, x) {
      SafeIsCovered(cfg, o, c, atts, tokens, a, k, state, x);
    }
  }

  /**
   In every reachable state, through retries, lost answers, chunk budgets, cancellation, crashes and
   restarts: the committed watermark is the end of a window all of whose rows were acknowledged, and
   every moment between the configured start and the watermark lies in such a window.
   */
  lemma NoGapBelowTheWatermark(cfg: Config, o: Options, c: Clock, states: seq<Sys>, acts: seq<Act>)
    requires cfg.maxRows > 0 && Windowed(cfg, o, c) && IsRun(cfg, states, acts)
    ensures var s := states[|acts|];
      var read := ReadCheckpoint(cfg.scope, s.line.rows);
      && read.Projected?
      && (read.checkpoint.envelope.Some? ==>
            StandsBehind(cfg, o, c, s.attempts, s.dest.tokens, c.time(read.checkpoint.envelope.value.state)))
  {
    NoUnacknowledgedCheckpoint(cfg, states, acts);
    var s := states[|acts|];
    hide Windowed, IsRun, ReadCheckpoint, Safe, StandsBehind;
    var read := ReadCheckpoint(cfg.scope, s.line.rows);
    if read.checkpoint.envelope.Some? {
      var a: nat, k: nat :| Safe(cfg, s.attempts, s.dest.tokens, a, k, read.checkpoint.envelope.value.state);
      SafeStandsBehind(cfg, o, c, s.attempts, s.dest.tokens, a, k, read.checkpoint.envelope.value.state);
    }
  }

  /** So it is for every watermark that any stored fact ever committed. */
  lemma NoGapBelowAnyWatermark(cfg: Config, o: Options, c: Clock, states: seq<Sys>, acts: seq<Act>, e: Event)
    requires cfg.maxRows > 0 && Windowed(cfg, o, c) && IsRun(cfg, states, acts)
    requires e in states[|acts|].line.rows && e.kind.BatchCommitted? && e.version != e.expected
    ensures e.checkpoint.Some?
    ensures StandsBehind(cfg, o, c, states[|acts|].attempts, states[|acts|].dest.tokens, c.time(e.checkpoint.value.state))
  {
    var s := states[|acts|];
    RunsStayReachable(cfg, states, acts);
    hide Windowed, IsRun, StartsOk, AttemptsOk, PipelineOk, ConsumerOk, RequestsOk, OrderOk, LifeOk, PendingOk, CommitsStored, BackedBy, Safe, StandsBehind;
    assert FactBacked(cfg, s.attempts, e);
    BackedHasState(cfg, s.attempts, e);
    AdvanceIsCarried(cfg, s.attempts, e);
    var b: nat, k: nat :| b < |s.attempts| && k < |s.attempts[b].loaded|
      && s.attempts[b].loaded[k].cut.batch.state == Some(e.checkpoint.value.state);
    CarriedIsSafe(cfg, s.attempts, s.dest.tokens, b, k, e.checkpoint.value.state);
    SafeStandsBehind(cfg, o, c, s.attempts, s.dest.tokens, b, k, e.checkpoint.value.state);
  }

  lemma BackedHasState(cfg: Config, atts: seq<Attempt>, e: Event)
    requires BackedBy(cfg, atts, e) && e.version != e.expected
    ensures e.checkpoint.Some?
  {
  }

  /**
   A stored watermark is the cutoff of the execution that committed it. It lies before the one that
   execution started from exactly when the clock had gone back, and then by no more than the overlap.
   */
  lemma WatermarkMovesBackIff(cfg: Config, o: Options, c: Clock, states: seq<Sys>, acts: seq<Act>, e: Event)
    requires cfg.maxRows > 0 && Windowed(cfg, o, c) && IsRun(cfg, states, acts)
    requires e in states[|acts|].line.rows && e.kind.BatchCommitted? && e.version != e.expected
    ensures e.attemptNo < |states[|acts|].attempts| && e.checkpoint.Some?
    ensures var start, committed := states[|acts|].attempts[e.attemptNo].start, c.time(e.checkpoint.value.state);
      && committed == c.cutoff(e.attemptNo)
      && (start.Some? ==>
            (committed < c.time(start.value) <==> c.time(start.value) - o.overlap <= c.cutoff(e.attemptNo) < c.time(start.value)))
  {
    var s := states[|acts|];
    RunsStayReachable(cfg, states, acts);
    hide Windowed, IsRun, StartsOk, AttemptOk, PipelineOk, ConsumerOk, RequestsOk, OrderOk, LifeOk, PendingOk, CommitsStored, BackedBy, Appends.Inv;
    assert FactBacked(cfg, s.attempts, e) && AttemptsOk(cfg, s.attempts, s.dest.tokens);
    CommittedIsCutoff(cfg, o, c, s.attempts, s.dest.tokens, e);
  }

  lemma CarriedAt(cfg: Config, atts: seq<Attempt>, e: Event) returns (k: nat)
    requires BackedBy(cfg, atts, e) && e.version != e.expected
    ensures k < |atts[e.attemptNo].loaded| && e.checkpoint.Some?
    ensures atts[e.attemptNo].loaded[k].cut.batch.state == Some(e.checkpoint.value.state)
  {
    k :| 0 <= k < |atts[e.attemptNo].loaded| && Carries(cfg, e.expected, e.version, e.checkpoint, atts[e.attemptNo].loaded[k]);
    assert Carries(cfg, e.expected, e.version, e.checkpoint, atts[e.attemptNo].loaded[k]);
  }

  lemma CommittedIsCutoff(cfg: Config, o: Options, c: Clock, atts: seq<Attempt>, tokens: set<Token>, e: Event)
    requires cfg.maxRows > 0 && Windowed(cfg, o, c) && AttemptsOk(cfg, atts, tokens) && BackedBy(cfg, atts, e) && e.version != e.expected
    ensures e.checkpoint.Some? && WindowOf(o, c, e.attemptNo, atts[e.attemptNo].start).Some?
    ensures c.time(e.checkpoint.value.state) == c.cutoff(e.attemptNo)
  {
    var a := e.attemptNo;
    assert AttemptOk(cfg, a, atts[a], tokens);
    hide Windowed, AttemptOk, AttemptsOk, WindowOf, StateEarned, RowsAcknowledged;
    var k := CarriedAt(cfg, atts, e);
    hide BackedBy;
    LoadedIsCovered(cfg, a, atts[a], tokens, k);
    EarnedIsComplete(cfg, o, c, a, atts[a], k, e.checkpoint.value.state);
    EndsAtCutoff(o, c, a, atts[a].start);
  }

  /** From here to here, unless the clock stands before the lower bound. */
  function Between(from: int, to: int): Option<Range> {
    if from <= to then Some(Range(from, to)) else None
  }

  lemma FirstWindow(o: Options, c: Clock, a: nat)
    ensures WindowOf(o, c, a, None) == Between(o.start, c.cutoff(a))
  {
  }

  lemma NextWindow(o: Options, c: Clock, a: nat, state: string)
    ensures WindowOf(o, c, a, Some(state)) == Between(c.time(state) - o.overlap, c.cutoff(a))
  {
  }

  /** The window of an attempt begins the overlap before the end of an earlier attempt's whole window. */
  ghost predicate Continues(cfg: Config, o: Options, c: Clock, atts: seq<Attempt>, tokens: set<Token>, a: nat)
    requires cfg.maxRows > 0 && a < |atts|
  {
    exists b: nat, w :: b < a && WindowLoaded(cfg, o, c, atts, tokens, b, w)
      && WindowOf(o, c, a, atts[a].start) == Between(w.to - o.overlap, c.cutoff(a))
  }

  lemma StartContinues(cfg: Config, o: Options, c: Clock, atts: seq<Attempt>, tokens: set<Token>, a: nat)
    requires cfg.maxRows > 0 && Windowed(cfg, o, c) && AttemptsOk(cfg, atts, tokens) && StartsOk(atts)
    requires a < |atts| && atts[a].start.Some?
    ensures Continues(cfg, o, c, atts, tokens, a)
  {
    hide Windowed, WindowOf, WindowLoaded, Safe, AttemptsOk;
    var start := atts[a].start.value;
    assert StartOk(atts, a, atts[a]);
    var b: nat, k: nat :| b < a && b < |atts| && k < |atts[b].loaded| && atts[b].loaded[k].cut.batch.state == Some(start);
    CarriedIsSafe(cfg, atts, tokens, b, k, start);
    var w := SafeIsWhole(cfg, o, c, atts, tokens, b, k, start);
    NextWindow(o, c, a, start);
  }

  /**
   Every attempt of every run reads from the configured start when nothing is committed yet, and otherwise from
   exactly the overlap before the end of the whole window of an earlier attempt, up to its own cutoff: a second
   execution never reads everything again.
   */
  lemma WindowsMeet(cfg: Config, o: Options, c: Clock, states: seq<Sys>, acts: seq<Act>, a: nat)
    requires cfg.maxRows > 0 && Windowed(cfg, o, c) && IsRun(cfg, states, acts) && a < |states[|acts|].attempts|
    ensures var s := states[|acts|];
      if s.attempts[a].start.None? then WindowOf(o, c, a, s.attempts[a].start) == Between(o.start, c.cutoff(a))
      else Continues(cfg, o, c, s.attempts, s.dest.tokens, a)
  {
    var s := states[|acts|];
    RunsStayReachable(cfg, states, acts);
    hide Windowed, IsRun, WindowOf, Continues, AttemptsOk, PipelineOk, ConsumerOk, RequestsOk, OrderOk, LifeOk, PendingOk, CommitsStored,
         FactsBacked, Appends.Inv, StartsOk;
    if s.attempts[a].start.None? {
      FirstWindow(o, c, a);
    } else {
      StartContinues(cfg, o, c, s.attempts, s.dest.tokens, a);
    }
  }

  lemma EndsAtCutoff(o: Options, c: Clock, a: nat, start: Option<string>)
    requires WindowOf(o, c, a, start).Some?
    ensures WindowOf(o, c, a, start).value.to == c.cutoff(a)
  {
  }
}
