/**
 The other half of exactly once: when a batch carries the state of a chunk in front of its last one,
 a crash right behind its commit makes the next attempt read the chunks in between again, and their
 rows are stored a second time under new identities.
 */
module Misaligned {
  import opened Wrappers
  import opened Journal
  import opened Batching
  import opened Loading
  import opened Ingestion
  import opened IngestionInvariant
  import opened IngestionSafety
  import opened Replay
  import opened ExactlyOnce
  import opened SyncRuns

  // ----- where the state of a batch comes from -----

  /** The chunks before batch `k`. */
  function UptoBefore(p: seq<Cut>, k: nat): nat
    requires k <= |p|
  {
    if k == 0 then 0 else p[k - 1].upto
  }

  predicate OwnState(chunks: seq<Chunk>, lo: nat, hi: nat, state: Option<string>) {
    state.Some? ==> exists j :: lo <= j < hi && j < |chunks| && chunks[j].state == state
  }

  predicate Owns(chunks: seq<Chunk>, p: seq<Cut>, k: nat)
    requires k < |p|
  {
    UptoBefore(p, k) <= p[k].upto <= |chunks| && OwnState(chunks, UptoBefore(p, k), p[k].upto, p[k].batch.state)
  }

  lemma OwnStateInFront(front: seq<Chunk>, c: Chunk, lo: nat, hi: nat, state: Option<string>)
    requires OwnState(front, lo, hi, state)
    ensures OwnState(front + [c], lo, hi, state) && OwnState(front + [c], lo, hi + 1, state)
  {
    if state.Some? {
      var j :| lo <= j < hi && j < |front| && front[j].state == state;
      assert (front + [c])[j].state == state;
    }
  }

  lemma FeedOwns(batchSize: nat, front: seq<Chunk>, before: nat, pending: Batch, c: Chunk)
    requires before <= |front| && OwnState(front, before, |front|, pending.state)
    ensures var f, all := Feed(batchSize, pending, c, |front|), front + [c];
      && (forall k :: 0 <= k < |f.pushed| ==>
            var lo := if k == 0 then before else f.pushed[k - 1].upto;
            lo <= f.pushed[k].upto <= |all| && OwnState(all, lo, f.pushed[k].upto, f.pushed[k].batch.state))
      && var last := if f.pushed == [] then before else f.pushed[|f.pushed| - 1].upto;
        last <= |all| && OwnState(all, last, |all|, f.pending.state)
  {
    var all := front + [c];
    OwnStateInFront(front, c, before, |front|, pending.state);
    assert all[|front|].state == c.state;
  }

  /** A batch takes its state from a chunk of its own. */
  lemma {:induction false} StateIsOfAnOwnChunk(batchSize: nat, chunks: seq<Chunk>)
    ensures var r := Read(batchSize, chunks);
      && UptoBefore(r.pushed, |r.pushed|) <= |chunks|
      && OwnState(chunks, UptoBefore(r.pushed, |r.pushed|), |chunks|, r.pending.state)
      && forall k :: 0 <= k < |r.pushed| ==> Owns(chunks, r.pushed, k)
  {
    if chunks != [] {
      var n := |chunks| - 1;
      var front, c := chunks[..n], chunks[n];
      assert chunks == front + [c];
      StateIsOfAnOwnChunk(batchSize, front);
      var r0, r := Read(batchSize, front), Read(batchSize, chunks);
      var before := UptoBefore(r0.pushed, |r0.pushed|);
      var f := Feed(batchSize, r0.pending, c, n);
      ReadAppend(batchSize, front, c);
      FeedOwns(batchSize, front, before, r0.pending, c);
      hide OwnState, Read, Feed;
      forall k | 0 <= k < |r.pushed| ensures Owns(chunks, r.pushed, k) {
        if k < |r0.pushed| {
          assert Owns(front, r0.pushed, k);
          OwnStateInFront(front, c, UptoBefore(r0.pushed, k), r0.pushed[k].upto, r0.pushed[k].batch.state);
        } else {
          assert r.pushed[k] == f.pushed[k - |r0.pushed|];
        }
      }
    }
  }

  /** Where the reader resumes behind a batch of the plan. */
  lemma PlanStates(cfg: Config, y: Sync, k: nat)
    requires Replays(cfg, y) && k < |Plan(cfg, y)|
    ensures var p := Plan(cfg, y);
      && UptoBefore(p, k) <= p[k].upto <= |y.source|
      && (p[k].batch.state.Some? ==> y.resume(p[k].batch.state) <= p[k].upto)
      && (p[k].batch.state.Some? && y.resume(p[k].batch.state) != p[k].upto ==>
            UptoBefore(p, k) < y.resume(p[k].batch.state))
  {
    StateIsOfAnOwnChunk(cfg.batchSize, y.source);
    var r, p := Read(cfg.batchSize, y.source), Plan(cfg, y);
    hide Read;
    if k < |r.pushed| {
      assert Owns(y.source, r.pushed, k);
      assert UptoBefore(p, k) == UptoBefore(r.pushed, k) && p[k] == r.pushed[k];
    }
  }

  lemma {:induction false} UptoGrows(cfg: Config, y: Sync, j: nat, k: nat)
    requires Replays(cfg, y) && j < k <= |Plan(cfg, y)|
    ensures Plan(cfg, y)[j].upto <= UptoBefore(Plan(cfg, y), k)
  {
    hide Plan, Replays;
    if j < k - 1 {
      UptoGrows(cfg, y, j, k - 1);
      PlanStates(cfg, y, k - 1);
    }
  }

  /** Batch `k` resumes in front of its last chunk. */
  predicate Astray(cfg: Config, y: Sync, k: nat)
    requires k < |Plan(cfg, y)|
  {
    var c := Plan(cfg, y)[k];
    c.batch.state.Some? && y.resume(c.batch.state) != c.upto
  }

  /** Two small chunks suffice, the first with state and the second without: they become one batch. */
  lemma TwoChunksStray(cfg: Config, y: Sync, c: Chunk, d: Chunk)
    requires Replays(cfg, y) && y.source == [c, d] && y.completed.None? && cfg.batchSize > |c.rows| + |d.rows|
    requires c.id.None? && d.id.None? && c.state.Some? && d.state.None?
    ensures |Plan(cfg, y)| == 1 && Astray(cfg, y, 0)
  {
    assert [c, d] == [c] + [d] && [c] == [] + [c];
    ReadAppend(cfg.batchSize, [], c);
    ReadAppend(cfg.batchSize, [c], d);
    assert y.source[0] == c;
  }

  // ----- rows are stored twice -----

  lemma WholeIsRest(cfg: Config, y: Sync, s: Sys)
    requires Replays(cfg, y) && s.attempts != [] && y.first <= |s.attempts| - 1 < y.beyond && y.resume(Last(s).start) <= |y.source|
    ensures Whole(cfg, s) == Pushes(cfg.batchSize, y.source[y.resume(Last(s).start)..], y.completed)
  {
  }

  lemma FirstReadsAll(cfg: Config, y: Sync, s: Sys)
    requires Replays(cfg, y) && s.attempts != [] && y.first <= |s.attempts| - 1 < y.beyond && Last(s).start == StateOf(y.envelope)
    ensures Whole(cfg, s) == Plan(cfg, y)
  {
    WholeIsRest(cfg, y, s);
    assert y.source[0..] == y.source;
  }

  /** Its state is none that was committed before. */
  lemma StateIsNew(cfg: Config, y: Sync, k: nat, cuts: seq<Cut>, state: Option<string>)
    requires Replays(cfg, y) && k < |Plan(cfg, y)| && Astray(cfg, y, k)
    requires cuts == Plan(cfg, y)[..k] && Traced(cuts, StateOf(y.envelope), state)
    ensures state != Plan(cfg, y)[k].batch.state
  {
    PlanStates(cfg, y, k);
    var p := Plan(cfg, y);
    assert y.resume(StateOf(y.envelope)) == 0;
    if state != StateOf(y.envelope) {
      var j :| 0 <= j < |cuts| && cuts[j].batch.state.Some? && cuts[j].batch.state == state;
      assert cuts[j] == p[j];
      PlanStates(cfg, y, j);
      UptoGrows(cfg, y, j, k);
    }
  }

  lemma StrayRows(cfg: Config, y: Sync, k: nat)
    requires k < |Plan(cfg, y)|
    ensures Plan(cfg, y)[k].upto <= |y.source| && CutRows(Plan(cfg, y)[..k + 1]) == ChunkRows(y.source[..Plan(cfg, y)[k].upto])
  {
    PushesCover(cfg.batchSize, y.source, y.completed, k);
  }

  /** The first attempt commits the batches in front of the stray one. */
  lemma UpToStray(cfg: Config, y: Sync, p: Sys, s: Sys, k: nat) returns (t: Sys)
    requires cfg.maxRows > 0 && Replays(cfg, y) && Restart(cfg, p, s) && SyncStarts(cfg, y, s) && y.first < y.beyond
    requires k <= |Plan(cfg, y)|
    ensures Leads(cfg, y, s, t) && OnItsWay(cfg, y, [], t) && |t.attempts| == y.first + 1
    ensures |Last(t).loaded| == k && Last(t).start == StateOf(y.envelope) && Whole(cfg, t) == Plan(cfg, y)
  {
    StartIsWorking(cfg, y, p, s);
    assert Reachable(cfg, s) && |s.attempts| == y.first;
    hide Restart, SyncStarts, Reachable, Leads, Working, AllOlder, Stock;
    var b := Begin(cfg, y, s);
    FirstReadsAll(cfg, y, b);
    hide Replays, Plan, OnItsWay, Whole;
    t := Drain(cfg, y, [], b, k);
    SameWhole(cfg, b, t);
    Both(cfg, y, s, b, t);
  }

  /** A batch with a state that is not in the checkpoint moves it. */
  lemma NewStateMoves(cfg: Config, s: Sys, t: Sys, b: Batch)
    requires s.run.Some? && t.run.Some? && SpotOf(t) == SpotAfter(cfg, SpotOf(s), b)
    requires b.state.Some? && StateOf(s.line.envelope) != b.state
    ensures t.run.value.since == 0 && StateOf(t.line.envelope) == b.state
  {
  }

  lemma StrayHasState(cfg: Config, y: Sync, k: nat)
    requires k < |Plan(cfg, y)| && Astray(cfg, y, k)
    ensures Plan(cfg, y)[k].batch.state.Some?
  {
  }

  lemma WayIsTraced(cfg: Config, y: Sync, base: seq<Row>, s: Sys)
    requires cfg.maxRows > 0 && OnItsWay(cfg, y, base, s)
    ensures s.run.Some? && s.attempts != [] && Traced(Cuts(Last(s).loaded), Last(s).start, StateOf(s.line.envelope))
  {
    hide Reachable, Working, AllOlder, Stock, Traced;
  }

  /** It commits the stray one, too, which moves the checkpoint. */
  lemma CommitStray(cfg: Config, y: Sync, s: Sys, k: nat) returns (t: Sys)
    requires cfg.maxRows > 0 && Replays(cfg, y) && OnItsWay(cfg, y, [], s) && k < |Plan(cfg, y)| && Astray(cfg, y, k)
    requires |Last(s).loaded| == k && Last(s).start == StateOf(y.envelope) && Whole(cfg, s) == Plan(cfg, y)
    ensures Leads(cfg, y, s, t) && OnItsWay(cfg, y, [], t) && |t.attempts| == |s.attempts|
    ensures t.run.value.since == 0 && StateOf(t.line.envelope) == Plan(cfg, y)[k].batch.state
    ensures |Last(t).loaded| == k + 1 && Whole(cfg, t) == Plan(cfg, y)
  {
    hide *;
    LoadedPrefix(cfg, y, [], s);
    WayIsTraced(cfg, y, [], s);
    StateIsNew(cfg, y, k, Cuts(Last(s).loaded), StateOf(s.line.envelope));
    StrayHasState(cfg, y, k);
    t := OneMore(cfg, y, [], s);
    SameWhole(cfg, s, t);
    WayIsTraced(cfg, y, [], t);
    NewStateMoves(cfg, s, t, Plan(cfg, y)[k].batch);
  }

  /** The first attempt commits the batches up to and including the stray one. */
  lemma FirstAttempt(cfg: Config, y: Sync, p: Sys, s: Sys, k: nat) returns (t: Sys)
    requires cfg.maxRows > 0 && Replays(cfg, y) && Restart(cfg, p, s) && SyncStarts(cfg, y, s) && y.first < y.beyond
    requires k < |Plan(cfg, y)| && Astray(cfg, y, k)
    ensures Leads(cfg, y, s, t) && Reachable(cfg, t) && Working(y, t) && |t.attempts| == y.first + 1
    ensures AllOlder(cfg, y, t.dest.tokens, t.line.version, 0) && StateOf(t.line.envelope) == Plan(cfg, y)[k].batch.state
    ensures Plan(cfg, y)[k].upto <= |y.source| && Stock(cfg, y, t) == ChunkRows(y.source[..Plan(cfg, y)[k].upto])
  {
    hide *;
    var m := UpToStray(cfg, y, p, s, k);
    t := CommitStray(cfg, y, m, k);
    Both(cfg, y, s, m, t);
    LoadedPrefix(cfg, y, [], t);
    WayIsWorking(cfg, y, [], t);
    StrayRows(cfg, y, k);
  }

  /** The next attempt reads everything behind the state it finds, and succeeds. */
  lemma SecondAttempt(cfg: Config, y: Sync, s: Sys) returns (t: Sys, e: Event)
    requires cfg.maxRows > 0 && Replays(cfg, y) && Reachable(cfg, s) && Working(y, s) && s.run.None?
    requires y.first <= |s.attempts| < y.beyond && AllOlder(cfg, y, s.dest.tokens, s.line.version, 0)
    requires y.resume(StateOf(s.line.envelope)) <= |y.source|
    ensures Leads(cfg, y, s, t) && Succeeds(y, t, e)
    ensures Stock(cfg, y, t) == Stock(cfg, y, s) + ChunkRows(y.source[y.resume(StateOf(s.line.envelope))..])
  {
    var rest := y.source[y.resume(StateOf(s.line.envelope))..];
    var b := Begin(cfg, y, s);
    WholeIsRest(cfg, y, b);
    PushesAreAllRows(cfg.batchSize, rest, y.completed);
    hide Reachable, Leads, Replays, Working, AllOlder, Stock, CutRows, Pushes, Whole, OnItsWay;
    t, e := FinishAttempt(cfg, y, Stock(cfg, y, s), b);
    Both(cfg, y, s, b, t);
  }

  /** The rows the chunks in between hold. */
  function Span(chunks: seq<Chunk>, i: nat, j: nat): seq<Row>
    requires i <= j <= |chunks|
  {
    ChunkRows(chunks[i..j])
  }

  lemma ThreeParts(chunks: seq<Chunk>, i: nat, j: nat)
    requires i <= j <= |chunks|
    ensures chunks[..j] == chunks[..i] + chunks[i..j] && chunks[i..] == chunks[i..j] + chunks[j..]
    ensures chunks == (chunks[..i] + chunks[i..j]) + chunks[j..]
  {
  }

  lemma OverlapIsTwice(chunks: seq<Chunk>, i: nat, j: nat)
    requires i <= j <= |chunks|
    ensures ChunkRows(chunks[..j]) + ChunkRows(chunks[i..])
      == ChunkRows(chunks[..i]) + Span(chunks, i, j) + Span(chunks, i, j) + ChunkRows(chunks[j..])
    ensures ChunkRows(chunks) == ChunkRows(chunks[..i]) + Span(chunks, i, j) + ChunkRows(chunks[j..])
  {
    hide ChunkRows;
    var a, b, c := chunks[..i], chunks[i..j], chunks[j..];
    ThreeParts(chunks, i, j);
    ChunkRowsAppend(a, b);
    ChunkRowsAppend(b, c);
    ChunkRowsAppend(a + b, c);
    Assoc(ChunkRows(a) + ChunkRows(b), ChunkRows(b), ChunkRows(c));
  }

  /** A run of the sync that starts in `s` and records a success. */
  ghost predicate SuccessfulRun(cfg: Config, y: Sync, s: Sys, states: seq<Sys>, acts: seq<Act>, e: Event)
    requires cfg.maxRows > 0
  {
    IsSync(cfg, y, states, acts) && states[0] == s && Succeeds(y, states[|acts|], e)
  }

  /**
   Whenever a batch of the sync resumes in front of its last chunk, the sync has a successful run, with
   one crash right behind the commit of that batch, in which the chunks in between are stored twice.
   */
  lemma StrayBatchRepeatsRows(cfg: Config, y: Sync, p: Sys, s: Sys, k: nat) returns (states: seq<Sys>, acts: seq<Act>, e: Event)
    requires cfg.maxRows > 0 && Replays(cfg, y) && Restart(cfg, p, s) && SyncStarts(cfg, y, s) && y.first + 2 <= y.beyond
    requires k < |Plan(cfg, y)| && Astray(cfg, y, k)
    ensures SuccessfulRun(cfg, y, s, states, acts, e)
    ensures var c := Plan(cfg, y)[k];
      var i := y.resume(c.batch.state);
      && i < c.upto <= |y.source|
      && Stock(cfg, y, states[|acts|])
         == ChunkRows(y.source[..i]) + Span(y.source, i, c.upto) + Span(y.source, i, c.upto) + ChunkRows(y.source[c.upto..])
  {
    PlanStates(cfg, y, k);
    var c := Plan(cfg, y)[k];
    OverlapIsTwice(y.source, y.resume(c.batch.state), c.upto);
    var m := FirstAttempt(cfg, y, p, s, k);
    hide Restart, SyncStarts, SyncStep, Reachable, Replays, Working, AllOlder, Plan, Stock, ChunkRows, Span;
    var u := CrashAndRestart(cfg, y, m);
    SameStock(cfg, y, m, u);
    var t;
    t, e := SecondAttempt(cfg, y, u);
    Both(cfg, y, s, m, u);
    Both(cfg, y, s, u, t);
    states, acts :| Joins(cfg, y, s, t, states, acts);
  }

  /** Every successful run leaves the rows of the source, each once. */
  ghost predicate AlwaysOnce(cfg: Config, y: Sync, s: Sys)
    requires cfg.maxRows > 0
  {
    forall states, acts, e :: SuccessfulRun(cfg, y, s, states, acts, e) ==> Stock(cfg, y, states[|acts|]) == ChunkRows(y.source)
  }

  /** A batch that resumes in front of chunks that hold rows. */
  predicate StraysOverRows(cfg: Config, y: Sync, k: nat)
    requires k < |Plan(cfg, y)|
  {
    Astray(cfg, y, k)
    && var c := Plan(cfg, y)[k];
      var i := y.resume(c.batch.state);
      i <= c.upto <= |y.source| && Span(y.source, i, c.upto) != []
  }

  /** Rows are never repeated only if no batch strays over rows. */
  lemma OnceNeedsNoStray(cfg: Config, y: Sync, p: Sys, s: Sys, k: nat)
    requires cfg.maxRows > 0 && Replays(cfg, y) && Restart(cfg, p, s) && SyncStarts(cfg, y, s) && y.first + 2 <= y.beyond
    requires k < |Plan(cfg, y)| && StraysOverRows(cfg, y, k)
    ensures !AlwaysOnce(cfg, y, s)
  {
    var c := Plan(cfg, y)[k];
    var i := y.resume(c.batch.state);
    hide Restart, SyncStarts, Replays, Plan, Stock, SuccessfulRun, Span;
    var states, acts, e := StrayBatchRepeatsRows(cfg, y, p, s, k);
    OverlapIsTwice(y.source, i, c.upto);
    hide ChunkRows;
    TwiceIsLonger(ChunkRows(y.source[..i]), Span(y.source, i, c.upto), ChunkRows(y.source[c.upto..]));
  }

  lemma TwiceIsLonger(a: seq<Row>, b: seq<Row>, c: seq<Row>)
    requires b != []
    ensures a + b + b + c != a + b + c
  {
    assert |a + b + b + c| > |a + b + c|;
  }

  lemma AlignedIsOnce(cfg: Config, y: Sync, s: Sys)
    requires cfg.maxRows > 0 && Replays(cfg, y) && Aligned(cfg, y)
    ensures AlwaysOnce(cfg, y, s)
  {
    hide Replays, Aligned, SyncStarts, SyncStep, Kept, RowsOf, ChunkRows;
    forall states, acts, e | SuccessfulRun(cfg, y, s, states, acts, e)
      ensures Stock(cfg, y, states[|acts|]) == ChunkRows(y.source)
    {
      SuccessIsExactlyOnce(cfg, y, states, acts, e);
    }
  }

  lemma RowsBetween(chunks: seq<Chunk>, i: nat, j: nat)
    requires i < j <= |chunks| && chunks[j - 1].rows != []
    ensures Span(chunks, i, j) != []
  {
  }

  lemma NotAligned(cfg: Config, y: Sync) returns (k: nat)
    requires Replays(cfg, y) && !Aligned(cfg, y)
    requires forall i :: 0 <= i < |y.source| ==> y.source[i].rows != []
    ensures k < |Plan(cfg, y)| && StraysOverRows(cfg, y, k)
  {
    var p := Plan(cfg, y);
    k :| 0 <= k < |p| && p[k].batch.state.Some? && y.resume(p[k].batch.state) != p[k].upto;
    PlanStates(cfg, y, k);
    hide Replays, Plan, Span;
    assert y.source[p[k].upto - 1].rows != [];
    RowsBetween(y.source, y.resume(p[k].batch.state), p[k].upto);
  }

  /**
   The exact condition: when every chunk holds a row and two attempts are allowed, all successful runs
   store every row once if and only if every batch with state takes it from its last chunk.
   */
  lemma ExactlyOnceIffAligned(cfg: Config, y: Sync, p: Sys, s: Sys)
    requires cfg.maxRows > 0 && Replays(cfg, y) && Restart(cfg, p, s) && SyncStarts(cfg, y, s) && y.first + 2 <= y.beyond
    requires forall i :: 0 <= i < |y.source| ==> y.source[i].rows != []
    ensures AlwaysOnce(cfg, y, s) <==> Aligned(cfg, y)
  {
    if Aligned(cfg, y) {
      AlignedIsOnce(cfg, y, s);
    } else {
      hide *;
      var k := NotAligned(cfg, y);
      OnceNeedsNoStray(cfg, y, p, s, k);
    }
  }
}
