/**
 How many rows the ingestion protocol buffers between the reader and the destination, over every run.
 */
module IngestionBuffers {
  import opened Wrappers
  import opened Journal
  import opened Batching
  import opened Loading
  import opened Ingestion
  import opened IngestionInvariant
  import opened IngestionSteps
  import opened IngestionSafety
  import Appends

  /** No reader yields a chunk above the limit; one that does is rejected before its rows are taken. */
  ghost predicate ReaderBounded(cfg: Config, maxChunkRows: nat) {
    forall a: nat, start :: ChunksBounded(cfg.read(a, start), maxChunkRows)
  }

  function BatchLimit(cfg: Config, maxChunkRows: nat): nat
    requires cfg.batchSize > 0
  {
    cfg.batchSize - 1 + maxChunkRows
  }

  ghost predicate Limited(cuts: seq<Cut>, limit: nat) {
    forall k :: 0 <= k < |cuts| ==> |cuts[k].batch.rows| <= limit
  }

  /** Rows the producer still accumulates. */
  function HeldRows(cfg: Config, atts: seq<Attempt>): nat {
    if atts == [] || atts[|atts| - 1].ended then 0 else |Held(cfg, |atts| - 1, atts[|atts| - 1]).rows|
  }

  function InHandRows(c: Consumer): nat {
    if c.Loading? then |c.cut.batch.rows| else 0
  }

  ghost predicate QueueOk(cfg: Config, m: nat, r: Run)
    requires cfg.batchSize > 0
  {
    |r.queue| <= Max(1, cfg.queueLimit) && Limited(r.queue, BatchLimit(cfg, m)) && InHandRows(r.consumer) <= BatchLimit(cfg, m)
  }

  ghost predicate BuffersOk(cfg: Config, m: nat, run: Option<Run>, atts: seq<Attempt>)
    requires cfg.batchSize > 0
  {
    run.Some? ==> QueueOk(cfg, m, run.value) && |CutRows(run.value.handoff)| + HeldRows(cfg, atts) <= BatchLimit(cfg, m)
  }

  lemma {:induction false} HeadRows(cuts: seq<Cut>)
    requires cuts != []
    ensures |CutRows(cuts)| == |cuts[0].batch.rows| + |CutRows(cuts[1..])|
  {
    assert cuts == [cuts[0]] + cuts[1..];
    CutRowsAppend([cuts[0]], cuts[1..]);
    CutRowsOne(cuts[0]);
  }

  lemma PushStaysSmall(cfg: Config, m: nat, s: Sys, t: Sys)
    requires cfg.batchSize > 0 && Push(cfg, s, t) && BuffersOk(cfg, m, s.run, s.attempts)
    ensures BuffersOk(cfg, m, t.run, t.attempts)
  {
    hide CutRows, HeldRows;
    HeadRows(s.run.value.handoff);
  }

  lemma PopStaysSmall(cfg: Config, m: nat, s: Sys, t: Sys)
    requires cfg.batchSize > 0 && Pop(cfg, s, t) && BuffersOk(cfg, m, s.run, s.attempts)
    ensures BuffersOk(cfg, m, t.run, t.attempts)
  {
    hide CutRows, HeldRows, BatchIdFor;
  }

  /** What the producer holds is below the batch size whenever it may read on. */
  lemma HeldIsSmall(cfg: Config, m: nat, a: nat, att: Attempt)
    requires cfg.batchSize > 0 && ReaderBounded(cfg, m)
    ensures |Held(cfg, a, att).rows| < cfg.batchSize
  {
    hide Read;
    var chunks := cfg.read(a, att.start);
    assert ChunksBounded(chunks, m);
    assert forall i :: 0 <= i < |Seen(cfg, a, att)| ==> |Seen(cfg, a, att)[i].rows| <= m;
    BatchesBounded(cfg.batchSize, Seen(cfg, a, att), m);
  }

  lemma PullHolds(cfg: Config, m: nat, a: nat, att: Attempt)
    requires cfg.batchSize > 0 && ReaderBounded(cfg, m) && att.pos < |Chunks(cfg, a, att)|
    ensures var pushed := Feed(cfg.batchSize, Held(cfg, a, att), Chunks(cfg, a, att)[att.pos], att.pos).pushed;
      |CutRows(pushed)| + |Held(cfg, a, att.(pos := att.pos + 1)).rows| <= BatchLimit(cfg, m)
  {
    var chunks := Chunks(cfg, a, att);
    var c, held := chunks[att.pos], Held(cfg, a, att);
    HeldIsSmall(cfg, m, a, att);
    assert |c.rows| <= m by {
      assert ChunksBounded(cfg.read(a, att.start), m);
    }
    assert chunks[..att.pos + 1] == chunks[..att.pos] + [c];
    hide Feed, CutRows;
    ReadAppend(cfg.batchSize, chunks[..att.pos], c);
    FeedConserves(cfg.batchSize, held, c, att.pos);
    var f := Feed(cfg.batchSize, held, c, att.pos);
    assert |CutRows(f.pushed) + f.pending.rows| == |held.rows + c.rows|;
  }

  lemma PullStaysSmall(cfg: Config, m: nat, s: Sys, t: Sys)
    requires cfg.batchSize > 0 && ReaderBounded(cfg, m) && Pull(cfg, s, t) && BuffersOk(cfg, m, s.run, s.attempts)
    ensures BuffersOk(cfg, m, t.run, t.attempts)
  {
    hide CutRows, Feed, Held, QueueOk, ReaderBounded;
    PullHolds(cfg, m, |s.attempts| - 1, Last(s));
    assert QueueOk(cfg, m, t.run.value) by {
      SameQueue(cfg, m, s.run.value, t.run.value);
    }
  }

  lemma SameQueue(cfg: Config, m: nat, r: Run, r': Run)
    requires cfg.batchSize > 0 && QueueOk(cfg, m, r) && r'.queue == r.queue && InHandRows(r'.consumer) <= InHandRows(r.consumer)
    ensures QueueOk(cfg, m, r')
  {
  }

  lemma FlushRows(pending: Batch, completed: Option<string>, upto: nat)
    ensures |CutRows(Flush(pending, completed, upto))| <= |pending.rows|
  {
    var f := Flush(pending, completed, upto);
    if f != [] {
      CutRowsOne(f[0]);
    }
  }

  lemma EndStaysSmall(cfg: Config, m: nat, s: Sys, act: Act, t: Sys)
    requires cfg.maxRows > 0 && cfg.batchSize > 0 && ReaderBounded(cfg, m) && (act.EndsRead? || act.CutsRead?) && Does(cfg, s, act, t)
    requires BuffersOk(cfg, m, s.run, s.attempts)
    ensures BuffersOk(cfg, m, t.run, t.attempts)
  {
    hide CutRows, Flush, Held, QueueOk, ReaderBounded;
    var a, att := |s.attempts| - 1, Last(s);
    HeldIsSmall(cfg, m, a, att);
    FlushRows(Held(cfg, a, att), cfg.complete(a, att.start), |Seen(cfg, a, att)|);
    FlushRows(Held(cfg, a, att), None, |Seen(cfg, a, att)|);
    SameQueue(cfg, m, s.run.value, t.run.value);
  }

  lemma FreshStaysSmall(cfg: Config, m: nat, s: Sys, t: Sys)
    requires cfg.batchSize > 0 && StartAttempt(s, t)
    ensures BuffersOk(cfg, m, t.run, t.attempts)
  {
    hide OpenEnded;
    assert Seen(cfg, |s.attempts|, Last(t)) == [];
  }

  /** Loading and committing do not change what the producer holds. */
  lemma CommitStaysSmall(cfg: Config, m: nat, s: Sys, act: Act, t: Sys)
    requires cfg.maxRows > 0 && cfg.batchSize > 0 && (act.LoadIsDone? || act.ConfirmsCommit?) && Does(cfg, s, act, t)
    requires BuffersOk(cfg, m, s.run, s.attempts)
    ensures BuffersOk(cfg, m, t.run, t.attempts)
  {
    hide CutRows, QueueOk, Read, CommitFor, UnitPending, Appends.Next, Appends.Enabled;
    SameQueue(cfg, m, s.run.value, t.run.value);
  }

  lemma OthersStaySmall(cfg: Config, m: nat, s: Sys, act: Act, t: Sys)
    requires cfg.maxRows > 0 && cfg.batchSize > 0 && Does(cfg, s, act, t) && BuffersOk(cfg, m, s.run, s.attempts)
    requires !act.PushesOne? && !act.Pops? && !act.Pulls? && !act.EndsRead? && !act.CutsRead? && !act.StartsAttempt?
      && !act.LoadIsDone? && !act.ConfirmsCommit?
    ensures BuffersOk(cfg, m, t.run, t.attempts)
  {
    hide CutRows, HeldRows, QueueOk, Appends.Next, Appends.Enabled, UnitCount, Writes, Drained, OpenEnded;
    if s.run.Some? && t.run.Some? {
      assert QueueOk(cfg, m, s.run.value) ==> QueueOk(cfg, m, t.run.value) by {
        if QueueOk(cfg, m, s.run.value) {
          SameQueue(cfg, m, s.run.value, t.run.value);
        }
      }
    }
  }

  lemma StepStaysSmall(cfg: Config, m: nat, s: Sys, act: Act, t: Sys)
    requires cfg.maxRows > 0 && cfg.batchSize > 0 && ReaderBounded(cfg, m) && Does(cfg, s, act, t)
    requires BuffersOk(cfg, m, s.run, s.attempts)
    ensures BuffersOk(cfg, m, t.run, t.attempts)
  {
    hide BuffersOk, ReaderBounded, Push, Pop, Pull, EndRead, CutRead, StartAttempt, LoadDone, ConfirmCommit;
    match act
    case PushesOne => PushStaysSmall(cfg, m, s, t);
    case Pops => PopStaysSmall(cfg, m, s, t);
    case Pulls => PullStaysSmall(cfg, m, s, t);
    case EndsRead => EndStaysSmall(cfg, m, s, act, t);
    case CutsRead => EndStaysSmall(cfg, m, s, act, t);
    case StartsAttempt => FreshStaysSmall(cfg, m, s, t);
    case LoadIsDone => CommitStaysSmall(cfg, m, s, act, t);
    case ConfirmsCommit => CommitStaysSmall(cfg, m, s, act, t);
    case _ =>
      hide Does;
      OthersStaySmall(cfg, m, s, act, t);
  }

  lemma {:induction false} RunsStaySmall(cfg: Config, m: nat, states: seq<Sys>, acts: seq<Act>)
    requires cfg.maxRows > 0 && cfg.batchSize > 0 && ReaderBounded(cfg, m) && IsRun(cfg, states, acts)
    ensures BuffersOk(cfg, m, states[|acts|].run, states[|acts|].attempts)
  {
    hide ReaderBounded, Does;
    if acts != [] {
      var n := |acts| - 1;
      RunsStaySmall(cfg, m, states[..n + 1], acts[..n]);
      hide BuffersOk;
      StepStaysSmall(cfg, m, states[n], acts[n], states[n + 1]);
    }
  }

  lemma {:induction false} LimitedRows(cuts: seq<Cut>, limit: nat)
    requires Limited(cuts, limit)
    ensures |CutRows(cuts)| <= |cuts| * limit
  {
    if cuts != [] {
      LimitedRows(cuts[..|cuts| - 1], limit);
      assert |cuts| * limit == (|cuts| - 1) * limit + limit;
    }
  }

  /** All rows between the reader and the sink: accumulating, handed over, queued, being loaded. */
  function BufferedRows(cfg: Config, s: Sys): nat {
    if s.run.None? then 0
    else |CutRows(s.run.value.queue)| + InHandRows(s.run.value.consumer) + |CutRows(s.run.value.handoff)| + HeldRows(cfg, s.attempts)
  }

  /** The buffered rows have a fixed bound in the queue capacity, in every state of every run. */
  lemma BufferedRowsAreBounded(cfg: Config, m: nat, states: seq<Sys>, acts: seq<Act>)
    requires cfg.maxRows > 0 && cfg.batchSize > 0 && ReaderBounded(cfg, m) && IsRun(cfg, states, acts)
    ensures BufferedRows(cfg, states[|acts|]) <= (Max(1, cfg.queueLimit) + 2) * (cfg.batchSize - 1 + m)
  {
    var s, limit := states[|acts|], BatchLimit(cfg, m);
    RunsStaySmall(cfg, m, states, acts);
    hide IsRun, ReaderBounded, CutRows, HeldRows;
    if s.run.Some? {
      LimitedRows(s.run.value.queue, limit);
      Scale(|s.run.value.queue|, Max(1, cfg.queueLimit), limit);
    } else {
      Scale(0, Max(1, cfg.queueLimit), limit);
    }
  }

  lemma Scale(a: nat, b: nat, limit: nat)
    requires a <= b
    ensures a * limit + 2 * limit <= (b + 2) * limit
  {
    assert (b + 2) * limit == b * limit + 2 * limit;
    assert b * limit == a * limit + (b - a) * limit;
  }
}
