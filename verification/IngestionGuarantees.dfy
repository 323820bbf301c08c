/**
 What the ingestion protocol promises over every run, stated without its internals.
 */
module IngestionGuarantees {
  import opened Wrappers
  import opened Digest
  import opened Journal
  import opened Batching
  import opened Loading
  import opened Ingestion
  import opened IngestionInvariant
  import opened IngestionSteps
  import opened IngestionSafety
  import Appends

  /** What completing the selection of an attempt may claim, once it was read to its end. */
  function Completion(cfg: Config, a: nat, att: Attempt): Option<string> {
    if att.ended && !att.cutShort then cfg.complete(a, att.start) else None
  }

  /**
   The batch numbered `k` of an attempt and all batches before it have sink evidence, and together they
   hold exactly the rows of the chunks read up to that batch.
   */
  ghost predicate RowsAcknowledged(cfg: Config, a: nat, att: Attempt, tokens: set<Token>, k: nat)
    requires cfg.maxRows > 0
  {
    && k < |att.loaded| == |Cuts(att.loaded)|
    && (forall j :: 0 <= j <= k ==> UnitsIn(cfg, att.loaded[j], tokens))
    && var upto := att.loaded[k].cut.upto;
      upto <= |Chunks(cfg, a, att)| && CutRows(Cuts(att.loaded)[..k + 1]) == ChunkRows(Chunks(cfg, a, att)[..upto])
  }

  /** The state a batch carries belongs to a chunk it covers, or to the whole selection. */
  ghost predicate StateEarned(cfg: Config, a: nat, att: Attempt, k: nat) {
    k < |att.loaded| && StateFrom(Chunks(cfg, a, att), Completion(cfg, a, att), att.loaded[k].cut)
  }

  lemma PrefixTake<T>(p: seq<T>, q: seq<T>, n: nat)
    requires p <= q && n <= |p|
    ensures p[..n] == q[..n]
  {
  }

  lemma PushedCovers(cfg: Config, a: nat, att: Attempt, k: nat)
    requires att.pos <= |Chunks(cfg, a, att)| && k < |Pushed(cfg, a, att)|
    ensures var p, chunks := Pushed(cfg, a, att), Chunks(cfg, a, att);
      && p[k].upto <= |chunks| && CutRows(p[..k + 1]) == ChunkRows(chunks[..p[k].upto])
  {
    var p, chunks := Pushed(cfg, a, att), Chunks(cfg, a, att);
    hide Read, CutRows, ChunkRows, Flush;
    var seen := Seen(cfg, a, att);
    if att.ended {
      PushesCover(cfg.batchSize, seen, if att.cutShort then None else cfg.complete(a, att.start), k);
    } else {
      PushCovers(cfg.batchSize, seen, k);
    }
    ChunkRowsPrefix(chunks, att.pos, p[k].upto);
  }

  lemma PushedState(cfg: Config, a: nat, att: Attempt, k: nat)
    requires att.pos <= |Chunks(cfg, a, att)| && (att.ended && !att.cutShort ==> att.pos == |Chunks(cfg, a, att)|)
    requires k < |Pushed(cfg, a, att)| && Pushed(cfg, a, att)[k].batch.state.Some?
    ensures StateFrom(Chunks(cfg, a, att), Completion(cfg, a, att), Pushed(cfg, a, att)[k])
  {
    hide Read, Flush;
    var seen, c := Seen(cfg, a, att), Pushed(cfg, a, att)[k];
    if att.ended {
      PushedStateOrigin(cfg.batchSize, seen, if att.cutShort then None else cfg.complete(a, att.start), k);
    } else {
      assert Pushes(cfg.batchSize, seen, None)[k] == c;
      PushedStateOrigin(cfg.batchSize, seen, None, k);
    }
    if j: nat :| j < c.upto && seen[j].state == c.batch.state {
      assert Chunks(cfg, a, att)[j].state == c.batch.state;
    }
  }

  /** Whatever an attempt loaded covers exactly the rows read so far, and earned the state it carries. */
  lemma LoadedIsCovered(cfg: Config, a: nat, att: Attempt, tokens: set<Token>, k: nat)
    requires cfg.maxRows > 0 && AttemptOk(cfg, a, att, tokens) && k < |att.loaded|
    ensures RowsAcknowledged(cfg, a, att, tokens, k)
    ensures att.loaded[k].cut.batch.state.Some? ==> StateEarned(cfg, a, att, k)
  {
    hide Pushed, Cuts, CutRows, ChunkRows, UnitsIn, StateFrom;
    CutsAt(att.loaded, k);
    var p := Pushed(cfg, a, att);
    assert Cuts(att.loaded)[k] == p[k];
    PushedCovers(cfg, a, att, k);
    PrefixTake(Cuts(att.loaded), p, k + 1);
    if att.loaded[k].cut.batch.state.Some? {
      PushedState(cfg, a, att, k);
    }
  }

  /**
   A state is safe when the batch that carries it, and all before it in its attempt, are acknowledged
   and earned it, and the state that attempt started from is safe, back to the first attempt.
   */
  ghost predicate Safe(cfg: Config, atts: seq<Attempt>, tokens: set<Token>, a: nat, k: nat, state: string)
    requires cfg.maxRows > 0
    decreases a
  {
    && a < |atts| && RowsAcknowledged(cfg, a, atts[a], tokens, k) && StateEarned(cfg, a, atts[a], k)
    && atts[a].loaded[k].cut.batch.state == Some(state)
    && (atts[a].start.Some? ==> exists b: nat, m: nat :: b < a && Safe(cfg, atts, tokens, b, m, atts[a].start.value))
  }

  lemma {:induction false} CarriedIsSafe(cfg: Config, atts: seq<Attempt>, tokens: set<Token>, a: nat, k: nat, state: string)
    requires cfg.maxRows > 0 && AttemptsOk(cfg, atts, tokens) && StartsOk(atts)
    requires a < |atts| && k < |atts[a].loaded| && atts[a].loaded[k].cut.batch.state == Some(state)
    ensures Safe(cfg, atts, tokens, a, k, state)
    decreases a
  {
    hide AttemptOk, RowsAcknowledged, StateEarned;
    assert AttemptOk(cfg, a, atts[a], tokens) && StartOk(atts, a, atts[a]);
    hide AttemptsOk, StartsOk;
    LoadedIsCovered(cfg, a, atts[a], tokens, k);
    if atts[a].start.Some? {
      var b: nat, m: nat :| b < a && b < |atts| && m < |atts[b].loaded| && atts[b].loaded[m].cut.batch.state == Some(atts[a].start.value);
      CarriedIsSafe(cfg, atts, tokens, b, m, atts[a].start.value);
    }
  }

  lemma CheckpointIsSafe(cfg: Config, s: Sys)
    requires cfg.maxRows > 0 && Reachable(cfg, s)
    ensures var read := ReadCheckpoint(cfg.scope, s.line.rows);
      && read.Projected?
      && (read.checkpoint.envelope.Some? ==>
            exists a, k :: Safe(cfg, s.attempts, s.dest.tokens, a, k, read.checkpoint.envelope.value.state))
  {
    hide StartsOk, PipelineOk, ConsumerOk, RequestsOk, OrderOk, LifeOk, PendingOk, FactsBacked, CommitsStored, Safe, AttemptsOk,
         Appends.Inv, ReadCheckpoint, Projection;
    Appends.CheckpointIsReadable(cfg.scope, s.line);
    var envelope := Projection(s.line.rows).envelope;
    if envelope.Some? {
      EnvelopeIsCarried(cfg, s);
      var b: nat, k: nat :| b < |s.attempts| && k < |s.attempts[b].loaded|
        && s.attempts[b].loaded[k].cut.batch.state == Some(envelope.value.state);
      CarriedIsSafe(cfg, s.attempts, s.dest.tokens, b, k, envelope.value.state);
    }
  }

  /**
   In every reachable state, through any interleaving of producer, consumer, retries, abandoned
   attempts, lost answers, cancellation, crashes and restarts, the journal is readable and its
   checkpoint covers only rows the sink acknowledged, back to the very first attempt.
   */
  lemma NoUnacknowledgedCheckpoint(cfg: Config, states: seq<Sys>, acts: seq<Act>)
    requires cfg.maxRows > 0 && IsRun(cfg, states, acts)
    ensures var s := states[|acts|];
      var read := ReadCheckpoint(cfg.scope, s.line.rows);
      && read.Projected?
      && (read.checkpoint.envelope.Some? ==>
            exists a, k :: Safe(cfg, s.attempts, s.dest.tokens, a, k, read.checkpoint.envelope.value.state))
  {
    hide Reachable, Does, ReadCheckpoint, Safe;
    RunsStayReachable(cfg, states, acts);
    CheckpointIsSafe(cfg, states[|acts|]);
  }

  // ----- success -----

  /** Every yielded row was acknowledged, and every batch that holds them was committed. */
  ghost predicate EverythingLoaded(cfg: Config, s: Sys, a: nat)
    requires cfg.maxRows > 0
  {
    && a < |s.attempts|
    && var att := s.attempts[a];
      && CutRows(Cuts(att.loaded)) == ChunkRows(Chunks(cfg, a, att))
      && forall k :: 0 <= k < |att.loaded| ==> UnitsIn(cfg, att.loaded[k], s.dest.tokens) && CommitStored(s.line.rows, a, att.loaded[k])
  }

  lemma CompleteIsEverything(cfg: Config, s: Sys, a: nat)
    requires cfg.maxRows > 0 && Inv(cfg, s) && Complete(cfg, s.attempts, a)
    ensures EverythingLoaded(cfg, s, a)
  {
    hide PipelineOk, ConsumerOk, RequestsOk, OrderOk, LifeOk, PendingOk, FactsBacked, Appends.Inv, CutRows, ChunkRows, Read, Cuts, UnitsIn, CommitStored, Chunks;
    var att := s.attempts[a];
    assert AttemptOk(cfg, a, att, s.dest.tokens);
    assert Seen(cfg, a, att) == Chunks(cfg, a, att);
    PushesAreAllRows(cfg.batchSize, Chunks(cfg, a, att), cfg.complete(a, att.start));
  }

  /** The recorded outcome `succeeded` means every yielded row was acknowledged and committed. */
  lemma SuccessMeansEverything(cfg: Config, states: seq<Sys>, acts: seq<Act>, e: Event)
    requires cfg.maxRows > 0 && IsRun(cfg, states, acts)
    requires e in states[|acts|].line.rows && e.kind.WorkFinished? && e.workState.Succeeded?
    ensures EverythingLoaded(cfg, states[|acts|], e.attemptNo)
  {
    var s := states[|acts|];
    RunsStayReachable(cfg, states, acts);
    hide IsRun, AttemptsOk, PipelineOk, ConsumerOk, RequestsOk, OrderOk, LifeOk, PendingOk, CommitsStored, Appends.Inv, StartsOk, EverythingLoaded, Complete;
    assert FactBacked(cfg, s.attempts, e);
    CompleteIsEverything(cfg, s, e.attemptNo);
  }

  // ----- the guards do not stop the executor -----

  /** A waiting commit always fits: while nothing was cancelled, the write the chain asks for is enabled. */
  lemma CommitIsNeverRefused(cfg: Config, s: Sys, e: Event)
    requires cfg.maxRows > 0 && Inv(cfg, s) && s.line.live && !s.line.poisoned && !s.aborted && s.line.pending.None?
    requires s.chain != [] && Writes(s.chain[0], e) && e.seqNo == s.line.seqNo + 1
    ensures Appends.Enabled(cfg.scope, s.line, Appends.StartWrite(e))
  {
    hide AttemptsOk, PipelineOk, ConsumerOk, OrderOk, FactsBacked, CommitsStored, Appends.Inv, Carries, Complete;
    assert RequestOk(cfg, s.line.version, s.line.envelope, s.chain[0], s.run, s.attempts);
  }

  /** A process that died can always be replaced: the checkpoint it left is read, never refused. */
  lemma RestartIsNeverRefused(cfg: Config, states: seq<Sys>, acts: seq<Act>)
    requires cfg.maxRows > 0 && IsRun(cfg, states, acts) && !states[|acts|].line.live
    ensures exists t :: Restart(cfg, states[|acts|], t)
  {
    var s := states[|acts|];
    NoUnacknowledgedCheckpoint(cfg, states, acts);
    hide IsRun, ReadCheckpoint, Safe, Appends.Next;
    var t := s.(line := Appends.Next(cfg.scope, s.line, Appends.Restart), chain := [], aborted := false, run := None);
    assert Restart(cfg, s, t);
  }
}
