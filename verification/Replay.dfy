/**
 One sync of a reader that replays its source: the batches it is cut into, where every batch stands in
 the version history, and why any restart recomputes the same batches with the same identities.
 */
module Replay {
  import opened Wrappers
  import opened Digest
  import opened Journal
  import opened Batching
  import opened Loading
  import opened Ingestion

  /**
   The rows of one sync, from the checkpoint it began with. `resume` says from which chunk the reader
   continues when it is given a committed state; `first` is the first attempt of the sync, `beyond` the
   first one that belongs to a later sync.
   */
  datatype Sync = Sync(
    source: seq<Chunk>, completed: Option<string>, resume: Option<string> -> nat,
    first: nat, beyond: nat, lastSuccess: nat, version: nat, envelope: Option<Envelope>)

  /** The reader is deterministic in the committed state. */
  ghost predicate Replays(cfg: Config, y: Sync) {
    && y.resume(StateOf(y.envelope)) == 0
    && (forall i :: 0 <= i < |y.source| && y.source[i].state.Some? ==> y.resume(y.source[i].state) == i + 1)
    && (y.completed.Some? ==> y.resume(y.completed) == |y.source|)
    && forall a: nat, start :: y.first <= a < y.beyond && y.resume(start) <= |y.source| ==>
      cfg.read(a, start) == y.source[y.resume(start)..] && cfg.complete(a, start) == y.completed
  }

  function Plan(cfg: Config, y: Sync): seq<Cut> {
    Pushes(cfg.batchSize, y.source, y.completed)
  }

  /** A batch that carries state takes it from the last chunk it covers. */
  ghost predicate Aligned(cfg: Config, y: Sync) {
    forall k :: 0 <= k < |Plan(cfg, y)| && Plan(cfg, y)[k].batch.state.Some? ==>
      y.resume(Plan(cfg, y)[k].batch.state) == Plan(cfg, y)[k].upto
  }

  // ----- when batches are aligned -----

  predicate AllIds(chunks: seq<Chunk>) {
    forall i :: 0 <= i < |chunks| ==> chunks[i].id.Some?
  }

  predicate AllState(chunks: seq<Chunk>) {
    forall i :: 0 <= i < |chunks| ==> chunks[i].state.Some?
  }

  predicate NoState(chunks: seq<Chunk>) {
    forall i :: 0 <= i < |chunks| ==> chunks[i].state.None?
  }

  predicate Regroupable(chunks: seq<Chunk>) {
    AllIds(chunks) || AllState(chunks) || NoState(chunks)
  }

  /** This state, if any, is that of the last of the first `upto` chunks. */
  predicate OfLast(chunks: seq<Chunk>, upto: nat, state: Option<string>) {
    state.Some? ==> 0 < upto <= |chunks| && chunks[upto - 1].state == state
  }

  lemma OfLastInFront(front: seq<Chunk>, c: Chunk, upto: nat, state: Option<string>)
    requires OfLast(front, upto, state)
    ensures OfLast(front + [c], upto, state)
  {
  }

  lemma {:induction false} EveryIdIsPushed(batchSize: nat, chunks: seq<Chunk>)
    requires AllIds(chunks)
    ensures Read(batchSize, chunks).pending == EMPTY_BATCH
  {
    if chunks != [] {
      assert chunks[|chunks| - 1].id.Some?;
    }
  }

  lemma {:induction false} ReadTakesLastState(batchSize: nat, chunks: seq<Chunk>)
    requires Regroupable(chunks)
    ensures var r := Read(batchSize, chunks);
      && OfLast(chunks, |chunks|, r.pending.state)
      && forall k :: 0 <= k < |r.pushed| ==> OfLast(chunks, r.pushed[k].upto, r.pushed[k].batch.state)
  {
    if chunks != [] {
      var front, c := chunks[..|chunks| - 1], chunks[|chunks| - 1];
      assert chunks == front + [c];
      assert AllIds(chunks) ==> AllIds(front) && c.id.Some?;
      ReadTakesLastState(batchSize, front);
      if AllIds(chunks) {
        EveryIdIsPushed(batchSize, front);
      }
      var r0 := Read(batchSize, front);
      ReadAppend(batchSize, front, c);
      FeedTakesLastState(batchSize, front, r0.pending, c);
      forall k | 0 <= k < |r0.pushed| ensures OfLast(chunks, r0.pushed[k].upto, r0.pushed[k].batch.state) {
        OfLastInFront(front, c, r0.pushed[k].upto, r0.pushed[k].batch.state);
      }
    }
  }

  lemma FeedTakesLastState(batchSize: nat, front: seq<Chunk>, pending: Batch, c: Chunk)
    requires OfLast(front, |front|, pending.state)
    requires c.state.Some? || pending.state.None? || pending == EMPTY_BATCH
    ensures var f := Feed(batchSize, pending, c, |front|);
      && OfLast(front + [c], |front| + 1, f.pending.state)
      && forall k :: 0 <= k < |f.pushed| ==> OfLast(front + [c], f.pushed[k].upto, f.pushed[k].batch.state)
  {
  }

  /** Every chunk with an id, every chunk with state, or none with state: then batches are aligned. */
  lemma RegroupableIsAligned(cfg: Config, y: Sync)
    requires Replays(cfg, y) && Regroupable(y.source)
    ensures Aligned(cfg, y)
  {
    ReadTakesLastState(cfg.batchSize, y.source);
    var r, p := Read(cfg.batchSize, y.source), Plan(cfg, y);
    forall k | 0 <= k < |p| && p[k].batch.state.Some?
      ensures y.resume(p[k].batch.state) == p[k].upto
    {
      if k < |r.pushed| {
        assert OfLast(y.source, r.pushed[k].upto, r.pushed[k].batch.state);
      }
    }
  }

  // ----- where every batch stands -----

  /** The batch numbered `g`; behind the last one only the empty completion comes again. */
  function BatchAt(cfg: Config, y: Sync, g: nat): Batch {
    if g < |Plan(cfg, y)| then Plan(cfg, y)[g].batch else EMPTY_BATCH.(state := y.completed)
  }

  /** The checkpoint before a batch is committed, and how many batches followed its last advance. */
  datatype Spot = Spot(version: nat, envelope: Option<Envelope>, since: nat)

  function SpotAfter(cfg: Config, spot: Spot, b: Batch): Spot {
    var envelope := NextEnvelope(cfg, b, spot.envelope);
    if envelope != spot.envelope then Spot(spot.version + 1, envelope, 0) else spot.(since := spot.since + 1)
  }

  function Track(cfg: Config, y: Sync, g: nat): Spot {
    if g == 0 then Spot(y.version, y.envelope, 0) else SpotAfter(cfg, Track(cfg, y, g - 1), BatchAt(cfg, y, g - 1))
  }

  /** The batch a restart resumes with when `g` batches are committed. */
  function Base(cfg: Config, y: Sync, g: nat): (b: nat)
    ensures b <= g
    ensures Track(cfg, y, b) == Track(cfg, y, g).(since := 0)
    ensures b == 0 || NextEnvelope(cfg, BatchAt(cfg, y, b - 1), Track(cfg, y, b - 1).envelope) != Track(cfg, y, b - 1).envelope
  {
    if g == 0 || Track(cfg, y, g).since == 0 then g else Base(cfg, y, g - 1)
  }

  /** Positions never share a version and a distance. */
  lemma {:induction false} TrackAdvances(cfg: Config, y: Sync, g: nat, h: nat)
    requires g < h
    ensures var a, b := Track(cfg, y, g), Track(cfg, y, h); a.version < b.version || (a.version == b.version && a.since < b.since)
  {
    if g < h - 1 {
      TrackAdvances(cfg, y, g, h - 1);
    }
  }

  function IdAt(cfg: Config, y: Sync, g: nat): Digest {
    var spot := Track(cfg, y, g);
    BatchId(cfg.scope.namespaceId, y.lastSuccess, spot.version, spot.since, cfg.discriminator(BatchAt(cfg, y, g)))
  }

  lemma IdsDiffer(cfg: Config, y: Sync, g: nat, h: nat)
    requires IdAt(cfg, y, g) == IdAt(cfg, y, h)
    ensures g == h
  {
    var a, b := Track(cfg, y, g), Track(cfg, y, h);
    BatchIdInjective(cfg.scope.namespaceId, y.lastSuccess, a.version, a.since, cfg.discriminator(BatchAt(cfg, y, g)),
                     cfg.scope.namespaceId, y.lastSuccess, b.version, b.since, cfg.discriminator(BatchAt(cfg, y, h)));
    if g < h {
      TrackAdvances(cfg, y, g, h);
    } else if h < g {
      TrackAdvances(cfg, y, h, g);
    }
  }

  // ----- a restart recomputes the rest -----

  /** What the reader is asked for when it resumes from the checkpoint before batch `b`. */
  function Rest(cfg: Config, y: Sync, b: nat): nat {
    y.resume(StateOf(Track(cfg, y, b).envelope))
  }

  /** These pushes are the batches from `b` on. */
  ghost predicate BatchesFrom(cfg: Config, y: Sync, b: nat, pushed: seq<Cut>) {
    forall k :: 0 <= k < |pushed| ==> pushed[k].batch == BatchAt(cfg, y, b + k)
  }

  lemma BatchesOfShift(cfg: Config, y: Sync, b: nat, pushed: seq<Cut>, d: nat)
    requires b <= |Plan(cfg, y)| && Shift(pushed, d) == Plan(cfg, y)[b..]
    ensures BatchesFrom(cfg, y, b, pushed) && b + |pushed| == |Plan(cfg, y)|
  {
    forall k | 0 <= k < |pushed| ensures pushed[k].batch == BatchAt(cfg, y, b + k) {
      ShiftAt(pushed, d, k);
      assert Plan(cfg, y)[b..][k] == Plan(cfg, y)[b + k];
    }
  }

  /** Behind the final flush nothing new is read: only the completion state may be pushed again. */
  lemma RestartBehindTheEnd(cfg: Config, y: Sync, n: nat)
    requires n == |Plan(cfg, y)|
    ensures BatchesFrom(cfg, y, n, Pushes(cfg.batchSize, [], y.completed))
  {
  }

  /** Once everything was pushed the checkpoint stands. */
  lemma NoAdvanceBehindTheEnd(cfg: Config, y: Sync, g: nat)
    requires g >= |Plan(cfg, y)|
    ensures NextEnvelope(cfg, BatchAt(cfg, y, g), Track(cfg, y, g).envelope) == Track(cfg, y, g).envelope
  {
    var p := Plan(cfg, y);
    if y.completed.Some? {
      assert |p| > 0 && p[|p| - 1].batch.state == y.completed;
      assert BatchAt(cfg, y, g - 1).state == y.completed;
    }
  }

  /** An advancing batch carries the state that the next process reads, and that resumes behind it. */
  lemma AdvanceResumes(cfg: Config, y: Sync, b: nat)
    requires Replays(cfg, y) && Aligned(cfg, y) && 0 < b <= |Plan(cfg, y)|
    requires NextEnvelope(cfg, BatchAt(cfg, y, b - 1), Track(cfg, y, b - 1).envelope) != Track(cfg, y, b - 1).envelope
    ensures Rest(cfg, y, b) == Plan(cfg, y)[b - 1].upto
  {
  }

  lemma BaseWithinPlan(cfg: Config, y: Sync, g: nat)
    ensures Base(cfg, y, g) <= |Plan(cfg, y)|
  {
    var b := Base(cfg, y, g);
    hide *;
    if b > |Plan(cfg, y)| {
      NoAdvanceBehindTheEnd(cfg, y, b - 1);
    }
  }

  predicate IsBase(cfg: Config, y: Sync, b: nat) {
    b <= |Plan(cfg, y)|
    && (b == 0 || NextEnvelope(cfg, BatchAt(cfg, y, b - 1), Track(cfg, y, b - 1).envelope) != Track(cfg, y, b - 1).envelope)
  }

  /** From any checkpoint a process can find, the reader recomputes exactly the batches still missing. */
  lemma RestartRecomputes(cfg: Config, y: Sync, b: nat)
    requires Replays(cfg, y) && Aligned(cfg, y) && IsBase(cfg, y, b)
    ensures var i := Rest(cfg, y, b);
      && i <= |y.source|
      && BatchesFrom(cfg, y, b, Pushes(cfg.batchSize, y.source[i..], y.completed))
      && b + |Pushes(cfg.batchSize, y.source[i..], y.completed)| >= |Plan(cfg, y)|
  {
    var n, r := |Plan(cfg, y)|, Read(cfg.batchSize, y.source);
    if b == 0 {
      assert y.source[0..] == y.source;
    } else {
      AdvanceResumes(cfg, y, b);
      hide Read, Track, NextEnvelope, Aligned, Replays;
      if b - 1 < |r.pushed| {
        ReplayPushes(cfg.batchSize, y.source, completed := y.completed, k := b - 1);
        BatchesOfShift(cfg, y, b, Pushes(cfg.batchSize, y.source[r.pushed[b - 1].upto..], y.completed), r.pushed[b - 1].upto);
      } else {
        assert Plan(cfg, y)[b - 1].upto == |y.source| && y.source[|y.source|..] == [];
        RestartBehindTheEnd(cfg, y, n);
      }
    }
  }

  // ----- whatever an attempt pushes is a batch of the plan -----

  lemma {:induction false} ReadIsMonotone(batchSize: nat, chunks: seq<Chunk>, n: nat)
    requires n <= |chunks|
    ensures Read(batchSize, chunks[..n]).pushed <= Read(batchSize, chunks).pushed
  {
    if n < |chunks| {
      var front := chunks[..|chunks| - 1];
      assert front[..n] == chunks[..n];
      ReadIsMonotone(batchSize, front, n);
    } else {
      assert chunks[..n] == chunks;
    }
  }

  /** An attempt reads the source from where its checkpoint resumes. */
  ghost predicate ReadsFrom(cfg: Config, y: Sync, a: nat, att: Attempt, b: nat) {
    && y.first <= a < y.beyond && IsBase(cfg, y, b)
    && att.start == StateOf(Track(cfg, y, b).envelope)
    && att.pos <= |Chunks(cfg, a, att)|
    && (att.ended && !att.cutShort ==> att.pos == |Chunks(cfg, a, att)|)
    && (att.cutShort ==> AllIds(y.source))
  }

  lemma CutHoldsNothing(cfg: Config, y: Sync, i: nat, pos: nat)
    requires i <= |y.source| && pos <= |y.source[i..]| && AllIds(y.source)
    ensures Read(cfg.batchSize, y.source[i..][..pos]).pending == EMPTY_BATCH
  {
    EveryIdIsPushed(cfg.batchSize, y.source[i..][..pos]);
  }

  lemma PushedIsPlanned(cfg: Config, y: Sync, a: nat, att: Attempt, b: nat)
    requires Replays(cfg, y) && Aligned(cfg, y) && ReadsFrom(cfg, y, a, att, b)
    ensures BatchesFrom(cfg, y, b, Pushed(cfg, a, att))
    ensures att.ended && !att.cutShort ==> b + |Pushed(cfg, a, att)| >= |Plan(cfg, y)|
  {
    RestartRecomputes(cfg, y, b);
    var i := Rest(cfg, y, b);
    var chunks := y.source[i..];
    assert Chunks(cfg, a, att) == chunks && cfg.complete(a, att.start) == y.completed;
    hide Read, Track, NextEnvelope, Aligned, Replays, BatchAt;
    ReadIsMonotone(cfg.batchSize, chunks, att.pos);
    if att.ended && !att.cutShort {
      assert chunks[..att.pos] == chunks;
    } else if att.cutShort {
      CutHoldsNothing(cfg, y, i, att.pos);
    }
    var all := Pushes(cfg.batchSize, chunks, y.completed);
    assert Read(cfg.batchSize, chunks).pushed <= all;
    assert Pushed(cfg, a, att) <= all;
  }

  // ----- the write units of the sync -----

  function UnitsAt(cfg: Config, y: Sync, g: nat): seq<Insert>
    requires cfg.maxRows > 0
  {
    InsertsOf(IdAt(cfg, y, g), BatchAt(cfg, y, g).rows, cfg.maxRows)
  }

  /** The write units of the first `g` batches, in order. */
  function UnitsUpTo(cfg: Config, y: Sync, g: nat): seq<Insert>
    requires cfg.maxRows > 0
  {
    if g == 0 then [] else UnitsUpTo(cfg, y, g - 1) + UnitsAt(cfg, y, g - 1)
  }

  function AllUnits(cfg: Config, y: Sync): seq<Insert>
    requires cfg.maxRows > 0
  {
    UnitsUpTo(cfg, y, |Plan(cfg, y)|)
  }

  lemma {:induction false} UnitsArePrefix(cfg: Config, y: Sync, g: nat, h: nat)
    requires cfg.maxRows > 0 && g <= h
    ensures UnitsUpTo(cfg, y, g) <= UnitsUpTo(cfg, y, h)
  {
    hide UnitsAt;
    if g < h {
      UnitsArePrefix(cfg, y, g, h - 1);
    }
  }

  /** Behind the plan there are no rows, hence no units. */
  lemma {:induction false} NoUnitsBehindTheEnd(cfg: Config, y: Sync, g: nat)
    requires cfg.maxRows > 0 && g >= |Plan(cfg, y)|
    ensures UnitsAt(cfg, y, g) == [] && UnitsUpTo(cfg, y, g) == AllUnits(cfg, y)
    decreases g
  {
    hide *;
    NoRowsBehindTheEnd(cfg, y, g);
    EndOfUnits(cfg, y);
    if g > |Plan(cfg, y)| {
      NoUnitsBehindTheEnd(cfg, y, g - 1);
      SameUnits(cfg, y, g);
    }
  }

  lemma EndOfUnits(cfg: Config, y: Sync)
    requires cfg.maxRows > 0
    ensures AllUnits(cfg, y) == UnitsUpTo(cfg, y, |Plan(cfg, y)|)
  {
  }

  lemma SameUnits(cfg: Config, y: Sync, g: nat)
    requires cfg.maxRows > 0 && g > 0 && UnitsAt(cfg, y, g - 1) == []
    ensures UnitsUpTo(cfg, y, g) == UnitsUpTo(cfg, y, g - 1)
  {
    hide UnitsAt;
    assert UnitsUpTo(cfg, y, g) == UnitsUpTo(cfg, y, g - 1) + [];
  }

  lemma NoRowsBehindTheEnd(cfg: Config, y: Sync, g: nat)
    requires cfg.maxRows > 0 && g >= |Plan(cfg, y)|
    ensures UnitsAt(cfg, y, g) == []
  {
    hide Plan, IdAt;
  }

  /** Every unit sits at a batch and a number in it. */
  lemma {:induction false} UnitOwner(cfg: Config, y: Sync, g: nat, p: nat) returns (h: nat, u: nat)
    requires cfg.maxRows > 0 && p < |UnitsUpTo(cfg, y, g)|
    ensures h < g && u < |UnitsAt(cfg, y, h)| && p == |UnitsUpTo(cfg, y, h)| + u
    ensures UnitsUpTo(cfg, y, g)[p] == UnitsAt(cfg, y, h)[u]
    ensures UnitsUpTo(cfg, y, g)[p].token == Token(IdAt(cfg, y, h), u)
  {
    hide IdAt, BatchAt;
    if p < |UnitsUpTo(cfg, y, g - 1)| {
      h, u := UnitOwner(cfg, y, g - 1, p);
    } else {
      h, u := g - 1, p - |UnitsUpTo(cfg, y, g - 1)|;
      InsertsFromShape(IdAt(cfg, y, h), BatchAt(cfg, y, h).rows, cfg.maxRows, 0, 0, u);
    }
  }

  /** No two write units of a sync share a token. */
  lemma TokensDiffer(cfg: Config, y: Sync, g: nat, p: nat, q: nat)
    requires cfg.maxRows > 0 && p < |UnitsUpTo(cfg, y, g)| && q < |UnitsUpTo(cfg, y, g)|
    requires UnitsUpTo(cfg, y, g)[p].token == UnitsUpTo(cfg, y, g)[q].token
    ensures p == q
  {
    var h, u := UnitOwner(cfg, y, g, p);
    var h', u' := UnitOwner(cfg, y, g, q);
    IdsDiffer(cfg, y, h, h');
  }

  lemma RowsOfAppend(a: seq<Insert>, b: seq<Insert>)
    ensures RowsOf(a + b) == RowsOf(a) + RowsOf(b)
  {
    if a == [] {
      assert [] + b == b;
    } else {
      assert (a + b)[1..] == a[1..] + b;
      RowsOfAppend(a[1..], b);
      Assoc(a[0].rows, RowsOf(a[1..]), RowsOf(b));
    }
  }

  /** All units together are the rows of the source, in order, each once. */
  lemma UnitsAreTheSource(cfg: Config, y: Sync)
    requires cfg.maxRows > 0
    ensures RowsOf(AllUnits(cfg, y)) == ChunkRows(y.source)
  {
    UnitsAreTheCuts(cfg, y, |Plan(cfg, y)|);
    assert Plan(cfg, y)[..|Plan(cfg, y)|] == Plan(cfg, y);
    PushesAreAllRows(cfg.batchSize, y.source, y.completed);
  }

  lemma NoRows()
    ensures RowsOf([]) == [] && CutRows([]) == []
  {
  }

  lemma {:induction false} UnitsAreTheCuts(cfg: Config, y: Sync, g: nat)
    requires cfg.maxRows > 0 && g <= |Plan(cfg, y)|
    ensures RowsOf(UnitsUpTo(cfg, y, g)) == CutRows(Plan(cfg, y)[..g])
  {
    hide Plan, IdAt, InsertsOf, RowsOf, CutRows;
    var p := Plan(cfg, y);
    if g == 0 {
      assert p[..0] == [] && RowsOf([]) == CutRows([]) by {
        NoRows();
      }
    } else {
      UnitsAreTheCuts(cfg, y, g - 1);
      RowsOfAppend(UnitsUpTo(cfg, y, g - 1), UnitsAt(cfg, y, g - 1));
      InsertsCoverBatch(IdAt(cfg, y, g - 1), BatchAt(cfg, y, g - 1).rows, cfg.maxRows);
      assert p[..g] == p[..g - 1] + [p[g - 1]];
      CutRowsLast(p[..g - 1], p[g - 1]);
    }
  }
}
