/**
 The executor's own objects: the progress record a stream updates in place, `append` with its bounded
 retries, `loadBatch`, and the consumer loop that commits a batch only behind its load.
 */
module Executor {
  import opened Wrappers
  import opened Digest
  import opened Journal
  import opened Batching
  import opened Loading
  import opened Ingestion
  import opened Replay
  import Appends

  const LOAD_ATTEMPTS := 3
  const JOURNAL_APPEND_ATTEMPTS := 4

  /** What one call to the journal does: stores and answers, stores and loses the answer, or neither. */
  datatype Reply = Answered | AnswerLost | Dropped

  function ReplyTo(replies: seq<Reply>, i: nat): Reply {
    if i < |replies| then replies[i] else Answered
  }

  function Repeat<T>(x: T, n: nat): (s: seq<T>)
    ensures |s| == n && forall i :: 0 <= i < n ==> s[i] == x
  {
    if n == 0 then [] else Repeat(x, n - 1) + [x]
  }

  /** Of the tries from `i` on: how many store the fact, and whether one is answered. */
  function Stored(replies: seq<Reply>, i: nat): nat
    decreases JOURNAL_APPEND_ATTEMPTS - i
  {
    if i >= JOURNAL_APPEND_ATTEMPTS then 0
    else
      match ReplyTo(replies, i)
      case Answered => 1
      case AnswerLost => 1 + Stored(replies, i + 1)
      case Dropped => Stored(replies, i + 1)
  }

  predicate Confirmed(replies: seq<Reply>, i: nat)
    decreases JOURNAL_APPEND_ATTEMPTS - i
  {
    i < JOURNAL_APPEND_ATTEMPTS && (ReplyTo(replies, i).Answered? || Confirmed(replies, i + 1))
  }

  class JournalStore {
    var rows: seq<Event>
    ghost var wire: set<Event>

    constructor ()
      ensures rows == [] && wire == {}
    {
      rows, wire := [], {};
    }

    /** One insert; the caller sees only whether it was answered. */
    method Insert(e: Event, reply: Reply) returns (answered: bool)
      modifies this
      ensures wire == old(wire) + {e} && answered == reply.Answered?
      ensures rows == if reply.Dropped? then old(rows) else old(rows) + [e]
    {
      wire := wire + {e};
      if !reply.Dropped? {
        rows := rows + [e];
      }
      answered := reply.Answered?;
    }
  }

  class StreamProgress {
    var seqNo: nat
    var version: nat
    var lastSuccess: nat
    var envelope: Option<Envelope>
    var rows: nat
    var batches: nat
    var poisoned: bool
    ghost var pending: Option<Event>

    constructor (committed: Committed)
      ensures seqNo == committed.headSeq && version == committed.version && lastSuccess == committed.lastSuccessSeq
      ensures envelope == committed.envelope && rows == 0 && batches == 0 && !poisoned && pending == None
    {
      seqNo, version, lastSuccess, envelope := committed.headSeq, committed.version, committed.lastSuccessSeq, committed.envelope;
      rows, batches, poisoned, pending := 0, 0, false, None;
    }
  }

  /** Store and progress as the append line they are. */
  ghost function LineOf(j: JournalStore, p: StreamProgress): Appends.Line
    reads j, p
  {
    Appends.Line(j.rows, j.wire, p.pending, true, p.poisoned, false, p.seqNo, p.version, p.envelope, p.lastSuccess)
  }

  ghost predicate Ready(j: JournalStore, p: StreamProgress)
    reads j, p
  {
    Appends.Inv(LineOf(j, p)) && (p.pending.Some? ==> p.poisoned)
  }

  /** The line once a confirmed commit has moved version and envelope as well. */
  ghost function Settled(l: Appends.Line, e: Event): Appends.Line {
    if e.kind.BatchCommitted? then l.(version := e.version, envelope := e.checkpoint) else l
  }

  /** The process start: the checkpoint is read, and a history the protocol left is always readable. */
  method StartStream(j: JournalStore, scope: Scope) returns (p: StreamProgress)
    requires Healthy(j.rows) && forall e :: e in j.wire ==> e in j.rows
    ensures fresh(p) && Ready(j, p) && !p.poisoned && p.pending == None
    ensures p.version == Projection(j.rows).version && p.envelope == Projection(j.rows).envelope
    ensures p.lastSuccess == Projection(j.rows).lastSuccessSeq
  {
    ghost var left := Appends.Line(j.rows, j.wire, None, false, false, false, 0, 0, None, 0);
    Appends.CheckpointIsReadable(scope, left);
    var read := ReadCheckpoint(scope, j.rows);
    p := new StreamProgress(read.checkpoint);
  }

  /** Repeated landings of one started fact keep the line an honest one. */
  lemma {:induction false} LandingsKeepInv(l: Appends.Line, e: Event, n: nat)
    requires Appends.Inv(l) && e in l.wire
    ensures Appends.Inv(l.(rows := l.rows + Repeat(e, n)))
    decreases n
  {
    hide Appends.Inv;
    if n == 0 {
      assert l.rows + [] == l.rows;
    } else {
      LandingsKeepInv(l, e, n - 1);
      Assoc(l.rows, Repeat(e, n - 1), [e]);
      hide Repeat;
      Appends.LandKeepsInv(l.(rows := l.rows + Repeat(e, n - 1)), e);
    }
  }

  /** A started fact that landed `n` times: confirmed, it settles; unconfirmed, it stays pending. */
  lemma SentLine(l: Appends.Line, e: Event, n: nat)
    requires Appends.Inv(l) && l.live && !l.poisoned && !l.stale && l.pending.None? && e.seqNo == l.seqNo + 1
    requires e.kind.BatchCommitted? ==> Follows(l.version, l.envelope, e)
    ensures var m := l.(wire := l.wire + {e}, rows := l.rows + Repeat(e, n));
      && (n > 0 ==> Appends.Inv(Settled(m.(seqNo := e.seqNo), e)))
      && Appends.Inv(m.(pending := Some(e), poisoned := true))
  {
    hide Appends.Inv, Follows;
    var scope := Scope("", "");
    Appends.StartKeepsInv(scope, l, e);
    var started := Appends.Next(scope, l, Appends.StartWrite(e));
    LandingsKeepInv(started, e, n);
    var landed := started.(rows := started.rows + Repeat(e, n));
    if n > 0 {
      assert landed.rows[|l.rows|] == e;
      Appends.StepKeepsInv(scope, landed, Appends.Confirm);
    }
    Appends.StepKeepsInv(scope, landed, Appends.Poison);
  }

  /** A fact is confirmed exactly when one of its four tries is answered. */
  lemma ConfirmedIff(replies: seq<Reply>)
    ensures Confirmed(replies, 0) <==> exists i :: 0 <= i < 4 && ReplyTo(replies, i).Answered?
  {
    assert Confirmed(replies, 4) == false;
    assert Confirmed(replies, 3) == ReplyTo(replies, 3).Answered?;
    assert Confirmed(replies, 2) == (ReplyTo(replies, 2).Answered? || Confirmed(replies, 3));
    assert Confirmed(replies, 1) == (ReplyTo(replies, 1).Answered? || Confirmed(replies, 2));
  }

  /** The tries of one fact. */
  method SendFact(j: JournalStore, e: Event, replies: seq<Reply>) returns (ok: bool)
    modifies j
    ensures ok == Confirmed(replies, 0) && (ok ==> Stored(replies, 0) > 0)
    ensures j.rows == old(j.rows) + Repeat(e, Stored(replies, 0)) && j.wire == old(j.wire) + {e}
  {
    ok := false;
    var i := 0;
    ghost var n := 0;
    while i < JOURNAL_APPEND_ATTEMPTS && !ok
      invariant i <= JOURNAL_APPEND_ATTEMPTS && (ok ==> i > 0 && n > 0)
      invariant j.rows == old(j.rows) + Repeat(e, n)
      invariant if ok then n == Stored(replies, 0) && Confirmed(replies, 0)
                else n + Stored(replies, i) == Stored(replies, 0) && Confirmed(replies, 0) == Confirmed(replies, i)
      invariant j.wire == if i == 0 then old(j.wire) else old(j.wire) + {e}
    {
      ok := j.Insert(e, ReplyTo(replies, i));
      if !ReplyTo(replies, i).Dropped? {
        n := n + 1;
      }
      i := i + 1;
    }
  }

  /**
   `append`: the fact takes the next sequence number, is tried up to four times, and a fact that was
   never confirmed poisons the chain. The version and envelope move later, in the caller.
   */
  method Append(j: JournalStore, p: StreamProgress, draft: Event, replies: seq<Reply>) returns (ok: bool)
    requires Ready(j, p)
    requires draft.kind.BatchCommitted? ==> Follows(p.version, p.envelope, draft)
    modifies j, p`seqNo, p`poisoned, p`pending
    ensures ok == (!old(p.poisoned) && Confirmed(replies, 0)) && p.poisoned == !ok
    ensures old(p.poisoned) ==> j.rows == old(j.rows)
    ensures !old(p.poisoned) ==> j.rows == old(j.rows) + Repeat(draft.(seqNo := old(p.seqNo) + 1), Stored(replies, 0))
    ensures ok ==> p.seqNo == old(p.seqNo) + 1 && p.pending == None && |old(j.rows)| < |j.rows|
    ensures ok ==> Appends.Inv(Settled(LineOf(j, p), draft.(seqNo := old(p.seqNo) + 1)))
    ensures !ok ==> p.seqNo == old(p.seqNo) && Ready(j, p)
  {
    ok := false;
    if !p.poisoned {
      var e := draft.(seqNo := p.seqNo + 1);
      ghost var before := LineOf(j, p);
      SentLine(before, e, Stored(replies, 0));
      p.pending := Some(e);
      hide Appends.Inv;
      ok := SendFact(j, e, replies);
      if ok {
        p.seqNo, p.pending := e.seqNo, None;
      } else {
        p.poisoned := true;
      }
    }
  }

  // ----- loading a batch -----

  function FatesOf(tries: seq<seq<Fate>>, i: nat): seq<Fate> {
    if i < |tries| then tries[i] else []
  }

  function Further(a: nat, b: nat): nat {
    if a < b then b else a
  }

  /** The furthest unit that any of the tries from `i` on reaches, and whether one of them finishes. */
  function Reached(n: nat, tries: seq<seq<Fate>>, i: nat): (k: nat)
    ensures k <= n
    decreases LOAD_ATTEMPTS - i
  {
    if i >= LOAD_ATTEMPTS then 0
    else if AllAcknowledged(n, FatesOf(tries, i), 0) then n
    else Further(Landing(n, FatesOf(tries, i), 0), Reached(n, tries, i + 1))
  }

  predicate Finishes(n: nat, tries: seq<seq<Fate>>, i: nat)
    decreases LOAD_ATTEMPTS - i
  {
    i < LOAD_ATTEMPTS && (AllAcknowledged(n, FatesOf(tries, i), 0) || Finishes(n, tries, i + 1))
  }

  lemma {:induction false} AcknowledgedReachesAll(n: nat, fates: seq<Fate>, unit: nat)
    requires AllAcknowledged(n, fates, unit)
    ensures Landing(n, fates, unit) == n
  {
    if n > 0 {
      AcknowledgedReachesAll(n - 1, fates, unit + 1);
    }
  }

  /** A load goes through exactly when one of its three tries is acknowledged to the end. */
  lemma FinishesIff(n: nat, tries: seq<seq<Fate>>)
    ensures Finishes(n, tries, 0) <==> exists i :: 0 <= i < 3 && AllAcknowledged(n, FatesOf(tries, i), 0)
  {
    hide AllAcknowledged;
    assert Finishes(n, tries, 3) == false;
    assert Finishes(n, tries, 2) == AllAcknowledged(n, FatesOf(tries, 2), 0);
    assert Finishes(n, tries, 1) == (AllAcknowledged(n, FatesOf(tries, 1), 0) || Finishes(n, tries, 2));
  }

  /** One more try, from a destination that earlier tries left at unit `k`. */
  lemma OneMoreTry(start: Dest, xs: seq<Insert>, k: nat, tries: seq<seq<Fate>>, i: nat)
    requires k <= |xs| && i < LOAD_ATTEMPTS
    ensures var fates := FatesOf(tries, i);
      var m := Landing(|xs|, fates, 0);
      && Further(k, m) <= |xs|
      && Remaining(DeliverUpTo(start, xs, k), xs, fates, 0) == DeliverUpTo(start, xs, Further(k, m))
      && (if AllAcknowledged(|xs|, fates, 0) then Further(k, m) == Reached(|xs|, tries, i) == |xs| && Finishes(|xs|, tries, i)
          else Further(Further(k, m), Reached(|xs|, tries, i + 1)) == Further(k, Reached(|xs|, tries, i))
               && Finishes(|xs|, tries, i + 1) == Finishes(|xs|, tries, i))
  {
    var fates := FatesOf(tries, i);
    ReplayAfterPartialWrite(start, xs, k, Landing(|xs|, fates, 0));
    hide DeliverUpTo;
    if AllAcknowledged(|xs|, fates, 0) {
      AcknowledgedReachesAll(|xs|, fates, 0);
    }
  }

  /**
   `loadBatch`: a fresh loader per try, the same batch id in every try. Whatever the failed tries left,
   the destination ends as one uninterrupted write up to the furthest unit would leave it.
   */
  method LoadBatch(dest: MemoryDestination, batchId: Digest, rows: seq<Row>, maxRows: nat, tries: seq<seq<Fate>>)
    returns (ok: bool, receipt: Receipt)
    requires maxRows > 0
    modifies dest
    ensures var xs := InsertsOf(batchId, rows, maxRows);
      && ok == Finishes(|xs|, tries, 0)
      && dest.Contents() == DeliverUpTo(old(dest.Contents()), xs, Reached(|xs|, tries, 0))
      && (ok ==> Reached(|xs|, tries, 0) == |xs| && receipt == Receipt(|rows| == 0, |rows|, |xs|))
  {
    hide InsertsOf, DeliverUpTo, Landing, AllAcknowledged, Reached, Finishes, Remaining;
    ghost var xs, start := InsertsOf(batchId, rows, maxRows), dest.Contents();
    ghost var k: nat := 0;
    NoTryYet(start, xs, tries);
    ok, receipt := false, Receipt(true, 0, 0);
    var i := 0;
    while i < LOAD_ATTEMPTS && !ok
      invariant i <= LOAD_ATTEMPTS && k <= |xs|
      invariant dest.Contents() == DeliverUpTo(start, xs, k)
      invariant if ok then k == Reached(|xs|, tries, 0) == |xs| && Finishes(|xs|, tries, 0)
                else Further(k, Reached(|xs|, tries, i)) == Reached(|xs|, tries, 0) && Finishes(|xs|, tries, i) == Finishes(|xs|, tries, 0)
      invariant ok ==> receipt == Receipt(|rows| == 0, |rows|, |xs|)
    {
      OneMoreTry(start, xs, k, tries, i);
      ok, receipt := Load(dest, batchId, rows, maxRows, FatesOf(tries, i));
      k := Further(k, Landing(|xs|, FatesOf(tries, i), 0));
      i := i + 1;
    }
    NoTryLeft(|xs|, tries);
  }

  lemma NoTryYet(start: Dest, xs: seq<Insert>, tries: seq<seq<Fate>>)
    ensures DeliverUpTo(start, xs, 0) == start
  {
  }

  lemma NoTryLeft(n: nat, tries: seq<seq<Fate>>)
    ensures Reached(n, tries, LOAD_ATTEMPTS) == 0 && !Finishes(n, tries, LOAD_ATTEMPTS)
  {
  }

  // ----- the consumer loop -----

  /** Where the stream stands after these batches are committed, from where it stood before. */
  function SpotsOver(cfg: Config, spot: Spot, batches: seq<Batch>): Spot {
    if batches == [] then spot
    else SpotAfter(cfg, SpotsOver(cfg, spot, batches[..|batches| - 1]), batches[|batches| - 1])
  }

  function IdAfter(cfg: Config, lastSuccess: nat, spot: Spot, b: Batch): Digest {
    BatchId(cfg.scope.namespaceId, lastSuccess, spot.version, spot.since, cfg.discriminator(b))
  }

  function UnitsAfter(cfg: Config, lastSuccess: nat, spot: Spot, b: Batch): seq<Insert>
    requires cfg.maxRows > 0
  {
    InsertsOf(IdAfter(cfg, lastSuccess, spot, b), b.rows, cfg.maxRows)
  }

  /** The destination behind these batches, each loaded under the identity of its position. */
  function Delivered(cfg: Config, lastSuccess: nat, d: Dest, spot: Spot, batches: seq<Batch>): Dest
    requires cfg.maxRows > 0
  {
    if batches == [] then d
    else
      var front, b := batches[..|batches| - 1], batches[|batches| - 1];
      var xs := UnitsAfter(cfg, lastSuccess, SpotsOver(cfg, spot, front), b);
      DeliverUpTo(Delivered(cfg, lastSuccess, d, spot, front), xs, |xs|)
  }

  function RowCount(batches: seq<Batch>): nat {
    if batches == [] then 0 else RowCount(batches[..|batches| - 1]) + |batches[|batches| - 1].rows|
  }

  lemma OneMoreBatch(cfg: Config, lastSuccess: nat, d: Dest, spot: Spot, batches: seq<Batch>, n: nat)
    requires cfg.maxRows > 0 && n < |batches|
    ensures var here := SpotsOver(cfg, spot, batches[..n]);
      && SpotsOver(cfg, spot, batches[..n + 1]) == SpotAfter(cfg, here, batches[n])
      && RowCount(batches[..n + 1]) == RowCount(batches[..n]) + |batches[n].rows|
      && var xs := UnitsAfter(cfg, lastSuccess, here, batches[n]);
        Delivered(cfg, lastSuccess, d, spot, batches[..n + 1]) == DeliverUpTo(Delivered(cfg, lastSuccess, d, spot, batches[..n]), xs, |xs|)
  {
    assert batches[..n + 1][..n] == batches[..n];
  }

  /** Who commits: the execution, the work and the attempt every fact of the stream names. */
  datatype Author = Author(runId: string, workId: string, attemptNo: nat)

  function ReceiptText(rows: nat, writeUnits: nat): string {
    "{\"rows\":" + Decimal(rows) + ",\"writeUnits\":" + Decimal(writeUnits) + "}"
  }

  /** The fact the consumer appends behind a load. */
  function CommitFact(cfg: Config, spot: Spot, b: Batch, id: Digest, author: Author, receipt: Receipt): Event {
    var next := SpotAfter(cfg, spot, b);
    Event(0, BatchCommitted, author.runId, author.workId, author.attemptNo, id.text, spot.version, next.version, next.envelope, Unset,
          if receipt.noneRequired then "none_required" else "clickhouse_ack", "", "", ReceiptText(receipt.rows, receipt.writeUnits))
  }

  /**
   What a journal says of a batch that was committed from a position, field by field: who wrote it, under
   which sequence number, and the batch id, which is the one in the tokens of the batch's units.
   */
  predicate Records(e: Event, cfg: Config, lastSuccess: nat, seqNo: nat, spot: Spot, b: Batch, author: Author)
    requires cfg.maxRows > 0
  {
    && e.kind == BatchCommitted && e.seqNo == seqNo
    && e.runId == author.runId && e.workId == author.workId && e.attemptNo == author.attemptNo
    && (forall x :: x in UnitsAfter(cfg, lastSuccess, spot, b) ==> e.batchId == x.token.batchId.text)
    && e.batchId == BatchId(cfg.scope.namespaceId, lastSuccess, spot.version, spot.since, cfg.discriminator(b)).text
    && e.checkpoint == (if b.state.None? then spot.envelope else Some(Envelope(cfg.strategy, cfg.strategyVersion, b.state.value)))
    && e.expected == spot.version && e.version == (if e.checkpoint == spot.envelope then spot.version else spot.version + 1)
    && e.sinkEvidence == (if |b.rows| == 0 then "none_required" else "clickhouse_ack")
    && e.detail == ReceiptText(|b.rows|, |UnitsAfter(cfg, lastSuccess, spot, b)|)
    && e.workState == Unset && e.retryAt == "" && e.errorClass == ""
  }

  lemma CommitFollows(cfg: Config, spot: Spot, b: Batch, id: Digest, author: Author, receipt: Receipt)
    ensures Follows(spot.version, spot.envelope, CommitFact(cfg, spot, b, id, author, receipt))
  {
  }

  lemma CommitRecords(cfg: Config, lastSuccess: nat, seqNo: nat, spot: Spot, b: Batch, author: Author)
    requires cfg.maxRows > 0
    ensures var id, xs := IdAfter(cfg, lastSuccess, spot, b), UnitsAfter(cfg, lastSuccess, spot, b);
      var fact := CommitFact(cfg, spot, b, id, author, Receipt(|b.rows| == 0, |b.rows|, |xs|));
      Records(fact.(seqNo := seqNo), cfg, lastSuccess, seqNo, spot, b, author)
  {
    var id := IdAfter(cfg, lastSuccess, spot, b);
    InsertsCoverBatch(id, b.rows, cfg.maxRows);
    hide InsertsOf, Decimal;
  }

  /** What happens to the calls made for one batch. */
  datatype Weather = Weather(loads: seq<seq<Fate>>, replies: seq<Reply>)

  predicate GoesThrough(n: nat, w: Weather) {
    Finishes(n, w.loads, 0) && Confirmed(w.replies, 0)
  }

  /** The first `n` batches are all loaded and committed in this weather. */
  predicate AllGoThrough(cfg: Config, lastSuccess: nat, spot: Spot, batches: seq<Batch>, weather: seq<Weather>, n: nat)
    requires cfg.maxRows > 0 && n <= |batches| == |weather|
  {
    n == 0
    || (AllGoThrough(cfg, lastSuccess, spot, batches, weather, n - 1)
        && GoesThrough(|UnitsAfter(cfg, lastSuccess, SpotsOver(cfg, spot, batches[..n - 1]), batches[n - 1])|, weather[n - 1]))
  }

  /** One turn of `consume`. */
  method CommitBatch(cfg: Config, dest: MemoryDestination, j: JournalStore, p: StreamProgress,
                     since: nat, batch: Batch, w: Weather, author: Author) returns (ok: bool, since': nat)
    requires cfg.maxRows > 0 && Ready(j, p) && !p.poisoned
    modifies dest, j, p
    ensures var spot := Spot(old(p.version), old(p.envelope), since);
      var xs := UnitsAfter(cfg, old(p.lastSuccess), spot, batch);
      && ok == GoesThrough(|xs|, w)
      && Spot(p.version, p.envelope, since') == (if ok then SpotAfter(cfg, spot, batch) else spot)
      && dest.Contents() == DeliverUpTo(old(dest.Contents()), xs, Reached(|xs|, w.loads, 0))
      && (ok ==> Reached(|xs|, w.loads, 0) == |xs|)
    ensures p.rows == old(p.rows) + if ok then |batch.rows| else 0
    ensures p.batches == old(p.batches) + if ok then 1 else 0
    ensures p.lastSuccess == old(p.lastSuccess) && Ready(j, p) && (ok ==> !p.poisoned)
    ensures p.seqNo == old(p.seqNo) + if ok then 1 else 0
    ensures old(j.rows) <= j.rows && (ok ==> |old(j.rows)| < |j.rows|)
    ensures forall i :: |old(j.rows)| <= i < |j.rows| ==>
      Records(j.rows[i], cfg, old(p.lastSuccess), old(p.seqNo) + 1, Spot(old(p.version), old(p.envelope), since), batch, author)
  {
    hide Finishes, Confirmed, InsertsOf, DeliverUpTo, Appends.Inv, Stored, Reached, Records, BatchId, ReceiptText;
    var spot := Spot(p.version, p.envelope, since);
    var batchId := BatchId(cfg.scope.namespaceId, p.lastSuccess, p.version, since, cfg.discriminator(batch));
    since' := since;
    var receipt;
    ok, receipt := LoadBatch(dest, batchId, batch.rows, cfg.maxRows, w.loads);
    if ok {
      var envelope := if batch.state.Some? then Some(Envelope(cfg.strategy, cfg.strategyVersion, batch.state.value)) else p.envelope;
      var advanced := envelope != p.envelope;
      var version := if advanced then p.version + 1 else p.version;
      CommitFollows(cfg, spot, batch, batchId, author, receipt);
      CommitRecords(cfg, p.lastSuccess, p.seqNo + 1, spot, batch, author);
      ok := Append(j, p, CommitFact(cfg, spot, batch, batchId, author, receipt), w.replies);
      if ok {
        since' := if advanced then 0 else since + 1;
        p.version, p.envelope := version, envelope;
        p.rows, p.batches := p.rows + receipt.rows, p.batches + 1;
      }
    }
  }

  /** What `Records` says of the batch numbered `k` of these. */
  predicate RecordsAt(e: Event, cfg: Config, lastSuccess: nat, headSeq: nat, first: Spot, batches: seq<Batch>, k: nat, author: Author)
    requires cfg.maxRows > 0 && k < |batches|
  {
    Records(e, cfg, lastSuccess, headSeq + k + 1, SpotsOver(cfg, first, batches[..k]), batches[k], author)
  }

  ghost predicate RecordedIn(rows: seq<Event>, cfg: Config, lastSuccess: nat, headSeq: nat, first: Spot, batches: seq<Batch>,
                             k: nat, author: Author)
    requires cfg.maxRows > 0 && k < |batches|
  {
    exists e :: e in rows && RecordsAt(e, cfg, lastSuccess, headSeq, first, batches, k, author)
  }

  /** The rows from `from` on record the first `done` of these batches and nothing else but the next one. */
  ghost predicate JournalTells(rows: seq<Event>, from: nat, cfg: Config, lastSuccess: nat, headSeq: nat, first: Spot,
                               batches: seq<Batch>, done: nat, author: Author)
    requires cfg.maxRows > 0
  {
    && from <= |rows| && done <= |batches|
    && (forall k :: 0 <= k < done ==> RecordedIn(rows[from..], cfg, lastSuccess, headSeq, first, batches, k, author))
    && (forall e :: e in rows[from..] ==>
          exists k :: 0 <= k <= done && k < |batches| && RecordsAt(e, cfg, lastSuccess, headSeq, first, batches, k, author))
  }

  lemma OneMoreRecord(rows: seq<Event>, more: seq<Event>, from: nat, cfg: Config, lastSuccess: nat, headSeq: nat, first: Spot,
                      batches: seq<Batch>, done: nat, author: Author)
    requires cfg.maxRows > 0 && JournalTells(rows, from, cfg, lastSuccess, headSeq, first, batches, done, author)
    requires done < |batches| && rows <= more
    requires forall i :: |rows| <= i < |more| ==> RecordsAt(more[i], cfg, lastSuccess, headSeq, first, batches, done, author)
    ensures JournalTells(more, from, cfg, lastSuccess, headSeq, first, batches, done, author)
    ensures |rows| < |more| ==> JournalTells(more, from, cfg, lastSuccess, headSeq, first, batches, done + 1, author)
  {
    hide RecordsAt;
    var added := more[|rows|..];
    assert more[from..] == rows[from..] + added;
    forall e | e in added ensures RecordsAt(e, cfg, lastSuccess, headSeq, first, batches, done, author) {
    }
    forall k | 0 <= k < done
      ensures RecordedIn(more[from..], cfg, lastSuccess, headSeq, first, batches, k, author)
    {
      assert RecordedIn(rows[from..], cfg, lastSuccess, headSeq, first, batches, k, author);
      var e :| e in rows[from..] && RecordsAt(e, cfg, lastSuccess, headSeq, first, batches, k, author);
      assert e in more[from..];
    }
    if |rows| < |more| {
      assert added[0] == more[|rows|] && added[0] in more[from..];
    }
  }

  lemma {:induction false} LandedStays(d: Dest, xs: seq<Insert>, k: nat, t: Token)
    requires k <= |xs| && t in d.tokens
    ensures t in DeliverUpTo(d, xs, k).tokens
  {
    if k > 0 {
      LandedStays(d, xs, k - 1, t);
    }
  }

  /** Every unit of every batch behind which this destination stands. */
  lemma {:induction false} DeliveredUnits(cfg: Config, lastSuccess: nat, d: Dest, spot: Spot, batches: seq<Batch>, k: nat, u: nat)
    requires cfg.maxRows > 0 && k < |batches| && u < |UnitsAfter(cfg, lastSuccess, SpotsOver(cfg, spot, batches[..k]), batches[k])|
    ensures UnitsAfter(cfg, lastSuccess, SpotsOver(cfg, spot, batches[..k]), batches[k])[u].token
      in Delivered(cfg, lastSuccess, d, spot, batches).tokens
  {
    hide SpotsOver, UnitsAfter, SpotAfter;
    var n := |batches| - 1;
    var front := batches[..n];
    var xs := UnitsAfter(cfg, lastSuccess, SpotsOver(cfg, spot, front), batches[n]);
    if k < n {
      assert front[..k] == batches[..k];
      DeliveredUnits(cfg, lastSuccess, d, spot, front, k, u);
      LandedStays(Delivered(cfg, lastSuccess, d, spot, front), xs, |xs|, UnitsAfter(cfg, lastSuccess, SpotsOver(cfg, spot, batches[..k]), batches[k])[u].token);
    } else {
      DeliveredTokens(Delivered(cfg, lastSuccess, d, spot, front), xs, |xs|, u);
    }
  }

  /** The units of the first `done` batches are all in the destination. */
  ghost predicate HoldsUnits(d: Dest, cfg: Config, lastSuccess: nat, first: Spot, batches: seq<Batch>, done: nat)
    requires cfg.maxRows > 0 && done <= |batches|
  {
    forall k, u :: 0 <= k < done && 0 <= u < |UnitsAfter(cfg, lastSuccess, SpotsOver(cfg, first, batches[..k]), batches[k])| ==>
      UnitsAfter(cfg, lastSuccess, SpotsOver(cfg, first, batches[..k]), batches[k])[u].token in d.tokens
  }

  lemma DeliveredHolds(cfg: Config, lastSuccess: nat, d: Dest, spot: Spot, batches: seq<Batch>, done: nat, more: seq<Insert>, m: nat)
    requires cfg.maxRows > 0 && done <= |batches| && m <= |more|
    ensures HoldsUnits(DeliverUpTo(Delivered(cfg, lastSuccess, d, spot, batches[..done]), more, m), cfg, lastSuccess, spot, batches, done)
  {
    hide SpotsOver, UnitsAfter, Delivered, DeliverUpTo;
    var base := Delivered(cfg, lastSuccess, d, spot, batches[..done]);
    forall k, u | 0 <= k < done && 0 <= u < |UnitsAfter(cfg, lastSuccess, SpotsOver(cfg, spot, batches[..k]), batches[k])|
      ensures UnitsAfter(cfg, lastSuccess, SpotsOver(cfg, spot, batches[..k]), batches[k])[u].token in DeliverUpTo(base, more, m).tokens
    {
      assert batches[..done][..k] == batches[..k];
      DeliveredUnits(cfg, lastSuccess, d, spot, batches[..done], k, u);
      LandedStays(base, more, m, UnitsAfter(cfg, lastSuccess, SpotsOver(cfg, spot, batches[..k]), batches[k])[u].token);
    }
  }

  /** Behind `n` whole batches, the next one as far as its tries reached. */
  function PartlyDelivered(cfg: Config, lastSuccess: nat, d: Dest, spot: Spot, batches: seq<Batch>, n: nat, w: Weather): Dest
    requires cfg.maxRows > 0 && n < |batches|
  {
    var xs := UnitsAfter(cfg, lastSuccess, SpotsOver(cfg, spot, batches[..n]), batches[n]);
    DeliverUpTo(Delivered(cfg, lastSuccess, d, spot, batches[..n]), xs, Reached(|xs|, w.loads, 0))
  }

  /**
   `consume`: batch by batch, load, then commit, then move version and envelope. It stops at the first
   load or append that fails: what is committed is exactly the prefix that went through, and the journal
   stays a valid history either way. Of the batch that failed the destination holds the units its tries reached.
   What it appended records the committed batches, each under the id in the tokens of its units, and of the
   others at most the one that failed.
   */
  method Consume(cfg: Config, dest: MemoryDestination, j: JournalStore, p: StreamProgress,
                 batches: seq<Batch>, weather: seq<Weather>, author: Author) returns (ok: bool, done: nat)
    requires cfg.maxRows > 0 && |weather| == |batches| && Ready(j, p) && !p.poisoned
    modifies dest, j, p
    ensures var first := Spot(old(p.version), old(p.envelope), 0);
      && done <= |batches| && AllGoThrough(cfg, old(p.lastSuccess), first, batches, weather, done)
      && (ok ==> done == |batches|)
      && (!ok ==> done < |batches| && !AllGoThrough(cfg, old(p.lastSuccess), first, batches, weather, done + 1))
      && p.version == SpotsOver(cfg, first, batches[..done]).version && p.envelope == SpotsOver(cfg, first, batches[..done]).envelope
      && (ok ==> dest.Contents() == Delivered(cfg, old(p.lastSuccess), old(dest.Contents()), first, batches))
      && (!ok ==> dest.Contents() == PartlyDelivered(cfg, old(p.lastSuccess), old(dest.Contents()), first, batches, done, weather[done]))
    ensures p.rows == old(p.rows) + RowCount(batches[..done]) && p.batches == old(p.batches) + done
    ensures Ready(j, p) && p.seqNo == old(p.seqNo) + done
    ensures old(j.rows) <= j.rows
    ensures var first := Spot(old(p.version), old(p.envelope), 0);
      && JournalTells(j.rows, |old(j.rows)|, cfg, old(p.lastSuccess), old(p.seqNo), first, batches, done, author)
      && HoldsUnits(dest.Contents(), cfg, old(p.lastSuccess), first, batches, done)
  {
    hide GoesThrough, Ready, UnitsAfter, DeliverUpTo, SpotAfter, SpotsOver, Delivered, RowCount, Records, JournalTells, HoldsUnits;
    ghost var first, start, ls, rows0, batches0 := Spot(p.version, p.envelope, 0), dest.Contents(), p.lastSuccess, p.rows, p.batches;
    ghost var rows1, head := j.rows, p.seqNo;
    NothingCommitted(cfg, ls, start, first);
    NothingTold(rows1, cfg, ls, head, first, batches, author);
    var since := 0;
    ok, done := true, 0;
    while done < |batches| && ok
      invariant done <= |batches|
      invariant SpotsOver(cfg, first, batches[..done]) == Spot(p.version, p.envelope, since)
      invariant p.seqNo == head + done && rows1 <= j.rows
      invariant JournalTells(j.rows, |rows1|, cfg, ls, head, first, batches, done, author)
      invariant p.lastSuccess == ls && p.rows == rows0 + RowCount(batches[..done]) && p.batches == batches0 + done
      invariant ok ==> dest.Contents() == Delivered(cfg, ls, start, first, batches[..done])
      invariant Ready(j, p) && (ok ==> !p.poisoned)
      invariant AllGoThrough(cfg, ls, first, batches, weather, done)
      invariant !ok ==> done < |batches| && !AllGoThrough(cfg, ls, first, batches, weather, done + 1)
      invariant !ok ==> dest.Contents() == PartlyDelivered(cfg, ls, start, first, batches, done, weather[done])
      decreases |batches| - done, ok
    {
      OneMoreBatch(cfg, ls, start, first, batches, done);
      ghost var was := j.rows;
      ok, since := CommitBatch(cfg, dest, j, p, since, batches[done], weather[done], author);
      OneMoreRecord(was, j.rows, |rows1|, cfg, ls, head, first, batches, done, author);
      if ok {
        done := done + 1;
      }
    }
    assert ok ==> batches[..done] == batches;
    ghost var xs := if ok then [] else UnitsAfter(cfg, ls, SpotsOver(cfg, first, batches[..done]), batches[done]);
    ghost var m := if ok then 0 else Reached(|xs|, weather[done].loads, 0);
    DeliveredHolds(cfg, ls, start, first, batches, done, xs, m);
    NoTryYet(Delivered(cfg, ls, start, first, batches[..done]), xs, []);
  }

  lemma NothingTold(rows: seq<Event>, cfg: Config, lastSuccess: nat, headSeq: nat, first: Spot, batches: seq<Batch>, author: Author)
    requires cfg.maxRows > 0
    ensures JournalTells(rows, |rows|, cfg, lastSuccess, headSeq, first, batches, 0, author)
  {
  }

  lemma NothingCommitted(cfg: Config, lastSuccess: nat, d: Dest, spot: Spot)
    requires cfg.maxRows > 0
    ensures SpotsOver(cfg, spot, []) == spot && Delivered(cfg, lastSuccess, d, spot, []) == d && RowCount([]) == 0
  {
  }

  // ----- the loop and the plan of a sync -----

  lemma {:induction false} BatchesAt(cuts: seq<Cut>, k: nat)
    requires k < |cuts|
    ensures |Batches(cuts)| == |cuts| && Batches(cuts)[k] == cuts[k].batch
    decreases |cuts|
  {
    if |cuts| > 1 {
      BatchesAt(cuts[..|cuts| - 1], if k < |cuts| - 1 then k else 0);
    }
  }

  /** The consumer that is fed the plan of a sync stands where the plan says, under the plan's identities. */
  lemma {:induction false} ConsumerFollowsPlan(cfg: Config, y: Sync, g: nat)
    requires g < |Plan(cfg, y)|
    ensures |Batches(Plan(cfg, y))| == |Plan(cfg, y)|
    ensures SpotsOver(cfg, Spot(y.version, y.envelope, 0), Batches(Plan(cfg, y))[..g]) == Track(cfg, y, g)
    ensures IdAfter(cfg, y.lastSuccess, Track(cfg, y, g), Batches(Plan(cfg, y))[g]) == IdAt(cfg, y, g)
  {
    BatchesAt(Plan(cfg, y), g);
    hide Plan, BatchId;
    if g > 0 {
      BatchesAt(Plan(cfg, y), g - 1);
      ConsumerFollowsPlan(cfg, y, g - 1);
      assert Batches(Plan(cfg, y))[..g][..g - 1] == Batches(Plan(cfg, y))[..g - 1];
    }
  }
}
