/**
 How the producer of `readAndLoad` groups reader chunks into batches: one step per chunk, the whole
 reading, the flush at the end, and the loop itself.
 */
module Batching {
  import opened Wrappers

  type Row = string

  datatype Chunk = Chunk(rows: seq<Row>, state: Option<string>, id: Option<string>)

  /** Rows waiting to be loaded; `intervalIds` is lost once a chunk without an id joins. */
  datatype Batch = Batch(rows: seq<Row>, intervalIds: Option<seq<string>>, state: Option<string>)

  const EMPTY_BATCH := Batch([], Some([]), None)

  /** A pushed batch and the number of chunks read up to its last row. */
  datatype Cut = Cut(batch: Batch, upto: nat)

  datatype Reading = Reading(pushed: seq<Cut>, pending: Batch)

  function Merge(b: Batch, c: Chunk): Batch {
    Batch(
      b.rows + c.rows,
      if b.intervalIds.Some? && c.id.Some? then Some(b.intervalIds.value + [c.id.value]) else None,
      if c.state.Some? then c.state else b.state)
  }

  /** One turn of the producer loop for chunk number `pos`. */
  function Feed(batchSize: nat, pending: Batch, c: Chunk, pos: nat): Reading {
    var flush := c.id.Some? && |pending.rows| > 0;
    var before := if flush then [Cut(pending, pos)] else [];
    var merged := Merge(if flush then EMPTY_BATCH else pending, c);
    if c.id.Some? || |merged.rows| >= batchSize then Reading(before + [Cut(merged, pos + 1)], EMPTY_BATCH)
    else Reading(before, merged)
  }

  /** What the producer pushed and still holds after these chunks. */
  function Read(batchSize: nat, chunks: seq<Chunk>): Reading {
    if chunks == [] then Reading([], EMPTY_BATCH)
    else
      var n := |chunks| - 1;
      var r := Read(batchSize, chunks[..n]);
      var f := Feed(batchSize, r.pending, chunks[n], n);
      Reading(r.pushed + f.pushed, f.pending)
  }

  /** The last push: the completion state, if the whole selection was read, replaces the held one. */
  function Flush(pending: Batch, completed: Option<string>, upto: nat): seq<Cut> {
    var last := if completed.Some? then pending.(state := completed) else pending;
    if |last.rows| > 0 || last.state.Some? then [Cut(last, upto)] else []
  }

  /** Everything pushed for a reading that ends after these chunks. */
  function Pushes(batchSize: nat, chunks: seq<Chunk>, completed: Option<string>): seq<Cut> {
    var r := Read(batchSize, chunks);
    r.pushed + Flush(r.pending, completed, |chunks|)
  }

  function ChunkRows(chunks: seq<Chunk>): seq<Row> {
    if chunks == [] then [] else ChunkRows(chunks[..|chunks| - 1]) + chunks[|chunks| - 1].rows
  }

  function CutRows(cuts: seq<Cut>): seq<Row> {
    if cuts == [] then [] else CutRows(cuts[..|cuts| - 1]) + cuts[|cuts| - 1].batch.rows
  }

  lemma ReadAppend(batchSize: nat, front: seq<Chunk>, c: Chunk)
    ensures var r := Read(batchSize, front);
      var f := Feed(batchSize, r.pending, c, |front|);
      Read(batchSize, front + [c]) == Reading(r.pushed + f.pushed, f.pending)
  {
    assert (front + [c])[..|front|] == front;
  }

  // ----- the loop -----

  datatype Ending = Exhausted | BudgetCut | Rejected

  function Batches(cuts: seq<Cut>): seq<Batch> {
    if cuts == [] then [] else Batches(cuts[..|cuts| - 1]) + [cuts[|cuts| - 1].batch]
  }

  lemma BatchesLast(a: seq<Cut>, c: Cut)
    ensures Batches(a + [c]) == Batches(a) + [c.batch]
  {
    assert (a + [c])[..|a|] == a;
  }

  /** The pushes of one loop turn, as batches. */
  lemma BatchesOfFeed(a: seq<Cut>, batchSize: nat, pending: Batch, c: Chunk, pos: nat)
    ensures var f := Feed(batchSize, pending, c, pos).pushed;
      && |f| <= 2
      && (|f| == 0 ==> Batches(a + f) == Batches(a))
      && (|f| == 1 ==> Batches(a + f) == Batches(a) + [f[0].batch])
      && (|f| == 2 ==> Batches(a + f) == Batches(a) + [f[0].batch] + [f[1].batch])
  {
    var f := Feed(batchSize, pending, c, pos).pushed;
    if |f| == 0 {
      assert a + f == a;
    } else if |f| == 1 {
      assert f == [f[0]];
      BatchesLast(a, f[0]);
    } else {
      assert a + f == (a + [f[0]]) + [f[1]];
      BatchesLast(a, f[0]);
      BatchesLast(a + [f[0]], f[1]);
    }
  }

  predicate ChunksBounded(chunks: seq<Chunk>, maxChunkRows: nat) {
    forall i :: 0 <= i < |chunks| ==> |chunks[i].rows| <= maxChunkRows
  }

  lemma PrefixGrows(chunks: seq<Chunk>, n: nat, maxChunkRows: nat)
    requires n < |chunks| && ChunksBounded(chunks[..n], maxChunkRows) && |chunks[n].rows| <= maxChunkRows
    ensures chunks[..n] + [chunks[n]] == chunks[..n + 1] && ChunksBounded(chunks[..n + 1], maxChunkRows)
  {
    var front := chunks[..n];
    assert front + [chunks[n]] == chunks[..n + 1];
    assert forall i :: 0 <= i < |front + [chunks[n]]| ==> |(front + [chunks[n]])[i].rows| <= maxChunkRows;
  }

  /** One turn of the loop: what is pushed is decided before and after the chunk joins. */
  method TakeChunk(pushed: seq<Batch>, pending: Batch, chunk: Chunk, batchSize: nat, ghost cuts: seq<Cut>, ghost pos: nat)
    returns (pushed': seq<Batch>, pending': Batch)
    requires pushed == Batches(cuts)
    ensures pushed' == Batches(cuts + Feed(batchSize, pending, chunk, pos).pushed)
    ensures pending' == Feed(batchSize, pending, chunk, pos).pending
  {
    BatchesOfFeed(cuts, batchSize, pending, chunk, pos);
    pushed', pending' := pushed, pending;
    if chunk.id.Some? && |pending'.rows| > 0 {
      pushed' := pushed' + [pending'];
      pending' := EMPTY_BATCH;
    }
    pending' := Merge(pending', chunk);
    if chunk.id.Some? || |pending'.rows| >= batchSize {
      pushed' := pushed' + [pending'];
      pending' := EMPTY_BATCH;
    }
  }

  /** After the loop: only a fully consumed selection claims the completion state. */
  method FlushHeld(pushed: seq<Batch>, held: Batch, completed: Option<string>, ghost cuts: seq<Cut>, ghost upto: nat)
    returns (pushed': seq<Batch>)
    requires pushed == Batches(cuts)
    ensures pushed' == Batches(cuts + Flush(held, completed, upto))
  {
    var pending := held;
    if completed.Some? {
      pending := pending.(state := completed);
    }
    pushed' := pushed;
    assert cuts + [] == cuts;
    if |pending.rows| > 0 || pending.state.Some? {
      BatchesLast(cuts, Cut(pending, upto));
      pushed' := pushed' + [pending];
    }
  }

  /**
   `produce`: reads chunk by chunk and pushes; an oversized chunk throws, and the chunk budget ends
   the reading without the completion state. `left` is what the budget still allows, at least one.
   */
  method Produce(chunks: seq<Chunk>, batchSize: nat, maxChunkRows: nat, left: Option<nat>, completed: Option<string>)
    returns (pushed: seq<Batch>, used: nat, ending: Ending)
    requires left.Some? ==> left.value > 0
    ensures used <= |chunks| && ChunksBounded(chunks[..used], maxChunkRows)
    ensures left.Some? ==> used <= left.value
    ensures ending.BudgetCut? <==> left == Some(used)
    ensures ending.Rejected? <==> left != Some(used) && used < |chunks|
    ensures ending.Rejected? ==> |chunks[used].rows| > maxChunkRows
    ensures ending.Rejected? ==> pushed == Batches(Read(batchSize, chunks[..used]).pushed)
    ensures ending.BudgetCut? ==> pushed == Batches(Pushes(batchSize, chunks[..used], None))
    ensures ending.Exhausted? ==> pushed == Batches(Pushes(batchSize, chunks, completed))
  {
    pushed, used := [], 0;
    var pending := EMPTY_BATCH;
    var budgetExhausted := false;
    ghost var cuts: seq<Cut> := [];
    ghost var front: seq<Chunk> := [];
    while !budgetExhausted && used < |chunks|
      invariant used <= |chunks|
      invariant front == chunks[..used] && ChunksBounded(front, maxChunkRows)
      invariant Read(batchSize, front) == Reading(cuts, pending)
      invariant pushed == Batches(cuts)
      invariant left.Some? ==> used <= left.value
      invariant budgetExhausted <==> left == Some(used)
      decreases |chunks| - used
    {
      var chunk := chunks[used];
      if |chunk.rows| > maxChunkRows {
        ending := Rejected;
        return;
      }
      ReadAppend(batchSize, front, chunk);
      PrefixGrows(chunks, used, maxChunkRows);
      front := front + [chunk];
      ghost var fed := Feed(batchSize, pending, chunk, used).pushed;
      pushed, pending := TakeChunk(pushed, pending, chunk, batchSize, cuts, used);
      cuts, used := cuts + fed, used + 1;
      if left.Some? && used >= left.value {
        budgetExhausted := true;
      }
    }
    pushed := FlushHeld(pushed, pending, if budgetExhausted then None else completed, cuts, used);
    assert !budgetExhausted ==> chunks[..used] == chunks;
    ending := if budgetExhausted then BudgetCut else Exhausted;
  }

  // ----- nothing is lost, reordered or mixed -----

  lemma Assoc<T>(a: seq<T>, b: seq<T>, c: seq<T>)
    ensures a + (b + c) == (a + b) + c
  {
  }

  lemma DropAppend<T>(a: seq<T>, b: seq<T>, k: nat)
    requires k <= |a|
    ensures (a + b)[k..] == a[k..] + b
  {
  }

  lemma {:induction false} CutRowsAppend(a: seq<Cut>, b: seq<Cut>)
    ensures CutRows(a + b) == CutRows(a) + CutRows(b)
  {
    if b == [] {
      assert a + b == a;
    } else {
      var front, last := b[..|b| - 1], b[|b| - 1];
      assert b == front + [last];
      CutRowsAppend(a, front);
      Assoc(a, front, [last]);
      CutRowsLast(a + front, last);
      Assoc(CutRows(a), CutRows(front), last.batch.rows);
    }
  }

  lemma {:induction false} ChunkRowsAppend(a: seq<Chunk>, b: seq<Chunk>)
    ensures ChunkRows(a + b) == ChunkRows(a) + ChunkRows(b)
  {
    if b == [] {
      assert a + b == a;
    } else {
      var front, last := b[..|b| - 1], b[|b| - 1];
      ChunkRowsAppend(a, front);
      assert (a + b)[..|a + b| - 1] == a + front && (a + b)[|a + b| - 1] == last;
      Assoc(ChunkRows(a), ChunkRows(front), last.rows);
    }
  }

  lemma CutRowsLast(a: seq<Cut>, c: Cut)
    ensures CutRows(a + [c]) == CutRows(a) + c.batch.rows
  {
    assert (a + [c])[..|a|] == a;
  }

  lemma CutRowsOne(c: Cut)
    ensures CutRows([c]) == c.batch.rows
  {
    assert [c][..0] == [];
  }

  /** Rows are conserved by a reading: what was pushed, then what is held. */
  lemma {:induction false} RowsConserved(batchSize: nat, chunks: seq<Chunk>)
    ensures var r := Read(batchSize, chunks); CutRows(r.pushed) + r.pending.rows == ChunkRows(chunks)
  {
    if chunks != [] {
      var front, c := chunks[..|chunks| - 1], chunks[|chunks| - 1];
      assert chunks == front + [c];
      RowsConserved(batchSize, front);
      ReadAppend(batchSize, front, c);
      var r := Read(batchSize, front);
      var f := Feed(batchSize, r.pending, c, |front|);
      CutRowsAppend(r.pushed, f.pushed);
      FeedConserves(batchSize, r.pending, c, |front|);
      Assoc(CutRows(r.pushed), CutRows(f.pushed), f.pending.rows);
      Assoc(CutRows(r.pushed), r.pending.rows, c.rows);
    }
  }

  lemma FeedConserves(batchSize: nat, pending: Batch, c: Chunk, n: nat)
    ensures var f := Feed(batchSize, pending, c, n); CutRows(f.pushed) + f.pending.rows == pending.rows + c.rows
  {
    var f := Feed(batchSize, pending, c, n);
    if |f.pushed| == 1 {
      CutRowsOne(f.pushed[0]);
    } else if |f.pushed| == 2 {
      assert f.pushed[..1] == [f.pushed[0]];
      CutRowsOne(f.pushed[0]);
    }
  }

  lemma ChunkRowsPrefix(chunks: seq<Chunk>, n: nat, m: nat)
    requires m <= n <= |chunks|
    ensures chunks[..n][..m] == chunks[..m]
  {
  }

  /** The first `k + 1` pushes carry exactly the rows of the chunks read up to the last of them. */
  lemma {:induction false} PushCovers(batchSize: nat, chunks: seq<Chunk>, k: nat)
    requires k < |Read(batchSize, chunks).pushed|
    ensures var p := Read(batchSize, chunks).pushed;
      p[k].upto <= |chunks| && CutRows(p[..k + 1]) == ChunkRows(chunks[..p[k].upto])
  {
    var n := |chunks| - 1;
    var r, c := Read(batchSize, chunks[..n]), chunks[n];
    var f := Feed(batchSize, r.pending, c, n);
    var p := Read(batchSize, chunks).pushed;
    if k < |r.pushed| {
      PushCovers(batchSize, chunks[..n], k);
      assert p[..k + 1] == r.pushed[..k + 1];
      ChunkRowsPrefix(chunks, n, p[k].upto);
    } else if p[k].upto == n + 1 {
      RowsConserved(batchSize, chunks);
      assert p[..k + 1] == p;
      assert chunks[..n + 1] == chunks;
    } else {
      RowsConserved(batchSize, chunks[..n]);
      assert p[..k + 1] == r.pushed + [Cut(r.pending, n)];
      CutRowsAppend(r.pushed, [Cut(r.pending, n)]);
      CutRowsOne(Cut(r.pending, n));
    }
  }

  /** The pushes of a whole reading concatenate to the rows read, and each prefix to a prefix of them. */
  lemma PushesCover(batchSize: nat, chunks: seq<Chunk>, completed: Option<string>, k: nat)
    requires k < |Pushes(batchSize, chunks, completed)|
    ensures var p := Pushes(batchSize, chunks, completed);
      p[k].upto <= |chunks| && CutRows(p[..k + 1]) == ChunkRows(chunks[..p[k].upto])
  {
    var r, p := Read(batchSize, chunks), Pushes(batchSize, chunks, completed);
    if k < |r.pushed| {
      PushCovers(batchSize, chunks, k);
      assert p[..k + 1] == r.pushed[..k + 1];
    } else {
      assert p[..k + 1] == r.pushed + [p[k]];
      CutRowsAppend(r.pushed, [p[k]]);
      CutRowsOne(p[k]);
      RowsConserved(batchSize, chunks);
      assert chunks[..|chunks|] == chunks;
    }
  }

  lemma PushesAreAllRows(batchSize: nat, chunks: seq<Chunk>, completed: Option<string>)
    ensures CutRows(Pushes(batchSize, chunks, completed)) == ChunkRows(chunks)
  {
    var r := Read(batchSize, chunks);
    var f := Flush(r.pending, completed, |chunks|);
    RowsConserved(batchSize, chunks);
    CutRowsAppend(r.pushed, f);
    if f != [] {
      CutRowsOne(f[0]);
    }
  }

  /** A chunk that declares its interval is a batch of its own rows, whatever surrounds it. */
  lemma {:induction false} IntervalIsItsOwnBatch(batchSize: nat, chunks: seq<Chunk>, i: nat)
    requires i < |chunks| && chunks[i].id.Some?
    ensures exists k :: (&& 0 <= k < |Read(batchSize, chunks).pushed|
                         && Read(batchSize, chunks).pushed[k].upto == i + 1
                         && Read(batchSize, chunks).pushed[k].batch.rows == chunks[i].rows)
  {
    var n := |chunks| - 1;
    var r := Read(batchSize, chunks[..n]);
    var p := Read(batchSize, chunks).pushed;
    assert chunks == chunks[..n] + [chunks[n]];
    ReadAppend(batchSize, chunks[..n], chunks[n]);
    if i < n {
      IntervalIsItsOwnBatch(batchSize, chunks[..n], i);
      var k :| 0 <= k < |r.pushed| && r.pushed[k].upto == i + 1 && r.pushed[k].batch.rows == chunks[..n][i].rows;
      assert p[k] == r.pushed[k];
    } else {
      var k := |p| - 1;
      assert p[k].batch.rows == chunks[i].rows;
    }
  }

  /** No batch outgrows the batch size by a whole chunk, and what is held is below the batch size. */
  lemma {:induction false} BatchesBounded(batchSize: nat, chunks: seq<Chunk>, maxChunkRows: nat)
    requires batchSize > 0 && ChunksBounded(chunks, maxChunkRows)
    ensures var r := Read(batchSize, chunks);
      && |r.pending.rows| < batchSize
      && forall k :: 0 <= k < |r.pushed| ==> |r.pushed[k].batch.rows| <= batchSize - 1 + maxChunkRows
  {
    if chunks != [] {
      BatchesBounded(batchSize, chunks[..|chunks| - 1], maxChunkRows);
    }
  }

  // ----- replay -----

  function Shift(cuts: seq<Cut>, d: nat): (s: seq<Cut>)
    ensures |s| == |cuts|
  {
    if cuts == [] then []
    else
      var last := cuts[|cuts| - 1];
      Shift(cuts[..|cuts| - 1], d) + [Cut(last.batch, last.upto + d)]
  }

  lemma ShiftAt(cuts: seq<Cut>, d: nat, i: nat)
    requires i < |cuts|
    ensures Shift(cuts, d)[i] == Cut(cuts[i].batch, cuts[i].upto + d)
  {
    if i < |cuts| - 1 {
      ShiftAt(cuts[..|cuts| - 1], d, i);
    }
  }

  lemma ShiftAppend(a: seq<Cut>, b: seq<Cut>, d: nat)
    ensures Shift(a + b, d) == Shift(a, d) + Shift(b, d)
  {
    if b == [] {
      assert a + b == a;
    } else {
      var front, last := b[..|b| - 1], b[|b| - 1];
      assert b == front + [last];
      ShiftAppend(a, front, d);
      Assoc(a, front, [last]);
      assert (a + front + [last])[..|a + front|] == a + front;
      Assoc(Shift(a, d), Shift(front, d), [Cut(last.batch, last.upto + d)]);
    }
  }

  lemma FeedShifts(batchSize: nat, pending: Batch, c: Chunk, pos: nat, d: nat)
    ensures Shift(Feed(batchSize, pending, c, pos).pushed, d) == Feed(batchSize, pending, c, pos + d).pushed
  {
    var f := Feed(batchSize, pending, c, pos).pushed;
    if |f| > 0 {
      ShiftAt(f, d, 0);
    }
    if |f| > 1 {
      ShiftAt(f, d, 1);
    }
  }

  lemma FlushShifts(pending: Batch, completed: Option<string>, upto: nat, d: nat)
    ensures Shift(Flush(pending, completed, upto), d) == Flush(pending, completed, upto + d)
  {
    if Flush(pending, completed, upto) != [] {
      ShiftAt(Flush(pending, completed, upto), d, 0);
    }
  }

  /** Reading again from behind any pushed batch regroups the rest identically. */
  lemma {:induction false} ReplayRegroups(batchSize: nat, chunks: seq<Chunk>, k: nat)
    requires k < |Read(batchSize, chunks).pushed|
    ensures var r := Read(batchSize, chunks);
      var e := r.pushed[k].upto;
      && e <= |chunks|
      && Read(batchSize, chunks[e..]).pending == r.pending
      && Shift(Read(batchSize, chunks[e..]).pushed, e) == r.pushed[k + 1..]
  {
    var n := |chunks| - 1;
    var r0, c, r := Read(batchSize, chunks[..n]), chunks[n], Read(batchSize, chunks);
    var e := r.pushed[k].upto;
    var f := Feed(batchSize, r0.pending, c, n).pushed;
    if k < |r0.pushed| {
      var front := chunks[..n];
      assert chunks == front + [c];
      ReplayRegroups(batchSize, front, k);
      RegroupOneMore(batchSize, front, c, e);
      DropAppend(r0.pushed, f, k + 1);
    } else {
      RegroupLast(batchSize, chunks, k);
    }
  }

  lemma RegroupOneMore(batchSize: nat, front: seq<Chunk>, c: Chunk, e: nat)
    requires e <= |front| && Read(batchSize, front[e..]).pending == Read(batchSize, front).pending
    ensures var chunks := front + [c];
      && Read(batchSize, chunks[e..]).pending == Read(batchSize, chunks).pending
      && Shift(Read(batchSize, chunks[e..]).pushed, e)
         == Shift(Read(batchSize, front[e..]).pushed, e) + Feed(batchSize, Read(batchSize, front).pending, c, |front|).pushed
  {
    var tail, n := front[e..], |front| - e;
    DropAppend(front, [c], e);
    ReadAppend(batchSize, tail, c);
    ReadAppend(batchSize, front, c);
    var s := Read(batchSize, tail);
    FeedShifts(batchSize, s.pending, c, n, e);
    ShiftAppend(s.pushed, Feed(batchSize, s.pending, c, n).pushed, e);
  }

  lemma RegroupLast(batchSize: nat, chunks: seq<Chunk>, k: nat)
    requires chunks != []
    requires |Read(batchSize, chunks[..|chunks| - 1]).pushed| <= k < |Read(batchSize, chunks).pushed|
    ensures var r := Read(batchSize, chunks);
      var e := r.pushed[k].upto;
      && e <= |chunks|
      && Read(batchSize, chunks[e..]).pending == r.pending
      && Shift(Read(batchSize, chunks[e..]).pushed, e) == r.pushed[k + 1..]
  {
    var n := |chunks| - 1;
    var c, r := chunks[n], Read(batchSize, chunks);
    if r.pushed[k].upto == n + 1 {
      assert chunks[n + 1..] == [];
      assert r.pushed[k + 1..] == [];
    } else {
      assert chunks[n..] == [c] && [c] == [] + [c];
      ReadAppend(batchSize, [], c);
      var one := Read(batchSize, [c]);
      assert one.pushed == [Cut(Merge(EMPTY_BATCH, c), 1)];
      assert r.pushed[k + 1..] == [Cut(Merge(EMPTY_BATCH, c), n + 1)];
    }
  }

  /** Regrouping behind a batch that was not the final flush, completion included. */
  lemma ReplayPushes(batchSize: nat, chunks: seq<Chunk>, completed: Option<string>, k: nat)
    requires k < |Read(batchSize, chunks).pushed|
    ensures var e := Read(batchSize, chunks).pushed[k].upto;
      && e <= |chunks|
      && Shift(Pushes(batchSize, chunks[e..], completed), e) == Pushes(batchSize, chunks, completed)[k + 1..]
  {
    ReplayRegroups(batchSize, chunks, k);
    var r := Read(batchSize, chunks);
    var e := r.pushed[k].upto;
    FlushRegroups(r, Read(batchSize, chunks[e..]), completed, |chunks|, e, k);
  }

  lemma FlushRegroups(r: Reading, s: Reading, completed: Option<string>, n: nat, e: nat, k: nat)
    requires e <= n && k < |r.pushed| && s.pending == r.pending && Shift(s.pushed, e) == r.pushed[k + 1..]
    ensures Shift(s.pushed + Flush(s.pending, completed, n - e), e)
      == (r.pushed + Flush(r.pending, completed, n))[k + 1..]
  {
    ShiftAppend(s.pushed, Flush(s.pending, completed, n - e), e);
    FlushShifts(r.pending, completed, n - e, e);
    DropAppend(r.pushed, Flush(r.pending, completed, n), k + 1);
  }

  // ----- where a state comes from -----

  /** A batch never claims a state of a chunk behind its own last one. */
  lemma {:induction false} StateIsOfAReadChunk(batchSize: nat, chunks: seq<Chunk>)
    ensures var r := Read(batchSize, chunks);
      && (r.pending.state.Some? ==> exists j :: 0 <= j < |chunks| && chunks[j].state == r.pending.state)
      && forall k :: 0 <= k < |r.pushed| && r.pushed[k].batch.state.Some? ==>
        exists j :: 0 <= j < r.pushed[k].upto <= |chunks| && chunks[j].state == r.pushed[k].batch.state
  {
    if chunks != [] {
      var n := |chunks| - 1;
      StateIsOfAReadChunk(batchSize, chunks[..n]);
      var r0, r := Read(batchSize, chunks[..n]), Read(batchSize, chunks);
      assert r0.pending.state.Some? ==> exists j :: 0 <= j < n && chunks[j].state == r0.pending.state;
      forall k | 0 <= k < |r.pushed| && r.pushed[k].batch.state.Some?
        ensures exists j :: 0 <= j < r.pushed[k].upto <= |chunks| && chunks[j].state == r.pushed[k].batch.state
      {
        if k < |r0.pushed| {
          assert r.pushed[k] == r0.pushed[k];
          var j :| 0 <= j < r0.pushed[k].upto <= n && chunks[..n][j].state == r0.pushed[k].batch.state;
          assert chunks[j].state == r.pushed[k].batch.state;
        }
      }
    }
  }

  /** A pushed state is that of a chunk the push covers, or the completion state behind all chunks. */
  predicate StateFrom(chunks: seq<Chunk>, completed: Option<string>, c: Cut) {
    c.upto <= |chunks|
    && ((exists j :: 0 <= j < c.upto && chunks[j].state == c.batch.state)
        || (c.upto == |chunks| && completed == c.batch.state))
  }

  lemma PushedStateOrigin(batchSize: nat, chunks: seq<Chunk>, completed: Option<string>, k: nat)
    requires k < |Pushes(batchSize, chunks, completed)|
    requires Pushes(batchSize, chunks, completed)[k].batch.state.Some?
    ensures StateFrom(chunks, completed, Pushes(batchSize, chunks, completed)[k])
  {
    StateIsOfAReadChunk(batchSize, chunks);
    var r := Read(batchSize, chunks);
    if k < |r.pushed| {
      assert Pushes(batchSize, chunks, completed)[k] == r.pushed[k];
    }
  }
}
