/**
 What the batches of the producer hold, said of the chunks they were read from.
 */
module BatchContents {
  import opened Wrappers
  import opened Batching

  /** The ids of these chunks in their order, and none at all as soon as one of them has none. */
  predicate TellsIds(b: Batch, part: seq<Chunk>) {
    if forall i :: 0 <= i < |part| ==> part[i].id.Some? then
      b.intervalIds.Some? && |b.intervalIds.value| == |part| && forall i :: 0 <= i < |part| ==> part[i].id == Some(b.intervalIds.value[i])
    else b.intervalIds == None
  }

  /** The state of the last of these chunks that has one. */
  predicate TellsState(b: Batch, part: seq<Chunk>) {
    if b.state.None? then forall i :: 0 <= i < |part| ==> part[i].state.None?
    else exists i :: 0 <= i < |part| && part[i].state == b.state && forall j :: i < j < |part| ==> part[j].state.None?
  }

  predicate Tells(b: Batch, part: seq<Chunk>) {
    b.rows == ChunkRows(part) && TellsIds(b, part) && TellsState(b, part)
  }

  lemma MergeTells(b: Batch, part: seq<Chunk>, c: Chunk)
    requires Tells(b, part)
    ensures Tells(Merge(b, c), part + [c])
  {
    var all, m := part + [c], Merge(b, c);
    assert all[..|part|] == part && all[|part|] == c;
    assert forall i :: 0 <= i < |part| ==> all[i] == part[i];
    if m.state.Some? {
      if c.state.Some? {
        assert all[|part|].state == m.state;
      } else {
        var i :| 0 <= i < |part| && part[i].state == b.state && forall j :: i < j < |part| ==> part[j].state.None?;
        assert all[i].state == m.state;
      }
    }
  }

  lemma NothingTold()
    ensures Tells(EMPTY_BATCH, [])
  {
  }

  /** The number of chunks read when the batch numbered `k` begins. */
  function BeginOf(cuts: seq<Cut>, k: nat): nat
    requires k <= |cuts|
  {
    if k == 0 then 0 else cuts[k - 1].upto
  }

  predicate CutTells(cuts: seq<Cut>, chunks: seq<Chunk>, k: nat)
    requires k < |cuts|
  {
    BeginOf(cuts, k) <= cuts[k].upto <= |chunks| && Tells(cuts[k].batch, chunks[BeginOf(cuts, k)..cuts[k].upto])
  }

  /** What is pushed and held tells all chunks read, each exactly once. */
  predicate ReadingTells(r: Reading, chunks: seq<Chunk>) {
    && (forall k :: 0 <= k < |r.pushed| ==> CutTells(r.pushed, chunks, k))
    && BeginOf(r.pushed, |r.pushed|) <= |chunks| && Tells(r.pending, chunks[BeginOf(r.pushed, |r.pushed|)..])
  }

  lemma CutStillTells(cuts: seq<Cut>, more: seq<Cut>, chunks: seq<Chunk>, c: Chunk, k: nat)
    requires k < |cuts| && cuts <= more && CutTells(cuts, chunks, k)
    ensures CutTells(more, chunks + [c], k)
  {
    assert (chunks + [c])[BeginOf(cuts, k)..cuts[k].upto] == chunks[BeginOf(cuts, k)..cuts[k].upto];
  }

  /** A chunk joins what is held. */
  lemma JoinTells(r: Reading, chunks: seq<Chunk>, c: Chunk)
    requires ReadingTells(r, chunks)
    ensures ReadingTells(Reading(r.pushed, Merge(r.pending, c)), chunks + [c])
  {
    var from, all := BeginOf(r.pushed, |r.pushed|), chunks + [c];
    MergeTells(r.pending, chunks[from..], c);
    hide Tells, Merge;
    assert all[from..] == chunks[from..] + [c];
    forall k | 0 <= k < |r.pushed| ensures CutTells(r.pushed, all, k) {
      CutStillTells(r.pushed, r.pushed, chunks, c, k);
    }
  }

  /** The held batch is pushed as it is. */
  lemma PushTells(r: Reading, chunks: seq<Chunk>)
    requires ReadingTells(r, chunks)
    ensures ReadingTells(Reading(r.pushed + [Cut(r.pending, |chunks|)], EMPTY_BATCH), chunks)
  {
    NothingTold();
    hide Tells;
    var from, pushed := BeginOf(r.pushed, |r.pushed|), r.pushed + [Cut(r.pending, |chunks|)];
    assert chunks[from..|chunks|] == chunks[from..] && chunks[|chunks|..] == [];
    forall k | 0 <= k < |r.pushed| ensures CutTells(pushed, chunks, k) {
      assert CutTells(r.pushed, chunks, k);
    }
  }

  /**
   Every batch tells the chunks between the batch before and its own mark: their rows, their ids if all of them
   have one, and the state of the last one that has a state. What is held tells the chunks behind the last mark.
   */
  lemma {:induction false} BatchesTellTheirChunks(batchSize: nat, chunks: seq<Chunk>)
    ensures ReadingTells(Read(batchSize, chunks), chunks)
  {
    hide ReadingTells, Merge;
    if chunks == [] {
      NothingReadTells();
    } else {
      var front, c := chunks[..|chunks| - 1], chunks[|chunks| - 1];
      assert chunks == front + [c];
      BatchesTellTheirChunks(batchSize, front);
      var r := Read(batchSize, front);
      ReadAppend(batchSize, front, c);
      if c.id.Some? && |r.pending.rows| > 0 {
        PushTells(r, front);
        TurnTells(Reading(r.pushed + [Cut(r.pending, |front|)], EMPTY_BATCH), front, c);
        Assoc(r.pushed, [Cut(r.pending, |front|)], [Cut(Merge(EMPTY_BATCH, c), |chunks|)]);
      } else {
        TurnTells(r, front, c);
        assert r.pushed + [] == r.pushed;
        assert [] + [Cut(Merge(r.pending, c), |chunks|)] == [Cut(Merge(r.pending, c), |chunks|)];
      }
    }
  }

  /** The chunk joins, and when the batch is full or the chunk has an id the batch is pushed. */
  lemma TurnTells(r: Reading, chunks: seq<Chunk>, c: Chunk)
    requires ReadingTells(r, chunks)
    ensures var joined := Merge(r.pending, c);
      && ReadingTells(Reading(r.pushed, joined), chunks + [c])
      && ReadingTells(Reading(r.pushed + [Cut(joined, |chunks| + 1)], EMPTY_BATCH), chunks + [c])
  {
    hide ReadingTells, Merge;
    JoinTells(r, chunks, c);
    PushTells(Reading(r.pushed, Merge(r.pending, c)), chunks + [c]);
  }

  lemma NothingReadTells()
    ensures ReadingTells(Reading([], EMPTY_BATCH), [])
  {
    NothingTold();
    var none: seq<Chunk> := [];
    assert none[0..] == [];
  }
}
