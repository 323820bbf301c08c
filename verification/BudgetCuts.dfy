/**
 Why a chunk budget needs chunks with ids: when it ends a reading in the middle of a batch that carries
 no state, the next attempt groups the same rows into another batch and stores them again.
 */
module BudgetCuts {
  import opened Wrappers
  import opened Digest
  import opened Journal
  import opened Batching
  import opened Loading
  import opened Ingestion
  import opened IngestionInvariant
  import opened IngestionSafety
  import opened Replay
  import opened ExactlyOnce
  import opened SyncRuns
  import M = Misaligned

  /** The same sync, but its budget may end a reading behind any chunk. */
  function Loose(y: Sync): Sync {
    y.(source := [])
  }

  /** The first `n` chunks fill no batch, hold rows, and carry no state. */
  predicate HeldBack(cfg: Config, y: Sync, n: nat) {
    && 0 < n <= |y.source|
    && var r := Read(cfg.batchSize, y.source[..n]);
      r.pushed == [] && r.pending.rows != [] && r.pending.state.None?
  }

  /** What the budget cuts off as a batch. */
  function CutOff(cfg: Config, y: Sync, n: nat): Cut
    requires n <= |y.source|
  {
    Cut(Read(cfg.batchSize, y.source[..n]).pending, n)
  }

  // ----- reading up to the cut -----

  lemma NothingPushed(cfg: Config, chunks: seq<Chunk>, i: nat, n: nat)
    requires i < n <= |chunks| && Read(cfg.batchSize, chunks[..n]).pushed == []
    ensures Feed(cfg.batchSize, Read(cfg.batchSize, chunks[..i]).pending, chunks[i], i).pushed == []
  {
    assert chunks[..n][..i + 1] == chunks[..i + 1] && chunks[..i + 1] == chunks[..i] + [chunks[i]];
    ReadIsMonotone(cfg.batchSize, chunks[..n], i + 1);
    ReadAppend(cfg.batchSize, chunks[..i], chunks[i]);
  }

  /** The attempt read `n` chunks and handed nothing over. */
  function ReadTo(s: Sys, n: nat): Sys
    requires InAttempt(s)
  {
    s.(run := Some(s.run.value.(handoff := [])), attempts := ReplaceLast(s.attempts, Last(s).(pos := n)))
  }

  predicate Starts(s: Sys) {
    Between(s) && s.run.value.handoff == [] && !Last(s).ended && Last(s).pos == 0
  }

  lemma {:induction false} ReadsOn(cfg: Config, y: Sync, s: Sys, n: nat)
    requires cfg.maxRows > 0 && Working(y, s) && Starts(s) && n <= |Chunks(cfg, |s.attempts| - 1, Last(s))|
    requires Read(cfg.batchSize, Chunks(cfg, |s.attempts| - 1, Last(s))[..n]).pushed == []
    ensures Leads(cfg, y, s, ReadTo(s, n))
  {
    if n == 0 {
      Stay(cfg, y, s);
      assert ReadTo(s, 0) == s;
    } else {
      var chunks := Chunks(cfg, |s.attempts| - 1, Last(s));
      assert chunks[..n][..n - 1] == chunks[..n - 1];
      ReadIsMonotone(cfg.batchSize, chunks[..n], n - 1);
      ReadsOn(cfg, y, s, n - 1);
      NothingPushed(cfg, chunks, n - 1, n);
      OneChunk(cfg, y, s, n - 1);
      Both(cfg, y, s, ReadTo(s, n - 1), ReadTo(s, n));
    }
  }

  lemma OneChunk(cfg: Config, y: Sync, s: Sys, n: nat)
    requires cfg.maxRows > 0 && Working(y, s) && Starts(s) && n < |Chunks(cfg, |s.attempts| - 1, Last(s))|
    requires Feed(cfg.batchSize, Read(cfg.batchSize, Chunks(cfg, |s.attempts| - 1, Last(s))[..n]).pending,
                  Chunks(cfg, |s.attempts| - 1, Last(s))[n], n).pushed == []
    ensures Leads(cfg, y, ReadTo(s, n), ReadTo(s, n + 1))
  {
    hide LastSuccessSeq, Feed, Read, Leads;
    Turns(cfg, y, ReadTo(s, n));
    assert TurnOf(cfg, ReadTo(s, n)) == ReadTo(s, n + 1);
  }

  /** The budget is used up: what is held becomes a batch. */
  function CutAt(s: Sys, n: nat, c: Cut): Sys
    requires InAttempt(s)
  {
    s.(run := Some(s.run.value.(handoff := [c])), attempts := ReplaceLast(s.attempts, Last(s).(pos := n, ended := true, cutShort := true)))
  }

  lemma CutsHere(cfg: Config, y: Sync, s: Sys, n: nat, c: Cut)
    requires cfg.maxRows > 0 && Working(y, s) && Starts(s) && y.source == [] && 0 < n <= |Chunks(cfg, |s.attempts| - 1, Last(s))|
    requires c == Cut(Read(cfg.batchSize, Chunks(cfg, |s.attempts| - 1, Last(s))[..n]).pending, n) && c.batch.rows != []
    ensures Leads(cfg, y, ReadTo(s, n), CutAt(s, n, c))
  {
    hide LastSuccessSeq, Read;
    Stay(cfg, y, ReadTo(s, n));
    hide Leads;
    Then(cfg, y, ReadTo(s, n), ReadTo(s, n), CutsRead, CutAt(s, n, c));
  }

  // ----- the first attempt -----

  /** What the cut batch leaves: its rows, its tokens, and the checkpoint as it was. */
  ghost predicate CutStored(cfg: Config, y: Sync, s: Sys, t: Sys, c: Cut) {
    && Working(y, t) && |t.attempts| == |s.attempts| && Stock(cfg, y, t) == Stock(cfg, y, s) + c.batch.rows
    && t.line.version == s.line.version && t.line.envelope == s.line.envelope
    && AllOlder(cfg, y, t.dest.tokens, t.line.version, 1)
    && OnlyAdds(s.dest.tokens, t.dest.tokens, BatchId(cfg.scope.namespaceId, y.lastSuccess, s.line.version, 0, cfg.discriminator(c.batch)))
  }

  lemma CutCommits(cfg: Config, y: Sync, s: Sys, n: nat, c: Cut) returns (t: Sys)
    requires cfg.maxRows > 0 && Working(y, s) && Starts(s) && s.run.value.since == 0 && c.batch.state.None?
    requires AllOlder(cfg, y, s.dest.tokens, s.line.version, 0)
    ensures Leads(cfg, y, CutAt(s, n, c), t) && CutStored(cfg, y, s, t, c)
  {
    var m := CutAt(s, n, c);
    IdIsNew(cfg, y, m, c);
    OlderStill(cfg, y, m.dest.tokens, m.line.version, 0);
    hide AllOlder, Unused, Leads, LastSuccessSeq, BatchId, OnlyAdds;
    SameStock(cfg, y, s, m);
    hide Stock, Cuts;
    t := OneBatch(cfg, y, m);
    assert SpotOf(t) == Spot(s.line.version, s.line.envelope, 1);
  }

  /** An attempt that just began, its budget used up after `n` chunks. */
  lemma CutAttempt(cfg: Config, y: Sync, s: Sys, n: nat, c: Cut) returns (t: Sys)
    requires cfg.maxRows > 0 && Working(y, s) && Starts(s) && s.run.value.since == 0 && y.source == []
    requires AllOlder(cfg, y, s.dest.tokens, s.line.version, 0)
    requires 0 < n <= |Chunks(cfg, |s.attempts| - 1, Last(s))|
    requires var r := Read(cfg.batchSize, Chunks(cfg, |s.attempts| - 1, Last(s))[..n]);
      r.pushed == [] && c == Cut(r.pending, n) && r.pending.rows != [] && r.pending.state.None?
    ensures Leads(cfg, y, s, t) && CutStored(cfg, y, s, t, c)
  {
    hide Working, AllOlder, Leads, CutStored, Read, Starts;
    ReadsOn(cfg, y, s, n);
    StartsIsIn(s);
    CutsHere(cfg, y, s, n, c);
    t := CutCommits(cfg, y, s, n, c);
    Both(cfg, y, s, ReadTo(s, n), CutAt(s, n, c));
    Both(cfg, y, s, CutAt(s, n, c), t);
  }

  lemma StartsIsIn(s: Sys)
    requires Starts(s)
    ensures InAttempt(s)
  {
  }

  lemma BegunStarts(s: Sys)
    requires s.line.live
    ensures var b := Begun(s); Starts(b) && b.run.value.since == 0 && Last(b).start == StateOf(s.line.envelope) && |b.attempts| == |s.attempts| + 1
  {
  }

  /** A new attempt, whatever was stored before. */
  lemma BeginAgain(cfg: Config, y: Sync, s: Sys)
    requires cfg.maxRows > 0 && Reachable(cfg, s) && Working(y, s) && s.run.None? && |s.attempts| < y.beyond
    ensures Leads(cfg, y, s, Begun(s)) && Reachable(cfg, Begun(s)) && Working(y, Begun(s))
  {
    hide Reachable, LastSuccessSeq;
    Stay(cfg, y, s);
    hide Leads;
    Then(cfg, y, s, s, StartsAttempt, Begun(s));
    LeadsStaysReachable(cfg, y, s, Begun(s));
  }

  lemma FirstReads(cfg: Config, y: Sync, b: Sys)
    requires Replays(cfg, y) && |b.attempts| > 0 && y.first <= |b.attempts| - 1 < y.beyond && Last(b).start == StateOf(y.envelope)
    ensures Chunks(cfg, |b.attempts| - 1, Last(b)) == y.source
    ensures cfg.complete(|b.attempts| - 1, Last(b).start) == y.completed
  {
    assert y.source[0..] == y.source;
  }

  lemma LooseStock(cfg: Config, y: Sync, s: Sys)
    ensures Stock(cfg, Loose(y), s) == Stock(cfg, y, s)
  {
    LooseKept(cfg, y, s.dest.log);
  }

  lemma {:induction false} LooseKept(cfg: Config, y: Sync, log: seq<Insert>)
    ensures Kept(cfg, Loose(y), log) == Kept(cfg, y, log)
  {
    if log != [] {
      LooseKept(cfg, y, log[..|log| - 1]);
      assert OfSync(cfg, Loose(y), log[|log| - 1].token) == OfSync(cfg, y, log[|log| - 1].token);
    }
  }

  lemma LooseStarts(cfg: Config, y: Sync, s: Sys)
    requires cfg.maxRows > 0 && SyncStarts(cfg, y, s)
    ensures SyncStarts(cfg, Loose(y), s)
  {
    LooseKept(cfg, y, s.dest.log);
    hide Reachable, Kept, TokensMatch, Projection;
    forall x | x in s.flights ensures !OfSync(cfg, Loose(y), x.token) {
      assert OfSync(cfg, Loose(y), x.token) == OfSync(cfg, y, x.token);
    }
  }

  // ----- the second attempt -----

  lemma OneCut(c: Cut)
    ensures CutRows([] + [c]) == c.batch.rows && Ingestion.Cuts([]) == []
  {
    CutRowsOne(c);
    assert [] + [c] == [c];
  }

  /** Behind its first batch the attempt is on its way, like any other. */
  lemma FirstBatch(cfg: Config, y: Sync, s: Sys) returns (t: Sys)
    requires cfg.maxRows > 0 && Reachable(cfg, s) && Working(y, s) && Starts(s) && s.run.value.since == 0 && Last(s).loaded == []
    requires Whole(cfg, s) != [] && Last(s).start == StateOf(s.line.envelope)
    requires AllOlder(cfg, y, s.dest.tokens, s.line.version, 1) && Unused(s.dest.tokens, IdNow(cfg, y, s, Whole(cfg, s)[0]))
    ensures Leads(cfg, y, s, t) && OnItsWay(cfg, y, Stock(cfg, y, s), t)
    ensures |t.attempts| == |s.attempts| && Last(t).start == Last(s).start
  {
    hide Reachable, Leads, Working, AllOlder, Unused, Traced, CutRows, Stock, Whole, OnlyAdds;
    var c := Whole(cfg, s)[0];
    OneCut(c);
    hide Ingestion.Cuts;
    var m := Fetch(cfg, y, s);
    LeadsStaysReachable(cfg, y, s, m);
    SameWhole(cfg, s, m);
    FetchedIsWorking(y, s, m);
    LoadedWithinWhole(cfg, m);
    HeadOfWhole(Ingestion.Cuts(Last(m).loaded), m.run.value.handoff, Whole(cfg, m));
    assert IdNow(cfg, y, m, c) == IdNow(cfg, y, s, c);
    t := OneBatch(cfg, y, m);
    LeadsStaysReachable(cfg, y, m, t);
    Both(cfg, y, s, m, t);
    SameStock(cfg, y, s, m);
    assert Traced([], Last(s).start, StateOf(s.line.envelope)) by {
      NothingTraced(Last(s).start);
    }
    MoreTraced(cfg, [], c, Last(s).start, s.line.envelope);
  }

  lemma NothingTraced(start: Option<string>)
    ensures Traced([], start, start)
  {
  }

  /** Behind the cut, all rows are stored under identities that are new. */
  lemma StoresAllAgain(cfg: Config, y: Sync, z: Sync, s: Sys) returns (t: Sys, e: Event)
    requires cfg.maxRows > 0 && Replays(cfg, y) && z == Loose(y) && Plan(cfg, y) != []
    requires Reachable(cfg, s) && Working(z, s) && s.run.None? && |s.attempts| == y.first + 1 < y.beyond && s.line.envelope == y.envelope
    requires AllOlder(cfg, z, s.dest.tokens, s.line.version, 1)
    requires Unused(s.dest.tokens, BatchId(cfg.scope.namespaceId, y.lastSuccess, s.line.version, 0, cfg.discriminator(Plan(cfg, y)[0].batch)))
    ensures Leads(cfg, z, s, t) && Succeeds(y, t, e) && Stock(cfg, z, t) == Stock(cfg, z, s) + ChunkRows(y.source)
  {
    var b := Begun(s);
    BeginAgain(cfg, z, s);
    BegunStarts(s);
    FirstReads(cfg, y, b);
    assert Whole(cfg, b) == Plan(cfg, y);
    PushesAreAllRows(cfg.batchSize, y.source, y.completed);
    SameStock(cfg, z, s, b);
    hide Reachable, Leads, Replays, Working, AllOlder, Stock, CutRows, ChunkRows, Pushes, Plan, Whole, OnItsWay, Unused, BatchId, Starts;
    BegunLoads(s);
    var m := FirstBatch(cfg, z, b);
    SameWhole(cfg, b, m);
    t, e := FinishAttempt(cfg, z, Stock(cfg, z, s), m);
    Both(cfg, z, s, b, m);
    Both(cfg, z, s, m, t);
  }

  lemma BegunLoads(s: Sys)
    ensures var b := Begun(s);
      b.attempts != [] && Last(b).loaded == [] && Last(b).start == StateOf(b.line.envelope) && b.line == s.line && b.dest == s.dest
  {
  }

  /** An identity with another discriminator is none of the tokens. */
  lemma OtherIdentity(cfg: Config, y: Sync, few: set<Token>, many: set<Token>, version: nat, d: string, d': string)
    requires AllOlder(cfg, y, few, version, 0) && d != d'
    requires OnlyAdds(few, many, BatchId(cfg.scope.namespaceId, y.lastSuccess, version, 0, d))
    ensures Unused(many, BatchId(cfg.scope.namespaceId, y.lastSuccess, version, 0, d'))
  {
    var id, id' := BatchId(cfg.scope.namespaceId, y.lastSuccess, version, 0, d), BatchId(cfg.scope.namespaceId, y.lastSuccess, version, 0, d');
    if id == id' {
      BatchIdInjective(cfg.scope.namespaceId, y.lastSuccess, version, 0, d, cfg.scope.namespaceId, y.lastSuccess, version, 0, d');
    }
    PresentIsNotOlder(cfg, y, version, 0, d');
    hide BatchId, Older;
    forall x | x in many ensures x.batchId != id' {
      assert x.batchId == id' ==> OfSync(cfg, y, x);
    }
  }

  /** The first process reads `n` chunks, stores them as a batch of their own, and crashes. */
  lemma CutAndCrash(cfg: Config, y: Sync, z: Sync, p: Sys, s: Sys, n: nat) returns (u: Sys)
    requires cfg.maxRows > 0 && Replays(cfg, y) && z == Loose(y) && Restart(cfg, p, s) && SyncStarts(cfg, z, s) && y.first < y.beyond
    requires HeldBack(cfg, y, n)
    ensures Leads(cfg, z, s, u) && Reachable(cfg, u) && Working(z, u) && u.run.None?
    ensures |u.attempts| == y.first + 1 && u.line.envelope == y.envelope && u.line.version == s.line.version
    ensures AllOlder(cfg, z, u.dest.tokens, u.line.version, 1) && AllOlder(cfg, z, s.dest.tokens, s.line.version, 0)
    ensures OnlyAdds(s.dest.tokens, u.dest.tokens, BatchId(cfg.scope.namespaceId, y.lastSuccess, s.line.version, 0, cfg.discriminator(CutOff(cfg, y, n).batch)))
    ensures Stock(cfg, z, u) == ChunkRows(y.source[..n])
  {
    var c := CutOff(cfg, y, n);
    StartIsWorking(cfg, z, p, s);
    assert Reachable(cfg, s) && |s.attempts| == y.first;
    RowsConserved(cfg.batchSize, y.source[..n]);
    HeldRows(cfg, y, n);
    hide SyncStarts, Restart, Reachable, Leads, Working, AllOlder, Stock, ChunkRows, Read, BatchId, OnlyAdds, Starts;
    var b := Begun(s);
    BeginAgain(cfg, z, s);
    BegunStarts(s) by {
      WorkingIsLive(z, s);
    }
    BegunLoads(s);
    FirstReads(cfg, y, b);
    hide Replays;
    var t := CutAttempt(cfg, z, b, n, c);
    hide Begun;
    LeadsStaysReachable(cfg, z, b, t);
    u := CrashAndRestart(cfg, z, t);
    SameStock(cfg, z, t, u);
    SameStock(cfg, z, s, b);
    Both(cfg, z, s, b, t);
    Both(cfg, z, s, t, u);
  }

  lemma HeldRows(cfg: Config, y: Sync, n: nat)
    requires HeldBack(cfg, y, n)
    ensures [] + CutOff(cfg, y, n).batch.rows == ChunkRows(y.source[..n])
  {
    RowsConserved(cfg.batchSize, y.source[..n]);
    assert CutRows([]) == [];
    hide Read, ChunkRows;
  }

  lemma WorkingIsLive(y: Sync, s: Sys)
    requires Working(y, s)
    ensures s.line.live
  {
  }

  /**
   When a chunk budget ends a reading behind chunks that were still held back, and the discriminator tells
   that batch from the one they belong to, there is a successful run that stores those chunks twice.
   */
  lemma BudgetCutRepeatsRows(cfg: Config, y: Sync, p: Sys, s: Sys, n: nat) returns (states: seq<Sys>, acts: seq<Act>, e: Event)
    requires cfg.maxRows > 0 && Replays(cfg, y) && Restart(cfg, p, s) && SyncStarts(cfg, y, s) && y.first + 2 <= y.beyond
    requires HeldBack(cfg, y, n) && Plan(cfg, y) != []
    requires cfg.discriminator(Plan(cfg, y)[0].batch) != cfg.discriminator(CutOff(cfg, y, n).batch)
    ensures IsSync(cfg, Loose(y), states, acts) && states[0] == s && Succeeds(y, states[|acts|], e)
    ensures Stock(cfg, y, states[|acts|]) == ChunkRows(y.source[..n]) + ChunkRows(y.source)
  {
    var z := Loose(y);
    LooseStarts(cfg, y, s);
    hide SyncStarts, SyncStep, Restart, Reachable, Replays, Working, AllOlder, Unused, Plan, Stock, ChunkRows, BatchId, OnlyAdds, CutOff, HeldBack;
    var u := CutAndCrash(cfg, y, z, p, s, n);
    OtherIdentity(cfg, z, s.dest.tokens, u.dest.tokens, u.line.version, cfg.discriminator(CutOff(cfg, y, n).batch),
                  cfg.discriminator(Plan(cfg, y)[0].batch));
    var t;
    t, e := StoresAllAgain(cfg, y, z, u);
    Both(cfg, z, s, u, t);
    LooseStock(cfg, y, t);
    states, acts :| Joins(cfg, z, s, t, states, acts);
  }
}
