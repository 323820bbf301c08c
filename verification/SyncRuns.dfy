/**
 Runs of one sync, built step by step: a batch is written and committed, an attempt goes on to its end,
 a process crashes and the next one reads the checkpoint, the work succeeds.
 */
module SyncRuns {
  import opened Wrappers
  import opened Digest
  import opened Journal
  import opened Batching
  import opened Loading
  import opened Ingestion
  import opened IngestionInvariant
  import opened IngestionSafety
  import opened Replay
  import opened ExactlyOnce
  import Appends

  // ----- building runs -----

  ghost predicate Path(cfg: Config, y: Sync, states: seq<Sys>, acts: seq<Act>)
    requires cfg.maxRows > 0
  {
    |states| == |acts| + 1 && forall i :: 0 <= i < |acts| ==> SyncStep(cfg, y, states[i], acts[i], states[i + 1])
  }

  ghost predicate Joins(cfg: Config, y: Sync, s: Sys, t: Sys, states: seq<Sys>, acts: seq<Act>)
    requires cfg.maxRows > 0
  {
    Path(cfg, y, states, acts) && states[0] == s && states[|acts|] == t
  }

  /** Steps of the sync lead from one state to the other. */
  ghost predicate Leads(cfg: Config, y: Sync, s: Sys, t: Sys)
    requires cfg.maxRows > 0
  {
    exists states, acts :: Joins(cfg, y, s, t, states, acts)
  }

  lemma Stay(cfg: Config, y: Sync, s: Sys)
    requires cfg.maxRows > 0
    ensures Leads(cfg, y, s, s)
  {
    hide SyncStep;
    assert Joins(cfg, y, s, s, [s], []);
  }

  lemma Then(cfg: Config, y: Sync, s: Sys, m: Sys, act: Act, t: Sys)
    requires cfg.maxRows > 0 && Leads(cfg, y, s, m) && SyncStep(cfg, y, m, act, t)
    ensures Leads(cfg, y, s, t)
  {
    hide SyncStep;
    var states, acts :| Joins(cfg, y, s, m, states, acts);
    var more, does := states + [t], acts + [act];
    forall i | 0 <= i < |does| ensures SyncStep(cfg, y, more[i], does[i], more[i + 1]) {
      if i < |acts| {
        assert more[i] == states[i] && more[i + 1] == states[i + 1];
      }
    }
    assert Joins(cfg, y, s, t, more, does);
  }

  lemma {:induction false} JoinPaths(cfg: Config, y: Sync, s: Sys, m: Sys, t: Sys, states: seq<Sys>, acts: seq<Act>)
    requires cfg.maxRows > 0 && Leads(cfg, y, s, m) && Joins(cfg, y, m, t, states, acts)
    ensures Leads(cfg, y, s, t)
    decreases |acts|
  {
    hide SyncStep, Leads;
    if acts != [] {
      var n := |acts| - 1;
      assert Joins(cfg, y, m, states[n], states[..n + 1], acts[..n]);
      JoinPaths(cfg, y, s, m, states[n], states[..n + 1], acts[..n]);
      Then(cfg, y, s, states[n], acts[n], t);
    }
  }

  lemma Both(cfg: Config, y: Sync, s: Sys, m: Sys, t: Sys)
    requires cfg.maxRows > 0 && Leads(cfg, y, s, m) && Leads(cfg, y, m, t)
    ensures Leads(cfg, y, s, t)
  {
    hide Joins;
    var states, acts :| Joins(cfg, y, m, t, states, acts);
    JoinPaths(cfg, y, s, m, t, states, acts);
  }

  lemma {:induction false} PathStaysReachable(cfg: Config, y: Sync, s: Sys, t: Sys, states: seq<Sys>, acts: seq<Act>)
    requires cfg.maxRows > 0 && Reachable(cfg, s) && Joins(cfg, y, s, t, states, acts)
    ensures Reachable(cfg, t)
    decreases |acts|
  {
    hide Reachable, Does;
    if acts != [] {
      var n := |acts| - 1;
      assert Joins(cfg, y, s, states[n], states[..n + 1], acts[..n]);
      PathStaysReachable(cfg, y, s, states[n], states[..n + 1], acts[..n]);
      StepStaysReachable(cfg, states[n], acts[n], t);
    }
  }

  lemma LeadsStaysReachable(cfg: Config, y: Sync, s: Sys, t: Sys)
    requires cfg.maxRows > 0 && Reachable(cfg, s) && Leads(cfg, y, s, t)
    ensures Reachable(cfg, t)
  {
    hide Joins, Reachable;
    var states, acts :| Joins(cfg, y, s, t, states, acts);
    PathStaysReachable(cfg, y, s, t, states, acts);
  }

  // ----- identities computed before the present one -----

  /** This identity was computed at an earlier version, or earlier at this one. */
  ghost predicate Older(cfg: Config, y: Sync, id: Digest, version: nat, since: nat) {
    exists v: nat, n: nat, d ::
      id == BatchId(cfg.scope.namespaceId, y.lastSuccess, v, n, d) && (v < version || (v == version && n < since))
  }

  ghost predicate AllOlder(cfg: Config, y: Sync, tokens: set<Token>, version: nat, since: nat) {
    forall t :: t in tokens && OfSync(cfg, y, t) ==> Older(cfg, y, t.batchId, version, since)
  }

  lemma PresentIsNotOlder(cfg: Config, y: Sync, version: nat, since: nat, d: string)
    ensures !Older(cfg, y, BatchId(cfg.scope.namespaceId, y.lastSuccess, version, since, d), version, since)
  {
    hide BatchId;
    var id := BatchId(cfg.scope.namespaceId, y.lastSuccess, version, since, d);
    if Older(cfg, y, id, version, since) {
      var v: nat, n: nat, d' :|
        id == BatchId(cfg.scope.namespaceId, y.lastSuccess, v, n, d') && (v < version || (v == version && n < since));
      BatchIdInjective(cfg.scope.namespaceId, y.lastSuccess, version, since, d, cfg.scope.namespaceId, y.lastSuccess, v, n, d');
    }
  }

  lemma StillOlder(cfg: Config, y: Sync, id: Digest, v: nat, n: nat, version: nat, since: nat)
    requires Older(cfg, y, id, v, n) && (v < version || (v == version && n <= since))
    ensures Older(cfg, y, id, version, since)
  {
    hide BatchId;
  }

  /** Behind a batch the tokens it added have become older, too. */
  lemma TokensAge(cfg: Config, y: Sync, few: set<Token>, many: set<Token>, v: nat, n: nat, d: string, version: nat, since: nat)
    requires AllOlder(cfg, y, few, v, n + 1) && (v < version || (v == version && n < since))
    requires forall t :: t in many ==> t in few || t.batchId == BatchId(cfg.scope.namespaceId, y.lastSuccess, v, n, d)
    ensures AllOlder(cfg, y, many, version, since)
  {
    hide BatchId, OfSync;
    forall t | t in many && OfSync(cfg, y, t) ensures Older(cfg, y, t.batchId, version, since) {
      if t in few {
        StillOlder(cfg, y, t.batchId, v, n + 1, version, since);
      }
    }
  }

  lemma OlderStill(cfg: Config, y: Sync, tokens: set<Token>, version: nat, since: nat)
    requires AllOlder(cfg, y, tokens, version, since)
    ensures AllOlder(cfg, y, tokens, version, since + 1)
  {
    hide OfSync;
    forall t | t in tokens && OfSync(cfg, y, t) ensures Older(cfg, y, t.batchId, version, since + 1) {
      StillOlder(cfg, y, t.batchId, version, since, version, since + 1);
    }
  }

  // ----- one batch -----

  /** No token was computed from this identity. */
  predicate Unused(tokens: set<Token>, id: Digest) {
    forall x :: x in tokens ==> x.batchId != id
  }

  lemma UnitToken(cfg: Config, id: Digest, c: Cut, u: nat)
    requires cfg.maxRows > 0 && u < UnitCount(cfg, id, c)
    ensures InsertsOf(id, c.batch.rows, cfg.maxRows)[u].token == Token(id, u)
  {
    InsertsCoverBatch(id, c.batch.rows, cfg.maxRows);
  }

  /** The batch in hand is written as far as unit `u`. */
  predicate WrittenTo(cfg: Config, s: Sys, t: Sys, c: Cut, id: Digest, u: nat)
    requires cfg.maxRows > 0 && s.run.Some? && u <= UnitCount(cfg, id, c)
  {
    && t == s.(run := Some(s.run.value.(consumer := Loading(c, id, u))), dest := t.dest, flights := t.flights)
    && t.dest.log == s.dest.log + InsertsOf(id, c.batch.rows, cfg.maxRows)[..u]
    && forall x :: x in t.dest.tokens ==> x in s.dest.tokens || (x.batchId == id && x.unit < u)
  }

  lemma {:induction false} WriteUpTo(cfg: Config, y: Sync, s: Sys, c: Cut, id: Digest, u: nat) returns (t: Sys)
    requires cfg.maxRows > 0 && InAttempt(s) && s.line.lastSuccess == y.lastSuccess && |s.attempts| <= y.beyond
    requires s.run.value.consumer == Loading(c, id, 0) && u <= UnitCount(cfg, id, c)
    requires forall x :: x in s.dest.tokens ==> x.batchId != id
    ensures Leads(cfg, y, s, t) && WrittenTo(cfg, s, t, c, id, u)
  {
    if u == 0 {
      Stay(cfg, y, s);
      t := s;
    } else {
      var m := WriteUpTo(cfg, y, s, c, id, u - 1);
      t := WriteUnit(cfg, y, s, m, c, id, u - 1);
    }
  }

  lemma WriteUnit(cfg: Config, y: Sync, s: Sys, m: Sys, c: Cut, id: Digest, u: nat) returns (t: Sys)
    requires cfg.maxRows > 0 && InAttempt(s) && s.line.lastSuccess == y.lastSuccess && |s.attempts| <= y.beyond
    requires u < UnitCount(cfg, id, c) && Leads(cfg, y, s, m) && WrittenTo(cfg, s, m, c, id, u)
    requires forall x :: x in s.dest.tokens ==> x.batchId != id
    ensures Leads(cfg, y, s, t) && WrittenTo(cfg, s, t, c, id, u + 1)
  {
    hide Leads;
    UnitToken(cfg, id, c, u);
    var us := InsertsOf(id, c.batch.rows, cfg.maxRows);
    hide InsertsOf;
    var x := us[u];
    var sent := m.(flights := m.flights + {x});
    Then(cfg, y, s, m, SendsUnit, sent);
    var landed := sent.(dest := Deliver(sent.dest, x));
    Then(cfg, y, s, sent, LandsInsert(x), landed);
    t := landed.(run := Some(landed.run.value.(consumer := Loading(c, id, u + 1))));
    Then(cfg, y, s, landed, AcksUnit, t);
    assert us[..u + 1] == us[..u] + [x];
    Assoc(s.dest.log, us[..u], [x]);
  }

  /** A process works on the sync and waits for nothing. */
  predicate Working(y: Sync, s: Sys) {
    && s.line.live && !s.line.poisoned && !s.line.stale && s.line.pending.None?
    && s.line.lastSuccess == y.lastSuccess == LastSuccessSeq(s.line.rows)
    && s.chain == [] && !s.aborted && |s.attempts| <= y.beyond
  }

  /** Its attempt stands between two batches. */
  predicate Pausing(s: Sys) {
    InAttempt(s) && s.run.value.consumer.Idle? && s.run.value.queue == [] && !s.run.value.abandoned
  }

  /** ... and no chunk budget ended its reading. */
  predicate Between(s: Sys) {
    Pausing(s) && !Last(s).cutShort
  }

  function SpotOf(s: Sys): Spot
    requires s.run.Some?
  {
    Spot(s.line.version, s.line.envelope, s.run.value.since)
  }

  function IdNow(cfg: Config, y: Sync, s: Sys, c: Cut): Digest
    requires s.run.Some?
  {
    BatchId(cfg.scope.namespaceId, y.lastSuccess, s.line.version, s.run.value.since, cfg.discriminator(c.batch))
  }

  /** The batch at the head of the hand-over is in the loader's hand. */
  function Popped(cfg: Config, y: Sync, s: Sys): Sys
    requires s.run.Some? && s.run.value.handoff != []
  {
    var r := s.run.value;
    s.(run := Some(r.(handoff := r.handoff[1..], queue := [], consumer := Loading(r.handoff[0], IdNow(cfg, y, s, r.handoff[0]), 0))))
  }

  lemma PopsIt(cfg: Config, y: Sync, s: Sys)
    requires cfg.maxRows > 0 && Working(y, s) && Pausing(s) && s.run.value.handoff != []
    ensures Leads(cfg, y, s, Popped(cfg, y, s))
  {
    hide BatchId, LastSuccessSeq;
    var r := s.run.value;
    var c := r.handoff[0];
    var pushed := s.(run := Some(r.(handoff := r.handoff[1..], queue := [c])));
    assert [] + [c] == [c] && [c][1..] == [];
    Stay(cfg, y, s);
    hide Leads;
    Then(cfg, y, s, s, PushesOne, pushed);
    Then(cfg, y, s, pushed, Pops, Popped(cfg, y, s));
  }

  /** The batch was taken and written. */
  predicate Taken(cfg: Config, s: Sys, t: Sys, c: Cut, id: Digest)
    requires cfg.maxRows > 0 && s.run.Some? && s.run.value.handoff != []
  {
    && t == s.(run := Some(s.run.value.(handoff := s.run.value.handoff[1..], consumer := Loading(c, id, UnitCount(cfg, id, c)))),
               dest := t.dest, flights := t.flights)
    && t.dest.log == s.dest.log + InsertsOf(id, c.batch.rows, cfg.maxRows)
    && OnlyAdds(s.dest.tokens, t.dest.tokens, id)
  }

  /** Tokens of this identity were added, at most. */
  predicate OnlyAdds(few: set<Token>, many: set<Token>, id: Digest) {
    forall x :: x in many ==> x in few || x.batchId == id
  }

  lemma TakeBatch(cfg: Config, y: Sync, s: Sys, c: Cut) returns (t: Sys)
    requires cfg.maxRows > 0 && Working(y, s) && Pausing(s) && s.run.value.handoff != [] && c == s.run.value.handoff[0]
    requires Unused(s.dest.tokens, IdNow(cfg, y, s, c))
    ensures Leads(cfg, y, s, t) && Taken(cfg, s, t, c, IdNow(cfg, y, s, c))
  {
    var id := IdNow(cfg, y, s, c);
    PopsIt(cfg, y, s);
    hide Leads, BatchId, InsertsOf, LastSuccessSeq;
    t := WriteUpTo(cfg, y, Popped(cfg, y, s), c, id, UnitCount(cfg, id, c));
    Both(cfg, y, s, Popped(cfg, y, s), t);
  }

  lemma IdIsNew(cfg: Config, y: Sync, s: Sys, c: Cut)
    requires s.run.Some? && AllOlder(cfg, y, s.dest.tokens, s.line.version, s.run.value.since)
    ensures Unused(s.dest.tokens, IdNow(cfg, y, s, c))
  {
    hide BatchId;
    PresentIsNotOlder(cfg, y, s.line.version, s.run.value.since, cfg.discriminator(c.batch));
    hide Older;
    forall x | x in s.dest.tokens ensures x.batchId != IdNow(cfg, y, s, c) {
      assert x.batchId == IdNow(cfg, y, s, c) ==> OfSync(cfg, y, x);
    }
  }

  function CommitFact(cfg: Config, s: Sys, c: Cut, id: Digest): Event {
    var r := CommitFor(cfg, if s.attempts == [] then 0 else |s.attempts| - 1, s.line, c, id);
    Event(s.line.seqNo + 1, BatchCommitted, "", "", r.attempt, r.batchId, r.expected, r.version, r.checkpoint, Unset, "", "", "", "")
  }

  /** The state in which the commit of the batch waits at the head of the chain. */
  function Asked(cfg: Config, s: Sys, c: Cut, id: Digest): Sys
    requires InAttempt(s)
  {
    s.(run := Some(s.run.value.(consumer := Committing)), chain := [CommitFor(cfg, |s.attempts| - 1, s.line, c, id)],
       attempts := ReplaceLast(s.attempts, Last(s).(loaded := Last(s).loaded + [Loaded(c, id)])))
  }

  lemma Asks(cfg: Config, y: Sync, s: Sys, c: Cut, id: Digest)
    requires cfg.maxRows > 0 && Working(y, s) && InAttempt(s) && !s.run.value.abandoned
    requires s.run.value.consumer == Loading(c, id, UnitCount(cfg, id, c))
    ensures SyncStep(cfg, y, s, LoadIsDone, Asked(cfg, s, c, id))
  {
    hide LastSuccessSeq, UnitCount, CommitFor;
    var request := CommitFor(cfg, |s.attempts| - 1, s.line, c, id);
    assert [] + [request] == [request];
  }

  function Started(s: Sys, e: Event): Sys {
    s.(line := s.line.(pending := Some(e), wire := s.line.wire + {e}))
  }

  lemma Starts(cfg: Config, y: Sync, s: Sys, e: Event)
    requires cfg.maxRows > 0 && s.line.live && !s.line.poisoned && !s.line.stale && s.line.pending.None?
    requires s.line.lastSuccess == y.lastSuccess && !s.aborted && |s.attempts| <= y.beyond
    requires s.chain != [] && Writes(s.chain[0], e) && e.seqNo == s.line.seqNo + 1
    requires e.kind.BatchCommitted? ==> Follows(s.line.version, s.line.envelope, e)
    ensures SyncStep(cfg, y, s, StartsWrite(e), Started(s, e))
  {
  }

  function Stored(s: Sys, e: Event): Sys {
    s.(line := s.line.(rows := s.line.rows + [e]))
  }

  lemma Stores(cfg: Config, y: Sync, s: Sys, e: Event)
    requires cfg.maxRows > 0 && e in s.line.wire && s.line.lastSuccess == y.lastSuccess && |s.attempts| <= y.beyond
    ensures SyncStep(cfg, y, s, LandsFact(e), Stored(s, e))
  {
  }

  /** The commit was confirmed. */
  function Confirmed(s: Sys, e: Event): Sys
    requires InAttempt(s)
  {
    s.(line := s.line.(pending := None, seqNo := e.seqNo, version := e.version, envelope := e.checkpoint), chain := [],
       run := Some(s.run.value.(consumer := Idle, since := if e.version != e.expected then 0 else s.run.value.since + 1)),
       attempts := ReplaceLast(s.attempts, Last(s).(commits := Last(s).commits + 1)))
  }

  lemma ConfirmsIt(cfg: Config, y: Sync, s: Sys, e: Event)
    requires cfg.maxRows > 0 && InAttempt(s) && !s.line.poisoned && s.line.pending == Some(e) && e in s.line.rows
    requires s.line.lastSuccess == y.lastSuccess && |s.attempts| <= y.beyond
    requires |s.chain| == 1 && s.chain[0].Commit? && Writes(s.chain[0], e)
    ensures SyncStep(cfg, y, s, ConfirmsCommit, Confirmed(s, e))
  {
    assert s.chain[1..] == [];
  }

  /** The batch in hand was committed. */
  predicate Landed(cfg: Config, s: Sys, t: Sys, c: Cut, id: Digest) {
    && InAttempt(s) && InAttempt(t) && t.dest == s.dest
    && t.run.value == s.run.value.(consumer := Idle, since := t.run.value.since)
    && SpotOf(t) == SpotAfter(cfg, SpotOf(s), c.batch)
    && t.attempts == ReplaceLast(s.attempts, Last(s).(loaded := Last(s).loaded + [Loaded(c, id)], commits := Last(s).commits + 1))
  }

  /** What a confirmed commit leaves behind. */
  lemma CommitLeaves(cfg: Config, y: Sync, s: Sys, c: Cut, id: Digest)
    requires cfg.maxRows > 0 && Working(y, s) && InAttempt(s)
    ensures var e := CommitFact(cfg, s, c, id);
      var t := Confirmed(Stored(Started(Asked(cfg, s, c, id), e), e), e);
      Working(y, t) && Landed(cfg, s, t, c, id)
  {
    SeqsAppend(s.line.rows, CommitFact(cfg, s, c, id));
    hide LastSuccessSeq, HeadSeq, Seqs;
  }

  /** Its commit is written, lands and is confirmed. */
  lemma CommitBatch(cfg: Config, y: Sync, s: Sys, c: Cut, id: Digest) returns (t: Sys)
    requires cfg.maxRows > 0 && Working(y, s) && InAttempt(s) && !s.run.value.abandoned
    requires s.run.value.consumer == Loading(c, id, UnitCount(cfg, id, c))
    ensures Leads(cfg, y, s, t) && Working(y, t) && Landed(cfg, s, t, c, id)
  {
    CommitLeaves(cfg, y, s, c, id);
    hide LastSuccessSeq, UnitCount, SyncStep, Landed;
    var e, asked := CommitFact(cfg, s, c, id), Asked(cfg, s, c, id);
    Stay(cfg, y, s);
    hide Leads;
    Asks(cfg, y, s, c, id);
    Then(cfg, y, s, s, LoadIsDone, asked);
    Starts(cfg, y, asked, e);
    Then(cfg, y, s, asked, StartsWrite(e), Started(asked, e));
    Stores(cfg, y, Started(asked, e), e);
    Then(cfg, y, s, Started(asked, e), LandsFact(e), Stored(Started(asked, e), e));
    t := Confirmed(Stored(Started(asked, e), e), e);
    ConfirmsIt(cfg, y, Stored(Started(asked, e), e), e);
    Then(cfg, y, s, Stored(Started(asked, e), e), ConfirmsCommit, t);
  }

  lemma {:induction false} AllKept(cfg: Config, y: Sync, log: seq<Insert>, more: seq<Insert>)
    requires forall k :: 0 <= k < |more| ==> OfSync(cfg, y, more[k].token)
    ensures Kept(cfg, y, log + more) == Kept(cfg, y, log) + more
  {
    hide OfSync, Kept;
    if more == [] {
      assert log + more == log;
    } else {
      var front, last := more[..|more| - 1], more[|more| - 1];
      assert more == front + [last] && OfSync(cfg, y, last.token);
      AllKept(cfg, y, log, front);
      Assoc(log, front, [last]);
      KeptAppend(cfg, y, log + front, last);
      Assoc(Kept(cfg, y, log), front, [last]);
    }
  }

  lemma UnitsAreKept(cfg: Config, y: Sync, log: seq<Insert>, version: nat, since: nat, d: string, rows: seq<Row>)
    requires cfg.maxRows > 0
    ensures var id := BatchId(cfg.scope.namespaceId, y.lastSuccess, version, since, d);
      RowsOf(Kept(cfg, y, log + InsertsOf(id, rows, cfg.maxRows))) == RowsOf(Kept(cfg, y, log)) + rows
  {
    hide BatchId;
    var id := BatchId(cfg.scope.namespaceId, y.lastSuccess, version, since, d);
    var us := InsertsOf(id, rows, cfg.maxRows);
    InsertsCoverBatch(id, rows, cfg.maxRows);
    hide InsertsOf;
    AllKept(cfg, y, log, us);
    RowsOfAppend(Kept(cfg, y, log), us);
  }

  // ----- a whole attempt -----

  /** The rows of the sync that the destination holds. */
  ghost function Stock(cfg: Config, y: Sync, s: Sys): seq<Row> {
    RowsOf(Kept(cfg, y, s.dest.log))
  }

  /** The attempt moved on by this batch. */
  predicate MovedOn(cfg: Config, s: Sys, t: Sys, c: Cut) {
    && Pausing(s) && Pausing(t) && s.run.value.handoff != [] && t.run.value.handoff == s.run.value.handoff[1..]
    && SpotOf(t) == SpotAfter(cfg, SpotOf(s), c.batch)
    && |t.attempts| == |s.attempts| && Last(t).start == Last(s).start && Last(t).cutShort == Last(s).cutShort
    && |Last(t).loaded| == |Last(s).loaded| + 1 && Cuts(Last(t).loaded) == Cuts(Last(s).loaded) + [c]
  }

  lemma TakenAndLanded(cfg: Config, y: Sync, s: Sys, m: Sys, t: Sys, c: Cut, id: Digest)
    requires cfg.maxRows > 0 && Working(y, s) && Pausing(s) && s.run.value.handoff != []
    requires Taken(cfg, s, m, c, id) && Landed(cfg, m, t, c, id)
    ensures MovedOn(cfg, s, t, c)
  {
    CutsAppend(Last(s).loaded, Loaded(c, id));
    hide Cuts, UnitCount, InsertsOf, SpotAfter, Working;
    assert SpotOf(m) == SpotOf(s);
  }

  lemma TakenIsWorking(cfg: Config, y: Sync, s: Sys, t: Sys, c: Cut, id: Digest)
    requires cfg.maxRows > 0 && Working(y, s) && Pausing(s) && s.run.value.handoff != [] && Taken(cfg, s, t, c, id)
    ensures Working(y, t) && InAttempt(t) && !t.run.value.abandoned && t.run.value.consumer == Loading(c, id, UnitCount(cfg, id, c))
  {
    hide UnitCount, InsertsOf, LastSuccessSeq;
  }

  lemma TakenIsStocked(cfg: Config, y: Sync, s: Sys, m: Sys, t: Sys, c: Cut)
    requires cfg.maxRows > 0 && Pausing(s) && s.run.value.handoff != []
    requires Taken(cfg, s, m, c, IdNow(cfg, y, s, c)) && t.dest == m.dest
    ensures Stock(cfg, y, t) == Stock(cfg, y, s) + c.batch.rows
  {
    hide BatchId, InsertsOf, RowsOf, Kept, UnitCount;
    UnitsAreKept(cfg, y, s.dest.log, s.line.version, s.run.value.since, cfg.discriminator(c.batch), c.batch.rows);
  }

  lemma TakenIsOlder(cfg: Config, y: Sync, s: Sys, m: Sys, t: Sys, c: Cut)
    requires cfg.maxRows > 0 && Pausing(s) && s.run.value.handoff != [] && MovedOn(cfg, s, t, c)
    requires Taken(cfg, s, m, c, IdNow(cfg, y, s, c)) && t.dest == m.dest
    requires AllOlder(cfg, y, s.dest.tokens, s.line.version, s.run.value.since + 1)
    ensures AllOlder(cfg, y, t.dest.tokens, t.line.version, t.run.value.since)
  {
    hide BatchId, InsertsOf, UnitCount, AllOlder, Cuts, NextEnvelope;
    TokensAge(cfg, y, s.dest.tokens, t.dest.tokens, s.line.version, s.run.value.since, cfg.discriminator(c.batch),
              t.line.version, t.run.value.since);
  }

  /** The loader commits one batch of the hand-over. */
  lemma OneBatch(cfg: Config, y: Sync, s: Sys) returns (t: Sys)
    requires cfg.maxRows > 0 && Working(y, s) && Pausing(s) && s.run.value.handoff != []
    requires AllOlder(cfg, y, s.dest.tokens, s.line.version, s.run.value.since + 1)
    requires Unused(s.dest.tokens, IdNow(cfg, y, s, s.run.value.handoff[0]))
    ensures Leads(cfg, y, s, t) && Working(y, t) && MovedOn(cfg, s, t, s.run.value.handoff[0])
    ensures AllOlder(cfg, y, t.dest.tokens, t.line.version, t.run.value.since)
    ensures Stock(cfg, y, t) == Stock(cfg, y, s) + s.run.value.handoff[0].batch.rows
    ensures OnlyAdds(s.dest.tokens, t.dest.tokens, IdNow(cfg, y, s, s.run.value.handoff[0]))
  {
    hide Leads, BatchId, AllOlder, MovedOn, Stock, Taken, Working, Unused;
    var c := s.run.value.handoff[0];
    var id := IdNow(cfg, y, s, c);
    var m := TakeBatch(cfg, y, s, c);
    TakenIsWorking(cfg, y, s, m, c, id);
    t := CommitBatch(cfg, y, m, c, id);
    Both(cfg, y, s, m, t);
    TakenAndLanded(cfg, y, s, m, t, c, id);
    TakenIsStocked(cfg, y, s, m, t, c);
    TakenIsOlder(cfg, y, s, m, t, c);
    TakenAdds(cfg, s, m, c, id);
  }

  lemma TakenAdds(cfg: Config, s: Sys, m: Sys, c: Cut, id: Digest)
    requires cfg.maxRows > 0 && s.run.Some? && s.run.value.handoff != [] && Taken(cfg, s, m, c, id)
    ensures OnlyAdds(s.dest.tokens, m.dest.tokens, id)
  {
    hide UnitCount, InsertsOf, OnlyAdds;
  }

  /** Everything an attempt pushes when it is left to read its selection to the end. */
  function Whole(cfg: Config, s: Sys): seq<Cut>
    requires s.attempts != []
  {
    Pushes(cfg.batchSize, Chunks(cfg, |s.attempts| - 1, Last(s)), cfg.complete(|s.attempts| - 1, Last(s).start))
  }

  lemma CountCuts(loaded: seq<Loaded>)
    ensures |Cuts(loaded)| == |loaded|
  {
    if loaded != [] {
      CutsAt(loaded, 0);
    }
  }

  lemma PushedWithinWhole(cfg: Config, a: nat, att: Attempt)
    requires att.pos <= |Chunks(cfg, a, att)| && !att.cutShort
    requires att.ended ==> att.pos == |Chunks(cfg, a, att)|
    ensures var all := Pushes(cfg.batchSize, Chunks(cfg, a, att), cfg.complete(a, att.start));
      Pushed(cfg, a, att) <= all && (att.ended ==> Pushed(cfg, a, att) == all)
  {
    hide Read;
    ReadIsMonotone(cfg.batchSize, Chunks(cfg, a, att), att.pos);
    if att.ended {
      assert Chunks(cfg, a, att)[..att.pos] == Chunks(cfg, a, att);
    }
  }

  lemma PipelineIsWhole(cfg: Config, run: Option<Run>, atts: seq<Attempt>)
    requires PipelineOk(cfg, run, atts) && run.Some? && atts != [] && run.value.consumer.Idle? && run.value.queue == []
    ensures Cuts(atts[|atts| - 1].loaded) + run.value.handoff == Pushed(cfg, |atts| - 1, atts[|atts| - 1])
  {
    hide Pushed, Cuts;
    var loaded := Cuts(atts[|atts| - 1].loaded);
    assert loaded + [] + [] + run.value.handoff == loaded + run.value.handoff;
  }

  lemma LastIsOk(cfg: Config, atts: seq<Attempt>, tokens: set<Token>)
    requires cfg.maxRows > 0 && AttemptsOk(cfg, atts, tokens) && atts != []
    ensures var a, att := |atts| - 1, atts[|atts| - 1];
      att.pos <= |Chunks(cfg, a, att)| && (att.ended && !att.cutShort ==> att.pos == |Chunks(cfg, a, att)|)
  {
    hide UnitsIn, Pushed, Cuts;
    assert AttemptOk(cfg, |atts| - 1, atts[|atts| - 1], tokens);
  }

  /** What was loaded is the beginning of it, and what is handed over comes next. */
  lemma LoadedWithinWhole(cfg: Config, s: Sys)
    requires cfg.maxRows > 0 && Reachable(cfg, s) && Between(s)
    ensures Cuts(Last(s).loaded) + s.run.value.handoff <= Whole(cfg, s) && |Cuts(Last(s).loaded)| == |Last(s).loaded|
    ensures Last(s).pos <= |Chunks(cfg, |s.attempts| - 1, Last(s))|
    ensures Last(s).ended ==> Cuts(Last(s).loaded) + s.run.value.handoff == Whole(cfg, s)
  {
    hide AttemptsOk, PipelineOk, StartsOk, ConsumerOk, RequestsOk, OrderOk, LifeOk, PendingOk, FactsBacked, CommitsStored, Appends.Inv, Pushed, Cuts, Chunks, Pushes;
    PipelineIsWhole(cfg, s.run, s.attempts);
    LastIsOk(cfg, s.attempts, s.dest.tokens);
    PushedWithinWhole(cfg, |s.attempts| - 1, Last(s));
    CountCuts(Last(s).loaded);
  }

  /** The state behind one turn of the producer. */
  function TurnOf(cfg: Config, s: Sys): Sys
    requires InAttempt(s)
  {
    var a, att, r := |s.attempts| - 1, Last(s), s.run.value;
    if att.pos < |Chunks(cfg, a, att)| then
      s.(run := Some(r.(handoff := Feed(cfg.batchSize, Held(cfg, a, att), Chunks(cfg, a, att)[att.pos], att.pos).pushed)),
         attempts := ReplaceLast(s.attempts, att.(pos := att.pos + 1)))
    else
      s.(run := Some(r.(handoff := Flush(Held(cfg, a, att), cfg.complete(a, att.start), |Seen(cfg, a, att)|))),
         attempts := ReplaceLast(s.attempts, att.(ended := true)))
  }

  lemma Turns(cfg: Config, y: Sync, s: Sys)
    requires cfg.maxRows > 0 && Working(y, s) && Between(s) && s.run.value.handoff == [] && !Last(s).ended
    requires Last(s).pos <= |Chunks(cfg, |s.attempts| - 1, Last(s))|
    ensures Leads(cfg, y, s, TurnOf(cfg, s))
  {
    hide LastSuccessSeq, Held, Feed, Flush, Seen;
    Stay(cfg, y, s);
    hide Leads;
    if Last(s).pos < |Chunks(cfg, |s.attempts| - 1, Last(s))| {
      Then(cfg, y, s, s, Pulls, TurnOf(cfg, s));
    } else {
      Then(cfg, y, s, s, EndsRead, TurnOf(cfg, s));
    }
  }

  /** Only the producer moved. */
  predicate ReadOn(s: Sys, t: Sys) {
    && InAttempt(s) && InAttempt(t) && |t.attempts| == |s.attempts|
    && t == s.(run := t.run, attempts := t.attempts)
    && t.run.value == s.run.value.(handoff := t.run.value.handoff)
    && Last(t) == Last(s).(pos := Last(t).pos, ended := Last(t).ended)
  }

  lemma SameWhole(cfg: Config, s: Sys, t: Sys)
    requires s.attempts != [] && |t.attempts| == |s.attempts| && Last(t).start == Last(s).start
    ensures Whole(cfg, t) == Whole(cfg, s)
  {
  }

  lemma TurnReadsOn(cfg: Config, y: Sync, s: Sys)
    requires Working(y, s) && Between(s)
    ensures var t := TurnOf(cfg, s);
      && ReadOn(s, t) && Between(t) && Working(y, t) && Last(t).loaded == Last(s).loaded && Whole(cfg, t) == Whole(cfg, s)
      && Chunks(cfg, |t.attempts| - 1, Last(t)) == Chunks(cfg, |s.attempts| - 1, Last(s))
      && (if Last(s).pos < |Chunks(cfg, |s.attempts| - 1, Last(s))| then Last(t).pos == Last(s).pos + 1 else Last(t).pos == Last(s).pos && Last(t).ended)
  {
    hide Held, Feed, Flush, Seen, LastSuccessSeq;
    SameWhole(cfg, s, TurnOf(cfg, s));
    hide Whole;
  }

  lemma ReadOnMore(s: Sys, m: Sys, t: Sys)
    requires ReadOn(s, m) && ReadOn(m, t)
    ensures ReadOn(s, t)
  {
  }

  lemma SameReads(s: Sys)
    requires InAttempt(s)
    ensures ReadOn(s, s)
  {
  }

  /** The producer reads on until there is a batch to load. */
  lemma {:induction false} Fetch(cfg: Config, y: Sync, s: Sys) returns (t: Sys)
    requires cfg.maxRows > 0 && Reachable(cfg, s) && Working(y, s) && Between(s) && |Last(s).loaded| < |Whole(cfg, s)|
    ensures Leads(cfg, y, s, t) && ReadOn(s, t) && t.run.value.handoff != []
    decreases |Chunks(cfg, |s.attempts| - 1, Last(s))| - Last(s).pos, if Last(s).ended then 0 else 1
  {
    LoadedWithinWhole(cfg, s);
    assert InAttempt(s);
    assert s.run.value.handoff == [] ==> !Last(s).ended;
    if s.run.value.handoff != [] {
      Stay(cfg, y, s);
      SameReads(s);
      t := s;
    } else {
      hide Reachable, Leads, ReadOn, Whole, TurnOf;
      Turns(cfg, y, s);
      TurnReadsOn(cfg, y, s);
      var m := TurnOf(cfg, s);
      LeadsStaysReachable(cfg, y, s, m);
      t := Fetch(cfg, y, m);
      Both(cfg, y, s, m, t);
      ReadOnMore(s, m, t);
    }
  }

  /** The state in the checkpoint is the one the attempt began with, or that of a batch it committed. */
  ghost predicate Traced(cuts: seq<Cut>, start: Option<string>, state: Option<string>) {
    state == start || exists k :: 0 <= k < |cuts| && cuts[k].batch.state.Some? && cuts[k].batch.state == state
  }

  /** An attempt on its way; `base` are the rows of the sync that were stored before it. */
  ghost predicate OnItsWay(cfg: Config, y: Sync, base: seq<Row>, s: Sys)
    requires cfg.maxRows > 0
  {
    && Reachable(cfg, s) && Working(y, s) && Between(s)
    && AllOlder(cfg, y, s.dest.tokens, s.line.version, s.run.value.since)
    && Stock(cfg, y, s) == base + CutRows(Cuts(Last(s).loaded))
    && Traced(Cuts(Last(s).loaded), Last(s).start, StateOf(s.line.envelope))
  }

  lemma MoreTraced(cfg: Config, cuts: seq<Cut>, c: Cut, start: Option<string>, envelope: Option<Envelope>)
    requires Traced(cuts, start, StateOf(envelope))
    ensures Traced(cuts + [c], start, StateOf(NextEnvelope(cfg, c.batch, envelope)))
  {
    var more := cuts + [c];
    if c.batch.state.Some? {
      assert more[|cuts|] == c;
    } else if StateOf(envelope) != start {
      var k :| 0 <= k < |cuts| && cuts[k].batch.state.Some? && cuts[k].batch.state == StateOf(envelope);
      assert more[k] == cuts[k];
    }
  }

  lemma HeadOfWhole(loaded: seq<Cut>, handoff: seq<Cut>, all: seq<Cut>)
    requires loaded + handoff <= all && handoff != []
    ensures |loaded| < |all| && handoff[0] == all[|loaded|]
  {
    assert (loaded + handoff)[|loaded|] == handoff[0];
  }

  /** The attempt goes on by one batch. */
  lemma OneMore(cfg: Config, y: Sync, base: seq<Row>, s: Sys) returns (t: Sys)
    requires cfg.maxRows > 0 && OnItsWay(cfg, y, base, s) && |Last(s).loaded| < |Whole(cfg, s)|
    ensures Leads(cfg, y, s, t) && OnItsWay(cfg, y, base, t)
    ensures |t.attempts| == |s.attempts| && Last(t).start == Last(s).start && |Last(t).loaded| == |Last(s).loaded| + 1
    ensures SpotOf(t) == SpotAfter(cfg, SpotOf(s), Whole(cfg, s)[|Last(s).loaded|].batch)
  {
    hide Reachable, Leads, Working, AllOlder, Traced, Cuts, CutRows, Stock, Whole;
    var m := Fetch(cfg, y, s);
    LeadsStaysReachable(cfg, y, s, m);
    SameWhole(cfg, s, m);
    FetchedIsWorking(y, s, m);
    LoadedWithinWhole(cfg, m);
    HeadOfWhole(Cuts(Last(m).loaded), m.run.value.handoff, Whole(cfg, m));
    var c := m.run.value.handoff[0];
    IdIsNew(cfg, y, m, c);
    OlderStill(cfg, y, m.dest.tokens, m.line.version, m.run.value.since);
    t := OneBatch(cfg, y, m);
    LeadsStaysReachable(cfg, y, m, t);
    Both(cfg, y, s, m, t);
    CutRowsLast(Cuts(Last(s).loaded), c);
    Assoc(base, CutRows(Cuts(Last(s).loaded)), c.batch.rows);
    MoreTraced(cfg, Cuts(Last(s).loaded), c, Last(s).start, s.line.envelope);
    SameStock(cfg, y, s, m);
  }

  lemma FetchedIsWorking(y: Sync, s: Sys, t: Sys)
    requires Working(y, s) && Between(s) && ReadOn(s, t)
    ensures Working(y, t) && Between(t)
  {
    hide LastSuccessSeq;
  }

  lemma SameStock(cfg: Config, y: Sync, s: Sys, t: Sys)
    requires t.dest == s.dest
    ensures Stock(cfg, y, t) == Stock(cfg, y, s)
  {
  }

  /** The attempt goes on until `g` of its batches are committed. */
  lemma {:induction false} Drain(cfg: Config, y: Sync, base: seq<Row>, s: Sys, g: nat) returns (t: Sys)
    requires cfg.maxRows > 0 && OnItsWay(cfg, y, base, s) && |Last(s).loaded| <= g <= |Whole(cfg, s)|
    ensures Leads(cfg, y, s, t) && OnItsWay(cfg, y, base, t)
    ensures |t.attempts| == |s.attempts| && Last(t).start == Last(s).start && |Last(t).loaded| == g
    decreases g - |Last(s).loaded|
  {
    assert Between(s);
    hide OnItsWay, Leads, Whole;
    if |Last(s).loaded| == g {
      Stay(cfg, y, s);
      t := s;
    } else {
      var m := OneMore(cfg, y, base, s);
      assert Between(m) by {
        WayIsBetween(cfg, y, base, m);
      }
      SameWhole(cfg, s, m);
      t := Drain(cfg, y, base, m, g);
      Both(cfg, y, s, m, t);
    }
  }

  lemma WayIsBetween(cfg: Config, y: Sync, base: seq<Row>, s: Sys)
    requires cfg.maxRows > 0 && OnItsWay(cfg, y, base, s)
    ensures Between(s)
  {
  }

  lemma WayIsWorking(cfg: Config, y: Sync, base: seq<Row>, s: Sys)
    requires cfg.maxRows > 0 && OnItsWay(cfg, y, base, s)
    ensures Reachable(cfg, s) && Working(y, s) && Between(s) && AllOlder(cfg, y, s.dest.tokens, s.line.version, s.run.value.since)
    ensures Stock(cfg, y, s) == base + CutRows(Cuts(Last(s).loaded))
  {
    hide Reachable, Working, AllOlder, Stock, Cuts, CutRows;
  }

  lemma PrefixOfWhole(loaded: seq<Cut>, handoff: seq<Cut>, all: seq<Cut>, k: nat)
    requires loaded + handoff <= all && |loaded| == k
    ensures k <= |all| && loaded == all[..k]
  {
    assert (loaded + handoff)[..k] == loaded;
  }

  lemma LoadedPrefix(cfg: Config, y: Sync, base: seq<Row>, s: Sys)
    requires cfg.maxRows > 0 && OnItsWay(cfg, y, base, s)
    ensures |Last(s).loaded| <= |Whole(cfg, s)| && Cuts(Last(s).loaded) == Whole(cfg, s)[..|Last(s).loaded|]
  {
    hide Whole, Cuts, Reachable, AllOlder, Stock, Working;
    LoadedWithinWhole(cfg, s);
    PrefixOfWhole(Cuts(Last(s).loaded), s.run.value.handoff, Whole(cfg, s), |Last(s).loaded|);
  }

  // ----- the attempt begins, the process crashes, the work succeeds -----

  function Begun(s: Sys): Sys {
    s.(attempts := s.attempts + [Attempt(StateOf(s.line.envelope), 0, false, false, [], 0)], run := Some(Run([], [], Idle, 0, false)))
  }

  lemma Begin(cfg: Config, y: Sync, s: Sys) returns (t: Sys)
    requires cfg.maxRows > 0 && Reachable(cfg, s) && Working(y, s) && s.run.None? && |s.attempts| < y.beyond
    requires AllOlder(cfg, y, s.dest.tokens, s.line.version, 0)
    ensures Leads(cfg, y, s, t) && OnItsWay(cfg, y, Stock(cfg, y, s), t) && t == Begun(s)
  {
    hide Reachable, AllOlder, LastSuccessSeq;
    t := Begun(s);
    Stay(cfg, y, s);
    hide Leads;
    Then(cfg, y, s, s, StartsAttempt, t);
    LeadsStaysReachable(cfg, y, s, t);
    SameStock(cfg, y, s, t);
    hide Stock;
    assert Stock(cfg, y, s) + [] == Stock(cfg, y, s);
  }

  lemma BelievesCheckpoint(cfg: Config, s: Sys)
    requires cfg.maxRows > 0 && Reachable(cfg, s) && s.line.live && s.line.pending.None? && !s.line.stale
    ensures ReadCheckpoint(cfg.scope, s.line.rows) == Projected(Projection(s.line.rows))
    ensures Projection(s.line.rows).version == s.line.version && Projection(s.line.rows).envelope == s.line.envelope
  {
    ReachableHasLine(cfg, s);
    hide Reachable, ReadCheckpoint, Healthy, Projection, HeadSeq;
    Appends.CheckpointIsReadable(cfg.scope, s.line);
  }

  function Down(s: Sys): Sys {
    s.(line := s.line.(live := false), chain := [], run := None)
  }

  /** What the next process finds in a journal whose last writer waited for nothing. */
  function Up(s: Sys): Sys {
    var l := s.line;
    s.(line := Appends.Line(l.rows, (set e | e in l.wire && e in l.rows), None, true, false, false,
                            HeadSeq(l.rows), l.version, l.envelope, LastSuccessSeq(l.rows)),
       chain := [], aborted := false, run := None)
  }

  lemma UpReads(cfg: Config, y: Sync, s: Sys)
    requires cfg.maxRows > 0 && Reachable(cfg, s) && Working(y, s)
    ensures Restart(cfg, Down(s), Up(s))
  {
    BelievesCheckpoint(cfg, s);
    hide Reachable, LastSuccessSeq, ReadCheckpoint, VersionAfter, EnvelopeAfter, HeadSeq, Commits;
  }

  /** A crash, and the next process reads the checkpoint. */
  lemma CrashAndRestart(cfg: Config, y: Sync, s: Sys) returns (t: Sys)
    requires cfg.maxRows > 0 && Reachable(cfg, s) && Working(y, s)
    ensures Leads(cfg, y, s, t) && Reachable(cfg, t) && Working(y, t) && t.run.None?
    ensures t.dest == s.dest && t.attempts == s.attempts && t.line.version == s.line.version && t.line.envelope == s.line.envelope
  {
    UpReads(cfg, y, s);
    t := Up(s);
    Stay(cfg, y, s);
    hide Leads, Reachable, LastSuccessSeq, HeadSeq;
    Then(cfg, y, s, s, Crashes, Down(s));
    hide Restart;
    Then(cfg, y, s, Down(s), Restarts, t);
    LeadsStaysReachable(cfg, y, s, t);
  }

  /** Everything is loaded: the producer comes to its end. */
  lemma {:induction false} ReadToEnd(cfg: Config, y: Sync, s: Sys) returns (t: Sys)
    requires cfg.maxRows > 0 && Reachable(cfg, s) && Working(y, s) && Between(s) && |Last(s).loaded| == |Whole(cfg, s)|
    ensures Leads(cfg, y, s, t) && ReadOn(s, t) && t.run.value.handoff == [] && Last(t).ended
    decreases |Chunks(cfg, |s.attempts| - 1, Last(s))| - Last(s).pos, if Last(s).ended then 0 else 1
  {
    LoadedWithinWhole(cfg, s);
    assert InAttempt(s) && |s.run.value.handoff| == 0;
    if Last(s).ended {
      Stay(cfg, y, s);
      SameReads(s);
      t := s;
    } else {
      hide Reachable, Leads, ReadOn, Whole, TurnOf;
      Turns(cfg, y, s);
      TurnReadsOn(cfg, y, s);
      var m := TurnOf(cfg, s);
      LeadsStaysReachable(cfg, y, s, m);
      t := ReadToEnd(cfg, y, m);
      Both(cfg, y, s, m, t);
      ReadOnMore(s, m, t);
    }
  }

  /** A success of this sync is recorded. */
  predicate Succeeds(y: Sync, s: Sys, e: Event) {
    e in s.line.rows && e.kind.WorkFinished? && e.workState.Succeeded? && e.attemptNo >= y.first
  }

  lemma Succeed(cfg: Config, y: Sync, s: Sys) returns (t: Sys, e: Event)
    requires cfg.maxRows > 0 && Reachable(cfg, s) && Working(y, s) && Between(s) && y.first < |s.attempts|
    requires s.run.value.handoff == [] && Last(s).ended
    ensures Leads(cfg, y, s, t) && t.dest == s.dest && Succeeds(y, t, e)
    ensures t.line.live && !t.line.poisoned && !t.line.stale && t.line.pending == Some(e) && |t.chain| == 1 && t.chain[0].Finish?
    ensures t.line.lastSuccess == y.lastSuccess && t.line.envelope == s.line.envelope && t.attempts == s.attempts
  {
    hide Reachable, LastSuccessSeq;
    var a := |s.attempts| - 1;
    e := Event(s.line.seqNo + 1, WorkFinished, "", "", a, "", 0, 0, None, WorkState.Succeeded, "", "", "", "");
    Stay(cfg, y, s);
    hide Leads;
    assert [] + [Finish(a, WorkState.Succeeded)] == [Finish(a, WorkState.Succeeded)];
    var asked := s.(chain := [Finish(a, WorkState.Succeeded)], run := Some(s.run.value.(abandoned := true)));
    Then(cfg, y, s, s, RequestsFinish(WorkState.Succeeded), asked);
    Starts(cfg, y, asked, e);
    Then(cfg, y, s, asked, StartsWrite(e), Started(asked, e));
    Stores(cfg, y, Started(asked, e), e);
    t := Stored(Started(asked, e), e);
    Then(cfg, y, s, Started(asked, e), LandsFact(e), t);
  }

  lemma NothingOfSync(cfg: Config, y: Sync, d: Dest, version: nat)
    requires TokensMatch(d) && Kept(cfg, y, d.log) == []
    ensures AllOlder(cfg, y, d.tokens, version, 0)
  {
    hide OfSync, Older;
    forall t | t in d.tokens ensures !OfSync(cfg, y, t) {
      var x :| x in d.log && x.token == t;
      if OfSync(cfg, y, t) {
        KeptHas(cfg, y, d.log, x);
      }
    }
  }

  /** The process that starts the sync is working on it, and nothing is stored yet. */
  lemma StartIsWorking(cfg: Config, y: Sync, p: Sys, s: Sys)
    requires cfg.maxRows > 0 && Restart(cfg, p, s) && SyncStarts(cfg, y, s)
    ensures Working(y, s) && s.run.None? && s.line.envelope == y.envelope
    ensures AllOlder(cfg, y, s.dest.tokens, s.line.version, 0) && Stock(cfg, y, s) == []
  {
    NothingOfSync(cfg, y, s.dest, s.line.version);
    hide AllOlder, Older, Kept, TokensMatch, OfSync;
    BelievesCheckpoint(cfg, s);
    hide Reachable, OwnersAgree, PayloadsAgree, TransitionsValid, Seqs;
  }

  /** An attempt on its way commits all of its batches, and the work succeeds. */
  lemma FinishAttempt(cfg: Config, y: Sync, base: seq<Row>, s: Sys) returns (t: Sys, e: Event)
    requires cfg.maxRows > 0 && OnItsWay(cfg, y, base, s) && y.first < |s.attempts|
    ensures Leads(cfg, y, s, t) && Succeeds(y, t, e) && Stock(cfg, y, t) == base + CutRows(Whole(cfg, s))
  {
    WayIsWorking(cfg, y, base, s);
    LoadedPrefix(cfg, y, base, s);
    var all := Whole(cfg, s);
    hide Reachable, Leads, Working, AllOlder, Stock, Cuts, CutRows, Whole, OnItsWay;
    var m := Drain(cfg, y, base, s, |all|);
    SameWhole(cfg, s, m);
    LoadedPrefix(cfg, y, base, m);
    WayIsWorking(cfg, y, base, m);
    assert all[..|all|] == all;
    var n := ReadToEnd(cfg, y, m);
    LeadsStaysReachable(cfg, y, m, n);
    FetchedIsWorking(y, m, n);
    t, e := Succeed(cfg, y, n);
    Both(cfg, y, s, m, n);
    Both(cfg, y, s, n, t);
    SameStock(cfg, y, m, t);
  }
}
