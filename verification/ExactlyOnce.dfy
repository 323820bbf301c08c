/**
 Exactly once over any number of lost answers, partial writes, retries, crashes and restarts: with a
 replaying reader the destination holds every write unit of a sync once and in order.
 */
module ExactlyOnce {
  import opened Wrappers
  import opened Digest
  import opened Journal
  import opened Batching
  import opened Loading
  import opened Ingestion
  import opened IngestionInvariant
  import opened IngestionSteps
  import opened IngestionSafety
  import opened Replay
  import opened IngestionContent
  import Appends

  // ----- the destination side -----

  /** An insert of this sync: its batch id was computed from the sync's last success. */
  ghost predicate OfSync(cfg: Config, y: Sync, t: Token) {
    exists v: nat, n: nat, d :: t.batchId == BatchId(cfg.scope.namespaceId, y.lastSuccess, v, n, d)
  }

  /** What the destination kept of this sync, in order of arrival. */
  ghost function Kept(cfg: Config, y: Sync, log: seq<Insert>): seq<Insert> {
    if log == [] then []
    else
      var last := log[|log| - 1];
      Kept(cfg, y, log[..|log| - 1]) + if OfSync(cfg, y, last.token) then [last] else []
  }

  lemma KeptAppend(cfg: Config, y: Sync, log: seq<Insert>, x: Insert)
    ensures Kept(cfg, y, log + [x]) == Kept(cfg, y, log) + if OfSync(cfg, y, x.token) then [x] else []
  {
    assert (log + [x])[..|log|] == log;
  }

  lemma {:induction false} KeptHas(cfg: Config, y: Sync, log: seq<Insert>, x: Insert)
    requires x in log && OfSync(cfg, y, x.token)
    ensures x in Kept(cfg, y, log)
  {
    hide OfSync;
    var last := log[|log| - 1];
    if x != last {
      assert x in log[..|log| - 1];
      KeptHas(cfg, y, log[..|log| - 1], x);
    }
  }

  lemma {:induction false} KeptIsLogged(cfg: Config, y: Sync, log: seq<Insert>, x: Insert)
    requires x in Kept(cfg, y, log)
    ensures x in log
  {
    hide OfSync;
    var last := log[|log| - 1];
    if x in Kept(cfg, y, log[..|log| - 1]) {
      KeptIsLogged(cfg, y, log[..|log| - 1], x);
    }
  }

  lemma UnitIsOfSync(cfg: Config, y: Sync, g: nat, p: nat)
    requires cfg.maxRows > 0 && p < |UnitsUpTo(cfg, y, g)|
    ensures OfSync(cfg, y, UnitsUpTo(cfg, y, g)[p].token)
  {
    var h, u := UnitOwner(cfg, y, g, p);
  }

  /** A unit travels only when all units before it were accepted. */
  ghost predicate InOrder(us: seq<Insert>, tokens: set<Token>, x: Insert) {
    exists p :: 0 <= p < |us| && us[p] == x && forall q :: 0 <= q < p ==> us[q].token in tokens
  }

  ghost predicate FlightsOk(cfg: Config, y: Sync, us: seq<Insert>, tokens: set<Token>, flights: set<Insert>) {
    forall x :: x in flights && OfSync(cfg, y, x.token) ==> InOrder(us, tokens, x)
  }

  ghost predicate TokensMatch(d: Dest) {
    && (forall x :: x in d.log ==> x.token in d.tokens)
    && (forall t :: t in d.tokens ==> exists x :: x in d.log && x.token == t)
  }

  /** The destination holds a prefix of the units, each once. */
  ghost predicate KeptInOrder(cfg: Config, y: Sync, us: seq<Insert>, d: Dest) {
    TokensMatch(d) && Kept(cfg, y, d.log) <= us
  }

  ghost predicate Distinct(us: seq<Insert>) {
    forall p, q :: 0 <= p < |us| && 0 <= q < |us| && us[p].token == us[q].token ==> p == q
  }

  ghost predicate AllOfSync(cfg: Config, y: Sync, us: seq<Insert>) {
    forall p :: 0 <= p < |us| ==> OfSync(cfg, y, us[p].token)
  }

  /** A unit whose token was accepted is kept. */
  lemma AcceptedIsKept(cfg: Config, y: Sync, us: seq<Insert>, d: Dest, q: nat)
    requires KeptInOrder(cfg, y, us, d) && Distinct(us) && AllOfSync(cfg, y, us) && q < |us| && us[q].token in d.tokens
    ensures q < |Kept(cfg, y, d.log)|
  {
    hide OfSync;
    assert OfSync(cfg, y, us[q].token);
    var x :| x in d.log && x.token == us[q].token;
    KeptHas(cfg, y, d.log, x);
    var kept := Kept(cfg, y, d.log);
    hide Kept, TokensMatch;
    var j :| 0 <= j < |kept| && kept[j] == x;
    assert us[j] == x;
  }

  /** A unit that lands in order is the next one, or one already kept. */
  lemma LandingKeepsOrder(cfg: Config, y: Sync, us: seq<Insert>, d: Dest, x: Insert)
    requires KeptInOrder(cfg, y, us, d) && Distinct(us) && AllOfSync(cfg, y, us)
    requires OfSync(cfg, y, x.token) ==> InOrder(us, d.tokens, x)
    ensures KeptInOrder(cfg, y, us, Deliver(d, x))
  {
    hide OfSync, Kept;
    var e, kept := Deliver(d, x), Kept(cfg, y, d.log);
    MatchKept(d, x);
    if x.token !in d.tokens {
      KeptAppend(cfg, y, d.log, x);
      if OfSync(cfg, y, x.token) {
        NextUnit(cfg, y, us, d, x);
      }
    }
  }

  lemma MatchKept(d: Dest, x: Insert)
    requires TokensMatch(d)
    ensures TokensMatch(Deliver(d, x))
  {
    var e := Deliver(d, x);
    forall t | t in e.tokens ensures exists z :: z in e.log && z.token == t {
      if t in d.tokens {
        var z :| z in d.log && z.token == t;
        assert z in e.log;
      } else {
        assert x in e.log;
      }
    }
  }

  lemma NextUnit(cfg: Config, y: Sync, us: seq<Insert>, d: Dest, x: Insert)
    requires KeptInOrder(cfg, y, us, d) && Distinct(us) && AllOfSync(cfg, y, us) && InOrder(us, d.tokens, x) && x.token !in d.tokens
    ensures Kept(cfg, y, d.log) + [x] <= us
  {
    hide OfSync;
    var kept := Kept(cfg, y, d.log);
    var p :| 0 <= p < |us| && us[p] == x && forall q :: 0 <= q < p ==> us[q].token in d.tokens;
    if |kept| < p {
      AcceptedIsKept(cfg, y, us, d, |kept|);
    } else if p < |kept| {
      assert kept[p] == x && x in kept;
      KeptIsLogged(cfg, y, d.log, x);
    }
  }

  lemma UnitsAreDistinct(cfg: Config, y: Sync)
    requires cfg.maxRows > 0
    ensures Distinct(AllUnits(cfg, y)) && AllOfSync(cfg, y, AllUnits(cfg, y))
  {
    var us, n := AllUnits(cfg, y), |Plan(cfg, y)|;
    hide OfSync, UnitsUpTo, Plan;
    forall p, q | 0 <= p < |us| && 0 <= q < |us| && us[p].token == us[q].token ensures p == q {
      TokensDiffer(cfg, y, n, p, q);
    }
    forall p | 0 <= p < |us| ensures OfSync(cfg, y, us[p].token) {
      UnitIsOfSync(cfg, y, n, p);
    }
  }

  lemma MoreTokensInOrder(cfg: Config, y: Sync, us: seq<Insert>, few: set<Token>, many: set<Token>, flights: set<Insert>)
    requires FlightsOk(cfg, y, us, few, flights) && few <= many
    ensures FlightsOk(cfg, y, us, many, flights)
  {
    hide OfSync;
    forall x | x in flights && OfSync(cfg, y, x.token) ensures InOrder(us, many, x) {
      assert InOrder(us, few, x);
    }
  }

  lemma LandInsertOnce(cfg: Config, y: Sync, s: Sys, t: Sys, x: Insert)
    requires cfg.maxRows > 0 && LandInsert(s, t, x)
    requires FlightsOk(cfg, y, AllUnits(cfg, y), s.dest.tokens, s.flights) && KeptInOrder(cfg, y, AllUnits(cfg, y), s.dest)
    ensures FlightsOk(cfg, y, AllUnits(cfg, y), t.dest.tokens, t.flights) && KeptInOrder(cfg, y, AllUnits(cfg, y), t.dest)
  {
    hide OfSync, KeptInOrder, InOrder, AllUnits;
    UnitsAreDistinct(cfg, y);
    LandingKeepsOrder(cfg, y, AllUnits(cfg, y), s.dest, x);
    MoreTokensInOrder(cfg, y, AllUnits(cfg, y), s.dest.tokens, t.dest.tokens, s.flights);
  }

  // ----- the protocol side -----

  /** All units of the first `g` batches were accepted. */
  ghost predicate Acked(cfg: Config, y: Sync, tokens: set<Token>, g: nat)
    requires cfg.maxRows > 0
  {
    forall p :: 0 <= p < |UnitsUpTo(cfg, y, g)| ==> UnitsUpTo(cfg, y, g)[p].token in tokens
  }

  lemma AckedBefore(cfg: Config, y: Sync, tokens: set<Token>, g: nat, h: nat)
    requires cfg.maxRows > 0 && Acked(cfg, y, tokens, h) && g <= h
    ensures Acked(cfg, y, tokens, g)
  {
    UnitsArePrefix(cfg, y, g, h);
    hide UnitsUpTo;
    assert forall p :: 0 <= p < |UnitsUpTo(cfg, y, g)| ==> UnitsUpTo(cfg, y, g)[p] == UnitsUpTo(cfg, y, h)[p];
  }

  /** One more loaded batch. */
  lemma AckedNext(cfg: Config, y: Sync, tokens: set<Token>, g: nat)
    requires cfg.maxRows > 0 && Acked(cfg, y, tokens, g)
    requires forall u :: 0 <= u < |UnitsAt(cfg, y, g)| ==> Token(IdAt(cfg, y, g), u) in tokens
    ensures Acked(cfg, y, tokens, g + 1)
  {
    hide IdAt, BatchAt;
    var us, before := UnitsUpTo(cfg, y, g + 1), UnitsUpTo(cfg, y, g);
    forall p | 0 <= p < |us| ensures us[p].token in tokens {
      if p >= |before| {
        InsertsFromShape(IdAt(cfg, y, g), BatchAt(cfg, y, g).rows, cfg.maxRows, 0, 0, p - |before|);
      } else {
        assert us[p] == before[p];
      }
    }
  }

  ghost predicate Begins(cfg: Config, y: Sync, b: nat, start: Option<string>, cutShort: bool) {
    && IsBase(cfg, y, b) && start == StateOf(Track(cfg, y, b).envelope) && (cutShort ==> AllIds(y.source))
  }

  /** What was loaded are the batches of the plan from `b` on, under their identities. */
  ghost predicate LoadedAt(cfg: Config, y: Sync, b: nat, loaded: seq<Loaded>) {
    forall k :: 0 <= k < |loaded| ==>
      loaded[k].batchId == IdAt(cfg, y, b + k) && loaded[k].cut.batch == BatchAt(cfg, y, b + k)
  }

  ghost predicate Follow(cfg: Config, y: Sync, tokens: set<Token>, att: Attempt, b: nat)
    requires cfg.maxRows > 0
  {
    && Begins(cfg, y, b, att.start, att.cutShort)
    && LoadedAt(cfg, y, b, att.loaded)
    && Acked(cfg, y, tokens, b + |att.loaded|)
  }

  /** `bases` says for every attempt of the sync with which batch it began. */
  ghost predicate AllFollow(cfg: Config, y: Sync, tokens: set<Token>, atts: seq<Attempt>, bases: seq<nat>)
    requires cfg.maxRows > 0
  {
    |atts| == y.first + |bases| <= y.beyond && forall j :: 0 <= j < |bases| ==> Follow(cfg, y, tokens, atts[y.first + j], bases[j])
  }

  predicate AtSpot(cfg: Config, y: Sync, g: nat, version: nat, envelope: Option<Envelope>) {
    Track(cfg, y, g).version == version && Track(cfg, y, g).envelope == envelope
  }

  /** A checkpoint of this sync: it stands behind acknowledged batches. */
  ghost predicate Known(cfg: Config, y: Sync, tokens: set<Token>, version: nat, envelope: Option<Envelope>)
    requires cfg.maxRows > 0
  {
    exists g: nat :: AtSpot(cfg, y, g, version, envelope) && Acked(cfg, y, tokens, g)
  }

  ghost predicate JournalOk(cfg: Config, y: Sync, tokens: set<Token>, rows: seq<Event>, pending: Option<Event>)
    requires cfg.maxRows > 0
  {
    && Known(cfg, y, tokens, Projection(rows).version, Projection(rows).envelope)
    && (pending.Some? && pending.value.kind.BatchCommitted? ==>
          Known(cfg, y, tokens, pending.value.version, pending.value.checkpoint))
  }

  /** Where the consumer stands in the plan: before batch `g`, or waiting for the commit of `g - 1`. */
  predicate Stands(cfg: Config, y: Sync, g: nat, version: nat, envelope: Option<Envelope>, r: Run) {
    match r.consumer
    case Idle => AtSpot(cfg, y, g, version, envelope) && r.since == Track(cfg, y, g).since
    case Loading(cut, id, _) =>
      && AtSpot(cfg, y, g, version, envelope) && r.since == Track(cfg, y, g).since
      && id == IdAt(cfg, y, g) && cut.batch == BatchAt(cfg, y, g)
    case Committing => g > 0 && AtSpot(cfg, y, g - 1, version, envelope) && r.since == Track(cfg, y, g - 1).since
    case Stopped => true
  }

  predicate CommitsAt(cfg: Config, y: Sync, g: nat, chain: seq<Request>) {
    forall i :: 0 <= i < |chain| && chain[i].Commit? ==> AtSpot(cfg, y, g, chain[i].version, chain[i].checkpoint)
  }

  /** The batch the running attempt stands at. */
  function Now(y: Sync, atts: seq<Attempt>, bases: seq<nat>): nat {
    if bases == [] || atts == [] then 0 else bases[|bases| - 1] + |atts[|atts| - 1].loaded|
  }

  predicate RunOk(cfg: Config, y: Sync, version: nat, envelope: Option<Envelope>, chain: seq<Request>, run: Option<Run>,
                  atts: seq<Attempt>, bases: seq<nat>) {
    && (run.Some? ==> bases != [] && Stands(cfg, y, Now(y, atts, bases), version, envelope, run.value))
    && CommitsAt(cfg, y, Now(y, atts, bases), chain)
  }

  ghost predicate Once(cfg: Config, y: Sync, bases: seq<nat>, s: Sys)
    requires cfg.maxRows > 0
  {
    && s.line.lastSuccess == y.lastSuccess
    && AllFollow(cfg, y, s.dest.tokens, s.attempts, bases)
    && JournalOk(cfg, y, s.dest.tokens, s.line.rows, s.line.pending)
    && RunOk(cfg, y, s.line.version, s.line.envelope, s.chain, s.run, s.attempts, bases)
    && FlightsOk(cfg, y, AllUnits(cfg, y), s.dest.tokens, s.flights)
    && KeptInOrder(cfg, y, AllUnits(cfg, y), s.dest)
  }

  // ----- tokens only grow -----

  lemma MoreAcked(cfg: Config, y: Sync, few: set<Token>, many: set<Token>, g: nat)
    requires cfg.maxRows > 0 && few <= many && Acked(cfg, y, few, g)
    ensures Acked(cfg, y, many, g)
  {
    hide UnitsUpTo;
  }

  lemma MoreKnown(cfg: Config, y: Sync, few: set<Token>, many: set<Token>, version: nat, envelope: Option<Envelope>)
    requires cfg.maxRows > 0 && few <= many && Known(cfg, y, few, version, envelope)
    ensures Known(cfg, y, many, version, envelope)
  {
    hide Acked, AtSpot;
    var g: nat :| AtSpot(cfg, y, g, version, envelope) && Acked(cfg, y, few, g);
    MoreAcked(cfg, y, few, many, g);
  }

  lemma MoreJournal(cfg: Config, y: Sync, few: set<Token>, many: set<Token>, rows: seq<Event>, pending: Option<Event>)
    requires cfg.maxRows > 0 && few <= many && JournalOk(cfg, y, few, rows, pending)
    ensures JournalOk(cfg, y, many, rows, pending)
  {
    hide Known, Projection;
    MoreKnown(cfg, y, few, many, Projection(rows).version, Projection(rows).envelope);
    if pending.Some? && pending.value.kind.BatchCommitted? {
      MoreKnown(cfg, y, few, many, pending.value.version, pending.value.checkpoint);
    }
  }

  lemma MoreFollow(cfg: Config, y: Sync, few: set<Token>, many: set<Token>, atts: seq<Attempt>, bases: seq<nat>)
    requires cfg.maxRows > 0 && few <= many && AllFollow(cfg, y, few, atts, bases)
    ensures AllFollow(cfg, y, many, atts, bases)
  {
    hide Begins, LoadedAt, Acked;
    forall j | 0 <= j < |bases| ensures Follow(cfg, y, many, atts[y.first + j], bases[j]) {
      assert Follow(cfg, y, few, atts[y.first + j], bases[j]);
      MoreAcked(cfg, y, few, many, bases[j] + |atts[y.first + j].loaded|);
    }
  }

  lemma LandInsertStaysOnce(cfg: Config, y: Sync, bases: seq<nat>, s: Sys, t: Sys, x: Insert)
    requires cfg.maxRows > 0 && Once(cfg, y, bases, s) && LandInsert(s, t, x)
    ensures Once(cfg, y, bases, t)
  {
    hide AllFollow, JournalOk, RunOk, FlightsOk, KeptInOrder, AllUnits;
    LandInsertOnce(cfg, y, s, t, x);
    MoreFollow(cfg, y, s.dest.tokens, t.dest.tokens, s.attempts, bases);
    MoreJournal(cfg, y, s.dest.tokens, t.dest.tokens, s.line.rows, s.line.pending);
  }

  // ----- a unit is sent -----

  /** The running attempt: everything before the batch in hand was accepted. */
  lemma NowIsAcked(cfg: Config, y: Sync, tokens: set<Token>, atts: seq<Attempt>, bases: seq<nat>)
    requires cfg.maxRows > 0 && AllFollow(cfg, y, tokens, atts, bases) && bases != []
    ensures Acked(cfg, y, tokens, Now(y, atts, bases))
  {
    hide Begins, LoadedAt, Acked;
    assert Follow(cfg, y, tokens, atts[y.first + (|bases| - 1)], bases[|bases| - 1]);
  }

  lemma PartlyAcked(cfg: Config, y: Sync, tokens: set<Token>, g: nat, u: nat, q: nat)
    requires cfg.maxRows > 0 && Acked(cfg, y, tokens, g) && u < |UnitsAt(cfg, y, g)| && q < |UnitsUpTo(cfg, y, g)| + u
    requires forall v :: 0 <= v < u ==> Token(IdAt(cfg, y, g), v) in tokens
    ensures UnitsUpTo(cfg, y, g + 1)[q].token in tokens
  {
    hide IdAt, BatchAt;
    var before := UnitsUpTo(cfg, y, g);
    if q < |before| {
      assert UnitsUpTo(cfg, y, g + 1)[q] == before[q];
    } else {
      InsertsFromShape(IdAt(cfg, y, g), BatchAt(cfg, y, g).rows, cfg.maxRows, 0, 0, q - |before|);
    }
  }

  lemma PrefixInOrder(some: seq<Insert>, us: seq<Insert>, tokens: set<Token>, p: nat)
    requires some <= us && p < |some| && forall q :: 0 <= q < p ==> some[q].token in tokens
    ensures InOrder(us, tokens, some[p])
  {
    assert us[p] == some[p];
    assert forall q :: 0 <= q < p ==> us[q] == some[q];
  }

  /** Every unit before unit `u` of batch `g` was accepted, so that unit is in order. */
  lemma UnitIsInOrder(cfg: Config, y: Sync, tokens: set<Token>, g: nat, u: nat)
    requires cfg.maxRows > 0 && Acked(cfg, y, tokens, g) && u < |UnitsAt(cfg, y, g)|
    requires forall v :: 0 <= v < u ==> Token(IdAt(cfg, y, g), v) in tokens
    ensures InOrder(AllUnits(cfg, y), tokens, UnitsAt(cfg, y, g)[u])
  {
    hide UnitsAt, Plan, InOrder, IdAt, Acked;
    if g >= |Plan(cfg, y)| {
      NoUnitsBehindTheEnd(cfg, y, g);
    }
    UnitsArePrefix(cfg, y, g + 1, |Plan(cfg, y)|);
    var p, next := |UnitsUpTo(cfg, y, g)| + u, UnitsUpTo(cfg, y, g + 1);
    forall q | 0 <= q < p ensures next[q].token in tokens {
      PartlyAcked(cfg, y, tokens, g, u, q);
    }
    assert next[p] == UnitsAt(cfg, y, g)[u];
    PrefixInOrder(next, AllUnits(cfg, y), tokens, p);
  }

  lemma SendUnitStaysOnce(cfg: Config, y: Sync, bases: seq<nat>, s: Sys, t: Sys)
    requires cfg.maxRows > 0 && Once(cfg, y, bases, s) && SendUnit(cfg, s, t) && ConsumerOk(cfg, s.run, s.attempts, s.dest.tokens)
    ensures Once(cfg, y, bases, t)
  {
    hide AllFollow, JournalOk, KeptInOrder, AllUnits, CommitsAt, Acked, AtSpot, Track, IdAt, BatchAt, InsertsOf, OfSync, InOrder, Now;
    var c, g := s.run.value.consumer, Now(y, s.attempts, bases);
    NowIsAcked(cfg, y, s.dest.tokens, s.attempts, bases);
    UnitIsInOrder(cfg, y, s.dest.tokens, g, c.unit);
  }

  // ----- the consumer takes the next batch -----

  lemma FollowReads(cfg: Config, y: Sync, tokens: set<Token>, a: nat, att: Attempt, b: nat)
    requires cfg.maxRows > 0 && Follow(cfg, y, tokens, att, b) && AttemptOk(cfg, a, att, tokens) && y.first <= a < y.beyond
    ensures ReadsFrom(cfg, y, a, att, b)
  {
    hide Acked, LoadedAt, Pushed, Cuts, UnitsIn, IsBase, Track, Chunks;
  }

  lemma LastFollows(cfg: Config, y: Sync, tokens: set<Token>, atts: seq<Attempt>, bases: seq<nat>)
    requires cfg.maxRows > 0 && AllFollow(cfg, y, tokens, atts, bases) && bases != []
    ensures atts != [] && y.first <= |atts| - 1 < y.beyond && Follow(cfg, y, tokens, atts[|atts| - 1], bases[|bases| - 1])
  {
    hide Follow;
    assert Follow(cfg, y, tokens, atts[y.first + (|bases| - 1)], bases[|bases| - 1]);
  }

  lemma NthPushed(done: seq<Cut>, queue: seq<Cut>, handoff: seq<Cut>, pushed: seq<Cut>)
    requires done + [] + queue + handoff == pushed && queue != []
    ensures |done| < |pushed| && pushed[|done|] == queue[0]
  {
  }

  lemma QueueIsPlanned(cfg: Config, y: Sync, bases: seq<nat>, s: Sys)
    requires cfg.maxRows > 0 && Replays(cfg, y) && Aligned(cfg, y) && AttemptsOk(cfg, s.attempts, s.dest.tokens)
    requires PipelineOk(cfg, s.run, s.attempts) && AllFollow(cfg, y, s.dest.tokens, s.attempts, bases) && bases != []
    requires s.run.Some? && s.run.value.consumer.Idle? && s.run.value.queue != []
    ensures s.run.value.queue[0].batch == BatchAt(cfg, y, Now(y, s.attempts, bases))
  {
    hide Pushed, Cuts, Follow, AttemptOk, Replays, Aligned, BatchAt;
    LastFollows(cfg, y, s.dest.tokens, s.attempts, bases);
    var a, b := |s.attempts| - 1, bases[|bases| - 1];
    var att := s.attempts[a];
    FollowReads(cfg, y, s.dest.tokens, a, att, b);
    PushedIsPlanned(cfg, y, a, att, b);
    NthPushed(Cuts(att.loaded), s.run.value.queue, s.run.value.handoff, Pushed(cfg, a, att));
    if att.loaded != [] {
      CutsAt(att.loaded, 0);
    } else {
      NoCuts();
    }
  }

  lemma NoCuts()
    ensures Cuts([]) == []
  {
  }

  lemma PopStaysOnce(cfg: Config, y: Sync, bases: seq<nat>, s: Sys, t: Sys)
    requires cfg.maxRows > 0 && Replays(cfg, y) && Aligned(cfg, y) && Once(cfg, y, bases, s) && Pop(cfg, s, t)
    requires AttemptsOk(cfg, s.attempts, s.dest.tokens) && PipelineOk(cfg, s.run, s.attempts)
    ensures Once(cfg, y, bases, t)
  {
    hide AllFollow, JournalOk, KeptInOrder, FlightsOk, AllUnits, CommitsAt, Track, BatchAt, BatchId, Now, PipelineOk, AttemptsOk, Replays, Aligned;
    QueueIsPlanned(cfg, y, bases, s);
  }

  // ----- a batch is loaded -----

  lemma LoadedFollows(cfg: Config, y: Sync, tokens: set<Token>, x: Attempt, b: nat, l: Loaded)
    requires cfg.maxRows > 0 && Follow(cfg, y, tokens, x, b) && UnitsIn(cfg, l, tokens)
    requires l.batchId == IdAt(cfg, y, b + |x.loaded|) && l.cut.batch == BatchAt(cfg, y, b + |x.loaded|)
    ensures Follow(cfg, y, tokens, x.(loaded := x.loaded + [l]), b)
  {
    hide Acked, Begins, IdAt, BatchAt, InsertsOf;
    AckedNext(cfg, y, tokens, b + |x.loaded|);
  }

  /** Replacing the last attempt by one that follows the plan from the same batch. */
  lemma ReplaceFollows(cfg: Config, y: Sync, tokens: set<Token>, atts: seq<Attempt>, bases: seq<nat>, x: Attempt)
    requires cfg.maxRows > 0 && AllFollow(cfg, y, tokens, atts, bases) && bases != []
    requires Follow(cfg, y, tokens, x, bases[|bases| - 1])
    ensures AllFollow(cfg, y, tokens, ReplaceLast(atts, x), bases)
  {
    hide Follow;
  }

  lemma CommitLandsOnSpot(cfg: Config, y: Sync, g: nat, attempt: nat, line: Appends.Line, c: Cut, id: Digest)
    requires AtSpot(cfg, y, g, line.version, line.envelope) && c.batch == BatchAt(cfg, y, g)
    ensures var r := CommitFor(cfg, attempt, line, c, id); AtSpot(cfg, y, g + 1, r.version, r.checkpoint)
  {
    hide BatchAt, NextEnvelope;
  }

  lemma LoadDoneRun(cfg: Config, y: Sync, bases: seq<nat>, s: Sys, t: Sys)
    requires cfg.maxRows > 0 && LoadDone(cfg, s, t) && bases != []
    requires RunOk(cfg, y, s.line.version, s.line.envelope, s.chain, s.run, s.attempts, bases)
    requires RequestsOk(cfg, s.line.version, s.line.envelope, s.chain, s.run, s.attempts)
    ensures RunOk(cfg, y, t.line.version, t.line.envelope, t.chain, t.run, t.attempts, bases)
  {
    hide BatchAt, AtSpot, CommitFor, UnitPending, RequestsOk, IdAt, Track;
    var c, g := s.run.value.consumer, Now(y, s.attempts, bases);
    NoCommitWaits(cfg, s.line.version, s.line.envelope, s.chain, s.run, s.attempts);
    CommitLandsOnSpot(cfg, y, g, |s.attempts| - 1, s.line, c.cut, c.batchId);
    assert Now(y, t.attempts, bases) == g + 1;
    hide Now;
  }

  lemma LoadDoneStaysOnce(cfg: Config, y: Sync, bases: seq<nat>, s: Sys, t: Sys)
    requires cfg.maxRows > 0 && Once(cfg, y, bases, s) && LoadDone(cfg, s, t) && ConsumerOk(cfg, s.run, s.attempts, s.dest.tokens)
    requires RequestsOk(cfg, s.line.version, s.line.envelope, s.chain, s.run, s.attempts)
    ensures Once(cfg, y, bases, t)
  {
    hide AllFollow, JournalOk, KeptInOrder, FlightsOk, AllUnits, CommitsAt, Track, BatchAt, BatchId, ConsumerOk, RequestsOk,
         AtSpot, UnitPending, CommitFor, UnitsIn, Follow, IdAt, ReplaceLast;
    LoadedUnits(cfg, s, t);
    LoadDoneRun(cfg, y, bases, s, t);
    LastFollows(cfg, y, s.dest.tokens, s.attempts, bases);
    var c := s.run.value.consumer;
    LastOfReplaced(s.attempts, Last(s).(loaded := Last(s).loaded + [Loaded(c.cut, c.batchId)]));
    LoadedFollows(cfg, y, s.dest.tokens, Last(s), bases[|bases| - 1], Loaded(c.cut, c.batchId));
    ReplaceFollows(cfg, y, s.dest.tokens, s.attempts, bases, Last(t));
  }

  lemma LastOfReplaced(atts: seq<Attempt>, x: Attempt)
    requires atts != []
    ensures ReplaceLast(atts, x) != [] && ReplaceLast(atts, x)[|ReplaceLast(atts, x)| - 1] == x
  {
  }

  // ----- the journal -----

  lemma StartWriteStaysOnce(cfg: Config, y: Sync, bases: seq<nat>, s: Sys, t: Sys, e: Event)
    requires cfg.maxRows > 0 && Once(cfg, y, bases, s) && StartWrite(cfg, s, t, e)
    requires RequestsOk(cfg, s.line.version, s.line.envelope, s.chain, s.run, s.attempts)
    ensures Once(cfg, y, bases, t)
  {
    hide AllFollow, Projection, Acked, AtSpot, Stands, FlightsOk, KeptInOrder, AllUnits, RequestsOk, Appends.Enabled, Carries, Complete, Now;
    if e.kind.BatchCommitted? {
      var g := Now(y, s.attempts, bases);
      FirstRequest(cfg, s.line.version, s.line.envelope, s.chain, s.run, s.attempts);
      NowIsAcked(cfg, y, s.dest.tokens, s.attempts, bases);
      assert AtSpot(cfg, y, g, e.version, e.checkpoint);
    }
  }

  /** A landing fact moves the projection to a checkpoint that was known before. */
  lemma LandFactJournal(cfg: Config, y: Sync, tokens: set<Token>, l: Appends.Line, e: Event)
    requires cfg.maxRows > 0 && Appends.Inv(l) && e in l.wire && JournalOk(cfg, y, tokens, l.rows, l.pending)
    ensures JournalOk(cfg, y, tokens, l.rows + [e], l.pending)
  {
    hide Known, Projection, Healthy, Appends.Believes;
    Appends.LandKeepsInv(l, e);
    if e !in l.rows {
      assert l.pending == Some(e) && IsNextFact(l.rows, e);
      assert Healthy(l.rows);
      NextFactKeepsHistory(l.rows, e);
    }
  }

  lemma LandFactStaysOnce(cfg: Config, y: Sync, bases: seq<nat>, s: Sys, t: Sys, e: Event)
    requires cfg.maxRows > 0 && Once(cfg, y, bases, s) && LandFact(cfg, s, t, e) && Appends.Inv(s.line)
    ensures Once(cfg, y, bases, t)
  {
    hide AllFollow, JournalOk, RunOk, FlightsOk, KeptInOrder, AllUnits, Appends.Inv;
    LandFactJournal(cfg, y, s.dest.tokens, s.line, e);
  }

  lemma RestartStaysOnce(cfg: Config, y: Sync, bases: seq<nat>, s: Sys, t: Sys)
    requires cfg.maxRows > 0 && Once(cfg, y, bases, s) && Restart(cfg, s, t) && t.line.lastSuccess == y.lastSuccess
    ensures Once(cfg, y, bases, t)
  {
    hide AllFollow, Known, Projection, FlightsOk, KeptInOrder, AllUnits, ReadCheckpoint, Now, AtSpot;
  }

  lemma CrashStaysOnce(cfg: Config, y: Sync, bases: seq<nat>, s: Sys, t: Sys)
    requires cfg.maxRows > 0 && Once(cfg, y, bases, s) && Crash(cfg, s, t)
    ensures Once(cfg, y, bases, t)
  {
    hide AllFollow, JournalOk, FlightsOk, KeptInOrder, AllUnits, Now, AtSpot;
  }

  lemma RestCommitsAt(cfg: Config, y: Sync, g: nat, chain: seq<Request>)
    requires chain != [] && CommitsAt(cfg, y, g, chain)
    ensures CommitsAt(cfg, y, g, chain[1..])
  {
    hide AtSpot;
    forall i | 0 <= i < |chain[1..]| && chain[1..][i].Commit?
      ensures AtSpot(cfg, y, g, chain[1..][i].version, chain[1..][i].checkpoint)
    {
      assert chain[1..][i] == chain[i + 1];
    }
  }

  lemma ConfirmOtherStaysOnce(cfg: Config, y: Sync, bases: seq<nat>, s: Sys, act: Act, t: Sys)
    requires cfg.maxRows > 0 && Once(cfg, y, bases, s) && Does(cfg, s, act, t) && PendingOk(s.line.live, s.line.pending, s.chain)
    requires act.ConfirmsNote? || act.ConfirmsRetry? || act.ConfirmsFinish? || act.ConfirmsUnseen?
    ensures Once(cfg, y, bases, t)
  {
    hide AllFollow, Known, Projection, FlightsOk, KeptInOrder, AllUnits, Now, AtSpot, CommitsAt, Track;
    RestCommitsAt(cfg, y, Now(y, s.attempts, bases), s.chain);
    assert CommitsAt(cfg, y, Now(y, s.attempts, bases), []) by {
      NoneCommitsAt(cfg, y, Now(y, s.attempts, bases));
    }
  }

  lemma NoneCommitsAt(cfg: Config, y: Sync, g: nat)
    ensures CommitsAt(cfg, y, g, [])
  {
  }

  /** The confirmed commit takes consumer, version and envelope to the next batch of the plan. */
  lemma SinceFollows(cfg: Config, y: Sync, g: nat, expected: nat, version: nat, envelope: Option<Envelope>, checkpoint: Option<Envelope>, since: nat)
    requires g > 0 && AtSpot(cfg, y, g - 1, expected, envelope) && AtSpot(cfg, y, g, version, checkpoint)
    requires since == Track(cfg, y, g - 1).since
    ensures Track(cfg, y, g).since == if version != expected then 0 else since + 1
  {
    hide BatchAt, NextEnvelope;
  }

  lemma ConfirmCommitRun(cfg: Config, y: Sync, bases: seq<nat>, s: Sys, t: Sys)
    requires cfg.maxRows > 0 && ConfirmCommit(cfg, s, t) && Writes(s.chain[0], s.line.pending.value) && bases != []
    requires RunOk(cfg, y, s.line.version, s.line.envelope, s.chain, s.run, s.attempts, bases)
    requires s.run.value.consumer.Committing? && s.chain[0].expected == s.line.version && OrderOk(s.chain)
    ensures RunOk(cfg, y, t.line.version, t.line.envelope, t.chain, t.run, t.attempts, bases)
  {
    hide OrderOk, Track;
    var g, c := Now(y, s.attempts, bases), s.chain[0];
    assert Now(y, t.attempts, bases) == g;
    hide Now;
    RestIsOrdered(s.chain);
    SinceFollows(cfg, y, g, s.line.version, c.version, s.line.envelope, c.checkpoint, s.run.value.since);
  }

  lemma ConfirmCommitFollows(cfg: Config, y: Sync, bases: seq<nat>, s: Sys, t: Sys)
    requires cfg.maxRows > 0 && ConfirmCommit(cfg, s, t) && AllFollow(cfg, y, s.dest.tokens, s.attempts, bases) && bases != []
    ensures AllFollow(cfg, y, t.dest.tokens, t.attempts, bases)
  {
    hide AllFollow, Acked, Begins, LoadedAt, Appends.Next, Appends.Enabled, ReplaceLast;
    LastFollows(cfg, y, s.dest.tokens, s.attempts, bases);
    ReplaceFollows(cfg, y, s.dest.tokens, s.attempts, bases, Last(s).(commits := Last(s).commits + 1));
  }

  lemma ConfirmCommitStaysOnce(cfg: Config, y: Sync, bases: seq<nat>, s: Sys, t: Sys)
    requires cfg.maxRows > 0 && Once(cfg, y, bases, s) && ConfirmCommit(cfg, s, t)
    requires PendingOk(s.line.live, s.line.pending, s.chain) && OrderOk(s.chain)
    requires RequestsOk(cfg, s.line.version, s.line.envelope, s.chain, s.run, s.attempts)
    ensures Once(cfg, y, bases, t)
  {
    hide AllFollow, Known, Projection, FlightsOk, KeptInOrder, AllUnits, Now, AtSpot, CommitsAt, Stands, OrderOk, RequestsOk, Carries, Writes, ReplaceLast;
    FirstRequest(cfg, s.line.version, s.line.envelope, s.chain, s.run, s.attempts);
    ConfirmCommitRun(cfg, y, bases, s, t);
    ConfirmCommitFollows(cfg, y, bases, s, t);
  }

  // ----- an attempt starts -----

  lemma StartFollows(cfg: Config, y: Sync, bases: seq<nat>, s: Sys, t: Sys) returns (b: nat)
    requires cfg.maxRows > 0 && Inv(cfg, s) && Once(cfg, y, bases, s) && StartAttempt(s, t)
    ensures Follow(cfg, y, s.dest.tokens, Last(t), b)
    ensures AtSpot(cfg, y, b, s.line.version, s.line.envelope) && Track(cfg, y, b).since == 0
  {
    hide Inv, AllFollow, RunOk, FlightsOk, KeptInOrder, AllUnits, Projection, Acked, OpenEnded, Track, NextEnvelope, BatchAt;
    StartIsTheCheckpoint(cfg, s, t);
    var g: nat :| AtSpot(cfg, y, g, s.line.version, s.line.envelope) && Acked(cfg, y, s.dest.tokens, g);
    b := Base(cfg, y, g);
    BaseWithinPlan(cfg, y, g);
    AckedBefore(cfg, y, s.dest.tokens, b, g);
  }

  lemma AddFollows(cfg: Config, y: Sync, tokens: set<Token>, atts: seq<Attempt>, bases: seq<nat>, x: Attempt, b: nat)
    requires cfg.maxRows > 0 && AllFollow(cfg, y, tokens, atts, bases) && Follow(cfg, y, tokens, x, b) && |atts| < y.beyond
    ensures AllFollow(cfg, y, tokens, atts + [x], bases + [b])
  {
    hide Follow;
    forall j | 0 <= j < |bases + [b]| ensures Follow(cfg, y, tokens, (atts + [x])[y.first + j], (bases + [b])[j]) {
      if j < |bases| {
        assert Follow(cfg, y, tokens, atts[y.first + j], bases[j]);
      }
    }
  }

  lemma StartAttemptStaysOnce(cfg: Config, y: Sync, bases: seq<nat>, s: Sys, t: Sys) returns (b: nat)
    requires cfg.maxRows > 0 && Inv(cfg, s) && Once(cfg, y, bases, s) && StartAttempt(s, t) && |t.attempts| <= y.beyond
    ensures Once(cfg, y, bases + [b], t)
  {
    b := StartFollows(cfg, y, bases, s, t);
    hide Appends.Inv, AttemptsOk, PipelineOk, ConsumerOk, RequestsOk, OrderOk, FactsBacked, CommitsStored,
         AllFollow, JournalOk, FlightsOk, KeptInOrder, AllUnits, Follow, Track, AtSpot, OpenEnded, StateOf;
    NoCommitWaits(cfg, s.line.version, s.line.envelope, s.chain, s.run, s.attempts);
    AddFollows(cfg, y, s.dest.tokens, s.attempts, bases, Last(t), b);
    assert Now(y, t.attempts, bases + [b]) == b;
  }

  // ----- the other steps -----

  lemma ReadingFollows(cfg: Config, y: Sync, bases: seq<nat>, s: Sys, t: Sys, x: Attempt, handoff: seq<Cut>)
    requires cfg.maxRows > 0 && Once(cfg, y, bases, s) && InAttempt(s) && HandsOver(s, t, x, handoff)
    requires x == Last(s).(pos := x.pos, ended := x.ended, cutShort := x.cutShort)
    requires x.cutShort && !Last(s).cutShort ==> AllIds(y.source)
    ensures Once(cfg, y, bases, t)
  {
    hide AllFollow, JournalOk, FlightsOk, KeptInOrder, AllUnits, Acked, LoadedAt, IsBase, Track, AtSpot, CommitsAt, ReplaceLast, AllIds, StateOf;
    LastFollows(cfg, y, s.dest.tokens, s.attempts, bases);
    ReplaceFollows(cfg, y, s.dest.tokens, s.attempts, bases, x);
    LastOfReplaced(s.attempts, x);
  }

  lemma ReadStaysOnce(cfg: Config, y: Sync, bases: seq<nat>, s: Sys, act: Act, t: Sys)
    requires cfg.maxRows > 0 && Once(cfg, y, bases, s) && (act.Pulls? || act.EndsRead? || act.CutsRead?) && Does(cfg, s, act, t)
    requires act.CutsRead? ==> AllIds(y.source)
    ensures Once(cfg, y, bases, t)
  {
    hide Once, Feed, Flush, Held, Chunks, AllIds;
    ReadingFollows(cfg, y, bases, s, t, Last(t), t.run.value.handoff);
  }

  /** Steps inside the queue, the loader and the attempt. */
  predicate Inner(act: Act) {
    act.PushesOne? || act.AcksUnit? || act.Reloads? || act.StopsLoading? || act.Abandons?
  }

  /** Requests that are not commits, and flags. */
  predicate Outer(act: Act) {
    act.Aborts? || act.Poisons? || act.AddsNote? || act.RequestsRetry? || act.RequestsFinish?
  }

  lemma InnerIsLocal(cfg: Config, y: Sync, g: nat, s: Sys, act: Act, t: Sys)
    requires cfg.maxRows > 0 && Inner(act) && Does(cfg, s, act, t)
    ensures t == s.(run := t.run) && s.run.Some? && t.run.Some?
    ensures Stands(cfg, y, g, s.line.version, s.line.envelope, s.run.value) ==> Stands(cfg, y, g, s.line.version, s.line.envelope, t.run.value)
  {
    hide AtSpot, Track, IdAt, BatchAt, UnitCount, Restart, Crash, StartWrite, LandFact, ConfirmNote, ConfirmCommit, ConfirmRetry, ConfirmFinish,
         ConfirmUnseen, StartAttempt, Pull, EndRead, CutRead, Pop, SendUnit, LandInsert, LoadDone, Abort, Poison, AddNote, RequestRetry, RequestFinish;
  }

  lemma MoreCommitsAt(cfg: Config, y: Sync, g: nat, chain: seq<Request>, r: Request)
    requires CommitsAt(cfg, y, g, chain) && !r.Commit?
    ensures CommitsAt(cfg, y, g, chain + [r])
  {
    hide AtSpot;
  }

  lemma OuterIsLocal(cfg: Config, s: Sys, act: Act, t: Sys)
    requires cfg.maxRows > 0 && Outer(act) && Does(cfg, s, act, t)
    ensures t.line == s.line.(poisoned := t.line.poisoned) && t.dest == s.dest && t.flights == s.flights && t.attempts == s.attempts
    ensures t.chain == s.chain || (|t.chain| > 0 && t.chain == s.chain + [t.chain[|t.chain| - 1]] && !t.chain[|t.chain| - 1].Commit?)
    ensures t.run.Some? ==>
      s.run.Some? && t.run.value.consumer == s.run.value.consumer && t.run.value.since == s.run.value.since
  {
    hide OpenEnded, Drained, Appends.Enabled, Restart, Crash, StartWrite, LandFact, ConfirmNote, ConfirmCommit, ConfirmRetry, ConfirmFinish,
         ConfirmUnseen, StartAttempt, Pull, EndRead, CutRead, Push, Pop, SendUnit, LandInsert, AckUnit, Reload, LoadDone, StopLoading, Abandon;
  }

  lemma SameStand(cfg: Config, y: Sync, g: nat, version: nat, envelope: Option<Envelope>, r: Run, r': Run)
    requires Stands(cfg, y, g, version, envelope, r) && r'.consumer == r.consumer && r'.since == r.since
    ensures Stands(cfg, y, g, version, envelope, r')
  {
    hide AtSpot, Track, IdAt, BatchAt;
  }

  lemma MinorStaysOnce(cfg: Config, y: Sync, bases: seq<nat>, s: Sys, act: Act, t: Sys)
    requires cfg.maxRows > 0 && Once(cfg, y, bases, s) && (Inner(act) || Outer(act)) && Does(cfg, s, act, t)
    ensures Once(cfg, y, bases, t)
  {
    hide AllFollow, JournalOk, FlightsOk, KeptInOrder, AllUnits, CommitsAt, Stands, Now, Does;
    var g := Now(y, s.attempts, bases);
    if Inner(act) {
      InnerIsLocal(cfg, y, g, s, act, t);
    } else {
      OuterIsLocal(cfg, s, act, t);
      if t.chain != s.chain {
        MoreCommitsAt(cfg, y, g, s.chain, t.chain[|t.chain| - 1]);
      }
      if t.run.Some? {
        SameStand(cfg, y, g, s.line.version, s.line.envelope, s.run.value, t.run.value);
      }
    }
  }

  lemma StepStaysOnce(cfg: Config, y: Sync, bases: seq<nat>, s: Sys, act: Act, t: Sys) returns (bases': seq<nat>)
    requires cfg.maxRows > 0 && Replays(cfg, y) && Aligned(cfg, y) && Inv(cfg, s) && Once(cfg, y, bases, s) && Does(cfg, s, act, t)
    requires (act.CutsRead? ==> AllIds(y.source)) && t.line.lastSuccess == y.lastSuccess && |t.attempts| <= y.beyond
    ensures Once(cfg, y, bases', t)
  {
    hide Once, Replays, Aligned, Appends.Inv, AttemptsOk, PipelineOk, ConsumerOk, RequestsOk, OrderOk, FactsBacked, CommitsStored, PendingOk, LifeOk, AllIds,
      Restart, Crash, StartWrite, LandFact, ConfirmCommit, StartAttempt, Pop, SendUnit, LandInsert, LoadDone;
    bases' := bases;
    match act
    case Restarts => RestartStaysOnce(cfg, y, bases, s, t);
    case Crashes => CrashStaysOnce(cfg, y, bases, s, t);
    case StartsWrite(e) => StartWriteStaysOnce(cfg, y, bases, s, t, e);
    case LandsFact(e) => LandFactStaysOnce(cfg, y, bases, s, t, e);
    case ConfirmsCommit => ConfirmCommitStaysOnce(cfg, y, bases, s, t);
    case StartsAttempt =>
      var b := StartAttemptStaysOnce(cfg, y, bases, s, t);
      bases' := bases + [b];
    case Pops => PopStaysOnce(cfg, y, bases, s, t);
    case SendsUnit => SendUnitStaysOnce(cfg, y, bases, s, t);
    case LandsInsert(x) => LandInsertStaysOnce(cfg, y, bases, s, t, x);
    case LoadIsDone => LoadDoneStaysOnce(cfg, y, bases, s, t);
    case _ =>
      hide Does;
      if act.Pulls? || act.EndsRead? || act.CutsRead? {
        ReadStaysOnce(cfg, y, bases, s, act, t);
      } else if Inner(act) || Outer(act) {
        MinorStaysOnce(cfg, y, bases, s, act, t);
      } else {
        ConfirmOtherStaysOnce(cfg, y, bases, s, act, t);
      }
  }

  // ----- runs of one sync -----

  /** A process has just read the checkpoint, and nothing of this sync was sent yet. */
  ghost predicate SyncStarts(cfg: Config, y: Sync, s: Sys)
    requires cfg.maxRows > 0
  {
    && Reachable(cfg, s)
    && s.line.lastSuccess == y.lastSuccess && s.chain == [] && s.run.None? && s.line.pending.None? && |s.attempts| == y.first <= y.beyond
    && Projection(s.line.rows).version == y.version && Projection(s.line.rows).envelope == y.envelope
    && TokensMatch(s.dest) && Kept(cfg, y, s.dest.log) == []
    && forall x :: x in s.flights ==> !OfSync(cfg, y, x.token)
  }

  /** A chunk budget may cut the reading only when every chunk is a batch of its own; attempts are those of the sync. */
  ghost predicate SyncStep(cfg: Config, y: Sync, s: Sys, act: Act, t: Sys)
    requires cfg.maxRows > 0
  {
    Does(cfg, s, act, t) && t.line.lastSuccess == y.lastSuccess && |t.attempts| <= y.beyond && (act.CutsRead? ==> AllIds(y.source))
  }

  /** Every state of the run still belongs to the sync: no process has read a newer success. */
  ghost predicate IsSync(cfg: Config, y: Sync, states: seq<Sys>, acts: seq<Act>)
    requires cfg.maxRows > 0
  {
    && |states| == |acts| + 1
    && SyncStarts(cfg, y, states[0])
    && forall i :: 0 <= i < |acts| ==> SyncStep(cfg, y, states[i], acts[i], states[i + 1])
  }

  lemma StartIsOnce(cfg: Config, y: Sync, s: Sys)
    requires cfg.maxRows > 0 && SyncStarts(cfg, y, s)
    ensures Once(cfg, y, [], s)
  {
    hide Reachable, Projection, Kept, OfSync, TokensMatch, Plan;
    assert AtSpot(cfg, y, 0, y.version, y.envelope) && Acked(cfg, y, s.dest.tokens, 0);
    hide AtSpot, Acked;
  }

  lemma {:induction false} SyncStaysOnce(cfg: Config, y: Sync, states: seq<Sys>, acts: seq<Act>) returns (bases: seq<nat>)
    requires cfg.maxRows > 0 && Replays(cfg, y) && Aligned(cfg, y) && IsSync(cfg, y, states, acts)
    ensures Reachable(cfg, states[|acts|]) && Once(cfg, y, bases, states[|acts|])
  {
    hide Replays, Aligned, Does, Reachable, Once, AllIds;
    if acts == [] {
      StartIsOnce(cfg, y, states[0]);
      bases := [];
    } else {
      hide SyncStarts;
      var n := |acts| - 1;
      bases := SyncStaysOnce(cfg, y, states[..n + 1], acts[..n]);
      assert Inv(cfg, states[n]) by {
        ReachableHasInv(cfg, states[n]);
      }
      hide Inv;
      StepStaysReachable(cfg, states[n], acts[n], states[n + 1]);
      bases := StepStaysOnce(cfg, y, bases, states[n], acts[n], states[n + 1]);
    }
  }

  lemma ReachableHasLine(cfg: Config, s: Sys)
    requires cfg.maxRows > 0 && Reachable(cfg, s)
    ensures Appends.Inv(s.line)
  {
  }

  lemma ReachableHasInv(cfg: Config, s: Sys)
    requires cfg.maxRows > 0 && Reachable(cfg, s)
    ensures Inv(cfg, s)
  {
  }

  /** At every moment the destination holds a prefix of the units of the sync: none twice, none out of order. */
  lemma NeverTwiceNeverOutOfOrder(cfg: Config, y: Sync, states: seq<Sys>, acts: seq<Act>)
    requires cfg.maxRows > 0 && Replays(cfg, y) && Aligned(cfg, y) && IsSync(cfg, y, states, acts)
    ensures Kept(cfg, y, states[|acts|].dest.log) <= AllUnits(cfg, y)
  {
    var bases := SyncStaysOnce(cfg, y, states, acts);
    hide IsSync, Replays, Aligned, AllFollow, JournalOk, RunOk, FlightsOk, Kept, AllUnits, TokensMatch, Reachable;
  }

  lemma CompleteIsAcked(cfg: Config, y: Sync, tokens: set<Token>, a: nat, att: Attempt, b: nat)
    requires cfg.maxRows > 0 && Replays(cfg, y) && Aligned(cfg, y) && Follow(cfg, y, tokens, att, b) && AttemptOk(cfg, a, att, tokens)
    requires y.first <= a < y.beyond && CompleteAttempt(cfg, a, att)
    ensures Acked(cfg, y, tokens, |Plan(cfg, y)|)
  {
    hide Replays, Aligned, Begins, LoadedAt, Acked, Pushed, Cuts, UnitsIn, Plan, Chunks;
    FollowReads(cfg, y, tokens, a, att, b);
    PushedIsPlanned(cfg, y, a, att, b);
    if att.loaded == [] {
      NoCuts();
    } else {
      CutsAt(att.loaded, 0);
    }
    AckedBefore(cfg, y, tokens, |Plan(cfg, y)|, b + |att.loaded|);
  }

  lemma AckedIsWhole(cfg: Config, y: Sync, d: Dest)
    requires cfg.maxRows > 0 && Acked(cfg, y, d.tokens, |Plan(cfg, y)|) && KeptInOrder(cfg, y, AllUnits(cfg, y), d)
    ensures Kept(cfg, y, d.log) == AllUnits(cfg, y)
  {
    hide UnitsUpTo, Plan, TokensMatch, Kept;
    var us := AllUnits(cfg, y);
    UnitsAreDistinct(cfg, y);
    if us != [] {
      AcceptedIsKept(cfg, y, us, d, |us| - 1);
    }
  }

  lemma OnceAndCompleteIsWhole(cfg: Config, y: Sync, bases: seq<nat>, s: Sys, a: nat)
    requires cfg.maxRows > 0 && Replays(cfg, y) && Aligned(cfg, y) && Inv(cfg, s) && Once(cfg, y, bases, s)
    requires a >= y.first && Complete(cfg, s.attempts, a)
    ensures Kept(cfg, y, s.dest.log) == AllUnits(cfg, y)
  {
    hide Replays, Aligned, JournalOk, RunOk, FlightsOk, Kept, AllUnits, KeptInOrder, PipelineOk, ConsumerOk, RequestsOk, OrderOk, LifeOk, PendingOk,
         FactsBacked, CommitsStored, Appends.Inv, AttemptOk, CompleteAttempt, Follow, Plan;
    assert Follow(cfg, y, s.dest.tokens, s.attempts[y.first + (a - y.first)], bases[a - y.first]);
    assert AttemptOk(cfg, a, s.attempts[a], s.dest.tokens);
    CompleteIsAcked(cfg, y, s.dest.tokens, a, s.attempts[a], bases[a - y.first]);
    AckedIsWhole(cfg, y, s.dest);
  }

  /**
   Once a success of this sync is recorded, the destination holds every row of the source exactly once
   and in order, whatever was lost, repeated, abandoned or crashed on the way.
   */
  lemma SuccessIsExactlyOnce(cfg: Config, y: Sync, states: seq<Sys>, acts: seq<Act>, e: Event)
    requires cfg.maxRows > 0 && Replays(cfg, y) && Aligned(cfg, y) && IsSync(cfg, y, states, acts)
    requires e in states[|acts|].line.rows && e.kind.WorkFinished? && e.workState.Succeeded? && e.attemptNo >= y.first
    ensures Kept(cfg, y, states[|acts|].dest.log) == AllUnits(cfg, y)
    ensures RowsOf(Kept(cfg, y, states[|acts|].dest.log)) == ChunkRows(y.source)
  {
    var s := states[|acts|];
    var bases := SyncStaysOnce(cfg, y, states, acts);
    UnitsAreTheSource(cfg, y);
    hide IsSync, Replays, Aligned, Once, Kept, AllUnits, StartsOk, Complete, AttemptsOk, PipelineOk, ConsumerOk, RequestsOk, OrderOk,
         LifeOk, PendingOk, CommitsStored, Appends.Inv;
    assert FactBacked(cfg, s.attempts, e);
    OnceAndCompleteIsWhole(cfg, y, bases, s, e.attemptNo);
  }

  /** With every chunk an id, every chunk a state, or none a state, that is so for every batch size. */
  lemma RegroupableIsExactlyOnce(cfg: Config, y: Sync, states: seq<Sys>, acts: seq<Act>)
    requires cfg.maxRows > 0 && Replays(cfg, y) && Regroupable(y.source) && IsSync(cfg, y, states, acts)
    ensures Kept(cfg, y, states[|acts|].dest.log) <= AllUnits(cfg, y)
    ensures (exists e :: e in states[|acts|].line.rows && e.kind.WorkFinished? && e.workState.Succeeded? && e.attemptNo >= y.first) ==>
      RowsOf(Kept(cfg, y, states[|acts|].dest.log)) == ChunkRows(y.source)
  {
    assert |states| == |acts| + 1;
    hide *;
    RegroupableIsAligned(cfg, y);
    NeverTwiceNeverOutOfOrder(cfg, y, states, acts);
    if e :| e in states[|acts|].line.rows && e.kind.WorkFinished? && e.workState.Succeeded? && e.attemptNo >= y.first {
      SuccessIsExactlyOnce(cfg, y, states, acts, e);
    }
  }

  /** The first sync of a stream meets the starting condition. */
  lemma FirstSyncStarts(cfg: Config, y: Sync, t: Sys)
    requires cfg.maxRows > 0 && Restart(cfg, START, t)
    requires y.first == 0 && y.lastSuccess == 0 && y.version == 0 && y.envelope == None
    ensures SyncStarts(cfg, y, t)
  {
    StartIsFine(cfg);
    StepStaysReachable(cfg, START, Restarts, t);
    hide Reachable;
    assert Commits([]) == [];
  }

  /** An identity computed before a success is not an identity of the sync behind it. */
  lemma OldIdentity(cfg: Config, y: Sync, limit: nat, x: Insert)
    requires cfg.maxRows > 0 && Genuine(cfg, limit, x) && limit < y.lastSuccess
    ensures !OfSync(cfg, y, x.token)
  {
    hide InsertsOf, BatchId;
    if OfSync(cfg, y, x.token) {
      var b :| UnitOf(cfg, limit, x, x.token.batchId, b);
      var ls: nat, v: nat, n: nat :| ls <= limit && x.token.batchId == BatchId(cfg.scope.namespaceId, ls, v, n, cfg.discriminator(b));
      var v': nat, n': nat, d :| x.token.batchId == BatchId(cfg.scope.namespaceId, y.lastSuccess, v', n', d);
      BatchIdInjective(cfg.scope.namespaceId, ls, v, n, cfg.discriminator(b), cfg.scope.namespaceId, y.lastSuccess, v', n', d);
    }
  }

  lemma {:induction false} NothingKept(cfg: Config, y: Sync, log: seq<Insert>)
    requires forall x :: x in log ==> !OfSync(cfg, y, x.token)
    ensures Kept(cfg, y, log) == []
  {
    hide OfSync;
    if log != [] {
      NothingKept(cfg, y, log[..|log| - 1]);
    }
  }

  /** Every later sync meets it as well: the process that first reads a success starts the next sync. */
  lemma LaterSyncStarts(cfg: Config, y: Sync, states: seq<Sys>, acts: seq<Act>, t: Sys)
    requires cfg.maxRows > 0 && IsRun(cfg, states, acts) && Restart(cfg, states[|acts|], t)
    requires t.line.lastSuccess != states[|acts|].line.lastSuccess
    requires y.first == |t.attempts| <= y.beyond && y.lastSuccess == t.line.lastSuccess
    requires y.version == t.line.version && y.envelope == t.line.envelope
    ensures SyncStarts(cfg, y, t)
  {
    hide Reachable, Genuine, OfSync, KnownIds, HandId, Kept, Appends.Inv, LastSuccessSeq, Projection, Appends.Next;
    var s := states[|acts|];
    RunsKeepContent(cfg, states, acts);
    RunsStayReachable(cfg, states, acts);
    hide IsRun;
    ReachableHasLine(cfg, s);
    StepStaysReachable(cfg, s, Restarts, t);
    RestartContent(cfg, s, t);
    RestartReads(cfg, s, t);
    forall x | x in s.flights || x in s.dest.log ensures !OfSync(cfg, y, x.token) {
      OldIdentity(cfg, y, s.line.lastSuccess, x);
    }
    NothingKept(cfg, y, s.dest.log);
  }

  lemma RestartReads(cfg: Config, s: Sys, t: Sys)
    requires Restart(cfg, s, t) && Appends.Inv(s.line)
    ensures t.line.version == Projection(t.line.rows).version && t.line.envelope == Projection(t.line.rows).envelope
    ensures t.line.pending.None?
  {
    hide Appends.Inv, ReadCheckpoint, Projection;
    Appends.CheckpointIsReadable(cfg.scope, s.line);
  }
}
