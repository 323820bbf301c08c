/**
 The crash-recoverable ingestion protocol of `executor.ts` as a step machine: a producer, a bounded
 queue, a loader and a journal behind a wire that loses answers, with in-process retries, abandoned
 attempts, cancellation, crashes and restarts.

 `attempts` is history: it records what every attempt read, loaded and committed. The `attemptNo` of a
 fact is the index into it, which counts on over executions; the executor numbers attempts per work and
 names the work beside it, and no step here reads that name.
 */
module Ingestion {
  import opened Wrappers
  import opened Digest
  import opened Journal
  import opened Batching
  import opened Loading
  import Appends

  /** The stream: what a reader yields in an attempt from a committed state, and the parameters. */
  datatype Config = Config(
    scope: Scope,
    read: (nat, Option<string>) -> seq<Chunk>,
    complete: (nat, Option<string>) -> Option<string>,
    discriminator: Batch -> string,
    strategy: string, strategyVersion: nat,
    batchSize: nat, queueLimit: nat, maxRows: nat)

  /** One request in the append chain. */
  datatype Request =
    | Note(kind: Kind)
    | Commit(attempt: nat, batchId: string, expected: nat, version: nat, checkpoint: Option<Envelope>)
    | RetryNote
    | Finish(attempt: nat, outcome: WorkState)

  /** A batch with sink evidence. */
  datatype Loaded = Loaded(cut: Cut, batchId: Digest)

  datatype Attempt = Attempt(start: Option<string>, pos: nat, ended: bool, cutShort: bool, loaded: seq<Loaded>, commits: nat)

  datatype Consumer = Idle | Loading(cut: Cut, batchId: Digest, unit: nat) | Committing | Stopped

  /** The volatile part of the attempt that is running: it is always the last of the attempts. */
  datatype Run = Run(
    handoff: seq<Cut>,      // decided by the producer, not yet in the queue
    queue: seq<Cut>,
    consumer: Consumer,
    since: nat,             // batches committed since the checkpoint last advanced
    abandoned: bool)

  datatype Sys = Sys(
    line: Appends.Line, chain: seq<Request>, aborted: bool, run: Option<Run>,
    attempts: seq<Attempt>, dest: Dest, flights: set<Insert>)

  const START := Sys(Appends.FRESH, [], false, None, [], NO_ROWS, {})

  // ----- what the pieces compute -----

  function Chunks(cfg: Config, a: nat, att: Attempt): seq<Chunk> {
    cfg.read(a, att.start)
  }

  function Seen(cfg: Config, a: nat, att: Attempt): seq<Chunk> {
    var chunks := Chunks(cfg, a, att);
    if att.pos <= |chunks| then chunks[..att.pos] else chunks
  }

  /** Everything the producer of this attempt decided to push so far. */
  function Pushed(cfg: Config, a: nat, att: Attempt): seq<Cut> {
    if att.ended then Pushes(cfg.batchSize, Seen(cfg, a, att), if att.cutShort then None else cfg.complete(a, att.start))
    else Read(cfg.batchSize, Seen(cfg, a, att)).pushed
  }

  function Cuts(loaded: seq<Loaded>): seq<Cut> {
    if loaded == [] then [] else Cuts(loaded[..|loaded| - 1]) + [loaded[|loaded| - 1].cut]
  }

  function UnitCount(cfg: Config, batchId: Digest, cut: Cut): nat
    requires cfg.maxRows > 0
  {
    |InsertsOf(batchId, cut.batch.rows, cfg.maxRows)|
  }

  function NextEnvelope(cfg: Config, b: Batch, envelope: Option<Envelope>): Option<Envelope> {
    if b.state.Some? then Some(Envelope(cfg.strategy, cfg.strategyVersion, b.state.value)) else envelope
  }

  function StateOf(envelope: Option<Envelope>): Option<string> {
    if envelope.Some? then Some(envelope.value.state) else None
  }

  function BatchIdFor(cfg: Config, line: Appends.Line, since: nat, b: Batch): Digest {
    BatchId(cfg.scope.namespaceId, line.lastSuccess, line.version, since, cfg.discriminator(b))
  }

  function CommitFor(cfg: Config, attempt: nat, line: Appends.Line, c: Cut, batchId: Digest): Request {
    var envelope := NextEnvelope(cfg, c.batch, line.envelope);
    Commit(attempt, batchId.text, line.version, if envelope != line.envelope then line.version + 1 else line.version, envelope)
  }

  /** The event a request becomes when its write starts. */
  predicate Writes(r: Request, e: Event) {
    match r
    case Note(kind) => e.kind == kind && !kind.BatchCommitted? && !kind.WorkFinished?
    case Commit(attempt, batchId, expected, version, checkpoint) =>
      e.kind.BatchCommitted? && e.attemptNo == attempt && e.batchId == batchId
      && e.expected == expected && e.version == version && e.checkpoint == checkpoint
    case RetryNote => e.kind.RetryScheduled?
    case Finish(attempt, outcome) => e.kind.WorkFinished? && e.attemptNo == attempt && e.workState == outcome
  }


  // ----- the steps -----

  predicate InAttempt(s: Sys) {
    s.line.live && s.run.Some? && s.attempts != []
  }

  function Last(s: Sys): Attempt
    requires s.attempts != []
  {
    s.attempts[|s.attempts| - 1]
  }

  function ReplaceLast(atts: seq<Attempt>, y: Attempt): seq<Attempt>
    requires atts != []
  {
    atts[|atts| - 1 := y]
  }

  /** Nothing in the chain ends the attempt or the work. */
  predicate OpenEnded(chain: seq<Request>) {
    forall i :: 0 <= i < |chain| ==> !chain[i].RetryNote? && !chain[i].Finish?
  }

  /** A new process reads the checkpoint; nothing unconfirmed lands after that read. */
  predicate Restart(cfg: Config, s: Sys, t: Sys) {
    && Appends.Enabled(cfg.scope, s.line, Appends.Restart)
    && t == s.(line := Appends.Next(cfg.scope, s.line, Appends.Restart), chain := [], aborted := false, run := None)
  }

  predicate Crash(cfg: Config, s: Sys, t: Sys) {
    && s.line.live
    && t == s.(line := Appends.Next(cfg.scope, s.line, Appends.Crash), chain := [], run := None)
  }

  /** Host cancellation or the end of the execution budget. */
  predicate Abort(s: Sys, t: Sys) {
    s.line.live && t == s.(aborted := true)
  }

  predicate Poison(cfg: Config, s: Sys, t: Sys) {
    s.line.live && t == s.(line := Appends.Next(cfg.scope, s.line, Appends.Poison))
  }

  /** `work_planned`, `attempt_started` and the reader's own `retry_scheduled`. */
  predicate AddNote(s: Sys, t: Sys, kind: Kind) {
    s.line.live && !kind.BatchCommitted? && !kind.WorkFinished? && t == s.(chain := s.chain + [Note(kind)])
  }

  /** The front request takes its sequence number; after an abort only `work_finished` is written. */
  predicate StartWrite(cfg: Config, s: Sys, t: Sys, e: Event) {
    && s.chain != [] && Writes(s.chain[0], e) && (s.aborted ==> s.chain[0].Finish?)
    && Appends.Enabled(cfg.scope, s.line, Appends.StartWrite(e))
    && t == s.(line := Appends.Next(cfg.scope, s.line, Appends.StartWrite(e)))
  }

  /** A fact that was sent reaches the journal, maybe not for the first time. */
  predicate LandFact(cfg: Config, s: Sys, t: Sys, e: Event) {
    && Appends.Enabled(cfg.scope, s.line, Appends.Land(e))
    && t == s.(line := Appends.Next(cfg.scope, s.line, Appends.Land(e)))
  }

  predicate Confirms(cfg: Config, s: Sys) {
    s.chain != [] && Appends.Enabled(cfg.scope, s.line, Appends.Confirm)
  }

  function ConfirmedLine(cfg: Config, s: Sys): Appends.Line
    requires Confirms(cfg, s)
  {
    Appends.Next(cfg.scope, s.line, Appends.Confirm)
  }

  predicate ConfirmNote(cfg: Config, s: Sys, t: Sys) {
    && Confirms(cfg, s) && s.chain[0].Note?
    && t == s.(line := ConfirmedLine(cfg, s), chain := s.chain[1..])
  }

  /** The consumer goes on behind a confirmed commit. */
  predicate ConfirmCommit(cfg: Config, s: Sys, t: Sys) {
    && Confirms(cfg, s) && s.chain[0].Commit? && InAttempt(s)
    && var r, c := s.run.value, s.chain[0];
      t == s.(line := ConfirmedLine(cfg, s), chain := s.chain[1..],
              run := Some(r.(consumer := Idle, since := if c.version != c.expected then 0 else r.since + 1)),
              attempts := ReplaceLast(s.attempts, Last(s).(commits := Last(s).commits + 1)))
  }

  predicate ConfirmRetry(cfg: Config, s: Sys, t: Sys) {
    && Confirms(cfg, s) && s.chain[0].RetryNote?
    && t == s.(line := ConfirmedLine(cfg, s), chain := s.chain[1..], run := None)
  }

  predicate ConfirmFinish(cfg: Config, s: Sys, t: Sys) {
    && Confirms(cfg, s) && s.chain[0].Finish?
    && t == s.(line := ConfirmedLine(cfg, s).(live := false), chain := [], run := None)
  }

  /** The commit is confirmed, but its caller was cancelled while it waited. */
  predicate ConfirmUnseen(cfg: Config, s: Sys, t: Sys) {
    && s.aborted && s.chain != [] && s.chain[0].Commit? && InAttempt(s)
    && Appends.Enabled(cfg.scope, s.line, Appends.ConfirmUnseen)
    && t == s.(line := Appends.Next(cfg.scope, s.line, Appends.ConfirmUnseen), chain := s.chain[1..],
               run := Some(s.run.value.(consumer := Stopped)))
  }

  /** A reader is created from the latest committed state. */
  predicate StartAttempt(s: Sys, t: Sys) {
    && s.line.live && s.run.None? && !s.aborted && OpenEnded(s.chain)
    && t == s.(attempts := s.attempts + [Attempt(StateOf(s.line.envelope), 0, false, false, [], 0)],
               run := Some(Run([], [], Idle, 0, false)))
  }

  predicate MayRead(s: Sys) {
    InAttempt(s) && !Last(s).ended && s.run.value.handoff == []
  }

  /** The producer reads on and hands over what that decides. */
  predicate HandsOver(s: Sys, t: Sys, att: Attempt, handoff: seq<Cut>)
    requires InAttempt(s)
  {
    t == s.(run := Some(s.run.value.(handoff := handoff)), attempts := ReplaceLast(s.attempts, att))
  }

  function Held(cfg: Config, a: nat, att: Attempt): Batch {
    Read(cfg.batchSize, Seen(cfg, a, att)).pending
  }

  predicate Pull(cfg: Config, s: Sys, t: Sys) {
    && MayRead(s)
    && var a, att := |s.attempts| - 1, Last(s);
      && att.pos < |Chunks(cfg, a, att)|
      && HandsOver(s, t, att.(pos := att.pos + 1),
                   Feed(cfg.batchSize, Held(cfg, a, att), Chunks(cfg, a, att)[att.pos], att.pos).pushed)
  }

  /** The selection is read to its end: the last push claims the completion state. */
  predicate EndRead(cfg: Config, s: Sys, t: Sys) {
    && MayRead(s)
    && var a, att := |s.attempts| - 1, Last(s);
      && att.pos == |Chunks(cfg, a, att)|
      && HandsOver(s, t, att.(ended := true), Flush(Held(cfg, a, att), cfg.complete(a, att.start), |Seen(cfg, a, att)|))
  }

  /** The chunk budget is used up: the last push does not claim the completion state. */
  predicate CutRead(cfg: Config, s: Sys, t: Sys) {
    && MayRead(s)
    && var a, att := |s.attempts| - 1, Last(s);
      && att.pos > 0
      && HandsOver(s, t, att.(ended := true, cutShort := true), Flush(Held(cfg, a, att), None, |Seen(cfg, a, att)|))
  }

  predicate Push(cfg: Config, s: Sys, t: Sys) {
    && InAttempt(s)
    && var r := s.run.value;
      && r.handoff != [] && |r.queue| < Max(1, cfg.queueLimit)
      && t == s.(run := Some(r.(handoff := r.handoff[1..], queue := r.queue + [r.handoff[0]])))
  }

  predicate Pop(cfg: Config, s: Sys, t: Sys) {
    && InAttempt(s)
    && var r := s.run.value;
      && r.consumer.Idle? && r.queue != [] && !r.abandoned
      && t == s.(run := Some(r.(queue := r.queue[1..],
                                consumer := Loading(r.queue[0], BatchIdFor(cfg, s.line, r.since, r.queue[0].batch), 0))))
  }

  predicate UnitPending(cfg: Config, s: Sys)
    requires cfg.maxRows > 0
  {
    && InAttempt(s) && s.run.value.consumer.Loading?
    && var c := s.run.value.consumer; c.unit < UnitCount(cfg, c.batchId, c.cut)
  }

  predicate SendUnit(cfg: Config, s: Sys, t: Sys)
    requires cfg.maxRows > 0
  {
    && UnitPending(cfg, s)
    && var c := s.run.value.consumer;
      t == s.(flights := s.flights + {InsertsOf(c.batchId, c.cut.batch.rows, cfg.maxRows)[c.unit]})
  }

  /** An insert that was sent reaches the destination, maybe not for the first time. */
  predicate LandInsert(s: Sys, t: Sys, x: Insert) {
    x in s.flights && t == s.(dest := Deliver(s.dest, x))
  }

  predicate AckUnit(cfg: Config, s: Sys, t: Sys)
    requires cfg.maxRows > 0
  {
    && UnitPending(cfg, s)
    && var r := s.run.value;
      && Token(r.consumer.batchId, r.consumer.unit) in s.dest.tokens
      && t == s.(run := Some(r.(consumer := r.consumer.(unit := r.consumer.unit + 1))))
  }

  /** A failed load is tried again from its first unit with the same batch id. */
  predicate Reload(s: Sys, t: Sys) {
    && InAttempt(s) && s.run.value.consumer.Loading?
    && var r := s.run.value;
      t == s.(run := Some(r.(consumer := r.consumer.(unit := 0))))
  }

  /** The load returned: only an attempt that was not abandoned asks for the commit. */
  predicate LoadDone(cfg: Config, s: Sys, t: Sys)
    requires cfg.maxRows > 0
  {
    && InAttempt(s) && s.run.value.consumer.Loading? && !UnitPending(cfg, s) && !s.run.value.abandoned
    && var r := s.run.value; var c := r.consumer;
      t == s.(run := Some(r.(consumer := Committing)),
              chain := s.chain + [CommitFor(cfg, |s.attempts| - 1, s.line, c.cut, c.batchId)],
              attempts := ReplaceLast(s.attempts, Last(s).(loaded := Last(s).loaded + [Loaded(c.cut, c.batchId)])))
  }

  predicate StopLoading(s: Sys, t: Sys) {
    && InAttempt(s) && s.run.value.consumer.Loading?
    && t == s.(run := Some(s.run.value.(consumer := Stopped)))
  }

  /** A failure, an abort or the shutdown grace ends the attempt; detached work may still finish. */
  predicate Abandon(s: Sys, t: Sys) {
    InAttempt(s) && t == s.(run := Some(s.run.value.(abandoned := true)))
  }

  predicate RequestRetry(s: Sys, t: Sys) {
    && InAttempt(s) && s.run.value.abandoned && !s.aborted && OpenEnded(s.chain)
    && t == s.(chain := s.chain + [RetryNote])
  }

  /** Producer and consumer both returned. */
  predicate Drained(s: Sys) {
    && InAttempt(s) && Last(s).ended
    && s.run.value.handoff == [] && s.run.value.queue == [] && s.run.value.consumer.Idle?
  }

  /** The work is over: it succeeded only when everything read was loaded and committed. */
  predicate RequestFinish(s: Sys, t: Sys, outcome: WorkState) {
    && s.line.live && !outcome.Unset? && !outcome.Planned? && !outcome.Running? && OpenEnded(s.chain)
    && (if outcome.Succeeded? then Drained(s) && !Last(s).cutShort && !s.run.value.abandoned && !s.aborted
        else s.run.None? || s.run.value.abandoned || Drained(s))
    && t == s.(chain := s.chain + [Finish(if s.attempts == [] then 0 else |s.attempts| - 1, outcome)],
               run := if s.run.Some? then Some(s.run.value.(abandoned := true)) else None)
  }
}
