/**
 One chunk of an asynchronous backfill: its state, the deterministic query id, what a status answer and
 a reconciliation with the server make of it, and the loops of `syncProgress` and `pollChunk`.
 */
module Backfill {
  import opened Wrappers
  import opened Digest

  datatype Status = Pending | Submitted | Running | Done | Failed

  /** `mark` stands for `submittedAt`: executions before it are stale. Metrics are `readRows`, `writtenRows`, `elapsedMs`. */
  datatype ChunkState = ChunkState(
    status: Status, queryId: Option<string>, mark: Option<nat>,
    read: Option<nat>, written: Option<nat>, elapsed: Option<nat>, error: Option<string>)

  const PENDING := ChunkState(Pending, None, None, None, None, None, None)

  datatype QueryStatus =
    | InProcess(read: nat, written: nat, elapsed: nat)
    | Finished(written: nat)
    | Broken(error: string)
    | Unknown

  type Progress = map<string, ChunkState>

  function QueryId(planId: string, chunkId: string): string {
    "backfill-" + planId + "-" + chunkId
  }

  /** Within a plan the id tells the chunk, and it starts with the prefix the server is searched for. */
  lemma QueryIdInjective(planId: string, a: string, b: string)
    requires QueryId(planId, a) == QueryId(planId, b)
    ensures a == b && "backfill-" + planId + "-" <= QueryId(planId, a)
  {
    var head := "backfill-" + planId + "-";
    assert a == (head + a)[|head|..];
    assert b == (head + b)[|head|..];
  }

  predicate InFlight(s: ChunkState) {
    s.status.Submitted? || s.status.Running?
  }

  predicate Terminal(s: ChunkState) {
    s.status.Done? || s.status.Failed?
  }

  /** `applyQueryStatus`: the next state and whether it is worth persisting. */
  function ApplyQueryStatus(s: ChunkState, q: QueryStatus): (ChunkState, bool) {
    match q
    case InProcess(r, w, e) =>
      (s.(status := Running, read := Some(r), written := Some(w), elapsed := Some(e)),
       !s.status.Running? || s.read != Some(r) || s.written != Some(w) || s.elapsed != Some(e))
    case Finished(w) => (s.(status := Done, written := Some(w)), true)
    case Broken(error) => (s.(status := Failed, error := Some(error)), true)
    case Unknown => (s, false)
  }

  // ----- reconciliation -----

  datatype LogRow = LogRow(queryId: string, finished: bool, written: nat, exception: string)

  /** The latest log entry of a query: rows come newest first. */
  function Latest(rows: seq<LogRow>, queryId: string): Option<LogRow> {
    if rows == [] then None
    else
      var earlier := Latest(rows[..|rows| - 1], queryId);
      var last := rows[|rows| - 1];
      if earlier.Some? then earlier else if last.queryId == queryId then Some(last) else None
  }

  /** The row numbered `i` is the newest of its query id: no row in front of it has that id. */
  predicate IsNewest(rows: seq<LogRow>, queryId: string, i: nat) {
    i < |rows| && rows[i].queryId == queryId && forall j :: 0 <= j < i ==> rows[j].queryId != queryId
  }

  lemma {:induction false} LatestIsNewest(rows: seq<LogRow>, queryId: string)
    ensures Latest(rows, queryId).None? <==> forall i :: 0 <= i < |rows| ==> rows[i].queryId != queryId
    ensures forall i: nat :: IsNewest(rows, queryId, i) ==> Latest(rows, queryId) == Some(rows[i])
  {
    if rows != [] {
      var front, last := rows[..|rows| - 1], rows[|rows| - 1];
      LatestIsNewest(front, queryId);
      assert forall i :: 0 <= i < |front| ==> front[i] == rows[i];
      forall i: nat | IsNewest(rows, queryId, i) ensures Latest(rows, queryId) == Some(rows[i]) {
        if i < |front| {
          assert front[i] == rows[i] && IsNewest(front, queryId, i);
        }
      }
    }
  }

  /** What the server's answer makes of one chunk: running wins, then the log, else nothing changes. */
  function Reconciled(s: ChunkState, queryId: string, running: bool, entry: Option<LogRow>): ChunkState {
    if s.status.Done? then s
    else if running then s.(status := Running, queryId := Some(queryId))
    else
      match entry
      case None => s
      case Some(row) =>
        if row.finished then s.(status := Done, queryId := Some(queryId), written := Some(row.written))
        else s.(status := Failed, queryId := Some(queryId), error := Some(row.exception))
  }

  /** The map holds the latest row of every query id among these rows. */
  ghost predicate HoldsLatest(latest: map<string, LogRow>, rows: seq<LogRow>) {
    forall q :: (q in latest <==> Latest(rows, q).Some?) && (q in latest ==> Latest(rows, q) == Some(latest[q]))
  }

  method LatestByQueryId(rows: seq<LogRow>) returns (latest: map<string, LogRow>)
    ensures HoldsLatest(latest, rows)
    ensures forall q :: q in latest <==> exists i :: 0 <= i < |rows| && rows[i].queryId == q
    ensures forall q, i: nat :: IsNewest(rows, q, i) ==> q in latest && latest[q] == rows[i]
  {
    latest := map[];
    for i := 0 to |rows|
      invariant HoldsLatest(latest, rows[..i])
    {
      assert rows[..i + 1][..i] == rows[..i];
      if rows[i].queryId !in latest {
        latest := latest[rows[i].queryId := rows[i]];
      }
    }
    assert rows[..|rows|] == rows;
    forall q
      ensures q in latest <==> exists i :: 0 <= i < |rows| && rows[i].queryId == q
      ensures forall i: nat :: IsNewest(rows, q, i) ==> q in latest && latest[q] == rows[i]
    {
      LatestIsNewest(rows, q);
    }
  }

  /** The chunks of the plan that have an entry which is not done yet. */
  function NeedsSync(chunks: seq<string>, progress: Progress): seq<string> {
    if chunks == [] then []
    else
      var front, c := chunks[..|chunks| - 1], chunks[|chunks| - 1];
      NeedsSync(front, progress) + if c in progress && !progress[c].status.Done? then [c] else []
  }

  lemma NeedsSyncHas(chunks: seq<string>, progress: Progress, c: string)
    ensures c in NeedsSync(chunks, progress) <==> c in chunks && c in progress && !progress[c].status.Done?
  {
    if chunks != [] {
      var front, last := chunks[..|chunks| - 1], chunks[|chunks| - 1];
      assert chunks == front + [last];
      NeedsSyncHas(front, progress, c);
    }
  }

  method ChunksToSync(chunks: seq<string>, progress: Progress) returns (ids: seq<string>)
    ensures ids == NeedsSync(chunks, progress)
  {
    ids := [];
    for i := 0 to |chunks|
      invariant ids == NeedsSync(chunks[..i], progress)
    {
      assert chunks[..i + 1][..i] == chunks[..i];
      if chunks[i] in progress && !progress[chunks[i]].status.Done? {
        ids := ids + [chunks[i]];
      }
    }
    assert chunks[..|chunks|] == chunks;
  }

  /** One chunk after `syncProgress`. */
  function SyncedChunk(planId: string, running: set<string>, rows: seq<LogRow>, c: string, s: ChunkState): ChunkState {
    Reconciled(s, QueryId(planId, c), QueryId(planId, c) in running, Latest(rows, QueryId(planId, c)))
  }

  lemma SyncedTwice(planId: string, running: set<string>, rows: seq<LogRow>, c: string, s: ChunkState)
    ensures var once := SyncedChunk(planId, running, rows, c, s); SyncedChunk(planId, running, rows, c, once) == once
  {
  }

  /**
   The rule, case by case: a done chunk stays; a running query makes it running; else the newest log row
   of its query makes it done or failed; without one it stays. Nothing but the named fields changes.
   */
  lemma SyncedFollowsServer(planId: string, running: set<string>, rows: seq<LogRow>, c: string, s: ChunkState, i: nat)
    ensures var id, t := QueryId(planId, c), SyncedChunk(planId, running, rows, c, s);
      && t.mark == s.mark && t.read == s.read && t.elapsed == s.elapsed
      && (s.status.Done? ==> t == s)
      && (!s.status.Done? && id in running ==>
            t.status.Running? && t.queryId == Some(id) && t.written == s.written && t.error == s.error)
      && (!s.status.Done? && id !in running && (forall j :: 0 <= j < |rows| ==> rows[j].queryId != id) ==> t == s)
      && (!s.status.Done? && id !in running && IsNewest(rows, id, i) ==>
            && t.queryId == Some(id)
            && (if rows[i].finished then t.status.Done? && t.written == Some(rows[i].written) && t.error == s.error
                else t.status.Failed? && t.error == Some(rows[i].exception) && t.written == s.written))
  {
    LatestIsNewest(rows, QueryId(planId, c));
    hide QueryId, Latest;
  }

  /** All chunks after `syncProgress`. */
  ghost predicate Synced(planId: string, chunks: seq<string>, progress: Progress, running: set<string>, rows: seq<LogRow>, updated: Progress) {
    && updated.Keys == progress.Keys
    && forall c :: c in progress ==>
         updated[c] == if c in chunks then SyncedChunk(planId, running, rows, c, progress[c]) else progress[c]
  }

  /**
   `syncProgress`: every planned chunk with an entry is reconciled with the server, everything else is
   left alone. `running` and `rows` are the two answers of the server.
   */
  method SyncProgress(planId: string, chunks: seq<string>, progress: Progress, running: set<string>, rows: seq<LogRow>)
    returns (updated: Progress)
    ensures Synced(planId, chunks, progress, running, rows, updated)
  {
    var ids := ChunksToSync(chunks, progress);
    var latest := LatestByQueryId(rows);
    updated := progress;
    for i := 0 to |ids|
      invariant updated.Keys == progress.Keys
      invariant forall c :: c in progress ==>
        updated[c] == if c in ids[..i] then SyncedChunk(planId, running, rows, c, progress[c]) else progress[c]
    {
      var c := ids[i];
      NeedsSyncHas(chunks, progress, c);
      SyncedTwice(planId, running, rows, c, progress[c]);
      var queryId := QueryId(planId, c);
      assert ids[..i + 1] == ids[..i] + [c];
      hide QueryId, Latest;
      if queryId in running {
        updated := updated[c := updated[c].(status := Running, queryId := Some(queryId))];
      } else if queryId in latest {
        if latest[queryId].finished {
          updated := updated[c := updated[c].(status := Done, queryId := Some(queryId), written := Some(latest[queryId].written))];
        } else {
          updated := updated[c := updated[c].(status := Failed, queryId := Some(queryId), error := Some(latest[queryId].exception))];
        }
      }
    }
    assert ids[..|ids|] == ids;
    forall c | c in progress
      ensures updated[c] == if c in chunks then SyncedChunk(planId, running, rows, c, progress[c]) else progress[c]
    {
      NeedsSyncHas(chunks, progress, c);
    }
  }

  // ----- polling -----

  /** What one poll of the server brings. */
  datatype Poll = Answer(q: QueryStatus) | PollError

  function LostContact(errors: nat): string {
    "Lost contact with query after " + Decimal(errors) + " consecutive poll errors"
  }

  predicate Polls(s: ChunkState) {
    InFlight(s) && s.queryId.Some?
  }

  /** The state and the consecutive error count after one poll, and whether it is handed to the caller. */
  function PollOnce(s: ChunkState, p: Poll, errors: nat, maxErrors: nat): (ChunkState, nat, bool) {
    match p
    case PollError =>
      if errors + 1 >= maxErrors then (s.(status := Failed, error := Some(LostContact(errors + 1))), errors + 1, true)
      else (s, errors + 1, false)
    case Answer(q) =>
      var (next, changed) := ApplyQueryStatus(s, q);
      (if changed then next else s, 0, changed)
  }

  /** The states handed to the caller while these polls come in. */
  function Handed(s: ChunkState, polls: seq<Poll>, errors: nat, maxErrors: nat): seq<ChunkState>
    decreases |polls|
  {
    if polls == [] || !Polls(s) then []
    else
      var (next, count, changed) := PollOnce(s, polls[0], errors, maxErrors);
      (if changed then [next] else []) + Handed(next, polls[1..], count, maxErrors)
  }

  /** The state after these polls. */
  function AfterPolls(s: ChunkState, polls: seq<Poll>, errors: nat, maxErrors: nat): ChunkState
    decreases |polls|
  {
    if polls == [] || !Polls(s) then s
    else
      var (next, count, _) := PollOnce(s, polls[0], errors, maxErrors);
      AfterPolls(next, polls[1..], count, maxErrors)
  }

  lemma NextPoll(s: ChunkState, polls: seq<Poll>, i: nat, errors: nat, maxErrors: nat)
    requires i < |polls| && Polls(s)
    ensures var (next, count, changed) := PollOnce(s, polls[i], errors, maxErrors);
      && Handed(s, polls[i..], errors, maxErrors) == (if changed then [next] else []) + Handed(next, polls[i + 1..], count, maxErrors)
      && AfterPolls(s, polls[i..], errors, maxErrors) == AfterPolls(next, polls[i + 1..], count, maxErrors)
  {
    assert polls[i..][1..] == polls[i + 1..];
  }

  /**
   `pollChunk`: polls while the chunk is in flight, tolerates fewer than `maxErrors` errors in a row, and
   hands every changed state to the caller. The polls stand for what the server answers over time.
   */
  method PollChunk(initial: ChunkState, polls: seq<Poll>, maxErrors: nat) returns (state: ChunkState, handed: seq<ChunkState>)
    ensures state == AfterPolls(initial, polls, 0, maxErrors)
    ensures handed == Handed(initial, polls, 0, maxErrors)
  {
    hide LostContact;
    state, handed := initial, [];
    var errors, i := 0, 0;
    while i < |polls| && InFlight(state) && state.queryId.Some?
      invariant i <= |polls|
      invariant AfterPolls(state, polls[i..], errors, maxErrors) == AfterPolls(initial, polls, 0, maxErrors)
      invariant handed + Handed(state, polls[i..], errors, maxErrors) == Handed(initial, polls, 0, maxErrors)
    {
      NextPoll(state, polls, i, errors, maxErrors);
      var changed := true;
      if polls[i].PollError? {
        errors := errors + 1;
        if errors >= maxErrors {
          state := state.(status := Failed, error := Some(LostContact(errors)));
        } else {
          changed := false;
        }
      } else {
        errors := 0;
        var (next, worth) := ApplyQueryStatus(state, polls[i].q);
        changed := worth;
        if changed {
          state := next;
        }
      }
      if changed {
        handed := handed + [state];
      }
      i := i + 1;
    }
    assert i == |polls| ==> polls[i..] == [];
  }

  /** The last state handed over is the final one, all before it were still in flight. */
  lemma {:induction false} LastHandedIsFinal(s: ChunkState, polls: seq<Poll>, errors: nat, maxErrors: nat)
    ensures var h := Handed(s, polls, errors, maxErrors);
      && AfterPolls(s, polls, errors, maxErrors) == (if h == [] then s else h[|h| - 1])
      && forall i :: 0 <= i < |h| - 1 ==> Polls(h[i])
    decreases |polls|
  {
    if polls != [] && Polls(s) {
      var (next, count, changed) := PollOnce(s, polls[0], errors, maxErrors);
      LastHandedIsFinal(next, polls[1..], count, maxErrors);
      if changed && !Polls(next) {
        assert Handed(next, polls[1..], count, maxErrors) == [];
      }
    }
  }

  /** A poll ends as `done` only when the server said so. */
  lemma {:induction false} DoneIsServerSaid(s: ChunkState, polls: seq<Poll>, errors: nat, maxErrors: nat)
    requires !s.status.Done? && AfterPolls(s, polls, errors, maxErrors).status.Done?
    ensures exists i :: 0 <= i < |polls| && polls[i].Answer? && polls[i].q.Finished?
    decreases |polls|
  {
    var (next, count, changed) := PollOnce(s, polls[0], errors, maxErrors);
    if next.status.Done? {
      assert polls[0].Answer? && polls[0].q.Finished?;
    } else {
      DoneIsServerSaid(next, polls[1..], count, maxErrors);
      var i :| 0 <= i < |polls[1..]| && polls[1..][i].Answer? && polls[1..][i].q.Finished?;
      assert polls[i + 1] == polls[1..][i];
    }
  }

  /** Polling a chunk in flight never brings it back to `pending` and never changes its query id. */
  lemma {:induction false} PollsOnlyMoveOn(s: ChunkState, polls: seq<Poll>, errors: nat, maxErrors: nat)
    requires Polls(s)
    ensures var t := AfterPolls(s, polls, errors, maxErrors); !t.status.Pending? && t.queryId == s.queryId && t.mark == s.mark
    decreases |polls|
  {
    if polls != [] {
      var (next, count, changed) := PollOnce(s, polls[0], errors, maxErrors);
      if Polls(next) {
        PollsOnlyMoveOn(next, polls[1..], count, maxErrors);
      }
    }
  }

  // ----- what decides a poll -----

  /** The poll numbered `k` and the `n - 1` polls before it are all errors. */
  predicate ErrorsInARow(polls: seq<Poll>, k: nat, n: nat) {
    k < |polls| && n <= k + 1 && forall j :: k + 1 - n <= j <= k ==> polls[j].PollError?
  }

  /** The poll numbered `k` ends the polling: a final answer, or the last of `maxErrors` errors in a row. */
  predicate Decides(polls: seq<Poll>, k: nat, maxErrors: nat) {
    && k < |polls|
    && match polls[k]
       case Answer(q) => q.Finished? || q.Broken?
       case PollError => ErrorsInARow(polls, k, maxErrors)
  }

  predicate NothingDecides(polls: seq<Poll>, k: nat, maxErrors: nat) {
    forall j :: 0 <= j < k ==> !Decides(polls, j, maxErrors)
  }

  /** Nothing is polled that was not submitted, has ended, or has no query id to ask for. */
  lemma OnlyInFlightIsPolled(s: ChunkState, polls: seq<Poll>, errors: nat, maxErrors: nat)
    requires s.status == Pending || s.status == Done || s.status == Failed || s.queryId == None
    ensures AfterPolls(s, polls, errors, maxErrors) == s && Handed(s, polls, errors, maxErrors) == []
  {
  }

  /** What one poll makes of a chunk in flight: it is handed over exactly when it differs. */
  lemma OnlyChangesAreHanded(s: ChunkState, p: Poll, errors: nat, maxErrors: nat)
    requires Polls(s)
    ensures var (next, count, changed) := PollOnce(s, p, errors, maxErrors);
      && (changed <==> next != s)
      && (p.Answer? ==> count == 0) && (p.PollError? ==> count == errors + 1)
      && (p.Answer? && p.q.InProcess? ==>
            next.status.Running? && next.read == Some(p.q.read) && next.written == Some(p.q.written) && next.elapsed == Some(p.q.elapsed))
      && (p.Answer? && p.q.Unknown? ==> next == s)
  {
  }

  /** `n` errors behind one another, and then these polls. */
  function Behind(n: nat, polls: seq<Poll>): seq<Poll> {
    seq(n, i => PollError) + polls
  }

  lemma ErrorShifts(n: nat, polls: seq<Poll>)
    requires polls != [] && polls[0].PollError?
    ensures Behind(n, polls) == Behind(n + 1, polls[1..])
  {
  }

  /** Behind an answer the errors before it do not count. */
  lemma AnswerShifts(n: nat, polls: seq<Poll>, k: nat, maxErrors: nat)
    requires polls != [] && polls[0].Answer? && maxErrors > 0
    ensures Decides(Behind(n, polls), n + 1 + k, maxErrors) <==> Decides(polls[1..], k, maxErrors)
  {
    var all := Behind(n, polls);
    assert all[n].Answer?;
    assert forall j :: 0 <= j < |polls| - 1 ==> all[n + 1 + j] == polls[1..][j];
    if n + 1 + k < |all| && all[n + 1 + k].PollError? {
      if ErrorsInARow(polls[1..], k, maxErrors) {
        forall j | n + 2 + k - maxErrors <= j <= n + 1 + k ensures all[j].PollError? {
          assert all[j] == polls[1..][j - n - 1];
        }
      }
      if ErrorsInARow(all, n + 1 + k, maxErrors) {
        forall j | k + 1 - maxErrors <= j <= k ensures j >= 0 && polls[1..][j].PollError? {
          assert all[n + 1 + j].PollError?;
        }
      }
    }
  }

  /** What the deciding poll makes of the chunk. */
  predicate EndsBy(t: ChunkState, s: ChunkState, p: Poll, maxErrors: nat) {
    && t.queryId == s.queryId && t.mark == s.mark
    && match p
       case PollError => t.status.Failed? && t.error == Some(LostContact(maxErrors))
       case Answer(Finished(w)) => t.status.Done? && t.written == Some(w) && t.error == s.error
       case Answer(Broken(error)) => t.status.Failed? && t.error == Some(error)
       case _ => false
  }

  lemma {:induction false} FirstDecisionCounts(s: ChunkState, polls: seq<Poll>, errors: nat, maxErrors: nat, k: nat)
    requires Polls(s) && errors < maxErrors && k < |polls|
    requires Decides(Behind(errors, polls), errors + k, maxErrors) && NothingDecides(Behind(errors, polls), errors + k, maxErrors)
    ensures EndsBy(AfterPolls(s, polls, errors, maxErrors), s, polls[k], maxErrors)
    decreases |polls|
  {
    var all := Behind(errors, polls);
    assert all[errors] == polls[0] && all[errors + k] == polls[k];
    var (next, count, changed) := PollOnce(s, polls[0], errors, maxErrors);
    if polls[0].PollError? {
      ErrorShifts(errors, polls);
      if errors + 1 >= maxErrors {
        assert ErrorsInARow(all, errors, maxErrors);
        assert Decides(all, errors, maxErrors);
        assert AfterPolls(next, polls[1..], count, maxErrors) == next;
      } else {
        assert k > 0;
        FirstDecisionCounts(s, polls[1..], errors + 1, maxErrors, k - 1);
      }
    } else if polls[0].q.Finished? || polls[0].q.Broken? {
      assert Decides(all, errors, maxErrors);
      assert AfterPolls(next, polls[1..], count, maxErrors) == next;
    } else {
      AnswerShifts(errors, polls, k - 1, maxErrors);
      assert Behind(0, polls[1..]) == polls[1..];
      forall j | 0 <= j < k - 1 ensures !Decides(polls[1..], j, maxErrors) {
        AnswerShifts(errors, polls, j, maxErrors);
      }
      FirstDecisionCounts(next, polls[1..], 0, maxErrors, k - 1);
    }
  }

  lemma {:induction false} UndecidedGoesOn(s: ChunkState, polls: seq<Poll>, errors: nat, maxErrors: nat)
    requires Polls(s) && errors < maxErrors && NothingDecides(Behind(errors, polls), errors + |polls|, maxErrors)
    ensures Polls(AfterPolls(s, polls, errors, maxErrors))
    decreases |polls|
  {
    if polls != [] {
      var all := Behind(errors, polls);
      assert all[errors] == polls[0] && !Decides(all, errors, maxErrors);
      var (next, count, changed) := PollOnce(s, polls[0], errors, maxErrors);
      if polls[0].PollError? {
        ErrorShifts(errors, polls);
        assert errors + 1 < maxErrors;
        UndecidedGoesOn(s, polls[1..], errors + 1, maxErrors);
      } else {
        assert Behind(0, polls[1..]) == polls[1..];
        forall j | 0 <= j < |polls| - 1 ensures !Decides(polls[1..], j, maxErrors) {
          AnswerShifts(errors, polls, j, maxErrors);
        }
        UndecidedGoesOn(next, polls[1..], 0, maxErrors);
      }
    }
  }

  /** Errors in a row as the code counts them: a limit of 0 is a limit of 1. */
  function Limit(maxErrors: nat): nat {
    if maxErrors == 0 then 1 else maxErrors
  }

  lemma {:induction false} NoLimitIsOne(s: ChunkState, polls: seq<Poll>)
    ensures AfterPolls(s, polls, 0, 0) == AfterPolls(s, polls, 0, 1)
    decreases |polls|
  {
    if polls != [] && Polls(s) {
      var (next, _, _) := PollOnce(s, polls[0], 0, 0);
      if Polls(next) {
        NoLimitIsOne(next, polls[1..]);
      }
    }
  }

  /**
   A poll ends exactly with the first final answer, or with the first error that is the last of `maxErrors`
   in a row, whatever came in between; while there is none the chunk stays in flight.
   */
  lemma FirstDecisionEnds(s: ChunkState, polls: seq<Poll>, maxErrors: nat)
    requires Polls(s)
    ensures forall k: nat :: Decides(polls, k, Limit(maxErrors)) && NothingDecides(polls, k, Limit(maxErrors)) ==>
      EndsBy(AfterPolls(s, polls, 0, maxErrors), s, polls[k], Limit(maxErrors))
    ensures NothingDecides(polls, |polls|, Limit(maxErrors)) ==> Polls(AfterPolls(s, polls, 0, maxErrors))
  {
    NoLimitIsOne(s, polls);
    assert Behind(0, polls) == polls;
    hide AfterPolls, Decides, EndsBy, Behind, Polls, NothingDecides;
    forall k: nat | Decides(polls, k, Limit(maxErrors)) && NothingDecides(polls, k, Limit(maxErrors))
      ensures EndsBy(AfterPolls(s, polls, 0, maxErrors), s, polls[k], Limit(maxErrors))
    {
      FirstDecisionCounts(s, polls, 0, Limit(maxErrors), k);
    }
    if NothingDecides(polls, |polls|, Limit(maxErrors)) {
      UndecidedGoesOn(s, polls, 0, Limit(maxErrors));
    }
  }

  // ----- counting -----

  /** How many of these chunks have the status. */
  function Count(chunks: seq<string>, progress: Progress, done: bool): nat
    requires forall c :: c in chunks ==> c in progress
  {
    if chunks == [] then 0
    else
      var c := chunks[|chunks| - 1];
      Count(chunks[..|chunks| - 1], progress, done)
      + if (done && progress[c].status.Done?) || (!done && progress[c].status.Failed?) then 1 else 0
  }

  /** When every task ended, completed and failed make up the total. */
  lemma {:induction false} CountsMakeTotal(chunks: seq<string>, progress: Progress)
    requires forall c :: c in chunks ==> c in progress && Terminal(progress[c])
    ensures Count(chunks, progress, true) + Count(chunks, progress, false) == |chunks|
  {
    if chunks != [] {
      CountsMakeTotal(chunks[..|chunks| - 1], progress);
      assert chunks[|chunks| - 1] in chunks;
    }
  }

  lemma {:induction false} NoneFailedMeansAllDone(chunks: seq<string>, progress: Progress)
    requires forall c :: c in chunks ==> c in progress && Terminal(progress[c])
    ensures Count(chunks, progress, false) == 0 <==> forall c :: c in chunks ==> progress[c].status.Done?
  {
    if chunks != [] {
      var front, last := chunks[..|chunks| - 1], chunks[|chunks| - 1];
      assert chunks == front + [last];
      NoneFailedMeansAllDone(front, progress);
      assert last in chunks;
    }
  }
}
