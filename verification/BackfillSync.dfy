/**
 `syncProgress` reads what the server lists; the machine of whole runs reads the executions themselves. Here the
 two are shown to be the same.
 */
module BackfillSync {
  import opened Wrappers
  import opened Backfill
  import opened BackfillRuns

  /** The logged executions of a query as the log query lists them: newest first. */
  function Listed(queryId: string, execs: seq<Exec>): seq<LogRow> {
    if execs == [] then []
    else
      var last := execs[|execs| - 1];
      (if last.logged then [LogRow(queryId, last.result.Succeeded?, 0, if last.result.Succeeded? then "" else "exception")] else [])
      + Listed(queryId, execs[..|execs| - 1])
  }

  /** The rows of one query among those of all queries, in their order. */
  function RowsOf(rows: seq<LogRow>, queryId: string): seq<LogRow> {
    if rows == [] then [] else (if rows[0].queryId == queryId then [rows[0]] else []) + RowsOf(rows[1..], queryId)
  }

  /** The log query shows every logged execution of these chunks, newest first, mixed with those of the others. */
  ghost predicate ShowsLog(cfg: Setup, s: Sys, rows: seq<LogRow>) {
    forall c :: c in cfg.chunks ==> RowsOf(rows, QueryId(cfg.planId, c)) == Listed(QueryId(cfg.planId, c), Execs(s, c))
  }

  /** The process list shows exactly these chunks as running. */
  ghost predicate ShowsProcesses(cfg: Setup, ids: set<string>, running: set<string>) {
    forall c :: c in cfg.chunks ==> (QueryId(cfg.planId, c) in ids <==> c in running)
  }

  lemma {:induction false} NewestIsFirstListed(rows: seq<LogRow>, queryId: string)
    ensures Latest(rows, queryId) == if RowsOf(rows, queryId) == [] then None else Some(RowsOf(rows, queryId)[0])
  {
    LatestIsNewest(rows, queryId);
    hide Latest;
    if rows != [] {
      var rest := rows[1..];
      NewestIsFirstListed(rest, queryId);
      LatestIsNewest(rest, queryId);
      if rows[0].queryId == queryId {
        assert IsNewest(rows, queryId, 0);
      } else if i :| 0 <= i < |rest| && IsNewest(rest, queryId, i) {
        assert rest[i] == rows[i + 1];
        forall j | 0 <= j < i + 1 ensures rows[j].queryId != queryId {
          assert j > 0 ==> rest[j - 1] == rows[j];
        }
        assert IsNewest(rows, queryId, i + 1);
      } else {
        NoneIsListed(rest, queryId);
        assert forall j :: 0 < j < |rows| ==> rest[j - 1] == rows[j];
      }
    }
  }

  /** Some row of a query is the newest one, unless there is none. */
  lemma {:induction false} NoneIsListed(rows: seq<LogRow>, queryId: string)
    requires forall i: nat :: !IsNewest(rows, queryId, i)
    ensures forall i :: 0 <= i < |rows| ==> rows[i].queryId != queryId
  {
    forall i | 0 <= i < |rows| ensures rows[i].queryId != queryId {
      NotListedYet(rows, queryId, i);
    }
  }

  lemma {:induction false} NotListedYet(rows: seq<LogRow>, queryId: string, i: nat)
    requires i < |rows| && forall k: nat :: !IsNewest(rows, queryId, k)
    ensures forall j :: 0 <= j <= i ==> rows[j].queryId != queryId
  {
    if i > 0 {
      NotListedYet(rows, queryId, i - 1);
    }
    assert !IsNewest(rows, queryId, i);
  }

  lemma {:induction false} NewestLoggedIsFirstListed(queryId: string, execs: seq<Exec>)
    ensures LogEntry(queryId, execs) == if Listed(queryId, execs) == [] then None else Some(Listed(queryId, execs)[0])
  {
    if execs != [] {
      NewestLoggedIsFirstListed(queryId, execs[..|execs| - 1]);
    }
  }

  // ----- what a replay no longer sees -----

  lemma {:induction false} OlderAreBehindTheMark(past: seq<Exec>, more: seq<Exec>)
    ensures LatestLogged(past + more, |past|) == LatestLogged(more, 0)
    decreases |more|
  {
    if more != [] {
      var all := past + more;
      assert all[..|all| - 1] == past + more[..|more| - 1];
      OlderAreBehindTheMark(past, more[..|more| - 1]);
    }
  }

  /**
   A failed chunk that is replayed is pending again, and from then on a poll is answered from the executions
   that start behind the reset alone, whatever the log still gains of the older ones.
   */
  lemma ReplayForgetsFailures(cfg: Setup, s: Sys, t: Sys, c: string, past: seq<Exec>, more: seq<Exec>, metric: nat)
    requires AskLog(cfg, s, t) && s.proc.value.replay && c in s.proc.value.progress
    requires Reconciled(s.proc.value.progress[c], QueryId(cfg.planId, c), c in s.proc.value.phase.running,
                        LogEntry(QueryId(cfg.planId, c), Execs(s, c))).status == Failed
    requires |past| == |Execs(s, c)| && more != []
    ensures c in t.proc.value.progress && t.proc.value.progress[c].status == Pending && t.proc.value.progress[c].queryId == None
    ensures StatusAnswer(past + more, t.proc.value.progress[c].mark, metric) == StatusAnswer(more, None, metric)
  {
    OlderAreBehindTheMark(past, more);
    hide LatestLogged, LogEntry, QueryId;
    assert (past + more)[|past + more| - 1] == more[|more| - 1];
  }

  // ----- the step between the two -----

  /** What `syncProgress` computes from the two answers of the server is the reconciliation of the machine. */
  lemma SyncIsTheReconciliation(cfg: Setup, s: Sys, chunks: seq<string>, progress: Progress, ids: set<string>, rows: seq<LogRow>,
                                running: set<string>, updated: Progress)
    requires forall c :: c in chunks <==> c in cfg.chunks
    requires progress.Keys == cfg.chunks && ShowsLog(cfg, s, rows) && ShowsProcesses(cfg, ids, running)
    requires Synced(cfg.planId, chunks, progress, ids, rows, updated)
    ensures updated == ReconciledAll(cfg, s, running, false, progress)
  {
    hide QueryId, Latest, LogEntry;
    forall c | c in progress ensures updated[c] == ReconciledAll(cfg, s, running, false, progress)[c] {
      NewestIsFirstListed(rows, QueryId(cfg.planId, c));
      NewestLoggedIsFirstListed(QueryId(cfg.planId, c), Execs(s, c));
    }
  }
}
