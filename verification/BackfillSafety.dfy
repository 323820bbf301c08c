/**
 What backfill runs promise over any sequence of crashes, resumes and replays: at most one successful
 execution per chunk, `done` only for finished queries, and absorbing terminal states.
 */
module BackfillSafety {
  import opened Wrappers
  import opened Backfill
  import opened BackfillRuns

  // ----- the invariant -----

  predicate AllBroke(execs: seq<Exec>) {
    forall i :: 0 <= i < |execs| ==> execs[i].result.Broke?
  }

  /** Only the newest execution of a chunk can be active or successful. */
  predicate ServerOk(execs: seq<Exec>) {
    forall i :: 0 <= i < |execs| - 1 ==> execs[i].result.Broke?
  }

  predicate StateOk(st: ChunkState, execs: seq<Exec>) {
    && (st.status.Done? ==> HasSucceeded(execs))
    && (!st.status.Pending? ==> execs != [])
    && (InFlight(st) ==> st.queryId.Some?)
  }

  predicate SnapshotOk(server: map<string, seq<Exec>>, p: Progress) {
    forall c :: c in p && c in server ==> StateOk(p[c], server[c])
  }

  predicate TaskOk(phase: Phase, task: Task, st: ChunkState, execs: seq<Exec>) {
    match task
    case Waiting => phase.Working? && st.status.Pending? ==> AllBroke(execs)
    case Sent => phase.Working? && execs != [] && st.status.Pending?
    case Polling(_) => phase.Working? && Polls(st)
    case Ended => phase.Working? && Terminal(st)
  }

  predicate AskedOk(phase: Phase, server: map<string, seq<Exec>>) {
    phase.Asked? ==> forall c :: c in server ==> if c in phase.running then server[c] != [] else !IsActive(server[c])
  }

  ghost predicate ProcOk(cfg: Setup, server: map<string, seq<Exec>>, p: Proc) {
    && p.progress.Keys == cfg.chunks && p.tasks.Keys == cfg.chunks && server.Keys == cfg.chunks
    && SnapshotOk(server, p.progress)
    && (forall snapshot :: snapshot in p.issued ==> SnapshotOk(server, snapshot))
    && (forall c :: c in cfg.chunks ==> TaskOk(p.phase, p.tasks[c], p.progress[c], server[c]))
    && AskedOk(p.phase, server)
  }

  ghost predicate FileOk(cfg: Setup, server: map<string, seq<Exec>>, f: RunFile) {
    && SnapshotOk(server, f.progress)
    && (f.status.RunCompleted? ==> f.progress.Keys == cfg.chunks && forall c :: c in cfg.chunks ==> f.progress[c].status.Done?)
  }

  ghost predicate Inv(cfg: Setup, s: Sys) {
    && s.server.Keys == cfg.chunks
    && (forall c :: c in s.server ==> ServerOk(s.server[c]))
    && (s.file.Some? ==> FileOk(cfg, s.server, s.file.value))
    && (s.file.None? ==> s.proc.None? && forall c :: c in s.server ==> s.server[c] == [])
    && (s.proc.Some? ==> ProcOk(cfg, s.server, s.proc.value))
  }

  // ----- the server moves on -----

  /** What a change of the executions keeps: a success stays, and nothing is forgotten. */
  predicate Stable(before: seq<Exec>, after: seq<Exec>) {
    (HasSucceeded(before) ==> HasSucceeded(after)) && (before != [] ==> after != [])
  }

  lemma SnapshotStays(server: map<string, seq<Exec>>, c: string, execs: seq<Exec>, p: Progress)
    requires SnapshotOk(server, p) && c in server && Stable(server[c], execs)
    ensures SnapshotOk(server[c := execs], p)
  {
  }

  /** Executions of one chunk changed; the tasks still agree with them. */
  lemma ServerMoves(cfg: Setup, s: Sys, p: Proc, c: string, execs: seq<Exec>)
    requires s.server.Keys == cfg.chunks && c in s.server && Stable(s.server[c], execs) && ProcOk(cfg, s.server, p)
    requires TaskOk(p.phase, p.tasks[c], p.progress[c], execs)
    requires p.phase.Asked? ==> if c in p.phase.running then execs != [] else !IsActive(execs)
    ensures ProcOk(cfg, s.server[c := execs], p)
  {
    hide StateOk, IsActive, Stable;
    assert SnapshotOk(s.server[c := execs], p.progress) by {
      SnapshotStays(s.server, c, execs, p.progress);
    }
    forall snapshot | snapshot in p.issued ensures SnapshotOk(s.server[c := execs], snapshot) {
      SnapshotStays(s.server, c, execs, snapshot);
    }
  }

  lemma FileStays(cfg: Setup, server: map<string, seq<Exec>>, c: string, execs: seq<Exec>, f: RunFile)
    requires FileOk(cfg, server, f) && c in server && Stable(server[c], execs)
    ensures FileOk(cfg, server[c := execs], f)
  {
    hide Stable;
    SnapshotStays(server, c, execs, f.progress);
  }

  lemma EndedExec(execs: seq<Exec>, result: Result)
    requires IsActive(execs) && ServerOk(execs) && !result.Active?
    ensures var next := execs[..|execs| - 1] + [Exec(result, false)];
      ServerOk(next) && Stable(execs, next) && next != [] && !IsActive(next) && !AllBroke(execs)
  {
    assert !execs[|execs| - 1].result.Broke?;
  }

  lemma ServerEndsKeeps(cfg: Setup, s: Sys, t: Sys, c: string, result: Result)
    requires Inv(cfg, s) && ServerEnds(s, t, c, result)
    ensures Inv(cfg, t)
  {
    var next := s.server[c][..|s.server[c]| - 1] + [Exec(result, false)];
    hide ServerOk, ProcOk, FileOk, Stable, IsActive, AllBroke;
    EndedExec(s.server[c], result);
    if s.proc.Some? {
      EndedTask(cfg, s.server, s.proc.value, c, next);
      ServerMoves(cfg, s, s.proc.value, c, next);
    }
    if s.file.Some? {
      FileStays(cfg, s.server, c, next, s.file.value);
    }
  }

  lemma EndedTask(cfg: Setup, server: map<string, seq<Exec>>, p: Proc, c: string, execs: seq<Exec>)
    requires ProcOk(cfg, server, p) && c in server && server.Keys == cfg.chunks && IsActive(server[c]) && !AllBroke(server[c])
    requires execs != [] && !IsActive(execs)
    ensures TaskOk(p.phase, p.tasks[c], p.progress[c], execs)
    ensures p.phase.Asked? ==> if c in p.phase.running then execs != [] else !IsActive(execs)
  {
    hide IsActive, AllBroke, SnapshotOk;
  }

  lemma LoggedExec(execs: seq<Exec>, i: nat)
    requires i < |execs| && ServerOk(execs)
    ensures var next := execs[i := execs[i].(logged := true)];
      ServerOk(next) && Stable(execs, next) && IsActive(next) == IsActive(execs) && (AllBroke(execs) ==> AllBroke(next))
  {
  }

  lemma ServerLogsKeeps(cfg: Setup, s: Sys, t: Sys, c: string, i: nat)
    requires Inv(cfg, s) && ServerLogs(s, t, c, i)
    ensures Inv(cfg, t)
  {
    hide ServerOk, ProcOk, FileOk, Stable, IsActive, AllBroke;
    var next := s.server[c][i := s.server[c][i].(logged := true)];
    LoggedExec(s.server[c], i);
    if s.proc.Some? {
      LoggedTask(cfg, s.server, s.proc.value, c, next);
      ServerMoves(cfg, s, s.proc.value, c, next);
    }
    if s.file.Some? {
      FileStays(cfg, s.server, c, next, s.file.value);
    }
  }

  lemma LoggedTask(cfg: Setup, server: map<string, seq<Exec>>, p: Proc, c: string, execs: seq<Exec>)
    requires ProcOk(cfg, server, p) && c in server && server.Keys == cfg.chunks
    requires IsActive(execs) == IsActive(server[c]) && (AllBroke(server[c]) ==> AllBroke(execs)) && execs != []
    ensures TaskOk(p.phase, p.tasks[c], p.progress[c], execs)
    ensures p.phase.Asked? ==> if c in p.phase.running then execs != [] else !IsActive(execs)
  {
    hide IsActive, AllBroke, SnapshotOk;
  }

  // ----- the client -----

  lemma SubmittedExec(execs: seq<Exec>)
    requires AllBroke(execs)
    ensures ServerOk(execs + [Exec(Active, false)]) && Stable(execs, execs + [Exec(Active, false)])
  {
  }

  /** Submitting is safe: whatever ran before broke. */
  lemma SubmitKeeps(cfg: Setup, s: Sys, t: Sys, c: string)
    requires Inv(cfg, s) && Submit(s, t, c)
    ensures Inv(cfg, t)
  {
    hide ServerOk, FileOk, Stable, IsActive;
    var p, next := s.proc.value, s.server[c] + [Exec(Active, false)];
    assert AllBroke(s.server[c]) by {
      assert StateOk(p.progress[c], s.server[c]) && TaskOk(p.phase, p.tasks[c], p.progress[c], s.server[c]);
    }
    SubmittedExec(s.server[c]);
    hide AllBroke;
    assert ProcOk(cfg, s.server, p);
    SentTask(cfg, s.server, p, c, next);
    if s.file.Some? {
      FileStays(cfg, s.server, c, next, s.file.value);
    }
  }

  lemma SentTask(cfg: Setup, server: map<string, seq<Exec>>, p: Proc, c: string, execs: seq<Exec>)
    requires ProcOk(cfg, server, p) && c in server && server.Keys == cfg.chunks && p.phase.Working?
    requires Stable(server[c], execs) && execs != [] && p.progress[c].status.Pending?
    ensures ProcOk(cfg, server[c := execs], p.(tasks := p.tasks[c := Sent]))
  {
    hide StateOk, Stable;
    SnapshotStays(server, c, execs, p.progress);
    forall snapshot | snapshot in p.issued ensures SnapshotOk(server[c := execs], snapshot) {
      SnapshotStays(server, c, execs, snapshot);
    }
    hide SnapshotOk;
  }

  /** A task sets its chunk: the new snapshot is as good as the state it sets. */
  lemma SetChunkOk(cfg: Setup, server: map<string, seq<Exec>>, p: Proc, c: string, st: ChunkState, task: Task)
    requires ProcOk(cfg, server, p) && c in cfg.chunks && server.Keys == cfg.chunks && p.phase.Working?
    requires StateOk(st, server[c]) && TaskOk(p.phase, task, st, server[c])
    ensures ProcOk(cfg, server, SetChunk(p, c, st, task))
  {
    hide StateOk, TaskOk;
    assert SnapshotOk(server, p.progress[c := st]);
    hide SnapshotOk;
  }

  lemma TaskChangeOk(cfg: Setup, server: map<string, seq<Exec>>, p: Proc, c: string, task: Task)
    requires ProcOk(cfg, server, p) && c in cfg.chunks && server.Keys == cfg.chunks
    requires TaskOk(p.phase, task, p.progress[c], server[c])
    ensures ProcOk(cfg, server, p.(tasks := p.tasks[c := task]))
  {
    hide StateOk, TaskOk, SnapshotOk;
  }

  lemma RecordKeeps(cfg: Setup, s: Sys, t: Sys, c: string)
    requires Inv(cfg, s) && Record(cfg, s, t, c)
    ensures Inv(cfg, t)
  {
    hide ServerOk, FileOk;
    var p := s.proc.value;
    assert TaskOk(p.phase, p.tasks[c], p.progress[c], s.server[c]);
    SetChunkOk(cfg, s.server, p, c, p.progress[c].(status := Submitted, queryId := Some(QueryId(cfg.planId, c))), Polling(0));
  }

  lemma StartPollingKeeps(cfg: Setup, s: Sys, t: Sys, c: string)
    requires Inv(cfg, s) && StartPolling(s, t, c)
    ensures Inv(cfg, t)
  {
    hide ServerOk, FileOk, ProcOk;
    assert s.proc.value.progress.Keys == cfg.chunks by {
      KeysOk(cfg, s.server, s.proc.value);
    }
    TaskChangeOk(cfg, s.server, s.proc.value, c, Polling(0));
  }

  lemma KeysOk(cfg: Setup, server: map<string, seq<Exec>>, p: Proc)
    requires ProcOk(cfg, server, p)
    ensures p.progress.Keys == cfg.chunks && p.tasks.Keys == cfg.chunks
  {
  }

  lemma SkipTerminalKeeps(cfg: Setup, s: Sys, t: Sys, c: string)
    requires Inv(cfg, s) && SkipTerminal(s, t, c)
    ensures Inv(cfg, t)
  {
    hide ServerOk, FileOk, ProcOk;
    KeysOk(cfg, s.server, s.proc.value);
    TaskChangeOk(cfg, s.server, s.proc.value, c, Ended);
  }

  lemma {:induction false} BrokenLogHasNoSuccess(execs: seq<Exec>, mark: nat)
    requires AllBroke(execs)
    ensures LatestLogged(execs, mark).Some? ==> LatestLogged(execs, mark).value.result.Broke?
  {
    if |execs| > mark && !execs[|execs| - 1].logged {
      BrokenLogHasNoSuccess(execs[..|execs| - 1], mark);
    }
  }

  /** A logged success behind any mark is the newest execution. */
  lemma LoggedSuccessIsLast(execs: seq<Exec>, mark: nat)
    requires ServerOk(execs)
    ensures LatestLogged(execs, mark).Some? && LatestLogged(execs, mark).value.result.Succeeded? ==> HasSucceeded(execs)
  {
    if |execs| > mark && !execs[|execs| - 1].logged {
      BrokenLogHasNoSuccess(execs[..|execs| - 1], mark);
    }
  }

  /** A poll moves a chunk to a state that is true of the server. */
  lemma PolledOk(execs: seq<Exec>, st: ChunkState, poll: Poll, errors: nat, maxErrors: nat, metric: nat)
    requires ServerOk(execs) && StateOk(st, execs) && Polls(st)
    requires poll == PollError || poll == Answer(StatusAnswer(execs, st.mark, metric))
    ensures var (next, count, changed) := PollOnce(st, poll, errors, maxErrors);
      StateOk(next, execs) && TaskOk(Working, TaskAfter(next, count), next, execs) && (!changed ==> next == st)
  {
    if poll.Answer? && poll.q.Finished? {
      LoggedSuccessIsLast(execs, if st.mark.Some? then st.mark.value else 0);
    }
  }

  lemma PollTurnKeeps(cfg: Setup, s: Sys, t: Sys, c: string, poll: Poll, metric: nat)
    requires Inv(cfg, s) && PollTurn(cfg, s, t, c, poll)
    requires poll == PollError || poll == Answer(StatusAnswer(s.server[c], s.proc.value.progress[c].mark, metric))
    ensures Inv(cfg, t)
  {
    hide FileOk, StatusAnswer, PollOnce, TaskAfter;
    var p := s.proc.value;
    assert StateOk(p.progress[c], s.server[c]);
    hide ServerOk, StateOk;
    PolledOk(s.server[c], p.progress[c], poll, p.tasks[c].errors, cfg.maxErrors, metric);
    var (st, errors, changed) := PollOnce(p.progress[c], poll, p.tasks[c].errors, cfg.maxErrors);
    assert ProcOk(cfg, s.server, p);
    if changed {
      SetChunkOk(cfg, s.server, p, c, st, TaskAfter(st, errors));
    } else {
      TaskChangeOk(cfg, s.server, p, c, Polling(errors));
    }
  }

  // ----- runs begin, end and are resumed -----

  lemma FirstRunKeeps(cfg: Setup, s: Sys, t: Sys)
    requires Inv(cfg, s) && FirstRun(cfg, s, t)
    ensures Inv(cfg, t)
  {
  }

  lemma ResumedOk(cfg: Setup, server: map<string, seq<Exec>>, saved: Progress)
    requires SnapshotOk(server, saved)
    ensures SnapshotOk(server, Resumed(cfg, saved)) && Resumed(cfg, saved).Keys == cfg.chunks
  {
    hide StateOk;
    assert forall execs :: StateOk(PENDING, execs) by {
      forall execs ensures StateOk(PENDING, execs) {
        PendingIsOk(execs);
      }
    }
  }

  lemma PendingIsOk(execs: seq<Exec>)
    ensures StateOk(PENDING, execs)
  {
  }

  lemma ResumeKeeps(cfg: Setup, s: Sys, t: Sys, replay: bool)
    requires Inv(cfg, s) && Resume(cfg, s, t, replay)
    ensures Inv(cfg, t)
  {
    hide ServerOk, SnapshotOk, Resumed;
    ResumedOk(cfg, s.server, s.file.value.progress);
  }

  lemma AskProcessesKeeps(cfg: Setup, s: Sys, t: Sys)
    requires Inv(cfg, s) && AskProcesses(cfg, s, t)
    ensures Inv(cfg, t)
  {
    hide ServerOk, SnapshotOk, FileOk, StateOk;
    var running := t.proc.value.phase.running;
    forall c | c in s.server ensures if c in running then s.server[c] != [] else !IsActive(s.server[c]) {
      assert Execs(s, c) == s.server[c];
    }
    forall c | c in cfg.chunks ensures TaskOk(t.proc.value.phase, t.proc.value.tasks[c], t.proc.value.progress[c], s.server[c]) {
      assert TaskOk(s.proc.value.phase, s.proc.value.tasks[c], s.proc.value.progress[c], s.server[c]);
    }
  }

  /** Reconciling one chunk whose ended executions are in the log: what is pending behind it may be submitted. */
  lemma ReconciledOk(st: ChunkState, execs: seq<Exec>, queryId: string, running: bool, replay: bool)
    requires ServerOk(execs) && StateOk(st, execs)
    requires if running then execs != [] else !IsActive(execs) && AllLogged(execs)
    ensures var next := Reset(replay, Reconciled(st, queryId, running, LogEntry(queryId, execs)), execs);
      StateOk(next, execs) && (next.status.Pending? ==> AllBroke(execs))
  {
    if !running && execs != [] {
      assert execs[|execs| - 1].logged;
      assert LatestLogged(execs, 0) == Some(execs[|execs| - 1]);
    }
  }

  lemma ReconciledChunk(cfg: Setup, s: Sys, c: string)
    requires Inv(cfg, s) && s.proc.Some? && s.proc.value.phase.Asked? && c in cfg.chunks
    requires c !in s.proc.value.phase.running ==> AllLogged(Execs(s, c))
    ensures var p := s.proc.value;
      var next := ReconciledAll(cfg, s, p.phase.running, p.replay, p.progress);
      c in next && StateOk(next[c], s.server[c]) && TaskOk(Working, p.tasks[c], next[c], s.server[c])
  {
    hide FileOk, StateOk, ServerOk, AllBroke, AllLogged, LogEntry, Reconciled, Reset, IsActive, QueryId;
    var p := s.proc.value;
    assert StateOk(p.progress[c], s.server[c]) && TaskOk(p.phase, p.tasks[c], p.progress[c], s.server[c]) && ServerOk(s.server[c]);
    ReconciledOk(p.progress[c], s.server[c], QueryId(cfg.planId, c), c in p.phase.running, p.replay);
  }

  lemma AskLogKeeps(cfg: Setup, s: Sys, t: Sys)
    requires Inv(cfg, s) && AskLog(cfg, s, t)
    requires forall c :: c in cfg.chunks && c !in s.proc.value.phase.running ==> AllLogged(Execs(s, c))
    ensures Inv(cfg, t)
  {
    hide FileOk, StateOk, ServerOk, TaskOk, LogEntry, Reconciled, Reset, AllLogged, IsActive, QueryId;
    forall c | c in cfg.chunks
      ensures StateOk(t.proc.value.progress[c], s.server[c]) && TaskOk(Working, s.proc.value.tasks[c], t.proc.value.progress[c], s.server[c])
    {
      ReconciledChunk(cfg, s, c);
    }
    hide ReconciledAll;
    assert SnapshotOk(s.server, t.proc.value.progress);
    hide SnapshotOk;
  }

  lemma PersistKeeps(cfg: Setup, s: Sys, t: Sys, snapshot: Progress)
    requires Inv(cfg, s) && Persist(s, t, snapshot)
    ensures Inv(cfg, t)
  {
    hide ServerOk, SnapshotOk;
  }

  lemma FinishKeeps(cfg: Setup, s: Sys, t: Sys)
    requires Inv(cfg, s) && Finish(s, t)
    ensures Inv(cfg, t)
  {
    hide ServerOk, SnapshotOk, StateOk;
    var p := s.proc.value;
    if !AnyFailed(p.progress) {
      forall c | c in cfg.chunks ensures p.progress[c].status.Done? {
        assert TaskOk(p.phase, p.tasks[c], p.progress[c], s.server[c]);
      }
    }
  }

  // ----- runs -----

  datatype Act =
    | FirstRuns | Resumes(replay: bool) | AsksProcesses | AsksLog
    | Submits(c: string) | Records(c: string) | StartsPolling(c: string) | SkipsTerminal(c: string)
    | PollIsAnswered(c: string, metric: nat) | PollFails(c: string)
    | Persists(snapshot: Progress) | Crashes | Finishes | Cancels
    | Ends(c: string, result: Result) | Logs(c: string, i: nat)

  predicate Does(cfg: Setup, s: Sys, act: Act, t: Sys) {
    match act
    case FirstRuns => FirstRun(cfg, s, t)
    case Resumes(replay) => Resume(cfg, s, t, replay)
    case AsksProcesses => AskProcesses(cfg, s, t)
    case AsksLog => AskLog(cfg, s, t)
    case Submits(c) => Submit(s, t, c)
    case Records(c) => Record(cfg, s, t, c)
    case StartsPolling(c) => StartPolling(s, t, c)
    case SkipsTerminal(c) => SkipTerminal(s, t, c)
    case PollIsAnswered(c, metric) => PollAnswered(cfg, s, t, c, metric)
    case PollFails(c) => PollFailed(cfg, s, t, c)
    case Persists(snapshot) => Persist(s, t, snapshot)
    case Crashes => Crash(s, t)
    case Finishes => Finish(s, t)
    case Cancels => Cancel(s, t)
    case Ends(c, result) => ServerEnds(s, t, c, result)
    case Logs(c, i) => ServerLogs(s, t, c, i)
  }

  /** A reconciliation sees every execution that had ended: in the process list or, by now, in the log. */
  ghost predicate Visible(cfg: Setup, s: Sys, act: Act) {
    act.AsksLog? && s.proc.Some? && s.proc.value.phase.Asked? ==>
      forall c :: c in cfg.chunks && c !in s.proc.value.phase.running ==> AllLogged(Execs(s, c))
  }

  lemma StepKeeps(cfg: Setup, s: Sys, act: Act, t: Sys)
    requires Inv(cfg, s) && Does(cfg, s, act, t) && Visible(cfg, s, act)
    ensures Inv(cfg, t)
  {
    hide FirstRun, Resume, AskProcesses, Submit, Record, StartPolling, SkipTerminal, Persist, Finish, ServerEnds, ServerLogs,
         ServerOk, ProcOk, PollTurn, AllLogged, StatusAnswer;
    match act
    case FirstRuns => FirstRunKeeps(cfg, s, t);
    case Resumes(replay) => ResumeKeeps(cfg, s, t, replay);
    case AsksProcesses => AskProcessesKeeps(cfg, s, t);
    case AsksLog => AskLogKeeps(cfg, s, t);
    case Submits(c) => SubmitKeeps(cfg, s, t, c);
    case Records(c) => RecordKeeps(cfg, s, t, c);
    case StartsPolling(c) => StartPollingKeeps(cfg, s, t, c);
    case SkipsTerminal(c) => SkipTerminalKeeps(cfg, s, t, c);
    case PollIsAnswered(c, metric) =>
      PollTurnKeeps(cfg, s, t, c, Answer(StatusAnswer(s.server[c], s.proc.value.progress[c].mark, metric)), metric);
    case PollFails(c) =>
      hide StateOk;
      PollErrorKeeps(cfg, s, t, c);
    case Persists(snapshot) => PersistKeeps(cfg, s, t, snapshot);
    case Finishes => FinishKeeps(cfg, s, t);
    case Ends(c, result) => ServerEndsKeeps(cfg, s, t, c, result);
    case Logs(c, i) => ServerLogsKeeps(cfg, s, t, c, i);
    case _ =>
  }

  lemma PollErrorKeeps(cfg: Setup, s: Sys, t: Sys, c: string)
    requires Inv(cfg, s) && PollTurn(cfg, s, t, c, PollError)
    ensures Inv(cfg, t)
  {
    hide Inv;
    PollTurnKeeps(cfg, s, t, c, PollError, 0);
  }

  ghost predicate IsRun(cfg: Setup, states: seq<Sys>, acts: seq<Act>) {
    && |states| == |acts| + 1
    && states[0] == Begin(cfg)
    && forall i :: 0 <= i < |acts| ==> Does(cfg, states[i], acts[i], states[i + 1])
  }

  ghost predicate AlwaysVisible(cfg: Setup, states: seq<Sys>, acts: seq<Act>)
    requires |states| == |acts| + 1
  {
    forall i :: 0 <= i < |acts| ==> Visible(cfg, states[i], acts[i])
  }

  lemma {:induction false} RunsKeepInv(cfg: Setup, states: seq<Sys>, acts: seq<Act>)
    requires IsRun(cfg, states, acts) && AlwaysVisible(cfg, states, acts)
    ensures Inv(cfg, states[|acts|])
  {
    if acts == [] {
      BeginIsOk(cfg);
    } else {
      hide Inv, Does, Visible, Begin;
      var n := |acts| - 1;
      RunsKeepInv(cfg, states[..n + 1], acts[..n]);
      StepKeeps(cfg, states[n], acts[n], states[n + 1]);
    }
  }

  lemma BeginIsOk(cfg: Setup)
    ensures Inv(cfg, Begin(cfg))
  {
  }

  // ----- the promises -----

  lemma {:induction false} BrokenNeverSucceeded(execs: seq<Exec>)
    requires AllBroke(execs)
    ensures Successes(execs) == 0
  {
    if execs != [] {
      BrokenNeverSucceeded(execs[..|execs| - 1]);
    }
  }

  lemma CountSuccesses(execs: seq<Exec>)
    requires ServerOk(execs)
    ensures Successes(execs) == if HasSucceeded(execs) then 1 else 0
  {
    if execs != [] {
      BrokenNeverSucceeded(execs[..|execs| - 1]);
    }
  }

  /**
   Over any sequence of runs, crashes at any point, resumes, replays and overtaking state writes, a
   chunk is executed successfully at most once, and whatever a process or a state file calls done was.
   */
  lemma AtMostOneSuccess(cfg: Setup, states: seq<Sys>, acts: seq<Act>, c: string)
    requires IsRun(cfg, states, acts) && AlwaysVisible(cfg, states, acts) && c in cfg.chunks
    ensures var s := states[|acts|];
      && c in s.server && Successes(s.server[c]) <= 1
      && (s.proc.Some? && c in s.proc.value.progress && s.proc.value.progress[c].status.Done? ==> Successes(s.server[c]) == 1)
      && (s.file.Some? && c in s.file.value.progress && s.file.value.progress[c].status.Done? ==> Successes(s.server[c]) == 1)
  {
    hide Does, Begin, Visible;
    RunsKeepInv(cfg, states, acts);
    hide IsRun, AlwaysVisible;
    var s := states[|acts|];
    CountSuccesses(s.server[c]);
    hide ServerOk, Successes, HasSucceeded, TaskOk, AskedOk;
    if s.proc.Some? && c in s.proc.value.progress {
      assert StateOk(s.proc.value.progress[c], s.server[c]);
    }
    if s.file.Some? && c in s.file.value.progress {
      assert StateOk(s.file.value.progress[c], s.server[c]);
    }
  }

  /** A completed run has every chunk done, each with exactly one successful execution. */
  lemma CompletedMeansEveryChunk(cfg: Setup, states: seq<Sys>, acts: seq<Act>, c: string)
    requires IsRun(cfg, states, acts) && AlwaysVisible(cfg, states, acts) && c in cfg.chunks
    requires states[|acts|].file.Some? && states[|acts|].file.value.status.RunCompleted?
    ensures var s := states[|acts|];
      && c in s.file.value.progress && s.file.value.progress[c].status.Done?
      && c in s.server && Successes(s.server[c]) == 1
  {
    hide Does, Begin, Visible, Successes;
    RunsKeepInv(cfg, states, acts);
    AtMostOneSuccess(cfg, states, acts, c);
    hide IsRun, AlwaysVisible, ServerOk, SnapshotOk;
  }

  lemma CompletedStays(cfg: Setup, s: Sys, act: Act, t: Sys)
    requires s.proc.None? && s.file.Some? && s.file.value.status.RunCompleted? && Does(cfg, s, act, t)
    ensures t.file == s.file && t.proc.None?
  {
  }

  /** Nothing that happens later changes a completed run: `run`, `resume` and `cancel` all refuse it. */
  lemma {:induction false} CompletedIsAbsorbing(cfg: Setup, states: seq<Sys>, acts: seq<Act>, i: nat, j: nat)
    requires IsRun(cfg, states, acts) && i <= j <= |acts|
    requires states[i].proc.None? && states[i].file.Some? && states[i].file.value.status.RunCompleted?
    ensures states[j].file == states[i].file && states[j].proc.None?
    decreases j
  {
    hide Does, Begin;
    if i < j {
      CompletedIsAbsorbing(cfg, states, acts, i, j - 1);
      CompletedStays(cfg, states[j - 1], acts[j - 1], states[j]);
    }
  }

  lemma CancelledStays(cfg: Setup, s: Sys, act: Act, t: Sys)
    requires s.proc.None? && s.file.Some? && s.file.value.status.RunCancelled? && Does(cfg, s, act, t) && !act.Resumes?
    ensures t.file == s.file && t.proc.None?
  {
  }

  /** Once its process is gone a cancelled run stays cancelled until someone resumes it. */
  lemma {:induction false} CancelHoldsUntilResume(cfg: Setup, states: seq<Sys>, acts: seq<Act>, i: nat, j: nat)
    requires IsRun(cfg, states, acts) && i <= j <= |acts| && forall k :: i <= k < j ==> !acts[k].Resumes?
    requires states[i].proc.None? && states[i].file.Some? && states[i].file.value.status.RunCancelled?
    ensures states[j].file == states[i].file && states[j].proc.None?
    decreases j
  {
    hide Does, Begin;
    if i < j {
      CancelHoldsUntilResume(cfg, states, acts, i, j - 1);
      CancelledStays(cfg, states[j - 1], acts[j - 1], states[j]);
    }
  }

  /** And `resume` does start it again. */
  lemma CancelledCanResume(cfg: Setup, s: Sys, replay: bool)
    requires s.proc.None? && s.file.Some? && s.file.value.status.RunCancelled?
    ensures exists t :: Resume(cfg, s, t, replay) && t.file.value.status.RunRunning?
  {
    var saved := s.file.value.progress;
    var t := s.(file := Some(RunFile(RunRunning, saved)),
                proc := Some(Proc(Reconciling, replay, Resumed(cfg, saved), map c | c in cfg.chunks :: Waiting, {saved})));
    assert Resume(cfg, s, t, replay);
  }

  /** What is known of a chunk: by the process, or when none is running by the state file. */
  predicate KnownDone(s: Sys, c: string) {
    if s.proc.Some? then c in s.proc.value.progress && s.proc.value.progress[c].status.Done?
    else s.file.Some? && c in s.file.value.progress && s.file.value.progress[c].status.Done?
  }

  /** A chunk that is done stays done, within a process, when it ends, and in the one that resumes it; only a crash forgets. */
  lemma DoneIsAbsorbing(cfg: Setup, s: Sys, act: Act, t: Sys, c: string)
    requires Inv(cfg, s) && Does(cfg, s, act, t) && !act.Crashes? && c in cfg.chunks && KnownDone(s, c)
    ensures KnownDone(t, c)
  {
    hide ServerOk, SnapshotOk, FileOk, LogEntry, QueryId, AnyFailed;
    if s.proc.Some? {
      var p := s.proc.value;
      assert TaskOk(p.phase, p.tasks[c], p.progress[c], s.server[c]);
    }
  }

  lemma {:induction false} DoneHolds(cfg: Setup, states: seq<Sys>, acts: seq<Act>, c: string, i: nat, j: nat)
    requires IsRun(cfg, states, acts) && AlwaysVisible(cfg, states, acts) && c in cfg.chunks && i <= j <= |acts|
    requires KnownDone(states[i], c) && forall k :: i <= k < j ==> !acts[k].Crashes?
    ensures KnownDone(states[j], c)
    decreases j
  {
    hide Does, Begin, Visible, Inv, KnownDone;
    if i < j {
      DoneHolds(cfg, states, acts, c, i, j - 1);
      assert IsRun(cfg, states[..j], acts[..j - 1]) && AlwaysVisible(cfg, states[..j], acts[..j - 1]);
      RunsKeepInv(cfg, states[..j], acts[..j - 1]);
      DoneIsAbsorbing(cfg, states[j - 1], acts[j - 1], states[j], c);
    }
  }

  // ----- a run that returns -----

  /** Every task that ended left its chunk done or failed. */
  predicate Closing(cfg: Setup, p: Proc) {
    && p.progress.Keys == cfg.chunks && p.tasks.Keys == cfg.chunks
    && forall c :: c in cfg.chunks && p.tasks[c].Ended? ==> p.phase.Working? && Terminal(p.progress[c])
  }

  lemma PollTurnCloses(cfg: Setup, s: Sys, t: Sys, c: string, poll: Poll)
    requires PollTurn(cfg, s, t, c, poll) && (s.proc.Some? ==> Closing(cfg, s.proc.value))
    ensures t.proc.Some? && Closing(cfg, t.proc.value)
  {
    hide PollOnce, Terminal;
  }

  lemma StepCloses(cfg: Setup, s: Sys, act: Act, t: Sys)
    requires Does(cfg, s, act, t) && (s.proc.Some? ==> Closing(cfg, s.proc.value))
    ensures t.proc.Some? ==> Closing(cfg, t.proc.value)
  {
    hide PollTurn, StatusAnswer, ReconciledAll, Terminal, AnyFailed, IsActive;
    match act
    case PollIsAnswered(c, metric) =>
      PollTurnCloses(cfg, s, t, c, Answer(StatusAnswer(s.server[c], s.proc.value.progress[c].mark, metric)));
    case PollFails(c) => PollTurnCloses(cfg, s, t, c, PollError);
    case AsksLog => ReconciledKeys(cfg, s, s.proc.value);
    case _ =>
  }

  lemma ReconciledKeys(cfg: Setup, s: Sys, p: Proc)
    requires p.phase.Asked?
    ensures ReconciledAll(cfg, s, p.phase.running, p.replay, p.progress).Keys == p.progress.Keys
  {
    hide Reset, Reconciled, LogEntry;
  }

  lemma {:induction false} RunsClose(cfg: Setup, states: seq<Sys>, acts: seq<Act>)
    requires IsRun(cfg, states, acts)
    ensures states[|acts|].proc.Some? ==> Closing(cfg, states[|acts|].proc.value)
  {
    if acts != [] {
      hide Does, Begin, Closing;
      var n := |acts| - 1;
      RunsClose(cfg, states[..n + 1], acts[..n]);
      StepCloses(cfg, states[n], acts[n], states[n + 1]);
    }
  }

  /** These are the chunks of the plan. */
  predicate Lists(cfg: Setup, order: seq<string>) {
    (forall c :: c in order ==> c in cfg.chunks) && forall c :: c in cfg.chunks ==> c in order
  }

  lemma SomeFailed(cfg: Setup, order: seq<string>, progress: Progress)
    requires progress.Keys == cfg.chunks && Lists(cfg, order) && forall c :: c in cfg.chunks ==> Terminal(progress[c])
    ensures AnyFailed(progress) <==> Count(order, progress, false) != 0
  {
    NoneFailedMeansAllDone(order, progress);
  }

  /**
   Whatever happened before, whether or not the log was flushed: when a run returns, every chunk is done
   or failed, the two counts make up the total, and the run is recorded as completed exactly when none
   failed.
   */
  lemma FinishedRunCounts(cfg: Setup, states: seq<Sys>, acts: seq<Act>, order: seq<string>)
    requires IsRun(cfg, states, acts) && acts != [] && acts[|acts| - 1].Finishes? && Lists(cfg, order)
    ensures var s := states[|acts|];
      && s.proc.None? && s.file.Some?
      && var f := s.file.value;
        && f.progress.Keys == cfg.chunks && (forall c :: c in cfg.chunks ==> Terminal(f.progress[c]))
        && Count(order, f.progress, true) + Count(order, f.progress, false) == |order|
        && f.status == if Count(order, f.progress, false) == 0 then RunCompleted else RunFailed
  {
    var n := |acts| - 1;
    RunsClose(cfg, states[..n + 1], acts[..n]);
    assert Finish(states[n], states[n + 1]);
    hide IsRun, Terminal, AnyFailed;
    var p := states[n].proc.value;
    assert forall c :: c in cfg.chunks ==> p.tasks[c].Ended?;
    CountsMakeTotal(order, p.progress);
    SomeFailed(cfg, order, p.progress);
  }

  // ----- why the log must be flushed -----

  /**
   Reconciliation finds a finished query exactly when the list of processes or the log shows it: with an
   unflushed log the chunk keeps its local state.
   */
  lemma SyncFindsSuccessExactlyWhenLogged(st: ChunkState, execs: seq<Exec>, queryId: string)
    requires ServerOk(execs) && HasSucceeded(execs) && !st.status.Done?
    ensures Reconciled(st, queryId, false, LogEntry(queryId, execs)).status.Done? <==> execs[|execs| - 1].logged
  {
    if !execs[|execs| - 1].logged {
      BrokenLogHasNoSuccess(execs[..|execs| - 1], 0);
    }
  }

  /** The states up to the crash: submitted, not recorded, ended on the server, not yet logged. */
  function CrashedRun(c: string, ended: Result): (states: seq<Sys>)
    ensures |states| == 5
  {
    var p := Proc(Working, false, map[c := PENDING], map[c := Waiting], {map[]});
    var f := Some(RunFile(RunRunning, map[]));
    [Sys(map[c := []], None, None),
     Sys(map[c := []], f, Some(p)),
     Sys(map[c := [Exec(Active, false)]], f, Some(p.(tasks := map[c := Sent]))),
     Sys(map[c := [Exec(Active, false)]], f, None),
     Sys(map[c := [Exec(ended, false)]], f, None)]
  }

  /** The resume behind it: nothing is in the process list or the log, so the chunk is submitted again. */
  function BlindResume(c: string, ended: Result): (states: seq<Sys>)
    ensures |states| == 5
  {
    var p := Proc(Reconciling, false, map[c := PENDING], map[c := Waiting], {map[]});
    var f := Some(RunFile(RunRunning, map[]));
    var once, synced := map[c := [Exec(ended, false)]], p.(phase := Working, issued := {map[], map[c := PENDING]});
    var saved := Some(RunFile(RunRunning, map[c := PENDING]));
    [Sys(once, f, Some(p)),
     Sys(once, f, Some(p.(phase := Asked({})))),
     Sys(once, f, Some(synced)),
     Sys(once, saved, Some(synced)),
     Sys(map[c := [Exec(ended, false), Exec(Active, false)]], saved, Some(synced.(tasks := map[c := Sent])))]
  }

  lemma CrashedRunIsReal(cfg: Setup, c: string, ended: Result)
    requires cfg.chunks == {c} && !ended.Active?
    ensures var s := CrashedRun(c, ended);
      && s[0] == Begin(cfg) && Does(cfg, s[0], FirstRuns, s[1]) && Does(cfg, s[1], Submits(c), s[2])
      && Does(cfg, s[2], Crashes, s[3]) && Does(cfg, s[3], Ends(c, ended), s[4])
  {
    var s := CrashedRun(c, ended);
    assert s[0].server == Begin(cfg).server;
    assert FirstRun(cfg, s[0], s[1]) by {
      assert Resumed(cfg, map[]) == map[c := PENDING];
      assert (map d | d in cfg.chunks :: Waiting) == map[c := Waiting];
    }
    assert s[2].server[c] == s[1].server[c] + [Exec(Active, false)];
    assert s[2].proc.value.tasks == s[1].proc.value.tasks[c := Sent];
    assert s[4].server[c] == s[3].server[c][..0] + [Exec(ended, false)];
  }

  /** An unlogged execution leaves a pending chunk pending. */
  lemma NothingToSee(cfg: Setup, c: string, s: Sys, ended: Result)
    requires s.server == map[c := [Exec(ended, false)]]
    ensures ReconciledAll(cfg, s, {}, false, map[c := PENDING]) == map[c := PENDING]
  {
    assert LatestLogged([Exec(ended, false)], 0).None?;
  }

  lemma BlindResumeAsks(cfg: Setup, c: string, ended: Result)
    requires cfg.chunks == {c} && !ended.Active?
    ensures var s := BlindResume(c, ended);
      && Does(cfg, CrashedRun(c, ended)[4], Resumes(false), s[0]) && Does(cfg, s[0], AsksProcesses, s[1]) && Does(cfg, s[1], AsksLog, s[2])
  {
    var s := BlindResume(c, ended);
    assert Resumed(cfg, map[]) == map[c := PENDING];
    assert (map d | d in cfg.chunks :: Waiting) == map[c := Waiting];
    assert (set d | d in cfg.chunks && IsActive(Execs(s[0], d))) == {};
    NothingToSee(cfg, c, s[1], ended);
    hide ReconciledAll;
    assert {map[]} + {map[c := PENDING]} == {map[], map[c := PENDING]};
  }

  lemma BlindResumeSubmits(cfg: Setup, c: string, ended: Result)
    ensures var s := BlindResume(c, ended); Does(cfg, s[2], Persists(map[c := PENDING]), s[3]) && Does(cfg, s[3], Submits(c), s[4])
  {
    var s := BlindResume(c, ended);
    assert s[4].server[c] == s[3].server[c] + [Exec(Active, false)];
    assert s[4].proc.value.tasks == s[3].proc.value.tasks[c := Sent];
  }

  /** Both executions of a chunk are on the server, the first one unseen. */
  lemma BlindRun(cfg: Setup, c: string, ended: Result) returns (states: seq<Sys>, acts: seq<Act>)
    requires cfg.chunks == {c} && !ended.Active?
    ensures IsRun(cfg, states, acts) && states[|acts|] == BlindResume(c, ended)[4]
  {
    hide Does, Begin, CrashedRun, BlindResume;
    CrashedRunIsReal(cfg, c, ended);
    BlindResumeAsks(cfg, c, ended);
    BlindResumeSubmits(cfg, c, ended);
    acts := [FirstRuns, Submits(c), Crashes, Ends(c, ended), Resumes(false), AsksProcesses, AsksLog, Persists(map[c := PENDING]), Submits(c)];
    states := CrashedRun(c, ended) + BlindResume(c, ended);
  }

  lemma RunGoesOnFor(cfg: Setup, states: seq<Sys>, acts: seq<Act>, more: seq<Sys>, moreActs: seq<Act>)
    requires IsRun(cfg, states, acts) && |more| == |moreActs| > 0 && Does(cfg, states[|acts|], moreActs[0], more[0])
    requires forall i :: 0 < i < |more| ==> Does(cfg, more[i - 1], moreActs[i], more[i])
    ensures IsRun(cfg, states + more, acts + moreActs)
  {
    hide Does, Begin;
    var s, a := states + more, acts + moreActs;
    forall i | 0 <= i < |a| ensures Does(cfg, s[i], a[i], s[i + 1]) {
      if i < |acts| {
        assert Does(cfg, states[i], acts[i], states[i + 1]);
      } else if i > |acts| {
        assert Does(cfg, more[i - |acts| - 1], moreActs[i - |acts|], more[i - |acts|]);
      }
    }
  }

  lemma TwoSuccesses()
    ensures Successes([Exec(Succeeded, false), Exec(Succeeded, false)]) == 2
  {
    var twice := [Exec(Succeeded, false), Exec(Succeeded, false)];
    assert twice[..1] == [Exec(Succeeded, false)] && twice[..1][..0] == [];
  }

  /** Without the flushed log a crash between submit and state write executes a chunk successfully twice. */
  lemma UnflushedLogRunsTwice(cfg: Setup, c: string) returns (states: seq<Sys>, acts: seq<Act>)
    requires cfg.chunks == {c}
    ensures IsRun(cfg, states, acts) && c in states[|acts|].server && Successes(states[|acts|].server[c]) == 2
  {
    states, acts := BlindRun(cfg, c, Succeeded);
    var s := states[|acts|];
    var t := s.(server := map[c := [Exec(Succeeded, false), Exec(Succeeded, false)]]);
    assert t.server[c] == s.server[c][..1] + [Exec(Succeeded, false)];
    assert Does(cfg, s, Ends(c, Succeeded), t);
    TwoSuccesses();
    hide Does, IsRun, BlindResume, Successes;
    RunGoesOnFor(cfg, states, acts, [t], [Ends(c, Succeeded)]);
    acts, states := acts + [Ends(c, Succeeded)], states + [t];
  }

  // ----- an old failure hides a newer success -----

  /**
   A poll calls a chunk failed whose newest execution succeeded exactly when that success is not logged yet
   while an older execution behind the mark is.
   */
  lemma StaleFailureIff(execs: seq<Exec>, mark: Option<nat>, metric: nat)
    requires ServerOk(execs) && HasSucceeded(execs)
    ensures StatusAnswer(execs, mark, metric).Broken?
      <==> !execs[|execs| - 1].logged && LatestLogged(execs[..|execs| - 1], if mark.Some? then mark.value else 0).Some?
  {
    BrokenLogHasNoSuccess(execs[..|execs| - 1], if mark.Some? then mark.value else 0);
  }

  /** The second execution is recorded, the first one's failure reaches the log, the second one succeeds unlogged. */
  function StaleEnd(cfg: Setup, c: string): (states: seq<Sys>)
    ensures |states| == 7
  {
    var id := QueryId(cfg.planId, c);
    var sent, failed := PENDING.(status := Submitted, queryId := Some(id)), PENDING.(status := Failed, queryId := Some(id), error := Some("exception"));
    var f, g, h := Some(RunFile(RunRunning, map[c := PENDING])), Some(RunFile(RunRunning, map[c := sent])), Some(RunFile(RunRunning, map[c := failed]));
    var issued := {map[], map[c := PENDING], map[c := sent]};
    var p := Proc(Working, false, map[c := sent], map[c := Polling(0)], issued);
    var q := Proc(Working, false, map[c := failed], map[c := Ended], issued + {map[c := failed]});
    [Sys(map[c := [Exec(Broke, false), Exec(Active, false)]], f, Some(p)),
     Sys(map[c := [Exec(Broke, false), Exec(Active, false)]], g, Some(p)),
     Sys(map[c := [Exec(Broke, true), Exec(Active, false)]], g, Some(p)),
     Sys(map[c := [Exec(Broke, true), Exec(Succeeded, false)]], g, Some(p)),
     Sys(map[c := [Exec(Broke, true), Exec(Succeeded, false)]], g, Some(q)),
     Sys(map[c := [Exec(Broke, true), Exec(Succeeded, false)]], h, Some(q)),
     Sys(map[c := [Exec(Broke, true), Exec(Succeeded, false)]], Some(RunFile(RunFailed, map[c := failed])), None)]
  }

  function StaleActs(cfg: Setup, c: string): (acts: seq<Act>)
    ensures |acts| == 7
  {
    var s := StaleEnd(cfg, c);
    [Records(c), Persists(s[0].proc.value.progress), Logs(c, 0), Ends(c, Succeeded), PollIsAnswered(c, 0), Persists(s[4].proc.value.progress), Finishes]
  }

  lemma StaleEndRecords(cfg: Setup, c: string)
    ensures Does(cfg, BlindResume(c, Broke)[4], StaleActs(cfg, c)[0], StaleEnd(cfg, c)[0])
  {
    var s, t := BlindResume(c, Broke)[4].proc.value, StaleEnd(cfg, c)[0].proc.value;
    assert t.progress == s.progress[c := t.progress[c]] && t.tasks == s.tasks[c := Polling(0)];
    assert t.issued == s.issued + {t.progress};
  }

  lemma StaleEndSaves(cfg: Setup, c: string)
    ensures var s := StaleEnd(cfg, c); Does(cfg, s[0], StaleActs(cfg, c)[1], s[1])
  {
  }

  lemma StaleEndMoves(cfg: Setup, c: string)
    ensures var s := StaleEnd(cfg, c); Does(cfg, s[1], StaleActs(cfg, c)[2], s[2]) && Does(cfg, s[2], StaleActs(cfg, c)[3], s[3])
  {
    var s := StaleEnd(cfg, c);
    assert s[2].server[c] == s[1].server[c][0 := Exec(Broke, true)];
    assert s[3].server[c] == s[2].server[c][..1] + [Exec(Succeeded, false)];
  }

  lemma StaleEndPolls(cfg: Setup, c: string)
    ensures var s := StaleEnd(cfg, c); Does(cfg, s[3], StaleActs(cfg, c)[4], s[4]) && Does(cfg, s[4], StaleActs(cfg, c)[5], s[5])
  {
    var s := StaleEnd(cfg, c);
    var execs := s[3].server[c];
    assert execs[..1] == [Exec(Broke, true)];
    assert LatestLogged(execs, 0) == LatestLogged(execs[..1], 0) == Some(Exec(Broke, true));
    assert StatusAnswer(execs, None, 0) == Broken("exception");
    var p, q := s[3].proc.value, s[4].proc.value;
    assert q.progress == p.progress[c := q.progress[c]] && q.tasks == p.tasks[c := Ended] && q.issued == p.issued + {q.progress};
  }

  lemma StaleEndFinishes(cfg: Setup, c: string)
    ensures var s := StaleEnd(cfg, c); Does(cfg, s[5], StaleActs(cfg, c)[6], s[6])
  {
    var s := StaleEnd(cfg, c);
    assert c in s[5].proc.value.progress && s[5].proc.value.progress[c].status.Failed?;
  }

  /** A run in which it happens: a chunk that succeeded on the server is recorded as failed, and so is the run. */
  lemma StaleFailureIsReported(cfg: Setup, c: string) returns (states: seq<Sys>, acts: seq<Act>)
    requires cfg.chunks == {c}
    ensures IsRun(cfg, states, acts)
    ensures var s := states[|acts|];
      && c in s.server && HasSucceeded(s.server[c])
      && s.file.Some? && s.file.value.status.RunFailed? && c in s.file.value.progress && s.file.value.progress[c].status.Failed?
  {
    states, acts := BlindRun(cfg, c, Broke);
    StaleEndRecords(cfg, c);
    StaleEndSaves(cfg, c);
    StaleEndMoves(cfg, c);
    StaleEndPolls(cfg, c);
    StaleEndFinishes(cfg, c);
    var more := StaleEnd(cfg, c);
    assert more[6].server[c] == [Exec(Broke, true), Exec(Succeeded, false)];
    hide Does, IsRun, BlindResume, StaleEnd, StaleActs;
    RunGoesOnFor(cfg, states, acts, more, StaleActs(cfg, c));
    states, acts := states + more, acts + StaleActs(cfg, c);
  }

  // ----- a process that does not see the cancellation -----

  /** A run is cancelled while its process polls; the process goes on and writes over the cancellation. */
  function IgnoredCancel(cfg: Setup, c: string): (states: seq<Sys>)
    ensures |states| == 11
  {
    var id := QueryId(cfg.planId, c);
    var sent, done := PENDING.(status := Submitted, queryId := Some(id)), PENDING.(status := Done, queryId := Some(id), written := Some(0));
    var p := Proc(Working, false, map[c := PENDING], map[c := Waiting], {map[]});
    var q := Proc(Working, false, map[c := sent], map[c := Polling(0)], {map[], map[c := sent]});
    var r := Proc(Working, false, map[c := done], map[c := Ended], {map[], map[c := sent], map[c := done]});
    var active, ended, logged := map[c := [Exec(Active, false)]], map[c := [Exec(Succeeded, false)]], map[c := [Exec(Succeeded, true)]];
    var f, g := Some(RunFile(RunRunning, map[])), Some(RunFile(RunCancelled, map[c := sent]));
    [Sys(map[c := []], None, None),
     Sys(map[c := []], f, Some(p)),
     Sys(active, f, Some(p.(tasks := map[c := Sent]))),
     Sys(active, f, Some(q)),
     Sys(active, Some(RunFile(RunRunning, map[c := sent])), Some(q)),
     Sys(active, g, Some(q)),
     Sys(ended, g, Some(q)),
     Sys(logged, g, Some(q)),
     Sys(logged, g, Some(r)),
     Sys(logged, Some(RunFile(RunRunning, map[c := done])), Some(r)),
     Sys(logged, Some(RunFile(RunCompleted, map[c := done])), None)]
  }

  function IgnoredActs(cfg: Setup, c: string): (acts: seq<Act>)
    ensures |acts| == 10
  {
    var s := IgnoredCancel(cfg, c);
    [FirstRuns, Submits(c), Records(c), Persists(s[3].proc.value.progress), Cancels,
     Ends(c, Succeeded), Logs(c, 0), PollIsAnswered(c, 0), Persists(s[8].proc.value.progress), Finishes]
  }

  lemma IgnoredStarts(cfg: Setup, c: string)
    requires cfg.chunks == {c}
    ensures var s, a := IgnoredCancel(cfg, c), IgnoredActs(cfg, c);
      s[0] == Begin(cfg) && Does(cfg, s[0], a[0], s[1]) && Does(cfg, s[1], a[1], s[2])
  {
    var s := IgnoredCancel(cfg, c);
    assert s[0].server == Begin(cfg).server;
    assert FirstRun(cfg, s[0], s[1]) by {
      assert Resumed(cfg, map[]) == map[c := PENDING];
      assert (map d | d in cfg.chunks :: Waiting) == map[c := Waiting];
    }
    assert s[2].server[c] == s[1].server[c] + [Exec(Active, false)];
    assert s[2].proc.value.tasks == s[1].proc.value.tasks[c := Sent];
  }

  lemma IgnoredRecords(cfg: Setup, c: string)
    ensures var s, a := IgnoredCancel(cfg, c), IgnoredActs(cfg, c); Does(cfg, s[2], a[2], s[3])
  {
    var s := IgnoredCancel(cfg, c);
    var p, q := s[2].proc.value, s[3].proc.value;
    assert q.progress == p.progress[c := q.progress[c]] && q.tasks == p.tasks[c := Polling(0)] && q.issued == p.issued + {q.progress};
  }

  lemma IgnoredCancels(cfg: Setup, c: string)
    ensures var s, a := IgnoredCancel(cfg, c), IgnoredActs(cfg, c); Does(cfg, s[3], a[3], s[4]) && Does(cfg, s[4], a[4], s[5])
  {
  }

  lemma IgnoredSucceeds(cfg: Setup, c: string)
    ensures var s, a := IgnoredCancel(cfg, c), IgnoredActs(cfg, c); Does(cfg, s[5], a[5], s[6]) && Does(cfg, s[6], a[6], s[7])
  {
    var s := IgnoredCancel(cfg, c);
    assert s[6].server[c] == s[5].server[c][..0] + [Exec(Succeeded, false)];
    assert s[7].server[c] == s[6].server[c][0 := Exec(Succeeded, true)];
  }

  lemma IgnoredPolls(cfg: Setup, c: string)
    ensures var s, a := IgnoredCancel(cfg, c), IgnoredActs(cfg, c); Does(cfg, s[7], a[7], s[8]) && Does(cfg, s[8], a[8], s[9])
  {
    var s := IgnoredCancel(cfg, c);
    assert StatusAnswer(s[7].server[c], None, 0) == Finished(0);
    var p, q := s[7].proc.value, s[8].proc.value;
    assert q.progress == p.progress[c := q.progress[c]] && q.tasks == p.tasks[c := Ended] && q.issued == p.issued + {q.progress};
  }

  lemma IgnoredFinishes(cfg: Setup, c: string)
    ensures var s, a := IgnoredCancel(cfg, c), IgnoredActs(cfg, c); Does(cfg, s[9], a[9], s[10])
  {
    var s := IgnoredCancel(cfg, c);
    assert !AnyFailed(s[9].proc.value.progress);
  }

  lemma IsRunOf(cfg: Setup, states: seq<Sys>, acts: seq<Act>)
    requires |states| == |acts| + 1 && states[0] == Begin(cfg) && forall i :: 0 <= i < |acts| ==> Does(cfg, states[i], acts[i], states[i + 1])
    ensures IsRun(cfg, states, acts)
  {
  }

  /** A run that is cancelled on the way and ends as completed. */
  lemma CancelledIsNotAbsorbing(cfg: Setup, c: string) returns (states: seq<Sys>, acts: seq<Act>, at: nat)
    requires cfg.chunks == {c}
    ensures IsRun(cfg, states, acts) && at < |acts|
    ensures states[at].file.Some? && states[at].file.value.status.RunCancelled?
    ensures states[|acts|].file.Some? && states[|acts|].file.value.status.RunCompleted?
  {
    hide *;
    IgnoredStarts(cfg, c);
    IgnoredRecords(cfg, c);
    IgnoredCancels(cfg, c);
    IgnoredSucceeds(cfg, c);
    IgnoredPolls(cfg, c);
    IgnoredFinishes(cfg, c);
    IgnoredFiles(cfg, c);
    states, acts, at := IgnoredCancel(cfg, c), IgnoredActs(cfg, c), 5;
    IsRunOf(cfg, states, acts);
  }

  lemma IgnoredFiles(cfg: Setup, c: string)
    ensures var s := IgnoredCancel(cfg, c);
      s[5].file.Some? && s[5].file.value.status.RunCancelled? && s[10].file.Some? && s[10].file.value.status.RunCompleted?
  {
  }
}
