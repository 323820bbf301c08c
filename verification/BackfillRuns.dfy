/**
 Whole backfill runs against a server: concurrent chunk tasks, crashes between submit and state write,
 state files written out of order, resume with reconciliation, replay of failed chunks, cancel.
 */
module BackfillRuns {
  import opened Wrappers
  import opened Backfill

  // ----- the server -----

  datatype Result = Active | Succeeded | Broke

  /** One execution of a chunk's query; a terminal one reaches the query log some time later. */
  datatype Exec = Exec(result: Result, logged: bool)

  /** The newest logged execution from `mark` on. */
  function LatestLogged(execs: seq<Exec>, mark: nat): Option<Exec> {
    if |execs| <= mark then None
    else
      var last := execs[|execs| - 1];
      if last.logged then Some(last) else LatestLogged(execs[..|execs| - 1], mark)
  }

  predicate IsActive(execs: seq<Exec>) {
    execs != [] && execs[|execs| - 1].result.Active?
  }

  predicate HasSucceeded(execs: seq<Exec>) {
    execs != [] && execs[|execs| - 1].result.Succeeded?
  }

  function Successes(execs: seq<Exec>): nat {
    if execs == [] then 0
    else Successes(execs[..|execs| - 1]) + if execs[|execs| - 1].result.Succeeded? then 1 else 0
  }

  /** Every terminal execution is in the log. */
  predicate AllLogged(execs: seq<Exec>) {
    forall i :: 0 <= i < |execs| ==> execs[i].result.Active? || execs[i].logged
  }

  /** What `queryStatus` answers: the process list first, then the log behind the mark. */
  function StatusAnswer(execs: seq<Exec>, mark: Option<nat>, metric: nat): QueryStatus {
    if IsActive(execs) then InProcess(metric, metric, metric)
    else
      match LatestLogged(execs, if mark.Some? then mark.value else 0)
      case None => Unknown
      case Some(e) => if e.result.Succeeded? then Finished(metric) else Broken("exception")
  }

  /** What the log query of a reconciliation says about a chunk. */
  function LogEntry(queryId: string, execs: seq<Exec>): Option<LogRow> {
    match LatestLogged(execs, 0)
    case None => None
    case Some(e) => Some(LogRow(queryId, e.result.Succeeded?, 0, if e.result.Succeeded? then "" else "exception"))
  }

  // ----- the client -----

  datatype RunStatus = RunRunning | RunCompleted | RunFailed | RunCancelled

  datatype RunFile = RunFile(status: RunStatus, progress: Progress)

  /** One task of the concurrent map. */
  datatype Task = Waiting | Sent | Polling(errors: nat) | Ended

  datatype Phase = Reconciling | Asked(running: set<string>) | Working

  /** The process that runs; `issued` are the snapshots it handed to the state writer so far. */
  datatype Proc = Proc(phase: Phase, replay: bool, progress: Progress, tasks: map<string, Task>, issued: set<Progress>)

  datatype Setup = Setup(planId: string, chunks: set<string>, maxErrors: nat)

  datatype Sys = Sys(server: map<string, seq<Exec>>, file: Option<RunFile>, proc: Option<Proc>)

  function Begin(cfg: Setup): Sys {
    Sys(map c | c in cfg.chunks :: [], None, None)
  }

  function Execs(s: Sys, c: string): seq<Exec> {
    if c in s.server then s.server[c] else []
  }

  /** The entries a run starts from: resumed ones as saved, missing ones pending. */
  function Resumed(cfg: Setup, saved: Progress): Progress {
    map c | c in cfg.chunks :: if c in saved then saved[c] else PENDING
  }

  /** `replayFailed`: a confirmed failure is pending again, and older executions become stale. */
  function Reset(replay: bool, st: ChunkState, execs: seq<Exec>): ChunkState {
    if replay && st.status.Failed? then PENDING.(mark := Some(|execs|)) else st
  }

  function ReconciledAll(cfg: Setup, s: Sys, running: set<string>, replay: bool, progress: Progress): Progress {
    map c | c in progress ::
      Reset(replay, Reconciled(progress[c], QueryId(cfg.planId, c), c in running, LogEntry(QueryId(cfg.planId, c), Execs(s, c))), Execs(s, c))
  }

  predicate MayWork(s: Sys, c: string) {
    s.proc.Some? && s.proc.value.phase.Working? && c in s.proc.value.progress && c in s.proc.value.tasks && c in s.server
  }

  /** `run`: refused when a run file exists; the file is written before anything is submitted. */
  predicate FirstRun(cfg: Setup, s: Sys, t: Sys) {
    && s.proc.None? && s.file.None?
    && t == s.(file := Some(RunFile(RunRunning, map[])),
               proc := Some(Proc(Working, false, Resumed(cfg, map[]), map c | c in cfg.chunks :: Waiting, {map[]})))
  }

  /** `resume`: refused only when the run is completed. */
  predicate Resume(cfg: Setup, s: Sys, t: Sys, replay: bool) {
    && s.proc.None? && s.file.Some? && !s.file.value.status.RunCompleted?
    && var saved := s.file.value.progress;
      t == s.(file := Some(RunFile(RunRunning, saved)),
              proc := Some(Proc(Reconciling, replay, Resumed(cfg, saved), map c | c in cfg.chunks :: Waiting, {saved})))
  }

  /** The first question of `syncProgress`. */
  predicate AskProcesses(cfg: Setup, s: Sys, t: Sys) {
    && s.proc.Some? && s.proc.value.phase.Reconciling?
    && t == s.(proc := Some(s.proc.value.(phase := Asked(set c | c in cfg.chunks && IsActive(Execs(s, c))))))
  }

  /** The second question, the reset of failed chunks, and the snapshot of the reconciled state. */
  predicate AskLog(cfg: Setup, s: Sys, t: Sys) {
    && s.proc.Some? && s.proc.value.phase.Asked?
    && var p := s.proc.value;
      var next := ReconciledAll(cfg, s, p.phase.running, p.replay, p.progress);
      t == s.(proc := Some(p.(phase := Working, progress := next, issued := p.issued + {next})))
  }

  /** The chunk's next state is set and handed to the state writer. */
  function SetChunk(p: Proc, c: string, st: ChunkState, task: Task): Proc {
    var next := p.progress[c := st];
    p.(progress := next, issued := p.issued + {next}, tasks := p.tasks[c := task])
  }

  /** The query is accepted by the server under its deterministic id; the state is not written yet. */
  predicate Submit(s: Sys, t: Sys, c: string) {
    && MayWork(s, c)
    && var p := s.proc.value;
      && p.tasks[c].Waiting? && (p.progress[c].status.Pending? || (InFlight(p.progress[c]) && p.progress[c].queryId.None?))
      && t == s.(server := s.server[c := s.server[c] + [Exec(Active, false)]], proc := Some(p.(tasks := p.tasks[c := Sent])))
  }

  predicate Record(cfg: Setup, s: Sys, t: Sys, c: string) {
    && MayWork(s, c)
    && var p := s.proc.value;
      && p.tasks[c].Sent?
      && t == s.(proc := Some(SetChunk(p, c, p.progress[c].(status := Submitted, queryId := Some(QueryId(cfg.planId, c))), Polling(0))))
  }

  predicate StartPolling(s: Sys, t: Sys, c: string) {
    && MayWork(s, c)
    && var p := s.proc.value;
      && p.tasks[c].Waiting? && Polls(p.progress[c])
      && t == s.(proc := Some(p.(tasks := p.tasks[c := Polling(0)])))
  }

  predicate SkipTerminal(s: Sys, t: Sys, c: string) {
    && MayWork(s, c)
    && var p := s.proc.value;
      && p.tasks[c].Waiting? && Terminal(p.progress[c])
      && t == s.(proc := Some(p.(tasks := p.tasks[c := Ended])))
  }

  function TaskAfter(st: ChunkState, errors: nat): Task {
    if Terminal(st) then Ended else Polling(errors)
  }

  /** One turn of `pollChunk`: an answer of the server, or an error. */
  predicate PollTurn(cfg: Setup, s: Sys, t: Sys, c: string, poll: Poll) {
    && MayWork(s, c)
    && var p := s.proc.value;
      && p.tasks[c].Polling? && Polls(p.progress[c])
      && var (st, errors, changed) := PollOnce(p.progress[c], poll, p.tasks[c].errors, cfg.maxErrors);
        t == s.(proc := Some(if changed then SetChunk(p, c, st, TaskAfter(st, errors)) else p.(tasks := p.tasks[c := Polling(errors)])))
  }

  predicate PollAnswered(cfg: Setup, s: Sys, t: Sys, c: string, metric: nat) {
    MayWork(s, c) && PollTurn(cfg, s, t, c, Answer(StatusAnswer(s.server[c], s.proc.value.progress[c].mark, metric)))
  }

  predicate PollFailed(cfg: Setup, s: Sys, t: Sys, c: string) {
    PollTurn(cfg, s, t, c, PollError)
  }

  /** A snapshot reaches the state file; writes of concurrent tasks may overtake each other. */
  predicate Persist(s: Sys, t: Sys, snapshot: Progress) {
    && s.proc.Some? && snapshot in s.proc.value.issued
    && t == s.(file := Some(RunFile(RunRunning, snapshot)))
  }

  predicate Crash(s: Sys, t: Sys) {
    s.proc.Some? && t == s.(proc := None)
  }

  predicate AnyFailed(progress: Progress) {
    exists c :: c in progress && progress[c].status.Failed?
  }

  /** The run ends when every task has: `failed` when a chunk failed, `completed` otherwise. */
  predicate Finish(s: Sys, t: Sys) {
    && s.proc.Some? && s.proc.value.phase.Working? && (forall c :: c in s.proc.value.tasks ==> s.proc.value.tasks[c].Ended?)
    && t == s.(file := Some(RunFile(if AnyFailed(s.proc.value.progress) then RunFailed else RunCompleted, s.proc.value.progress)), proc := None)
  }

  /** `cancel`: refused on a completed run, nothing to do on a cancelled one. */
  predicate Cancel(s: Sys, t: Sys) {
    && s.file.Some? && !s.file.value.status.RunCompleted? && !s.file.value.status.RunCancelled?
    && t == s.(file := Some(s.file.value.(status := RunCancelled)))
  }

  predicate ServerEnds(s: Sys, t: Sys, c: string, result: Result) {
    && c in s.server && IsActive(s.server[c]) && !result.Active?
    && t == s.(server := s.server[c := s.server[c][..|s.server[c]| - 1] + [Exec(result, false)]])
  }

  predicate ServerLogs(s: Sys, t: Sys, c: string, i: nat) {
    && c in s.server && i < |s.server[c]| && !s.server[c][i].result.Active?
    && t == s.(server := s.server[c := s.server[c][i := s.server[c][i].(logged := true)]])
  }
}
