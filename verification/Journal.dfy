/**
 The append-only ingestion journal of one target and one namespace: fact identity, the
 `readCheckpoint` validator and projection, and the in-memory projection it is compared with.
 */
module Journal {
  import opened Wrappers
  import opened Digest

  datatype Kind = WorkPlanned | AttemptStarted | RetryScheduled | BatchCommitted | WorkFinished

  datatype WorkState = Unset | Planned | Running | Succeeded | Failed | BudgetExhausted | Cancelled

  datatype Envelope = Envelope(strategy: string, version: nat, state: string)

  /** One fact. Absent text fields are empty strings, as in the stored row. */
  datatype Event = Event(
    seqNo: nat, kind: Kind, runId: string, workId: string, attemptNo: nat, batchId: string,
    expected: nat, version: nat, checkpoint: Option<Envelope>, workState: WorkState,
    sinkEvidence: string, retryAt: string, errorClass: string, detail: string)

  /** What every row of one history shares. */
  datatype Scope = Scope(targetId: string, namespaceId: string)

  // ----- identity -----

  function KindText(k: Kind): string {
    match k
    case WorkPlanned => "work_planned"
    case AttemptStarted => "attempt_started"
    case RetryScheduled => "retry_scheduled"
    case BatchCommitted => "batch_committed"
    case WorkFinished => "work_finished"
  }

  function StateText(s: WorkState): string {
    match s
    case Unset => ""
    case Planned => "planned"
    case Running => "running"
    case Succeeded => "succeeded"
    case Failed => "failed"
    case BudgetExhausted => "budget_exhausted"
    case Cancelled => "cancelled"
  }

  /** Stands for `canonicalJson` of an envelope: the empty text for none, an injective text otherwise. */
  function CheckpointText(c: Option<Envelope>): string {
    match c
    case None => ""
    case Some(e) => "{" + Frame([e.strategy, Decimal(e.version), e.state])
  }

  /** `event_id`: what makes the fact unique. */
  function OwnerOf(scope: Scope, e: Event): Digest {
    DigestOf([scope.targetId, scope.namespaceId, Decimal(e.seqNo), KindText(e.kind), e.workId, e.batchId,
              Decimal(e.attemptNo)])
  }

  /** `payload_hash`: every authoritative field a retry of the fact must reproduce. */
  function PayloadOf(scope: Scope, e: Event): Digest {
    DigestOf([OwnerOf(scope, e).text, Decimal(e.expected), Decimal(e.version), CheckpointText(e.checkpoint),
              StateText(e.workState), e.sinkEvidence, e.errorClass, e.runId, e.retryAt, e.detail])
  }

  lemma CheckpointTextInjective(a: Option<Envelope>, b: Option<Envelope>)
    requires CheckpointText(a) == CheckpointText(b)
    ensures a == b
  {
    if a.Some? && b.Some? {
      var p := [a.value.strategy, Decimal(a.value.version), a.value.state];
      var q := [b.value.strategy, Decimal(b.value.version), b.value.state];
      assert Frame(p) == CheckpointText(a)[1..] && Frame(q) == CheckpointText(b)[1..];
      FrameInjective(p, q);
      assert p[0] == q[0] && p[1] == q[1] && p[2] == q[2];
      DecimalInjective(a.value.version, b.value.version);
    }
  }

  lemma OwnerDetermines(scope: Scope, a: Event, b: Event)
    requires OwnerOf(scope, a) == OwnerOf(scope, b)
    ensures a.seqNo == b.seqNo && a.kind == b.kind && a.workId == b.workId && a.batchId == b.batchId
    ensures a.attemptNo == b.attemptNo
  {
    var p := [scope.targetId, scope.namespaceId, Decimal(a.seqNo), KindText(a.kind), a.workId, a.batchId, Decimal(a.attemptNo)];
    var q := [scope.targetId, scope.namespaceId, Decimal(b.seqNo), KindText(b.kind), b.workId, b.batchId, Decimal(b.attemptNo)];
    FrameInjective(p, q);
    assert p[2] == q[2] && p[3] == q[3] && p[4] == q[4] && p[5] == q[5] && p[6] == q[6];
    assert |KindText(a.kind)| == |KindText(b.kind)| && KindText(a.kind)[0] == KindText(b.kind)[0];
    DecimalInjective(a.seqNo, b.seqNo);
    DecimalInjective(a.attemptNo, b.attemptNo);
  }

  lemma StateTextInjective(a: WorkState, b: WorkState)
    requires StateText(a) == StateText(b)
    ensures a == b
  {
    if a != Unset && b != Unset {
      assert |StateText(a)| == |StateText(b)| && StateText(a)[0] == StateText(b)[0];
    }
  }

  /** The two hashes together pin down the whole fact: a retry either repeats it or is detected. */
  lemma PayloadDetermines(scope: Scope, a: Event, b: Event)
    requires PayloadOf(scope, a) == PayloadOf(scope, b)
    ensures a == b
  {
    var p := [OwnerOf(scope, a).text, Decimal(a.expected), Decimal(a.version), CheckpointText(a.checkpoint),
              StateText(a.workState), a.sinkEvidence, a.errorClass, a.runId, a.retryAt, a.detail];
    var q := [OwnerOf(scope, b).text, Decimal(b.expected), Decimal(b.version), CheckpointText(b.checkpoint),
              StateText(b.workState), b.sinkEvidence, b.errorClass, b.runId, b.retryAt, b.detail];
    FrameInjective(p, q);
    assert p[0] == q[0] && p[1] == q[1] && p[2] == q[2] && p[3] == q[3] && p[4] == q[4];
    assert p[5] == q[5] && p[6] == q[6] && p[7] == q[7] && p[8] == q[8] && p[9] == q[9];
    OwnerDetermines(scope, a, b);
    DecimalInjective(a.expected, b.expected);
    DecimalInjective(a.version, b.version);
    CheckpointTextInjective(a.checkpoint, b.checkpoint);
    StateTextInjective(a.workState, b.workState);
  }

  // ----- the stored projection -----

  /** The sequence numbers present. */
  function Seqs(rows: seq<Event>): set<nat> {
    if rows == [] then {} else Seqs(rows[..|rows| - 1]) + {rows[|rows| - 1].seqNo}
  }

  lemma SeqIsPresent(rows: seq<Event>, e: Event)
    requires e in rows
    ensures e.seqNo in Seqs(rows)
  {
    if e != rows[|rows| - 1] {
      assert e in rows[..|rows| - 1];
      SeqIsPresent(rows[..|rows| - 1], e);
    }
  }

  function Max(a: nat, b: nat): nat {
    if a < b then b else a
  }

  /** `max(event_seq)`, 0 on no rows. */
  function HeadSeq(rows: seq<Event>): nat {
    if rows == [] then 0 else Max(HeadSeq(rows[..|rows| - 1]), rows[|rows| - 1].seqNo)
  }

  lemma HeadBounds(rows: seq<Event>, e: Event)
    requires e in rows
    ensures e.seqNo <= HeadSeq(rows)
  {
    var front := rows[..|rows| - 1];
    assert rows == front + [rows[|rows| - 1]];
    if e in front {
      HeadBounds(front, e);
    }
  }

  function SuccessSeq(e: Event): nat {
    if e.kind.WorkFinished? && e.workState.Succeeded? then e.seqNo else 0
  }

  /** `maxIf(event_seq, work_finished and succeeded)`, 0 when there is none. */
  function LastSuccessSeq(rows: seq<Event>): nat {
    if rows == [] then 0 else Max(LastSuccessSeq(rows[..|rows| - 1]), SuccessSeq(rows[|rows| - 1]))
  }

  /** The stored fact of a sequence number; the first physical row stands for SQL's `any`. */
  function FactAt(rows: seq<Event>, n: nat): (e: Event)
    requires n in Seqs(rows)
    ensures e in rows && e.seqNo == n
  {
    var front := rows[..|rows| - 1];
    assert forall e :: e in front ==> e in rows;
    if n in Seqs(front) then FactAt(front, n) else rows[|rows| - 1]
  }

  /** The commits with sequence number at most `n`, by sequence number. */
  function CommitsUpTo(rows: seq<Event>, n: nat): seq<Event> {
    if n == 0 then []
    else
      CommitsUpTo(rows, n - 1)
      + if n in Seqs(rows) && FactAt(rows, n).kind.BatchCommitted? then [FactAt(rows, n)] else []
  }

  lemma CommitsAreStored(rows: seq<Event>, n: nat, e: Event)
    requires e in CommitsUpTo(rows, n)
    ensures e in rows && e.kind.BatchCommitted? && 1 <= e.seqNo <= n
  {
    if e !in CommitsUpTo(rows, n - 1) {
      assert e == FactAt(rows, n);
    }
  }

  function Commits(rows: seq<Event>): seq<Event> {
    CommitsUpTo(rows, HeadSeq(rows))
  }

  function VersionAfter(commits: seq<Event>): nat {
    if commits == [] then 0 else commits[|commits| - 1].version
  }

  function EnvelopeAfter(commits: seq<Event>): Option<Envelope> {
    if commits == [] then None else commits[|commits| - 1].checkpoint
  }

  /** One commit after the state left by the previous ones. */
  predicate Follows(version: nat, envelope: Option<Envelope>, e: Event) {
    && e.expected == version
    && e.expected <= e.version <= e.expected + 1
    && (e.version == e.expected ==> e.checkpoint == envelope)
  }

  /** Every commit, by sequence number, follows the one before it. */
  predicate TransitionsValid(commits: seq<Event>) {
    commits == []
    || (var front := commits[..|commits| - 1];
        && TransitionsValid(front)
        && Follows(VersionAfter(front), EnvelopeAfter(front), commits[|commits| - 1]))
  }

  predicate OwnersAgree(scope: Scope, rows: seq<Event>) {
    forall i, j :: 0 <= i < |rows| && 0 <= j < |rows| && rows[i].seqNo == rows[j].seqNo ==>
      OwnerOf(scope, rows[i]) == OwnerOf(scope, rows[j])
  }

  predicate PayloadsAgree(scope: Scope, rows: seq<Event>) {
    forall i, j :: 0 <= i < |rows| && 0 <= j < |rows| && rows[i].seqNo == rows[j].seqNo ==>
      PayloadOf(scope, rows[i]) == PayloadOf(scope, rows[j])
  }

  datatype Problem = SequenceGap | ConflictingOwners | DriftingPayloads | InvalidTransitions

  datatype Committed = Committed(version: nat, envelope: Option<Envelope>, headSeq: nat, lastSuccessSeq: nat)

  datatype ReadResult = Projected(checkpoint: Committed) | NotAHistory(problems: set<Problem>)

  /** `readCheckpoint` over the physical rows of one namespace. */
  function ReadCheckpoint(scope: Scope, rows: seq<Event>): ReadResult {
    if rows == [] then Projected(Committed(0, None, 0, 0))
    else
      var problems :=
        (if HeadSeq(rows) != |Seqs(rows)| then {SequenceGap} else {})
        + (if !OwnersAgree(scope, rows) then {ConflictingOwners} else {})
        + (if !PayloadsAgree(scope, rows) then {DriftingPayloads} else {})
        + (if !TransitionsValid(Commits(rows)) then {InvalidTransitions} else {});
      if problems != {} then NotAHistory(problems) else Projected(Projection(rows))
  }

  function Projection(rows: seq<Event>): Committed {
    Committed(VersionAfter(Commits(rows)), EnvelopeAfter(Commits(rows)), HeadSeq(rows), LastSuccessSeq(rows))
  }

  // ----- what the validator accepts -----

  /** One fact per sequence number, physical duplicates allowed. */
  predicate OneFactPerSeq(rows: seq<Event>) {
    rows == []
    || (var front, last := rows[..|rows| - 1], rows[|rows| - 1];
        OneFactPerSeq(front) && (last.seqNo in Seqs(front) ==> last in front))
  }

  lemma {:induction false} OneFactAt(rows: seq<Event>, a: Event, b: Event)
    requires OneFactPerSeq(rows) && a in rows && b in rows && a.seqNo == b.seqNo
    ensures a == b
  {
    var front, last := rows[..|rows| - 1], rows[|rows| - 1];
    assert rows == front + [last];
    if a in front {
      SeqIsPresent(front, a);
    }
    if b in front {
      SeqIsPresent(front, b);
    }
    if a in front || b in front {
      OneFactAt(front, a, b);
    }
  }

  lemma {:induction false} PairwiseIsOneFact(rows: seq<Event>)
    requires forall a, b :: a in rows && b in rows && a.seqNo == b.seqNo ==> a == b
    ensures OneFactPerSeq(rows)
  {
    if rows != [] {
      var front, last := rows[..|rows| - 1], rows[|rows| - 1];
      PairwiseIsOneFact(front);
      if last.seqNo in Seqs(front) {
        assert FactAt(front, last.seqNo) in rows;
      }
    }
  }

  /** A well-formed history: the facts 1..head, each once up to duplicates, and a chain of commits. */
  ghost predicate Healthy(rows: seq<Event>) {
    && OneFactPerSeq(rows)
    && Gapless(rows)
    && TransitionsValid(Commits(rows))
  }

  ghost predicate Gapless(rows: seq<Event>) {
    Seqs(rows) == UpTo(HeadSeq(rows))
  }

  lemma AgreementIsOneFact(scope: Scope, rows: seq<Event>)
    ensures OneFactPerSeq(rows) <==> OwnersAgree(scope, rows) && PayloadsAgree(scope, rows)
  {
    if PayloadsAgree(scope, rows) {
      forall a, b | a in rows && b in rows && a.seqNo == b.seqNo
        ensures a == b
      {
        PayloadDetermines(scope, a, b);
      }
      PairwiseIsOneFact(rows);
    }
    if OneFactPerSeq(rows) {
      forall i, j | 0 <= i < |rows| && 0 <= j < |rows| && rows[i].seqNo == rows[j].seqNo
        ensures rows[i] == rows[j]
      {
        OneFactAt(rows, rows[i], rows[j]);
      }
    }
  }

  function UpTo(n: nat): (s: set<nat>)
    ensures forall k :: k in s <==> 1 <= k <= n
    ensures |s| == n
  {
    if n == 0 then {} else UpTo(n - 1) + {n}
  }

  lemma SubsetOfSameSize(s: set<nat>, t: set<nat>)
    requires s <= t && |s| == |t|
    ensures s == t
  {
    if s != t {
      var x :| x in t && x !in s;
      SubsetSize(s, t - {x});
    }
  }

  lemma SubsetSize(s: set<nat>, t: set<nat>)
    requires s <= t
    ensures |s| <= |t|
  {
    if s != {} {
      var x :| x in s;
      SubsetSize(s - {x}, t - {x});
    }
  }

  lemma CountIsGapless(rows: seq<Event>)
    requires forall e :: e in rows ==> e.seqNo >= 1
    ensures HeadSeq(rows) == |Seqs(rows)| <==> Gapless(rows)
  {
    forall n | n in Seqs(rows) ensures n in UpTo(HeadSeq(rows)) {
      HeadBounds(rows, FactAt(rows, n));
    }
    if |Seqs(rows)| == HeadSeq(rows) {
      SubsetOfSameSize(Seqs(rows), UpTo(HeadSeq(rows)));
    }
  }

  /** On sequence numbers from 1 on, the validator accepts exactly the well-formed histories. */
  lemma ValidatorAcceptsExactlyHistories(scope: Scope, rows: seq<Event>)
    requires forall e :: e in rows ==> e.seqNo >= 1
    ensures ReadCheckpoint(scope, rows).Projected? <==> Healthy(rows)
    ensures ReadCheckpoint(scope, rows).Projected? ==> ReadCheckpoint(scope, rows).checkpoint == Projection(rows)
  {
    AgreementIsOneFact(scope, rows);
    CountIsGapless(rows);
  }

  /** The count alone does not see a hole that a fact numbered 0 fills: the executor must start at 1. */
  lemma ZeroFillsAHole(scope: Scope, a: Event, b: Event)
    requires a.seqNo == 0 && b.seqNo == 2 && !a.kind.BatchCommitted? && !b.kind.BatchCommitted?
    ensures ReadCheckpoint(scope, [a, b]).Projected? && 1 !in Seqs([a, b])
  {
    var rows := [a, b];
    TwoFacts(a, b);
    PairwiseIsOneFact(rows);
    AgreementIsOneFact(scope, rows);
    assert rows[1..] == [b];
    assert 1 !in Seqs(rows) && FactAt(rows, 2) == b;
    assert CommitsUpTo(rows, 1) == [] && CommitsUpTo(rows, 2) == [];
  }

  lemma TwoFacts(a: Event, b: Event)
    requires a.seqNo < b.seqNo
    ensures HeadSeq([a, b]) == b.seqNo && Seqs([a, b]) == {a.seqNo, b.seqNo}
  {
    OneFact(a);
    assert [a] + [b] == [a, b];
    SeqsAppend([a], b);
  }

  lemma OneFact(a: Event)
    ensures HeadSeq([a]) == a.seqNo && Seqs([a]) == {a.seqNo}
  {
    assert [a][..0] == [];
    assert a in [a];
  }

  // ----- growing a history -----

  /** The next fact the executor may write on a history. */
  predicate IsNextFact(rows: seq<Event>, e: Event) {
    && e.seqNo == HeadSeq(rows) + 1
    && (e.kind.BatchCommitted? ==> Follows(Projection(rows).version, Projection(rows).envelope, e))
  }

  lemma CommitsUpToAppend(rows: seq<Event>, e: Event, n: nat)
    requires e in rows || n < e.seqNo
    ensures CommitsUpTo(rows + [e], n) == CommitsUpTo(rows, n)
  {
    if n > 0 {
      CommitsUpToAppend(rows, e, n - 1);
      assert (rows + [e])[..|rows|] == rows;
      if e in rows {
        SeqIsPresent(rows, e);
      }
    }
  }

  lemma SeqsAppend(rows: seq<Event>, e: Event)
    ensures Seqs(rows + [e]) == Seqs(rows) + {e.seqNo}
    ensures HeadSeq(rows + [e]) == Max(HeadSeq(rows), e.seqNo)
    ensures LastSuccessSeq(rows + [e]) == Max(LastSuccessSeq(rows), SuccessSeq(e))
  {
    var all := rows + [e];
    assert all[..|all| - 1] == rows && all[|all| - 1] == e;
  }

  lemma SuccessIsRecorded(rows: seq<Event>, e: Event)
    requires e in rows
    ensures SuccessSeq(e) <= LastSuccessSeq(rows)
  {
    if rows[|rows| - 1] != e {
      var i :| 0 <= i < |rows| && rows[i] == e;
      assert rows[..|rows| - 1][i] == e;
      SuccessIsRecorded(rows[..|rows| - 1], e);
    }
  }

  /** A late or repeated physical copy of a stored fact changes nothing. */
  lemma DuplicateKeepsHistory(rows: seq<Event>, e: Event)
    requires Healthy(rows) && e in rows
    ensures Healthy(rows + [e]) && Projection(rows + [e]) == Projection(rows)
  {
    SeqsAppend(rows, e);
    HeadBounds(rows, e);
    SeqIsPresent(rows, e);
    CommitsUpToAppend(rows, e, HeadSeq(rows));
    SuccessIsRecorded(rows, e);
    assert (rows + [e])[..|rows|] == rows;
    assert Seqs(rows + [e]) == Seqs(rows);
  }

  /** The next fact extends a history to a history, and moves the projection as its fields say. */
  lemma NextFactKeepsHistory(rows: seq<Event>, e: Event)
    requires Healthy(rows) && IsNextFact(rows, e)
    ensures Healthy(rows + [e])
    ensures Projection(rows + [e]).headSeq == e.seqNo
    ensures Projection(rows + [e]).lastSuccessSeq == Max(Projection(rows).lastSuccessSeq, SuccessSeq(e))
    ensures e.kind.BatchCommitted? ==>
      Projection(rows + [e]).version == e.version && Projection(rows + [e]).envelope == e.checkpoint
    ensures !e.kind.BatchCommitted? ==>
      Projection(rows + [e]).version == Projection(rows).version
      && Projection(rows + [e]).envelope == Projection(rows).envelope
  {
    SeqsAppend(rows, e);
    assert (rows + [e])[..|rows|] == rows;
    NextFactIsLast(rows, e);
    if e.kind.BatchCommitted? {
      TransitionsAppend(Commits(rows), e);
    }
  }

  lemma TransitionsAppend(cs: seq<Event>, e: Event)
    requires TransitionsValid(cs) && Follows(VersionAfter(cs), EnvelopeAfter(cs), e)
    ensures TransitionsValid(cs + [e])
    ensures VersionAfter(cs + [e]) == e.version && EnvelopeAfter(cs + [e]) == e.checkpoint
  {
    assert (cs + [e])[..|cs|] == cs;
  }

  lemma NextFactIsLast(rows: seq<Event>, e: Event)
    requires e.seqNo == HeadSeq(rows) + 1 && e.seqNo !in Seqs(rows)
    ensures Commits(rows + [e]) == if e.kind.BatchCommitted? then Commits(rows) + [e] else Commits(rows)
  {
    var h, all := HeadSeq(rows), rows + [e];
    assert HeadSeq(all) == h + 1 && h + 1 in Seqs(all) && FactAt(all, h + 1) == e by {
      SeqsAppend(rows, e);
      assert all[..|rows|] == rows;
    }
    assert CommitsUpTo(all, h) == Commits(rows) by {
      CommitsUpToAppend(rows, e, h);
    }
    assert Commits(rows) + [] == Commits(rows);
  }

  // ----- what a checkpoint is -----

  predicate IsSuccess(e: Event) {
    e.kind == WorkFinished && e.workState == Succeeded
  }

  /** The last success is the highest sequence number of a stored success, and 0 while there is none. */
  lemma {:induction false} LastSuccessIs(rows: seq<Event>)
    ensures forall e :: e in rows && IsSuccess(e) ==> e.seqNo <= LastSuccessSeq(rows)
    ensures LastSuccessSeq(rows) > 0 ==> exists e :: e in rows && IsSuccess(e) && e.seqNo == LastSuccessSeq(rows)
  {
    if rows != [] {
      var front, last := rows[..|rows| - 1], rows[|rows| - 1];
      assert rows == front + [last];
      LastSuccessIs(front);
      if LastSuccessSeq(rows) > 0 {
        if SuccessSeq(last) >= LastSuccessSeq(front) {
          assert last in rows && IsSuccess(last) && last.seqNo == LastSuccessSeq(rows);
        } else {
          var e :| e in front && IsSuccess(e) && e.seqNo == LastSuccessSeq(front);
          assert e in rows;
        }
      }
    }
  }

  /** This commit is stored, and no stored commit has a higher sequence number. */
  predicate IsLastCommit(rows: seq<Event>, e: Event) {
    e in rows && e.kind == BatchCommitted && forall f :: f in rows && f.kind == BatchCommitted ==> f.seqNo <= e.seqNo
  }

  /** The checkpoint is that of the last commit by sequence number, and empty while nothing is committed. */
  lemma CheckpointIsTheLastCommit(rows: seq<Event>)
    requires OneFactPerSeq(rows) && forall e :: e in rows ==> e.seqNo >= 1
    ensures forall e :: IsLastCommit(rows, e) ==> Projection(rows).version == e.version && Projection(rows).envelope == e.checkpoint
    ensures (forall e :: e in rows ==> e.kind != BatchCommitted) ==> Projection(rows).version == 0 && Projection(rows).envelope == None
  {
    var cs := Commits(rows);
    hide OneFactPerSeq, CommitsUpTo, HeadSeq, FactAt;
    CommitsAreOrdered(rows, HeadSeq(rows));
    forall e | IsLastCommit(rows, e) ensures cs != [] && cs[|cs| - 1] == e {
      HeadBounds(rows, e);
      CommitIsListed(rows, e, HeadSeq(rows));
      CommitsAreStored(rows, HeadSeq(rows), cs[|cs| - 1]);
      OneFactAt(rows, if cs[|cs| - 1].seqNo == e.seqNo then cs[|cs| - 1] else e, e);
    }
    if cs != [] {
      CommitsAreStored(rows, HeadSeq(rows), cs[|cs| - 1]);
    }
  }

  // ----- the in-memory projection -----

  predicate Beats(a: Event, b: Event) {
    a.version > b.version || (a.version == b.version && a.seqNo >= b.seqNo)
  }

  /** Last of the commits in a stable sort by (version, sequence number). */
  function BestCommit(events: seq<Event>): (best: Option<Event>)
    ensures best.Some? ==> best.value in events && best.value.kind.BatchCommitted?
    ensures forall e :: e in events && e.kind.BatchCommitted? ==> best.Some? && Beats(best.value, e)
  {
    if events == [] then None
    else
      var front, last := events[..|events| - 1], events[|events| - 1];
      var best := BestCommit(front);
      assert events == front + [last];
      if last.kind.BatchCommitted? && (best.None? || Beats(last, best.value)) then Some(last) else best
  }

  /** `readCheckpoint` of the in-memory journal: no validation, ordered by version first. */
  function MemoryProjection(events: seq<Event>): Committed {
    var best := BestCommit(events);
    Committed(
      if best.Some? then best.value.version else 0,
      if best.Some? then best.value.checkpoint else None,
      HeadSeq(events), LastSuccessSeq(events))
  }

  lemma {:induction false} VersionsNeverDecrease(cs: seq<Event>, i: nat, j: nat)
    requires TransitionsValid(cs) && i <= j < |cs|
    ensures cs[i].version <= cs[j].version
  {
    var front := cs[..|cs| - 1];
    if j < |cs| - 1 {
      VersionsNeverDecrease(front, i, j);
    } else if i < j {
      VersionsNeverDecrease(front, i, j - 1);
    }
  }

  lemma {:induction false} CommitsAreOrdered(rows: seq<Event>, n: nat)
    ensures forall i, j :: 0 <= i < j < |CommitsUpTo(rows, n)| ==> CommitsUpTo(rows, n)[i].seqNo < CommitsUpTo(rows, n)[j].seqNo
  {
    if n > 0 {
      CommitsAreOrdered(rows, n - 1);
      forall e | e in CommitsUpTo(rows, n - 1) ensures e.seqNo < n {
        CommitsAreStored(rows, n - 1, e);
      }
    }
  }

  lemma {:induction false} CommitIsListed(rows: seq<Event>, e: Event, n: nat)
    requires OneFactPerSeq(rows) && e in rows && e.kind.BatchCommitted? && 1 <= e.seqNo <= n
    ensures e in CommitsUpTo(rows, n)
  {
    if e.seqNo == n {
      SeqIsPresent(rows, e);
      OneFactAt(rows, FactAt(rows, n), e);
    } else {
      CommitIsListed(rows, e, n - 1);
    }
  }

  lemma BestIsListed(rows: seq<Event>)
    requires OneFactPerSeq(rows) && Gapless(rows) && BestCommit(rows).Some?
    ensures BestCommit(rows).value in Commits(rows)
  {
    var best := BestCommit(rows).value;
    SeqIsPresent(rows, best);
    CommitIsListed(rows, best, HeadSeq(rows));
  }

  lemma OnlyTheLastBeatsIt(rows: seq<Event>, e: Event)
    requires TransitionsValid(Commits(rows)) && e in Commits(rows)
    requires Beats(e, Commits(rows)[|Commits(rows)| - 1])
    ensures e == Commits(rows)[|Commits(rows)| - 1]
  {
    var cs := Commits(rows);
    var i :| 0 <= i < |cs| && cs[i] == e;
    VersionsNeverDecrease(cs, i, |cs| - 1);
    CommitsAreOrdered(rows, HeadSeq(rows));
  }

  /** On every history the validator accepts, duplicates included, the two projections agree. */
  lemma ProjectionsAgree(scope: Scope, rows: seq<Event>)
    requires forall e :: e in rows ==> e.seqNo >= 1
    ensures var read := ReadCheckpoint(scope, rows); read.Projected? ==> MemoryProjection(rows) == read.checkpoint
  {
    ValidatorAcceptsExactlyHistories(scope, rows);
    hide ReadCheckpoint;
    if Healthy(rows) {
      HealthyProjectionsAgree(rows);
    }
  }

  lemma HealthyProjectionsAgree(rows: seq<Event>)
    requires Healthy(rows)
    ensures MemoryProjection(rows) == Projection(rows)
  {
    var cs, best := Commits(rows), BestCommit(rows);
    if best.Some? {
      BestIsListed(rows);
    }
    if cs != [] {
      CommitsAreStored(rows, HeadSeq(rows), cs[|cs| - 1]);
      OnlyTheLastBeatsIt(rows, best.value);
    }
  }

  /** Without the validator they differ: the in-memory one then hides a second writer. */
  lemma ProjectionsDifferOnADamagedHistory(a: Event, b: Event)
    requires a.kind.BatchCommitted? && b.kind.BatchCommitted? && a.seqNo == 1 && b.seqNo == 2
    requires a.expected == 0 && a.version == 1 && b.expected == 0 && b.version == 0
    ensures Projection([a, b]).version == 0 && MemoryProjection([a, b]).version == 1
    ensures forall scope :: ReadCheckpoint(scope, [a, b]).NotAHistory?
  {
    var rows := [a, b];
    TwoFacts(a, b);
    assert rows[..1] == [a];
    assert FactAt(rows, 1) == a && rows[1..] == [b] && b in [b] && FactAt([b], 2) == b && FactAt(rows, 2) == b;
    assert CommitsUpTo(rows, 1) == [a] && CommitsUpTo(rows, 2) == [a, b];
    assert !Follows(VersionAfter([a]), EnvelopeAfter([a]), b);
    assert BestCommit([a]) == Some(a) && !Beats(b, a);
  }
}
