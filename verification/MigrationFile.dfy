/**
 The migration-file writer, and the proof that statement extraction undoes it.
 */
module MigrationFile {
  import opened SqlText
  import opened Digest

  // ----- the writer -----

  datatype Operation = Operation(kind: string, key: string, risk: string, sql: string)

  datatype Suggestion = Suggestion(kind: string, database: string, table: string, from: string, to: string, confidence: string)

  datatype Risks = Risks(safe: nat, caution: nat, danger: nat)

  function Join(lines: seq<string>, separator: string): string {
    if lines == [] then ""
    else if |lines| == 1 then lines[0]
    else lines[0] + separator + Join(lines[1..], separator)
  }

  function MigrationHeader(generatedAt: string, cliVersion: string, definitions: nat, operations: nat, suggestions: nat, risks: Risks): seq<string> {
    ["-- chkit-migration-format: v1",
     "-- generated-at: " + generatedAt,
     "-- cli-version: " + cliVersion,
     "-- definition-count: " + Decimal(definitions),
     "-- operation-count: " + Decimal(operations),
     "-- rename-suggestion-count: " + Decimal(suggestions),
     "-- risk-summary: safe=" + Decimal(risks.safe) + ", caution=" + Decimal(risks.caution) + ", danger=" + Decimal(risks.danger)]
  }

  function HintLine(s: Suggestion): string {
    "-- rename-suggestion: kind=" + s.kind + " table=" + s.database + "." + s.table + " from=" + s.from + " to=" + s.to
    + " confidence=" + s.confidence
  }

  function HintLines(suggestions: seq<Suggestion>): seq<string> {
    if suggestions == [] then [] else [HintLine(suggestions[0])] + HintLines(suggestions[1..])
  }

  function CommentOf(op: Operation): string {
    "-- operation: " + op.kind + " key=" + op.key + " risk=" + op.risk
  }

  function OperationTexts(ops: seq<Operation>): seq<string> {
    if ops == [] then [] else [Join([CommentOf(ops[0]), ops[0].sql], "\n")] + OperationTexts(ops[1..])
  }

  /** `buildMigrationContent` from its comment lines and operations. */
  function MigrationContent(lines: seq<string>, ops: seq<Operation>): string {
    var body := Join(OperationTexts(ops), "\n\n");
    if body == "" then Join(lines, "\n") + "\n" else Join(lines, "\n") + "\n\n" + body + "\n"
  }

  // ----- what the lexer makes of a comment line -----

  predicate IsComment(line: string) {
    |line| >= 2 && line[0] == '-' && line[1] == '-' && '\n' !in line
  }

  lemma FusedTop(s: string, p: char, q: char, current: string)
    ensures Fused(s, Top, p, current) == Fused(s, Top, q, current)
  {
  }

  lemma {:induction false} CommentRuns(l: string, rest: string, prev: char, current: string)
    requires '\n' !in l
    ensures Fused(l + "\n" + rest, Line, prev, current) == Fused(rest, Top, '\n', current + "\n")
    decreases |l|
  {
    var s := l + "\n" + rest;
    if l == "" {
      assert s[0] == '\n' && s[1..] == rest && s[..1] == "\n";
      FusedStep(s, Line, prev, current);
    } else {
      assert s[0] == l[0] && s[1..] == l[1..] + "\n" + rest;
      FusedStep(s, Line, prev, current);
      assert current + "" == current;
      CommentRuns(l[1..], rest, s[0], current);
    }
  }

  /** A comment line leaves its newline and nothing else. */
  lemma CommentLine(line: string, rest: string, prev: char, current: string)
    requires IsComment(line)
    ensures Fused(line + "\n" + rest, Top, prev, current) == Fused(rest, Top, '\n', current + "\n")
  {
    var s := line + "\n" + rest;
    assert s[0] == line[0] && s[1] == line[1];
    assert NextStep(true, s, Top, prev) == Step(2, Line);
    FusedStep(s, Top, prev, current);
    assert s[2..] == line[2..] + "\n" + rest;
    assert current + "" == current;
    hide Fused;
    CommentRuns(line[2..], rest, s[1], current);
  }

  lemma NewlineStays(rest: string, prev: char, current: string)
    ensures Fused("\n" + rest, Top, prev, current) == Fused(rest, Top, '\n', current + "\n")
  {
    var s := "\n" + rest;
    assert s[0] == '\n' && s[1..] == rest && s[..1] == "\n";
    FusedStep(s, Top, prev, current);
  }

  // ----- what it makes of a statement -----

  /** Lexed from this state, the text ends at top level and shows no top-level semicolon or line comment. */
  predicate Quiet(s: string, mode: Mode, prev: char)
    decreases |s|
  {
    if s == "" then mode.Top?
    else if mode.Line? || (mode.Top? && s[0] == ';') || Drops(s, mode) then false
    else
      var step := NextStep(true, s, mode, prev);
      Quiet(s[step.taken..], step.mode, s[step.taken - 1])
  }

  /** A semicolon behind the text does not change how the text is lexed. */
  lemma TerminatorIsNoNeighbour(s: string, tail: string, mode: Mode, prev: char)
    requires s != "" && !mode.Line?
    ensures NextStep(true, s + ";" + tail, mode, prev) == NextStep(true, s, mode, prev)
  {
    var t := s + ";" + tail;
    assert t[0] == s[0];
    if |s| > 1 {
      assert t[1] == s[1];
    } else {
      assert t[1] == ';';
    }
  }

  lemma {:induction false} QuietRuns(s: string, tail: string, mode: Mode, prev: char, current: string)
    requires Quiet(s, mode, prev)
    ensures Fused(s + ";" + tail, mode, prev, current) == Emit(current + s) + Fused(tail, Top, ';', "")
    decreases |s|
  {
    var t := s + ";" + tail;
    if s == "" {
      assert t[0] == ';' && t[1..] == tail && current + s == current;
    } else {
      TerminatorIsNoNeighbour(s, tail, mode, prev);
      DropsAreLines(s, mode, prev);
      var step := NextStep(true, s, mode, prev);
      assert t[0] == s[0];
      FusedStep(t, mode, prev, current);
      hide Fused, NextStep, Emit;
      assert t[step.taken..] == s[step.taken..] + ";" + tail && t[..step.taken] == s[..step.taken] && t[step.taken - 1] == s[step.taken - 1];
      QuietRuns(s[step.taken..], tail, step.mode, s[step.taken - 1], current + s[..step.taken]);
      assert (current + s[..step.taken]) + s[step.taken..] == current + s;
    }
  }

  // ----- trimming -----

  lemma {:induction false} LeadIsTrimmed(lead: string, s: string)
    requires Blank(lead)
    ensures Trim(lead + s) == Trim(s)
  {
    if lead == "" {
      assert lead + s == s;
    } else {
      assert (lead + s)[0] == lead[0] && (lead + s)[1..] == lead[1..] + s;
      LeadIsTrimmed(lead[1..], s);
    }
  }

  lemma BlankIsNothing(s: string)
    requires Blank(s)
    ensures Emit(s) == []
  {
    LeadIsTrimmed(s, "");
    assert s + "" == s;
  }

  // ----- the whole file -----

  /** The statement without its last character. */
  function BodyOf(op: Operation): string {
    if op.sql == "" then "" else op.sql[..|op.sql| - 1]
  }

  /** The statement without its terminator is lexically closed, with no top-level semicolon or comment. */
  predicate Closed(op: Operation) {
    |op.sql| > 0 && op.sql[|op.sql| - 1] == ';' && Quiet(BodyOf(op), Top, ' ')
  }

  /** What extraction makes of the operations: each trimmed, empty ones gone. */
  function Recovered(ops: seq<Operation>): seq<string> {
    if ops == [] then [] else Emit(BodyOf(ops[0])) + Recovered(ops[1..])
  }

  function Statements(ops: seq<Operation>): seq<string> {
    if ops == [] then [] else [ops[0].sql] + Statements(ops[1..])
  }

  lemma OneOperation(op: Operation, tail: string, prev: char, current: string)
    requires Closed(op) && IsComment(CommentOf(op)) && Blank(current)
    ensures Fused(CommentOf(op) + "\n" + op.sql + tail, Top, prev, current)
      == Emit(BodyOf(op)) + Fused(tail, Top, ';', "")
  {
    var stmt, comment := BodyOf(op), CommentOf(op);
    assert op.sql == stmt + ";";
    assert comment + "\n" + op.sql + tail == comment + "\n" + (stmt + ";" + tail);
    hide Fused, Quiet, Trim, CommentOf;
    CommentLine(comment, stmt + ";" + tail, prev, current);
    FusedTop(stmt + ";" + tail, '\n', ' ', current + "\n");
    QuietRuns(stmt, tail, Top, ' ', current + "\n");
    assert Blank(current + "\n");
    LeadIsTrimmed(current + "\n", stmt);
  }

  predicate WellWritten(ops: seq<Operation>) {
    forall i :: 0 <= i < |ops| ==> Closed(ops[i]) && IsComment(CommentOf(ops[i]))
  }

  function BodyText(ops: seq<Operation>): string {
    Join(OperationTexts(ops), "\n\n")
  }

  lemma BodyTextStep(ops: seq<Operation>)
    requires |ops| > 0
    ensures var first := CommentOf(ops[0]) + "\n" + ops[0].sql;
      BodyText(ops) == if |ops| == 1 then first else first + "\n\n" + BodyText(ops[1..])
  {
    hide CommentOf;
    assert Join([CommentOf(ops[0]), ops[0].sql], "\n") == CommentOf(ops[0]) + "\n" + ops[0].sql by {
      assert [CommentOf(ops[0]), ops[0].sql][1..] == [ops[0].sql];
    }
    var texts := OperationTexts(ops);
    assert texts[1..] == OperationTexts(ops[1..]);
  }

  lemma TwoNewlines(rest: string, prev: char)
    ensures Fused("\n\n" + rest, Top, prev, "") == Fused(rest, Top, '\n', "\n\n")
  {
    hide Fused;
    assert "\n\n" + rest == "\n" + ("\n" + rest);
    assert "" + "\n" == "\n" && "\n" + "\n" == "\n\n";
    NewlineStays("\n" + rest, prev, "");
    NewlineStays(rest, '\n', "\n");
  }

  lemma {:induction false} BodyIsRecovered(ops: seq<Operation>, prev: char, current: string)
    requires |ops| > 0 && WellWritten(ops) && Blank(current)
    ensures Fused(BodyText(ops) + "\n", Top, prev, current) == Recovered(ops)
    decreases |ops|
  {
    hide Fused, Closed, IsComment, CommentOf, Emit;
    var op, first := ops[0], CommentOf(ops[0]) + "\n" + ops[0].sql;
    BodyTextStep(ops);
    if |ops| == 1 {
      OneOperation(op, "\n", prev, current);
      NewlineStays("", ';', "");
      assert "\n" + "" == "\n";
      EndOfFile();
      assert ops[1..] == [];
    } else {
      var rest := BodyText(ops[1..]) + "\n";
      assert BodyText(ops) + "\n" == first + ("\n\n" + rest);
      OneOperation(op, "\n\n" + rest, prev, current);
      TwoNewlines(rest, ';');
      assert WellWritten(ops[1..]);
      assert Blank("\n\n");
      BodyIsRecovered(ops[1..], '\n', "\n\n");
    }
  }

  lemma EndOfFile()
    ensures Fused("", Top, '\n', "" + "\n") == []
  {
    assert "" + "\n" == "\n";
    assert Blank("\n");
    BlankIsNothing("\n");
  }

  // ----- the header -----

  /** Every line with its newline. */
  function Unlines(lines: seq<string>): string {
    if lines == [] then "" else lines[0] + "\n" + Unlines(lines[1..])
  }

  lemma {:induction false} JoinIsUnlines(lines: seq<string>)
    requires lines != []
    ensures Join(lines, "\n") + "\n" == Unlines(lines)
  {
    if |lines| == 1 {
      assert lines[1..] == [];
      assert Unlines([]) == "";
      assert lines[0] + "\n" + "" == lines[0] + "\n";
    } else {
      JoinIsUnlines(lines[1..]);
      assert (lines[0] + "\n" + Join(lines[1..], "\n")) + "\n" == lines[0] + "\n" + (Join(lines[1..], "\n") + "\n");
    }
  }

  function Newlines(n: nat): (s: string)
    ensures |s| == n && Blank(s)
  {
    if n == 0 then "" else Newlines(n - 1) + "\n"
  }

  lemma {:induction false} HeaderIsBlank(lines: seq<string>, rest: string, prev: char, n: nat)
    requires forall i :: 0 <= i < |lines| ==> IsComment(lines[i])
    ensures Fused(Unlines(lines) + rest, Top, prev, Newlines(n)) == Fused(rest, Top, '\n', Newlines(n + |lines|))
    decreases |lines|
  {
    hide Fused, IsComment;
    if lines == [] {
      assert Unlines(lines) + rest == rest;
      FusedTop(rest, prev, '\n', Newlines(n));
    } else {
      var tail := Unlines(lines[1..]) + rest;
      assert Unlines(lines) + rest == lines[0] + "\n" + tail;
      CommentLine(lines[0], tail, prev, Newlines(n));
      HeaderIsBlank(lines[1..], rest, '\n', n + 1);
    }
  }

  lemma BodyIsNotEmpty(ops: seq<Operation>)
    ensures BodyText(ops) == "" <==> ops == []
  {
    if ops != [] {
      BodyTextStep(ops);
      assert |CommentOf(ops[0])| > 0;
    }
  }

  lemma ContentIs(lines: seq<string>, ops: seq<Operation>)
    requires lines != []
    ensures MigrationContent(lines, ops) == Unlines(lines) + if ops == [] then "" else "\n" + (BodyText(ops) + "\n")
  {
    BodyIsNotEmpty(ops);
    JoinIsUnlines(lines);
    hide Join, Unlines, OperationTexts;
    var head, body := Join(lines, "\n"), Join(OperationTexts(ops), "\n\n");
    if ops == [] {
      assert Unlines(lines) + "" == Unlines(lines);
    } else {
      assert head + "\n\n" + body + "\n" == (head + "\n") + ("\n" + (body + "\n"));
    }
  }

  /** Extraction gives back every operation's statement, trimmed, in order. */
  lemma ExtractionRecovers(lines: seq<string>, ops: seq<Operation>)
    requires lines != [] && (forall i :: 0 <= i < |lines| ==> IsComment(lines[i])) && WellWritten(ops)
    ensures ExtractStatements(MigrationContent(lines, ops)) == Recovered(ops)
  {
    hide ExtractStatements, Fused, IsComment, WellWritten, MigrationContent, Unlines, BodyText;
    ExtractIsOnePass(MigrationContent(lines, ops));
    ContentIs(lines, ops);
    assert Newlines(0) == "";
    if ops == [] {
      HeaderIsBlank(lines, "", ' ', 0);
      BlankIsNothing(Newlines(|lines|));
      EndIsEmitted(Newlines(|lines|));
    } else {
      var rest := BodyText(ops) + "\n";
      HeaderIsBlank(lines, "\n" + rest, ' ', 0);
      NewlineStays(rest, '\n', Newlines(|lines|));
      BodyIsRecovered(ops, '\n', Newlines(|lines|) + "\n");
    }
  }

  lemma EndIsEmitted(current: string)
    ensures Fused("", Top, '\n', current) == Emit(current)
  {
  }

  // ----- exactly when the statements come back unchanged -----

  /** Nothing but the terminator behind a trimmed, non-empty statement. */
  predicate Trimmed(op: Operation) {
    BodyOf(op) != "" && Trim(BodyOf(op)) == BodyOf(op)
  }

  lemma EmitGivesBack(op: Operation)
    requires Closed(op)
    ensures |Emit(BodyOf(op))| <= 1
    ensures Emit(BodyOf(op)) == [op.sql] <==> Trimmed(op)
  {
    assert op.sql == BodyOf(op) + ";";
    if Emit(BodyOf(op)) == [op.sql] {
      assert Trim(BodyOf(op)) + ";" == BodyOf(op) + ";";
      assert Trim(BodyOf(op)) == (Trim(BodyOf(op)) + ";")[..|BodyOf(op)|];
    }
  }

  lemma {:induction false} RecoveredIsShort(ops: seq<Operation>)
    ensures |Recovered(ops)| <= |ops| && |Statements(ops)| == |ops|
  {
    if ops != [] {
      RecoveredIsShort(ops[1..]);
    }
  }

  lemma {:induction false} RecoveredExactly(ops: seq<Operation>)
    requires WellWritten(ops)
    ensures Recovered(ops) == Statements(ops) <==> forall i :: 0 <= i < |ops| ==> Trimmed(ops[i])
  {
    hide Trimmed, Closed, IsComment, Emit;
    if ops != [] {
      var e, rest := Emit(BodyOf(ops[0])), ops[1..];
      EmitGivesBack(ops[0]);
      RecoveredIsShort(rest);
      assert WellWritten(rest);
      RecoveredExactly(rest);
      assert forall i :: 0 <= i < |rest| ==> rest[i] == ops[i + 1];
      if Recovered(ops) == Statements(ops) {
        assert |e| == 1;
        assert e == Recovered(ops)[..1] && Statements(ops)[..1] == [ops[0].sql];
        assert Recovered(rest) == Recovered(ops)[1..] && Statements(rest) == Statements(ops)[1..];
        forall i | 0 <= i < |ops| ensures Trimmed(ops[i]) {
          if i > 0 {
            assert rest[i - 1] == ops[i];
          }
        }
      }
    }
  }

  /**
   Writing a plan and extracting its statements gives exactly the operations' SQL in order, if and only
   if every statement is trimmed and non-empty before its terminator.
   */
  lemma RoundTrip(lines: seq<string>, ops: seq<Operation>)
    requires lines != [] && (forall i :: 0 <= i < |lines| ==> IsComment(lines[i])) && WellWritten(ops)
    ensures ExtractStatements(MigrationContent(lines, ops)) == Statements(ops) <==> forall i :: 0 <= i < |ops| ==> Trimmed(ops[i])
  {
    ExtractionRecovers(lines, ops);
    RecoveredExactly(ops);
  }

  // ----- the comment lines of a real file -----

  predicate OneLine(s: string) {
    '\n' !in s
  }

  lemma {:induction false} DecimalIsOneLine(n: nat)
    ensures OneLine(Decimal(n))
  {
    if n >= 10 {
      DecimalIsOneLine(n / 10);
    }
  }

  lemma CommentGrows(line: string, s: string)
    requires IsComment(line) && OneLine(s)
    ensures IsComment(line + s)
  {
    assert (line + s)[0] == line[0] && (line + s)[1] == line[1];
  }

  lemma HeaderIsComments(generatedAt: string, cliVersion: string, definitions: nat, operations: nat, suggestions: nat, risks: Risks, i: nat)
    requires OneLine(generatedAt) && OneLine(cliVersion) && i < 7
    ensures |MigrationHeader(generatedAt, cliVersion, definitions, operations, suggestions, risks)| == 7
    ensures IsComment(MigrationHeader(generatedAt, cliVersion, definitions, operations, suggestions, risks)[i])
  {
    DecimalIsOneLine(definitions);
    DecimalIsOneLine(operations);
    DecimalIsOneLine(suggestions);
    DecimalIsOneLine(risks.safe);
    DecimalIsOneLine(risks.caution);
    DecimalIsOneLine(risks.danger);
    FormatLabel();
    OriginLabels();
    CountLabels();
    SuggestionLabel();
    hide Decimal, IsComment, OneLine;
    if i == 1 {
      CommentGrows("-- generated-at: ", generatedAt);
    } else if i == 2 {
      CommentGrows("-- cli-version: ", cliVersion);
    } else if i == 3 {
      CommentGrows("-- definition-count: ", Decimal(definitions));
    } else if i == 4 {
      CommentGrows("-- operation-count: ", Decimal(operations));
    } else if i == 5 {
      CommentGrows("-- rename-suggestion-count: ", Decimal(suggestions));
    } else if i == 6 {
      RiskLine(Decimal(risks.safe), Decimal(risks.caution), Decimal(risks.danger));
    }
  }

  lemma FormatLabel()
    ensures IsComment("-- chkit-migration-format: v1")
  {
  }

  lemma OriginLabels()
    ensures IsComment("-- generated-at: ") && IsComment("-- cli-version: ")
  {
  }

  lemma CountLabels()
    ensures IsComment("-- definition-count: ") && IsComment("-- operation-count: ")
  {
  }

  lemma SuggestionLabel()
    ensures IsComment("-- rename-suggestion-count: ")
  {
  }

  lemma RiskLabels()
    ensures IsComment("-- risk-summary: safe=") && OneLine(", caution=") && OneLine(", danger=")
  {
  }

  lemma RiskLine(safe: string, caution: string, danger: string)
    requires OneLine(safe) && OneLine(caution) && OneLine(danger)
    ensures IsComment("-- risk-summary: safe=" + safe + ", caution=" + caution + ", danger=" + danger)
  {
    RiskLabels();
    hide IsComment, OneLine;
    CommentGrows("-- risk-summary: safe=", safe);
    CommentGrows("-- risk-summary: safe=" + safe, ", caution=");
    CommentGrows("-- risk-summary: safe=" + safe + ", caution=", caution);
    CommentGrows("-- risk-summary: safe=" + safe + ", caution=" + caution, ", danger=");
    CommentGrows("-- risk-summary: safe=" + safe + ", caution=" + caution + ", danger=", danger);
  }

  /** The line is the label with this number behind it. */
  predicate Counts(line: string, head: string, n: nat) {
    head <= line && ValueOf(line[|head|..]) == n
  }

  lemma LabelledCounts(head: string, n: nat)
    ensures Counts(head + Decimal(n), head, n)
  {
    DecimalReads(n);
    assert (head + Decimal(n))[|head|..] == Decimal(n);
  }

  /** The counts of the header are read back from it. */
  lemma HeaderCounts(generatedAt: string, cliVersion: string, definitions: nat, operations: nat, suggestions: nat, risks: Risks)
    ensures var h := MigrationHeader(generatedAt, cliVersion, definitions, operations, suggestions, risks);
      && |h| == 7 && Counts(h[3], "-- definition-count: ", definitions) && Counts(h[4], "-- operation-count: ", operations)
      && Counts(h[5], "-- rename-suggestion-count: ", suggestions)
  {
    LabelledCounts("-- definition-count: ", definitions);
    LabelledCounts("-- operation-count: ", operations);
    LabelledCounts("-- rename-suggestion-count: ", suggestions);
    hide Counts, Decimal;
  }

  predicate PlainSuggestion(s: Suggestion) {
    OneLine(s.kind) && OneLine(s.database) && OneLine(s.table) && OneLine(s.from) && OneLine(s.to) && OneLine(s.confidence)
  }

  predicate PlainOperation(op: Operation) {
    OneLine(op.kind) && OneLine(op.key) && OneLine(op.risk)
  }

  lemma HintLabels()
    ensures IsComment("-- rename-suggestion: kind=") && OneLine(" table=") && OneLine(".") && OneLine(" from=") && OneLine(" to=")
    ensures OneLine(" confidence=")
  {
  }

  lemma HintIsComment(s: Suggestion)
    requires PlainSuggestion(s)
    ensures IsComment(HintLine(s))
  {
    HintLabels();
    hide IsComment, OneLine;
    var l := "-- rename-suggestion: kind=";
    CommentGrows(l, s.kind);
    CommentGrows(l + s.kind, " table=");
    CommentGrows(l + s.kind + " table=", s.database);
    CommentGrows(l + s.kind + " table=" + s.database, ".");
    CommentGrows(l + s.kind + " table=" + s.database + ".", s.table);
    HintTail(l + s.kind + " table=" + s.database + "." + s.table, s);
  }

  lemma HintTail(l: string, s: Suggestion)
    requires PlainSuggestion(s) && IsComment(l)
    ensures IsComment(l + " from=" + s.from + " to=" + s.to + " confidence=" + s.confidence)
  {
    HintLabels();
    hide IsComment, OneLine;
    CommentGrows(l, " from=");
    CommentGrows(l + " from=", s.from);
    CommentGrows(l + " from=" + s.from, " to=");
    CommentGrows(l + " from=" + s.from + " to=", s.to);
    CommentGrows(l + " from=" + s.from + " to=" + s.to, " confidence=");
    CommentGrows(l + " from=" + s.from + " to=" + s.to + " confidence=", s.confidence);
  }

  lemma OperationLabels()
    ensures IsComment("-- operation: ") && OneLine(" key=") && OneLine(" risk=")
  {
  }

  lemma OperationLineIsComment(op: Operation)
    requires PlainOperation(op)
    ensures IsComment(CommentOf(op))
  {
    OperationLabels();
    hide IsComment, OneLine;
    var l := "-- operation: ";
    CommentGrows(l, op.kind);
    CommentGrows(l + op.kind, " key=");
    CommentGrows(l + op.kind + " key=", op.key);
    CommentGrows(l + op.kind + " key=" + op.key, " risk=");
    CommentGrows(l + op.kind + " key=" + op.key + " risk=", op.risk);
  }

  lemma {:induction false} HintsAreComments(suggestions: seq<Suggestion>, i: nat)
    requires (forall s :: s in suggestions ==> PlainSuggestion(s)) && i < |suggestions|
    ensures |HintLines(suggestions)| == |suggestions| && IsComment(HintLines(suggestions)[i])
    decreases |suggestions|
  {
    HintIsComment(suggestions[0]);
    if |suggestions| > 1 {
      HintsAreComments(suggestions[1..], if i > 0 then i - 1 else 0);
    }
  }

  /** The whole file of a plan, whose names and dates hold no line break. */
  lemma FileRoundTrip(generatedAt: string, cliVersion: string, definitions: nat, suggestions: seq<Suggestion>, risks: Risks, ops: seq<Operation>)
    requires OneLine(generatedAt) && OneLine(cliVersion) && forall s :: s in suggestions ==> PlainSuggestion(s)
    requires forall i :: 0 <= i < |ops| ==> PlainOperation(ops[i]) && Closed(ops[i])
    ensures var lines := MigrationHeader(generatedAt, cliVersion, definitions, |ops|, |suggestions|, risks) + HintLines(suggestions);
      ExtractStatements(MigrationContent(lines, ops)) == Statements(ops) <==> forall i :: 0 <= i < |ops| ==> Trimmed(ops[i])
  {
    hide ExtractStatements, MigrationContent, Trimmed, Closed, IsComment, MigrationHeader, PlainSuggestion, CommentOf;
    var header := MigrationHeader(generatedAt, cliVersion, definitions, |ops|, |suggestions|, risks);
    HeaderIsComments(generatedAt, cliVersion, definitions, |ops|, |suggestions|, risks, 0);
    var lines := header + HintLines(suggestions);
    forall i | 0 <= i < |lines| ensures IsComment(lines[i]) {
      if i < 7 {
        HeaderIsComments(generatedAt, cliVersion, definitions, |ops|, |suggestions|, risks, i);
      } else if suggestions != [] {
        HintsAreComments(suggestions, 0);
        HintsAreComments(suggestions, i - 7);
      }
    }
    forall i | 0 <= i < |ops| ensures IsComment(CommentOf(ops[i])) {
      OperationLineIsComment(ops[i]);
    }
    RoundTrip(lines, ops);
  }
}
