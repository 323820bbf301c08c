/**
 What a statement is, said without the lexer: plain text, quoted texts and block comments behind one another.
 Every such statement is lexed as one, so a file written from them is read back statement by statement.
 */
module StatementGrammar {
  import opened SqlText
  import opened MigrationFile
  import opened TextForms

  /** A character inside quotes, the quote written twice, or the quote behind a backslash. */
  datatype Unit = Char(c: char) | Doubled | Escaped

  datatype Piece =
    | Plain(text: string)
    | InSingle(units: seq<Unit>)
    | InDouble(units: seq<Unit>)
    | InBackticks(text: string)
    | Comment(text: string)

  function UnitText(quote: char, u: Unit): string {
    match u
    case Char(c) => [c]
    case Doubled => [quote, quote]
    case Escaped => ['\\', quote]
  }

  function UnitsText(quote: char, units: seq<Unit>): string {
    if units == [] then "" else UnitText(quote, units[0]) + UnitsText(quote, units[1..])
  }

  function PieceText(p: Piece): string {
    match p
    case Plain(text) => text
    case InSingle(units) => "'" + UnitsText('\'', units) + "'"
    case InDouble(units) => "\"" + UnitsText('"', units) + "\""
    case InBackticks(text) => "`" + text + "`"
    case Comment(text) => "/*" + text + "*/"
  }

  function Text(pieces: seq<Piece>): string {
    if pieces == [] then "" else PieceText(pieces[0]) + Text(pieces[1..])
  }

  // ----- what is well formed -----

  predicate Has(s: string, a: char, b: char) {
    exists i :: 0 <= i < |s| - 1 && s[i] == a && s[i + 1] == b
  }

  /** No quote, no semicolon, and nothing that opens a comment. */
  predicate PlainOk(t: string) {
    t != "" && '\'' !in t && '"' !in t && '`' !in t && ';' !in t && !Has(t, '-', '-') && !Has(t, '/', '*')
  }

  /** Quotes only doubled or behind a backslash; the text does not end in a backslash. */
  predicate SingleOk(units: seq<Unit>) {
    && (forall i :: 0 <= i < |units| && units[i].Char? ==> units[i].c != '\'')
    && (forall i :: 0 <= i < |units| && units[i].Escaped? ==> i + 1 < |units| && !units[i + 1].Doubled?)
    && (units != [] ==> units[|units| - 1] != Char('\\'))
  }

  predicate DoubleOk(units: seq<Unit>) {
    && (forall i :: 0 <= i < |units| ==> !units[i].Doubled? && units[i] != Char('"'))
    && (units != [] ==> units[|units| - 1] != Char('\\'))
  }

  predicate PieceOk(p: Piece) {
    match p
    case Plain(text) => PlainOk(text)
    case InSingle(units) => SingleOk(units)
    case InDouble(units) => DoubleOk(units)
    case InBackticks(text) => '`' !in text
    case Comment(text) => !Has(text, '*', '/')
  }

  /** Plain text is written as one piece, and so is a single-quoted text. */
  predicate MayFollow(p: Piece, q: Piece) {
    !(p.Plain? && q.Plain?) && !(p.InSingle? && q.InSingle?)
  }

  predicate WellFormed(pieces: seq<Piece>) {
    && (forall i :: 0 <= i < |pieces| ==> PieceOk(pieces[i]))
    && (forall i :: 0 <= i < |pieces| - 1 ==> MayFollow(pieces[i], pieces[i + 1]))
  }

  // ----- how each piece is lexed -----

  /** One step through a text that shows nothing at top level. */
  lemma QuietStep(s: string, mode: Mode, prev: char)
    requires s != "" && !mode.Line? && !(mode.Top? && s[0] == ';') && !Drops(s, mode)
    ensures var step := StepOn(true, mode, prev, s[0], CharAt(s, 1));
      step.taken <= |s| && Quiet(s, mode, prev) == Quiet(s[step.taken..], step.mode, s[step.taken - 1])
  {
    var step := NextStep(true, s, mode, prev);
  }

  /** At top level the character before does not matter. */
  lemma TopIsTop(s: string, p: char, q: char)
    ensures Quiet(s, Top, p) == Quiet(s, Top, q)
  {
  }

  /** Behind plain text: the end, or something that cannot complete a comment's first character. */
  predicate Ends(rest: string) {
    rest == "" || rest[0] == '\'' || rest[0] == '"' || rest[0] == '`' || rest[0] == '/'
  }

  lemma {:induction false} PlainRuns(t: string, rest: string, prev: char)
    requires PlainOk(t) && Ends(rest)
    ensures Quiet(t + rest, Top, prev) == Quiet(rest, Top, t[|t| - 1])
    decreases |t|
  {
    var s := t + rest;
    hide Quiet;
    assert s[0] == t[0] && s[0] in t;
    if |t| > 1 {
      assert s[1] == t[1];
      PlainRest(t);
    }
    QuietStep(s, Top, prev);
    assert s[1..] == t[1..] + rest;
    if |t| > 1 {
      PlainRuns(t[1..], rest, t[0]);
    } else {
      assert t[1..] + rest == rest;
    }
  }

  lemma PlainRest(t: string)
    requires PlainOk(t) && |t| > 1
    ensures PlainOk(t[1..]) && !(t[0] == '-' && t[1] == '-') && !(t[0] == '/' && t[1] == '*')
  {
    assert forall i :: 0 <= i < |t| - 1 ==> t[1..][i] == t[i + 1];
    assert forall c :: c in t[1..] ==> c in t;
  }

  lemma {:induction false} SingleRuns(units: seq<Unit>, rest: string, prev: char)
    requires SingleOk(units) && (units == [] ==> prev != '\\') && (rest == "" || rest[0] != '\'')
    ensures Quiet(UnitsText('\'', units) + "'" + rest, Single, prev) == Quiet(rest, Top, '\'')
    decreases |units|
  {
    hide Quiet;
    var s := UnitsText('\'', units) + "'" + rest;
    if units == [] {
      assert s[0] == '\'' && s[1..] == rest;
      QuietStep(s, Single, prev);
    } else {
      var tail := UnitsText('\'', units[1..]) + "'" + rest;
      var head := UnitText('\'', units[0]);
      assert s == head + tail;
      assert units[|units| - 1] == if |units| > 1 then units[1..][|units| - 2] else units[0];
      assert SingleOk(units[1..]);
      match units[0]
      case Char(c) =>
        assert s[0] == c && s[1..] == tail;
        QuietStep(s, Single, prev);
        SingleRuns(units[1..], rest, c);
      case Doubled =>
        assert s[0] == '\'' && s[1] == '\'' && s[2..] == tail;
        QuietStep(s, Single, prev);
        SingleRuns(units[1..], rest, '\'');
      case Escaped =>
        EscapedRuns(s, tail, units, rest, prev);
        SingleRuns(units[1..], rest, '\'');
    }
  }

  /** The backslash is a character of its own, and keeps the quote behind it from closing. */
  lemma EscapedRuns(s: string, tail: string, units: seq<Unit>, rest: string, prev: char)
    requires SingleOk(units) && units != [] && units[0].Escaped?
    requires tail == UnitsText('\'', units[1..]) + "'" + rest && s == ['\\', '\''] + tail
    ensures Quiet(s, Single, prev) == Quiet(tail, Single, '\'')
  {
    assert !units[1].Doubled? && units[1..][0] == units[1];
    assert tail[0] != '\'' by {
      assert UnitsText('\'', units[1..]) == UnitText('\'', units[1]) + UnitsText('\'', units[1..][1..]);
      assert tail[0] == UnitText('\'', units[1])[0];
    }
    hide Quiet;
    assert s[0] == '\\' && s[1] == '\'' && s[2] == tail[0];
    QuietStep(s, Single, prev);
    var t := s[1..];
    assert t[0] == '\'' && t[1] == tail[0] && t[1..] == tail;
    QuietStep(t, Single, '\\');
  }

  lemma {:induction false} DoubleRuns(units: seq<Unit>, rest: string, prev: char)
    requires DoubleOk(units) && (units == [] ==> prev != '\\')
    ensures Quiet(UnitsText('"', units) + "\"" + rest, Double, prev) == Quiet(rest, Top, '"')
    decreases |units|
  {
    hide Quiet;
    var s := UnitsText('"', units) + "\"" + rest;
    if units == [] {
      assert s[0] == '"' && s[1..] == rest;
      QuietStep(s, Double, prev);
    } else {
      var tail := UnitsText('"', units[1..]) + "\"" + rest;
      assert s == UnitText('"', units[0]) + tail;
      assert units[|units| - 1] == if |units| > 1 then units[1..][|units| - 2] else units[0];
      assert DoubleOk(units[1..]);
      if units[0].Char? {
        assert s[0] == units[0].c && s[1..] == tail;
        QuietStep(s, Double, prev);
        DoubleRuns(units[1..], rest, s[0]);
      } else {
        assert s[0] == '\\' && s[1] == '"' && s[1..][1..] == tail;
        QuietStep(s, Double, prev);
        QuietStep(s[1..], Double, '\\');
        DoubleRuns(units[1..], rest, '"');
      }
    }
  }

  lemma {:induction false} BackticksRun(t: string, rest: string, prev: char)
    requires '`' !in t
    ensures Quiet(t + "`" + rest, Backtick, prev) == Quiet(rest, Top, '`')
    decreases |t|
  {
    hide Quiet;
    var s := t + "`" + rest;
    QuietStep(s, Backtick, prev);
    if t == "" {
      assert s[0] == '`' && s[1..] == rest;
    } else {
      assert s[0] == t[0] && s[1..] == t[1..] + "`" + rest;
      BackticksRun(t[1..], rest, t[0]);
    }
  }

  lemma {:induction false} CommentRunsOut(t: string, rest: string, prev: char)
    requires !Has(t, '*', '/')
    ensures Quiet(t + "*/" + rest, Block, prev) == Quiet(rest, Top, '/')
    decreases |t|
  {
    hide Quiet;
    var s := t + "*/" + rest;
    if t == "" {
      assert s[0] == '*' && s[1] == '/' && s[2..] == rest;
      QuietStep(s, Block, prev);
    } else {
      assert s[0] == t[0] && s[1..] == t[1..] + "*/" + rest;
      assert s[1] == if |t| > 1 then t[1] else '*';
      if t[0] == '*' && |t| > 1 {
        assert t[0 + 1] != '/';
      }
      QuietStep(s, Block, prev);
      assert !Has(t[1..], '*', '/') by {
        assert forall i :: 0 <= i < |t| - 1 ==> t[1..][i] == t[i + 1];
      }
      CommentRunsOut(t[1..], rest, t[0]);
    }
  }

  /** A quote at top level opens a quoted text. */
  lemma QuoteOpens(body: string, prev: char)
    ensures Quiet("'" + body, Top, prev) == Quiet(body, Single, '\'')
    ensures Quiet("\"" + body, Top, prev) == Quiet(body, Double, '"')
    ensures Quiet("`" + body, Top, prev) == Quiet(body, Backtick, '`')
  {
    hide Quiet;
    assert ("'" + body)[1..] == body && ("\"" + body)[1..] == body && ("`" + body)[1..] == body;
    QuietStep("'" + body, Top, prev);
    QuietStep("\"" + body, Top, prev);
    QuietStep("`" + body, Top, prev);
  }

  lemma CommentOpens(body: string, prev: char)
    ensures Quiet("/*" + body, Top, prev) == Quiet(body, Block, '*')
  {
    hide Quiet;
    var s := "/*" + body;
    assert s[0] == '/' && s[1] == '*' && s[2..] == body;
    QuietStep(s, Top, prev);
  }

  lemma Behind(head: string, body: string, tail: string, rest: string)
    ensures (head + body + tail) + rest == head + (body + tail + rest)
  {
  }

  /** A piece leaves the lexer at top level, right behind it. */
  lemma PieceRuns(p: Piece, rest: string, prev: char)
    requires PieceOk(p) && (p.Plain? ==> Ends(rest)) && (p.InSingle? ==> rest == "" || rest[0] != '\'')
    ensures Quiet(PieceText(p) + rest, Top, prev) == Quiet(rest, Top, ' ')
  {
    hide Quiet, PlainOk, SingleOk, DoubleOk, Has, UnitsText;
    match p
    case Plain(text) =>
      PlainRuns(text, rest, prev);
      NotEmpty(text);
      TopIsTop(rest, text[|text| - 1], ' ');
    case InSingle(units) =>
      var body := UnitsText('\'', units);
      Behind("'", body, "'", rest);
      QuoteOpens(body + "'" + rest, prev);
      SingleRuns(units, rest, '\'');
      TopIsTop(rest, '\'', ' ');
    case InDouble(units) =>
      var body := UnitsText('"', units);
      Behind("\"", body, "\"", rest);
      QuoteOpens(body + "\"" + rest, prev);
      DoubleRuns(units, rest, '"');
      TopIsTop(rest, '"', ' ');
    case InBackticks(text) =>
      Behind("`", text, "`", rest);
      QuoteOpens(text + "`" + rest, prev);
      BackticksRun(text, rest, '`');
      TopIsTop(rest, '`', ' ');
    case Comment(text) =>
      Behind("/*", text, "*/", rest);
      CommentOpens(text + "*/" + rest, prev);
      CommentRunsOut(text, rest, '*');
      TopIsTop(rest, '/', ' ');
  }

  lemma NotEmpty(t: string)
    requires PlainOk(t)
    ensures t != ""
  {
  }

  /** How the text behind a piece starts. */
  lemma TextStarts(pieces: seq<Piece>)
    requires WellFormed(pieces) && pieces != []
    ensures Text(pieces) != ""
    ensures !pieces[0].Plain? ==> Ends(Text(pieces))
    ensures !pieces[0].InSingle? ==> Text(pieces)[0] != '\''
  {
    assert PieceOk(pieces[0]);
    assert Text(pieces)[0] == PieceText(pieces[0])[0];
    if pieces[0].Plain? {
      assert pieces[0].text[0] in pieces[0].text;
    }
  }

  /** Whatever is quoted or commented in it, a well-formed text is one closed statement. */
  lemma {:induction false} WellFormedIsQuiet(pieces: seq<Piece>, prev: char)
    requires WellFormed(pieces)
    ensures Quiet(Text(pieces), Top, prev)
    decreases |pieces|
  {
    if pieces != [] {
      var rest := pieces[1..];
      hide Quiet, PieceOk, Ends;
      assert WellFormed(rest) by {
        assert forall i :: 0 <= i < |rest| ==> rest[i] == pieces[i + 1];
      }
      if rest != [] {
        assert MayFollow(pieces[0], pieces[0 + 1]) && rest[0] == pieces[1];
        TextStarts(rest);
      } else {
        NothingEnds();
      }
      PieceRuns(pieces[0], Text(rest), prev);
      WellFormedIsQuiet(rest, ' ');
    }
  }

  lemma NothingEnds()
    ensures Ends("")
  {
  }

  // ----- a whole file -----

  lemma {:induction false} StatementsAt(ops: seq<Operation>, i: nat)
    requires i < |ops|
    ensures |Statements(ops)| == |ops| && Statements(ops)[i] == ops[i].sql
    decreases |ops|
  {
    if |ops| > 1 {
      StatementsAt(ops[1..], if i > 0 then i - 1 else 0);
    }
  }

  /** The statement of each operation is one of these texts and its terminator. */
  predicate Spells(ops: seq<Operation>, texts: seq<seq<Piece>>) {
    && |ops| == |texts|
    && forall i :: 0 <= i < |ops| ==> WellFormed(texts[i]) && ops[i].sql == Text(texts[i]) + ";"
  }

  /** The list holds every operation's statement, unchanged and in order. */
  predicate ComesBack(found: seq<string>, ops: seq<Operation>) {
    |found| == |ops| && forall i :: 0 <= i < |ops| ==> found[i] == ops[i].sql
  }

  lemma BackIsStatements(found: seq<string>, ops: seq<Operation>)
    ensures ComesBack(found, ops) <==> found == Statements(ops)
  {
    if ops == [] {
      assert Statements(ops) == [];
    } else {
      StatementsAt(ops, 0);
      forall i | 0 <= i < |ops| ensures Statements(ops)[i] == ops[i].sql {
        StatementsAt(ops, i);
      }
    }
  }

  lemma SpelledIsClosed(op: Operation, pieces: seq<Piece>)
    requires WellFormed(pieces) && op.sql == Text(pieces) + ";"
    ensures Closed(op) && BodyOf(op) == Text(pieces) && (Trimmed(op) <==> Tight(Text(pieces)))
  {
    hide Quiet, Trim, Tight;
    assert BodyOf(op) == Text(pieces);
    WellFormedIsQuiet(pieces, ' ');
    TightIsTrimmed(Text(pieces));
  }

  /**
   A migration file of such statements is read back exactly as it was written, whatever their quoted texts and
   comments hold, if and only if no statement begins or ends in white space.
   */
  lemma WrittenStatementsComeBack(generatedAt: string, cliVersion: string, definitions: nat, suggestions: seq<Suggestion>, risks: Risks,
                                  ops: seq<Operation>, texts: seq<seq<Piece>>)
    requires OneLine(generatedAt) && OneLine(cliVersion) && forall s :: s in suggestions ==> PlainSuggestion(s)
    requires (forall i :: 0 <= i < |ops| ==> PlainOperation(ops[i])) && Spells(ops, texts)
    ensures var lines := MigrationHeader(generatedAt, cliVersion, definitions, |ops|, |suggestions|, risks) + HintLines(suggestions);
      ComesBack(ExtractStatements(MigrationContent(lines, ops)), ops) <==> forall i :: 0 <= i < |texts| ==> Tight(Text(texts[i]))
  {
    hide ExtractStatements, MigrationContent, MigrationHeader, Trimmed, Tight, Closed, PlainSuggestion, PlainOperation, ComesBack, WellFormed, Text;
    forall i | 0 <= i < |ops| ensures Closed(ops[i]) && (Trimmed(ops[i]) <==> Tight(Text(texts[i]))) {
      SpelledIsClosed(ops[i], texts[i]);
    }
    FileRoundTrip(generatedAt, cliVersion, definitions, suggestions, risks, ops);
    var lines := MigrationHeader(generatedAt, cliVersion, definitions, |ops|, |suggestions|, risks) + HintLines(suggestions);
    BackIsStatements(ExtractStatements(MigrationContent(lines, ops)), ops);
  }

  // ----- where the lexer and the grammar of literals part -----

  lemma {:induction false} LetterRuns(inner: string, prev: char)
    requires '\'' !in inner
    ensures Quiet(inner + "'", Single, prev) <==> (if inner == "" then prev else inner[|inner| - 1]) != '\\'
    decreases |inner|
  {
    var s := inner + "'";
    if inner == "" {
      assert s[0] == '\'' && s[1..] == "";
      if prev == '\\' {
        assert NextStep(true, s, Single, prev) == Step(1, Single);
        assert !Quiet(s[1..], Single, '\'');
      }
    } else {
      assert s[0] == inner[0] && s[1..] == inner[1..] + "'" && inner[0] in inner;
      QuietStep(s, Single, prev);
      hide Quiet;
      LetterRuns(inner[1..], inner[0]);
    }
  }

  /**
   A text in single quotes that holds no quote is seen to close exactly when it does not end in a backslash:
   a literal that ends in an escaped backslash stays open and swallows what follows it.
   */
  lemma QuoteClosesIff(inner: string, prev: char)
    requires '\'' !in inner
    ensures Quiet("'" + inner + "'", Top, prev) <==> inner == "" || inner[|inner| - 1] != '\\'
  {
    var s := "'" + inner + "'";
    assert s[0] == '\'' && s[1..] == inner + "'";
    QuietStep(s, Top, prev);
    LetterRuns(inner, '\'');
  }
}
