/**
 Migration files as text: the two passes that recover executable statements, the single pass they
 amount to, and the writer they undo.
 */
module SqlText {

  // ----- characters -----

  predicate IsSpace(c: char) {
    c == ' ' || '\t' <= c <= '\r' || c == '\U{00A0}' || c == '\U{1680}' || '\U{2000}' <= c <= '\U{200A}'
    || c == '\U{2028}' || c == '\U{2029}' || c == '\U{202F}' || c == '\U{205F}' || c == '\U{3000}' || c == '\U{FEFF}'
  }

  /** The code points that ECMAScript takes for white space or a line terminator. */
  lemma SpacesAre(c: char)
    ensures IsSpace(c) <==>
      (c as int) in {9, 10, 11, 12, 13, 32, 160, 5760, 8192, 8193, 8194, 8195, 8196, 8197, 8198, 8199, 8200, 8201, 8202, 8232, 8233, 8239, 8287,
                     12288, 65279}
  {
  }

  function TrimStart(s: string): string {
    if s != "" && IsSpace(s[0]) then TrimStart(s[1..]) else s
  }

  function TrimEnd(s: string): string {
    if s != "" && IsSpace(s[|s| - 1]) then TrimEnd(s[..|s| - 1]) else s
  }

  function Trim(s: string): string {
    TrimEnd(TrimStart(s))
  }

  predicate Blank(s: string) {
    forall i :: 0 <= i < |s| ==> IsSpace(s[i])
  }

  // ----- the lexer's states -----

  datatype Mode = Top | Single | Double | Backtick | Block | Line

  function CharAt(s: string, i: nat): string {
    if i < |s| then [s[i]] else ""
  }

  /** One step of a pass: how many characters it takes, and the state behind them. */
  datatype Step = Step(taken: nat, mode: Mode)

  /** Inside quotes and comments; `prev` is the character before, as the passes look back for a backslash. */
  function InsideStep(mode: Mode, prev: char, ch: char, next: string): Step
    requires !mode.Top?
  {
    match mode
    case Line => if ch == '\n' then Step(1, Top) else Step(1, Line)
    case Block => if ch == '*' && next == "/" then Step(2, Top) else Step(1, Block)
    case Single =>
      if ch == '\'' && next == "'" then Step(2, Single)
      else if ch == '\'' && prev != '\\' then Step(1, Top)
      else Step(1, Single)
    case Double => if ch == '"' && prev != '\\' then Step(1, Top) else Step(1, Double)
    case Backtick => if ch == '`' then Step(1, Top) else Step(1, Backtick)
  }

  /** At top level; only the stripping pass knows line comments. */
  function TopStep(comments: bool, ch: char, next: string): Step {
    if comments && ch == '-' && next == "-" then Step(2, Line)
    else if ch == '/' && next == "*" then Step(2, Block)
    else if ch == '\'' then Step(1, Single)
    else if ch == '"' then Step(1, Double)
    else if ch == '`' then Step(1, Backtick)
    else Step(1, Top)
  }

  function NextStep(comments: bool, s: string, mode: Mode, prev: char): (step: Step)
    requires s != ""
    ensures 1 <= step.taken <= |s|
  {
    if mode.Top? then TopStep(comments, s[0], CharAt(s, 1)) else InsideStep(mode, prev, s[0], CharAt(s, 1))
  }

  /** What the stripping pass keeps of the characters it takes. */
  function KeptText(taken: string, after: Mode): string {
    if after.Line? then "" else taken
  }

  /** The first pass: line comments are removed, their newline is kept. */
  function Strip(s: string, mode: Mode, prev: char): string
    decreases |s|
  {
    if s == "" then ""
    else
      var step := NextStep(true, s, mode, prev);
      KeptText(s[..step.taken], step.mode) + Strip(s[step.taken..], step.mode, s[step.taken - 1])
  }

  /** A statement at a terminator or at the end. */
  function Emit(current: string): seq<string> {
    if Trim(current) != "" then [Trim(current) + ";"] else []
  }

  /** The second pass: splits at every top-level semicolon. */
  function Split(s: string, mode: Mode, prev: char, current: string): seq<string>
    decreases |s|
  {
    if s == "" then Emit(current)
    else if mode.Top? && s[0] == ';' then Emit(current) + Split(s[1..], Top, ';', "")
    else
      var step := NextStep(false, s, mode, prev);
      Split(s[step.taken..], step.mode, s[step.taken - 1], current + s[..step.taken])
  }

  function SplitStatements(sql: string): seq<string> {
    Split(sql, Top, ' ', "")
  }

  function ExtractStatements(sql: string): seq<string> {
    SplitStatements(Strip(sql, Top, ' '))
  }

  // ----- the loops -----

  function PrevAt(sql: string, i: nat): char
    requires i <= |sql|
  {
    if i == 0 then ' ' else sql[i - 1]
  }

  function StepAt(comments: bool, sql: string, i: nat, mode: Mode): (step: Step)
    requires i < |sql|
    ensures 1 <= step.taken <= |sql| - i
  {
    assert CharAt(sql[i..], 1) == CharAt(sql, i + 1);
    NextStep(comments, sql[i..], mode, PrevAt(sql, i))
  }

  lemma SliceOfRest<T>(s: seq<T>, i: nat, n: nat)
    requires 0 < n && i + n <= |s|
    ensures s[i..][n..] == s[i + n..] && s[i..][..n] == s[i..i + n] && s[i..][n - 1] == s[i + n - 1]
  {
  }

  lemma SplitAt(sql: string, i: nat, mode: Mode, current: string)
    requires i < |sql|
    ensures Split(sql[i..], mode, PrevAt(sql, i), current)
      == if mode.Top? && sql[i] == ';' then Emit(current) + Split(sql[i + 1..], Top, PrevAt(sql, i + 1), "")
         else var step := StepAt(false, sql, i, mode);
           Split(sql[i + step.taken..], step.mode, PrevAt(sql, i + step.taken), current + sql[i..i + step.taken])
  {
    hide NextStep, Emit, CharAt;
    SliceOfRest(sql, i, StepAt(false, sql, i, mode).taken);
    SliceOfRest(sql, i, 1);
  }

  lemma StripAt(sql: string, i: nat, mode: Mode)
    requires i < |sql|
    ensures Strip(sql[i..], mode, PrevAt(sql, i))
      == var step := StepAt(true, sql, i, mode);
         KeptText(sql[i..i + step.taken], step.mode) + Strip(sql[i + step.taken..], step.mode, PrevAt(sql, i + step.taken))
  {
    var rest, step := sql[i..], StepAt(true, sql, i, mode);
    hide Strip, NextStep, KeptText, CharAt;
    StripStep(rest, mode, PrevAt(sql, i));
    SliceOfRest(sql, i, step.taken);
  }

  /** The characters a step takes, read one by one. */
  function Taken(sql: string, i: nat, step: Step): string
    requires i < |sql|
  {
    if step.taken == 1 then [sql[i]] else [sql[i]] + CharAt(sql, i + 1)
  }

  function StepOn(comments: bool, mode: Mode, prev: char, ch: char, next: string): Step {
    if mode.Top? then TopStep(comments, ch, next) else InsideStep(mode, prev, ch, next)
  }

  lemma StepIs(comments: bool, sql: string, i: nat, mode: Mode)
    requires i < |sql|
    ensures var step := StepAt(comments, sql, i, mode);
      && step == StepOn(comments, mode, PrevAt(sql, i), sql[i], CharAt(sql, i + 1))
      && step.taken <= 2 && sql[i..i + step.taken] == Taken(sql, i, step)
  {
    assert CharAt(sql[i..], 1) == CharAt(sql, i + 1);
  }

  /** One turn of the stripping loop. */
  lemma StripTurn(sql: string, i: nat, mode: Mode, stripped: string)
    requires i < |sql|
    ensures var step := StepOn(true, mode, PrevAt(sql, i), sql[i], CharAt(sql, i + 1));
      && i + step.taken <= |sql|
      && stripped + Strip(sql[i..], mode, PrevAt(sql, i))
        == (stripped + KeptText(Taken(sql, i, step), step.mode)) + Strip(sql[i + step.taken..], step.mode, PrevAt(sql, i + step.taken))
  {
    hide *;
    StepIs(true, sql, i, mode);
    StripAt(sql, i, mode);
    var step := StepAt(true, sql, i, mode);
    Assoc(stripped, KeptText(sql[i..i + step.taken], step.mode), Strip(sql[i + step.taken..], step.mode, PrevAt(sql, i + step.taken)));
  }

  /** One turn of the splitting loop that does not meet a terminator. */
  lemma SplitTurn(sql: string, i: nat, mode: Mode, current: string)
    requires i < |sql| && !(mode.Top? && sql[i] == ';')
    ensures var step := StepOn(false, mode, PrevAt(sql, i), sql[i], CharAt(sql, i + 1));
      && i + step.taken <= |sql|
      && Split(sql[i..], mode, PrevAt(sql, i), current)
        == Split(sql[i + step.taken..], step.mode, PrevAt(sql, i + step.taken), current + Taken(sql, i, step))
  {
    hide *;
    StepIs(false, sql, i, mode);
    SplitAt(sql, i, mode, current);
  }

  lemma Assoc<T>(a: seq<T>, b: seq<T>, c: seq<T>)
    ensures (a + b) + c == a + (b + c)
  {
  }

  /** The booleans of the loops; at most one of them is set. */
  datatype Flags = Flags(single: bool, double: bool, backtick: bool, block: bool, line: bool)

  function ModeOf(f: Flags): Mode {
    if f.line then Line else if f.block then Block else if f.single then Single else if f.double then Double
    else if f.backtick then Backtick else Top
  }

  /** The booleans are those of one state. */
  predicate OneFlag(f: Flags) {
    match ModeOf(f)
    case Top => f == Flags(false, false, false, false, false)
    case Single => f == Flags(true, false, false, false, false)
    case Double => f == Flags(false, true, false, false, false)
    case Backtick => f == Flags(false, false, true, false, false)
    case Block => f == Flags(false, false, false, true, false)
    case Line => f == Flags(false, false, false, false, true)
  }

  /** `splitSqlStatements`. */
  method SplitSqlStatements(sql: string) returns (statements: seq<string>)
    ensures statements == SplitStatements(sql)
  {
    hide Split, StepAt, NextStep, Trim;
    statements := [];
    var current, i := "", 0;
    var inSingleQuote, inDoubleQuote, inBacktick, inBlockComment := false, false, false, false;
    ghost var mode := Top;
    assert sql[0..] == sql;
    while i < |sql|
      invariant i <= |sql| && !mode.Line?
      invariant var flags := Flags(inSingleQuote, inDoubleQuote, inBacktick, inBlockComment, false); OneFlag(flags) && mode == ModeOf(flags)
      invariant i == 0 ==> mode.Top?
      invariant statements + Split(sql[i..], mode, PrevAt(sql, i), current) == SplitStatements(sql)
    {
      var ch, next := sql[i], CharAt(sql, i + 1);
      if !inBlockComment && !inSingleQuote && !inDoubleQuote && !inBacktick && ch == ';' {
        SplitAt(sql, i, mode, current);
        Assoc(statements, Emit(current), Split(sql[i + 1..], Top, PrevAt(sql, i + 1), ""));
        var trimmed := Trim(current);
        if |trimmed| > 0 {
          statements := statements + [trimmed + ";"];
        } else {
          assert statements + [] == statements;
        }
        current := "";
        i := i + 1;
        continue;
      }
      SplitTurn(sql, i, mode, current);
      ghost var before, at, step := current, i, StepOn(false, mode, PrevAt(sql, i), ch, next);
      current := current + [ch];
      if inBlockComment {
        if ch == '*' && next == "/" {
          current, i, inBlockComment := current + next, i + 1, false;
        }
      } else if inSingleQuote {
        if ch == '\'' && next == "'" {
          current, i := current + next, i + 1;
        } else if ch == '\'' && sql[i - 1] != '\\' {
          inSingleQuote := false;
        }
      } else if inDoubleQuote {
        if ch == '"' && sql[i - 1] != '\\' {
          inDoubleQuote := false;
        }
      } else if inBacktick {
        if ch == '`' {
          inBacktick := false;
        }
      } else if ch == '/' && next == "*" {
        current, i, inBlockComment := current + next, i + 1, true;
      } else if ch == '\'' {
        inSingleQuote := true;
      } else if ch == '"' {
        inDoubleQuote := true;
      } else if ch == '`' {
        inBacktick := true;
      }
      i := i + 1;
      mode := ModeOf(Flags(inSingleQuote, inDoubleQuote, inBacktick, inBlockComment, false));
      assert i == at + step.taken && mode == step.mode;
      assert current == before + Taken(sql, at, step);
    }
    SplitEnd(sql, mode, current);
    var tail := Trim(current);
    if |tail| > 0 {
      statements := statements + [tail + ";"];
    } else {
      assert statements + [] == statements;
    }
  }

  lemma SplitEnd(sql: string, mode: Mode, current: string)
    ensures Split(sql[|sql|..], mode, PrevAt(sql, |sql|), current) == Emit(current)
    ensures Strip(sql[|sql|..], mode, PrevAt(sql, |sql|)) == ""
  {
  }

  /** `extractExecutableStatements`. */
  method ExtractExecutableStatements(sql: string) returns (statements: seq<string>)
    ensures statements == ExtractStatements(sql)
  {
    hide Strip, StepAt, NextStep, Split, Trim;
    var stripped, i := "", 0;
    var inSingleQuote, inDoubleQuote, inBacktick, inBlockComment, inLineComment := false, false, false, false, false;
    ghost var mode := Top;
    assert sql[0..] == sql;
    while i < |sql|
      invariant i <= |sql|
      invariant var flags := Flags(inSingleQuote, inDoubleQuote, inBacktick, inBlockComment, inLineComment); OneFlag(flags) && mode == ModeOf(flags)
      invariant i == 0 ==> mode.Top?
      invariant stripped + Strip(sql[i..], mode, PrevAt(sql, i)) == Strip(sql, Top, ' ')
    {
      StripTurn(sql, i, mode, stripped);
      var ch, next := sql[i], CharAt(sql, i + 1);
      ghost var before, at, step := stripped, i, StepOn(true, mode, PrevAt(sql, i), ch, next);
      if inLineComment {
        if ch == '\n' {
          inLineComment, stripped := false, stripped + [ch];
        }
      } else if inBlockComment {
        stripped := stripped + [ch];
        if ch == '*' && next == "/" {
          stripped, i, inBlockComment := stripped + next, i + 1, false;
        }
      } else if inSingleQuote {
        stripped := stripped + [ch];
        if ch == '\'' && next == "'" {
          stripped, i := stripped + next, i + 1;
        } else if ch == '\'' && sql[i - 1] != '\\' {
          inSingleQuote := false;
        }
      } else if inDoubleQuote {
        stripped := stripped + [ch];
        if ch == '"' && sql[i - 1] != '\\' {
          inDoubleQuote := false;
        }
      } else if inBacktick {
        stripped := stripped + [ch];
        if ch == '`' {
          inBacktick := false;
        }
      } else if ch == '-' && next == "-" {
        i, inLineComment := i + 1, true;
      } else if ch == '/' && next == "*" {
        stripped, i, inBlockComment := stripped + [ch] + next, i + 1, true;
      } else {
        stripped := stripped + [ch];
        if ch == '\'' {
          inSingleQuote := true;
        } else if ch == '"' {
          inDoubleQuote := true;
        } else if ch == '`' {
          inBacktick := true;
        }
      }
      i := i + 1;
      mode := ModeOf(Flags(inSingleQuote, inDoubleQuote, inBacktick, inBlockComment, inLineComment));
      assert i == at + step.taken && mode == step.mode;
      assert stripped == before + KeptText(Taken(sql, at, step), step.mode);
    }
    SplitEnd(sql, mode, "");
    assert stripped + "" == stripped;
    statements := SplitSqlStatements(stripped);
  }

  // ----- one pass -----

  /** The single pass: splits at top-level semicolons and drops line comments as it goes. */
  function Fused(s: string, mode: Mode, prev: char, current: string): seq<string>
    decreases |s|
  {
    if s == "" then Emit(current)
    else if mode.Top? && s[0] == ';' then Emit(current) + Fused(s[1..], Top, ';', "")
    else
      var step := NextStep(true, s, mode, prev);
      Fused(s[step.taken..], step.mode, s[step.taken - 1], current + KeptText(s[..step.taken], step.mode))
  }

  /** The state the second pass is in while the first one is in this state. */
  function Seen(mode: Mode): Mode {
    if mode.Line? then Top else mode
  }

  /** The stripping pass is about to drop characters. */
  predicate Drops(s: string, mode: Mode) {
    s != "" && ((mode.Line? && s[0] != '\n') || (mode.Top? && s[0] == '-' && CharAt(s, 1) == "-"))
  }

  lemma DropsAreLines(s: string, mode: Mode, prev: char)
    requires s != ""
    ensures NextStep(true, s, mode, prev).mode.Line? <==> Drops(s, mode)
  {
  }

  lemma StripStep(s: string, mode: Mode, prev: char)
    requires s != ""
    ensures var step := NextStep(true, s, mode, prev);
      Strip(s, mode, prev) == KeptText(s[..step.taken], step.mode) + Strip(s[step.taken..], step.mode, s[step.taken - 1])
  {
    hide NextStep;
  }

  /** Stripping never moves a character next to one it was not next to, except over a newline. */
  lemma {:induction false} HeadOfStrip(s: string, mode: Mode, prev: char)
    ensures s != "" && !Drops(s, mode) ==> Strip(s, mode, prev) != "" && Strip(s, mode, prev)[0] == s[0]
    ensures s == "" || Drops(s, mode) ==> Strip(s, mode, prev) == "" || Strip(s, mode, prev)[0] == '\n'
    decreases |s|
  {
    if s != "" {
      StripStep(s, mode, prev);
      DropsAreLines(s, mode, prev);
      hide NextStep, Strip;
      var step := NextStep(true, s, mode, prev);
      if Drops(s, mode) {
        HeadOfStrip(s[step.taken..], Line, s[step.taken - 1]);
      }
    }
  }

  /** What the second pass sees behind a character: the same, or the end or a newline where a comment began. */
  predicate SeesInstead(next: string, seen: string) {
    seen == next || (next == "-" && (seen == "" || seen == "\n"))
  }

  lemma StepIgnores(mode: Mode, prev: char, ch: char, next: string, seen: string)
    requires SeesInstead(next, seen) && !(mode.Line? && ch != '\n') && !(mode.Top? && ch == '-' && next == "-")
    ensures var step := StepOn(true, mode, prev, ch, next);
      StepOn(false, Seen(mode), prev, ch, seen) == step.(mode := Seen(step.mode)) && !step.mode.Line?
  {
  }

  lemma SeenBehind(s: string, mode: Mode, prev: char)
    requires s != "" && !Drops(s, mode)
    ensures var step := NextStep(true, s, mode, prev);
      var t := Strip(s, mode, prev);
      && t == s[..step.taken] + Strip(s[step.taken..], step.mode, s[step.taken - 1])
      && t[0] == s[0] && SeesInstead(CharAt(s, 1), CharAt(t, 1)) && !step.mode.Line?
  {
    StripStep(s, mode, prev);
    DropsAreLines(s, mode, prev);
    var step := NextStep(true, s, mode, prev);
    hide NextStep, Strip;
    var rest := s[step.taken..];
    HeadOfStrip(rest, step.mode, s[step.taken - 1]);
    if step.taken == 1 && rest != "" {
      assert rest[0] == s[1];
    }
  }

  /** Where nothing is dropped both passes take the same step. */
  lemma NextIsTheSame(s: string, mode: Mode, prev: char)
    requires s != "" && !Drops(s, mode)
    ensures var step := NextStep(true, s, mode, prev);
      var t := Strip(s, mode, prev);
      && t != "" && t[0] == s[0] && !step.mode.Line?
      && t == s[..step.taken] + Strip(s[step.taken..], step.mode, s[step.taken - 1])
      && NextStep(false, t, Seen(mode), prev) == step.(mode := Seen(step.mode))
  {
    hide Strip;
    SeenBehind(s, mode, prev);
    StepIgnores(mode, prev, s[0], CharAt(s, 1), CharAt(Strip(s, mode, prev), 1));
  }

  /** At top level the second pass never looks back. */
  lemma TopForgets(t: string, p: char, q: char, current: string)
    ensures Split(t, Top, p, current) == Split(t, Top, q, current)
  {
  }

  lemma SplitStep(t: string, mode: Mode, prev: char, current: string)
    requires t != "" && !(mode.Top? && t[0] == ';')
    ensures var step := NextStep(false, t, mode, prev);
      Split(t, mode, prev, current) == Split(t[step.taken..], step.mode, t[step.taken - 1], current + t[..step.taken])
  {
    hide NextStep;
  }

  lemma FusedStep(s: string, mode: Mode, prev: char, current: string)
    requires s != "" && !(mode.Top? && s[0] == ';')
    ensures var step := NextStep(true, s, mode, prev);
      Fused(s, mode, prev, current) == Fused(s[step.taken..], step.mode, s[step.taken - 1], current + KeptText(s[..step.taken], step.mode))
  {
    hide NextStep;
  }

  lemma TerminatorStep(s: string, prev: char, current: string)
    requires s != "" && s[0] == ';'
    ensures Strip(s, Top, prev) == ";" + Strip(s[1..], Top, ';')
    ensures Fused(s, Top, prev, current) == Emit(current) + Fused(s[1..], Top, ';', "")
  {
    assert s[..1] == ";";
  }

  lemma TerminatorSplits(t: string, prev: char, current: string)
    ensures Split(";" + t, Top, prev, current) == Emit(current) + Split(t, Top, ';', "")
  {
    assert (";" + t)[1..] == t;
  }

  /** On every input the two passes are one. */
  lemma {:induction false} TwoPassesAreOne(s: string, mode: Mode, prev: char, current: string)
    ensures Split(Strip(s, mode, prev), Seen(mode), prev, current) == Fused(s, mode, prev, current)
    decreases |s|
  {
    hide NextStep, Strip, Split, Fused, Emit;
    if s == "" {
      BothEnd(mode, prev, current);
    } else {
      var step := NextStep(true, s, mode, prev);
      var rest, last := s[step.taken..], s[step.taken - 1];
      if mode.Top? && s[0] == ';' {
        TerminatorStep(s, prev, current);
        TerminatorSplits(Strip(s[1..], Top, ';'), prev, current);
        TwoPassesAreOne(s[1..], Top, ';', "");
      } else {
        FusedStep(s, mode, prev, current);
        if Drops(s, mode) {
          StripStep(s, mode, prev);
          DropsAreLines(s, mode, prev);
          assert "" + Strip(rest, Line, last) == Strip(rest, Line, last) && current + "" == current;
          TwoPassesAreOne(rest, Line, last, current);
          TopForgets(Strip(rest, Line, last), prev, last, current);
        } else {
          NextIsTheSame(s, mode, prev);
          var t := Strip(s, mode, prev);
          SeenNotTerminator(s, mode, t);
          SplitStep(t, Seen(mode), prev, current);
          hide Drops, Seen;
          assert t[step.taken..] == Strip(rest, step.mode, last) && t[..step.taken] == s[..step.taken] && t[step.taken - 1] == last;
          TwoPassesAreOne(rest, step.mode, last, current + s[..step.taken]);
        }
      }
    }
  }

  lemma BothEnd(mode: Mode, prev: char, current: string)
    ensures Split(Strip("", mode, prev), Seen(mode), prev, current) == Fused("", mode, prev, current)
  {
  }

  lemma SeenNotTerminator(s: string, mode: Mode, t: string)
    requires s != "" && t != "" && t[0] == s[0] && !Drops(s, mode) && !(mode.Top? && s[0] == ';')
    ensures !(Seen(mode).Top? && t[0] == ';')
  {
  }

  /** `extractExecutableStatements` is the single pass. */
  lemma ExtractIsOnePass(sql: string)
    ensures ExtractStatements(sql) == Fused(sql, Top, ' ', "")
  {
    TwoPassesAreOne(sql, Top, ' ', "");
  }
}
