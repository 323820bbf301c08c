/**
 The projection-index normaliser: peeling wrapping parentheses, splitting lists, spacing commas, and what
 each of them keeps of a normal, balanced text.
 */
module Projection {
  import opened Wrappers
  import opened SqlText
  import opened KeyClause

  // ----- whitespace -----

  lemma {:induction false} TrimStartShrinks(s: string)
    ensures |TrimStart(s)| <= |s| && (s != "" && IsSpace(s[0]) ==> |TrimStart(s)| < |s|)
    ensures TrimStart(s) == s[|s| - |TrimStart(s)|..]
  {
    if s != "" && IsSpace(s[0]) {
      TrimStartShrinks(s[1..]);
    }
  }

  /** Every run of whitespace becomes one space. */
  function Collapse(s: string): string
    decreases |s|
  {
    if s == "" then ""
    else if IsSpace(s[0]) then
      TrimStartShrinks(s);
      " " + Collapse(TrimStart(s))
    else [s[0]] + Collapse(s[1..])
  }

  /** `normalizeSQLFragment`. */
  function Fragment(s: string): string {
    Trim(Collapse(s))
  }

  /** Whitespace is lone spaces. */
  predicate Lone(s: string) {
    forall i :: 0 <= i < |s| && IsSpace(s[i]) ==> s[i] == ' ' && (i + 1 < |s| ==> !IsSpace(s[i + 1]))
  }

  /** ... and only between other characters. */
  predicate Normal(s: string) {
    Lone(s) && (s != "" ==> !IsSpace(s[0]) && !IsSpace(s[|s| - 1]))
  }

  lemma {:induction false} CollapseIsLone(s: string)
    ensures Lone(Collapse(s)) && |Collapse(s)| <= |s|
    ensures s != "" ==> Collapse(s) != "" && IsSpace(Collapse(s)[0]) == IsSpace(s[0])
    decreases |s|
  {
    if s != "" {
      if IsSpace(s[0]) {
        TrimStartShrinks(s);
        TrimStartIsDone(s);
        CollapseIsLone(TrimStart(s));
      } else {
        CollapseIsLone(s[1..]);
      }
    }
  }

  lemma {:induction false} LoneIsCollapsed(s: string)
    requires Lone(s)
    ensures Collapse(s) == s
    decreases |s|
  {
    if s != "" {
      assert s == [s[0]] + s[1..];
      assert Lone(s[1..]);
      if IsSpace(s[0]) {
        assert s[1..] == "" || !IsSpace(s[1..][0]);
        assert TrimStart(s) == s[1..];
      }
      LoneIsCollapsed(s[1..]);
    }
  }

  lemma TrimIsSlice(s: string) returns (i: nat, j: nat)
    ensures i <= j <= |s| && Trim(s) == s[i..j]
  {
    TrimStartShrinks(s);
    TrimEndIsDone(TrimStart(s));
    i := |s| - |TrimStart(s)|;
    j := i + |Trim(s)|;
    assert Trim(s) == TrimStart(s)[..|Trim(s)|];
  }

  lemma TrimmedEnds(s: string)
    ensures Trim(s) != "" ==> !IsSpace(Trim(s)[0]) && !IsSpace(Trim(s)[|Trim(s)| - 1])
  {
    TrimStartIsDone(s);
    TrimEndIsDone(TrimStart(s));
  }

  /** A trimmed slice of a normal text is normal. */
  lemma SliceIsNormal(s: string, i: nat, j: nat)
    requires Lone(s) && i <= j <= |s|
    ensures Normal(Trim(s[i..j]))
  {
    var m := s[i..j];
    TrimmedEnds(m);
    var a, b := TrimIsSlice(m);
    hide Trim;
    forall k | 0 <= k < b - a && IsSpace(m[a..b][k]) ensures m[a..b][k] == ' ' && (k + 1 < b - a ==> !IsSpace(m[a..b][k + 1])) {
      assert m[a..b][k] == s[i + a + k];
      if k + 1 < b - a {
        assert m[a..b][k + 1] == s[i + a + k + 1];
      }
    }
  }

  lemma FragmentIsNormal(s: string)
    ensures Normal(Fragment(s)) && |Fragment(s)| <= |s|
  {
    CollapseIsLone(s);
    var c := Collapse(s);
    assert c[0..|c|] == c;
    var i, j := TrimIsSlice(c);
    SliceIsNormal(c, 0, |c|);
  }

  lemma NormalIsFragment(s: string)
    requires Normal(s)
    ensures Fragment(s) == s
  {
    LoneIsCollapsed(s);
    TrimOfTrimmed(s);
  }

  // ----- states -----

  /** Two states that read the same from here on. */
  predicate Same(a: Lex, b: Lex) {
    a.depth == b.depth && a.quote == b.quote && (a.quote.Some? ==> a.prev == b.prev)
  }

  /** A closing parenthesis without an opening one. */
  predicate Underflows(l: Lex, c: char) {
    l.quote.None? && l.depth == 0 && c == ')'
  }

  predicate Nested(s: string, l: Lex) {
    s == "" || (Nested(s[..|s| - 1], l) && !Underflows(After(s[..|s| - 1], l), s[|s| - 1]))
  }

  predicate AtTop(l: Lex) {
    l.depth == 0 && l.quote.None?
  }

  /** Parentheses match and quotes are closed. */
  predicate Balanced(s: string) {
    Nested(s, Fresh(None)) && AtTop(After(s, Fresh(None)))
  }

  lemma NestedLast(s: string, c: char, l: Lex)
    ensures Nested(s + [c], l) <==> Nested(s, l) && !Underflows(After(s, l), c)
  {
    assert (s + [c])[..|s|] == s;
  }

  lemma {:induction false} SameRuns(s: string, a: Lex, b: Lex)
    requires Same(a, b)
    ensures Same(After(s, a), After(s, b))
    ensures Whole(s, a) <==> Whole(s, b)
    ensures Nested(s, a) <==> Nested(s, b)
  {
    if s != "" {
      SameRuns(s[..|s| - 1], a, b);
    }
  }

  lemma {:induction false} Runs(a: string, b: string, l: Lex)
    ensures After(a + b, l) == After(b, After(a, l))
    ensures Whole(a + b, l) <==> Whole(a, l) && Whole(b, After(a, l))
    ensures Nested(a + b, l) <==> Nested(a, l) && Nested(b, After(a, l))
  {
    if b == "" {
      assert a + b == a;
    } else {
      var front, last := b[..|b| - 1], b[|b| - 1];
      assert a + b == (a + front) + [last];
      Runs(a, front, l);
      WholeLast(a + front, last, l);
      NestedLast(a + front, last, l);
    }
  }

  /** Inside more parentheses everything is read the same, and no comma separates. */
  lemma {:induction false} Deeper(s: string, l: Lex)
    requires Nested(s, l)
    ensures After(s, l.(depth := l.depth + 1)) == After(s, l).(depth := After(s, l).depth + 1)
    ensures Nested(s, l.(depth := l.depth + 1)) && Whole(s, l.(depth := l.depth + 1))
  {
    if s != "" {
      Deeper(s[..|s| - 1], l);
    }
  }

  /** A balanced text in parentheses: balanced, and one token whatever it holds. */
  lemma Parenthesised(m: string)
    requires Balanced(m)
    ensures Balanced("(" + m + ")") && Whole("(" + m + ")", Fresh(None))
  {
    var l := Fresh(None);
    var inside := Lex(1, None, Some('('));
    assert After("(", l) == inside by {
      assert "(" == "" + "(" && "("[..0] == "";
    }
    assert Whole("(", l) && Nested("(", l) by {
      assert "("[..0] == "";
    }
    Deeper(m, l);
    SameRuns(m, Lex(1, None, None), inside);
    Runs("(", m, l);
    WholeLast("(" + m, ')', l);
    NestedLast("(" + m, ')', l);
  }

  // ----- peeling wrapping parentheses -----

  /** The outer parentheses belong together and enclose everything. */
  predicate Wrapped(s: string) {
    |s| >= 2 && s[0] == '(' && s[|s| - 1] == ')' && Balanced(s[1..|s| - 1])
  }

  function Strip(s: string): string {
    if Wrapped(s) then Trim(s[1..|s| - 1]) else s
  }

  lemma TrimShrinks(s: string)
    ensures |Trim(s)| <= |s|
  {
    var i, j := TrimIsSlice(s);
  }

  function Peel(s: string): string
    decreases |s|
  {
    if Wrapped(s) then
      TrimShrinks(s[1..|s| - 1]);
      Peel(Strip(s))
    else s
  }

  /** How far the scan of `stripWrappingParens` has come, in terms of the text inside the first parenthesis. */
  ghost predicate Scanned(input: string, i: nat, depth: nat, quote: Option<char>)
    requires 1 <= i <= |input|
  {
    var l := After(input[1..i], Fresh(None));
    Nested(input[1..i], Fresh(None)) && depth == l.depth + 1 && quote == l.quote && (i > 1 ==> l.prev == Some(input[i - 1]))
  }

  lemma ScanStep(input: string, i: nat, depth: nat, quote: Option<char>)
    requires 1 <= i < |input| && Scanned(input, i, depth, quote)
    ensures var l := After(input[1..i], Fresh(None));
      && input[1..i + 1] == input[1..i] + [input[i]]
      && After(input[1..i + 1], Fresh(None)) == Next(l, input[i])
      && (Nested(input[1..i + 1], Fresh(None)) <==> !(quote.None? && depth == 1 && input[i] == ')'))
  {
    var l := After(input[1..i], Fresh(None));
    assert input[1..i + 1] == input[1..i] + [input[i]];
    WholeLast(input[1..i], input[i], Fresh(None));
    NestedLast(input[1..i], input[i], Fresh(None));
  }

  lemma {:induction false} NestedPrefix(s: string, k: nat, l: Lex)
    requires k <= |s| && Nested(s, l)
    ensures Nested(s[..k], l)
  {
    if k < |s| {
      assert s[..|s| - 1][..k] == s[..k];
      NestedPrefix(s[..|s| - 1], k, l);
    } else {
      assert s[..k] == s;
    }
  }

  /** The first closing of the outer parenthesis: at the very end it wraps everything, earlier it does not. */
  lemma FirstClosing(input: string, i: nat)
    requires 1 <= i < |input| && input[0] == '(' && input[|input| - 1] == ')' && Scanned(input, i, 1, None) && input[i] == ')'
    ensures Wrapped(input) <==> i == |input| - 1
  {
    if i < |input| - 1 {
      var m := input[1..|input| - 1];
      ScanStep(input, i, 1, None);
      assert m[..i] == input[1..i + 1];
      if Nested(m, Fresh(None)) {
        NestedPrefix(m, i, Fresh(None));
      }
    }
  }

  lemma NeverCloses(input: string, depth: nat, quote: Option<char>)
    requires |input| >= 2 && input[|input| - 1] == ')' && Scanned(input, |input|, depth, quote)
    ensures !Wrapped(input)
  {
    var n := |input| - 1;
    var m := input[1..n];
    assert input[1..|input|] == m + [')'];
    WholeLast(m, ')', Fresh(None));
    NestedLast(m, ')', Fresh(None));
  }

  /** `stripWrappingParens`. */
  method StripWrappingParens(input: string) returns (out: string)
    ensures out == Strip(input)
  {
    hide Trim, Balanced, Scanned, After, Nested;
    out := input;
    if |input| >= 2 && input[0] == '(' && input[|input| - 1] == ')' {
      var depth, quote, i, closed := 1, None, 1, false;
      ScanStart(input);
      while i < |input| && !closed
        invariant 1 <= i <= |input|
        invariant !closed ==> depth >= 1 && Scanned(input, i, depth, quote) && out == input
        invariant closed ==> out == Strip(input)
        decreases |input| - i, !closed
      {
        var ch := input[i];
        if quote.None? && ch == ')' && depth == 1 {
          FirstClosing(input, i);
          if i == |input| - 1 {
            out := Trim(input[1..|input| - 1]);
          }
          closed := true;
        } else {
          ScanOn(input, i, depth, quote);
          if quote.Some? {
            if ch == quote.value && input[i - 1] != '\\' {
              quote := None;
            }
          } else if IsQuote(ch) {
            quote := Some(ch);
          } else if ch == '(' {
            depth := depth + 1;
          } else if ch == ')' {
            depth := depth - 1;
          }
          i := i + 1;
        }
      }
      if !closed {
        NeverCloses(input, depth, quote);
      }
    } else {
      NotWrapped(input);
    }
  }

  lemma NotWrapped(input: string)
    requires !(|input| >= 2 && input[0] == '(' && input[|input| - 1] == ')')
    ensures !Wrapped(input)
  {
  }

  lemma ScanStart(input: string)
    requires |input| >= 2
    ensures Scanned(input, 1, 1, None)
  {
    assert input[1..1] == "";
  }

  lemma ScanOn(input: string, i: nat, depth: nat, quote: Option<char>)
    requires 1 <= i < |input| && depth >= 1 && Scanned(input, i, depth, quote) && !(quote.None? && input[i] == ')' && depth == 1)
    ensures var ch := input[i];
      if quote.Some? then Scanned(input, i + 1, depth, if ch == quote.value && input[i - 1] != '\\' then None else quote)
      else if IsQuote(ch) then Scanned(input, i + 1, depth, Some(ch))
      else Scanned(input, i + 1, if ch == '(' then depth + 1 else if ch == ')' then depth - 1 else depth, None)
  {
    ScanStep(input, i, depth, quote);
    hide Nested;
  }

  // ----- one space behind every comma -----

  function SpaceFrom(s: string, l: Lex): string
    decreases |s|
  {
    if s == "" then ""
    else if l.quote.None? && s[0] == ',' then
      if |s| > 1 && s[1] == ' ' then ", " + SpaceFrom(s[2..], Next(Next(l, ','), ' '))
      else ", " + SpaceFrom(s[1..], Next(l, ','))
    else [s[0]] + SpaceFrom(s[1..], Next(l, s[0]))
  }

  function SpaceAfterCommas(s: string): string {
    SpaceFrom(s, Fresh(None))
  }

  // ----- the normaliser -----

  function JoinCommas(parts: seq<string>): string {
    if parts == [] then "" else if |parts| == 1 then parts[0]
    else JoinCommas(parts[..|parts| - 1]) + ", " + parts[|parts| - 1]
  }

  lemma {:induction false} PeelShrinks(s: string)
    ensures |Peel(s)| <= |s| && !Wrapped(Peel(s))
    ensures Normal(s) ==> Normal(Peel(s))
    decreases |s|
  {
    if Wrapped(s) {
      var m := s[1..|s| - 1];
      TrimShrinks(m);
      if Normal(s) {
        SliceIsNormal(s, 1, |s| - 1);
      }
      hide Trim, Normal, Balanced;
      PeelShrinks(Strip(s));
    }
  }

  lemma {:induction false} TokensAreShort(s: string, l: Lex, current: string, t: string)
    requires t in SplitFrom(s, l, current)
    ensures |t| <= |current| + |s| - (if |SplitFrom(s, l, current)| >= 2 then 1 else 0)
    decreases |s|
  {
    TrimShrinks(current);
    hide Trim;
    if s != "" {
      if !Separates(l, s[0]) {
        TokensAreShort(s[1..], Next(l, s[0]), current + [s[0]], t);
      } else if t in SplitFrom(s[1..], Fresh(Some(',')), "") {
        TokensAreShort(s[1..], Fresh(Some(',')), "", t);
      }
    }
  }

  /** The elements of a list are shorter than the list. */
  lemma PartsShrink(index: string)
    ensures var parts := SplitCommas(Peel(Fragment(index)));
      |parts| >= 2 ==> forall i :: 0 <= i < |parts| ==> |parts[i]| < |index|
  {
    FragmentIsNormal(index);
    PeelShrinks(Fragment(index));
    hide Fragment, Peel, SplitFrom, Normal, Wrapped;
    var e := Peel(Fragment(index));
    var parts := SplitCommas(e);
    forall i | 0 <= i < |parts| && |parts| >= 2 ensures |parts[i]| < |index| {
      TokensAreShort(e, Fresh(None), "", parts[i]);
    }
  }

  function NormalizeAll(parts: seq<string>, bound: nat): (r: seq<string>)
    requires forall i :: 0 <= i < |parts| ==> |parts[i]| < bound
    ensures |r| == |parts|
    decreases bound, 0, |parts|
  {
    if parts == [] then []
    else NormalizeAll(parts[..|parts| - 1], bound) + [Normalize(parts[|parts| - 1])]
  }

  /** `normalizeProjectionIndex`: one element is bare, several are a tuple of normalised elements. */
  function Normalize(index: string): string
    decreases |index|, 1, 0
  {
    var e := Peel(Fragment(index));
    var parts := SplitCommas(e);
    if |parts| == 0 then ""
    else if |parts| == 1 then SpaceAfterCommas(e)
    else
      PartsShrink(index);
      "(" + JoinCommas(NormalizeAll(parts, |index|)) + ")"
  }

  // ----- the loops -----

  lemma SpaceAt(s: string, i: nat, l: Lex)
    requires i < |s|
    ensures SpaceFrom(s[i..], l)
      == if l.quote.None? && s[i] == ',' then
           if i + 1 < |s| && s[i + 1] == ' ' then ", " + SpaceFrom(s[i + 2..], Next(Next(l, ','), ' '))
           else ", " + SpaceFrom(s[i + 1..], Next(l, ','))
         else [s[i]] + SpaceFrom(s[i + 1..], Next(l, s[i]))
  {
    assert s[i..][1..] == s[i + 1..];
    if i + 1 < |s| {
      assert s[i..][1] == s[i + 1] && s[i..][2..] == s[i + 2..];
    }
  }

  /** Only the open quote and what precedes inside it matter for spacing. */
  lemma {:induction false} SpaceForgets(s: string, a: Lex, b: Lex)
    requires a.quote == b.quote && (a.quote.Some? ==> a.prev == b.prev)
    ensures SpaceFrom(s, a) == SpaceFrom(s, b)
    decreases |s|
  {
    if s != "" {
      if a.quote.None? && s[0] == ',' {
        if |s| > 1 && s[1] == ' ' {
          SpaceForgets(s[2..], Next(Next(a, ','), ' '), Next(Next(b, ','), ' '));
        } else {
          SpaceForgets(s[1..], Next(a, ','), Next(b, ','));
        }
      } else {
        SpaceForgets(s[1..], Next(a, s[0]), Next(b, s[0]));
      }
    }
  }

  function PrevOf(input: string, i: nat): Option<char>
    requires i <= |input|
  {
    if i > 0 then Some(input[i - 1]) else None
  }

  lemma SpaceOn(input: string, i: nat, quote: Option<char>)
    requires i < |input|
    ensures var l := Lex(0, quote, PrevOf(input, i));
      SpaceFrom(input[i..], l)
      == if quote.None? && input[i] == ',' then
           if i + 1 < |input| && input[i + 1] == ' ' then ", " + SpaceFrom(input[i + 2..], Lex(0, None, PrevOf(input, i + 2)))
           else ", " + SpaceFrom(input[i + 1..], Lex(0, None, PrevOf(input, i + 1)))
         else [input[i]] + SpaceFrom(input[i + 1..], Lex(0, Next(l, input[i]).quote, PrevOf(input, i + 1)))
  {
    var l := Lex(0, quote, PrevOf(input, i));
    SpaceAt(input, i, l);
    hide SpaceFrom;
    SpaceForgets(input[i + 1..], Next(l, input[i]), Lex(0, Next(l, input[i]).quote, PrevOf(input, i + 1)));
    if i + 1 < |input| && quote.None? && input[i] == ',' && input[i + 1] == ' ' {
      SpaceForgets(input[i + 2..], Next(Next(l, ','), ' '), Lex(0, Next(Next(l, ','), ' ').quote, PrevOf(input, i + 2)));
    }
  }

  function QuoteAfter(quote: Option<char>, prev: Option<char>, ch: char): Option<char> {
    match quote
    case Some(q) => if ch == q && prev != Some('\\') then None else quote
    case None => if IsQuote(ch) then Some(ch) else None
  }

  /** What is still to be spaced when the loop stands at `i`. */
  function Left(input: string, i: nat, quote: Option<char>): string
    requires i <= |input|
  {
    SpaceFrom(input[i..], Lex(0, quote, PrevOf(input, i)))
  }

  /** One turn of the loop. */
  lemma SpaceTurn(input: string, i: nat, quote: Option<char>, out: string)
    requires i < |input|
    ensures out + Left(input, i, quote)
      == if quote.None? && input[i] == ',' then
           if i + 1 < |input| && input[i + 1] == ' ' then (out + ", ") + Left(input, i + 2, None)
           else (out + ", ") + Left(input, i + 1, None)
         else (out + [input[i]]) + Left(input, i + 1, QuoteAfter(quote, PrevOf(input, i), input[i]))
  {
    SpaceOn(input, i, quote);
    hide SpaceFrom;
    if quote.None? && input[i] == ',' {
      SqlText.Assoc(out, ", ", Left(input, i + 1, None));
      if i + 1 < |input| {
        SqlText.Assoc(out, ", ", Left(input, i + 2, None));
      }
    } else {
      SqlText.Assoc(out, [input[i]], Left(input, i + 1, QuoteAfter(quote, PrevOf(input, i), input[i])));
    }
  }

  /** `spaceAfterCommas`. */
  method SpaceCommas(input: string) returns (out: string)
    ensures out == SpaceAfterCommas(input)
  {
    out := "";
    var quote, i := None, 0;
    SpaceStart(input);
    hide Left, SpaceAfterCommas;
    while i < |input|
      invariant i <= |input|
      invariant out + Left(input, i, quote) == SpaceAfterCommas(input)
    {
      SpaceTurn(input, i, quote, out);
      var ch := input[i];
      if quote.Some? {
        out := out + [ch];
        if ch == quote.value && !(i > 0 && input[i - 1] == '\\') {
          quote := None;
        }
        i := i + 1;
      } else if IsQuote(ch) {
        quote := Some(ch);
        out := out + [ch];
        i := i + 1;
      } else if ch == ',' {
        out := out + ", ";
        i := if i + 1 < |input| && input[i + 1] == ' ' then i + 2 else i + 1;
      } else {
        out := out + [ch];
        i := i + 1;
      }
    }
    NothingToSpace(input, quote);
    assert out + "" == out;
  }

  lemma SpaceStart(input: string)
    ensures "" + Left(input, 0, None) == SpaceAfterCommas(input)
  {
    assert input[0..] == input;
  }

  lemma NothingToSpace(input: string, quote: Option<char>)
    ensures Left(input, |input|, quote) == ""
  {
  }

  /** `normalizeProjectionIndex` with its peeling loop and its recursion over the elements. */
  method NormalizeProjectionIndex(index: string) returns (out: string)
    ensures out == Normalize(index)
    decreases |index|
  {
    var expression := Fragment(index);
    FragmentIsNormal(index);
    PartsShrink(index);
    hide Fragment, Wrapped, Trim, SplitFrom, Normal, SpaceFrom;
    var stripped := StripWrappingParens(expression);
    while stripped != expression
      invariant stripped == Strip(expression) && Peel(expression) == Peel(Fragment(index))
      decreases |expression|
    {
      PeelStep(expression);
      expression := stripped;
      stripped := StripWrappingParens(expression);
    }
    PeelDone(expression);
    var parts := SplitTopLevelComma(expression);
    if |parts| == 0 {
      out := "";
    } else if |parts| == 1 {
      out := SpaceCommas(expression);
    } else {
      var elements: seq<string> := [];
      for i := 0 to |parts|
        invariant elements == NormalizeAll(parts[..i], |index|)
      {
        assert parts[..i + 1][..i] == parts[..i];
        var element := NormalizeProjectionIndex(parts[i]);
        elements := elements + [element];
      }
      assert parts[..|parts|] == parts;
      out := "(" + JoinCommas(elements) + ")";
    }
  }

  lemma PeelStep(s: string)
    ensures Peel(Strip(s)) == Peel(s) && (Strip(s) != s ==> |Strip(s)| < |s|)
  {
    if Wrapped(s) {
      TrimShrinks(s[1..|s| - 1]);
    }
  }

  lemma PeelDone(s: string)
    requires Strip(s) == s
    ensures Peel(s) == s
  {
    if Wrapped(s) {
      TrimShrinks(s[1..|s| - 1]);
    }
  }

  // ----- spacing keeps structure -----

  lemma RunsFirst(c: char, s: string, l: Lex)
    ensures After([c] + s, l) == After(s, Next(l, c))
    ensures Whole([c] + s, l) <==> !Separates(l, c) && Whole(s, Next(l, c))
    ensures Nested([c] + s, l) <==> !Underflows(l, c) && Nested(s, Next(l, c))
  {
    Runs([c], s, l);
    assert [c][..0] == "";
  }

  lemma CommaSpace(s: string, l: Lex)
    requires l.quote.None?
    ensures Same(After(", " + s, l), After(s, Next(l, ',')))
    ensures Whole(", " + s, l) <==> l.depth > 0 && Whole(s, Next(l, ','))
    ensures Nested(", " + s, l) <==> Nested(s, Next(l, ','))
  {
    assert ", " + s == [','] + ([' '] + s);
    RunsFirst(',', [' '] + s, l);
    RunsFirst(' ', s, Next(l, ','));
    SameRuns(s, Next(Next(l, ','), ' '), Next(l, ','));
  }

  /** Spaces behind commas change neither nesting, nor quotes, nor separators. */
  lemma {:induction false} SpacingKeeps(s: string, l: Lex, k: Lex)
    requires Same(l, k)
    ensures Same(After(SpaceFrom(s, l), k), After(s, l))
    ensures Whole(SpaceFrom(s, l), k) <==> Whole(s, l)
    ensures Nested(SpaceFrom(s, l), k) <==> Nested(s, l)
    decreases |s|
  {
    if s == "" {
    } else if l.quote.None? && s[0] == ',' {
      hide After, Whole, Nested;
      if |s| > 1 && s[1] == ' ' {
        var rest := s[2..];
        assert s == ", " + rest;
        CommaSpace(rest, l);
        CommaSpace(SpaceFrom(rest, Next(Next(l, ','), ' ')), k);
        SameRuns(rest, Next(l, ','), Next(Next(l, ','), ' '));
        SpacingKeeps(rest, Next(Next(l, ','), ' '), Next(k, ','));
      } else {
        var rest := s[1..];
        assert s == [','] + rest;
        RunsFirst(',', rest, l);
        CommaSpace(SpaceFrom(rest, Next(l, ',')), k);
        SpacingKeeps(rest, Next(l, ','), Next(k, ','));
      }
    } else {
      hide After, Whole, Nested;
      var rest := s[1..];
      assert s == [s[0]] + rest;
      RunsFirst(s[0], rest, l);
      RunsFirst(s[0], SpaceFrom(rest, Next(l, s[0])), k);
      SpacingKeeps(rest, Next(l, s[0]), Next(k, s[0]));
    }
  }

  /** Spacing twice is spacing once. */
  lemma {:induction false} SpacingIsIdempotent(s: string, l: Lex, k: Lex)
    requires Same(l, k)
    ensures SpaceFrom(SpaceFrom(s, l), k) == SpaceFrom(s, l)
    decreases |s|
  {
    if s == "" {
    } else if l.quote.None? && s[0] == ',' {
      var after := if |s| > 1 && s[1] == ' ' then Next(Next(l, ','), ' ') else Next(l, ',');
      var rest := if |s| > 1 && s[1] == ' ' then s[2..] else s[1..];
      var r, out := SpaceFrom(rest, after), SpaceFrom(s, l);
      assert out == ", " + r;
      assert out[0] == ',' && out[1] == ' ' && out[2..] == r;
      SpacingIsIdempotent(rest, after, Next(Next(k, ','), ' '));
    } else {
      var r, out := SpaceFrom(s[1..], Next(l, s[0])), SpaceFrom(s, l);
      assert out == [s[0]] + r;
      assert out[0] == s[0] && out[1..] == r;
      SpacingIsIdempotent(s[1..], Next(l, s[0]), Next(k, s[0]));
    }
  }

  lemma {:induction false} SpacingStaysLone(s: string, l: Lex)
    requires Lone(s)
    ensures Lone(SpaceFrom(s, l))
    ensures s != "" ==> SpaceFrom(s, l) != "" && SpaceFrom(s, l)[0] == s[0]
    decreases |s|
  {
    if s == "" {
    } else if l.quote.None? && s[0] == ',' {
      var after := if |s| > 1 && s[1] == ' ' then Next(Next(l, ','), ' ') else Next(l, ',');
      var rest := if |s| > 1 && s[1] == ' ' then s[2..] else s[1..];
      assert forall i :: 0 <= i < |rest| ==> rest[i] == s[i + |s| - |rest|];
      assert Lone(rest) && (rest != "" ==> !IsSpace(rest[0]));
      SpacingStaysLone(rest, after);
      BehindComma(SpaceFrom(rest, after));
    } else {
      var rest := s[1..];
      assert forall i :: 0 <= i < |rest| ==> rest[i] == s[i + 1];
      SpacingStaysLone(rest, Next(l, s[0]));
      BehindChar(s[0], SpaceFrom(rest, Next(l, s[0])));
    }
  }

  lemma BehindComma(r: string)
    requires Lone(r) && (r != "" ==> !IsSpace(r[0]))
    ensures Lone(", " + r)
  {
    var out := ", " + r;
    assert forall i :: 2 <= i < |out| ==> out[i] == r[i - 2];
  }

  lemma BehindChar(c: char, r: string)
    requires Lone(r) && (IsSpace(c) ==> c == ' ' && (r != "" ==> !IsSpace(r[0])))
    ensures Lone([c] + r)
  {
    var out := [c] + r;
    assert forall i :: 1 <= i < |out| ==> out[i] == r[i - 1];
  }

  /** The text does not end in a comma outside quotes. */
  predicate NoTrailingComma(s: string, l: Lex) {
    s != "" && !(s[|s| - 1] == ',' && After(s[..|s| - 1], l).quote.None?)
  }

  lemma NoTrailingBehind(s: string, l: Lex)
    requires |s| > 1 && NoTrailingComma(s, l)
    ensures NoTrailingComma(s[1..], Next(l, s[0]))
  {
    var rest := s[1..];
    assert s[..|s| - 1] == [s[0]] + rest[..|rest| - 1];
    RunsFirst(s[0], rest[..|rest| - 1], l);
  }

  lemma LoneBehind(s: string)
    requires s != "" && Lone(s)
    ensures Lone(s[1..])
  {
    assert forall i :: 0 <= i < |s[1..]| ==> s[1..][i] == s[i + 1];
  }

  lemma {:induction false} LastStays(s: string, l: Lex)
    requires NoTrailingComma(s, l) && Lone(s) && !IsSpace(s[|s| - 1])
    ensures SpaceFrom(s, l) != "" && SpaceFrom(s, l)[|SpaceFrom(s, l)| - 1] == s[|s| - 1]
    decreases |s|
  {
    if |s| == 1 {
      assert s[..0] == "";
    } else {
      var rest := s[1..];
      NoTrailingBehind(s, l);
      LoneBehind(s);
      hide NoTrailingComma, Lone, After;
      if l.quote.None? && s[0] == ',' && s[1] == ' ' {
        assert |rest| > 1;
        NoTrailingBehind(rest, Next(l, ','));
        LoneBehind(rest);
        assert rest[1..] == s[2..];
        LastStays(s[2..], Next(Next(l, ','), ' '));
      } else {
        LastStays(rest, Next(l, s[0]));
      }
    }
  }

  // ----- a lone element -----

  lemma SpaceFirst(c: char, s: string, l: Lex)
    ensures SpaceFrom([c] + s, l)
      == if l.quote.None? && c == ',' then
           if s != "" && s[0] == ' ' then ", " + SpaceFrom(s[1..], Next(Next(l, ','), ' ')) else ", " + SpaceFrom(s, Next(l, ','))
         else [c] + SpaceFrom(s, Next(l, c))
  {
    var all := [c] + s;
    assert all[1..] == s;
    if s != "" {
      assert all[1] == s[0] && all[2..] == s[1..];
    }
  }

  lemma {:induction false} SpaceRuns(a: string, c: char, l: Lex)
    requires c != ' '
    ensures SpaceFrom(a + [c], l) == SpaceFrom(a, l) + SpaceFrom([c], After(a, l))
    decreases |a|
  {
    hide SpaceFrom, After;
    if a == "" {
      assert a + [c] == [c];
      EmptySpace(l);
      assert "" + SpaceFrom([c], l) == SpaceFrom([c], l);
    } else {
      var rest := a[1..];
      assert a == [a[0]] + rest;
      RunsFirst(a[0], rest, l);
      assert a + [c] == [a[0]] + (rest + [c]);
      SpaceFirst(a[0], rest, l);
      SpaceFirst(a[0], rest + [c], l);
      if l.quote.None? && a[0] == ',' && rest != "" && rest[0] == ' ' {
        assert rest == [' '] + rest[1..] && (rest + [c])[1..] == rest[1..] + [c];
        RunsFirst(' ', rest[1..], Next(l, ','));
        SpaceRuns(rest[1..], c, Next(Next(l, ','), ' '));
        SqlText.Assoc(", ", SpaceFrom(rest[1..], Next(Next(l, ','), ' ')), SpaceFrom([c], After(a, l)));
      } else {
        SpaceRuns(rest, c, Next(l, a[0]));
        SqlText.Assoc(", ", SpaceFrom(rest, Next(l, a[0])), SpaceFrom([c], After(a, l)));
        SqlText.Assoc([a[0]], SpaceFrom(rest, Next(l, a[0])), SpaceFrom([c], After(a, l)));
      }
    }
  }

  lemma EmptySpace(l: Lex)
    ensures SpaceFrom("", l) == "" && After("", l) == l
  {
  }

  /** A balanced element with no top-level comma does not end in one. */
  lemma WholeEndsWell(e: string)
    requires e != "" && Whole(e, Fresh(None)) && Balanced(e)
    ensures NoTrailingComma(e, Fresh(None))
  {
  }

  /** Spacing an element neither wraps nor unwraps it. */
  lemma SpacingKeepsWrapping(e: string)
    requires e != "" && Normal(e) && NoTrailingComma(e, Fresh(None))
    ensures Wrapped(SpaceAfterCommas(e)) ==> Wrapped(e)
  {
    var y := SpaceAfterCommas(e);
    SpacingStaysLone(e, Fresh(None));
    LastStays(e, Fresh(None));
    if Wrapped(y) {
      assert e[0] == '(' && e[|e| - 1] == ')';
      var m := e[1..|e| - 1];
      SpacedInside(e, m);
      SpacingKeeps(m, Fresh(None), Fresh(None));
    }
  }

  lemma SpacedInside(e: string, m: string)
    requires |e| >= 2 && e[0] == '(' && e[|e| - 1] == ')' && m == e[1..|e| - 1]
    ensures |SpaceAfterCommas(e)| >= 2 && SpaceAfterCommas(e)[1..|SpaceAfterCommas(e)| - 1] == SpaceAfterCommas(m)
  {
    var inside := Next(Fresh(None), '(');
    assert e[1..] == m + [')'];
    SpaceRuns(m, ')', inside);
    SpaceForgets(m, inside, Fresh(None));
    assert SpaceFrom([')'], After(m, inside)) == [')'];
    assert SpaceAfterCommas(e) == ['('] + (SpaceAfterCommas(m) + [')']);
  }

  /** What normalising yields for a lone element, and why it stays. */
  predicate Settled(y: string) {
    y != "" && Normal(y) && Balanced(y) && Whole(y, Fresh(None)) && Normalize(y) == y
  }

  lemma SpacingStaysNormal(e: string)
    requires e != "" && Normal(e) && Whole(e, Fresh(None)) && Balanced(e)
    ensures SpaceAfterCommas(e) != "" && Normal(SpaceAfterCommas(e))
    ensures Whole(SpaceAfterCommas(e), Fresh(None)) && Balanced(SpaceAfterCommas(e))
  {
    WholeEndsWell(e);
    SpacingStaysLone(e, Fresh(None));
    LastStays(e, Fresh(None));
    SpacingKeeps(e, Fresh(None), Fresh(None));
  }

  lemma OneToken(e: string)
    requires e != "" && Normal(e) && Whole(e, Fresh(None))
    ensures SplitCommas(e) == [e]
  {
    TrimOfTrimmed(e);
    hide Trim;
    WholeIsOneToken(e, Fresh(None), "");
    assert "" + e == e;
  }

  lemma NotWrappedIsPeeled(e: string)
    requires !Wrapped(e)
    ensures Peel(e) == e
  {
  }

  lemma LoneElementSettles(e: string)
    requires e != "" && Normal(e) && Whole(e, Fresh(None)) && Balanced(e) && !Wrapped(e)
    ensures Settled(SpaceAfterCommas(e))
  {
    var y := SpaceAfterCommas(e);
    SpacingStaysNormal(e);
    WholeEndsWell(e);
    SpacingKeepsWrapping(e);
    SpacingIsIdempotent(e, Fresh(None), Fresh(None));
    hide SpaceFrom, Wrapped, Balanced, Whole, Trim;
    NormalIsFragment(y);
    NotWrappedIsPeeled(y);
    OneToken(y);
    hide Normal, Fragment, Peel, SplitFrom;
  }

  // ----- several elements -----

  predicate AllSettled(ns: seq<string>) {
    forall i :: 0 <= i < |ns| ==> Settled(ns[i])
  }

  lemma {:induction false} SplitAtComma(a: string, b: string, l: Lex, current: string)
    requires AtTop(After(a, l))
    ensures SplitFrom(a + "," + b, l, current) == SplitFrom(a, l, current) + SplitFrom(b, Fresh(Some(',')), "")
    decreases |a|
  {
    var s := a + "," + b;
    if a == "" {
      assert s[0] == ',' && s[1..] == b;
    } else {
      var rest := a[1..];
      assert a == [a[0]] + rest;
      assert s[0] == a[0] && s[1..] == rest + "," + b;
      RunsFirst(a[0], rest, l);
      hide Trim, After;
      if Separates(l, a[0]) {
        FreshIsNext(l);
        SameRuns(rest, Next(l, ','), Fresh(Some(',')));
        SplitAtComma(rest, b, Fresh(Some(',')), "");
        SqlText.Assoc(Token(current), SplitFrom(rest, Fresh(Some(',')), ""), SplitFrom(b, Fresh(Some(',')), ""));
      } else {
        SplitAtComma(rest, b, Next(l, a[0]), current + [a[0]]);
      }
    }
  }

  lemma FreshIsNext(l: Lex)
    requires Separates(l, ',')
    ensures Next(l, ',') == Fresh(Some(','))
  {
  }

  lemma SpacedToken(n: string)
    requires n != "" && Normal(n) && Whole(n, Fresh(None))
    ensures SplitFrom(" " + n, Fresh(Some(',')), "") == [n]
  {
    TrimOfTrimmed(n);
    PrevIsForgotten(n, 0, Some(' '), None);
    assert " " + n == [' '] + n;
    RunsFirst(' ', n, Fresh(Some(',')));
    assert TrimStart(" " + n) == TrimStart(n) by {
      assert (" " + n)[0] == ' ' && (" " + n)[1..] == n;
    }
    hide TrimStart, TrimEnd, Normal;
    WholeIsOneToken(" " + n, Fresh(Some(',')), "");
    assert "" + (" " + n) == " " + n;
  }

  /** What joined elements keep: normal, balanced, and split at exactly the joints. */
  predicate Joined(ns: seq<string>, j: string) {
    ns != [] && ns[0] != "" && j != "" && Normal(j) && Balanced(j) && SplitCommas(j) == ns && ns[0] <= j
  }

  lemma JoinOne(n: string)
    requires Settled(n)
    ensures Joined([n], n)
  {
    hide Normal, Balanced, Whole, Normalize, SplitCommas;
    OneToken(n);
  }

  lemma JoinedNormal(j: string, n: string)
    requires j != "" && Normal(j) && n != "" && Normal(n)
    ensures Normal(j + ", " + n)
  {
    var out := j + ", " + n;
    forall i | 0 <= i < |out| && IsSpace(out[i]) ensures out[i] == ' ' && (i + 1 < |out| ==> !IsSpace(out[i + 1])) {
      if i < |j| {
        assert out[i] == j[i];
        assert i + 1 < |j| ==> out[i + 1] == j[i + 1];
      } else if i >= |j| + 2 {
        assert out[i] == n[i - |j| - 2];
        assert i + 1 < |out| ==> out[i + 1] == n[i - |j| - 1];
      } else {
        assert out[|j|] == ',' && out[|j| + 1] == ' ' && out[|j| + 2] == n[0];
      }
    }
    assert out[0] == j[0] && out[|out| - 1] == n[|n| - 1];
  }

  lemma JoinedBalanced(j: string, n: string)
    requires Balanced(j) && Balanced(n)
    ensures Balanced(j + ", " + n)
  {
    var l := Fresh(None);
    assert j + ", " + n == j + (", " + n);
    Runs(j, ", " + n, l);
    CommaSpace(n, After(j, l));
    SameRuns(n, Next(After(j, l), ','), l);
  }

  lemma JoinedSplits(front: seq<string>, j: string, n: string)
    requires Balanced(j) && SplitCommas(j) == front && n != "" && Normal(n) && Whole(n, Fresh(None))
    ensures SplitCommas(j + ", " + n) == front + [n]
  {
    hide Normal, Whole, SplitFrom, Nested, After;
    SplitAtComma(j, " " + n, Fresh(None), "");
    SpacedToken(n);
    assert j + "," + (" " + n) == j + ", " + n;
  }

  lemma JoinMore(front: seq<string>, j: string, n: string)
    requires Joined(front, j) && Settled(n)
    ensures Joined(front + [n], j + ", " + n)
  {
    hide Normal, Normalize, Whole, SplitCommas, Balanced;
    JoinedNormal(j, n);
    JoinedBalanced(j, n);
    JoinedSplits(front, j, n);
  }

  lemma {:induction false} JoinIsJoined(ns: seq<string>)
    requires ns != [] && AllSettled(ns)
    ensures Joined(ns, JoinCommas(ns))
  {
    hide Joined, Settled;
    if |ns| == 1 {
      assert ns == [ns[0]];
      JoinOne(ns[0]);
    } else {
      var front := ns[..|ns| - 1];
      assert ns == front + [ns[|ns| - 1]];
      JoinIsJoined(front);
      JoinMore(front, JoinCommas(front), ns[|ns| - 1]);
    }
  }

  lemma SettledIsSomething(n: string)
    requires Settled(n)
    ensures n != "" && Balanced(n)
  {
  }

  /** A list is never wrapped as a whole: its first element closes before its first comma. */
  lemma ListIsNotWrapped(first: string, j: string)
    requires first != "" && Balanced(first) && first <= j && |first| < |j|
    ensures !Wrapped(j)
  {
    if j[0] == '(' && Wrapped(j) {
      var m, r, l := j[1..|j| - 1], first[1..], Fresh(None);
      assert first == ['('] + r && m[..|r|] == r;
      NestedPrefix(m, |r|, l);
      Deeper(r, l);
      RunsFirst('(', r, l);
      SameRuns(r, Lex(1, None, None), Next(l, '('));
    }
  }

  lemma SettledNormalizes(n: string)
    requires Settled(n)
    ensures Normalize(n) == n
  {
  }

  lemma NormalizeAllLast(front: seq<string>, n: string, bound: nat)
    requires (forall i :: 0 <= i < |front| ==> |front[i]| < bound) && |n| < bound
    ensures NormalizeAll(front + [n], bound) == NormalizeAll(front, bound) + [Normalize(n)]
  {
    hide Normalize;
    assert (front + [n])[..|front|] == front;
  }

  lemma {:induction false} SettledStays(ns: seq<string>, bound: nat)
    requires AllSettled(ns) && forall i :: 0 <= i < |ns| ==> |ns[i]| < bound
    ensures NormalizeAll(ns, bound) == ns
  {
    hide Settled, Normalize;
    if ns != [] {
      var front, last := ns[..|ns| - 1], ns[|ns| - 1];
      assert ns == front + [last];
      SettledStays(front, bound);
      SettledNormalizes(last);
      NormalizeAllLast(front, last, bound);
    }
  }

  lemma TupleIsNormal(j: string)
    requires Normal(j) && j != ""
    ensures Normal("(" + j + ")")
  {
    var y := "(" + j + ")";
    forall i | 0 <= i < |y| && IsSpace(y[i]) ensures y[i] == ' ' && (i + 1 < |y| ==> !IsSpace(y[i + 1])) {
      assert 0 < i < |y| - 1 && y[i] == j[i - 1];
      assert y[i + 1] == if i < |j| then j[i] else ')';
    }
  }

  lemma TupleIsPeeled(j: string)
    requires Normal(j) && Balanced(j) && !Wrapped(j)
    ensures Peel("(" + j + ")") == j
  {
    var y := "(" + j + ")";
    assert y[1..|y| - 1] == j;
    TrimOfTrimmed(j);
    hide Trim;
    NotWrappedIsPeeled(j);
  }

  lemma ListIsLonger(ns: seq<string>, j: string)
    requires |ns| >= 2 && Joined(ns, j)
    ensures |ns[0]| < |j|
  {
    if |ns[0]| == |j| {
      assert ns[0] == j;
      assert j in SplitFrom(j, Fresh(None), "");
      hide SplitFrom, Normal, Balanced;
      TokensAreShort(j, Fresh(None), "", j);
    }
  }

  /** Several settled elements make a settled tuple. */
  lemma TupleSettles(ns: seq<string>)
    requires |ns| >= 2 && AllSettled(ns)
    ensures Settled("(" + JoinCommas(ns) + ")")
  {
    hide Settled;
    var j := JoinCommas(ns);
    var y := "(" + j + ")";
    JoinIsJoined(ns);
    ListIsLonger(ns, j);
    SettledIsSomething(ns[0]);
    hide AllSettled, JoinCommas, Balanced, Normal, Whole, SplitCommas;
    ListIsNotWrapped(ns[0], j);
    Parenthesised(j);
    TupleIsNormal(j);
    TupleIsPeeled(j);
    NormalIsFragment(y);
    TupleNormalizes(ns, y);
    SettledFrom(y);
  }

  lemma SettledFrom(y: string)
    requires y != "" && Normal(y) && Balanced(y) && Whole(y, Fresh(None)) && Normalize(y) == y
    ensures Settled(y)
  {
  }

  lemma TupleNormalizes(ns: seq<string>, y: string)
    requires |ns| >= 2 && AllSettled(ns) && y == "(" + JoinCommas(ns) + ")"
    requires Fragment(y) == y && Peel(y) == JoinCommas(ns) && SplitCommas(JoinCommas(ns)) == ns
    ensures Normalize(y) == y
  {
    PartsShrink(y);
    SettledStays(ns, |y|);
    hide Fragment, Peel, SplitCommas, Settled, NormalizeAll, JoinCommas;
  }

  // ----- elements of a sound list are sound -----

  lemma {:induction false} TrimStartBalanced(s: string)
    requires Balanced(s)
    ensures Balanced(TrimStart(s))
    decreases |s|
  {
    if s != "" && IsSpace(s[0]) {
      var rest := s[1..];
      assert s == [s[0]] + rest;
      RunsFirst(s[0], rest, Fresh(None));
      SameRuns(rest, Next(Fresh(None), s[0]), Fresh(None));
      TrimStartBalanced(rest);
    }
  }

  lemma {:induction false} OpenQuote(s: string, p: Option<char>)
    ensures var q := After(s, Fresh(p)).quote; q.Some? ==> IsQuote(q.value)
  {
    if s != "" {
      OpenQuote(s[..|s| - 1], p);
    }
  }

  lemma {:induction false} TrimEndBalanced(s: string)
    requires Balanced(s)
    ensures Balanced(TrimEnd(s))
  {
    if s != "" && IsSpace(s[|s| - 1]) {
      OpenQuote(s[..|s| - 1], None);
      TrimEndBalanced(s[..|s| - 1]);
    }
  }

  lemma TrimBalanced(s: string)
    requires Balanced(s)
    ensures Balanced(Trim(s))
  {
    hide Balanced;
    TrimStartBalanced(s);
    TrimEndBalanced(TrimStart(s));
  }

  lemma {:induction false} PeelBalanced(s: string)
    requires Balanced(s)
    ensures Balanced(Peel(s))
    decreases |s|
  {
    if Wrapped(s) {
      TrimShrinks(s[1..|s| - 1]);
      TrimBalanced(s[1..|s| - 1]);
      hide Balanced, Trim;
      PeelBalanced(Strip(s));
    }
  }

  lemma BalancedFrom(s: string, p: Option<char>)
    requires Nested(s, Fresh(p)) && AtTop(After(s, Fresh(p)))
    ensures Balanced(s)
  {
    SameRuns(s, Fresh(p), Fresh(None));
  }

  lemma CutIsSound(e: string, a: nat, b: nat, p: Option<char>)
    requires Lone(e) && a <= b <= |e| && Nested(e[a..b], Fresh(p)) && AtTop(After(e[a..b], Fresh(p)))
    ensures Normal(Trim(e[a..b])) && Balanced(Trim(e[a..b]))
  {
    SliceIsNormal(e, a, b);
    hide Normal, Trim, Lone;
    BalancedFrom(e[a..b], p);
    TrimBalanced(e[a..b]);
  }

  lemma ReadOn(e: string, a: nat, b: nat, l: Lex, p: Option<char>)
    requires a <= b < |e| && Nested(e[a..b], Fresh(p)) && After(e[a..b], Fresh(p)) == l
    requires Nested(e[b..], l) && AtTop(After(e[b..], l))
    ensures Nested(e[a..b + 1], Fresh(p)) && After(e[a..b + 1], Fresh(p)) == Next(l, e[b])
    ensures Nested(e[b + 1..], Next(l, e[b])) && AtTop(After(e[b + 1..], Next(l, e[b])))
  {
    var s := e[b..];
    assert s == [e[b]] + e[b + 1..] && e[a..b + 1] == e[a..b] + [e[b]];
    RunsFirst(e[b], e[b + 1..], l);
    NestedLast(e[a..b], e[b], Fresh(p));
    WholeLast(e[a..b], e[b], Fresh(p));
  }

  /** Tokens of a normal, balanced text are normal and balanced. */
  lemma {:induction false} TokensAreSound(e: string, a: nat, b: nat, l: Lex, p: Option<char>, t: string)
    requires Lone(e) && a <= b <= |e|
    requires Nested(e[a..b], Fresh(p)) && After(e[a..b], Fresh(p)) == l
    requires Nested(e[b..], l) && AtTop(After(e[b..], l))
    requires t in SplitFrom(e[b..], l, e[a..b])
    ensures Normal(t) && Balanced(t)
    decreases |e| - b
  {
    hide Trim, Lone, Nested, After, Normal, Balanced;
    if b == |e| {
      NothingLeft(e[b..], l);
      CutIsSound(e, a, b, p);
    } else {
      ReadOn(e, a, b, l, p);
      assert e[b..][0] == e[b] && e[b..][1..] == e[b + 1..];
      if Separates(l, e[b]) {
        if t in Token(e[a..b]) {
          CutIsSound(e, a, b, p);
        } else {
          FreshIsNext(l);
          assert e[b + 1..b + 1] == "";
          NothingRead(Some(','));
          TokensAreSound(e, b + 1, b + 1, Fresh(Some(',')), Some(','), t);
        }
      } else {
        assert e[a..b + 1] == e[a..b] + [e[b]];
        TokensAreSound(e, a, b + 1, Next(l, e[b]), p, t);
      }
    }
  }

  lemma NothingLeft(s: string, l: Lex)
    requires s == ""
    ensures After(s, l) == l
  {
  }

  lemma NothingRead(p: Option<char>)
    ensures Nested("", Fresh(p)) && After("", Fresh(p)) == Fresh(p)
  {
  }

  lemma PartsAreSound(e: string, t: string)
    requires Normal(e) && Balanced(e) && t in SplitCommas(e)
    ensures Normal(t) && Balanced(t) && Fragment(t) == t
  {
    hide SplitFrom;
    assert e[0..] == e && e[0..0] == "";
    NothingRead(None);
    TokensAreSound(e, 0, 0, Fresh(None), None, t);
    NormalIsFragment(t);
  }

  lemma EmptyStays()
    ensures SplitCommas("") == [] && Normalize("") == ""
  {
    assert Fragment("") == "";
    assert Peel("") == "";
  }
}
