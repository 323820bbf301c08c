/**
 Key clauses: splitting at top-level commas, and why normalising key columns a second time changes
 nothing, on any input, balanced or not.
 */
module KeyClause {
  import opened Wrappers
  import opened SqlText

  /** Where the loop stands: nesting, the open quote, and the character before. */
  datatype Lex = Lex(depth: nat, quote: Option<char>, prev: Option<char>)

  predicate IsQuote(c: char) {
    c == '\'' || c == '"' || c == '`'
  }

  function Next(l: Lex, c: char): Lex {
    match l.quote
    case Some(q) => Lex(l.depth, if c == q && l.prev != Some('\\') then None else l.quote, Some(c))
    case None =>
      if IsQuote(c) then Lex(l.depth, Some(c), Some(c))
      else if c == '(' then Lex(l.depth + 1, None, Some(c))
      else if c == ')' then Lex(if l.depth > 0 then l.depth - 1 else 0, None, Some(c))
      else Lex(l.depth, None, Some(c))
  }

  predicate Separates(l: Lex, c: char) {
    l.quote.None? && l.depth == 0 && c == ','
  }

  function Fresh(prev: Option<char>): Lex {
    Lex(0, None, prev)
  }

  function Token(current: string): seq<string> {
    if Trim(current) != "" then [Trim(current)] else []
  }

  function SplitFrom(s: string, l: Lex, current: string): seq<string>
    decreases |s|
  {
    if s == "" then Token(current)
    else if Separates(l, s[0]) then Token(current) + SplitFrom(s[1..], Fresh(Some(',')), "")
    else SplitFrom(s[1..], Next(l, s[0]), current + [s[0]])
  }

  function SplitCommas(s: string): seq<string> {
    SplitFrom(s, Fresh(None), "")
  }

  function NormalizeKeyColumns(values: seq<string>): seq<string> {
    if values == [] then [] else SplitCommas(Trim(values[0])) + NormalizeKeyColumns(values[1..])
  }

  lemma SplitFromStep(s: string, i: nat, l: Lex, current: string)
    requires i < |s|
    ensures SplitFrom(s[i..], l, current)
      == if Separates(l, s[i]) then Token(current) + SplitFrom(s[i + 1..], Fresh(Some(',')), "")
         else SplitFrom(s[i + 1..], Next(l, s[i]), current + [s[i]])
  {
    assert s[i..][1..] == s[i + 1..];
  }

  /** `splitTopLevelComma`. */
  method SplitTopLevelComma(input: string) returns (out: seq<string>)
    ensures out == SplitCommas(input)
  {
    hide Trim;
    out := [];
    var current, depth, quote, i := "", 0, None, 0;
    assert input[0..] == input;
    while i < |input|
      invariant i <= |input| && depth >= 0
      invariant out + SplitFrom(input[i..], Lex(depth, quote, if i > 0 then Some(input[i - 1]) else None), current) == SplitCommas(input)
    {
      var ch, prev := input[i], if i > 0 then Some(input[i - 1]) else None;
      SplitFromStep(input, i, Lex(depth, quote, prev), current);
      hide SplitFrom;
      if quote.Some? {
        current := current + [ch];
        if ch == quote.value && prev != Some('\\') {
          quote := None;
        }
      } else if ch == ',' && depth == 0 {
        var token := Trim(current);
        Assoc(out, Token(current), SplitFrom(input[i + 1..], Fresh(Some(',')), ""));
        if |token| > 0 {
          out := out + [token];
        } else {
          assert out + [] == out;
        }
        current := "";
      } else {
        if IsQuote(ch) {
          quote := Some(ch);
        } else if ch == '(' {
          depth := depth + 1;
        } else if ch == ')' {
          depth := if depth > 0 then depth - 1 else 0;
        }
        current := current + [ch];
      }
      i := i + 1;
    }
    assert input[i..] == "";
    var tail := Trim(current);
    if |tail| > 0 {
      out := out + [tail];
    } else {
      assert out + [] == out;
    }
  }

  // ----- texts without a separator -----

  function After(s: string, l: Lex): Lex {
    if s == "" then l else Next(After(s[..|s| - 1], l), s[|s| - 1])
  }

  /** Read from this state, the text shows no separator. */
  predicate Whole(s: string, l: Lex) {
    s == "" || (Whole(s[..|s| - 1], l) && !Separates(After(s[..|s| - 1], l), s[|s| - 1]))
  }

  lemma WholeLast(s: string, c: char, l: Lex)
    ensures After(s + [c], l) == Next(After(s, l), c)
    ensures Whole(s + [c], l) <==> Whole(s, l) && !Separates(After(s, l), c)
  {
    assert (s + [c])[..|s|] == s;
  }

  lemma {:induction false} WholeFirst(c: char, s: string, l: Lex)
    ensures After([c] + s, l) == After(s, Next(l, c))
    ensures Whole([c] + s, l) <==> !Separates(l, c) && Whole(s, Next(l, c))
  {
    if s == "" {
      assert [c] + s == "" + [c];
      WholeLast("", c, l);
    } else {
      var front, last := s[..|s| - 1], s[|s| - 1];
      assert [c] + s == ([c] + front) + [last];
      WholeFirst(c, front, l);
      WholeLast([c] + front, last, l);
    }
  }

  /** What stood before a text does not matter outside quotes. */
  lemma {:induction false} PrevIsForgotten(s: string, depth: nat, p: Option<char>, q: Option<char>)
    ensures Whole(s, Lex(depth, None, p)) <==> Whole(s, Lex(depth, None, q))
    ensures s != "" ==> After(s, Lex(depth, None, p)) == After(s, Lex(depth, None, q))
    decreases |s|
  {
    if s != "" {
      assert s == [s[0]] + s[1..];
      WholeFirst(s[0], s[1..], Lex(depth, None, p));
      WholeFirst(s[0], s[1..], Lex(depth, None, q));
    }
  }

  lemma {:induction false} WholeIsOneToken(s: string, l: Lex, current: string)
    requires Whole(s, l)
    ensures SplitFrom(s, l, current) == Token(current + s)
    decreases |s|
  {
    if s == "" {
      assert current + s == current;
    } else {
      assert s == [s[0]] + s[1..];
      WholeFirst(s[0], s[1..], l);
      assert (current + [s[0]]) + s[1..] == current + s;
      WholeIsOneToken(s[1..], Next(l, s[0]), current + [s[0]]);
    }
  }

  // ----- trimming keeps a text whole -----

  lemma {:induction false} TrimStartStaysWhole(s: string, p: Option<char>)
    requires Whole(s, Fresh(p))
    ensures Whole(TrimStart(s), Fresh(p))
    decreases |s|
  {
    if s != "" && IsSpace(s[0]) {
      assert s == [s[0]] + s[1..];
      WholeFirst(s[0], s[1..], Fresh(p));
      PrevIsForgotten(s[1..], 0, Some(s[0]), p);
      TrimStartStaysWhole(s[1..], p);
    }
  }

  lemma {:induction false} TrimEndStaysWhole(s: string, l: Lex)
    requires Whole(s, l)
    ensures Whole(TrimEnd(s), l)
  {
    if s != "" && IsSpace(s[|s| - 1]) {
      TrimEndStaysWhole(s[..|s| - 1], l);
    }
  }

  lemma {:induction false} TrimStartIsDone(s: string)
    ensures TrimStart(s) == "" || !IsSpace(TrimStart(s)[0])
  {
    if s != "" && IsSpace(s[0]) {
      TrimStartIsDone(s[1..]);
    }
  }

  lemma {:induction false} TrimEndIsDone(s: string)
    ensures TrimEnd(s) == "" || !IsSpace(TrimEnd(s)[|TrimEnd(s)| - 1])
    ensures TrimEnd(s) <= s
  {
    if s != "" && IsSpace(s[|s| - 1]) {
      TrimEndIsDone(s[..|s| - 1]);
    }
  }

  /** Trimming twice is trimming once. */
  lemma TrimIsIdempotent(s: string)
    ensures Trim(Trim(s)) == Trim(s)
  {
    var a := TrimStart(s);
    TrimStartIsDone(s);
    TrimEndIsDone(a);
    var t := TrimEnd(a);
    if t != "" {
      assert t[0] == a[0];
    }
  }

  lemma TrimOfTrimmed(s: string)
    requires s != "" ==> !IsSpace(s[0]) && !IsSpace(s[|s| - 1])
    ensures Trim(s) == s
  {
  }

  // ----- every token is a fixed point -----

  predicate Fixed(t: string) {
    SplitCommas(t) == [t] && Trim(t) == t
  }

  lemma TokenIsFixed(current: string, p: Option<char>)
    requires Whole(current, Fresh(p)) && Trim(current) != ""
    ensures Fixed(Trim(current))
  {
    var t := Trim(current);
    TrimStartStaysWhole(current, p);
    TrimEndStaysWhole(TrimStart(current), Fresh(p));
    PrevIsForgotten(t, 0, p, None);
    TrimIsIdempotent(current);
    hide Trim, TrimStart, TrimEnd;
    WholeIsOneToken(t, Fresh(None), "");
    assert "" + t == t;
  }

  lemma {:induction false} TokensAreFixed(s: string, l: Lex, current: string, p: Option<char>, t: string)
    requires Whole(current, Fresh(p)) && After(current, Fresh(p)) == l && t in SplitFrom(s, l, current)
    ensures Fixed(t)
    decreases |s|
  {
    if t in Token(current) {
      TokenIsFixed(current, p);
    } else if Separates(l, s[0]) {
      hide Trim;
      TokensAreFixed(s[1..], Fresh(Some(',')), "", Some(','), t);
    } else {
      hide Trim;
      WholeLast(current, s[0], Fresh(p));
      if t in SplitFrom(s[1..], Next(l, s[0]), current + [s[0]]) {
        TokensAreFixed(s[1..], Next(l, s[0]), current + [s[0]], p, t);
      }
    }
  }

  /** Every token splits to itself, whatever the input: quotes open or closed, parentheses balanced or not. */
  lemma EveryTokenResplits(s: string, t: string)
    requires t in SplitCommas(s)
    ensures SplitCommas(t) == [t] && Trim(t) == t && t != ""
  {
    TokensAreFixed(s, Fresh(None), "", None, t);
    TokensAreNotEmpty(s, Fresh(None), "", t);
  }

  lemma {:induction false} TokensAreNotEmpty(s: string, l: Lex, current: string, t: string)
    requires t in SplitFrom(s, l, current)
    ensures t != ""
    decreases |s|
  {
    hide Trim;
    if t !in Token(current) {
      if Separates(l, s[0]) {
        TokensAreNotEmpty(s[1..], Fresh(Some(',')), "", t);
      } else {
        TokensAreNotEmpty(s[1..], Next(l, s[0]), current + [s[0]], t);
      }
    }
  }

  // ----- normalising twice -----

  predicate AllFixed(values: seq<string>) {
    forall i :: 0 <= i < |values| ==> Fixed(values[i])
  }

  lemma {:induction false} FixedIsNormal(values: seq<string>)
    requires AllFixed(values)
    ensures NormalizeKeyColumns(values) == values
  {
    hide Trim, SplitCommas;
    if values != [] {
      assert AllFixed(values[1..]);
      FixedIsNormal(values[1..]);
      assert values == [values[0]] + values[1..];
    }
  }

  lemma {:induction false} NormalIsFixed(values: seq<string>)
    ensures AllFixed(NormalizeKeyColumns(values))
  {
    hide Trim, Fixed, SplitCommas;
    if values != [] {
      NormalIsFixed(values[1..]);
      var tokens := SplitCommas(Trim(values[0]));
      forall i | 0 <= i < |tokens| ensures Fixed(tokens[i]) {
        SplitIsFixed(Trim(values[0]), tokens[i]);
      }
    }
  }

  lemma SplitIsFixed(s: string, t: string)
    requires t in SplitCommas(s)
    ensures Fixed(t)
  {
    hide Trim;
    EveryTokenResplits(s, t);
  }

  /** `normalizeKeyColumns` is idempotent on every input. */
  lemma NormalizeIsIdempotent(values: seq<string>)
    ensures NormalizeKeyColumns(NormalizeKeyColumns(values)) == NormalizeKeyColumns(values)
  {
    NormalIsFixed(values);
    FixedIsNormal(NormalizeKeyColumns(values));
  }
}
