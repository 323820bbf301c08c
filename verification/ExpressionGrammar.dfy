/**
 Key expressions, said without the lexer: letters, quoted names and texts, and groups in parentheses. A list of
 them is split at exactly the commas between its elements, whatever commas its quotes and groups hold.
 */
module ExpressionGrammar {
  import opened Wrappers
  import opened SqlText
  import opened KeyClause
  import opened Projection
  import opened ProjectionClean

  /** A character inside quotes, or the quote behind a backslash. */
  datatype Unit = Char(c: char) | Escaped

  /** A comma is a letter of its own inside a group only. */
  datatype Bit = Letter(c: char) | Quoted(quote: char, units: seq<Unit>) | Group(inner: seq<Bit>)

  function UnitText(quote: char, u: Unit): string {
    match u
    case Char(c) => [c]
    case Escaped => ['\\', quote]
  }

  function UnitsText(quote: char, units: seq<Unit>): string {
    if units == [] then "" else UnitText(quote, units[0]) + UnitsText(quote, units[1..])
  }

  function BitText(b: Bit): string {
    match b
    case Letter(c) => [c]
    case Quoted(quote, units) => [quote] + (UnitsText(quote, units) + [quote])
    case Group(inner) => "(" + (BitsText(inner) + ")")
  }

  function BitsText(bits: seq<Bit>): string {
    if bits == [] then "" else BitText(bits[0]) + BitsText(bits[1..])
  }

  // ----- what is well formed -----

  /** The quote stands behind a backslash only, and no backslash stands before the closing one. */
  predicate UnitsOk(quote: char, units: seq<Unit>) {
    && (forall i :: 0 <= i < |units| ==> units[i] != Char(quote))
    && (units != [] ==> units[|units| - 1] != Char('\\'))
  }

  predicate BitOk(b: Bit, inside: bool) {
    match b
    case Letter(c) => c != '(' && c != ')' && c != '\'' && c != '"' && c != '`' && (c == ',' ==> inside)
    case Quoted(quote, units) => (quote == '\'' || quote == '"' || quote == '`') && UnitsOk(quote, units)
    case Group(inner) => BitsOk(inner, true)
  }

  predicate BitsOk(bits: seq<Bit>, inside: bool) {
    bits == [] || (BitOk(bits[0], inside) && BitsOk(bits[1..], inside))
  }

  // ----- how it is lexed -----

  /** Up to the closing quote. */
  lemma {:induction false} UnitsRun(quote: char, units: seq<Unit>, l: Lex)
    requires UnitsOk(quote, units) && quote != '\\' && l.quote == Some(quote) && (units == [] ==> l.prev != Some('\\'))
    ensures var s := UnitsText(quote, units) + [quote];
      After(s, l) == Lex(l.depth, None, Some(quote)) && Whole(s, l) && Nested(s, l)
    decreases |units|
  {
    if units == [] {
      OneChar(quote, l);
      assert "" + [quote] == [quote];
    } else {
      var rest := UnitsText(quote, units[1..]) + [quote];
      assert UnitsOk(quote, units[1..]) by {
        assert units[|units| - 1] == if |units| > 1 then units[1..][|units| - 2] else units[0];
      }
      if units[0].Char? {
        var c := units[0].c;
        assert UnitsText(quote, units) + [quote] == [c] + rest;
        RunsFirst(c, rest, l);
        UnitsRun(quote, units[1..], Next(l, c));
      } else {
        assert UnitsText(quote, units) + [quote] == ['\\'] + ([quote] + rest);
        RunsFirst('\\', [quote] + rest, l);
        RunsFirst(quote, rest, Next(l, '\\'));
        UnitsRun(quote, units[1..], Next(Next(l, '\\'), quote));
      }
    }
  }

  lemma OneChar(c: char, l: Lex)
    ensures After([c], l) == Next(l, c) && (Whole([c], l) <==> !Separates(l, c)) && (Nested([c], l) <==> !Underflows(l, c))
  {
    assert "" + [c] == [c];
    WholeLast("", c, l);
    NestedLast("", c, l);
  }

  lemma {:induction false} BitRuns(b: Bit, inside: bool, l: Lex)
    requires BitOk(b, inside) && l.quote.None? && (inside ==> l.depth > 0)
    ensures var s := BitText(b); Same(After(s, l), l) && Whole(s, l) && Nested(s, l)
    decreases b, 0
  {
    match b
    case Letter(c) =>
      OneChar(c, l);
    case Quoted(quote, units) =>
      var s := UnitsText(quote, units) + [quote];
      RunsFirst(quote, s, l);
      UnitsRun(quote, units, Next(l, quote));
    case Group(inner) =>
      var s := BitsText(inner);
      RunsFirst('(', s + ")", l);
      BitsRun(inner, true, Next(l, '('));
      Runs(s, ")", Next(l, '('));
      OneChar(')', After(s, Next(l, '(')));
  }

  /** Well-formed text leaves the lexer where it was, and shows it no separator. */
  lemma {:induction false} BitsRun(bits: seq<Bit>, inside: bool, l: Lex)
    requires BitsOk(bits, inside) && l.quote.None? && (inside ==> l.depth > 0)
    ensures var s := BitsText(bits); Same(After(s, l), l) && Whole(s, l) && Nested(s, l)
    decreases bits, 1
  {
    if bits != [] {
      var head, rest := BitText(bits[0]), BitsText(bits[1..]);
      BitRuns(bits[0], inside, l);
      BitsRun(bits[1..], inside, After(head, l));
      Runs(head, rest, l);
    }
  }

  // ----- lists -----

  /** The elements of a list, with their commas. */
  function CommaList(elements: seq<seq<Bit>>): string {
    if elements == [] then "" else if |elements| == 1 then BitsText(elements[0])
    else CommaList(elements[..|elements| - 1]) + "," + BitsText(elements[|elements| - 1])
  }

  predicate ListOk(elements: seq<seq<Bit>>) {
    forall i :: 0 <= i < |elements| ==> BitsOk(elements[i], false)
  }

  /** What is written between the commas, without the blanks around it; what is blank is nothing. */
  function Written(elements: seq<seq<Bit>>): seq<string> {
    if elements == [] then []
    else
      var t := Trim(BitsText(elements[|elements| - 1]));
      Written(elements[..|elements| - 1]) + if t == "" then [] else [t]
  }

  lemma {:induction false} ListRuns(elements: seq<seq<Bit>>)
    requires ListOk(elements)
    ensures AtTop(After(CommaList(elements), Fresh(None))) && Nested(CommaList(elements), Fresh(None))
  {
    if elements != [] {
      var front, last := elements[..|elements| - 1], BitsText(elements[|elements| - 1]);
      hide Trim;
      if front == [] {
        BitsRun(elements[0], false, Fresh(None));
      } else {
        var a := CommaList(front);
        ListRuns(front);
        var l := After(a, Fresh(None));
        assert a + "," + last == (a + [',']) + last;
        WholeLast(a, ',', Fresh(None));
        NestedLast(a, ',', Fresh(None));
        Runs(a + [','], last, Fresh(None));
        BitsRun(elements[|elements| - 1], false, Next(l, ','));
      }
    }
  }

  /** A list is split into exactly its elements. */
  lemma {:induction false} ListSplits(elements: seq<seq<Bit>>)
    requires ListOk(elements)
    ensures SplitCommas(CommaList(elements)) == Written(elements)
  {
    if elements == [] {
      assert Trim("") == "";
    } else {
      var front, last := elements[..|elements| - 1], elements[|elements| - 1];
      var b := BitsText(last);
      hide Trim;
      BitsRun(last, false, Fresh(None));
      PrevIsForgotten(b, 0, None, Some(','));
      assert "" + b == b;
      if front == [] {
        assert Written(front) == [];
        WholeIsOneToken(b, Fresh(None), "");
      } else {
        ListSplits(front);
        ListRuns(front);
        WholeIsOneToken(b, Fresh(Some(',')), "");
        SplitAtComma(CommaList(front), b, Fresh(None), "");
      }
    }
  }

  /** Blanks around a list do not matter. */
  lemma {:induction false} TrimStartSplits(s: string)
    ensures SplitCommas(TrimStart(s)) == SplitCommas(s)
    decreases |s|
  {
    if s != "" && IsSpace(s[0]) {
      var rest := s[1..];
      TrimStartSplits(rest);
      assert s == [s[0]] + rest && "" + [s[0]] == [s[0]] + "";
      hide Trim, TrimStart;
      SpaceAhead(s[0], rest, Next(Fresh(None), s[0]), "");
      SplitForgets(rest, Next(Fresh(None), s[0]), Fresh(None), "");
    }
  }

  /** Every key clause of the values, each of them a list of its own. */
  function AllWritten(lists: seq<seq<seq<Bit>>>): seq<string> {
    if lists == [] then [] else Written(lists[0]) + AllWritten(lists[1..])
  }

  /** `normalizeKeyColumns` yields what was written, element by element and in order, without blanks. */
  lemma {:induction false} KeysAreAsWritten(values: seq<string>, lists: seq<seq<seq<Bit>>>)
    requires |values| == |lists| && forall i :: 0 <= i < |lists| ==> ListOk(lists[i]) && values[i] == CommaList(lists[i])
    ensures NormalizeKeyColumns(values) == AllWritten(lists)
    decreases |values|
  {
    if values != [] {
      hide TrimStart, TrimEnd, CommaList, SplitCommas, ListOk, Written;
      TrimStartSplits(values[0]);
      TrimEndSplits(TrimStart(values[0]));
      ListSplits(lists[0]);
      KeysAreAsWritten(values[1..], lists[1..]);
    }
  }
}
