/**
 The projection-index normaliser, equation by equation on written expressions: a redundant layer of parentheses
 changes nothing, a list becomes the tuple of its normalised elements, a lone element gets one space behind
 every comma of its groups and none in its quotes.
 */
module ProjectionGrammar {
  import opened Wrappers
  import opened SqlText
  import opened KeyClause
  import opened Projection
  import opened ProjectionClean
  import opened ExpressionGrammar

  // ----- redundant parentheses -----

  lemma InsideIsBalanced(bits: seq<Bit>)
    requires BitsOk(bits, true)
    ensures Nested(BitsText(bits), Lex(1, None, None)) && Same(After(BitsText(bits), Lex(1, None, None)), Lex(1, None, None))
  {
    BitsRun(bits, true, Lex(1, None, None));
  }

  /** Commas inside a group are no separators for the balance. */
  lemma {:induction false} BalanceRuns(bits: seq<Bit>, inside: bool, l: Lex)
    requires BitsOk(bits, inside) && l.quote.None?
    ensures Same(After(BitsText(bits), l), l) && Nested(BitsText(bits), l)
    decreases bits
  {
    if bits != [] {
      var head, rest := BitText(bits[0]), BitsText(bits[1..]);
      if bits[0] == Letter(',') {
        OneChar(',', l);
      } else {
        Loosened(bits[0], inside);
        BitRuns(bits[0], false, l);
      }
      BalanceRuns(bits[1..], inside, After(head, l));
      Runs(head, rest, l);
    }
  }

  lemma Loosened(b: Bit, inside: bool)
    requires BitOk(b, inside) && b != Letter(',')
    ensures BitOk(b, false)
  {
  }

  lemma BitsBalance(bits: seq<Bit>)
    requires BitsOk(bits, true)
    ensures Balanced(BitsText(bits))
  {
    BalanceRuns(bits, true, Fresh(None));
  }

  /** Only the collapsed text counts. */
  lemma OnlyFragmentCounts(index: string, text: string)
    requires Fragment(index) == Fragment(text)
    ensures Normalize(index) == Normalize(text)
  {
    hide Fragment, Peel, SplitCommas, SpaceAfterCommas;
    var parts := SplitCommas(Peel(Fragment(index)));
    if |parts| >= 2 {
      PartsShrink(index);
      PartsShrink(text);
      BoundIsNothing(parts, |index|, |text|);
    }
  }

  lemma {:induction false} BoundIsNothing(parts: seq<string>, a: nat, b: nat)
    requires forall i :: 0 <= i < |parts| ==> |parts[i]| < a && |parts[i]| < b
    ensures NormalizeAll(parts, a) == NormalizeAll(parts, b)
    decreases |parts|
  {
    hide Normalize;
    if parts != [] {
      BoundIsNothing(parts[..|parts| - 1], a, b);
    }
  }

  /** One layer of parentheses around the whole expression changes nothing. */
  lemma WrappingIsNothing(index: string, bits: seq<Bit>)
    requires BitsOk(bits, true) && Fragment(index) == "(" + BitsText(bits) + ")"
    ensures Normalize(index) == Normalize(BitsText(bits))
  {
    var m, e := BitsText(bits), Fragment(index);
    BitsBalance(bits);
    FragmentIsNormal(index);
    assert e[1..|e| - 1] == m && e[0] == '(' && e[|e| - 1] == ')';
    hide Balanced, BitsOk, BitsText;
    SliceIsNormal(e, 1, |e| - 1);
    assert Lone(m) by {
      assert forall i :: 0 <= i < |m| ==> m[i] == e[i + 1];
    }
    LoneIsCollapsed(m);
    assert Wrapped(e) && Projection.Strip(e) == Fragment(m);
    hide Fragment, Projection.Strip, Normal, Lone;
    PeelsAlike(index, m);
  }

  lemma PeelsAlike(a: string, b: string)
    requires Wrapped(Fragment(a)) && Projection.Strip(Fragment(a)) == Fragment(b)
    ensures Normalize(a) == Normalize(b)
  {
    assert Peel(Fragment(a)) == Peel(Fragment(b));
    hide Fragment, Peel, SplitCommas, SpaceAfterCommas, Projection.Strip, Wrapped;
    var parts := SplitCommas(Peel(Fragment(a)));
    if |parts| >= 2 {
      PartsShrink(a);
      PartsShrink(b);
      BoundIsNothing(parts, |a|, |b|);
    }
  }

  // ----- lists -----

  function NormalizeEach(texts: seq<string>): seq<string> {
    if texts == [] then [] else NormalizeEach(texts[..|texts| - 1]) + [Normalize(texts[|texts| - 1])]
  }

  lemma {:induction false} EachIsAll(parts: seq<string>, bound: nat)
    requires forall i :: 0 <= i < |parts| ==> |parts[i]| < bound
    ensures NormalizeAll(parts, bound) == NormalizeEach(parts)
  {
    hide Normalize;
    if parts != [] {
      EachIsAll(parts[..|parts| - 1], bound);
    }
  }

  /** The first element, and the rest behind its comma. */
  lemma {:induction false} ListStarts(elements: seq<seq<Bit>>)
    requires |elements| >= 2
    ensures BitsText(elements[0]) + "," <= CommaList(elements)
  {
    if |elements| > 2 {
      ListStarts(elements[..|elements| - 1]);
    }
  }

  /** A list of two elements or more is in no parentheses as a whole. */
  lemma ListHasNoWrapping(elements: seq<seq<Bit>>)
    requires ListOk(elements) && |elements| >= 2
    ensures !Wrapped(CommaList(elements))
  {
    ListStarts(elements);
    var first, j := BitsText(elements[0]), CommaList(elements);
    if first == "" {
      assert j[0] == ("" + ",")[0];
    } else {
      Inside(elements[0]);
      BitsBalance(elements[0]);
      assert j[..|first|] == first by {
        assert (first + ",")[..|first|] == first;
      }
      ListIsNotWrapped(first, j);
    }
  }

  lemma {:induction false} Inside(bits: seq<Bit>)
    requires BitsOk(bits, false)
    ensures BitsOk(bits, true)
  {
    if bits != [] {
      Inside(bits[1..]);
    }
  }

  /** A list becomes the tuple of its normalised elements. */
  lemma ListBecomesTuple(index: string, elements: seq<seq<Bit>>)
    requires ListOk(elements) && Fragment(index) == CommaList(elements) && |Written(elements)| >= 2
    ensures Normalize(index) == "(" + JoinCommas(NormalizeEach(Written(elements))) + ")"
  {
    ListSplits(elements);
    WrittenIsShort(elements);
    ListHasNoWrapping(elements);
    hide Fragment, CommaList, Written, ListOk, Wrapped, SplitCommas, JoinCommas;
    NotWrappedIsPeeled(CommaList(elements));
    PartsShrink(index);
    EachIsAll(Written(elements), |index|);
  }

  lemma {:induction false} WrittenIsShort(elements: seq<seq<Bit>>)
    ensures |Written(elements)| <= |elements|
  {
    if elements != [] {
      WrittenIsShort(elements[..|elements| - 1]);
    }
  }

  // ----- a lone element -----

  /** One space behind every comma of the groups, quoted ones aside. */
  function Spaced(bits: seq<Bit>): string
    decreases bits
  {
    if bits == [] then ""
    else
      var rest := bits[1..];
      match bits[0]
      case Letter(c) =>
        if c == ',' then ", " + (if rest != [] && rest[0] == Letter(' ') then Spaced(rest[1..]) else Spaced(rest))
        else [c] + Spaced(rest)
      case Quoted(quote, units) => BitText(bits[0]) + Spaced(rest)
      case Group(inner) => "(" + Spaced(inner) + ")" + Spaced(rest)
  }

  /** Inside quotes nothing is spaced. */
  lemma {:induction false} UnitsStay(quote: char, units: seq<Unit>, rest: string, l: Lex)
    requires UnitsOk(quote, units) && quote != '\\' && l.quote == Some(quote) && (units == [] ==> l.prev != Some('\\'))
    ensures var s := UnitsText(quote, units) + [quote];
      SpaceFrom(s + rest, l) == s + SpaceFrom(rest, Lex(l.depth, None, Some(quote)))
    decreases |units|
  {
    hide SpaceFrom;
    var s := UnitsText(quote, units) + [quote];
    if units == [] {
      assert s + rest == [quote] + rest && s == [quote];
      PlainStep(quote, rest, l);
    } else {
      var tail := UnitsText(quote, units[1..]) + [quote];
      assert UnitsOk(quote, units[1..]) by {
        assert units[|units| - 1] == if |units| > 1 then units[1..][|units| - 2] else units[0];
      }
      if units[0].Char? {
        var c := units[0].c;
        assert s == [c] + tail && s + rest == [c] + (tail + rest);
        PlainStep(c, tail + rest, l);
        UnitsStay(quote, units[1..], rest, Next(l, c));
        Behind([c], tail, SpaceFrom(rest, Lex(l.depth, None, Some(quote))));
      } else {
        assert s == ['\\', quote] + tail && s + rest == ['\\'] + ([quote] + (tail + rest));
        PlainStep('\\', [quote] + (tail + rest), l);
        PlainStep(quote, tail + rest, Next(l, '\\'));
        UnitsStay(quote, units[1..], rest, Next(Next(l, '\\'), quote));
        TwoBehind('\\', quote, tail, SpaceFrom(rest, Lex(l.depth, None, Some(quote))));
      }
    }
  }

  lemma Behind(a: string, b: string, c: string)
    ensures a + (b + c) == (a + b) + c
  {
  }

  lemma TwoBehind(a: char, b: char, s: string, t: string)
    ensures [a] + ([b] + (s + t)) == ([a, b] + s) + t
  {
  }

  lemma PlainStep(c: char, rest: string, l: Lex)
    requires !(l.quote.None? && c == ',')
    ensures SpaceFrom([c] + rest, l) == [c] + SpaceFrom(rest, Next(l, c))
  {
    assert ([c] + rest)[1..] == rest;
  }

  lemma CommaStep(rest: string, l: Lex)
    requires l.quote.None?
    ensures SpaceFrom("," + rest, l)
      == ", " + if rest != "" && rest[0] == ' ' then SpaceFrom(rest[1..], Next(Next(l, ','), ' ')) else SpaceFrom(rest, Next(l, ','))
  {
    var s := "," + rest;
    assert s[1..] == rest;
    assert rest != "" ==> s[1] == rest[0] && s[2..] == rest[1..];
  }

  /** Only a space starts with a space. */
  lemma StartsWithSpace(bits: seq<Bit>, inside: bool, rest: string)
    requires BitsOk(bits, inside) && bits != [] && bits[0] != Letter(' ')
    ensures BitsText(bits) != "" && BitsText(bits)[0] != ' '
  {
  }

  lemma {:induction false} SpacedRuns(bits: seq<Bit>, rest: string, l: Lex)
    requires BitsOk(bits, true) && l.quote.None? && (rest == "" || rest[0] != ' ')
    ensures SpaceFrom(BitsText(bits) + rest, l) == Spaced(bits) + SpaceFrom(rest, After(BitsText(bits), l))
    decreases bits
  {
    hide SpaceFrom;
    if bits == [] {
      assert "" + rest == rest && "" + SpaceFrom(rest, l) == SpaceFrom(rest, l);
    } else {
      var head, tail := BitText(bits[0]), BitsText(bits[1..]);
      BitsOn(bits[0], bits[1..], l);
      Behind(head, tail, rest);
      match bits[0]
      case Letter(c) =>
        LetterLeads(bits, rest, l);
        var end := SpaceFrom(rest, After(BitsText(bits), l));
        if c != ',' {
          OtherLetter(bits, rest, l);
          SpacedRuns(bits[1..], rest, Next(l, c));
          Behind([c], Spaced(bits[1..]), end);
        } else if |bits| > 1 && bits[1] == Letter(' ') {
          SpacedComma(bits, rest, l);
          assert bits[1..][1..] == bits[2..];
          SpacedRuns(bits[2..], rest, Next(Next(l, ','), ' '));
          Behind(", ", Spaced(bits[2..]), end);
        } else {
          LoneComma(bits, rest, l);
          SpacedRuns(bits[1..], rest, Next(l, c));
          Behind(", ", Spaced(bits[1..]), end);
        }
      case Quoted(quote, units) =>
        QuotedSpaces(quote, units, tail + rest, l);
        SpacedRuns(bits[1..], rest, After(head, l));
        Behind(head, Spaced(bits[1..]), SpaceFrom(rest, After(BitsText(bits), l)));
      case Group(inner) =>
        GroupOpens(inner, tail + rest, l);
        SpacedRuns(inner, ")" + (tail + rest), Next(l, '('));
        GroupCloses(inner, tail + rest, l);
        SpacedRuns(bits[1..], rest, After(head, l));
        GroupSpells(Spaced(inner), Spaced(bits[1..]), SpaceFrom(rest, After(BitsText(bits), l)));
    }
  }

  lemma GroupSpells(inner: string, tail: string, rest: string)
    ensures "(" + (inner + (")" + (tail + rest))) == ("(" + inner + ")" + tail) + rest
  {
  }

  /** The state behind the first bit, and behind all of them. */
  lemma BitsOn(b: Bit, more: seq<Bit>, l: Lex)
    requires BitsOk([b] + more, true) && l.quote.None?
    ensures var all := [b] + more;
      && BitsText(all) == BitText(b) + BitsText(more) && After(BitsText(all), l) == After(BitsText(more), After(BitText(b), l))
      && BitOk(b, true) && BitsOk(more, true) && After(BitText(b), l).quote.None?
  {
    assert ([b] + more)[0] == b && ([b] + more)[1..] == more;
    Runs(BitText(b), BitsText(more), l);
    if b == Letter(',') {
      OneChar(',', l);
    } else {
      Loosened(b, true);
      BitRuns(b, false, l);
    }
  }

  /** The text of a letter and what follows it. */
  lemma LetterLeads(bits: seq<Bit>, rest: string, l: Lex)
    requires bits != [] && bits[0].Letter?
    ensures BitsText(bits) + rest == [bits[0].c] + (BitsText(bits[1..]) + rest)
    ensures After(BitsText(bits), l) == After(BitsText(bits[1..]), Next(l, bits[0].c))
  {
    RunsFirst(bits[0].c, BitsText(bits[1..]), l);
  }

  lemma OtherLetter(bits: seq<Bit>, rest: string, l: Lex)
    requires BitsOk(bits, true) && bits != [] && bits[0].Letter? && bits[0].c != ',' && l.quote.None?
    ensures SpaceFrom(BitsText(bits) + rest, l) == [bits[0].c] + SpaceFrom(BitsText(bits[1..]) + rest, Next(l, bits[0].c))
    ensures Next(l, bits[0].c).quote.None?
  {
    LetterLeads(bits, rest, l);
    PlainStep(bits[0].c, BitsText(bits[1..]) + rest, l);
    hide SpaceFrom, BitsText;
  }

  lemma LoneComma(bits: seq<Bit>, rest: string, l: Lex)
    requires BitsOk(bits, true) && bits != [] && bits[0] == Letter(',') && !(|bits| > 1 && bits[1] == Letter(' '))
    requires l.quote.None? && (rest == "" || rest[0] != ' ')
    ensures SpaceFrom(BitsText(bits) + rest, l) == ", " + SpaceFrom(BitsText(bits[1..]) + rest, Next(l, ','))
  {
    LetterLeads(bits, rest, l);
    var behind := BitsText(bits[1..]) + rest;
    CommaStep(behind, l);
    hide SpaceFrom;
    if |bits| > 1 {
      StartsWithSpace(bits[1..], true, rest);
      assert behind[0] == BitsText(bits[1..])[0];
    } else {
      assert behind == rest;
    }
  }

  lemma SpacedComma(bits: seq<Bit>, rest: string, l: Lex)
    requires BitsOk(bits, true) && |bits| > 1 && bits[0] == Letter(',') && bits[1] == Letter(' ') && l.quote.None?
    ensures BitsOk(bits[2..], true)
    ensures SpaceFrom(BitsText(bits) + rest, l) == ", " + SpaceFrom(BitsText(bits[2..]) + rest, Next(Next(l, ','), ' '))
    ensures After(BitsText(bits), l) == After(BitsText(bits[2..]), Next(Next(l, ','), ' '))
  {
    assert bits[1..][1..] == bits[2..];
    LetterLeads(bits, rest, l);
    LetterLeads(bits[1..], rest, Next(l, ','));
    var behind := BitsText(bits[2..]) + rest;
    CommaStep([' '] + behind, l);
    hide SpaceFrom, BitsText;
    assert ([' '] + behind)[1..] == behind;
  }

  lemma QuotedSpaces(quote: char, units: seq<Unit>, rest: string, l: Lex)
    requires BitOk(Quoted(quote, units), true) && l.quote.None?
    ensures var s := BitText(Quoted(quote, units)); SpaceFrom(s + rest, l) == s + SpaceFrom(rest, After(s, l))
  {
    hide SpaceFrom;
    var body := UnitsText(quote, units) + [quote];
    assert ([quote] + body) + rest == [quote] + (body + rest);
    PlainStep(quote, body + rest, l);
    UnitsStay(quote, units, rest, Next(l, quote));
    RunsFirst(quote, body, l);
    UnitsRun(quote, units, Next(l, quote));
    Behind([quote], body, SpaceFrom(rest, Lex(l.depth, None, Some(quote))));
  }

  lemma GroupOpens(inner: seq<Bit>, rest: string, l: Lex)
    requires l.quote.None?
    ensures SpaceFrom(BitText(Group(inner)) + rest, l) == "(" + SpaceFrom(BitsText(inner) + (")" + rest), Next(l, '('))
  {
    hide SpaceFrom;
    assert BitText(Group(inner)) + rest == ['('] + (BitsText(inner) + (")" + rest));
    PlainStep('(', BitsText(inner) + (")" + rest), l);
  }

  lemma GroupCloses(inner: seq<Bit>, rest: string, l: Lex)
    requires BitsOk(inner, true) && l.quote.None?
    ensures SpaceFrom(")" + rest, After(BitsText(inner), Next(l, '('))) == ")" + SpaceFrom(rest, After(BitText(Group(inner)), l))
  {
    hide SpaceFrom;
    var s := BitsText(inner);
    BalanceRuns(inner, true, Next(l, '('));
    PlainStep(')', rest, After(s, Next(l, '(')));
    RunsFirst('(', s + ")", l);
    Runs(s, ")", Next(l, '('));
    OneChar(')', After(s, Next(l, '(')));
  }

  lemma SomethingIsWritten(bits: seq<Bit>)
    requires bits != []
    ensures BitsText(bits) != ""
  {
  }

  lemma OneIsWritten(bits: seq<Bit>)
    ensures Written([bits]) == if Trim(BitsText(bits)) == "" then [] else [Trim(BitsText(bits))]
  {
    assert [bits][..0] == [];
    assert Written([]) == [];
  }

  /** Parentheses of its own are a single group. */
  lemma WrappedIffGroup(bits: seq<Bit>)
    requires BitsOk(bits, true) && bits != []
    ensures Wrapped(BitsText(bits)) <==> |bits| == 1 && bits[0].Group?
  {
    if !bits[0].Group? {
      hide Wrapped;
      NoGroupFirst(bits);
    } else {
      GroupFirst(bits[0].inner, BitsText(bits[1..]));
      if |bits| > 1 {
        SomethingIsWritten(bits[1..]);
      }
    }
  }

  lemma NoGroupFirst(bits: seq<Bit>)
    requires BitsOk(bits, true) && bits != [] && !bits[0].Group?
    ensures !Wrapped(BitsText(bits))
  {
    assert BitsText(bits)[0] == BitText(bits[0])[0];
  }

  lemma GroupSpelled(t: string, rest: string)
    ensures var s := ("(" + (t + ")")) + rest;
      && |s| == |t| + 2 + |rest| && s[0] == '('
      && (if rest == "" then s[|s| - 1] == ')' && s[1..|s| - 1] == t else s[1..|s| - 1][..|t| + 1] == t + [')'])
  {
  }

  lemma GroupFirst(inner: seq<Bit>, rest: string)
    requires BitsOk(inner, true)
    ensures Wrapped(BitText(Group(inner)) + rest) <==> rest == ""
  {
    var t := BitsText(inner);
    var s := BitText(Group(inner)) + rest;
    GroupSpelled(t, rest);
    BitsBalance(inner);
    hide BitsText, BitsOk, Whole;
    if rest != "" {
      var m := s[1..|s| - 1];
      BalanceRuns(inner, true, Fresh(None));
      NestedLast(t, ')', Fresh(None));
      if Nested(m, Fresh(None)) {
        NestedPrefix(m, |t| + 1, Fresh(None));
      }
    }
  }

  /** A lone element that stands in no parentheses of its own: its groups are spaced, its quotes are not touched. */
  lemma LoneIsSpaced(index: string, bits: seq<Bit>)
    requires BitsOk(bits, false) && Fragment(index) == BitsText(bits) && bits != []
    requires !(|bits| == 1 && bits[0].Group?)
    ensures Normalize(index) == Spaced(bits)
  {
    var e := BitsText(bits);
    Inside(bits);
    WrappedIffGroup(bits);
    SpacedRuns(bits, "", Fresh(None));
    assert e + "" == e && Spaced(bits) + "" == Spaced(bits);
    ListSplits([bits]);
    assert CommaList([bits]) == e;
    FragmentIsNormal(index);
    hide Fragment, Wrapped, BitsText, BitsOk, SplitFrom;
    NotWrappedIsPeeled(e);
    assert Trim(e) == e && e != "" by {
      TrimOfTrimmed(e);
      SomethingIsWritten(bits);
    }
    OneIsWritten(bits);
  }
}
