/**
 Where normalising a projection index twice differs from doing it once: at a closing parenthesis too
 many, and at an element that is empty.
 */
module ProjectionLimits {
  import opened Wrappers
  import opened SqlText
  import opened KeyClause
  import opened Projection
  import ProjectionExact

  lemma Steps(c: char, s: string, l: Lex, current: string)
    requires !Separates(l, c)
    ensures SplitFrom([c] + s, l, current) == SplitFrom(s, Next(l, c), current + [c])
  {
    assert ([c] + s)[1..] == s;
  }

  /** A token, a comma, and what follows it. */
  lemma {:induction false} FirstToken(a: string, s: string, l: Lex, current: string)
    requires Whole(a, l) && AtTop(After(a, l))
    ensures SplitFrom(a + "," + s, l, current) == Token(current + a) + SplitFrom(s, Fresh(Some(',')), "")
    decreases |a|
  {
    hide Trim;
    if a == "" {
      assert a + "," + s == [','] + s && ([','] + s)[1..] == s && current + a == current;
    } else {
      assert a == [a[0]] + a[1..];
      WholeFirst(a[0], a[1..], l);
      assert a + "," + s == [a[0]] + (a[1..] + "," + s);
      Steps(a[0], a[1..] + "," + s, l, current);
      assert (current + [a[0]]) + a[1..] == current + a;
      FirstToken(a[1..], s, Next(l, a[0]), current + [a[0]]);
    }
  }

  lemma TwoTokens(a: string, b: string)
    requires Whole(a, Fresh(None)) && AtTop(After(a, Fresh(None))) && Whole(b, Fresh(Some(',')))
    requires Trim(a) == a && a != "" && Trim(b) != ""
    ensures SplitCommas(a + "," + b) == [a, Trim(b)]
  {
    FirstToken(a, b, Fresh(None), "");
    WholeIsOneToken(b, Fresh(Some(',')), "");
    hide Trim, SplitFrom, Whole, After;
    assert "" + a == a && "" + b == b;
  }

  lemma OneToken(a: string)
    requires Whole(a, Fresh(None)) && Trim(a) == a && a != ""
    ensures SplitCommas(a) == [a]
  {
    WholeIsOneToken(a, Fresh(None), "");
    hide Trim, SplitFrom;
    assert "" + a == a;
  }

  lemma NormalizeOne(s: string, a: string)
    requires Peel(Fragment(s)) == a && |SplitCommas(a)| == 1
    ensures Normalize(s) == SpaceAfterCommas(a)
  {
  }

  lemma NormalizeTwo(s: string, a: string, b: string)
    requires Peel(Fragment(s)) == s && SplitCommas(s) == [a, b]
    ensures Normalize(s) == "(" + Normalize(a) + ", " + Normalize(b) + ")"
  {
    hide Normalize, Fragment, SplitFrom, Peel;
    PartsShrink(s);
    var parts := SplitCommas(s);
    assert parts[..1] == [a] && [a][..0] == [];
    UnfoldNormalize(s);
    assert NormalizeAll([], |s|) == [];
    assert NormalizeAll([a], |s|) == [Normalize(a)];
    assert NormalizeAll([a, b], |s|) == [Normalize(a), Normalize(b)];
    var ns := [Normalize(a), Normalize(b)];
    assert ns[..1] == [Normalize(a)];
    assert JoinCommas(ns) == Normalize(a) + ", " + Normalize(b);
    assert "(" + (Normalize(a) + ", " + Normalize(b)) + ")" == "(" + Normalize(a) + ", " + Normalize(b) + ")";
  }

  lemma UnfoldNormalize(s: string)
    requires Peel(Fragment(s)) == s && |SplitCommas(s)| >= 2
    ensures (forall i :: 0 <= i < |SplitCommas(s)| ==> |SplitCommas(s)[i]| < |s|)
    ensures Normalize(s) == "(" + JoinCommas(NormalizeAll(SplitCommas(s), |s|)) + ")"
  {
    PartsShrink(s);
    hide Fragment, SplitFrom, Peel, JoinCommas, NormalizeAll;
  }

  lemma TwoCharacters(a: char, b: char, l: Lex)
    ensures Whole([a, b], l) <==> !Separates(l, a) && !Separates(Next(l, a), b)
    ensures After([a, b], l) == Next(Next(l, a), b)
  {
    WholeLast("", a, l);
    WholeLast([a], b, l);
    assert "" + [a] == [a] && [a] + [b] == [a, b];
  }

  /** Two characters, neither a comma nor a quote nor a space, are one element and normalise to themselves. */
  lemma PairIsNormal(a: char, b: char)
    requires !IsSpace(a) && !IsSpace(b) && a != ',' && b != ',' && !IsQuote(a) && !(a == '(' && b == ')')
    ensures Fragment([a, b]) == [a, b] && Peel([a, b]) == [a, b] && Trim([a, b]) == [a, b]
    ensures SplitCommas([a, b]) == [[a, b]] && Normalize([a, b]) == [a, b]
  {
    var s := [a, b];
    NormalIsFragment(s);
    TrimOfTrimmed(s);
    TwoCharacters(a, b, Fresh(None));
    OneToken(s);
    NormalizeOne(s, s);
    assert s[1..] == [b] && [b][1..] == "";
    assert SpaceFrom([b], Next(Fresh(None), a)) == [b] + SpaceFrom("", Next(Next(Fresh(None), a), b));
    hide Trim, Whole, After, SplitFrom, Normalize, Peel, Fragment;
    assert SpaceAfterCommas(s) == [a] + SpaceFrom([b], Next(Fresh(None), a));
  }

  // ----- a parenthesis too many -----

  predicate Plain(c: char) {
    !IsSpace(c) && !IsQuote(c) && c != ',' && c != '(' && c != ')'
  }

  lemma OpenPair(a: char, b: char)
    requires Plain(a) && Plain(b)
    ensures var s := [a, ')', ',', '(', b]; SplitCommas(s) == [[a, ')'], ['(', b]] && Peel(Fragment(s)) == s
  {
    var s := [a, ')', ',', '(', b];
    NormalIsFragment(s);
    assert Peel(s) == s;
    hide Fragment, Peel, SplitFrom, Normalize;
    PairIsNormal(a, ')');
    PairIsNormal('(', b);
    TwoCharacters(a, ')', Fresh(None));
    TwoCharacters('(', b, Fresh(Some(',')));
    TwoTokens([a, ')'], ['(', b]);
    assert [a, ')'] + "," + ['(', b] == s;
  }

  lemma OnceOpen(a: char, b: char)
    requires Plain(a) && Plain(b)
    ensures Normalize([a, ')', ',', '(', b]) == ['(', a, ')', ',', ' ', '(', b, ')']
  {
    OpenPair(a, b);
    PairIsNormal(a, ')');
    PairIsNormal('(', b);
    hide *;
    NormalizeTwo([a, ')', ',', '(', b], [a, ')'], ['(', b]);
    assert "(" + [a, ')'] + ", " + ['(', b] + ")" == ['(', a, ')', ',', ' ', '(', b, ')'];
  }

  lemma LetterIsNormal(a: char)
    requires Plain(a)
    ensures Fragment([a]) == [a] && Peel([a]) == [a] && Trim([a]) == [a] && SplitCommas([a]) == [[a]] && SpaceAfterCommas([a]) == [a]
    ensures Whole([a], Fresh(None)) && After([a], Fresh(None)) == Fresh(Some(a)) && Balanced([a])
  {
    var s := [a];
    NormalIsFragment(s);
    TrimOfTrimmed(s);
    assert s[..0] == "" && s[1..] == "" && "" + [a] == s;
    NestedLast("", a, Fresh(None));
    assert Whole(s, Fresh(None));
    hide Trim, Fragment, Peel;
    OneToken(s);
    assert SpaceFrom("", Next(Fresh(None), a)) == "";
  }

  /** A letter in parentheses is that letter. */
  lemma PeeledLetter(a: char)
    requires Plain(a)
    ensures var s := ['(', a, ')'];
      Trim(s) == s && Whole(s, Fresh(None)) && AtTop(After(s, Fresh(None))) && Normalize(s) == [a]
  {
    var s := ['(', a, ')'];
    LetterIsNormal(a);
    NormalIsFragment(s);
    TrimOfTrimmed(s);
    assert "(" + [a] + ")" == s && s[1..2] == [a];
    hide Whole, After, Nested, Fragment, Trim, SplitFrom, SpaceFrom;
    Parenthesised([a]);
    assert Peel(s) == [a];
    hide Peel;
    NormalizeOne(s, [a]);
  }

  lemma NotWrapped(a: char, b: char)
    requires Plain(a) && Plain(b)
    ensures var t := ['(', a, ')', ',', ' ', '(', b, ')']; Peel(Fragment(t)) == t
  {
    var t := ['(', a, ')', ',', ' ', '(', b, ')'];
    NormalIsFragment(t);
    LetterIsNormal(a);
    var m := t[1..7];
    assert m[0] == a && m[1] == ')' && |m| == 6;
    assert m[..2] == [a] + [')'];
    NestedLast([a], ')', Fresh(None));
    hide After, Fragment, Trim;
    if Nested(m, Fresh(None)) {
      NestedPrefix(m, 2, Fresh(None));
    }
  }

  lemma SecondOpen(a: char, b: char)
    requires Plain(a) && Plain(b)
    ensures var t := ['(', a, ')', ',', ' ', '(', b, ')'];
      SplitCommas(t) == [['(', a, ')'], ['(', b, ')']]
  {
    var t, x, y := ['(', a, ')', ',', ' ', '(', b, ')'], ['(', a, ')'], ['(', b, ')'];
    PeeledLetter(a);
    PeeledLetter(b);
    assert [' '] + y == [' ', '(', b, ')'] && ([' '] + y)[1..] == y;
    assert Trim([' '] + y) == y;
    WholeFirst(' ', y, Fresh(Some(',')));
    PrevIsForgotten(y, 0, None, Some(' '));
    hide Trim, SplitFrom, Whole, After, Normalize;
    TwoTokens(x, [' '] + y);
    assert x + "," + ([' '] + y) == t;
  }

  /** One closing parenthesis too many: normalising again peels what normalising added. */
  lemma UnbalancedChanges(a: char, b: char)
    requires Plain(a) && Plain(b)
    ensures var s := [a, ')', ',', '(', b]; Normalize(Normalize(s)) != Normalize(s) && !ProjectionExact.Final(s)
  {
    var t := ['(', a, ')', ',', ' ', '(', b, ')'];
    OnceOpen(a, b);
    NotWrapped(a, b);
    SecondOpen(a, b);
    PeeledLetter(a);
    hide *;
    NormalizeTwo(t, ['(', a, ')'], ['(', b, ')']);
    assert ("(" + [a] + ", " + Normalize(['(', b, ')']) + ")")[2] == ',';
    ProjectionExact.IdempotentIff([a, ')', ',', '(', b]);
  }

  // ----- an empty element -----

  lemma EmptyTuple()
    ensures Normalize("()") == "" && Whole("()", Fresh(Some(','))) && Trim("()") == "()"
  {
    var s := "()";
    TwoCharacters('(', ')', Fresh(Some(',')));
    TrimOfTrimmed(s);
    NormalIsFragment(s);
    assert s[1..1] == "";
    assert Peel(s) == "";
    EmptyStays();
  }

  lemma OnceEmpty(a: char)
    requires Plain(a)
    ensures Normalize([a, ',', '(', ')']) == ['(', a, ',', ' ', ')']
  {
    var s := [a, ',', '(', ')'];
    NormalIsFragment(s);
    assert Peel(s) == s;
    LetterIsNormal(a);
    EmptyTuple();
    NormalizeOne([a], [a]);
    hide Fragment, Peel, SplitFrom, Normalize, Whole, After, Trim, SpaceFrom, Balanced;
    TwoTokens([a], "()");
    assert [a] + "," + "()" == s;
    NormalizeTwo(s, [a], "()");
    assert "(" + [a] + ", " + "" + ")" == ['(', a, ',', ' ', ')'];
  }

  lemma CommaSplits(a: char)
    requires Plain(a)
    ensures SplitCommas([a, ',']) == [[a]] && Peel([a, ',']) == [a, ',']
  {
    LetterIsNormal(a);
    hide Trim, After, Whole, Nested;
    FirstToken([a], "", Fresh(None), "");
    assert [a] + "," + "" == [a, ','] && "" + [a] == [a];
    assert Token("") == [] by {
      assert Trim("") == "";
    }
  }

  lemma CommaSpaces(a: char)
    requires Plain(a)
    ensures SpaceAfterCommas([a, ',']) == [a, ',', ' ']
  {
    var l := Next(Fresh(None), a);
    assert [a, ','][1..] == [','] && [','][1..] == "";
    assert SpaceFrom("", Next(l, ',')) == "";
    assert SpaceFrom([','], l) == ", " + SpaceFrom("", Next(l, ','));
    assert SpaceFrom([a, ','], Fresh(None)) == [a] + SpaceFrom([','], l);
  }

  lemma CommaIsInside(a: char)
    requires Plain(a)
    ensures Balanced([a, ',', ' '])
  {
    var e, m := [a, ','], [a, ',', ' '];
    LetterIsNormal(a);
    assert [a] + [','] == e && e + [' '] == m;
    hide Trim, SplitFrom, SpaceFrom, Fragment, Peel, After, Nested;
    WholeLast([a], ',', Fresh(None));
    NestedLast([a], ',', Fresh(None));
    WholeLast(e, ' ', Fresh(None));
    NestedLast(e, ' ', Fresh(None));
  }

  lemma CommaTrims(a: char)
    requires Plain(a)
    ensures Trim([a, ',', ' ']) == [a, ',']
  {
    var e, m := [a, ','], [a, ',', ' '];
    assert m[..2] == e;
    assert TrimStart(m) == m && TrimEnd(e) == e;
    assert TrimEnd(m) == TrimEnd(m[..2]);
  }

  /** An empty element: normalising again takes the list for a single element. */
  lemma EmptyElementChanges(a: char)
    requires Plain(a)
    ensures var s := [a, ',', '(', ')']; Normalize(Normalize(s)) != Normalize(s) && !ProjectionExact.Final(s)
  {
    var u, m := ['(', a, ',', ' ', ')'], [a, ',', ' '];
    OnceEmpty(a);
    CommaSplits(a);
    CommaSpaces(a);
    CommaIsInside(a);
    CommaTrims(a);
    NormalIsFragment(u);
    assert u[1..4] == m;
    hide Fragment, Balanced, Trim, SplitFrom, SpaceFrom, Normalize;
    assert Peel(u) == Peel([a, ',']);
    hide Peel;
    NormalizeOne(u, [a, ',']);
    hide ProjectionExact.Final;
    ProjectionExact.IdempotentIff([a, ',', '(', ')']);
  }
}
