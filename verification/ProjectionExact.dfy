/**
 When normalising a projection index twice is normalising it once, on every text: unbalanced lists join
 the balanced ones, and settle exactly when only their last element fails to close.
 */
module ProjectionExact {
  import opened Wrappers
  import opened SqlText
  import opened KeyClause
  import opened Projection
  import opened ProjectionClean

  /** All elements but the last are balanced. */
  predicate FrontCloses(parts: seq<string>) {
    forall i :: 0 <= i < |parts| - 1 ==> Balanced(parts[i])
  }

  /** The texts on which a second pass changes nothing. */
  predicate Final(index: string) {
    |Parts(index)| >= 2 ==> if Balanced(Fragment(index)) then Clean(index) else FrontCloses(Parts(index))
  }

  // ----- what tokens are, balanced or not -----

  /** Parentheses and quotes are closed at the end, whatever was closed too often before. */
  predicate Shut(s: string) {
    AtTop(After(s, Fresh(None)))
  }

  lemma {:induction false} TrimStartReads(s: string, p: Option<char>)
    ensures Same(After(TrimStart(s), Fresh(None)), After(s, Fresh(p)))
    ensures Nested(TrimStart(s), Fresh(None)) <==> Nested(s, Fresh(p))
    decreases |s|
  {
    if s != "" && IsSpace(s[0]) {
      var rest := s[1..];
      assert s == [s[0]] + rest;
      RunsFirst(s[0], rest, Fresh(p));
      SameRuns(rest, Next(Fresh(p), s[0]), Fresh(None));
      TrimStartReads(rest, None);
      SameRuns(rest, Fresh(None), Fresh(p));
    } else {
      SameRuns(s, Fresh(p), Fresh(None));
    }
  }

  lemma {:induction false} TrimEndReads(s: string)
    ensures AtTop(After(TrimEnd(s), Fresh(None))) <==> AtTop(After(s, Fresh(None)))
    ensures Nested(TrimEnd(s), Fresh(None)) <==> Nested(s, Fresh(None))
  {
    if s != "" && IsSpace(s[|s| - 1]) {
      OpenQuote(s[..|s| - 1], None);
      TrimEndReads(s[..|s| - 1]);
    }
  }

  /** Trimming changes nothing of what is open. */
  lemma TrimReads(s: string, p: Option<char>)
    ensures Shut(Trim(s)) <==> AtTop(After(s, Fresh(p)))
    ensures Nested(Trim(s), Fresh(None)) <==> Nested(s, Fresh(p))
  {
    hide After, Nested;
    TrimStartReads(s, p);
    TrimEndReads(TrimStart(s));
  }

  /** Every token but the last ends where a comma separates. */
  lemma {:induction false} TokensShut(s: string, l: Lex, current: string, p: Option<char>, i: nat)
    requires After(current, Fresh(p)) == l && i < |SplitFrom(s, l, current)| - 1
    ensures Shut(SplitFrom(s, l, current)[i])
    decreases |s|
  {
    hide Trim, After;
    if s == "" {
    } else if Separates(l, s[0]) {
      TrimReads(current, p);
      if i >= |Token(current)| {
        NothingRead(Some(','));
        TokensShut(s[1..], Fresh(Some(',')), "", Some(','), i - |Token(current)|);
      }
    } else {
      WholeLast(current, s[0], Fresh(p));
      TokensShut(s[1..], Next(l, s[0]), current + [s[0]], p, i);
    }
  }

  /** Tokens of a text with lone spaces are trimmed, and nothing separates in them. */
  predicate Bare(t: string) {
    t != "" && Normal(t) && Whole(t, Fresh(None))
  }

  lemma {:induction false} TokensAreNormal(e: string, a: nat, b: nat, l: Lex, t: string)
    requires Lone(e) && a <= b <= |e| && t in SplitFrom(e[b..], l, e[a..b])
    ensures Normal(t)
    decreases |e| - b
  {
    hide Trim, Lone, Normal;
    SliceIsNormal(e, a, b);
    if b < |e| {
      assert e[b..][0] == e[b] && e[b..][1..] == e[b + 1..] && e[a..b + 1] == e[a..b] + [e[b]];
      if Separates(l, e[b]) {
        if t !in Token(e[a..b]) {
          assert e[b + 1..b + 1] == "";
          TokensAreNormal(e, b + 1, b + 1, Fresh(Some(',')), t);
        }
      } else {
        TokensAreNormal(e, a, b + 1, Next(l, e[b]), t);
      }
    }
  }

  lemma TokensAreBare(e: string, t: string)
    requires Lone(e) && t in SplitCommas(e)
    ensures Bare(t)
  {
    hide Trim, SplitFrom, Lone, Whole, Normal;
    assert e[0..] == e && e[0..0] == "";
    TokensAreNormal(e, 0, 0, Fresh(None), t);
    EveryTokenResplits(e, t);
    if !Whole(t, Fresh(None)) {
      TokensAreShorter(t, Fresh(None), "", t);
    }
  }

  lemma PartsAreBare(index: string)
    ensures forall t :: t in Parts(index) ==> Bare(t) && Fragment(t) == t
    ensures FrontShut(Parts(index))
  {
    FragmentIsNormal(index);
    PeelShrinks(Fragment(index));
    var e := Peel(Fragment(index));
    assert After("", Fresh(None)) == Fresh(None);
    hide Fragment, Peel, SplitFrom, Bare, Wrapped, Shut, After;
    forall t | t in Parts(index) ensures Bare(t) && Fragment(t) == t {
      TokensAreBare(e, t);
      NormalOfBare(t);
      NormalIsFragment(t);
    }
    forall i | 0 <= i < |Parts(index)| - 1 ensures Shut(Parts(index)[i]) {
      TokensShut(e, Fresh(None), "", None, i);
    }
  }

  lemma NormalOfBare(t: string)
    requires Bare(t)
    ensures Normal(t)
  {
  }

  predicate FrontShut(parts: seq<string>) {
    forall i :: 0 <= i < |parts| - 1 ==> Shut(parts[i])
  }

  // ----- tokens that are all balanced make a balanced text -----

  lemma BlankIsBalanced(s: string)
    requires Trim(s) == ""
    ensures Balanced(Trim(s))
  {
  }

  lemma {:induction false} TokensBalance(s: string, l: Lex, current: string, p: Option<char>)
    requires After(current, Fresh(p)) == l && forall t :: t in SplitFrom(s, l, current) ==> Balanced(t)
    ensures Nested(current, Fresh(p)) && Nested(s, l) && AtTop(After(s, l))
    decreases |s|
  {
    hide Trim, After, Nested, Balanced;
    var ts := SplitFrom(s, l, current);
    if s == "" {
      ReadsBalanced(current, p, ts);
      NothingLeft(s, l);
      NothingNested(s, l);
    } else {
      assert s == [s[0]] + s[1..];
      RunsFirst(s[0], s[1..], l);
      if Separates(l, s[0]) {
        ReadsBalanced(current, p, ts);
        NothingRead(Some(','));
        FreshIsNext(l);
        TokensBalance(s[1..], Fresh(Some(',')), "", Some(','));
      } else {
        WholeLast(current, s[0], Fresh(p));
        NestedLast(current, s[0], Fresh(p));
        TokensBalance(s[1..], Next(l, s[0]), current + [s[0]], p);
      }
    }
  }

  lemma NothingNested(s: string, l: Lex)
    requires s == ""
    ensures Nested(s, l)
  {
  }

  lemma ReadsBalanced(current: string, p: Option<char>, ts: seq<string>)
    requires Token(current) <= ts && forall t :: t in ts ==> Balanced(t)
    ensures Nested(current, Fresh(p)) && AtTop(After(current, Fresh(p)))
  {
    TrimReads(current, p);
    if Trim(current) == "" {
      BlankIsBalanced(current);
    } else {
      assert Token(current)[0] in ts;
    }
    hide Trim, After, Nested;
  }

  /** A list whose elements are all balanced is balanced. */
  lemma PartsBalance(index: string)
    requires forall t :: t in Parts(index) ==> Balanced(t)
    ensures Balanced(Fragment(index))
  {
    var e := Peel(Fragment(index));
    NothingRead(None);
    TokensBalance(e, Fresh(None), "", None);
    hide Peel, SplitFrom, Nested, After;
    WrappedIsBalanced(Fragment(index));
  }

  lemma WrappedIsBalanced(s: string)
    requires Balanced(Peel(s))
    ensures Balanced(s)
  {
    if Wrapped(s) {
      Parenthesised(s[1..|s| - 1]);
      assert s == "(" + s[1..|s| - 1] + ")";
    }
  }

  // ----- the normal form of a token -----

  /** A token that is not balanced is one element, and only spaced. */
  lemma OpenTokenIsSpaced(t: string)
    requires Bare(t) && !Balanced(t)
    ensures Normalize(t) == SpaceAfterCommas(t)
  {
    NormalIsFragment(t);
    OneToken(t);
    NotClosedNotWrapped(t);
    NotWrappedIsPeeled(t);
    hide Fragment, Peel, SplitFrom, SpaceFrom, Balanced, Wrapped, Normal, Whole;
  }

  lemma NotClosedNotWrapped(t: string)
    ensures Wrapped(t) ==> Balanced(t)
  {
    if Wrapped(t) {
      Parenthesised(t[1..|t| - 1]);
      assert t == "(" + t[1..|t| - 1] + ")";
    }
  }

  /** What normalising keeps of a token. */
  lemma TokenKeeps(t: string)
    requires Bare(t) && Fragment(t) == t
    ensures var n := Normalize(t);
      && Neat(n) && (Shut(t) ==> Shut(n)) && (Balanced(n) <==> Balanced(t)) && (Balanced(t) ==> Tidy(n))
      && (!Balanced(t) ==> n != "" && Whole(n, Fresh(None)) && (Shut(n) ==> !Nested(n, Fresh(None))))
  {
    if Balanced(t) {
      NormalizeIsTidy(t);
      hide Lone, Airy, Nested, After, Normalize;
    } else {
      OpenTokenIsSpaced(t);
      hide Normalize, Fragment;
      SpacingStaysLone(t, Fresh(None));
      SpacingKeeps(t, Fresh(None), Fresh(None));
      SpacingIsAiry(t, Fresh(None), Fresh(None));
    }
  }

  // ----- a list inside its parentheses -----

  /** Inside one more parenthesis the text is read the same, until it closes that one, too. */
  lemma {:induction false} Above(s: string, l: Lex)
    ensures var a, b := After(s, l.(depth := l.depth + 1)), After(s, l);
      a.quote == b.quote && a.prev == b.prev && a.depth == if Nested(s, l) then b.depth + 1 else b.depth
    ensures Whole(s, l) ==> Whole(s, l.(depth := l.depth + 1))
  {
    if s != "" {
      Above(s[..|s| - 1], l);
    }
  }

  predicate AllShut(ns: seq<string>) {
    forall i :: 0 <= i < |ns| ==> Shut(ns[i])
  }

  predicate AllNested(ns: seq<string>) {
    forall i :: 0 <= i < |ns| ==> Nested(ns[i], Fresh(None))
  }

  const INSIDE := Lex(1, None, None)

  /** Where reading stands behind joined elements, at top level and inside a parenthesis. */
  predicate Reads(j: string, nested: bool) {
    var a := After(j, INSIDE);
    Shut(j) && (Nested(j, Fresh(None)) <==> nested) && a.quote.None? && a.depth == if nested then 1 else 0
  }

  lemma OneReads(n: string)
    requires Shut(n)
    ensures Reads(n, Nested(n, Fresh(None)))
  {
    Above(n, Fresh(None));
  }

  lemma MoreReads(j: string, n: string, nested: bool)
    requires Reads(j, nested) && Shut(n)
    ensures Reads(j + ", " + n, nested && Nested(n, Fresh(None)))
  {
    hide After, Nested, Whole;
    var l, a := Fresh(None), After(j, INSIDE);
    assert j + ", " + n == j + (", " + n);
    Runs(j, ", " + n, l);
    Runs(j, ", " + n, INSIDE);
    CommaSpace(n, After(j, l));
    CommaSpace(n, a);
    SameRuns(n, Next(After(j, l), ','), l);
    Above(n, l);
    SameRuns(n, Next(a, ','), if nested then INSIDE else l);
  }

  lemma {:induction false} JoinReads(ns: seq<string>)
    requires ns != [] && AllShut(ns)
    ensures Reads(JoinCommas(ns), AllNested(ns))
  {
    hide Reads, Nested, Shut;
    if |ns| == 1 {
      OneReads(ns[0]);
      assert AllNested(ns) == Nested(ns[0], Fresh(None));
    } else {
      var front, last := ns[..|ns| - 1], ns[|ns| - 1];
      JoinReads(front);
      MoreReads(JoinCommas(front), last, AllNested(front));
      assert AllNested(ns) == (AllNested(front) && Nested(last, Fresh(None)));
    }
  }

  lemma {:induction false} JoinAllNeat(ns: seq<string>)
    requires ns != [] && AllShut(ns) && forall i :: 0 <= i < |ns| ==> Neat(ns[i])
    ensures Neat(JoinCommas(ns))
  {
    hide Neat, Shut;
    if |ns| > 1 {
      var front := ns[..|ns| - 1];
      JoinAllNeat(front);
      JoinReads(front);
      assert After(JoinCommas(front), Fresh(None)).quote.None? by {
        ReadsShut(JoinCommas(front), AllNested(front));
      }
      JoinNeat(JoinCommas(front), ns[|ns| - 1]);
    }
  }

  lemma ReadsShut(j: string, nested: bool)
    requires Reads(j, nested)
    ensures After(j, Fresh(None)).quote.None?
  {
  }

  // ----- only the last element is open -----

  /** The list, its parentheses included. */
  function Tuple(j: string, n: string): string {
    "(" + (j + ", " + n) + ")"
  }

  lemma TupleReads(j: string, n: string, nested: bool)
    requires Reads(j, nested)
    ensures Wrapped(Tuple(j, n)) <==> nested && Balanced(n)
    ensures Whole(n, Fresh(None)) && nested ==> Whole(Tuple(j, n), Fresh(None))
  {
    var l, m, y := Fresh(None), j + ", " + n, Tuple(j, n);
    assert m == j + (", " + n) && y[1..|y| - 1] == m;
    Runs(j, ", " + n, l);
    CommaSpace(n, After(j, l));
    SameRuns(n, Next(After(j, l), ','), l);
    TupleIsWhole(j, n, nested);
  }

  lemma TupleIsWhole(j: string, n: string, nested: bool)
    requires Reads(j, nested)
    ensures Whole(n, Fresh(None)) && nested ==> Whole(Tuple(j, n), Fresh(None))
  {
    if Whole(n, Fresh(None)) && nested {
      var l, a, rest := Fresh(None), After(j, INSIDE), j + ", " + n;
      assert rest == j + (", " + n);
      Deeper(j, l);
      Runs(j, ", " + n, INSIDE);
      CommaSpace(n, a);
      Above(n, l);
      SameRuns(n, Next(a, ','), INSIDE);
      assert Whole(rest, INSIDE);
      SameRuns(rest, INSIDE, Next(l, '('));
      RunsFirst('(', rest, l);
      WholeLast(['('] + rest, ')', l);
      assert Tuple(j, n) == (['('] + rest) + [')'];
    }
  }

  /** A neat text that is one token and not wrapped is its own normal form. */
  lemma WholeStays(y: string)
    requires y != "" && Normal(y) && Neat(y) && Whole(y, Fresh(None)) && !Wrapped(y)
    ensures Normalize(y) == y
  {
    AiryMayEnd(y, Fresh(None));
    AirySpaces(y, Fresh(None));
    NormalIsFragment(y);
    NotWrappedIsPeeled(y);
    hide Airy, Wrapped, SplitFrom, SpaceFrom, Trim, Whole;
    OneToken(y);
    hide Normal, Fragment, Peel;
  }

  /** The normal form of a list: the joined elements before the last one, and the last one. */
  lemma ListIsTuple(index: string) returns (front: seq<string>, n: string)
    requires |Parts(index)| >= 2
    ensures Each(Parts(index)) == front + [n] && front != [] && |front| == |Parts(index)| - 1
    ensures n == Normalize(Parts(index)[|Parts(index)| - 1]) && Normalize(index) == Tuple(JoinCommas(front), n)
  {
    ListNormalizes(index);
    var parts := Parts(index);
    hide Normalize, Fragment, Peel, SplitFrom;
    front, n := Each(parts[..|parts| - 1]), Normalize(parts[|parts| - 1]);
    var ns := Each(parts);
    assert ns == front + [n] && ns[..|ns| - 1] == front;
  }

  /** The elements before the last one, normalised. */
  lemma FrontIsShut(parts: seq<string>, front: seq<string>, n: string)
    requires parts != [] && Each(parts) == front + [n] && FrontShut(parts)
    requires forall t :: t in parts ==> Bare(t) && Fragment(t) == t
    ensures AllShut(front) && (forall i :: 0 <= i < |front| ==> Neat(front[i])) && Neat(n)
    ensures forall i :: 0 <= i < |front| ==> (Nested(front[i], Fresh(None)) <==> Balanced(parts[i]))
  {
    hide Normalize, Fragment, Bare, Neat, Shut, Nested, Balanced;
    EachAt(parts, |parts| - 1);
    assert n == (front + [n])[|front|] && |front| == |parts| - 1;
    TokenKeeps(parts[|parts| - 1]);
    forall i | 0 <= i < |front|
      ensures Shut(front[i]) && Neat(front[i]) && (Nested(front[i], Fresh(None)) <==> Balanced(parts[i]))
    {
      EachAt(parts, i);
      assert front[i] == (front + [n])[i];
      TokenKeeps(parts[i]);
      ShutNested(front[i]);
    }
  }

  lemma ShutNested(n: string)
    requires Shut(n)
    ensures Nested(n, Fresh(None)) <==> Balanced(n)
  {
  }

  lemma NestedIffFrontCloses(parts: seq<string>, front: seq<string>)
    requires |front| == |parts| - 1
    requires forall i :: 0 <= i < |front| ==> (Nested(front[i], Fresh(None)) <==> Balanced(parts[i]))
    ensures AllNested(front) <==> FrontCloses(parts)
  {
    hide Nested, Balanced;
    assert FrontCloses(parts) ==> forall i :: 0 <= i < |front| ==> Balanced(parts[i]);
  }

  /** Something in an unbalanced list is not balanced. */
  lemma SomethingIsOpen(index: string)
    requires !Balanced(Fragment(index)) && |Parts(index)| >= 1 && FrontCloses(Parts(index))
    ensures !Balanced(Parts(index)[|Parts(index)| - 1])
  {
    var parts := Parts(index);
    hide Fragment, Parts, Balanced;
    if Balanced(parts[|parts| - 1]) {
      forall t | t in parts ensures Balanced(t) {
        var i :| 0 <= i < |parts| && parts[i] == t;
      }
      PartsBalance(index);
    }
  }

  /** When only the last element is open, the whole tuple is read as one element. */
  lemma OpenListStays(index: string)
    requires !Balanced(Fragment(index)) && |Parts(index)| >= 2 && FrontCloses(Parts(index))
    ensures Normalize(Normalize(index)) == Normalize(index)
  {
    hide *;
    var parts := Parts(index);
    SomethingIsOpen(index);
    PartsAreBare(index);
    var front, n := ListIsTuple(index);
    FrontIsShut(parts, front, n);
    NestedIffFrontCloses(parts, front);
    assert parts[|parts| - 1] in parts;
    TokenKeeps(parts[|parts| - 1]);
    OpenTupleStays(front, n);
  }

  lemma OpenTupleStays(front: seq<string>, n: string)
    requires front != [] && AllShut(front) && AllNested(front) && forall i :: 0 <= i < |front| ==> Neat(front[i])
    requires Neat(n) && !Balanced(n) && Whole(n, Fresh(None))
    ensures Normalize(Tuple(JoinCommas(front), n)) == Tuple(JoinCommas(front), n)
  {
    hide *;
    JoinReads(front);
    JoinAllNeat(front);
    var j := JoinCommas(front);
    ReadsShut(j, AllNested(front));
    JoinNeat(j, n);
    ParenNeat(j + ", " + n);
    TupleReads(j, n, AllNested(front));
    TupleForm(j, n);
    WholeStays(Tuple(j, n));
  }

  lemma TupleForm(j: string, n: string)
    ensures Tuple(j, n) == "(" + (j + ", " + n) + ")" && Tuple(j, n) != ""
  {
  }

  // ----- an earlier element is open -----

  lemma {:induction false} SpaceBefore(w: string)
    requires w != "" && IsSpace(w[0]) && TrimStart(w) != ""
    ensures |TrimStart(w)| < |w| && w[|w| - |TrimStart(w)|..] == TrimStart(w) && IsSpace(w[|w| - |TrimStart(w)| - 1])
  {
    var rest := w[1..];
    TrimStartShrinks(w);
    if IsSpace(rest[0]) {
      SpaceBefore(rest);
      assert rest[|rest| - |TrimStart(rest)| - 1] == w[|w| - |TrimStart(w)| - 1];
    } else {
      assert TrimStart(rest) == rest;
    }
  }

  /** The last token of a text that ends in a closing parenthesis. */
  predicate Ending(w: string, ts: seq<string>) {
    && ts != []
    && var t := ts[|ts| - 1];
      && 0 < |t| < |w| && w[|w| - |t|..] == t && IsSpace(w[|w| - |t| - 1])
  }

  lemma PieceIs(current: string)
    ensures Token(current + [')']) == [TrimStart(current) + [')']] && Trim(current + [')']) == TrimStart(current + [')'])
  {
    NotSpace(')');
    TrimStartBehindOther(current, ')');
    hide TrimStart, IsSpace;
  }

  lemma LastPiece(current: string, p: Option<char>)
    requires current != "" && IsSpace(current[0])
    ensures Ending(current + [')'], Token(current + [')']))
    ensures Balanced(Token(current + [')'])[|Token(current + [')'])| - 1]) ==> !AtTop(After(current, Fresh(p)))
  {
    hide TrimStart, Trim, Token, IsSpace, Nested, After;
    var w, u := current + [')'], TrimStart(current);
    PieceIs(current);
    NotSpace(')');
    TrimStartBehindOther(current, ')');
    SpaceBefore(w);
    TrimStartReads(current, p);
    NestedLast(u, ')', Fresh(None));
  }

  lemma LastAlone(current: string, p: Option<char>, l: Lex)
    requires After(current, Fresh(p)) == l && current != "" && IsSpace(current[0])
    ensures Ends(current + [')'], SplitFrom([')'], l, current), [')'], l)
  {
    hide Trim, Balanced, IsSpace;
    LastPiece(current, p);
    assert [')'][1..] == "" && [')'][..0] == "";
  }

  /** It is preceded by a space, and when it is balanced something was open before that parenthesis. */
  predicate Ends(w: string, ts: seq<string>, s: string, l: Lex) {
    Ending(w, ts) && s != "" && (Balanced(ts[|ts| - 1]) ==> !AtTop(After(s[..|s| - 1], l)))
  }

  lemma EndsSooner(w: string, ts: seq<string>, c: char, rest: string, l: Lex)
    requires Ends(w, ts, rest, Next(l, c))
    ensures Ends(w, ts, [c] + rest, l)
  {
    hide Ending, Balanced, After, Nested, Whole;
    assert ([c] + rest)[..|rest|] == [c] + rest[..|rest| - 1];
    RunsFirst(c, rest[..|rest| - 1], l);
    EndingIsSome(w, ts);
  }

  lemma EndingIsSome(w: string, ts: seq<string>)
    requires Ending(w, ts)
    ensures ts != []
  {
  }

  /** Behind a separating comma and its space. */
  lemma EndsBehind(current: string, rest: string, l: Lex, a: seq<string>, b: seq<string>)
    requires Separates(l, ',') && Ends(rest, b, rest, Fresh(Some(',')))
    ensures Ends(current + ([','] + rest), a + b, [','] + rest, l)
  {
    hide Ending, Balanced, After;
    var w := current + ([','] + rest);
    assert w[|w| - |rest|..] == rest;
    LongerEnding(w, rest, a, b);
    FreshIsNext(l);
    assert Ends(w, a + b, rest, Next(l, ',')) by {
      EndingIsSome(rest, b);
    }
    EndsSooner(w, a + b, ',', rest, l);
  }

  lemma {:induction false} LastToken(s: string, l: Lex, current: string, p: Option<char>)
    requires After(current, Fresh(p)) == l && Airy(s, l, true)
    requires s != "" && s[|s| - 1] == ')' && IsSpace((current + s)[0])
    ensures Ends(current + s, SplitFrom(s, l, current), s, l)
    decreases |s|
  {
    hide Trim, After, IsSpace, SplitFrom, Airy, Ends, Whole;
    if |s| == 1 {
      assert s == [')'];
      NotSpace(')');
      assert current != "" && (current + s)[0] == current[0];
      LastAlone(current, p, l);
    } else {
      var rest := s[1..];
      assert s == [s[0]] + rest;
      AiryFirst(s[0], rest, l, true);
      SplitOne(s[0], rest, l, current);
      if Separates(l, s[0]) {
        BlankIsSpace();
        NothingRead(Some(','));
        assert "" + rest == rest;
        LastToken(rest, Fresh(Some(',')), "", Some(','));
        EndsBehind(current, rest, l, Token(current), SplitFrom(rest, Fresh(Some(',')), ""));
      } else {
        WholeLast(current, s[0], Fresh(p));
        assert (current + [s[0]]) + rest == current + s;
        LastToken(rest, Next(l, s[0]), current + [s[0]], p);
        EndsSooner(current + s, SplitFrom(s, l, current), s[0], rest, l);
      }
    }
  }

  lemma NotSpace(c: char)
    requires c == '(' || c == ')'
    ensures !IsSpace(c)
  {
  }

  lemma LongerEnding(w: string, v: string, a: seq<string>, b: seq<string>)
    requires |v| <= |w| && w[|w| - |v|..] == v && Ending(v, b)
    ensures Ending(w, a + b) && (a + b)[|a + b| - 1] == b[|b| - 1]
  {
    var t := b[|b| - 1];
    hide IsSpace;
    assert forall i :: 0 <= i < |v| ==> v[i] == w[|w| - |v| + i];
    assert w[|w| - |t|..] == v[|v| - |t|..];
    assert w[|w| - |t| - 1] == v[|v| - |t| - 1];
  }

  lemma {:induction false} SomethingToSplit(s: string, l: Lex, current: string)
    requires Trim(current) != ""
    ensures SplitFrom(s, l, current) != []
    decreases |s|
  {
    if s != "" && !Separates(l, s[0]) {
      BlankStep(current, s[0]);
      hide Trim;
      SomethingToSplit(s[1..], Next(l, s[0]), current + [s[0]]);
    }
  }

  /** The text before the last element, with the parenthesis that is closed too early. */
  lemma EarlySplits(j: string, n: string)
    requires Reads(j, false) && Neat(n)
    ensures var p, q, y := "(" + j, " " + n + ")", Tuple(j, n);
      && SplitCommas(y) == SplitCommas(p) + SplitFrom(q, Fresh(Some(',')), "")
      && SplitCommas(p) != [] && Airy(q, Fresh(Some(',')), true)
      && After(y[..|y| - 1], Fresh(None)) == After(q[..|q| - 1], Fresh(Some(',')))
  {
    var l := Fresh(None);
    var p, q, y := "(" + j, " " + n + ")", Tuple(j, n);
    assert p == ['('] + j && y == p + "," + q && q == [' '] + (n + [')']);
    RunsFirst('(', j, l);
    SameRuns(j, INSIDE, Next(l, '('));
    assert AtTop(After(p, l));
    EarlyStarts(j);
    EarlyAiry(n);
    EarlyState(p, q, y, l);
    hide After, Airy, SplitFrom, Trim;
    SplitAtComma(p, q, l, "");
  }

  lemma EarlyStarts(j: string)
    ensures SplitCommas("(" + j) != []
  {
    var p := "(" + j;
    assert p[0] == '(' && p[1..] == j && "" + ['('] == ['('];
    NotSpace('(');
    TrimKeepsLast("", '(');
    hide Trim;
    SomethingToSplit(j, Next(Fresh(None), '('), ['(']);
  }

  lemma EarlyAiry(n: string)
    requires Neat(n)
    ensures Airy(" " + n + ")", Fresh(Some(',')), true)
  {
    var l := Next(Fresh(Some(',')), ' ');
    assert " " + n + ")" == [' '] + (n + [')']);
    assert Airy([')'], After(n, l), true) by {
      assert [')'][1..] == "";
    }
    hide Airy, After, Lone;
    AiryForgets(n, Fresh(None), l, false);
    AiryJoins(n, [')'], l, true);
    AiryFirst(' ', n + [')'], Fresh(Some(',')), true);
  }

  lemma EarlyState(p: string, q: string, y: string, l: Lex)
    requires AtTop(After(p, l)) && q != "" && y == p + "," + q
    ensures After(y[..|y| - 1], l) == After(q[..|q| - 1], Fresh(Some(',')))
  {
    var r := q[..|q| - 1];
    assert y[..|y| - 1] == p + ([','] + r);
    hide After;
    Runs(p, [','] + r, l);
    RunsFirst(',', r, After(p, l));
    assert Next(After(p, l), ',') == Fresh(Some(','));
  }

  /** What is known of the normal form of a list that closes too early. */
  lemma EarlyForm(index: string) returns (toks: seq<string>)
    requires |Parts(index)| >= 2 && !FrontCloses(Parts(index))
    ensures var y := Normalize(index);
      && toks == Parts(y) && |toks| >= 2 && y != "" && !Wrapped(y) && Airy(y, Fresh(None), true) && Ending(y, toks)
      && (Balanced(toks[|toks| - 1]) ==> !AtTop(After(y[..|y| - 1], Fresh(None))))
      && y[|y| - 1] == ')' && Fragment(y) == y
  {
    PartsAreBare(index);
    var parts := Parts(index);
    hide *;
    var front, n := ListIsTuple(index);
    FrontIsShut(parts, front, n);
    NestedIffFrontCloses(parts, front);
    JoinReads(front);
    JoinAllNeat(front);
    toks := TupleSplits(JoinCommas(front), n);
  }

  lemma TupleShape(j: string, n: string)
    requires Reads(j, false) && Neat(j) && Neat(n)
    ensures var y := Tuple(j, n);
      Parts(y) == SplitCommas(y) && Fragment(y) == y && !Wrapped(y) && Airy(y, Fresh(None), true)
  {
    hide Balanced, Reads, Neat, After, Airy, SplitFrom, Wrapped, Normal;
    TupleReads(j, n, false);
    ReadsShut(j, false);
    JoinNeat(j, n);
    ParenNeat(j + ", " + n);
    TupleForm(j, n);
    var y := Tuple(j, n);
    hide Tuple;
    NeatIsAiry(y);
    NormalIsFragment(y);
    NotWrappedIsPeeled(y);
    hide Fragment, Peel;
  }

  lemma QEnds(n: string)
    requires Neat(n)
    ensures var q := " " + n + ")";
      var ts := SplitFrom(q, Fresh(Some(',')), "");
      && Ending(q, ts) && ts != []
      && (Balanced(ts[|ts| - 1]) ==> !AtTop(After(q[..|q| - 1], Fresh(Some(',')))))
  {
    var q := " " + n + ")";
    EarlyAiry(n);
    NothingRead(Some(','));
    BlankIsSpace();
    hide Airy, After, SplitFrom, Balanced, Neat, IsSpace;
    assert "" + q == q && q[0] == ' ' && q[|q| - 1] == ')';
    LastToken(q, Fresh(Some(',')), "", Some(','));
  }

  lemma TupleSplits(j: string, n: string) returns (toks: seq<string>)
    requires Reads(j, false) && Neat(j) && Neat(n)
    ensures var y := Tuple(j, n);
      && toks == Parts(y) && |toks| >= 2 && y != "" && !Wrapped(y) && Airy(y, Fresh(None), true) && Ending(y, toks)
      && (Balanced(toks[|toks| - 1]) ==> !AtTop(After(y[..|y| - 1], Fresh(None))))
      && y[|y| - 1] == ')' && Fragment(y) == y
  {
    hide Reads, Neat, After, Airy, SplitFrom, Wrapped, Balanced, Ending, Fragment, Peel, Parts;
    var p, q, y := "(" + j, " " + n + ")", Tuple(j, n);
    TupleShape(j, n);
    EarlySplits(j, n);
    QEnds(n);
    toks := SplitCommas(y);
    assert y[|y| - |q|..] == q;
    LongerEnding(y, q, SplitCommas(p), SplitFrom(q, Fresh(Some(',')), ""));
  }

  /** An open last token is written again as it is, behind something that is no space. */
  lemma OpenEndMoves(y: string, toks: seq<string>, r: string, j: string)
    requires Ending(y, toks) && y != "" && y[|y| - 1] == ')'
    requires var t := toks[|toks| - 1]; Bare(t) && r == Tuple(j, t)
    ensures r != y
  {
    var t := toks[|toks| - 1];
    assert !IsSpace(t[0]);
    assert r[|r| - |t| - 1] == t[0];
  }

  lemma OpenTokenStays(t: string)
    requires Bare(t) && !Balanced(t) && Airy(t, Fresh(None), true) && t[|t| - 1] == ')'
    ensures Normalize(t) == t
  {
    OpenTokenIsSpaced(t);
    hide Normalize, After, Balanced, Whole, Normal;
    AiryEnds(t, Fresh(None));
    AirySpaces(t, Fresh(None));
  }

  /** In the second pass the tuple closes before its last parenthesis, where the first one did not. */
  lemma ClosesBefore(j: string, n: string)
    requires Reads(j, false) && Balanced(n)
    ensures var r := Tuple(j, n); AtTop(After(r[..|r| - 1], Fresh(None)))
  {
    var r, l, m := Tuple(j, n), Fresh(None), j + ", " + n;
    assert m == j + (", " + n) && r[..|r| - 1] == ['('] + m;
    RunsFirst('(', m, l);
    SameRuns(m, INSIDE, Next(l, '('));
    Runs(j, ", " + n, INSIDE);
    CommaSpace(n, After(j, INSIDE));
    SameRuns(n, Next(After(j, INSIDE), ','), l);
  }

  lemma AllBalancedIsWrapped(toks: seq<string>, r: string)
    requires toks != [] && r == "(" + JoinCommas(Each(toks)) + ")"
    requires forall i :: 0 <= i < |toks| ==> Balanced(toks[i]) && Fragment(toks[i]) == toks[i]
    ensures Wrapped(r)
  {
    hide Balanced, Fragment, Normalize, Wrapped, Tidy;
    forall i | 0 <= i < |toks| ensures Tidy(Each(toks)[i]) {
      EachAt(toks, i);
      NormalizeIsTidy(toks[i]);
    }
    JoinIsTidy(Each(toks));
    InParentheses(JoinCommas(Each(toks)));
  }

  lemma TokenIsAiry(y: string, t: string)
    requires Airy(y, Fresh(None), true) && t in Parts(y) && Peel(Fragment(y)) == y
    ensures Airy(t, Fresh(None), true)
  {
    hide Fragment, Peel, Airy, SplitFrom;
    assert y[0..] == y && y[0..0] == "";
    NothingRead(None);
    TokensAreAiry(y, 0, 0, Fresh(None), None, t);
  }

  /** What a tuple's last element is once the tuple was read again. */
  lemma SecondForm(y: string, toks: seq<string>) returns (front: seq<string>, n: string)
    requires toks == Parts(y) && |toks| >= 2
    ensures Each(toks) == front + [n] && |front| == |toks| - 1 && n == Normalize(toks[|toks| - 1])
    ensures Normalize(y) == Tuple(JoinCommas(front), n) && Normalize(y) == "(" + JoinCommas(Each(toks)) + ")"
    ensures AllShut(front) && (AllNested(front) <==> FrontCloses(toks))
  {
    PartsAreBare(y);
    ListNormalizes(y);
    hide *;
    front, n := ListIsTuple(y);
    FrontIsShut(toks, front, n);
    NestedIffFrontCloses(toks, front);
  }

  /** When an earlier element closes too often, the second pass changes the first one's result. */
  lemma EarlyListChanges(index: string)
    requires |Parts(index)| >= 2 && !FrontCloses(Parts(index))
    ensures Normalize(Normalize(index)) != Normalize(index)
  {
    hide *;
    var y := Normalize(index);
    var toks := EarlyForm(index);
    var front, n := SecondForm(y, toks);
    var t := toks[|toks| - 1];
    PartsAreBare(y);
    assert t in toks;
    if !Balanced(t) {
      OpenEnd(y, toks, t);
      OpenEndMoves(y, toks, Normalize(y), JoinCommas(front));
    } else if AllNested(front) {
      FrontAndLast(toks);
      AllBalancedIsWrapped(toks, Normalize(y));
    } else {
      TokenIsBalanced(t);
      JoinReads(front);
      ClosesBefore(JoinCommas(front), n);
    }
  }

  lemma FrontAndLast(toks: seq<string>)
    requires toks != [] && FrontCloses(toks) && Balanced(toks[|toks| - 1])
    ensures forall i :: 0 <= i < |toks| ==> Balanced(toks[i])
  {
    hide Balanced;
  }

  lemma TokenIsBalanced(t: string)
    requires Bare(t) && Fragment(t) == t && Balanced(t)
    ensures Balanced(Normalize(t))
  {
    hide Bare, Fragment, Balanced, Neat, Shut, Normalize;
    TokenKeeps(t);
  }

  lemma OpenEnd(y: string, toks: seq<string>, t: string)
    requires toks == Parts(y) && Ending(y, toks) && t == toks[|toks| - 1] && t in toks && Bare(t) && !Balanced(t)
    requires Airy(y, Fresh(None), true) && !Wrapped(y) && Fragment(y) == y && y[|y| - 1] == ')'
    ensures Normalize(t) == t
  {
    hide Airy, Fragment, Bare, Balanced, Parts, Wrapped, Normalize;
    NotWrappedIsPeeled(y);
    TokenIsAiry(y, t);
    assert t[|t| - 1] == y[|y| - 1];
    OpenTokenStays(t);
  }

  // ----- every text -----

  /**
   Normalising a projection index twice is normalising it once exactly when it is no list, or a balanced
   list of which every element of every list in it is something and is a list itself or holds no stray
   comma, or an unbalanced list of which only the last element is not balanced.
   */
  lemma IdempotentIff(index: string)
    ensures Normalize(Normalize(index)) == Normalize(index) <==> Final(index)
  {
    if |Parts(index)| == 0 {
      NothingStays(index);
    } else if |Parts(index)| == 1 {
      LoneStays(index);
    } else if Balanced(Fragment(index)) {
      IdempotentIffClean(index);
    } else if FrontCloses(Parts(index)) {
      OpenListStays(index);
    } else {
      EarlyListChanges(index);
    }
  }
}
