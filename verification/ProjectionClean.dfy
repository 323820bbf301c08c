/**
 Exactly when normalising a projection index a second time changes nothing: on balanced expressions, if
 and only if each element of a list is something, and is a list or holds no stray comma.
 */
module ProjectionClean {
  import opened Wrappers
  import opened SqlText
  import opened KeyClause
  import opened Projection

  // ----- the condition -----

  /** The elements the normaliser sees. */
  function Parts(index: string): seq<string> {
    SplitCommas(Peel(Fragment(index)))
  }

  /** An element is something, and when it is no list, no comma stands beside it. */
  predicate Solid(part: string) {
    Parts(part) != [] && (|Parts(part)| == 1 ==> Whole(Peel(Fragment(part)), Fresh(None)))
  }

  /** Every element of every list is solid. */
  predicate Clean(index: string)
    decreases |index|
  {
    PartsShrink(index);
    |Parts(index)| >= 2 ==> forall i :: 0 <= i < |Parts(index)| ==> Solid(Parts(index)[i]) && Clean(Parts(index)[i])
  }

  // ----- what splitting does not look at -----

  lemma {:induction false} SplitForgets(s: string, a: Lex, b: Lex, current: string)
    requires Same(a, b)
    ensures SplitFrom(s, a, current) == SplitFrom(s, b, current)
    decreases |s|
  {
    hide Trim;
    if s != "" && !Separates(a, s[0]) {
      SplitForgets(s[1..], Next(a, s[0]), Next(b, s[0]), current + [s[0]]);
    }
  }

  lemma TrimAhead(c: char, s: string)
    requires IsSpace(c)
    ensures Trim([c] + s) == Trim(s)
  {
    assert ([c] + s)[1..] == s;
  }

  lemma {:induction false} TrimStartBehind(s: string, c: char)
    requires IsSpace(c)
    ensures TrimStart(s + [c]) == if TrimStart(s) == "" then "" else TrimStart(s) + [c]
    decreases |s|
  {
    if s == "" {
      assert [c][1..] == "" && "" + [c] == [c];
    } else if IsSpace(s[0]) {
      assert (s + [c])[1..] == s[1..] + [c];
      TrimStartBehind(s[1..], c);
    }
  }

  lemma TrimBehind(s: string, c: char)
    requires IsSpace(c)
    ensures Trim(s + [c]) == Trim(s)
  {
    TrimStartBehind(s, c);
    var a := TrimStart(s);
    assert (a + [c])[..|a|] == a;
  }

  lemma {:induction false} SpaceAhead(c: char, s: string, l: Lex, current: string)
    requires IsSpace(c)
    ensures SplitFrom(s, l, [c] + current) == SplitFrom(s, l, current)
    decreases |s|
  {
    TrimAhead(c, current);
    hide Trim, IsSpace;
    if s != "" && !Separates(l, s[0]) {
      assert ([c] + current) + [s[0]] == [c] + (current + [s[0]]);
      SpaceAhead(c, s[1..], Next(l, s[0]), current + [s[0]]);
    }
  }

  lemma {:induction false} SpaceBehind(s: string, c: char, l: Lex, current: string)
    requires IsSpace(c)
    ensures SplitFrom(s + [c], l, current) == SplitFrom(s, l, current)
    decreases |s|
  {
    var all := s + [c];
    if s == "" {
      TrimBehind(current, c);
      assert all[1..] == "" && !Separates(l, c);
    } else {
      hide Trim, IsSpace;
      assert all[0] == s[0] && all[1..] == s[1..] + [c];
      if Separates(l, s[0]) {
        SpaceBehind(s[1..], c, Fresh(Some(',')), "");
      } else {
        SpaceBehind(s[1..], c, Next(l, s[0]), current + [s[0]]);
      }
    }
  }

  lemma {:induction false} TrimEndSplits(s: string)
    ensures SplitCommas(TrimEnd(s)) == SplitCommas(s)
  {
    if s != "" && IsSpace(s[|s| - 1]) {
      var front := s[..|s| - 1];
      assert s == front + [s[|s| - 1]];
      SpaceBehind(front, s[|s| - 1], Fresh(None), "");
      TrimEndSplits(front);
    }
  }

  /** A list element behind its comma and space. */
  lemma BehindSpace(n: string)
    ensures SplitFrom(" " + n, Fresh(Some(',')), "") == SplitCommas(n)
  {
    hide Trim;
    var s := " " + n;
    assert s[0] == ' ' && s[1..] == n && "" + [' '] == [' '] + "";
    SpaceAhead(' ', n, Next(Fresh(Some(',')), ' '), "");
    SplitForgets(n, Next(Fresh(Some(',')), ' '), Fresh(None), "");
  }

  // ----- spacing keeps the number of tokens -----

  lemma BlankStep(s: string, c: char)
    ensures Trim(s + [c]) == "" <==> Trim(s) == "" && IsSpace(c)
  {
    if IsSpace(c) {
      TrimBehind(s, c);
    } else {
      TrimKeepsLast(s, c);
    }
  }

  lemma {:induction false} TrimKeepsLast(s: string, c: char)
    requires !IsSpace(c)
    ensures Trim(s + [c]) != ""
    decreases |s|
  {
    if s == "" {
      assert s + [c] == [c];
    } else if IsSpace(s[0]) {
      assert (s + [c])[1..] == s[1..] + [c];
      TrimKeepsLast(s[1..], c);
    }
  }

  /** Both are blank, or neither is. */
  predicate Alike(a: string, b: string) {
    Trim(a) == "" <==> Trim(b) == ""
  }

  lemma AlikeStep(a: string, b: string, c: char)
    requires Alike(a, b)
    ensures Alike(a + [c], b + [c])
    ensures IsSpace(c) ==> Alike(a + [c], b)
  {
    BlankStep(a, c);
    BlankStep(b, c);
    hide Trim, IsSpace;
  }

  lemma SplitOne(c: char, s: string, l: Lex, current: string)
    ensures SplitFrom([c] + s, l, current)
      == if Separates(l, c) then Token(current) + SplitFrom(s, Fresh(Some(',')), "") else SplitFrom(s, Next(l, c), current + [c])
  {
    assert ([c] + s)[1..] == s;
  }

  lemma AlikeTokens(a: string, b: string)
    requires Alike(a, b)
    ensures |Token(a)| == |Token(b)|
  {
    hide Trim;
  }

  /** What is being read behind a comma. */
  function Begun(l: Lex, current: string): string {
    if Separates(l, ',') then "" else current + [',']
  }

  lemma BareComma(s: string, l: Lex, m: Lex, current: string)
    requires l.quote.None? && Same(m, Next(l, ','))
    ensures SplitFrom([','] + s, l, current) == (if Separates(l, ',') then Token(current) else []) + SplitFrom(s, m, Begun(l, current))
  {
    hide Trim, SplitFrom;
    SplitOne(',', s, l, current);
    SplitForgets(s, m, if Separates(l, ',') then Fresh(Some(',')) else Next(l, ','), Begun(l, current));
    assert [] + SplitFrom(s, m, Begun(l, current)) == SplitFrom(s, m, Begun(l, current));
  }

  lemma CommaAndSpace(s: string, l: Lex, m: Lex, current: string)
    requires l.quote.None? && Same(m, Next(l, ','))
    ensures SplitFrom(", " + s, l, current) == (if Separates(l, ',') then Token(current) else []) + SplitFrom(s, m, Begun(l, current) + [' '])
  {
    hide Trim, SplitFrom;
    assert ", " + s == [','] + ([' '] + s);
    BareComma([' '] + s, l, Next(l, ','), current);
    SplitOne(' ', s, Next(l, ','), Begun(l, current));
    SplitForgets(s, m, Next(Next(l, ','), ' '), Begun(l, current) + [' ']);
  }

  lemma BegunAlike(l: Lex, k: Lex, current: string, current': string)
    requires Same(l, k) && Alike(current, current')
    ensures Alike(Begun(l, current), Begun(k, current') + [' ']) && Alike(Begun(l, current) + [' '], Begun(k, current') + [' '])
  {
    var a, b := Begun(l, current), Begun(k, current');
    AlikeStep(current, current', ',');
    assert Alike(a, b);
    BlankStep(a, ' ');
    BlankStep(b, ' ');
    hide Trim;
  }

  /** A comma, the space behind it put in or there before, and a rest that keeps its count. */
  lemma CommaKeepsCount(s: string, rest: string, out: string, l: Lex, k: Lex, after: Lex, current: string, current': string, spaced: bool)
    requires l.quote.None? && Same(l, k) && Same(after, Next(l, ',')) && Alike(current, current')
    requires s == (if spaced then ", " else [',']) + rest
    requires |SplitFrom(out, Next(k, ','), Begun(k, current') + [' '])|
      == |SplitFrom(rest, after, if spaced then Begun(l, current) + [' '] else Begun(l, current))|
    ensures |SplitFrom(", " + out, k, current')| == |SplitFrom(s, l, current)|
  {
    AlikeTokens(current, current');
    hide Trim, IsSpace, Alike, Token, SplitFrom, Begun;
    CommaAndSpace(out, k, Next(k, ','), current');
    if spaced {
      CommaAndSpace(rest, l, after, current);
    } else {
      BareComma(rest, l, after, current);
    }
  }

  lemma {:induction false} SpacingKeepsCount(s: string, l: Lex, k: Lex, current: string, current': string)
    requires Same(l, k) && Alike(current, current')
    ensures |SplitFrom(SpaceFrom(s, l), k, current')| == |SplitFrom(s, l, current)|
    decreases |s|
  {
    AlikeTokens(current, current');
    hide Trim, IsSpace, Alike, Token;
    if s == "" {
    } else if l.quote.None? && s[0] == ',' {
      hide SplitFrom, Begun;
      var spaced := |s| > 1 && s[1] == ' ';
      var rest := if spaced then s[2..] else s[1..];
      var after := if spaced then Next(Next(l, ','), ' ') else Next(l, ',');
      BegunAlike(l, k, current, current');
      SpacingKeepsCount(rest, after, Next(k, ','), if spaced then Begun(l, current) + [' '] else Begun(l, current), Begun(k, current') + [' ']);
      CommaKeepsCount(s, rest, SpaceFrom(rest, after), l, k, after, current, current', spaced);
    } else {
      hide SplitFrom;
      var rest := s[1..];
      AlikeStep(current, current', s[0]);
      SpacingKeepsCount(rest, Next(l, s[0]), Next(k, s[0]), current + [s[0]], current' + [s[0]]);
      SplitOne(s[0], SpaceFrom(rest, Next(l, s[0])), k, current');
      assert s == [s[0]] + rest;
      SplitOne(s[0], rest, l, current);
    }
  }

  /** Spacing commas neither makes nor removes tokens. */
  lemma SpacingKeepsTokens(s: string)
    ensures |SplitCommas(SpaceAfterCommas(s))| == |SplitCommas(s)|
  {
    SpacingKeepsCount(s, Fresh(None), Fresh(None), "", "");
  }

  // ----- a lone element with stray commas -----

  lemma SpacedComma(f: string, l: Lex)
    requires After(f, l).quote.None?
    ensures SpaceFrom(f + [','], l) == SpaceFrom(f, l) + ", "
  {
    SpaceRuns(f, ',', l);
    assert SpaceFrom([','], After(f, l)) == ", " + SpaceFrom("", Next(After(f, l), ','));
  }

  /** Without a trailing comma, spacing leaves a text that is neither trimmed nor peeled. */
  lemma SpacedIsTrimmed(e: string)
    requires e != "" && Normal(e) && !Wrapped(e) && NoTrailingComma(e, Fresh(None))
    ensures var y := SpaceAfterCommas(e); Fragment(y) == y && !Wrapped(y)
  {
    hide Wrapped, Balanced, Trim;
    SpacingStaysLone(e, Fresh(None));
    LastStays(e, Fresh(None));
    SpacingKeepsWrapping(e);
    NormalIsFragment(SpaceAfterCommas(e));
  }

  /** With one, only the space behind it is trimmed, and spacing puts it back. */
  lemma SpacedLosesOne(e: string)
    requires e != "" && Normal(e) && !NoTrailingComma(e, Fresh(None))
    ensures var y, z := SpaceAfterCommas(e), Fragment(SpaceAfterCommas(e));
      && !Wrapped(z) && SpaceAfterCommas(z) == y && z == TrimEnd(y)
  {
    var f, l := e[..|e| - 1], Fresh(None);
    assert e == f + [','];
    var g := SpaceFrom(f, l);
    var z := g + [','];
    SpacedComma(f, l);
    SpacingKeeps(f, l, l);
    SpacingIsIdempotent(f, l, l);
    SpacedComma(g, l);
    SpacingStaysLone(e, l);
    hide After, Balanced, Whole, SpaceFrom;
    assert g + ", " == z + [' '];
    LoneIsCollapsed(z + [' ']);
    EndsInSpace(z);
  }

  lemma EndsInSpace(z: string)
    requires z != "" && !IsSpace(z[0]) && !IsSpace(z[|z| - 1])
    ensures Trim(z + [' ']) == z && TrimEnd(z + [' ']) == z
  {
    var s := z + [' '];
    assert s[0] == z[0] && s[|s| - 1] == ' ' && s[..|z|] == z;
    assert TrimStart(s) == s && TrimEnd(z) == z && TrimEnd(s) == TrimEnd(s[..|s| - 1]);
  }

  /** A lone element comes back, with stray commas or without. */
  lemma LoneElementStays(e: string)
    requires Normal(e) && !Wrapped(e) && |SplitCommas(e)| == 1
    ensures Normalize(SpaceAfterCommas(e)) == SpaceAfterCommas(e)
  {
    var y := SpaceAfterCommas(e);
    SpacingKeepsTokens(e);
    SpacingIsIdempotent(e, Fresh(None), Fresh(None));
    TrimEndSplits(y);
    SomethingThere(e);
    hide Normal, Balanced, Wrapped, SplitFrom, SpaceFrom, TrimEnd, Fragment, NoTrailingComma;
    if NoTrailingComma(e, Fresh(None)) {
      SpacedIsTrimmed(e);
      NotWrappedIsPeeled(y);
    } else {
      SpacedLosesOne(e);
      NotWrappedIsPeeled(Fragment(y));
    }
    hide Peel;
  }

  lemma SomethingThere(e: string)
    requires |SplitCommas(e)| == 1
    ensures e != ""
  {
    assert Trim("") == "";
  }

  // ----- clean lists settle -----

  /** Normalising each of these. */
  function Each(parts: seq<string>): (r: seq<string>)
    ensures |r| == |parts|
  {
    if parts == [] then [] else Each(parts[..|parts| - 1]) + [Normalize(parts[|parts| - 1])]
  }

  lemma {:induction false} AllIsEach(parts: seq<string>, bound: nat)
    requires forall i :: 0 <= i < |parts| ==> |parts[i]| < bound
    ensures NormalizeAll(parts, bound) == Each(parts)
    decreases |parts|
  {
    hide Normalize;
    if parts != [] {
      AllIsEach(parts[..|parts| - 1], bound);
    }
  }

  lemma {:induction false} EachAt(parts: seq<string>, i: nat)
    requires i < |parts|
    ensures Each(parts)[i] == Normalize(parts[i])
    decreases |parts|
  {
    hide Normalize;
    if i < |parts| - 1 {
      EachAt(parts[..|parts| - 1], i);
    }
  }

  /** The normal form of a list. */
  lemma ListNormalizes(index: string)
    requires |Parts(index)| >= 2
    ensures Normalize(index) == "(" + JoinCommas(Each(Parts(index))) + ")"
  {
    PartsShrink(index);
    AllIsEach(Parts(index), |index|);
    hide NormalizeAll, Fragment, Peel, SplitFrom, JoinCommas;
  }

  /** What an index is once peeled. */
  lemma PeeledIsSound(index: string)
    requires Balanced(Fragment(index))
    ensures var e := Peel(Fragment(index));
      Normal(e) && Balanced(e) && !Wrapped(e) && forall t :: t in Parts(index) ==> Normal(t) && Balanced(t) && Fragment(t) == t
  {
    FragmentIsNormal(index);
    PeelShrinks(Fragment(index));
    PeelBalanced(Fragment(index));
    hide Fragment, Peel, Normal, Balanced, SplitFrom, Wrapped;
    var e := Peel(Fragment(index));
    forall t | t in Parts(index) ensures Normal(t) && Balanced(t) && Fragment(t) == t {
      PartsAreSound(e, t);
    }
  }

  lemma LoneNormalizes(index: string)
    requires |Parts(index)| == 1
    ensures Normalize(index) == SpaceAfterCommas(Peel(Fragment(index)))
  {
    hide Fragment, Peel, SplitFrom, SpaceFrom;
  }

  /** A solid, clean element becomes one that stays and is one token. */
  lemma {:induction false} SolidSettles(part: string)
    requires Balanced(Fragment(part)) && Solid(part) && Clean(part)
    ensures Settled(Normalize(part))
    decreases |part|
  {
    PeeledIsSound(part);
    PartsShrink(part);
    var parts := Parts(part);
    if |parts| == 1 {
      hide Fragment, Peel, Balanced, Normal, Wrapped, Whole, SpaceFrom, Settled;
      LoneNormalizes(part);
      SomethingThere(Peel(Fragment(part)));
      LoneElementSettles(Peel(Fragment(part)));
    } else {
      hide Fragment, Peel, Balanced, Normal, Wrapped, Settled, SplitFrom, Normalize, Solid;
      forall i | 0 <= i < |parts| ensures Settled(Each(parts)[i]) {
        EachAt(parts, i);
        SolidSettles(parts[i]);
      }
      ListNormalizes(part);
      TupleSettles(Each(parts));
    }
  }

  lemma NothingStays(index: string)
    requires Parts(index) == []
    ensures Normalize(Normalize(index)) == Normalize(index)
  {
    EmptyStays();
    hide Fragment, Peel, SplitFrom;
  }

  lemma CleanStays(index: string)
    requires Balanced(Fragment(index)) && Clean(index)
    ensures Normalize(Normalize(index)) == Normalize(index)
  {
    PeeledIsSound(index);
    if |Parts(index)| == 0 {
      NothingStays(index);
    } else if |Parts(index)| == 1 {
      hide *;
      LoneStays(index);
    } else {
      assert Solid(index);
      hide *;
      SolidSettles(index);
      SettledNormalizes(Normalize(index));
    }
  }

  lemma LoneStays(index: string)
    requires |Parts(index)| == 1
    ensures Normalize(Normalize(index)) == Normalize(index)
  {
    FragmentIsNormal(index);
    PeelShrinks(Fragment(index));
    hide Fragment, Peel, Normal, Wrapped, SplitFrom, Normalize;
    LoneNormalizes(index);
    LoneElementStays(Peel(Fragment(index)));
  }

  // ----- a space behind every comma -----

  /** Outside quotes each comma is followed by a space; `last` says whether one may end the text. */
  predicate Airy(s: string, l: Lex, last: bool) {
    s == ""
    || ((l.quote.None? && s[0] == ',' ==> if |s| > 1 then s[1] == ' ' else last) && Airy(s[1..], Next(l, s[0]), last))
  }

  lemma AiryFirst(c: char, s: string, l: Lex, last: bool)
    ensures Airy([c] + s, l, last)
      <==> (l.quote.None? && c == ',' ==> if s != "" then s[0] == ' ' else last) && Airy(s, Next(l, c), last)
  {
    var all := [c] + s;
    assert all[1..] == s;
    assert s != "" ==> all[1] == s[0];
  }

  /** Only the open quote and what precedes inside it matter. */
  lemma {:induction false} AiryForgets(s: string, a: Lex, b: Lex, last: bool)
    requires a.quote == b.quote && (a.quote.Some? ==> a.prev == b.prev)
    ensures Airy(s, a, last) <==> Airy(s, b, last)
    decreases |s|
  {
    if s != "" {
      AiryForgets(s[1..], Next(a, s[0]), Next(b, s[0]), last);
    }
  }

  lemma {:induction false} AiryMayEnd(s: string, l: Lex)
    requires Airy(s, l, false)
    ensures Airy(s, l, true)
    decreases |s|
  {
    if s != "" {
      AiryMayEnd(s[1..], Next(l, s[0]));
    }
  }

  lemma {:induction false} AiryJoins(a: string, b: string, l: Lex, last: bool)
    requires Airy(a, l, false) && Airy(b, After(a, l), last)
    ensures Airy(a + b, l, last)
    decreases |a|
  {
    if a == "" {
      assert a + b == b;
    } else {
      assert a == [a[0]] + a[1..] && a + b == [a[0]] + (a[1..] + b);
      RunsFirst(a[0], a[1..], l);
      hide Airy, After;
      AiryFirst(a[0], a[1..], l, false);
      AiryJoins(a[1..], b, Next(l, a[0]), last);
      AiryFirst(a[0], a[1..] + b, l, last);
    }
  }

  /** Both halves of such a text are airy. */
  lemma {:induction false} AiryParts(a: string, b: string, l: Lex, last: bool)
    requires Airy(a + b, l, last)
    ensures Airy(a, l, true) && Airy(b, After(a, l), last)
    decreases |a|
  {
    if a == "" {
      assert a + b == b;
    } else {
      assert a == [a[0]] + a[1..] && a + b == [a[0]] + (a[1..] + b);
      RunsFirst(a[0], a[1..], l);
      hide Airy, After;
      AiryFirst(a[0], a[1..] + b, l, last);
      AiryParts(a[1..], b, Next(l, a[0]), last);
      AiryFirst(a[0], a[1..], l, true);
      assert a[1..] != "" ==> (a[1..] + b)[0] == a[1..][0];
    }
  }

  lemma CommaIsAiry(out: string, l: Lex)
    requires l.quote.None? && Airy(out, Next(Next(l, ','), ' '), false)
    ensures Airy(", " + out, l, false)
  {
    hide Airy;
    assert ", " + out == [','] + ([' '] + out);
    AiryFirst(' ', out, Next(l, ','), false);
    AiryFirst(',', [' '] + out, l, false);
  }

  /** Spacing makes a text airy. */
  lemma {:induction false} SpacingIsAiry(s: string, l: Lex, k: Lex)
    requires Same(l, k)
    ensures Airy(SpaceFrom(s, l), k, false)
    decreases |s|
  {
    if s == "" {
    } else if l.quote.None? && s[0] == ',' {
      hide Airy;
      var spaced := |s| > 1 && s[1] == ' ';
      var rest := if spaced then s[2..] else s[1..];
      var after := if spaced then Next(Next(l, ','), ' ') else Next(l, ',');
      SpacingIsAiry(rest, after, Next(Next(k, ','), ' '));
      CommaIsAiry(SpaceFrom(rest, after), k);
    } else {
      hide Airy;
      SpacingIsAiry(s[1..], Next(l, s[0]), Next(k, s[0]));
      AiryFirst(s[0], SpaceFrom(s[1..], Next(l, s[0])), k, false);
    }
  }

  /** Spacing leaves such a text alone, but for a comma at its end. */
  lemma {:induction false} AirySpaces(s: string, l: Lex)
    requires Airy(s, l, true)
    ensures |SpaceFrom(s, l)| <= |s| + 1
    ensures Airy(s, l, false) ==> SpaceFrom(s, l) == s
    decreases |s|
  {
    if s != "" {
      var rest := s[1..];
      assert s == [s[0]] + rest;
      if l.quote.None? && s[0] == ',' && |s| > 1 {
        assert rest == [' '] + s[2..] && s == ", " + s[2..] && rest[1..] == s[2..];
        assert Airy(s, l, false) ==> Airy(rest, Next(l, ','), false);
        AirySpaces(s[2..], Next(Next(l, ','), ' '));
      } else if l.quote.None? && s[0] == ',' {
        assert rest == "";
      } else {
        AirySpaces(rest, Next(l, s[0]));
      }
    }
  }

  lemma {:induction false} AiryEnds(s: string, l: Lex)
    requires Airy(s, l, true) && (s != "" ==> NoTrailingComma(s, l))
    ensures Airy(s, l, false)
    decreases |s|
  {
    if |s| == 1 {
      assert s[..0] == "";
    } else if s != "" {
      NoTrailingBehind(s, l);
      hide NoTrailingComma;
      AiryEnds(s[1..], Next(l, s[0]));
    }
  }

  lemma {:induction false} TrimStartAiry(s: string, last: bool)
    requires Airy(s, Fresh(None), last)
    ensures Airy(TrimStart(s), Fresh(None), last)
    decreases |s|
  {
    if s != "" && IsSpace(s[0]) {
      AiryForgets(s[1..], Next(Fresh(None), s[0]), Fresh(None), last);
      TrimStartAiry(s[1..], last);
    }
  }

  lemma TrimAiry(s: string)
    requires Airy(s, Fresh(None), true)
    ensures Airy(Trim(s), Fresh(None), true)
  {
    TrimStartAiry(s, true);
    var a := TrimStart(s);
    TrimEndIsDone(a);
    hide Airy, TrimStart;
    assert a == Trim(s) + a[|Trim(s)|..];
    AiryParts(Trim(s), a[|Trim(s)|..], Fresh(None), true);
  }

  /** Peeling keeps a text airy. */
  lemma {:induction false} PeelAiry(s: string)
    requires Airy(s, Fresh(None), true)
    ensures Airy(Peel(s), Fresh(None), true)
    decreases |s|
  {
    if Wrapped(s) {
      var m := s[1..|s| - 1];
      TrimShrinks(m);
      assert s == ['('] + (m + [')']);
      hide Airy, Trim, Balanced;
      AiryFirst('(', m + [')'], Fresh(None), true);
      AiryParts(m, [')'], Next(Fresh(None), '('), true);
      AiryForgets(m, Next(Fresh(None), '('), Fresh(None), true);
      TrimAiry(m);
      PeelAiry(Projection.Strip(s));
    }
  }

  // ----- what a second pass saves -----

  /** The characters of these texts and of what joins them. */
  function Weight(ts: seq<string>): nat {
    if ts == [] then 0 else Weight(ts[..|ts| - 1]) + |ts[|ts| - 1]| + 2
  }

  lemma WeightLast(ts: seq<string>, t: string)
    ensures Weight(ts + [t]) == Weight(ts) + |t| + 2
  {
    assert (ts + [t])[..|ts|] == ts;
  }

  lemma {:induction false} WeightOfBoth(a: seq<string>, b: seq<string>)
    ensures Weight(a + b) == Weight(a) + Weight(b)
  {
    if b == [] {
      assert a + b == a;
    } else {
      var front, last := b[..|b| - 1], b[|b| - 1];
      assert b == front + [last] && a + b == (a + front) + [last];
      WeightOfBoth(a, front);
      WeightLast(a + front, last);
      WeightLast(front, last);
    }
  }

  lemma {:induction false} EachOfBoth(a: seq<string>, b: seq<string>)
    ensures Each(a + b) == Each(a) + Each(b)
  {
    hide Normalize;
    if b == [] {
      assert a + b == a && Each(a) + [] == Each(a);
    } else {
      var front, last := b[..|b| - 1], b[|b| - 1];
      assert b == front + [last] && a + b == (a + front) + [last] && ((a + front) + [last])[..|a + front|] == a + front;
      EachOfBoth(a, front);
    }
  }

  lemma {:induction false} JoinWeighs(ns: seq<string>)
    requires ns != []
    ensures |JoinCommas(ns)| + 2 == Weight(ns)
  {
    if |ns| == 1 {
      assert ns[..0] == [];
    } else {
      JoinWeighs(ns[..|ns| - 1]);
    }
  }

  lemma TokenWeighs(current: string)
    ensures Weight(Token(current)) <= |TrimStart(current)| + 2
  {
    TrimEndIsDone(TrimStart(current));
    assert [Trim(current)][..0] == [];
    hide TrimStart, TrimEnd;
  }

  lemma TrimStartGrows(current: string, c: char)
    ensures |TrimStart(current + [c])| <= |TrimStart(current)| + 1
    ensures TrimStart("") == "" && (IsSpace(c) ==> TrimStart([c]) == "")
  {
    if IsSpace(c) {
      TrimStartBehind(current, c);
      assert [c][1..] == "";
    } else {
      TrimStartBehindOther(current, c);
    }
  }

  lemma {:induction false} TrimStartBehindOther(s: string, c: char)
    requires !IsSpace(c)
    ensures TrimStart(s + [c]) == TrimStart(s) + [c]
    decreases |s|
  {
    if s != "" && IsSpace(s[0]) {
      assert (s + [c])[1..] == s[1..] + [c];
      TrimStartBehindOther(s[1..], c);
    } else if s == "" {
      assert "" + [c] == [c];
    }
  }

  /** The tokens of an airy text, joined again, are no longer than it was. */
  lemma {:induction false} TokensWeigh(s: string, l: Lex, current: string)
    requires Airy(s, l, true)
    ensures Weight(SplitFrom(s, l, current)) <= |TrimStart(current)| + |s| + 2
    decreases |s|
  {
    TokenWeighs(current);
    hide Trim, TrimStart, IsSpace, Token;
    if s == "" {
    } else if Separates(l, s[0]) {
      var rest := s[1..];
      TrimStartGrows("", ' ');
      assert IsSpace(' ') by {
        BlankIsSpace();
      }
      WeightOfBoth(Token(current), SplitFrom(rest, Fresh(Some(',')), ""));
      if rest == "" {
        TokenWeighs("");
        NoToken();
      } else {
        assert rest[0] == ' ' && "" + [' '] == [' '];
        AiryForgets(rest[1..], Next(Next(l, ','), ' '), Next(Fresh(Some(',')), ' '), true);
        TokensWeigh(rest[1..], Next(Fresh(Some(',')), ' '), [' ']);
      }
    } else {
      TrimStartGrows(current, s[0]);
      TokensWeigh(s[1..], Next(l, s[0]), current + [s[0]]);
    }
  }

  lemma BlankIsSpace()
    ensures IsSpace(' ')
  {
  }

  lemma NoToken()
    ensures Token("") == [] && Weight([]) == 0
  {
    assert Trim("") == "";
  }

  /** Where a comma separates, the tokens are shorter than the text. */
  lemma {:induction false} TokensAreShorter(s: string, l: Lex, current: string, t: string)
    requires t in SplitFrom(s, l, current) && !Whole(s, l)
    ensures |t| < |current| + |s|
    decreases |s|
  {
    TrimShrinks(current);
    hide Trim;
    var rest := s[1..];
    assert s == [s[0]] + rest;
    RunsFirst(s[0], rest, l);
    hide Whole, After, Nested;
    if !Separates(l, s[0]) {
      TokensAreShorter(rest, Next(l, s[0]), current + [s[0]], t);
    } else if t in SplitFrom(rest, Fresh(Some(',')), "") {
      TokensAreShort(rest, Fresh(Some(',')), "", t);
    }
  }

  lemma {:induction false} TokensAreAiry(e: string, a: nat, b: nat, l: Lex, p: Option<char>, t: string)
    requires a <= b <= |e| && After(e[a..b], Fresh(p)) == l && Airy(e[a..], Fresh(p), true)
    requires t in SplitFrom(e[b..], l, e[a..b])
    ensures Airy(t, Fresh(None), true)
    decreases |e| - b
  {
    hide Trim, Airy, After;
    if b == |e| {
      assert e[a..b] == e[a..];
      PieceIsAiry(e[a..b], p);
    } else {
      assert e[b..][0] == e[b] && e[b..][1..] == e[b + 1..] && e[a..b + 1] == e[a..b] + [e[b]];
      WholeLast(e[a..b], e[b], Fresh(p));
      if Separates(l, e[b]) {
        if t in Token(e[a..b]) {
          assert e[a..] == e[a..b] + e[b..];
          AiryParts(e[a..b], e[b..], Fresh(p), true);
          PieceIsAiry(e[a..b], p);
        } else {
          assert e[a..] == e[a..b + 1] + e[b + 1..];
          AiryParts(e[a..b + 1], e[b + 1..], Fresh(p), true);
          FreshIsNext(l);
          assert e[b + 1..b + 1] == "";
          NothingRead(Some(','));
          TokensAreAiry(e, b + 1, b + 1, Fresh(Some(',')), Some(','), t);
        }
      } else {
        TokensAreAiry(e, a, b + 1, Next(l, e[b]), p, t);
      }
    }
  }

  lemma PieceIsAiry(s: string, p: Option<char>)
    requires Airy(s, Fresh(p), true)
    ensures Airy(Trim(s), Fresh(None), true)
  {
    hide Trim;
    AiryForgets(s, Fresh(p), Fresh(None), true);
    TrimAiry(s);
  }

  /** One trimmed token: normal, balanced, airy and whole. */
  predicate Clear(t: string) {
    Normal(t) && Balanced(t) && Airy(t, Fresh(None), true) && Whole(t, Fresh(None))
  }

  lemma TokensAreClear(e: string, t: string)
    requires Lone(e) && Balanced(e) && Airy(e, Fresh(None), true) && t in SplitCommas(e)
    ensures Clear(t) && t != ""
  {
    hide Trim, SplitFrom, Lone, Airy, Whole;
    assert e[0..] == e && e[0..0] == "";
    NothingRead(None);
    TokensAreSound(e, 0, 0, Fresh(None), None, t);
    TokensAreAiry(e, 0, 0, Fresh(None), None, t);
    EveryTokenResplits(e, t);
    if !Whole(t, Fresh(None)) {
      TokensAreShorter(t, Fresh(None), "", t);
    }
  }

  lemma {:induction false} EachIsLighter(ts: seq<string>)
    requires forall i :: 0 <= i < |ts| ==> |Normalize(ts[i])| <= |ts[i]|
    ensures Weight(Each(ts)) <= Weight(ts)
  {
    hide Normalize;
    if ts != [] {
      var front, last := ts[..|ts| - 1], ts[|ts| - 1];
      EachIsLighter(front);
      WeightLast(Each(front), Normalize(last));
    }
  }

  lemma ListWeighs(index: string)
    requires |Parts(index)| >= 2
    ensures |Normalize(index)| == Weight(Each(Parts(index)))
  {
    hide Fragment, Peel, SplitFrom, Normalize, JoinCommas, Each;
    ListNormalizes(index);
    JoinWeighs(Each(Parts(index)));
  }

  lemma PeelsTwo(t: string)
    requires Wrapped(t)
    ensures |Peel(t)| + 2 <= |t|
  {
    TrimShrinks(t[1..|t| - 1]);
    hide Trim, Balanced;
    PeelShrinks(Projection.Strip(t));
  }

  lemma BareTokenIsShort(t: string)
    requires Clear(t) && !Wrapped(t)
    ensures |Normalize(t)| <= |t|
  {
    WholeIsOneToken(t, Fresh(None), "");
    assert "" + t == t;
    NormalIsFragment(t);
    NotWrappedIsPeeled(t);
    hide Fragment, Peel, Trim, SplitFrom, SpaceFrom, Normal, NoTrailingComma, Balanced, Whole, Airy;
    if t != "" {
      WholeEndsWell(t);
    }
    AiryEnds(t, Fresh(None));
    AirySpaces(t, Fresh(None));
  }

  /** A token that is read once more never grows. */
  lemma {:induction false} TokenNeverGrows(t: string)
    requires Clear(t)
    ensures |Normalize(t)| <= |t|
    decreases |t|
  {
    if !Wrapped(t) {
      BareTokenIsShort(t);
    } else {
      NormalIsFragment(t);
      PeelShrinks(t);
      PeelBalanced(t);
      PeelAiry(t);
      PeelsTwo(t);
      PartsShrink(t);
      var q := Peel(t);
      hide Fragment, Peel, Wrapped, Balanced, Airy, SplitFrom, Whole, SpaceFrom;
      if |Parts(t)| == 1 {
        LoneNormalizes(t);
        AirySpaces(q, Fresh(None));
      } else if |Parts(t)| >= 2 {
        InnerTokens(t, q);
      }
    }
  }

  lemma {:induction false} InnerTokens(t: string, q: string)
    requires Fragment(t) == t && q == Peel(t) && |q| + 2 <= |t| && |Parts(t)| >= 2
    requires Normal(q) && Balanced(q) && Airy(q, Fresh(None), true)
    ensures |Normalize(t)| <= |t|
    decreases |t|, 0
  {
    PartsShrink(t);
    hide Fragment, Peel, Balanced, Airy, SplitFrom, Normalize, Clear;
    var parts := Parts(t);
    forall i | 0 <= i < |parts| ensures |Normalize(parts[i])| <= |parts[i]| {
      TokensAreClear(q, parts[i]);
      TokenNeverGrows(parts[i]);
    }
    EachIsLighter(parts);
    TokensWeigh(q, Fresh(None), "");
    ListWeighs(t);
    assert TrimStart("") == "";
  }

  // ----- what normalising yields -----

  /** Lone spaces, none in front, and one behind every comma. */
  predicate Neat(n: string) {
    Lone(n) && Airy(n, Fresh(None), false) && (n != "" ==> !IsSpace(n[0]))
  }

  /** ... and everything closed. */
  predicate Tidy(n: string) {
    Neat(n) && Balanced(n)
  }

  lemma JoinedLone(j: string, n: string)
    requires Lone(j) && Lone(n) && (n != "" ==> !IsSpace(n[0]))
    ensures Lone(j + ", " + n)
  {
    BehindComma(n);
    var tail := ", " + n;
    var out := j + tail;
    forall i | 0 <= i < |out| && IsSpace(out[i]) ensures out[i] == ' ' && (i + 1 < |out| ==> !IsSpace(out[i + 1])) {
      if i < |j| {
        assert out[i] == j[i];
        assert out[i + 1] == if i + 1 < |j| then j[i + 1] else ',';
      } else {
        assert out[i] == tail[i - |j|];
        assert i + 1 < |out| ==> out[i + 1] == tail[i + 1 - |j|];
      }
    }
    assert j + ", " + n == out;
  }

  lemma JoinedAiry(j: string, n: string)
    requires Airy(j, Fresh(None), false) && After(j, Fresh(None)).quote.None? && Airy(n, Fresh(None), false)
    ensures Airy(j + ", " + n, Fresh(None), false)
  {
    var l := After(j, Fresh(None));
    hide Airy, After;
    AiryForgets(n, Fresh(None), Next(Next(l, ','), ' '), false);
    AiryFirst(' ', n, Next(l, ','), false);
    AiryFirst(',', [' '] + n, l, false);
    AiryJoins(j, [','] + ([' '] + n), Fresh(None), false);
    assert j + ", " + n == j + ([','] + ([' '] + n));
  }

  predicate AllTidy(ns: seq<string>) {
    forall i :: 0 <= i < |ns| ==> Tidy(ns[i])
  }

  lemma JoinNeat(j: string, n: string)
    requires Neat(j) && After(j, Fresh(None)).quote.None? && Neat(n)
    ensures Neat(j + ", " + n)
  {
    hide Airy, Lone, After;
    JoinedLone(j, n);
    JoinedAiry(j, n);
    assert (j + ", " + n)[0] == if j != "" then j[0] else ',';
  }

  lemma JoinTwo(j: string, n: string)
    requires Tidy(j) && Tidy(n)
    ensures Tidy(j + ", " + n)
  {
    ClosedQuote(j);
    hide Balanced, Neat, After;
    JoinedBalanced(j, n);
    JoinNeat(j, n);
  }

  lemma ClosedQuote(s: string)
    requires Balanced(s)
    ensures After(s, Fresh(None)).quote.None?
  {
  }

  lemma {:induction false} JoinIsTidy(ns: seq<string>)
    requires ns != [] && AllTidy(ns)
    ensures Tidy(JoinCommas(ns))
  {
    hide Tidy;
    if |ns| > 1 {
      JoinIsTidy(ns[..|ns| - 1]);
      JoinTwo(JoinCommas(ns[..|ns| - 1]), ns[|ns| - 1]);
    }
  }

  lemma ParenNormal(j: string)
    requires Lone(j) && (j != "" ==> !IsSpace(j[0]))
    ensures Normal("(" + j + ")")
  {
    var y := "(" + j + ")";
    forall i | 0 <= i < |y| && IsSpace(y[i]) ensures y[i] == ' ' && (i + 1 < |y| ==> !IsSpace(y[i + 1])) {
      assert 0 < i < |y| - 1 && y[i] == j[i - 1];
      assert y[i + 1] == if i < |j| then j[i] else ')';
    }
  }

  lemma ParenAiry(j: string)
    requires Airy(j, Fresh(None), false)
    ensures Airy("(" + j + ")", Fresh(None), false)
  {
    var l := Fresh(None);
    assert Airy([')'], After(j, Next(l, '(')), false) by {
      assert [')'][1..] == "";
    }
    hide After, Airy;
    assert "(" + j + ")" == ['('] + (j + [')']);
    AiryForgets(j, l, Next(l, '('), false);
    AiryJoins(j, [')'], Next(l, '('), false);
    AiryFirst('(', j + [')'], l, false);
  }

  lemma ParenNeat(j: string)
    requires Neat(j)
    ensures Normal("(" + j + ")") && Neat("(" + j + ")")
  {
    hide Airy, Lone;
    ParenNormal(j);
    ParenAiry(j);
    NormalIsLone("(" + j + ")");
  }

  lemma NormalIsLone(s: string)
    requires s != "" && Normal(s)
    ensures Lone(s) && !IsSpace(s[0])
  {
  }

  lemma InParentheses(j: string)
    requires Tidy(j)
    ensures Tidy("(" + j + ")") && Normal("(" + j + ")") && Wrapped("(" + j + ")")
  {
    var y := "(" + j + ")";
    assert y[1..|y| - 1] == j;
    hide Balanced, Neat, Normal, Whole;
    Parenthesised(j);
    ParenNeat(j);
  }

  lemma NothingIsTidy()
    ensures Tidy("")
  {
    NothingRead(None);
  }

  lemma SpacedIsTidy(e: string)
    requires e != "" && Normal(e) && Balanced(e)
    ensures Tidy(SpaceAfterCommas(e))
  {
    SpacingStaysLone(e, Fresh(None));
    SpacingKeeps(e, Fresh(None), Fresh(None));
    SpacingIsAiry(e, Fresh(None), Fresh(None));
  }

  lemma {:induction false} NormalizeIsTidy(index: string)
    requires Balanced(Fragment(index))
    ensures Tidy(Normalize(index))
    decreases |index|
  {
    PeeledIsSound(index);
    PartsShrink(index);
    var parts := Parts(index);
    hide Fragment, Peel, Balanced, Normal, Wrapped, Tidy, SplitFrom, SpaceFrom;
    if |parts| == 0 {
      NothingIsTidy();
    } else if |parts| == 1 {
      LoneNormalizes(index);
      SomethingThere(Peel(Fragment(index)));
      SpacedIsTidy(Peel(Fragment(index)));
    } else {
      hide Normalize;
      forall i | 0 <= i < |parts| ensures Tidy(Each(parts)[i]) {
        EachAt(parts, i);
        NormalizeIsTidy(parts[i]);
      }
      ListNormalizes(index);
      JoinIsTidy(Each(parts));
      InParentheses(JoinCommas(Each(parts)));
    }
  }

  // ----- what the second pass reads -----

  function Flat(ns: seq<string>): seq<string> {
    if ns == [] then [] else Flat(ns[..|ns| - 1]) + SplitCommas(ns[|ns| - 1])
  }

  lemma {:induction false} JoinSplits(ns: seq<string>)
    requires ns != [] && AllTidy(ns)
    ensures SplitCommas(JoinCommas(ns)) == Flat(ns)
  {
    hide Airy, Lone, SplitCommas, Nested;
    if |ns| == 1 {
      assert ns[..0] == [] && Flat([]) + SplitCommas(ns[0]) == SplitCommas(ns[0]);
    } else {
      var front, last := ns[..|ns| - 1], ns[|ns| - 1];
      var j := JoinCommas(front);
      JoinSplits(front);
      JoinIsTidy(front);
      hide After, Tidy;
      assert AtTop(After(j, Fresh(None))) by {
        TidyCloses(j);
      }
      SplitsBehind(j, last);
    }
  }

  lemma TidyCloses(j: string)
    requires Tidy(j)
    ensures AtTop(After(j, Fresh(None)))
  {
  }

  lemma SplitsBehind(j: string, n: string)
    requires AtTop(After(j, Fresh(None)))
    ensures SplitCommas(j + ", " + n) == SplitCommas(j) + SplitCommas(n)
  {
    hide SplitFrom, After;
    SplitAtComma(j, " " + n, Fresh(None), "");
    BehindSpace(n);
    assert j + "," + (" " + n) == j + ", " + n;
  }

  lemma {:induction false} TrimEndKeeps(s: string, i: nat)
    requires i < |s| && !IsSpace(s[i])
    ensures i < |TrimEnd(s)|
  {
    if IsSpace(s[|s| - 1]) {
      TrimEndKeeps(s[..|s| - 1], i);
    }
  }

  lemma {:induction false} FirstThenComma(ns: seq<string>)
    requires |ns| >= 2
    ensures ns[0] + "," <= JoinCommas(ns)
  {
    if |ns| == 2 {
      assert ns[..1] == [ns[0]];
    } else {
      FirstThenComma(ns[..|ns| - 1]);
    }
  }

  /** A list of several is never wrapped as a whole. */
  lemma ListIsBare(ns: seq<string>)
    requires |ns| >= 2 && AllTidy(ns)
    ensures !Wrapped(TrimEnd(JoinCommas(ns)))
  {
    var first, j := ns[0], JoinCommas(ns);
    var z := TrimEnd(j);
    FirstThenComma(ns);
    assert Tidy(first) && j[|first|] == ',';
    TrimEndIsDone(j);
    TrimEndKeeps(j, |first|);
    hide TrimEnd, JoinCommas, AllTidy;
    assert first <= z && z[|first|] == ',';
    if first != "" {
      ListIsNotWrapped(first, z);
    }
  }

  lemma TrimOfTidy(j: string)
    requires Tidy(j)
    ensures Trim(j) == TrimEnd(j)
  {
  }

  /** The second pass peels the tuple and reads the elements of its elements. */
  lemma SecondPass(index: string)
    requires Balanced(Fragment(index)) && |Parts(index)| >= 2
    ensures var ns, y := Each(Parts(index)), Normalize(index);
      && AllTidy(ns) && Parts(y) == Flat(ns)
      && Airy(Peel(Fragment(y)), Fresh(None), true) && |Peel(Fragment(y))| + 2 <= |y|
  {
    var ns := Each(Parts(index));
    EachIsTidy(index);
    ListNormalizes(index);
    JoinIsTidy(ns);
    var j, y := JoinCommas(ns), Normalize(index);
    hide Normalize, Parts, Each, Balanced, AllTidy, JoinCommas, SplitFrom, Tidy, Airy, Flat, Fragment;
    InParentheses(j);
    NormalIsFragment(y);
    TuplePeels(j);
    ListIsBare(ns);
    TrimOfTidy(j);
    NotWrappedIsPeeled(TrimEnd(j));
    PeelsTwo(y);
    TrimEndSplits(j);
    JoinSplits(ns);
    TidyIsAiry(j);
    PartsOf(y);
  }

  lemma EachIsTidy(index: string)
    requires Balanced(Fragment(index))
    ensures AllTidy(Each(Parts(index)))
  {
    PeeledIsSound(index);
    var parts := Parts(index);
    hide Normalize, Fragment, Peel, SplitFrom, Balanced, Tidy;
    forall i | 0 <= i < |parts| ensures Tidy(Each(parts)[i]) {
      EachAt(parts, i);
      NormalizeIsTidy(parts[i]);
    }
  }

  lemma TuplePeels(j: string)
    requires Wrapped("(" + j + ")")
    ensures Peel("(" + j + ")") == Peel(Trim(j))
  {
    var y := "(" + j + ")";
    assert y[1..|y| - 1] == j;
    TrimShrinks(j);
    hide Trim, Balanced;
  }

  lemma NeatIsAiry(j: string)
    requires Neat(j)
    ensures Airy(j, Fresh(None), true)
  {
    AiryMayEnd(j, Fresh(None));
  }

  lemma TidyIsAiry(j: string)
    requires Tidy(j)
    ensures Airy(Trim(j), Fresh(None), true)
  {
    AiryMayEnd(j, Fresh(None));
    TrimAiry(j);
  }

  lemma PartsOf(y: string)
    ensures Parts(y) == SplitCommas(Peel(Fragment(y)))
  {
  }

  // ----- a list that is not clean shrinks -----

  /** Weights of the elements' elements, each no more than its element and one less. */
  lemma {:induction false} FlatWeighs(ns: seq<string>)
    requires forall i :: 0 <= i < |ns| ==> Weight(Each(SplitCommas(ns[i]))) <= |ns[i]| + 2
    ensures Weight(Each(Flat(ns))) <= Weight(ns)
    ensures (exists i :: 0 <= i < |ns| && Weight(Each(SplitCommas(ns[i]))) < |ns[i]| + 2) ==> Weight(Each(Flat(ns))) < Weight(ns)
  {
    hide SplitCommas, Each;
    if ns == [] {
      NothingWeighs();
    } else {
      var front, last := ns[..|ns| - 1], ns[|ns| - 1];
      FlatWeighs(front);
      EachOfBoth(Flat(front), SplitCommas(last));
      WeightOfBoth(Each(Flat(front)), Each(SplitCommas(last)));
      forall i | 0 <= i < |ns| && Weight(Each(SplitCommas(ns[i]))) < |ns[i]| + 2
        ensures Weight(Each(Flat(ns))) < Weight(ns)
      {
        if i < |front| {
          assert front[i] == ns[i];
        }
      }
    }
  }

  lemma NothingWeighs()
    ensures Weight(Each([])) == 0 && Each([]) == []
  {
  }

  lemma OneWeighs(t: string)
    ensures Weight(Each([t])) == |Normalize(t)| + 2
  {
    hide Normalize;
    assert [t][..0] == [];
    assert [Normalize(t)][..0] == [];
  }

  /** A lone element with a stray comma is shorter the second time. */
  lemma StrayShrinks(part: string)
    requires Balanced(Fragment(part)) && |Parts(part)| == 1 && !Whole(Peel(Fragment(part)), Fresh(None))
    ensures var n := Normalize(part); Weight(Each(SplitCommas(n))) < |n| + 2
  {
    var e := Peel(Fragment(part));
    PeeledIsSound(part);
    LoneNormalizes(part);
    SomethingThere(e);
    SpacingKeepsTokens(e);
    SpacingKeeps(e, Fresh(None), Fresh(None));
    SpacedIsTidy(e);
    var n := Normalize(part);
    var t := SplitCommas(n)[0];
    hide Normalize, Fragment, Peel, Normal, Wrapped, SplitFrom, SpaceFrom, Balanced, Lone, Airy, Whole, Nested, After, Each;
    assert SplitCommas(n) == [t];
    AiryMayEnd(n, Fresh(None));
    TokensAreClear(n, t);
    TokensAreShorter(n, Fresh(None), "", t);
    TokenNeverGrows(t);
    OneWeighs(t);
  }

  lemma SettledWeighs(n: string)
    requires Settled(n)
    ensures Weight(Each(SplitCommas(n))) == |n| + 2
  {
    hide Normal, Balanced, Whole, Normalize, SplitCommas;
    OneToken(n);
    OneWeighs(n);
  }

  lemma EmptyWeighs(part: string)
    requires Parts(part) == []
    ensures var n := Normalize(part); Weight(Each(SplitCommas(n))) < |n| + 2
  {
    EmptyStays();
    NothingWeighs();
    hide Fragment, Peel, SplitFrom;
  }

  /** A tuple stands in its list as one token. */
  lemma TupleIsOneToken(part: string)
    requires Balanced(Fragment(part)) && |Parts(part)| >= 2
    ensures var n := Normalize(part); SplitCommas(n) == [n]
  {
    var ns := Each(Parts(part));
    EachIsTidy(part);
    ListNormalizes(part);
    JoinIsTidy(ns);
    hide Normalize, Parts, Each, Fragment, AllTidy, JoinCommas, Airy, Lone, Nested, After, SplitCommas;
    InParentheses(JoinCommas(ns));
    Parenthesised(JoinCommas(ns));
    OneToken("(" + JoinCommas(ns) + ")");
  }

  predicate Good(part: string) {
    Solid(part) && Clean(part)
  }

  /** What the second pass makes of one element. */
  lemma {:induction false} ElementShrinks(part: string)
    requires Balanced(Fragment(part))
    ensures var n := Normalize(part);
      Weight(Each(SplitCommas(n))) <= |n| + 2 && (!Good(part) ==> Weight(Each(SplitCommas(n))) < |n| + 2)
    decreases |part|, 1
  {
    if Parts(part) == [] {
      EmptyWeighs(part);
    } else if |Parts(part)| == 1 {
      if Whole(Peel(Fragment(part)), Fresh(None)) {
        SolidSettles(part);
        hide *;
        SettledWeighs(Normalize(part));
      } else {
        StrayShrinks(part);
      }
    } else {
      assert Good(part) == Clean(part);
      hide *;
      TupleIsOneToken(part);
      OneWeighs(Normalize(part));
      ListShrinks(part);
    }
  }

  lemma PartIsSmaller(index: string, i: nat)
    requires Balanced(Fragment(index)) && |Parts(index)| >= 2 && i < |Parts(index)|
    ensures |Parts(index)[i]| < |index| && Balanced(Fragment(Parts(index)[i]))
  {
    PartsShrink(index);
    PeeledIsSound(index);
    hide Fragment, Peel, SplitFrom, Balanced, Normal, Wrapped;
  }

  lemma SomePartIsBad(index: string)
    requires !Clean(index)
    ensures |Parts(index)| >= 2 && exists i :: 0 <= i < |Parts(index)| && !Good(Parts(index)[i])
  {
    hide Parts, Solid;
    if forall i :: 0 <= i < |Parts(index)| ==> Good(Parts(index)[i]) {
      assert forall i :: 0 <= i < |Parts(index)| ==> Solid(Parts(index)[i]) && Clean(Parts(index)[i]);
    }
  }

  /** A list never grows, and shrinks when it is not clean. */
  lemma {:induction false} ListShrinks(index: string)
    requires Balanced(Fragment(index)) && |Parts(index)| >= 2
    ensures |Normalize(Normalize(index))| <= |Normalize(index)|
    ensures !Clean(index) ==> |Normalize(Normalize(index))| < |Normalize(index)|
    decreases |index|, 0
  {
    var parts := Parts(index);
    var ns, y := Each(parts), Normalize(index);
    hide *;
    SecondPass(index);
    forall i | 0 <= i < |parts|
      ensures Weight(Each(SplitCommas(ns[i]))) <= |ns[i]| + 2 && (!Good(parts[i]) ==> Weight(Each(SplitCommas(ns[i]))) < |ns[i]| + 2)
    {
      EachAt(parts, i);
      PartIsSmaller(index, i);
      ElementShrinks(parts[i]);
    }
    if !Clean(index) {
      SomePartIsBad(index);
    }
    FlatWeighs(ns);
    ListWeighs(index);
    ReadAgain(y);
  }

  /** The second pass over a list yields the elements' elements, or less. */
  lemma ReadAgain(y: string)
    requires Airy(Peel(Fragment(y)), Fresh(None), true) && |Peel(Fragment(y))| + 2 <= |y|
    ensures if |Parts(y)| >= 2 then |Normalize(y)| == Weight(Each(Parts(y))) else |Normalize(y)| < |y|
  {
    hide Airy, Fragment, Peel, SplitFrom, SpaceFrom, Each;
    if |Parts(y)| >= 2 {
      ListWeighs(y);
    } else {
      AirySpaces(Peel(Fragment(y)), Fresh(None));
    }
  }

  /**
   `normalizeProjectionIndex` is idempotent on a balanced expression if and only if every element of every
   list in it is something, and is a list itself or holds no stray comma. Otherwise the second pass is
   shorter than the first.
   */
  lemma IdempotentIffClean(index: string)
    requires Balanced(Fragment(index))
    ensures Normalize(Normalize(index)) == Normalize(index) <==> Clean(index)
    ensures !Clean(index) ==> |Normalize(Normalize(index))| < |Normalize(index)|
  {
    if Clean(index) {
      CleanStays(index);
    } else {
      assert |Parts(index)| >= 2;
      hide *;
      ListShrinks(index);
    }
  }
}
