/**
 What trimming and collapsing a text mean, said without the loops: a trimmed text is what stands between blanks,
 a collapsed one is the text's words with one space between them.
 */
module TextForms {
  import opened SqlText
  import opened KeyClause
  import opened Projection

  /** Neither end of the text is white space. */
  predicate Tight(s: string) {
    s != "" && !IsSpace(s[0]) && !IsSpace(s[|s| - 1])
  }

  /** `t` is `s` without the blanks around it. */
  predicate TrimmedTo(s: string, t: string) {
    (t == "" || Tight(t)) && exists i, j :: 0 <= i <= j <= |s| && s[i..j] == t && Blank(s[..i]) && Blank(s[j..])
  }

  lemma {:induction false} StartIs(s: string) returns (i: nat)
    ensures i <= |s| && TrimStart(s) == s[i..] && Blank(s[..i])
  {
    i := 0;
    if s != "" && IsSpace(s[0]) {
      var k := StartIs(s[1..]);
      i := k + 1;
      assert s[1..][k..] == s[k + 1..];
      assert forall j :: 0 < j < i ==> s[j] == s[1..][..k][j - 1];
    }
  }

  lemma {:induction false} EndIs(s: string) returns (j: nat)
    ensures j <= |s| && TrimEnd(s) == s[..j] && Blank(s[j..])
  {
    j := |s|;
    if s != "" && IsSpace(s[|s| - 1]) {
      var front := s[..|s| - 1];
      j := EndIs(front);
      assert front[..j] == s[..j];
      assert forall k :: 0 <= k < |front| - j ==> s[j..][k] == front[j..][k];
    }
  }

  /** Trimming cuts the blanks at both ends and nothing else. */
  lemma TrimIs(s: string)
    ensures TrimmedTo(s, Trim(s))
  {
    var i := StartIs(s);
    var rest := TrimStart(s);
    var k := EndIs(rest);
    TrimmedEnds(s);
    assert s[i..i + k] == rest[..k] && s[i + k..] == rest[k..];
  }

  /** And there is only one such text. */
  lemma TrimmedIsOne(s: string, t: string)
    requires TrimmedTo(s, t)
    ensures t == Trim(s)
  {
    var i, j :| 0 <= i <= j <= |s| && s[i..j] == t && Blank(s[..i]) && Blank(s[j..]);
    TrimIs(s);
    hide Trim;
    var u := Trim(s);
    var a, b :| 0 <= a <= b <= |s| && s[a..b] == u && Blank(s[..a]) && Blank(s[b..]);
    if t == "" {
      if u != "" {
        assert s[a] == u[0];
        SpaceAround(s, i, j, a);
      }
    } else if u == "" {
      assert s[i] == t[0];
      SpaceAround(s, a, b, i);
    } else {
      EndsMeet(s, t, i, j, u, a, b);
    }
  }

  lemma SpaceAround(s: string, i: nat, j: nat, k: nat)
    requires i <= j <= k < |s| || (i <= j <= |s| && k < i)
    requires Blank(s[..i]) && Blank(s[j..])
    ensures IsSpace(s[k])
  {
    if k < i {
      assert s[..i][k] == s[k];
    } else {
      assert s[j..][k - j] == s[k];
    }
  }

  lemma EndsMeet(s: string, t: string, i: nat, j: nat, u: string, a: nat, b: nat)
    requires Tight(t) && i <= j <= |s| && s[i..j] == t && Blank(s[..i]) && Blank(s[j..])
    requires Tight(u) && a <= b <= |s| && s[a..b] == u && Blank(s[..a]) && Blank(s[b..])
    ensures t == u
  {
    assert s[i] == t[0] && s[j - 1] == t[|t| - 1] && s[a] == u[0] && s[b - 1] == u[|u| - 1];
    var end: nat, last: nat := j - 1, b - 1;
    if i < a {
      SpaceAround(s, a, b, i);
    } else if a < i {
      SpaceAround(s, i, j, a);
    }
    if j < b {
      SpaceAround(s, i, j, last);
    } else if b < j {
      SpaceAround(s, a, b, end);
    }
  }

  lemma TightIsTrimmed(s: string)
    ensures s != "" && Trim(s) == s <==> Tight(s)
  {
    if Tight(s) {
      TrimOfTrimmed(s);
    } else if s != "" && Trim(s) == s {
      TrimmedEnds(s);
    }
  }

  // ----- words -----

  predicate IsWordText(w: string) {
    w != "" && forall i :: 0 <= i < |w| ==> !IsSpace(w[i])
  }

  /** How many characters stand before the first white space. */
  function Run(s: string): (k: nat)
    ensures k <= |s| && (k < |s| ==> IsSpace(s[k])) && forall i :: 0 <= i < k ==> !IsSpace(s[i])
  {
    if s == "" || IsSpace(s[0]) then 0 else 1 + Run(s[1..])
  }

  /** The words of a text: what stands between white space. */
  function Words(s: string): (ws: seq<string>)
    ensures forall i :: 0 <= i < |ws| ==> IsWordText(ws[i])
    decreases |s|
  {
    if s == "" then []
    else if IsSpace(s[0]) then Words(s[1..])
    else [s[..Run(s)]] + Words(s[Run(s)..])
  }

  function Spell(ws: seq<string>): string {
    if ws == [] then "" else if |ws| == 1 then ws[0] else ws[0] + " " + Spell(ws[1..])
  }

  lemma {:induction false} BlanksHoldNoWord(s: string)
    ensures Words(TrimStart(s)) == Words(s)
  {
    if s != "" && IsSpace(s[0]) {
      BlanksHoldNoWord(s[1..]);
    }
  }

  lemma {:induction false} CollapseRun(s: string)
    ensures Collapse(s) == s[..Run(s)] + Collapse(s[Run(s)..])
    decreases |s|
  {
    if s != "" && !IsSpace(s[0]) {
      CollapseRun(s[1..]);
      assert s[1..][Run(s[1..])..] == s[Run(s)..];
      assert s[..Run(s)] == [s[0]] + s[1..][..Run(s[1..])];
    } else {
      assert s[..0] + Collapse(s) == Collapse(s);
    }
  }

  lemma {:induction false} EndBehind(w: string, x: string)
    ensures TrimEnd(w + x) == if TrimEnd(x) == "" then TrimEnd(w) else w + TrimEnd(x)
    decreases |x|
  {
    if x == "" {
      assert w + x == w;
    } else if IsSpace(x[|x| - 1]) {
      assert (w + x)[..|w + x| - 1] == w + x[..|x| - 1];
      EndBehind(w, x[..|x| - 1]);
    }
  }

  lemma WordEnds(w: string)
    requires IsWordText(w)
    ensures TrimEnd(w) == w
  {
  }

  lemma SpaceEnds()
    ensures TrimEnd(" ") == "" && TrimEnd("") == ""
  {
    assert " "[..0] == "";
  }

  lemma WordsFirst(s: string)
    requires s != "" && !IsSpace(s[0])
    ensures var rest := s[Run(s)..];
      && Words(s) == [s[..Run(s)]] + Words(TrimStart(rest)) && IsWordText(s[..Run(s)])
      && |TrimStart(rest)| < |s| && (TrimStart(rest) != "" ==> !IsSpace(TrimStart(rest)[0]))
      && (rest != "" ==> Collapse(rest) == " " + Collapse(TrimStart(rest)))
  {
    BlanksHoldNoWord(s[Run(s)..]);
    TrimStartIsDone(s[Run(s)..]);
    TrimStartShrinks(s[Run(s)..]);
  }

  /** A text that starts with a word. */
  lemma {:induction false} LedBySpell(s: string)
    requires s != "" && !IsSpace(s[0])
    ensures TrimEnd(Collapse(s)) == Spell(Words(s)) && Words(s) != [] && Spell(Words(s)) != ""
    decreases |s|
  {
    hide Collapse, TrimStart, TrimEnd, Words, Spell, IsSpace;
    var k := Run(s);
    var w, rest := s[..k], s[k..];
    CollapseRun(s);
    WordEnds(w);
    SpaceEnds();
    WordsFirst(s);
    NothingCollapses();
    var next := TrimStart(rest);
    if rest != "" {
      EndBehind(" ", Collapse(next));
      if next != "" {
        LedBySpell(next);
      }
    } else {
      NothingStarts();
    }
    EndBehind(w, Collapse(rest));
    SpellFirst(w, Words(next));
    LedByWord(w, Spell(Words(next)));
  }

  lemma NothingStarts()
    ensures TrimStart("") == ""
  {
  }

  /** The word and what stands behind it. */
  lemma LedByWord(w: string, spelled: string)
    requires w != ""
    ensures w + " " + spelled == w + (" " + spelled) && w + " " + spelled != ""
  {
  }

  lemma SpellFirst(w: string, ws: seq<string>)
    ensures Spell([w] + ws) == if ws == [] then w else w + " " + Spell(ws)
  {
    assert ([w] + ws)[1..] == ws;
  }

  lemma NothingCollapses()
    ensures Collapse("") == "" && Words("") == []
  {
  }

  lemma LedByItself(s: string)
    requires s != "" && !IsSpace(s[0])
    ensures TrimStart(Collapse(s)) == Collapse(s)
  {
    CollapseIsLone(s);
  }

  /** Collapsing a text spells its words with one space between them. */
  lemma FragmentSpells(s: string)
    ensures Fragment(s) == Spell(Words(s))
  {
    var lead := TrimStart(s);
    TrimStartIsDone(s);
    BlanksHoldNoWord(s);
    FragmentOfLead(s);
    NothingCollapses();
    if lead != "" {
      LedByItself(lead);
      LedBySpell(lead);
    } else {
      SpaceEnds();
      assert TrimStart("") == "";
    }
  }

  lemma FragmentOfLead(s: string)
    ensures Fragment(s) == Trim(Collapse(TrimStart(s)))
  {
    if s != "" && IsSpace(s[0]) {
      var c := Collapse(TrimStart(s));
      assert Collapse(s) == " " + c;
      assert (" " + c)[0] == ' ' && (" " + c)[1..] == c;
      assert TrimStart(" " + c) == TrimStart(c);
    }
  }

  lemma RunStops(w: string, x: string)
    requires IsWordText(w) && (x == "" || IsSpace(x[0]))
    ensures Run(w + x) == |w|
  {
    var s := w + x;
    assert forall i :: 0 <= i < |w| ==> s[i] == w[i];
    assert x != "" ==> s[|w|] == x[0];
  }

  lemma {:induction false} SpelledWords(ws: seq<string>)
    requires forall i :: 0 <= i < |ws| ==> IsWordText(ws[i])
    ensures Words(Spell(ws)) == ws
  {
    if ws != [] {
      var w, rest := ws[0], ws[1..];
      SpelledWords(rest);
      var x := if rest == [] then "" else " " + Spell(rest);
      RunStops(w, x);
      assert Spell(ws) == w + x;
      assert (w + x)[..|w|] == w && (w + x)[|w|..] == x && (w + x)[0] == w[0];
      if rest != [] {
        assert x[0] == ' ' && x[1..] == Spell(rest);
      }
      assert ws == [w] + rest;
    }
  }

  /** Two texts collapse to one exactly when they consist of the same words. */
  lemma SameFragmentIff(s: string, t: string)
    ensures Fragment(s) == Fragment(t) <==> Words(s) == Words(t)
  {
    FragmentSpells(s);
    FragmentSpells(t);
    SpelledWords(Words(s));
    SpelledWords(Words(t));
  }

  lemma {:induction false} BlankBehindHoldsNoWord(s: string, c: char)
    requires IsSpace(c)
    ensures Words(s + [c]) == Words(s)
    decreases |s|
  {
    var t := s + [c];
    if s == "" {
      assert t[1..] == "";
    } else if IsSpace(s[0]) {
      assert t[1..] == s[1..] + [c];
      BlankBehindHoldsNoWord(s[1..], c);
    } else {
      var k := Run(s);
      RunBehind(s, c);
      assert t[..k] == s[..k] && t[k..] == s[k..] + [c];
      BlankBehindHoldsNoWord(s[k..], c);
    }
  }

  lemma RunBehind(s: string, c: char)
    requires IsSpace(c)
    ensures Run(s + [c]) == Run(s)
  {
    var t := s + [c];
    assert forall i :: 0 <= i < |s| ==> t[i] == s[i];
    assert t[|s|] == c;
  }

  lemma {:induction false} TrimEndKeepsWords(s: string)
    ensures Words(TrimEnd(s)) == Words(s)
  {
    if s != "" && IsSpace(s[|s| - 1]) {
      assert s == s[..|s| - 1] + [s[|s| - 1]];
      BlankBehindHoldsNoWord(s[..|s| - 1], s[|s| - 1]);
      TrimEndKeepsWords(s[..|s| - 1]);
    }
  }

  /** A trimmed text with its blanks collapsed is the same text as one collapsed first. */
  lemma CollapsedSpells(s: string)
    ensures Normal(Collapse(Trim(s))) ==> Collapse(Trim(s)) == Spell(Words(s))
  {
    BlanksHoldNoWord(s);
    TrimEndKeepsWords(TrimStart(s));
    var t := Trim(s);
    CollapseIsLone(t);
    LoneIsCollapsed(Collapse(t));
    if Normal(Collapse(t)) {
      NormalIsFragment(Collapse(t));
      FragmentSpells(t);
    }
  }
}
