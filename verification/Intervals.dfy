/**
 Refresh intervals: trimmed, collapsed, and with their units in upper case and singular. Doing it twice
 changes nothing, on any text.
 */
module Intervals {
  import opened Wrappers
  import opened SqlText
  import opened KeyClause
  import opened Projection
  import opened Codec
  import opened TextForms

  datatype Unit = Second | Minute | Hour | Day | Week | Month | Year

  function LowerText(u: Unit): string {
    match u
    case Second => "second"
    case Minute => "minute"
    case Hour => "hour"
    case Day => "day"
    case Week => "week"
    case Month => "month"
    case Year => "year"
  }

  function UpperText(u: Unit): string {
    match u
    case Second => "SECOND"
    case Minute => "MINUTE"
    case Hour => "HOUR"
    case Day => "DAY"
    case Week => "WEEK"
    case Month => "MONTH"
    case Year => "YEAR"
  }

  /** Equal but for case. */
  predicate SameLetters(w: string, lower: string, upper: string) {
    |w| == |lower| == |upper| && forall i :: 0 <= i < |w| ==> w[i] == lower[i] || w[i] == upper[i]
  }

  predicate Names(w: string, u: Unit) {
    SameLetters(w, LowerText(u), UpperText(u)) || SameLetters(w, LowerText(u) + "s", UpperText(u) + "S")
  }

  function UnitOf(w: string): Option<Unit> {
    if Names(w, Second) then Some(Second)
    else if Names(w, Minute) then Some(Minute)
    else if Names(w, Hour) then Some(Hour)
    else if Names(w, Day) then Some(Day)
    else if Names(w, Week) then Some(Week)
    else if Names(w, Month) then Some(Month)
    else if Names(w, Year) then Some(Year)
    else None
  }

  /** One word: a unit in upper case and singular, anything else as it is. */
  function Word(w: string): string {
    if UnitOf(w).Some? then UpperText(UnitOf(w).value) else w
  }

  /** The replacement over the whole text: `\b` makes the pattern match whole words only. */
  function Units(s: string): string
    decreases |s|
  {
    if s == "" then ""
    else
      var k := WordRun(s);
      WordRunFits(s);
      if k == 0 then [s[0]] + Units(s[1..]) else Word(s[..k]) + Units(s[k..])
  }

  /** `canonicalizeInterval`. */
  function Interval(s: string): string {
    Units(Collapse(Trim(s)))
  }

  // ----- words -----

  /** The first letter tells the units apart, and the second one minutes from months. */
  lemma UnitsDiffer(u: Unit, v: Unit)
    requires u != v
    ensures !Names(UpperText(u), v)
  {
    var i := if (u.Minute? || u.Month?) && (v.Minute? || v.Month?) then 1 else 0;
    var ch := UpperText(u)[i];
    assert ch != UpperText(v)[i] && ch != LowerText(v)[i];
    assert (UpperText(v) + "S")[i] == UpperText(v)[i] && (LowerText(v) + "s")[i] == LowerText(v)[i];
  }

  lemma NamesItself(u: Unit)
    ensures Names(UpperText(u), u)
  {
  }

  lemma WordIsFinal(w: string)
    ensures Word(Word(w)) == Word(w)
  {
    if UnitOf(w).Some? {
      var u := UnitOf(w).value;
      NamesItself(u);
      forall v: Unit | u != v ensures !Names(UpperText(u), v) {
        UnitsDiffer(u, v);
      }
      hide Names, UpperText;
    }
  }

  lemma {:induction false} RunIsWord(s: string)
    ensures WordRun(s) <= |s| && AllWord(s[..WordRun(s)])
    ensures WordRun(s) < |s| ==> !IsWord(s[WordRun(s)])
  {
    if s != "" && IsWord(s[0]) {
      RunIsWord(s[1..]);
      assert s[..WordRun(s)][1..] == s[1..][..WordRun(s[1..])];
    }
  }

  lemma UpperIsWord(u: Unit)
    ensures AllWord(UpperText(u)) && UpperText(u) != ""
  {
    match u
    case Second => assert AllWord("SECOND");
    case Minute => assert AllWord("MINUTE");
    case Hour => assert AllWord("HOUR");
    case Day => assert AllWord("DAY");
    case Week => assert AllWord("WEEK");
    case Month => assert AllWord("MONTH");
    case Year => assert AllWord("YEAR");
  }

  lemma WordIsWord(w: string)
    requires AllWord(w) && w != ""
    ensures AllWord(Word(w)) && Word(w) != ""
  {
    if UnitOf(w).Some? {
      UpperIsWord(UnitOf(w).value);
    }
  }

  // ----- texts -----

  lemma {:induction false} UnitsStart(s: string)
    ensures s == "" <==> Units(s) == ""
    ensures s != "" ==> IsWord(Units(s)[0]) == IsWord(s[0]) && (!IsWord(s[0]) ==> Units(s)[0] == s[0])
  {
    if s != "" && WordRun(s) > 0 {
      RunIsWord(s);
      WordIsWord(s[..WordRun(s)]);
      hide Word;
    }
  }

  lemma {:induction false} UnitsAreFinal(s: string)
    ensures Units(Units(s)) == Units(s)
    decreases |s|
  {
    hide Word;
    if s != "" {
      var k := WordRun(s);
      RunIsWord(s);
      if k == 0 {
        UnitsAreFinal(s[1..]);
        assert ([s[0]] + Units(s[1..]))[1..] == Units(s[1..]);
      } else {
        var w, rest := Word(s[..k]), Units(s[k..]);
        WordIsWord(s[..k]);
        WordIsFinal(s[..k]);
        UnitsStart(s[k..]);
        UnitsAreFinal(s[k..]);
        WordRunOf(w, rest);
        assert (w + rest)[..|w|] == w && (w + rest)[|w|..] == rest;
      }
    }
  }

  lemma WordIsSpaceless(w: string)
    requires AllWord(w)
    ensures forall i :: 0 <= i < |w| ==> !IsSpace(w[i])
  {
    forall i | 0 <= i < |w| ensures !IsSpace(w[i]) {
      if IsSpace(w[i]) {
        WordsAreFlat(w, w[i]);
      }
    }
  }

  lemma LoneJoins(a: string, b: string)
    requires Lone(b) && (forall i :: 0 <= i < |a| ==> !IsSpace(a[i]))
    ensures Lone(a + b)
  {
    var s := a + b;
    forall i | 0 <= i < |s| && IsSpace(s[i]) ensures s[i] == ' ' && (i + 1 < |s| ==> !IsSpace(s[i + 1])) {
      assert s[i] == b[i - |a|];
      if i + 1 < |s| {
        assert s[i + 1] == b[i + 1 - |a|];
      }
    }
  }

  lemma LoneHead(c: char, b: string)
    requires Lone(b) && (IsSpace(c) ==> c == ' ' && (b == "" || !IsSpace(b[0])))
    ensures Lone([c] + b)
  {
    var s := [c] + b;
    forall i | 0 <= i < |s| && IsSpace(s[i]) ensures s[i] == ' ' && (i + 1 < |s| ==> !IsSpace(s[i + 1])) {
      if i > 0 {
        assert s[i] == b[i - 1];
      }
      if i + 1 < |s| {
        assert s[i + 1] == b[i];
      }
    }
  }

  lemma LoneTail(s: string, k: nat)
    requires Lone(s) && k <= |s|
    ensures Lone(s[k..])
  {
    forall i | 0 <= i < |s| - k && IsSpace(s[k..][i]) ensures s[k..][i] == ' ' && (i + 1 < |s| - k ==> !IsSpace(s[k..][i + 1])) {
      assert s[k..][i] == s[k + i];
    }
  }

  /** Replacing units leaves the spaces alone. */
  lemma {:induction false} UnitsStayLone(s: string)
    requires Lone(s)
    ensures Lone(Units(s)) && (s != "" ==> Units(s) != "" && IsSpace(Units(s)[|Units(s)| - 1]) == IsSpace(s[|s| - 1]))
    decreases |s|
  {
    if s != "" {
      var k := WordRun(s);
      RunIsWord(s);
      UnitsStart(s);
      if k == 0 {
        LoneTail(s, 1);
        UnitsStayLone(s[1..]);
        UnitsStart(s[1..]);
        hide Word, WordRun;
        LoneHead(s[0], Units(s[1..]));
      } else {
        WordIsWord(s[..k]);
        WordIsSpaceless(Word(s[..k]));
        WordIsSpaceless(s[..k]);
        LoneTail(s, k);
        UnitsStayLone(s[k..]);
        hide Word, WordRun, AllWord;
        LoneJoins(Word(s[..k]), Units(s[k..]));
        assert s[k - 1] == s[..k][k - 1];
      }
    }
  }

  lemma {:induction false} TrimStartKeepsEnd(s: string)
    requires s != "" && !IsSpace(s[|s| - 1])
    ensures TrimStart(s) != "" && TrimStart(s)[|TrimStart(s)| - 1] == s[|s| - 1]
  {
    if IsSpace(s[0]) {
      TrimStartKeepsEnd(s[1..]);
    }
  }

  lemma {:induction false} CollapseEnds(s: string)
    requires s != "" && !IsSpace(s[|s| - 1])
    ensures Collapse(s) != "" && !IsSpace(Collapse(s)[|Collapse(s)| - 1])
    decreases |s|
  {
    if IsSpace(s[0]) {
      TrimStartShrinks(s);
      TrimStartKeepsEnd(s);
      CollapseEnds(TrimStart(s));
    } else if |s| > 1 {
      CollapseEnds(s[1..]);
    } else {
      assert s[1..] == "";
    }
  }

  lemma CollapsedIsNormal(s: string)
    ensures Normal(Collapse(Trim(s)))
  {
    TrimmedEnds(s);
    var t := Trim(s);
    hide Trim;
    CollapseIsLone(t);
    if t != "" {
      CollapseEnds(t);
    }
  }

  /** `canonicalizeInterval` is idempotent on every text. */
  lemma IntervalIsIdempotent(s: string)
    ensures Interval(Interval(s)) == Interval(s)
  {
    var c := Collapse(Trim(s));
    CollapsedIsNormal(s);
    UnitsStayLone(c);
    UnitsStart(c);
    UnitsAreFinal(c);
    hide Trim, Collapse, Units;
    var u := Units(c);
    SpacesAreNotWords();
    TrimOfTrimmed(u);
    LoneIsCollapsed(u);
  }

  lemma SpacesAreNotWords()
    ensures forall c :: IsSpace(c) ==> !IsWord(c)
  {
  }

  // ----- which words are units -----

  function Lowered(w: string): string {
    if w == "" then "" else [Lower(w[0])] + Lowered(w[1..])
  }

  /** The unit a word stands for, spelled in upper case: seven words and their plurals, whatever their case. */
  function UnitWord(w: string): string {
    var l := Lowered(w);
    if l == "second" || l == "seconds" then "SECOND"
    else if l == "minute" || l == "minutes" then "MINUTE"
    else if l == "hour" || l == "hours" then "HOUR"
    else if l == "day" || l == "days" then "DAY"
    else if l == "week" || l == "weeks" then "WEEK"
    else if l == "month" || l == "months" then "MONTH"
    else if l == "year" || l == "years" then "YEAR"
    else w
  }

  /** A text in lower case and its letters in upper case. */
  predicate Cases(lower: string, upper: string) {
    |lower| == |upper| && forall i :: 0 <= i < |lower| ==> 'A' <= upper[i] <= 'Z' && lower[i] == Lower(upper[i])
  }

  lemma {:induction false} LoweredAt(w: string)
    ensures |Lowered(w)| == |w| && forall i :: 0 <= i < |w| ==> Lowered(w)[i] == Lower(w[i])
  {
    if w != "" {
      LoweredAt(w[1..]);
    }
  }

  lemma SameLettersIff(w: string, lower: string, upper: string)
    requires Cases(lower, upper)
    ensures SameLetters(w, lower, upper) <==> Lowered(w) == lower
  {
    LoweredAt(w);
    if |w| == |lower| {
      assert forall i :: 0 <= i < |w| ==> (Lower(w[i]) == lower[i] <==> w[i] == lower[i] || w[i] == upper[i]);
      if Lowered(w) == lower {
        assert forall i :: 0 <= i < |w| ==> Lower(w[i]) == lower[i];
      }
    }
  }

  lemma UnitCases(u: Unit)
    ensures Cases(LowerText(u), UpperText(u)) && Cases(LowerText(u) + "s", UpperText(u) + "S")
  {
  }

  lemma NamesIff(w: string, u: Unit)
    ensures Names(w, u) <==> Lowered(w) == LowerText(u) || Lowered(w) == LowerText(u) + "s"
  {
    UnitCases(u);
    SameLettersIff(w, LowerText(u), UpperText(u));
    SameLettersIff(w, LowerText(u) + "s", UpperText(u) + "S");
    hide SameLetters, Cases;
  }

  lemma Plurals()
    ensures LowerText(Second) + "s" == "seconds" && LowerText(Minute) + "s" == "minutes" && LowerText(Hour) + "s" == "hours"
    ensures LowerText(Day) + "s" == "days" && LowerText(Week) + "s" == "weeks" && LowerText(Month) + "s" == "months"
    ensures LowerText(Year) + "s" == "years"
  {
  }

  /** A word is replaced by the unit it names, and by nothing else. */
  lemma WordIsItsUnit(w: string)
    ensures Word(w) == UnitWord(w)
  {
    NamesIff(w, Second);
    NamesIff(w, Minute);
    NamesIff(w, Hour);
    NamesIff(w, Day);
    NamesIff(w, Week);
    NamesIff(w, Month);
    NamesIff(w, Year);
    Plurals();
    hide Names, Lowered;
  }

  // ----- an interval as words and what stands between them -----

  datatype Segment = Gap(c: char) | Letters(word: string)

  predicate SegmentsOk(segments: seq<Segment>) {
    && (forall i :: 0 <= i < |segments| ==>
          match segments[i]
          case Gap(c) => !IsWord(c)
          case Letters(w) => w != "" && AllWord(w))
    && (forall i :: 0 <= i < |segments| - 1 ==> segments[i].Gap? || segments[i + 1].Gap?)
  }

  function Said(segments: seq<Segment>): string {
    if segments == [] then ""
    else (match segments[0] case Gap(c) => [c] case Letters(w) => w) + Said(segments[1..])
  }

  function SaidInUnits(segments: seq<Segment>): string {
    if segments == [] then ""
    else (match segments[0] case Gap(c) => [c] case Letters(w) => UnitWord(w)) + SaidInUnits(segments[1..])
  }

  lemma {:induction false} SegmentsAreUnits(segments: seq<Segment>)
    requires SegmentsOk(segments)
    ensures Units(Said(segments)) == SaidInUnits(segments)
    decreases |segments|
  {
    hide UnitWord, Word;
    if segments != [] {
      var rest := segments[1..];
      assert SegmentsOk(rest) by {
        assert forall i :: 0 <= i < |rest| ==> rest[i] == segments[i + 1];
      }
      SegmentsAreUnits(rest);
      var s, tail := Said(segments), Said(rest);
      match segments[0]
      case Gap(c) =>
        assert s[0] == c && s[1..] == tail;
      case Letters(w) =>
        assert rest != [] ==> segments[0 + 1].Gap? && rest[0] == segments[1];
        assert rest != [] ==> tail[0] == rest[0].c;
        WordRunOf(w, tail);
        WordIsItsUnit(w);
        assert s[..|w|] == w && s[|w|..] == tail && s[0] == w[0];
    }
  }

  /** `canonicalizeInterval`: the words of the text with one space between them, each unit among them in upper case and singular. */
  lemma IntervalIsSpelledInUnits(s: string, segments: seq<Segment>)
    requires SegmentsOk(segments) && Spell(Words(s)) == Said(segments)
    ensures Interval(s) == SaidInUnits(segments)
  {
    CollapsedIsNormal(s);
    CollapsedSpells(s);
    hide Collapse, Trim, Units, Words, Spell;
    SegmentsAreUnits(segments);
  }
}
