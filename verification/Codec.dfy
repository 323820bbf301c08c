/**
 Column codecs: the printer, the parser, and exactly which codec chains the parser reads back as written.
 */
module Codec {
  import opened Wrappers
  import opened SqlText
  import opened KeyClause

  // ----- codecs -----

  datatype Bare = NONE | LZ4 | T64 | GCD | ALP

  datatype Sized = Delta | DoubleDelta | Gorilla

  datatype Step =
    | General(kind: Bare)
    | LZ4HC(level: Option<int>)
    | ZSTD(level: Option<int>)
    | Preprocess(name: Sized, size: Option<int>)
    | FPC(depth: int, floatSize: int)
    | Raw(expression: string)

  function BareText(b: Bare): string {
    match b
    case NONE => "NONE"
    case LZ4 => "LZ4"
    case T64 => "T64"
    case GCD => "GCD"
    case ALP => "ALP"
  }

  function SizedText(s: Sized): string {
    match s
    case Delta => "Delta"
    case DoubleDelta => "DoubleDelta"
    case Gorilla => "Gorilla"
  }

  /** The values the types of the model allow. */
  predicate WellTyped(s: Step) {
    match s
    case Preprocess(_, Some(n)) => n == 1 || n == 2 || n == 4 || n == 8
    case FPC(_, n) => n == 4 || n == 8
    case _ => true
  }

  /** `canonicalizeStep`: defaults are filled in. */
  function CanonicalStep(s: Step): Step {
    match s
    case LZ4HC(l) => LZ4HC(Some(if l.Some? then l.value else 9))
    case ZSTD(l) => ZSTD(Some(if l.Some? then l.value else 1))
    case Preprocess(k, n) => Preprocess(k, Some(if n.Some? then n.value else 1))
    case Raw(e) => Raw(Trim(e))
    case _ => s
  }

  function CanonicalCodec(steps: seq<Step>): seq<Step> {
    seq(|steps|, i requires 0 <= i < |steps| => CanonicalStep(steps[i]))
  }

  lemma StepIsIdempotent(s: Step)
    ensures CanonicalStep(CanonicalStep(s)) == CanonicalStep(s)
  {
    if s.Raw? {
      TrimIsIdempotent(s.expression);
    }
  }

  /** `canonicalizeCodec` is idempotent. */
  lemma CanonicalCodecIsIdempotent(steps: seq<Step>)
    ensures CanonicalCodec(CanonicalCodec(steps)) == CanonicalCodec(steps)
  {
    hide CanonicalStep;
    forall i | 0 <= i < |steps| ensures CanonicalStep(CanonicalStep(steps[i])) == CanonicalStep(steps[i]) {
      StepIsIdempotent(steps[i]);
    }
  }

  /** What ClickHouse takes for granted is written out, what is given stays, and no step changes its kind or place. */
  lemma DefaultsAreFilledIn(steps: seq<Step>, i: nat)
    requires i < |steps|
    ensures var before, after := steps[i], CanonicalCodec(steps)[i];
      && |CanonicalCodec(steps)| == |steps|
      && (before == ZSTD(None) ==> after == ZSTD(Some(1)))
      && (before == LZ4HC(None) ==> after == LZ4HC(Some(9)))
      && (before.Preprocess? && before.size.None? ==> after == before.(size := Some(1)))
      && (before.Raw? ==> after == Raw(Trim(before.expression)))
      && ((before.ZSTD? || before.LZ4HC?) && before.level.Some? ==> after == before)
      && (before.Preprocess? && before.size.Some? ==> after == before)
      && (before.General? || before.FPC? ==> after == before)
  {
  }

  // ----- numbers -----

  /** Printing a number into a template, and `Number(...)` with its finiteness test. */
  datatype Numerals = Numerals(show: int -> string, read: string -> Option<int>)

  function Show(n: Numerals, x: int): string {
    n.show(x)
  }

  function Read(n: Numerals, text: string): Option<int> {
    n.read(text)
  }

  predicate IsDigitless(c: char) {
    c == '(' || c == ')' || c == ',' || IsSpace(c)
  }

  /** A printed number is no list, no call, and holds no blank. */
  predicate Solid(s: string) {
    s != "" && forall i :: 0 <= i < |s| ==> !IsDigitless(s[i])
  }

  ghost predicate Faithful(n: Numerals) {
    (forall x :: Read(n, Show(n, x)) == Some(x)) && (forall x :: Solid(Show(n, x)))
  }

  // ----- printing -----

  function Arguments(values: seq<string>): string {
    if values == [] then "" else "(" + Joined(values) + ")"
  }

  function Joined(values: seq<string>): string {
    if values == [] then "" else if |values| == 1 then values[0]
    else values[0] + ", " + Joined(values[1..])
  }

  function OptionalText(n: Numerals, value: Option<int>): seq<string> {
    if value.Some? then [Show(n, value.value)] else []
  }

  function RenderStep(n: Numerals, s: Step): string {
    match s
    case General(b) => BareText(b)
    case LZ4HC(l) => "LZ4HC" + Arguments(OptionalText(n, l))
    case ZSTD(l) => "ZSTD" + Arguments(OptionalText(n, l))
    case Preprocess(k, z) => SizedText(k) + Arguments(OptionalText(n, z))
    case FPC(d, z) => "FPC" + Arguments([Show(n, d), Show(n, z)])
    case Raw(e) => e
  }

  function RenderAll(n: Numerals, steps: seq<Step>): seq<string> {
    if steps == [] then [] else [RenderStep(n, steps[0])] + RenderAll(n, steps[1..])
  }

  /** `renderCodec`. */
  function Render(n: Numerals, steps: seq<Step>): string {
    "CODEC(" + Joined(RenderAll(n, steps)) + ")"
  }

  // ----- parsing one atom -----

  predicate IsWord(c: char) {
    'a' <= c <= 'z' || 'A' <= c <= 'Z' || '0' <= c <= '9' || c == '_'
  }

  function WordRun(s: string): nat {
    if s != "" && IsWord(s[0]) then 1 + WordRun(s[1..]) else 0
  }

  lemma {:induction false} WordRunFits(s: string)
    ensures WordRun(s) <= |s|
  {
    if s != "" && IsWord(s[0]) {
      WordRunFits(s[1..]);
    }
  }

  /** `split(',')`. */
  function SplitPlain(s: string, current: string): seq<string>
    decreases |s|
  {
    if s == "" then [current]
    else if s[0] == ',' then [current] + SplitPlain(s[1..], "")
    else SplitPlain(s[1..], current + [s[0]])
  }

  function TrimAll(values: seq<string>): seq<string> {
    if values == [] then [] else [Trim(values[0])] + TrimAll(values[1..])
  }

  /** The name and the arguments of an atom; no arguments for `()` and `( )`. */
  datatype Shape = NotAnAtom | Atom(name: string, args: seq<string>)

  function ArgsOf(body: string): seq<string> {
    var args := TrimAll(SplitPlain(body, ""));
    if args == [""] then [] else args
  }

  function ShapeOf(t: string): Shape {
    var k := WordRun(t);
    WordRunFits(t);
    if k == 0 then NotAnAtom
    else if k == |t| then Atom(t, [])
    else if |t| - k >= 2 && t[k] == '(' && t[|t| - 1] == ')' && ')' !in t[k + 1..|t| - 1] then
      Atom(t[..k], ArgsOf(t[k + 1..|t| - 1]))
    else NotAnAtom
  }

  function Leveled(n: Numerals, args: seq<string>, make: Option<int> -> Step): Option<Step> {
    if args == [] then Some(make(None))
    else if |args| != 1 || Read(n, args[0]).None? then None
    else Some(make(Read(n, args[0])))
  }

  function SizedStep(n: Numerals, kind: Sized, args: seq<string>): Option<Step> {
    if args == [] then Some(Preprocess(kind, None))
    else if |args| != 1 || !WellTyped(Preprocess(kind, Read(n, args[0]))) || Read(n, args[0]).None? then None
    else Some(Preprocess(kind, Read(n, args[0])))
  }

  function FpcStep(n: Numerals, args: seq<string>): Option<Step> {
    if |args| != 2 || Read(n, args[0]).None? || Read(n, args[1]).None? then None
    else
      var step := FPC(Read(n, args[0]).value, Read(n, args[1]).value);
      if WellTyped(step) then Some(step) else None
  }

  function BareStep(kind: Bare, args: seq<string>): Option<Step> {
    if args == [] then Some(General(kind)) else None
  }

  function NamedStep(n: Numerals, name: string, args: seq<string>): Option<Step> {
    if name == "NONE" then BareStep(NONE, args)
    else if name == "LZ4" then BareStep(LZ4, args)
    else if name == "T64" then BareStep(T64, args)
    else if name == "GCD" then BareStep(GCD, args)
    else if name == "ALP" then BareStep(ALP, args)
    else if name == "LZ4HC" then Leveled(n, args, l => LZ4HC(l))
    else if name == "ZSTD" then Leveled(n, args, l => ZSTD(l))
    else if name == "Delta" then SizedStep(n, Delta, args)
    else if name == "DoubleDelta" then SizedStep(n, DoubleDelta, args)
    else if name == "Gorilla" then SizedStep(n, Gorilla, args)
    else if name == "FPC" then FpcStep(n, args)
    else None
  }

  /** `parseAtom`. */
  function ParseAtom(n: Numerals, raw: string): Option<Step> {
    match ShapeOf(Trim(raw))
    case NotAnAtom => None
    case Atom(name, args) => NamedStep(n, name, args)
  }

  // ----- parsing a chain -----

  function Deeper(depth: nat, c: char): nat {
    if c == '(' then depth + 1 else if c == ')' && depth > 0 then depth - 1 else depth
  }

  /** `splitTopLevelCommas`. */
  function SplitFrom(s: string, depth: nat, current: string): seq<string>
    decreases |s|
  {
    if s == "" then (if current != "" then [current] else [])
    else if s[0] == ',' && depth == 0 then [current] + SplitFrom(s[1..], 0, "")
    else SplitFrom(s[1..], Deeper(depth, s[0]), current + [s[0]])
  }

  function Atoms(pieces: seq<string>): seq<string> {
    if pieces == [] then []
    else (if Trim(pieces[0]) != "" then [Trim(pieces[0])] else []) + Atoms(pieces[1..])
  }

  function Lower(c: char): char {
    if 'A' <= c <= 'Z' then (c as int + 32) as char else c
  }

  predicate IsCodecWord(s: string) {
    |s| == 5 && Lower(s[0]) == 'c' && Lower(s[1]) == 'o' && Lower(s[2]) == 'd' && Lower(s[3]) == 'e' && Lower(s[4]) == 'c'
  }

  /** The text inside `CODEC ( ... )`, or the text itself. */
  function Unwrapped(t: string): string {
    if |t| >= 5 && IsCodecWord(t[..5]) then
      var inner := TrimStart(t[5..]);
      if |inner| >= 2 && inner[0] == '(' && inner[|inner| - 1] == ')' then inner[1..|inner| - 1] else t
    else t
  }

  /** Every atom is recognised. */
  predicate AllParse(n: Numerals, atoms: seq<string>) {
    forall i :: 0 <= i < |atoms| ==> ParseAtom(n, atoms[i]).Some?
  }

  function ParsedAll(n: Numerals, atoms: seq<string>): seq<Step>
    requires AllParse(n, atoms)
  {
    if atoms == [] then [] else [ParseAtom(n, atoms[0]).value] + ParsedAll(n, atoms[1..])
  }

  /** `parseCodec` on what stands inside the parentheses. */
  function ParseChain(n: Numerals, stripped: string): seq<Step> {
    var atoms := Atoms(SplitFrom(stripped, 0, ""));
    if AllParse(n, atoms) then ParsedAll(n, atoms) else [Raw(stripped)]
  }

  /** `parseCodec`. */
  function Parse(n: Numerals, raw: string): Option<seq<Step>> {
    var stripped := Trim(Unwrapped(Trim(raw)));
    if Trim(raw) == "" || stripped == "" then None else Some(ParseChain(n, stripped))
  }

  // ----- the parser's loops -----

  lemma SplitFromAt(s: string, i: nat, depth: nat, current: string)
    requires i < |s|
    ensures SplitFrom(s[i..], depth, current)
      == if s[i] == ',' && depth == 0 then [current] + SplitFrom(s[i + 1..], 0, "")
         else SplitFrom(s[i + 1..], Deeper(depth, s[i]), current + [s[i]])
  {
    assert s[i..][1..] == s[i + 1..];
  }

  method SplitTopLevelCommas(input: string) returns (out: seq<string>)
    ensures out == SplitFrom(input, 0, "")
  {
    out := [];
    var depth, current := 0, "";
    assert input[0..] == input;
    for i := 0 to |input|
      invariant depth >= 0 && out + SplitFrom(input[i..], depth, current) == SplitFrom(input, 0, "")
    {
      var ch := input[i];
      SplitFromAt(input, i, depth, current);
      hide SplitFrom;
      if ch == '(' {
        depth := depth + 1;
      } else if ch == ')' {
        depth := if depth - 1 > 0 then depth - 1 else 0;
      }
      if ch == ',' && depth == 0 {
        Assoc(out, [current], SplitFrom(input[i + 1..], 0, ""));
        out := out + [current];
        current := "";
      } else {
        current := current + [ch];
      }
    }
    assert input[|input|..] == "";
    if |current| > 0 {
      out := out + [current];
    } else {
      assert out + [] == out;
    }
  }

  lemma {:induction false} AtomsLast(pieces: seq<string>, p: string)
    ensures Atoms(pieces + [p]) == Atoms(pieces) + if Trim(p) != "" then [Trim(p)] else []
  {
    if pieces == [] {
      assert [] + [p] == [p] && [p][1..] == [];
    } else {
      assert (pieces + [p])[1..] == pieces[1..] + [p] && (pieces + [p])[0] == pieces[0];
      hide Trim;
      AtomsLast(pieces[1..], p);
      Assoc(if Trim(pieces[0]) != "" then [Trim(pieces[0])] else [], Atoms(pieces[1..]), if Trim(p) != "" then [Trim(p)] else []);
    }
  }

  lemma {:induction false} ParsedLast(n: Numerals, atoms: seq<string>, a: string)
    requires AllParse(n, atoms) && ParseAtom(n, a).Some?
    ensures AllParse(n, atoms + [a]) && ParsedAll(n, atoms + [a]) == ParsedAll(n, atoms) + [ParseAtom(n, a).value]
  {
    hide ParseAtom;
    if atoms == [] {
      assert [] + [a] == [a] && [a][1..] == [];
    } else {
      assert (atoms + [a])[1..] == atoms[1..] + [a];
      ParsedLast(n, atoms[1..], a);
    }
  }

  method ParseCodec(n: Numerals, raw: string) returns (steps: Option<seq<Step>>)
    ensures steps == Parse(n, raw)
  {
    hide Trim, Unwrapped, ParseAtom, SplitFrom;
    var trimmed := Trim(raw);
    if |trimmed| == 0 {
      return None;
    }
    var stripped := Trim(Unwrapped(trimmed));
    if |stripped| == 0 {
      return None;
    }
    var pieces := SplitTopLevelCommas(stripped);
    var atoms: seq<string> := [];
    for i := 0 to |pieces|
      invariant atoms == Atoms(pieces[..i])
    {
      assert pieces[..i + 1] == pieces[..i] + [pieces[i]];
      AtomsLast(pieces[..i], pieces[i]);
      var value := Trim(pieces[i]);
      if |value| > 0 {
        atoms := atoms + [value];
      }
    }
    assert pieces[..|pieces|] == pieces;
    var parsed: seq<Step> := [];
    for i := 0 to |atoms|
      invariant AllParse(n, atoms[..i]) && parsed == ParsedAll(n, atoms[..i])
    {
      assert atoms[..i + 1] == atoms[..i] + [atoms[i]];
      var step := ParseAtom(n, atoms[i]);
      if step.None? {
        return Some([Raw(stripped)]);
      }
      ParsedLast(n, atoms[..i], atoms[i]);
      parsed := parsed + [step.value];
    }
    assert atoms[..|atoms|] == atoms;
    return Some(parsed);
  }

  // ----- a printed step is one piece -----

  predicate HoldsNo(s: string, c: char) {
    forall i :: 0 <= i < |s| ==> s[i] != c
  }

  /** Nothing that nests, and no separator unless something already nests. */
  lemma {:induction false} PassesFlat(a: string, t: string, depth: nat, current: string)
    requires HoldsNo(a, '(') && HoldsNo(a, ')') && (depth > 0 || HoldsNo(a, ','))
    ensures SplitFrom(a + t, depth, current) == SplitFrom(t, depth, current + a)
  {
    if a == "" {
      assert "" + t == t && current + "" == current;
    } else {
      assert a + t == [a[0]] + (a[1..] + t);
      assert (current + [a[0]]) + a[1..] == current + a;
      PassesFlat(a[1..], t, depth, current + [a[0]]);
    }
  }

  lemma PassesOne(c: char, t: string, depth: nat, current: string)
    requires c == '(' || c == ')'
    ensures SplitFrom([c] + t, depth, current) == SplitFrom(t, Deeper(depth, c), current + [c])
  {
    assert ([c] + t)[1..] == t;
  }

  lemma PassesCall(name: string, body: string, t: string, current: string)
    requires HoldsNo(name, '(') && HoldsNo(name, ')') && HoldsNo(name, ',') && HoldsNo(body, '(') && HoldsNo(body, ')')
    ensures SplitFrom(name + "(" + body + ")" + t, 0, current) == SplitFrom(t, 0, current + (name + "(" + body + ")"))
  {
    hide SplitFrom;
    calc {
      SplitFrom(name + "(" + body + ")" + t, 0, current);
      { assert name + "(" + body + ")" + t == name + ("(" + (body + (")" + t))); }
      SplitFrom(name + ("(" + (body + (")" + t))), 0, current);
      { PassesFlat(name, "(" + (body + (")" + t)), 0, current); }
      SplitFrom("(" + (body + (")" + t)), 0, current + name);
      { PassesOne('(', body + (")" + t), 0, current + name); }
      SplitFrom(body + (")" + t), 1, current + name + "(");
      { PassesFlat(body, ")" + t, 1, current + name + "("); }
      SplitFrom(")" + t, 1, current + name + "(" + body);
      { PassesOne(')', t, 1, current + name + "(" + body); }
      SplitFrom(t, 0, current + name + "(" + body + ")");
      { assert current + name + "(" + body + ")" == current + (name + "(" + body + ")"); }
      SplitFrom(t, 0, current + (name + "(" + body + ")"));
    }
  }

  /** What a typed step prints: a name, alone or called. */
  function NameOf(s: Step): string
    requires !s.Raw?
  {
    match s
    case General(b) => BareText(b)
    case LZ4HC(_) => "LZ4HC"
    case ZSTD(_) => "ZSTD"
    case Preprocess(k, _) => SizedText(k)
    case FPC(_, _) => "FPC"
  }

  function ValuesOf(n: Numerals, s: Step): seq<string>
    requires !s.Raw?
  {
    match s
    case General(_) => []
    case LZ4HC(l) => OptionalText(n, l)
    case ZSTD(l) => OptionalText(n, l)
    case Preprocess(_, z) => OptionalText(n, z)
    case FPC(d, z) => [Show(n, d), Show(n, z)]
  }

  lemma RenderedShape(n: Numerals, s: Step)
    requires !s.Raw?
    ensures var name, values := NameOf(s), ValuesOf(n, s);
      && |values| <= 2
      && RenderStep(n, s) == if values == [] then name else name + "(" + Joined(values) + ")"
  {
    hide Joined, BareText, SizedText;
  }

  predicate AllWord(s: string) {
    s == "" || (IsWord(s[0]) && AllWord(s[1..]))
  }

  lemma NamesAreWords(s: Step)
    requires !s.Raw?
    ensures AllWord(NameOf(s)) && NameOf(s) != ""
  {
    if s.General? {
      BareNamesAreWords(s.kind);
    } else if s.Preprocess? {
      SizedNamesAreWords(s.name);
    } else {
      LeveledNamesAreWords();
    }
    hide AllWord, BareText, SizedText;
  }

  lemma BareNamesAreWords(b: Bare)
    ensures AllWord(BareText(b)) && BareText(b) != ""
  {
    match b
    case NONE => assert AllWord("NONE");
    case LZ4 => assert AllWord("LZ4");
    case T64 => assert AllWord("T64");
    case GCD => assert AllWord("GCD");
    case ALP => assert AllWord("ALP");
  }

  lemma SizedNamesAreWords(s: Sized)
    ensures AllWord(SizedText(s)) && SizedText(s) != ""
  {
    match s
    case Delta => assert AllWord("Delta");
    case DoubleDelta => DoubleDeltaIsAWord();
    case Gorilla => assert AllWord("Gorilla");
  }

  lemma DoubleDeltaIsAWord()
    ensures AllWord("DoubleDelta")
  {
    assert AllWord("Delta");
    assert "DoubleDelta"[6..] == "Delta";
  }

  lemma LeveledNamesAreWords()
    ensures AllWord("LZ4HC") && AllWord("ZSTD") && AllWord("FPC")
  {
  }

  lemma {:induction false} WordsAreFlat(s: string, c: char)
    requires AllWord(s) && (c == '(' || c == ')' || c == ',' || IsSpace(c))
    ensures HoldsNo(s, c)
  {
    if s != "" {
      WordsAreFlat(s[1..], c);
      assert s == [s[0]] + s[1..];
    }
  }

  /** Printed arguments: solid texts, with a comma and a space between two. */
  lemma BodyIsFlat(n: Numerals, values: seq<string>)
    requires |values| <= 2 && forall i :: 0 <= i < |values| ==> Solid(values[i])
    ensures HoldsNo(Joined(values), '(') && HoldsNo(Joined(values), ')')
  {
    if |values| == 2 {
      assert values[1..] == [values[1]];
    }
  }

  lemma ValuesAreSolid(n: Numerals, s: Step)
    requires Faithful(n) && !s.Raw?
    ensures forall i :: 0 <= i < |ValuesOf(n, s)| ==> Solid(ValuesOf(n, s)[i])
  {
  }

  lemma StepPasses(n: Numerals, s: Step, t: string, current: string)
    requires Faithful(n) && !s.Raw?
    ensures SplitFrom(RenderStep(n, s) + t, 0, current) == SplitFrom(t, 0, current + RenderStep(n, s))
  {
    RenderedShape(n, s);
    NamesAreWords(s);
    var name, values := NameOf(s), ValuesOf(n, s);
    WordsAreFlat(name, '(');
    WordsAreFlat(name, ')');
    WordsAreFlat(name, ',');
    ValuesAreSolid(n, s);
    BodyIsFlat(n, values);
    hide *;
    if values == [] {
      PassesFlat(name, t, 0, current);
    } else {
      PassesCall(name, Joined(values), t, current);
    }
  }

  // ----- a printed step is read back -----

  lemma {:induction false} WordRunOf(name: string, rest: string)
    requires AllWord(name) && (rest == "" || !IsWord(rest[0]))
    ensures WordRun(name + rest) == |name|
  {
    if name == "" {
      assert "" + rest == rest;
    } else {
      assert (name + rest)[1..] == name[1..] + rest;
      WordRunOf(name[1..], rest);
    }
  }

  lemma ShapeOfName(name: string)
    requires AllWord(name) && name != ""
    ensures ShapeOf(name) == Atom(name, [])
  {
    WordRunOf(name, "");
    assert name + "" == name;
  }

  lemma ShapeOfCall(name: string, body: string)
    requires AllWord(name) && name != "" && HoldsNo(body, ')')
    ensures ShapeOf(name + "(" + body + ")") == Atom(name, ArgsOf(body))
  {
    var t := name + "(" + body + ")";
    WordRunOf(name, "(" + body + ")");
    assert t == name + ("(" + body + ")");
    assert t[..|name|] == name && t[|name| + 1..|t| - 1] == body;
    hide ArgsOf, WordRun;
  }

  lemma {:induction false} SplitPlainFlat(a: string, t: string, current: string)
    requires HoldsNo(a, ',')
    ensures SplitPlain(a + t, current) == SplitPlain(t, current + a)
  {
    if a == "" {
      assert "" + t == t && current + "" == current;
    } else {
      assert (a + t)[1..] == a[1..] + t;
      assert (current + [a[0]]) + a[1..] == current + a;
      SplitPlainFlat(a[1..], t, current + [a[0]]);
    }
  }

  lemma SolidIsTrimmed(s: string)
    requires Solid(s)
    ensures Trim(s) == s && HoldsNo(s, ',')
  {
    TrimOfTrimmed(s);
  }

  lemma TrimLead(s: string)
    requires s != "" && !IsSpace(s[0]) && !IsSpace(s[|s| - 1])
    ensures Trim(" " + s) == s && Trim("" + s) == s
  {
    assert (" " + s)[1..] == s && "" + s == s;
    TrimOfTrimmed(s);
  }

  lemma TrimAllTwo(a: string, b: string)
    ensures TrimAll([a]) == [Trim(a)] && TrimAll([a, b]) == [Trim(a), Trim(b)]
  {
    hide Trim;
    assert [a][1..] == [] && [a, b][1..] == [b] && [b][1..] == [];
  }

  lemma OneArg(a: string)
    requires Solid(a)
    ensures ArgsOf(a) == [a]
  {
    SolidIsTrimmed(a);
    SplitPlainFlat(a, "", "");
    assert a + "" == a && "" + a == a;
    hide Trim, Solid;
    assert SplitPlain(a, "") == [a];
    TrimAllTwo(a, "");
  }

  lemma TwoArgs(a: string, b: string)
    requires Solid(a) && Solid(b)
    ensures ArgsOf(a + ", " + b) == [a, b]
  {
    SolidIsTrimmed(a);
    SolidIsTrimmed(b);
    TrimLead(b);
    hide Trim;
    var rest := ", " + b;
    assert a + ", " + b == a + rest && "" + a == a;
    SplitPlainFlat(a, rest, "");
    assert rest[1..] == " " + b;
    assert HoldsNo(" " + b, ',');
    SplitPlainFlat(" " + b, "", "");
    assert (" " + b) + "" == " " + b && "" + (" " + b) == " " + b;
    hide Solid;
    assert SplitPlain(a + rest, "") == [a, " " + b];
    TrimAllTwo(a, " " + b);
  }

  lemma ArgsAreRead(n: Numerals, s: Step)
    requires Faithful(n) && !s.Raw? && ValuesOf(n, s) != []
    ensures ArgsOf(Joined(ValuesOf(n, s))) == ValuesOf(n, s)
  {
    ValuesAreSolid(n, s);
    RenderedShape(n, s);
    var values := ValuesOf(n, s);
    hide ArgsOf, Solid, Faithful, ValuesOf;
    if |values| == 1 {
      OneArg(values[0]);
    } else {
      assert values[1..] == [values[1]];
      TwoArgs(values[0], values[1]);
      assert values == [values[0], values[1]];
    }
  }

  lemma LevelIsRead(n: Numerals, level: Option<int>, make: Option<int> -> Step)
    requires Faithful(n)
    ensures Leveled(n, OptionalText(n, level), make) == Some(make(level))
  {
    if level.Some? {
      assert Read(n, Show(n, level.value)) == level;
      assert OptionalText(n, level)[0] == Show(n, level.value);
    }
  }

  lemma NameIsRead(n: Numerals, s: Step)
    requires Faithful(n) && !s.Raw? && WellTyped(s)
    ensures NamedStep(n, NameOf(s), ValuesOf(n, s)) == Some(s)
  {
    match s
    case General(NONE) => case General(LZ4) => case General(T64) => case General(GCD) => case General(ALP) =>
    case LZ4HC(l) => LevelIsRead(n, l, x => LZ4HC(x));
    case ZSTD(l) => LevelIsRead(n, l, x => ZSTD(x));
    case Preprocess(Delta, _) => case Preprocess(DoubleDelta, _) => case Preprocess(Gorilla, _) =>
    case FPC(_, _) =>
  }

  lemma PrintedEnds(n: Numerals, s: Step)
    requires Faithful(n) && !s.Raw?
    ensures var r := RenderStep(n, s); r != "" && !IsSpace(r[0]) && !IsSpace(r[|r| - 1])
  {
    RenderedShape(n, s);
    NamesAreWords(s);
    forall c | IsSpace(c) ensures HoldsNo(NameOf(s), c) {
      WordsAreFlat(NameOf(s), c);
    }
    hide RenderStep, Joined, NameOf, ValuesOf;
  }

  /** `parseAtom` reads every typed step back from its print. */
  lemma StepIsReadBack(n: Numerals, s: Step)
    requires Faithful(n) && !s.Raw? && WellTyped(s)
    ensures ParseAtom(n, RenderStep(n, s)) == Some(s) && Trim(RenderStep(n, s)) == RenderStep(n, s)
  {
    PrintedEnds(n, s);
    TrimOfTrimmed(RenderStep(n, s));
    RenderedShape(n, s);
    NamesAreWords(s);
    NameIsRead(n, s);
    ValuesAreSolid(n, s);
    BodyIsFlat(n, ValuesOf(n, s));
    hide *;
    if ValuesOf(n, s) == [] {
      ShapeOfName(NameOf(s));
    } else {
      ShapeOfCall(NameOf(s), Joined(ValuesOf(n, s)));
      ArgsAreRead(n, s);
    }
    AtomIsNamed(n, RenderStep(n, s), NameOf(s), ValuesOf(n, s));
  }

  lemma AtomIsNamed(n: Numerals, raw: string, name: string, args: seq<string>)
    requires ShapeOf(Trim(raw)) == Atom(name, args)
    ensures ParseAtom(n, raw) == NamedStep(n, name, args)
  {
  }

  // ----- a printed chain is read back -----

  predicate AllTyped(steps: seq<Step>) {
    forall i :: 0 <= i < |steps| ==> !steps[i].Raw? && WellTyped(steps[i])
  }

  lemma {:induction false} RenderAllLength(n: Numerals, steps: seq<Step>)
    ensures |RenderAll(n, steps)| == |steps|
  {
    if steps != [] {
      RenderAllLength(n, steps[1..]);
    }
  }

  lemma SplitAtComma(t: string, current: string)
    ensures SplitFrom("," + t, 0, current) == [current] + SplitFrom(t, 0, "")
  {
    assert ("," + t)[1..] == t;
  }

  lemma LeadPasses(t: string)
    ensures SplitFrom(" " + t, 0, "") == SplitFrom(t, 0, " ")
  {
    assert (" " + t)[1..] == t && "" + [' '] == " ";
  }

  lemma LastPiece(n: Numerals, s: Step, lead: string)
    requires Faithful(n) && !s.Raw?
    ensures SplitFrom(RenderStep(n, s), 0, lead) == [lead + RenderStep(n, s)]
  {
    PrintedEnds(n, s);
    var r := RenderStep(n, s);
    hide RenderStep, Faithful;
    StepPasses(n, s, "", lead);
    assert r + "" == r;
  }

  lemma NextPiece(n: Numerals, s: Step, more: string, lead: string)
    requires Faithful(n) && !s.Raw?
    ensures SplitFrom(RenderStep(n, s) + ", " + more, 0, lead) == [lead + RenderStep(n, s)] + SplitFrom(more, 0, " ")
  {
    hide *;
    var r := RenderStep(n, s);
    assert r + ", " + more == r + ("," + (" " + more));
    StepPasses(n, s, "," + (" " + more), lead);
    SplitAtComma(" " + more, lead + r);
    LeadPasses(more);
  }

  lemma TrimsToStep(n: Numerals, s: Step, lead: string)
    requires Faithful(n) && !s.Raw? && (lead == "" || lead == " ")
    ensures Trim(lead + RenderStep(n, s)) == RenderStep(n, s) && RenderStep(n, s) != ""
  {
    PrintedEnds(n, s);
    TrimLead(RenderStep(n, s));
  }

  lemma {:induction false} ChainSplits(n: Numerals, steps: seq<Step>, lead: string)
    requires Faithful(n) && steps != [] && AllTyped(steps) && (lead == "" || lead == " ")
    ensures Atoms(SplitFrom(Joined(RenderAll(n, steps)), 0, lead)) == RenderAll(n, steps)
    decreases |steps|
  {
    var s, more := steps[0], steps[1..];
    RenderAllLength(n, steps);
    RenderAllLength(n, more);
    TrimsToStep(n, s, lead);
    hide Faithful, RenderStep, SplitFrom, Trim, WellTyped;
    var r := RenderStep(n, s);
    if |steps| == 1 {
      LastPiece(n, s, lead);
      assert [lead + r][1..] == [];
      assert Joined(RenderAll(n, steps)) == r;
    } else {
      var text := Joined(RenderAll(n, more));
      assert RenderAll(n, steps)[1..] == RenderAll(n, more);
      NextPiece(n, s, text, lead);
      ChainSplits(n, more, " ");
      assert ([lead + r] + SplitFrom(text, 0, " "))[1..] == SplitFrom(text, 0, " ");
    }
  }

  lemma {:induction false} ChainParses(n: Numerals, steps: seq<Step>)
    requires Faithful(n) && AllTyped(steps)
    ensures AllParse(n, RenderAll(n, steps)) && ParsedAll(n, RenderAll(n, steps)) == steps
  {
    hide Faithful, RenderStep, ParseAtom, WellTyped;
    if steps != [] {
      StepIsReadBack(n, steps[0]);
      ChainParses(n, steps[1..]);
      var rest := RenderAll(n, steps[1..]);
      assert RenderAll(n, steps)[1..] == rest;
      assert steps == [steps[0]] + steps[1..];
    }
  }

  lemma UnwrapsTo(inner: string)
    ensures Trim("CODEC(" + inner + ")") == "CODEC(" + inner + ")"
    ensures Unwrapped("CODEC(" + inner + ")") == inner
  {
    var t := "CODEC(" + inner + ")";
    TrimOfTrimmed(t);
    hide Trim;
    assert t[..5] == "CODEC" && t[5..] == "(" + inner + ")";
    assert TrimStart(t[5..]) == t[5..];
    assert (t[5..])[1..|t[5..]| - 1] == inner;
  }

  lemma ParseOfRender(n: Numerals, steps: seq<Step>)
    ensures var stripped := Trim(Joined(RenderAll(n, steps)));
      Parse(n, Render(n, steps)) == if stripped == "" then None else Some(ParseChain(n, stripped))
  {
    UnwrapsTo(Joined(RenderAll(n, steps)));
    hide Trim, Unwrapped, ParseChain, RenderAll, Joined;
  }

  lemma {:induction false} ChainEnds(n: Numerals, steps: seq<Step>)
    requires Faithful(n) && steps != [] && AllTyped(steps)
    ensures var j := Joined(RenderAll(n, steps)); j != "" && !IsSpace(j[0]) && !IsSpace(j[|j| - 1])
  {
    PrintedEnds(n, steps[0]);
    RenderAllLength(n, steps);
    hide Faithful, RenderStep, WellTyped;
    if |steps| > 1 {
      assert RenderAll(n, steps)[1..] == RenderAll(n, steps[1..]);
      ChainEnds(n, steps[1..]);
    }
  }

  /** Every non-empty chain of typed codecs is read back as it was. */
  lemma TypedRoundTrip(n: Numerals, steps: seq<Step>)
    requires Faithful(n) && steps != [] && AllTyped(steps)
    ensures Parse(n, Render(n, steps)) == Some(steps)
  {
    ChainEnds(n, steps);
    TrimOfTrimmed(Joined(RenderAll(n, steps)));
    hide *;
    ParseOfRender(n, steps);
    ChainSplits(n, steps, "");
    ChainParses(n, steps);
    ChainIsParsed(n, Joined(RenderAll(n, steps)), RenderAll(n, steps), steps);
  }

  lemma ChainIsParsed(n: Numerals, text: string, atoms: seq<string>, steps: seq<Step>)
    requires Atoms(SplitFrom(text, 0, "")) == atoms && AllParse(n, atoms) && ParsedAll(n, atoms) == steps
    ensures ParseChain(n, text) == steps
  {
  }

  // ----- the names the parser knows -----

  lemma NameAlone(n: Numerals, name: string)
    requires AllWord(name) && name != ""
    ensures ParseAtom(n, name) == NamedStep(n, name, [])
  {
    forall c | IsSpace(c) ensures HoldsNo(name, c) {
      WordsAreFlat(name, c);
    }
    TrimOfTrimmed(name);
    hide *;
    ShapeOfName(name);
    AtomIsNamed(n, name, name, []);
  }

  lemma NameCalled(n: Numerals, name: string, body: string, args: seq<string>)
    requires AllWord(name) && name != "" && HoldsNo(body, ')') && ArgsOf(body) == args
    ensures ParseAtom(n, name + "(" + body + ")") == NamedStep(n, name, args)
  {
    forall c | IsSpace(c) ensures HoldsNo(name, c) {
      WordsAreFlat(name, c);
    }
    var t := name + "(" + body + ")";
    assert t[0] == name[0] && t[|t| - 1] == ')';
    TrimOfTrimmed(t);
    hide *;
    ShapeOfCall(name, body);
    AtomIsNamed(n, t, name, args);
  }

  /** A name alone is the codec of that name, with nothing given. */
  lemma NamesAreRead(n: Numerals)
    ensures ParseAtom(n, "NONE") == Some(General(NONE)) && ParseAtom(n, "LZ4") == Some(General(LZ4)) && ParseAtom(n, "T64") == Some(General(T64))
    ensures ParseAtom(n, "GCD") == Some(General(GCD)) && ParseAtom(n, "ALP") == Some(General(ALP))
    ensures ParseAtom(n, "LZ4HC") == Some(LZ4HC(None)) && ParseAtom(n, "ZSTD") == Some(ZSTD(None))
    ensures ParseAtom(n, "Delta") == Some(Preprocess(Delta, None)) && ParseAtom(n, "DoubleDelta") == Some(Preprocess(DoubleDelta, None))
    ensures ParseAtom(n, "Gorilla") == Some(Preprocess(Gorilla, None)) && ParseAtom(n, "FPC") == None
  {
    hide AllWord, ParseAtom;
    NamesAreTexts();
    NameAlone(n, "NONE");
    NameAlone(n, "LZ4");
    NameAlone(n, "T64");
    NameAlone(n, "GCD");
    NameAlone(n, "ALP");
    NameAlone(n, "LZ4HC");
    NameAlone(n, "ZSTD");
    NameAlone(n, "Delta");
    NameAlone(n, "DoubleDelta");
    NameAlone(n, "Gorilla");
    NameAlone(n, "FPC");
  }

  lemma NamesAreTexts()
    ensures AllWord("NONE") && AllWord("LZ4") && AllWord("T64") && AllWord("GCD") && AllWord("ALP") && AllWord("LZ4HC") && AllWord("ZSTD")
    ensures AllWord("Delta") && AllWord("DoubleDelta") && AllWord("Gorilla") && AllWord("FPC")
  {
    BareNamesAreWords(NONE);
    BareNamesAreWords(LZ4);
    BareNamesAreWords(T64);
    BareNamesAreWords(GCD);
    BareNamesAreWords(ALP);
    SizedNamesAreWords(Delta);
    SizedNamesAreWords(DoubleDelta);
    SizedNamesAreWords(Gorilla);
    LeveledNamesAreWords();
  }

  function Call(name: string, body: string): string {
    name + "(" + body + ")"
  }

  lemma NothingInside(body: string)
    requires Blank(body)
    ensures ArgsOf(body) == []
  {
    BlankTrims(body);
    SplitPlainFlat(body, "", "");
    assert body + "" == body && "" + body == body;
    hide Trim;
    assert SplitPlain(body, "") == [body];
    TrimAllTwo(body, "");
  }

  lemma {:induction false} BlankTrims(body: string)
    requires Blank(body)
    ensures Trim(body) == "" && HoldsNo(body, ',') && HoldsNo(body, ')')
  {
    if body != "" {
      BlankTrims(body[1..]);
    }
  }

  /** Parentheses with nothing or blanks in them are no arguments. */
  lemma EmptyCallsAreRead(n: Numerals, name: string, body: string)
    requires AllWord(name) && name != "" && Blank(body)
    ensures ParseAtom(n, Call(name, body)) == ParseAtom(n, name)
  {
    NothingInside(body);
    BlankTrims(body);
    CallIs(name, body);
    hide *;
    NameCalled(n, name, body, []);
    NameAlone(n, name);
  }

  lemma OneNumber(n: Numerals, name: string, t: string)
    requires AllWord(name) && name != "" && Solid(t)
    ensures ParseAtom(n, Call(name, t)) == NamedStep(n, name, [t])
  {
    OneArg(t);
    assert HoldsNo(t, ')');
    hide AllWord, ParseAtom, ArgsOf, HoldsNo, Solid, NamedStep;
    NameCalled(n, name, t, [t]);
  }

  /** With a number behind it a name is the codec of that level. */
  lemma LevelsAreRead(n: Numerals, t: string)
    requires Solid(t)
    ensures ParseAtom(n, Call("LZ4HC", t)) == if Read(n, t).Some? then Some(LZ4HC(Read(n, t))) else None
    ensures ParseAtom(n, Call("ZSTD", t)) == if Read(n, t).Some? then Some(ZSTD(Read(n, t))) else None
    ensures ParseAtom(n, Call("LZ4", t)) == None
  {
    NamesAreTexts();
    hide AllWord, ParseAtom, Solid, Call;
    OneNumber(n, "LZ4HC", t);
    OneNumber(n, "ZSTD", t);
    OneNumber(n, "LZ4", t);
  }

  predicate IsSize(x: Option<int>) {
    x == Some(1) || x == Some(2) || x == Some(4) || x == Some(8)
  }

  /** Or of that size, if the size is one the codec takes. */
  lemma SizesAreRead(n: Numerals, t: string)
    requires Solid(t)
    ensures ParseAtom(n, Call("Delta", t)) == if IsSize(Read(n, t)) then Some(Preprocess(Delta, Read(n, t))) else None
    ensures ParseAtom(n, Call("DoubleDelta", t)) == if IsSize(Read(n, t)) then Some(Preprocess(DoubleDelta, Read(n, t))) else None
    ensures ParseAtom(n, Call("Gorilla", t)) == if IsSize(Read(n, t)) then Some(Preprocess(Gorilla, Read(n, t))) else None
  {
    NamesAreTexts();
    hide AllWord, ParseAtom, Solid, Call;
    OneNumber(n, "Delta", t);
    OneNumber(n, "DoubleDelta", t);
    OneNumber(n, "Gorilla", t);
  }

  /** `FPC` takes a level and a float size. */
  lemma PairsAreRead(n: Numerals, t: string, u: string)
    requires Solid(t) && Solid(u)
    ensures var x, y := Read(n, t), Read(n, u);
      ParseAtom(n, Call("FPC", t + ", " + u)) == if x.Some? && (y == Some(4) || y == Some(8)) then Some(FPC(x.value, y.value)) else None
  {
    FpcTakesTwo(n, t, u);
    hide *;
    LeveledNamesAreWords();
    TwoNumbers(n, "FPC", t, u);
    FpcIsNamed(n, [t, u]);
  }

  lemma FpcTakesTwo(n: Numerals, t: string, u: string)
    ensures var x, y := Read(n, t), Read(n, u);
      FpcStep(n, [t, u]) == if x.Some? && (y == Some(4) || y == Some(8)) then Some(FPC(x.value, y.value)) else None
  {
  }

  lemma TwoNumbers(n: Numerals, name: string, t: string, u: string)
    requires AllWord(name) && name != "" && Solid(t) && Solid(u)
    ensures ParseAtom(n, Call(name, t + ", " + u)) == NamedStep(n, name, [t, u])
  {
    TwoArgs(t, u);
    NoClosing(t, u);
    hide *;
    NameCalled(n, name, t + ", " + u, [t, u]);
    CallIs(name, t + ", " + u);
  }

  lemma NoClosing(t: string, u: string)
    requires Solid(t) && Solid(u)
    ensures HoldsNo(t + ", " + u, ')')
  {
  }

  lemma CallIs(name: string, body: string)
    ensures Call(name, body) == name + "(" + body + ")"
  {
  }

  lemma FpcIsNamed(n: Numerals, args: seq<string>)
    ensures NamedStep(n, "FPC", args) == FpcStep(n, args)
  {
  }

  // ----- raw codecs -----

  lemma NamedIsTyped(n: Numerals, name: string, args: seq<string>)
    ensures NamedStep(n, name, args).Some? ==> !NamedStep(n, name, args).value.Raw?
  {
  }

  lemma AtomIsTyped(n: Numerals, raw: string)
    ensures ParseAtom(n, raw).Some? ==> !ParseAtom(n, raw).value.Raw?
  {
    hide ShapeOf, Trim, NamedStep;
    var shape := ShapeOf(Trim(raw));
    if shape.Atom? {
      NamedIsTyped(n, shape.name, shape.args);
    }
  }

  lemma {:induction false} ParsedIsTyped(n: Numerals, atoms: seq<string>, i: nat)
    requires AllParse(n, atoms) && i < |ParsedAll(n, atoms)|
    ensures !ParsedAll(n, atoms)[i].Raw?
  {
    hide ParseAtom;
    if i == 0 {
      AtomIsTyped(n, atoms[0]);
    } else {
      ParsedIsTyped(n, atoms[1..], i - 1);
    }
  }

  /** The parser knows every atom of the text. */
  predicate Recognised(n: Numerals, text: string) {
    AllParse(n, Atoms(SplitFrom(text, 0, "")))
  }

  lemma RawIsItsPrint(n: Numerals, e: string)
    ensures Joined(RenderAll(n, [Raw(e)])) == e
  {
    assert [Raw(e)][1..] == [];
  }

  /** A lone raw codec is read back exactly when its text holds an atom the parser does not know. */
  lemma LoneRawRoundTrip(n: Numerals, e: string)
    requires Trim(e) == e
    ensures Parse(n, Render(n, [Raw(e)])) == Some([Raw(e)]) <==> e != "" && !Recognised(n, e)
  {
    RawIsItsPrint(n, e);
    ParseOfRender(n, [Raw(e)]);
    hide Parse, Render, RenderAll, Joined, Trim, ParseAtom;
    var atoms := Atoms(SplitFrom(e, 0, ""));
    if AllParse(n, atoms) && ParsedAll(n, atoms) == [Raw(e)] {
      ParsedIsTyped(n, atoms, 0);
    }
  }

  lemma RawNeedsToBeAlone(n: Numerals, steps: seq<Step>, i: nat)
    requires i < |steps| && steps[i].Raw? && Parse(n, Render(n, steps)) == Some(steps)
    ensures |steps| == 1
  {
    ParseOfRender(n, steps);
    hide Parse, Render, RenderAll, Joined, Trim, ParseAtom;
    var stripped := Trim(Joined(RenderAll(n, steps)));
    var atoms := Atoms(SplitFrom(stripped, 0, ""));
    if AllParse(n, atoms) {
      ParsedIsTyped(n, atoms, i);
    }
  }

  /**
   Printing and parsing undo each other on a non-empty canonical chain exactly when all its codecs are
   typed, or it is one raw codec with an atom the parser does not know. A raw codec beside others comes
   back as one raw codec holding the whole chain.
   */
  lemma RoundTripIff(n: Numerals, steps: seq<Step>)
    requires Faithful(n) && steps != [] && CanonicalCodec(steps) == steps
    requires forall i :: 0 <= i < |steps| ==> WellTyped(steps[i])
    ensures Parse(n, Render(n, steps)) == Some(steps)
      <==> AllTyped(steps) || (|steps| == 1 && steps[0].Raw? && steps[0].expression != "" && !Recognised(n, steps[0].expression))
  {
    hide Faithful, Parse, Render, Recognised, WellTyped;
    if AllTyped(steps) {
      TypedRoundTrip(n, steps);
    } else if |steps| == 1 {
      assert steps == [steps[0]] && CanonicalCodec(steps)[0] == CanonicalStep(steps[0]);
      LoneRawRoundTrip(n, steps[0].expression);
    } else if Parse(n, Render(n, steps)) == Some(steps) {
      var i :| 0 <= i < |steps| && steps[i].Raw?;
      RawNeedsToBeAlone(n, steps, i);
    }
  }
}
