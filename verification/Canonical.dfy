/**
 The canonical form of a definition, and for which definitions taking it twice changes nothing.
 */
module Canonical {
  import opened Wrappers
  import opened StableSort
  import opened SqlText
  import opened KeyClause
  import opened Projection
  import opened Intervals
  import Codec
  import ProjectionExact

  // ----- definitions as written -----

  datatype Name = Name(database: string, name: string)

  datatype Renamed = Renamed(database: Option<string>, name: string)

  datatype Column = Column(name: string, renamedFrom: Option<string>, typeText: string, comment: Option<string>,
                           codec: Option<seq<Codec.Step>>, rest: string)

  datatype TextIndex = TextIndex(tokenizer: string, preprocessor: Option<string>, postprocessor: Option<string>)

  /** What a table lists by name: skip indexes and the two kinds of projections. */
  datatype Member =
    | SkipIndex(name: string, expression: string, text: Option<TextIndex>, rest: string)
    | IndexProjection(name: string, index: string, typeText: string)
    | QueryProjection(name: string, query: string)

  datatype Entry = Entry(key: string, value: string)

  datatype RefreshRule = RefreshRule(every: Option<string>, after: Option<string>, offset: Option<string>, randomize: Option<string>,
                                     dependsOn: Option<seq<Name>>, settings: Option<seq<Entry>>, append: bool, empty: bool)

  datatype Attribute = Attribute(name: string, typeText: string, rest: string)

  datatype Schema =
    | Table(name: Name, renamedFrom: Option<Renamed>, engine: string, columns: seq<Column>, primaryKey: seq<string>, orderBy: seq<string>,
            uniqueKey: Option<seq<string>>, partitionBy: Option<string>, ttl: Option<string>, settings: Option<seq<Entry>>,
            indexes: Option<seq<Member>>, projections: Option<seq<Member>>, comment: Option<string>)
    | View(name: Name, query: string, comment: Option<string>)
    | MaterializedView(name: Name, target: Name, query: string, comment: Option<string>, refresh: Option<RefreshRule>)
    | Dictionary(name: Name, renamedFrom: Option<Renamed>, attributes: seq<Attribute>, primaryKey: seq<string>, source: string,
                 layout: string, lifetime: string, range: Option<(string, string)>, settings: Option<seq<Entry>>, comment: Option<string>)

  // ----- parts -----

  function TrimOption(o: Option<string>): Option<string> {
    if o.Some? then Some(Trim(o.value)) else None
  }

  function TrimName(n: Name): Name {
    Name(Trim(n.database), Trim(n.name))
  }

  function TrimRenamed(o: Option<Renamed>): Option<Renamed> {
    if o.Some? then Some(Renamed(TrimOption(o.value.database), Trim(o.value.name))) else None
  }

  /** An optional text: an empty one counts as absent, a blank one becomes empty. */
  function Kept(o: Option<string>): Option<string> {
    if o.Some? && o.value != "" then Some(Fragment(o.value)) else None
  }

  function StripShared(s: string): string {
    if |s| >= 6 && s[..6] == "Shared" then s[6..] else s
  }

  function Called(s: string): string {
    if '(' in s then s else s + "()"
  }

  /** `normalizeEngine`. */
  function Engine(e: string): string {
    Called(StripShared(Trim(e)))
  }

  function CanonColumn(c: Column): Column {
    Column(Trim(c.name), TrimOption(c.renamedFrom), Trim(c.typeText), TrimOption(c.comment),
           if c.codec.Some? then Some(Codec.CanonicalCodec(c.codec.value)) else None, c.rest)
  }

  function CanonColumns(cs: seq<Column>): seq<Column> {
    seq(|cs|, i requires 0 <= i < |cs| => CanonColumn(cs[i]))
  }

  function CanonText(t: TextIndex): TextIndex {
    TextIndex(Fragment(t.tokenizer), Kept(t.preprocessor), Kept(t.postprocessor))
  }

  function CanonMember(m: Member): Member {
    match m
    case SkipIndex(n, e, t, r) => SkipIndex(n, Fragment(e), if t.Some? then Some(CanonText(t.value)) else None, r)
    case IndexProjection(n, i, t) => IndexProjection(n, Normalize(i), Trim(t))
    case QueryProjection(n, q) => QueryProjection(n, Fragment(q))
  }

  function MemberName(m: Member): string {
    m.name
  }

  function EntryKey(e: Entry): string {
    e.key
  }

  function NameText(n: Name): string {
    n.database + "." + n.name
  }

  function SortBy<T>(leq: (string, string) -> bool, key: T -> string, s: seq<T>): seq<T> {
    Sort((a, b) => leq(key(a), key(b)), s)
  }

  function MapMembers(s: seq<Member>): (r: seq<Member>)
    ensures |r| == |s| && forall i :: 0 <= i < |s| ==> r[i] == CanonMember(s[i])
  {
    seq(|s|, i requires 0 <= i < |s| => CanonMember(s[i]))
  }

  function CanonMembers(leq: (string, string) -> bool, o: Option<seq<Member>>): Option<seq<Member>> {
    if o.Some? then Some(MapMembers(SortBy(leq, MemberName, o.value))) else None
  }

  function CanonSettings(leq: (string, string) -> bool, o: Option<seq<Entry>>): Option<seq<Entry>> {
    if o.Some? then Some(SortBy(leq, EntryKey, o.value)) else None
  }

  function UnlessEmpty<T>(o: Option<seq<T>>): Option<seq<T>> {
    if o.Some? && o.value == [] then None else o
  }

  function TrimNames(ns: seq<Name>): seq<Name> {
    seq(|ns|, i requires 0 <= i < |ns| => TrimName(ns[i]))
  }

  function CanonDepends(leq: (string, string) -> bool, o: Option<seq<Name>>): Option<seq<Name>> {
    if o.Some? then UnlessEmpty(Some(SortBy(leq, NameText, TrimNames(o.value)))) else None
  }

  function CanonInterval(o: Option<string>): Option<string> {
    if o.Some? then Some(Interval(o.value)) else None
  }

  function CanonRefresh(leq: (string, string) -> bool, o: Option<RefreshRule>): Option<RefreshRule> {
    match o
    case None => None
    case Some(r) =>
      Some(RefreshRule(CanonInterval(r.every), CanonInterval(r.after), CanonInterval(r.offset), CanonInterval(r.randomize),
                       CanonDepends(leq, r.dependsOn), UnlessEmpty(CanonSettings(leq, r.settings)), r.append, r.empty))
  }

  function CanonAttribute(a: Attribute): Attribute {
    Attribute(Trim(a.name), Trim(a.typeText), a.rest)
  }

  function CanonAttributes(s: seq<Attribute>): seq<Attribute> {
    seq(|s|, i requires 0 <= i < |s| => CanonAttribute(s[i]))
  }

  /** The primary key is the sorting key when it is not given. */
  function PrimaryKey(given: seq<string>, orderBy: seq<string>): seq<string> {
    if NormalizeKeyColumns(given) != [] then NormalizeKeyColumns(given) else NormalizeKeyColumns(orderBy)
  }

  function CanonUnique(o: Option<seq<string>>): Option<seq<string>> {
    if o.Some? then Some(NormalizeKeyColumns(o.value)) else None
  }

  function TrimRange(o: Option<(string, string)>): Option<(string, string)> {
    if o.Some? then Some((Trim(o.value.0), Trim(o.value.1))) else None
  }

  /** `canonicalizeDefinition`. */
  function Canon(leq: (string, string) -> bool, d: Schema): Schema {
    match d
    case Table(name, renamed, engine, columns, pk, ob, uk, part, ttl, settings, indexes, projections, comment) =>
      Table(TrimName(name), TrimRenamed(renamed), Engine(engine), CanonColumns(columns), PrimaryKey(pk, ob), NormalizeKeyColumns(ob),
            CanonUnique(uk), Kept(part), Kept(ttl), CanonSettings(leq, settings), CanonMembers(leq, indexes),
            CanonMembers(leq, projections), TrimOption(comment))
    case View(name, query, comment) => View(TrimName(name), Fragment(query), TrimOption(comment))
    case MaterializedView(name, target, query, comment, refresh) =>
      MaterializedView(TrimName(name), TrimName(target), Fragment(query), TrimOption(comment), CanonRefresh(leq, refresh))
    case Dictionary(name, renamed, attributes, pk, source, layout, lifetime, range, settings, comment) =>
      Dictionary(TrimName(name), TrimRenamed(renamed), CanonAttributes(attributes), NormalizeKeyColumns(pk), Fragment(source),
                 Fragment(layout), Fragment(lifetime), TrimRange(range), UnlessEmpty(CanonSettings(leq, settings)), TrimOption(comment))
  }

  // ----- texts -----

  lemma FragmentIsIdempotent(s: string)
    ensures Fragment(Fragment(s)) == Fragment(s)
  {
    FragmentIsNormal(s);
    NormalIsFragment(Fragment(s));
  }

  lemma TrimOptionIsIdempotent(o: Option<string>)
    ensures TrimOption(TrimOption(o)) == TrimOption(o)
  {
    if o.Some? {
      TrimIsIdempotent(o.value);
    }
  }

  lemma TrimNameIsIdempotent(n: Name)
    ensures TrimName(TrimName(n)) == TrimName(n)
  {
    TrimIsIdempotent(n.database);
    TrimIsIdempotent(n.name);
  }

  lemma TrimRenamedIsIdempotent(o: Option<Renamed>)
    ensures TrimRenamed(TrimRenamed(o)) == TrimRenamed(o)
  {
    if o.Some? {
      TrimOptionIsIdempotent(o.value.database);
      TrimIsIdempotent(o.value.name);
    }
  }

  /** Nothing but whitespace, yet not empty. */
  predicate Blank(o: Option<string>) {
    o.Some? && o.value != "" && Fragment(o.value) == ""
  }

  /** An optional text settles exactly when it is not blank: a blank one is empty once, and absent twice. */
  lemma KeptSettlesIff(o: Option<string>)
    ensures Kept(Kept(o)) == Kept(o) <==> !Blank(o)
  {
    if o.Some? {
      FragmentIsIdempotent(o.value);
    }
    hide Fragment;
  }

  /** Behind the prefix that is cut there is neither a space nor the prefix again. */
  predicate EngineSettles(e: string) {
    var t := StripShared(Trim(e));
    t == "" || (!IsSpace(t[0]) && StripShared(t) == t)
  }

  lemma CalledEnd(t: string)
    requires t != "" ==> !IsSpace(t[|t| - 1])
    ensures var n := Called(t); n != "" && !IsSpace(n[|n| - 1]) && '(' in n && (t != "" ==> n[0] == t[0]) && (t == "" ==> n == "()")
  {
  }

  lemma {:induction false} TrimStartKeepsParen(s: string)
    requires '(' in s
    ensures '(' in TrimStart(s)
  {
    if IsSpace(s[0]) {
      TrimStartKeepsParen(s[1..]);
    }
  }

  lemma SharedPrefix(t: string)
    ensures StripShared(Called(t)) == Called(t) <==> StripShared(t) == t
    ensures |StripShared(t)| <= |t| && (StripShared(t) != t ==> |StripShared(t)| == |t| - 6)
  {
    if |t| >= 6 {
      assert Called(t)[..6] == t[..6];
    } else if |Called(t)| >= 6 {
      assert Called(t)[|t|] == '(' && Called(t)[..6][|t|] == '(' && '(' !in "Shared";
    }
  }

  lemma ParenStays(n: string)
    requires '(' in n
    ensures '(' in StripShared(n)
  {
    if StripShared(n) != n {
      assert n == "Shared" + n[6..] && '(' !in "Shared";
    }
  }

  lemma StrippedEnd(s: string)
    requires Trim(s) == s
    ensures var t := StripShared(s); t != "" ==> !IsSpace(t[|t| - 1])
  {
    TrimmedEnds(s);
  }

  lemma EngineOfTrimmed(n: string)
    requires Trim(n) == n && '(' in n
    ensures Engine(n) == StripShared(n)
  {
    ParenStays(n);
  }

  lemma EngineOfSpaced(n: string)
    requires n != "" && IsSpace(n[0]) && !IsSpace(n[|n| - 1]) && '(' in n
    ensures |Engine(n)| < |n|
  {
    TrimStartShrinks(n);
    TrimStartKeepsEnd(n);
    TrimStartKeepsParen(n);
    assert Trim(n) == TrimStart(n);
    ParenStays(Trim(n));
  }

  /** `normalizeEngine` settles exactly when one prefix is all there is to cut. */
  lemma EngineSettlesIff(e: string)
    ensures Engine(Engine(e)) == Engine(e) <==> EngineSettles(e)
  {
    TrimIsIdempotent(e);
    StrippedEnd(Trim(e));
    var t := StripShared(Trim(e));
    CalledEnd(t);
    SharedPrefix(t);
    var n := Called(t);
    hide StripShared, Called, Trim;
    if t == "" || !IsSpace(t[0]) {
      TrimOfTrimmed(n);
      EngineOfTrimmed(n);
      hide Engine;
      if t == "" {
        NothingShared();
      }
    } else {
      EngineOfSpaced(n);
    }
  }

  lemma NothingShared()
    ensures StripShared("()") == "()" && StripShared("") == ""
  {
  }

  // ----- sorting by a text -----

  lemma ByKeyIsPreorder<T(!new)>(leq: (string, string) -> bool, key: T -> string)
    requires TotalPreorder(leq)
    ensures TotalPreorder((a: T, b: T) => leq(key(a), key(b)))
  {
    forall a: T, b: T ensures leq(key(a), key(b)) || leq(key(b), key(a)) {
      Total(leq, key(a), key(b));
    }
    forall a: T, b: T, c: T | leq(key(a), key(b)) && leq(key(b), key(c)) ensures leq(key(a), key(c)) {
      Transitive(leq, key(a), key(b), key(c));
    }
  }

  lemma SortBySorts<T(!new)>(leq: (string, string) -> bool, key: T -> string, s: seq<T>)
    requires TotalPreorder(leq)
    ensures forall i, j :: 0 <= i < j < |SortBy(leq, key, s)| ==> leq(key(SortBy(leq, key, s)[i]), key(SortBy(leq, key, s)[j]))
    ensures |SortBy(leq, key, s)| == |s|
  {
    ByKeyIsPreorder(leq, key);
    hide TotalPreorder;
    SortSorts((a: T, b: T) => leq(key(a), key(b)), s);
  }

  lemma SortByKeepsSorted<T>(leq: (string, string) -> bool, key: T -> string, s: seq<T>)
    requires forall i, j :: 0 <= i < j < |s| ==> leq(key(s[i]), key(s[j]))
    ensures SortBy(leq, key, s) == s
  {
    SortedIsFixed((a: T, b: T) => leq(key(a), key(b)), s);
  }

  lemma SortByHas<T>(leq: (string, string) -> bool, key: T -> string, s: seq<T>, x: T)
    ensures x in SortBy(leq, key, s) <==> x in s
  {
    SortHas((a: T, b: T) => leq(key(a), key(b)), s, x);
  }

  lemma SortByIsIdempotent<T(!new)>(leq: (string, string) -> bool, key: T -> string, s: seq<T>)
    requires TotalPreorder(leq)
    ensures SortBy(leq, key, SortBy(leq, key, s)) == SortBy(leq, key, s)
  {
    SortBySorts(leq, key, s);
    hide SortBy, TotalPreorder;
    SortByKeepsSorted(leq, key, SortBy(leq, key, s));
  }

  // ----- members -----

  /** The members whose canonical form is final. */
  predicate MemberSettles(m: Member) {
    match m
    case SkipIndex(_, _, t, _) => t.Some? ==> !Blank(t.value.preprocessor) && !Blank(t.value.postprocessor)
    case IndexProjection(_, i, _) => ProjectionExact.Final(i)
    case QueryProjection(_, _) => true
  }

  lemma TextSettlesIff(t: TextIndex)
    ensures CanonText(CanonText(t)) == CanonText(t) <==> !Blank(t.preprocessor) && !Blank(t.postprocessor)
  {
    FragmentIsIdempotent(t.tokenizer);
    KeptSettlesIff(t.preprocessor);
    KeptSettlesIff(t.postprocessor);
    hide Kept, Fragment, Blank;
  }

  lemma IndexSettlesIff(m: Member)
    requires m.IndexProjection?
    ensures CanonMember(CanonMember(m)) == CanonMember(m) <==> MemberSettles(m)
  {
    ProjectionExact.IdempotentIff(m.index);
    TrimIsIdempotent(m.typeText);
    hide Normalize, Trim, ProjectionExact.Final;
  }

  /** The canonical form of a member is final exactly when it settles. */
  lemma MemberSettlesIff(m: Member)
    ensures CanonMember(CanonMember(m)) == CanonMember(m) <==> MemberSettles(m)
  {
    match m
    case SkipIndex(_, e, t, _) =>
      FragmentIsIdempotent(e);
      if t.Some? {
        TextSettlesIff(t.value);
      }
      hide CanonText, Fragment, Blank;
    case IndexProjection(_, i, t) =>
      hide *;
      IndexSettlesIff(m);
    case QueryProjection(_, q) =>
      FragmentIsIdempotent(q);
  }

  lemma MapStaysSorted(leq: (string, string) -> bool, ms: seq<Member>)
    requires TotalPreorder(leq)
    ensures var once := MapMembers(SortBy(leq, MemberName, ms)); SortBy(leq, MemberName, once) == once
  {
    SortBySorts(leq, MemberName, ms);
    var sorted := SortBy(leq, MemberName, ms);
    var once := MapMembers(sorted);
    assert forall i :: 0 <= i < |once| ==> MemberName(once[i]) == MemberName(sorted[i]);
    hide SortBy, TotalPreorder, CanonMember, MapMembers;
    SortByKeepsSorted(leq, MemberName, once);
  }

  lemma MapIsFinalIff(s: seq<Member>)
    ensures MapMembers(MapMembers(s)) == MapMembers(s) <==> forall m :: m in s ==> CanonMember(CanonMember(m)) == CanonMember(m)
  {
    hide MapMembers, CanonMember;
    var once, twice := MapMembers(s), MapMembers(MapMembers(s));
    if twice == once {
      forall m | m in s ensures CanonMember(CanonMember(m)) == CanonMember(m) {
        var i :| 0 <= i < |s| && s[i] == m;
        assert twice[i] == CanonMember(once[i]);
      }
    }
  }

  /** A list of members is final exactly when its members are. */
  lemma MembersAreFinalIff(leq: (string, string) -> bool, ms: seq<Member>)
    requires TotalPreorder(leq)
    ensures CanonMembers(leq, CanonMembers(leq, Some(ms))) == CanonMembers(leq, Some(ms))
      <==> forall m :: m in ms ==> CanonMember(CanonMember(m)) == CanonMember(m)
  {
    MapStaysSorted(leq, ms);
    var sorted := SortBy(leq, MemberName, ms);
    MapIsFinalIff(sorted);
    hide SortBy, TotalPreorder, CanonMember, MapMembers;
    forall m ensures m in sorted <==> m in ms {
      SortByHas(leq, MemberName, ms, m);
    }
  }

  lemma MembersSettleIff(leq: (string, string) -> bool, o: Option<seq<Member>>)
    requires TotalPreorder(leq)
    ensures CanonMembers(leq, CanonMembers(leq, o)) == CanonMembers(leq, o) <==> (o.Some? ==> forall m :: m in o.value ==> MemberSettles(m))
  {
    if o.Some? {
      hide *;
      forall m ensures CanonMember(CanonMember(m)) == CanonMember(m) <==> MemberSettles(m) {
        MemberSettlesIff(m);
      }
      MembersAreFinalIff(leq, o.value);
    }
  }

  // ----- the other parts -----

  lemma ColumnIsFinal(c: Column)
    ensures CanonColumn(CanonColumn(c)) == CanonColumn(c)
  {
    TrimIsIdempotent(c.name);
    TrimIsIdempotent(c.typeText);
    TrimOptionIsIdempotent(c.renamedFrom);
    TrimOptionIsIdempotent(c.comment);
    if c.codec.Some? {
      Codec.CanonicalCodecIsIdempotent(c.codec.value);
    }
    hide Trim, TrimOption, Codec.CanonicalCodec;
  }

  lemma ColumnsAreFinal(cs: seq<Column>)
    ensures CanonColumns(CanonColumns(cs)) == CanonColumns(cs)
  {
    hide CanonColumn;
    forall i | 0 <= i < |cs| ensures CanonColumn(CanonColumn(cs[i])) == CanonColumn(cs[i]) {
      ColumnIsFinal(cs[i]);
    }
  }

  lemma AttributesAreFinal(s: seq<Attribute>)
    ensures CanonAttributes(CanonAttributes(s)) == CanonAttributes(s)
  {
    forall i | 0 <= i < |s| ensures CanonAttribute(CanonAttribute(s[i])) == CanonAttribute(s[i]) {
      TrimIsIdempotent(s[i].name);
      TrimIsIdempotent(s[i].typeText);
    }
    hide CanonAttribute;
  }

  lemma KeysAreFinal(pk: seq<string>, ob: seq<string>)
    ensures PrimaryKey(PrimaryKey(pk, ob), NormalizeKeyColumns(ob)) == PrimaryKey(pk, ob)
    ensures NormalizeKeyColumns(NormalizeKeyColumns(ob)) == NormalizeKeyColumns(ob)
  {
    NormalizeIsIdempotent(pk);
    NormalizeIsIdempotent(ob);
    hide NormalizeKeyColumns;
  }

  lemma UniqueIsFinal(o: Option<seq<string>>)
    ensures CanonUnique(CanonUnique(o)) == CanonUnique(o)
  {
    if o.Some? {
      NormalizeIsIdempotent(o.value);
    }
    hide NormalizeKeyColumns;
  }

  lemma RangeIsFinal(o: Option<(string, string)>)
    ensures TrimRange(TrimRange(o)) == TrimRange(o)
  {
    if o.Some? {
      TrimIsIdempotent(o.value.0);
      TrimIsIdempotent(o.value.1);
    }
  }

  lemma SettingsAreFinal(leq: (string, string) -> bool, o: Option<seq<Entry>>)
    requires TotalPreorder(leq)
    ensures CanonSettings(leq, CanonSettings(leq, o)) == CanonSettings(leq, o)
    ensures var once := UnlessEmpty(CanonSettings(leq, o)); UnlessEmpty(CanonSettings(leq, once)) == once
  {
    if o.Some? {
      SortByIsIdempotent(leq, EntryKey, o.value);
    }
    hide SortBy, TotalPreorder;
  }

  lemma DependsAreFinal(leq: (string, string) -> bool, o: Option<seq<Name>>)
    requires TotalPreorder(leq)
    ensures CanonDepends(leq, CanonDepends(leq, o)) == CanonDepends(leq, o)
  {
    if o.Some? {
      var trimmed := TrimNames(o.value);
      var sorted := SortBy(leq, NameText, trimmed);
      SortByIsIdempotent(leq, NameText, trimmed);
      forall i | 0 <= i < |sorted| ensures TrimName(sorted[i]) == sorted[i] {
        assert sorted[i] in sorted;
        SortByHas(leq, NameText, trimmed, sorted[i]);
        var k :| 0 <= k < |trimmed| && trimmed[k] == sorted[i];
        TrimNameIsIdempotent(o.value[k]);
      }
      hide SortBy, TotalPreorder, TrimName;
      assert TrimNames(sorted) == sorted;
    }
  }

  lemma IntervalOptionIsFinal(o: Option<string>)
    ensures CanonInterval(CanonInterval(o)) == CanonInterval(o)
  {
    if o.Some? {
      IntervalIsIdempotent(o.value);
    }
    hide Interval;
  }

  lemma RefreshIsFinal(leq: (string, string) -> bool, o: Option<RefreshRule>)
    requires TotalPreorder(leq)
    ensures CanonRefresh(leq, CanonRefresh(leq, o)) == CanonRefresh(leq, o)
  {
    if o.Some? {
      IntervalOptionIsFinal(o.value.every);
      IntervalOptionIsFinal(o.value.after);
      IntervalOptionIsFinal(o.value.offset);
      IntervalOptionIsFinal(o.value.randomize);
      DependsAreFinal(leq, o.value.dependsOn);
      SettingsAreFinal(leq, o.value.settings);
    }
    hide CanonInterval, CanonDepends, CanonSettings, UnlessEmpty, TotalPreorder;
  }

  // ----- definitions -----

  /** The definitions whose canonical form is final, but for blank texts that the planner takes for absent ones. */
  predicate Quiet(d: Schema) {
    d.Table? ==>
      && EngineSettles(d.engine)
      && (d.indexes.Some? ==> forall m :: m in d.indexes.value ==> MemberSettles(m))
      && (d.projections.Some? ==> forall m :: m in d.projections.value ==> MemberSettles(m))
  }

  /** The definitions whose canonical form is final. */
  predicate Settles(d: Schema) {
    Quiet(d) && (d.Table? ==> !Blank(d.partitionBy) && !Blank(d.ttl))
  }

  /** Only engine, optional texts and members of a table can still change. */
  lemma TableTwice(leq: (string, string) -> bool, d: Schema)
    requires TotalPreorder(leq) && d.Table?
    ensures var once := Canon(leq, d);
      Canon(leq, once) == once.(engine := Engine(once.engine), partitionBy := Kept(once.partitionBy), ttl := Kept(once.ttl),
                                indexes := CanonMembers(leq, once.indexes), projections := CanonMembers(leq, once.projections))
  {
    TrimNameIsIdempotent(d.name);
    TrimRenamedIsIdempotent(d.renamedFrom);
    ColumnsAreFinal(d.columns);
    KeysAreFinal(d.primaryKey, d.orderBy);
    UniqueIsFinal(d.uniqueKey);
    SettingsAreFinal(leq, d.settings);
    TrimOptionIsIdempotent(d.comment);
    hide TotalPreorder, TrimName, TrimRenamed, Engine, CanonColumns, PrimaryKey, NormalizeKeyColumns, CanonUnique, Kept, CanonSettings, CanonMembers, TrimOption, UnlessEmpty;
  }

  lemma TableMostlyFinal(leq: (string, string) -> bool, d: Schema)
    requires TotalPreorder(leq) && d.Table?
    ensures var once := Canon(leq, d);
      Canon(leq, once) == once
      <==> && Engine(once.engine) == once.engine && Kept(once.partitionBy) == once.partitionBy && Kept(once.ttl) == once.ttl
           && CanonMembers(leq, once.indexes) == once.indexes && CanonMembers(leq, once.projections) == once.projections
  {
    TableTwice(leq, d);
    hide TotalPreorder, Canon, Engine, Kept, CanonMembers;
  }

  lemma QuietTable(leq: (string, string) -> bool, d: Schema)
    requires TotalPreorder(leq) && d.Table? && Quiet(d)
    ensures var once := Canon(leq, d); Canon(leq, once) == once.(partitionBy := Kept(once.partitionBy), ttl := Kept(once.ttl))
  {
    TableTwice(leq, d);
    hide TotalPreorder, MemberSettles, CanonMembers, Engine, Kept, EngineSettles;
    MembersSettleIff(leq, d.indexes);
    MembersSettleIff(leq, d.projections);
    EngineSettlesIff(d.engine);
  }

  /** What taking the canonical form of a quiet definition twice can still change. */
  lemma QuietTwice(leq: (string, string) -> bool, d: Schema)
    requires TotalPreorder(leq) && Quiet(d)
    ensures var once := Canon(leq, d);
      Canon(leq, once) == if d.Table? then once.(partitionBy := Kept(once.partitionBy), ttl := Kept(once.ttl)) else once
  {
    if d.Table? {
      QuietTable(leq, d);
    } else {
      hide TotalPreorder, Canon;
      CanonIsFinal(leq, d);
    }
  }

  lemma TableIsFinal(leq: (string, string) -> bool, d: Schema)
    requires TotalPreorder(leq) && d.Table? && Settles(d)
    ensures Canon(leq, Canon(leq, d)) == Canon(leq, d)
  {
    QuietTable(leq, d);
    hide TotalPreorder, Quiet, Kept, Blank;
    KeptSettlesIff(d.partitionBy);
    KeptSettlesIff(d.ttl);
  }

  /** `canonicalizeDefinition` is idempotent on every definition that settles. */
  lemma CanonIsFinal(leq: (string, string) -> bool, d: Schema)
    requires TotalPreorder(leq) && Settles(d)
    ensures Canon(leq, Canon(leq, d)) == Canon(leq, d)
  {
    if d.Table? {
      hide *;
      TableIsFinal(leq, d);
    } else {
      TrimNameIsIdempotent(d.name);
      TrimOptionIsIdempotent(d.comment);
      if d.View? {
        FragmentIsIdempotent(d.query);
      } else if d.MaterializedView? {
        FragmentIsIdempotent(d.query);
        TrimNameIsIdempotent(d.target);
        RefreshIsFinal(leq, d.refresh);
      } else {
        FragmentIsIdempotent(d.source);
        FragmentIsIdempotent(d.layout);
        FragmentIsIdempotent(d.lifetime);
        TrimRenamedIsIdempotent(d.renamedFrom);
        AttributesAreFinal(d.attributes);
        NormalizeIsIdempotent(d.primaryKey);
        RangeIsFinal(d.range);
        SettingsAreFinal(leq, d.settings);
      }
      hide TotalPreorder, TrimName, TrimRenamed, Fragment, CanonAttributes, NormalizeKeyColumns, CanonSettings, TrimOption, UnlessEmpty, CanonRefresh, TrimRange;
    }
  }

  /**
   For a table the condition is exact: two prefixes on the engine, a space behind the prefix, a blank
   optional text, or an index projection that is not final, and the canonical form still changes.
   */
  lemma TableSettlesIff(leq: (string, string) -> bool, d: Schema)
    requires TotalPreorder(leq) && d.Table?
    ensures Canon(leq, Canon(leq, d)) == Canon(leq, d) <==> Settles(d)
  {
    TableMostlyFinal(leq, d);
    EngineSettlesIff(d.engine);
    KeptSettlesIff(d.partitionBy);
    KeptSettlesIff(d.ttl);
    MembersSettleIff(leq, d.indexes);
    MembersSettleIff(leq, d.projections);
    TableParts(leq, d);
    hide TotalPreorder, Canon, MemberSettles, CanonMembers, Engine, Kept, Blank, EngineSettles;
  }

  lemma TableParts(leq: (string, string) -> bool, d: Schema)
    requires d.Table?
    ensures var once := Canon(leq, d);
      && once.Table? && once.engine == Engine(d.engine) && once.partitionBy == Kept(d.partitionBy) && once.ttl == Kept(d.ttl)
      && once.indexes == CanonMembers(leq, d.indexes) && once.projections == CanonMembers(leq, d.projections)
  {
    hide CanonMembers, Engine, Kept;
  }

  /** So it is for every definition: those of other kinds are always final. */
  lemma CanonSettlesIff(leq: (string, string) -> bool, d: Schema)
    requires TotalPreorder(leq)
    ensures Canon(leq, Canon(leq, d)) == Canon(leq, d) <==> Settles(d)
  {
    hide TotalPreorder, Canon;
    if d.Table? {
      TableSettlesIff(leq, d);
    } else {
      CanonIsFinal(leq, d);
    }
  }
}
