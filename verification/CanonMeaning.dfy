/**
 What a canonical definition says of the written one, field by field and without the canonical functions: which
 texts are trimmed or respaced, which keys are whose, what is sorted, and what is left as it was. Definitions with
 one canonical form therefore say the same.
 */
module CanonMeaning {
  import opened Wrappers
  import opened StableSort
  import opened SqlText
  import opened KeyClause
  import opened Projection
  import opened Intervals
  import opened TextForms
  import opened Canonical
  import Codec

  // ----- texts -----

  predicate TrimmedOption(o: Option<string>, e: Option<string>) {
    o.Some? == e.Some? && (o.Some? ==> TrimmedTo(o.value, e.value))
  }

  /** The same words with one space between them. */
  predicate Respaced(s: string, t: string) {
    t == Spell(Words(s))
  }

  /** An optional text: nothing for no text and for an empty one. */
  predicate RespacedOption(o: Option<string>, e: Option<string>) {
    if o == None || o == Some("") then e == None else e.Some? && Respaced(o.value, e.value)
  }

  predicate NameTo(n: Name, e: Name) {
    TrimmedTo(n.database, e.database) && TrimmedTo(n.name, e.name)
  }

  predicate RenamedTo(o: Option<Renamed>, e: Option<Renamed>) {
    o.Some? == e.Some? && (o.Some? ==> TrimmedOption(o.value.database, e.value.database) && TrimmedTo(o.value.name, e.value.name))
  }

  /** One prefix `Shared` goes, and an engine without parentheses is called without arguments. */
  ghost predicate EngineTo(s: string, e: string) {
    exists t, base ::
      && TrimmedTo(s, t) && (if "Shared" <= t then t == "Shared" + base else base == t)
      && (if '(' in base then e == base else e == base + "()")
  }

  // ----- parts -----

  predicate CodecTo(o: Option<seq<Codec.Step>>, e: Option<seq<Codec.Step>>) {
    o.Some? == e.Some? && (o.Some? ==> |o.value| == |e.value| && forall i :: 0 <= i < |o.value| ==> StepTo(o.value[i], e.value[i]))
  }

  /** What is given stays; what ClickHouse takes for granted is written out. */
  predicate StepTo(s: Codec.Step, e: Codec.Step) {
    match s
    case ZSTD(None) => e == Codec.ZSTD(Some(1))
    case LZ4HC(None) => e == Codec.LZ4HC(Some(9))
    case Preprocess(kind, None) => e == Codec.Preprocess(kind, Some(1))
    case Raw(x) => e.Raw? && TrimmedTo(x, e.expression)
    case _ => e == s
  }

  predicate ColumnTo(c: Column, e: Column) {
    && TrimmedTo(c.name, e.name) && TrimmedOption(c.renamedFrom, e.renamedFrom) && TrimmedTo(c.typeText, e.typeText)
    && TrimmedOption(c.comment, e.comment) && CodecTo(c.codec, e.codec) && e.rest == c.rest
  }

  predicate ColumnsTo(cs: seq<Column>, es: seq<Column>) {
    |cs| == |es| && forall i :: 0 <= i < |cs| ==> ColumnTo(cs[i], es[i])
  }

  predicate TextTo(t: TextIndex, e: TextIndex) {
    Respaced(t.tokenizer, e.tokenizer) && RespacedOption(t.preprocessor, e.preprocessor) && RespacedOption(t.postprocessor, e.postprocessor)
  }

  predicate MemberTo(m: Member, e: Member) {
    && e.name == m.name
    && match m
       case SkipIndex(_, expression, text, rest) =>
         && e.SkipIndex? && Respaced(expression, e.expression) && e.rest == rest
         && e.text.Some? == text.Some? && (text.Some? ==> TextTo(text.value, e.text.value))
       case IndexProjection(_, index, typeText) =>
         e.IndexProjection? && e.index == Normalize(index) && TrimmedTo(typeText, e.typeText)
       case QueryProjection(_, query) => e.QueryProjection? && Respaced(query, e.query)
  }

  ghost predicate MembersTo(leq: (string, string) -> bool, o: Option<seq<Member>>, e: Option<seq<Member>>) {
    && o.Some? == e.Some?
    && (o.Some? ==> exists order :: MembersInOrder(leq, o.value, order, e.value))
  }

  /** The members in the order of their names, each in its canonical dress. */
  ghost predicate MembersInOrder(leq: (string, string) -> bool, ms: seq<Member>, order: seq<Member>, es: seq<Member>) {
    && multiset(order) == multiset(ms) && |es| == |order|
    && (forall i :: 0 <= i < |es| ==> MemberTo(order[i], es[i]))
    && forall i, j :: 0 <= i < j < |es| ==> leq(es[i].name, es[j].name)
  }

  /** The entries in the order of their keys. */
  ghost predicate EntriesInOrder(leq: (string, string) -> bool, s: seq<Entry>, e: seq<Entry>) {
    multiset(e) == multiset(s) && forall i, j :: 0 <= i < j < |e| ==> leq(e[i].key, e[j].key)
  }

  ghost predicate EntriesTo(leq: (string, string) -> bool, o: Option<seq<Entry>>, e: Option<seq<Entry>>) {
    o.Some? == e.Some? && (o.Some? ==> EntriesInOrder(leq, o.value, e.value))
  }

  /** An empty list counts as none. */
  ghost predicate SomeEntriesTo(leq: (string, string) -> bool, o: Option<seq<Entry>>, e: Option<seq<Entry>>) {
    if o == None || o == Some([]) then e == None else e.Some? && EntriesInOrder(leq, o.value, e.value)
  }

  ghost predicate DependsInOrder(leq: (string, string) -> bool, ns: seq<Name>, trimmed: seq<Name>, es: seq<Name>) {
    && |trimmed| == |ns| && (forall i :: 0 <= i < |ns| ==> NameTo(ns[i], trimmed[i]))
    && multiset(es) == multiset(trimmed)
    && forall i, j :: 0 <= i < j < |es| ==> leq(es[i].database + "." + es[i].name, es[j].database + "." + es[j].name)
  }

  ghost predicate DependsTo(leq: (string, string) -> bool, o: Option<seq<Name>>, e: Option<seq<Name>>) {
    if o == None || o == Some([]) then e == None else e.Some? && exists trimmed :: DependsInOrder(leq, o.value, trimmed, e.value)
  }

  predicate IntervalTo(o: Option<string>, e: Option<string>) {
    o.Some? == e.Some? && (o.Some? ==> e.value == Interval(o.value))
  }

  ghost predicate RefreshTo(leq: (string, string) -> bool, o: Option<RefreshRule>, e: Option<RefreshRule>) {
    && o.Some? == e.Some?
    && (o.Some? ==>
          && IntervalTo(o.value.every, e.value.every) && IntervalTo(o.value.after, e.value.after)
          && IntervalTo(o.value.offset, e.value.offset) && IntervalTo(o.value.randomize, e.value.randomize)
          && DependsTo(leq, o.value.dependsOn, e.value.dependsOn) && SomeEntriesTo(leq, o.value.settings, e.value.settings)
          && e.value.append == o.value.append && e.value.empty == o.value.empty)
  }

  predicate AttributesTo(s: seq<Attribute>, e: seq<Attribute>) {
    |s| == |e| && forall i :: 0 <= i < |s| ==> TrimmedTo(s[i].name, e[i].name) && TrimmedTo(s[i].typeText, e[i].typeText) && e[i].rest == s[i].rest
  }

  predicate RangeTo(o: Option<(string, string)>, e: Option<(string, string)>) {
    o.Some? == e.Some? && (o.Some? ==> TrimmedTo(o.value.0, e.value.0) && TrimmedTo(o.value.1, e.value.1))
  }

  // ----- definitions -----

  /** The given primary key, or the sorting key when none is given. */
  predicate KeysTo(d: Schema, e: Schema)
    requires d.Table? && e.Table?
  {
    && e.orderBy == NormalizeKeyColumns(d.orderBy)
    && (NormalizeKeyColumns(d.primaryKey) != [] ==> e.primaryKey == NormalizeKeyColumns(d.primaryKey))
    && (NormalizeKeyColumns(d.primaryKey) == [] ==> e.primaryKey == e.orderBy)
    && d.uniqueKey.Some? == e.uniqueKey.Some? && (d.uniqueKey.Some? ==> e.uniqueKey.value == NormalizeKeyColumns(d.uniqueKey.value))
  }

  ghost predicate TableTo(leq: (string, string) -> bool, d: Schema, e: Schema)
    requires d.Table?
  {
    && e.Table? && NameTo(d.name, e.name) && RenamedTo(d.renamedFrom, e.renamedFrom) && EngineTo(d.engine, e.engine)
    && ColumnsTo(d.columns, e.columns) && KeysTo(d, e) && RespacedOption(d.partitionBy, e.partitionBy) && RespacedOption(d.ttl, e.ttl)
    && EntriesTo(leq, d.settings, e.settings) && MembersTo(leq, d.indexes, e.indexes) && MembersTo(leq, d.projections, e.projections)
    && TrimmedOption(d.comment, e.comment)
  }

  /** `e` says what `d` says. */
  ghost predicate Says(leq: (string, string) -> bool, d: Schema, e: Schema) {
    match d
    case Table(_, _, _, _, _, _, _, _, _, _, _, _, _) => TableTo(leq, d, e)
    case View(name, query, comment) => e.View? && NameTo(name, e.name) && Respaced(query, e.query) && TrimmedOption(comment, e.comment)
    case MaterializedView(name, target, query, comment, refresh) =>
      && e.MaterializedView? && NameTo(name, e.name) && NameTo(target, e.target) && Respaced(query, e.query)
      && TrimmedOption(comment, e.comment) && RefreshTo(leq, refresh, e.refresh)
    case Dictionary(name, renamed, attributes, pk, source, layout, lifetime, range, settings, comment) =>
      && e.Dictionary? && NameTo(name, e.name) && RenamedTo(renamed, e.renamedFrom) && AttributesTo(attributes, e.attributes)
      && e.primaryKey == NormalizeKeyColumns(pk) && Respaced(source, e.source) && Respaced(layout, e.layout)
      && Respaced(lifetime, e.lifetime) && RangeTo(range, e.range) && SomeEntriesTo(leq, settings, e.settings) && TrimmedOption(comment, e.comment)
  }

  // ----- the canonical form says it -----

  lemma TrimOptionSays(o: Option<string>)
    ensures TrimmedOption(o, TrimOption(o))
  {
    if o.Some? {
      TrimIs(o.value);
    }
  }

  lemma TrimNameSays(n: Name)
    ensures NameTo(n, TrimName(n))
  {
    TrimIs(n.database);
    TrimIs(n.name);
    hide Trim, TrimmedTo;
  }

  lemma TrimRenamedSays(o: Option<Renamed>)
    ensures RenamedTo(o, TrimRenamed(o))
  {
    if o.Some? {
      TrimOptionSays(o.value.database);
      TrimIs(o.value.name);
    }
    hide Trim, TrimmedTo, TrimOption, TrimmedOption;
  }

  lemma KeptSays(o: Option<string>)
    ensures RespacedOption(o, Kept(o))
  {
    if o.Some? {
      FragmentSpells(o.value);
    }
    hide Fragment, Spell, Words;
  }

  lemma EngineSays(s: string)
    ensures EngineTo(s, Engine(s))
  {
    var t := Trim(s);
    TrimIs(s);
    hide Trim, TrimmedTo;
    var base := StripShared(t);
    SharedIs(t);
    assert TrimmedTo(s, t) && (if "Shared" <= t then t == "Shared" + base else base == t);
  }

  lemma SharedIs(t: string)
    ensures if "Shared" <= t then t == "Shared" + StripShared(t) else StripShared(t) == t
  {
    if |t| >= 6 {
      assert t == t[..6] + t[6..];
    }
  }

  lemma StepSays(s: Codec.Step)
    ensures StepTo(s, Codec.CanonicalStep(s))
  {
    if s.Raw? {
      TrimIs(s.expression);
    }
    hide Trim, TrimmedTo;
  }

  lemma ColumnSays(c: Column)
    ensures ColumnTo(c, CanonColumn(c))
  {
    TrimIs(c.name);
    TrimOptionSays(c.renamedFrom);
    TrimIs(c.typeText);
    TrimOptionSays(c.comment);
    if c.codec.Some? {
      forall i | 0 <= i < |c.codec.value| ensures StepTo(c.codec.value[i], Codec.CanonicalCodec(c.codec.value)[i]) {
        StepSays(c.codec.value[i]);
      }
    }
    hide Trim, TrimmedTo, TrimOption, TrimmedOption, StepTo, Codec.CanonicalStep;
  }

  lemma ColumnsSay(cs: seq<Column>)
    ensures ColumnsTo(cs, CanonColumns(cs))
  {
    forall i | 0 <= i < |cs| ensures ColumnTo(cs[i], CanonColumns(cs)[i]) {
      ColumnSays(cs[i]);
    }
    hide ColumnTo, CanonColumn;
  }

  lemma TextSays(t: TextIndex)
    ensures TextTo(t, CanonText(t))
  {
    FragmentSpells(t.tokenizer);
    KeptSays(t.preprocessor);
    KeptSays(t.postprocessor);
    hide Fragment, Spell, Words, Kept, RespacedOption;
  }

  lemma MemberSays(m: Member)
    ensures MemberTo(m, CanonMember(m))
  {
    match m
    case SkipIndex(_, e, t, _) =>
      FragmentSpells(e);
      if t.Some? {
        TextSays(t.value);
      }
      hide Fragment, Spell, Words, CanonText, TextTo;
    case IndexProjection(_, _, t) =>
      TrimIs(t);
      hide Trim, TrimmedTo, Normalize;
    case QueryProjection(_, q) =>
      FragmentSpells(q);
      hide Fragment, Spell, Words;
  }

  lemma SortByPermutes<T>(leq: (string, string) -> bool, key: T -> string, s: seq<T>)
    ensures multiset(SortBy(leq, key, s)) == multiset(s)
  {
    SortIsPermutation((a: T, b: T) => leq(key(a), key(b)), s);
  }

  lemma MembersSay(leq: (string, string) -> bool, o: Option<seq<Member>>)
    requires TotalPreorder(leq)
    ensures MembersTo(leq, o, CanonMembers(leq, o))
  {
    if o.Some? {
      var order := SortBy(leq, MemberName, o.value);
      SortByPermutes(leq, MemberName, o.value);
      SortBySorts(leq, MemberName, o.value);
      hide SortBy, TotalPreorder, CanonMember, MapMembers;
      var es := MapMembers(order);
      forall i | 0 <= i < |es| ensures MemberTo(order[i], es[i]) && es[i].name == MemberName(order[i]) {
        MemberSays(order[i]);
      }
      hide MemberTo;
      assert MembersInOrder(leq, o.value, order, es);
    }
  }

  lemma EntriesSay(leq: (string, string) -> bool, s: seq<Entry>)
    requires TotalPreorder(leq)
    ensures EntriesInOrder(leq, s, SortBy(leq, EntryKey, s)) && |SortBy(leq, EntryKey, s)| == |s|
  {
    SortByPermutes(leq, EntryKey, s);
    SortBySorts(leq, EntryKey, s);
    hide SortBy, TotalPreorder;
  }

  lemma SettingsSay(leq: (string, string) -> bool, o: Option<seq<Entry>>)
    requires TotalPreorder(leq)
    ensures EntriesTo(leq, o, CanonSettings(leq, o)) && SomeEntriesTo(leq, o, UnlessEmpty(CanonSettings(leq, o)))
  {
    if o.Some? {
      EntriesSay(leq, o.value);
    }
    hide SortBy, TotalPreorder, EntriesInOrder;
  }

  lemma DependsSay(leq: (string, string) -> bool, o: Option<seq<Name>>)
    requires TotalPreorder(leq)
    ensures DependsTo(leq, o, CanonDepends(leq, o))
  {
    if o.Some? {
      var trimmed := TrimNames(o.value);
      SortByPermutes(leq, NameText, trimmed);
      SortBySorts(leq, NameText, trimmed);
      forall i | 0 <= i < |o.value| ensures NameTo(o.value[i], trimmed[i]) {
        TrimNameSays(o.value[i]);
      }
      hide SortBy, TotalPreorder, NameTo, TrimName;
      assert DependsInOrder(leq, o.value, trimmed, SortBy(leq, NameText, trimmed));
    }
  }

  lemma RefreshSays(leq: (string, string) -> bool, o: Option<RefreshRule>)
    requires TotalPreorder(leq)
    ensures RefreshTo(leq, o, CanonRefresh(leq, o))
  {
    if o.Some? {
      DependsSay(leq, o.value.dependsOn);
      SettingsSay(leq, o.value.settings);
    }
    hide TotalPreorder, CanonDepends, DependsTo, CanonSettings, SomeEntriesTo, UnlessEmpty, Interval;
  }

  lemma AttributesSay(s: seq<Attribute>)
    ensures AttributesTo(s, CanonAttributes(s))
  {
    forall i | 0 <= i < |s| ensures TrimmedTo(s[i].name, CanonAttributes(s)[i].name) && TrimmedTo(s[i].typeText, CanonAttributes(s)[i].typeText) {
      TrimIs(s[i].name);
      TrimIs(s[i].typeText);
    }
    hide Trim, TrimmedTo;
  }

  lemma RangeSays(o: Option<(string, string)>)
    ensures RangeTo(o, TrimRange(o))
  {
    if o.Some? {
      TrimIs(o.value.0);
      TrimIs(o.value.1);
    }
    hide Trim, TrimmedTo;
  }

  lemma KeysSay(leq: (string, string) -> bool, d: Schema)
    requires d.Table?
    ensures Canon(leq, d).Table? && KeysTo(d, Canon(leq, d))
  {
    hide NormalizeKeyColumns, TrimName, TrimRenamed, Engine, CanonColumns, Kept, CanonSettings, CanonMembers, TrimOption;
  }

  lemma TableSays(leq: (string, string) -> bool, d: Schema)
    requires TotalPreorder(leq) && d.Table?
    ensures TableTo(leq, d, Canon(leq, d))
  {
    TrimNameSays(d.name);
    TrimRenamedSays(d.renamedFrom);
    EngineSays(d.engine);
    ColumnsSay(d.columns);
    KeysSay(leq, d);
    KeptSays(d.partitionBy);
    KeptSays(d.ttl);
    SettingsSay(leq, d.settings);
    MembersSay(leq, d.indexes);
    MembersSay(leq, d.projections);
    TrimOptionSays(d.comment);
    hide TotalPreorder, NameTo, RenamedTo, EngineTo, ColumnsTo, KeysTo, RespacedOption, EntriesTo, SomeEntriesTo, MembersTo, TrimmedOption,
         NormalizeKeyColumns, PrimaryKey, TrimName, TrimRenamed, Engine, CanonColumns, Kept, CanonSettings, CanonMembers, TrimOption, UnlessEmpty;
  }

  /** The canonical form of a definition says what the definition says, whatever was written. */
  lemma CanonSays(leq: (string, string) -> bool, d: Schema)
    requires TotalPreorder(leq)
    ensures Says(leq, d, Canon(leq, d))
  {
    if d.Table? {
      hide Canon, TableTo;
      TableSays(leq, d);
    } else {
      TrimNameSays(d.name);
      TrimOptionSays(d.comment);
      if d.View? {
        FragmentSpells(d.query);
      } else if d.MaterializedView? {
        FragmentSpells(d.query);
        TrimNameSays(d.target);
        RefreshSays(leq, d.refresh);
      } else {
        FragmentSpells(d.source);
        FragmentSpells(d.layout);
        FragmentSpells(d.lifetime);
        TrimRenamedSays(d.renamedFrom);
        AttributesSay(d.attributes);
        RangeSays(d.range);
        SettingsSay(leq, d.settings);
      }
      hide TotalPreorder, NameTo, RenamedTo, TrimmedOption, AttributesTo, RangeTo, SomeEntriesTo, EntriesTo, RefreshTo, Spell, Words, Fragment,
           NormalizeKeyColumns, TrimName, TrimRenamed, CanonAttributes, TrimRange, CanonSettings, UnlessEmpty, CanonRefresh, TrimOption;
    }
  }

  // ----- one canonical form, one meaning -----

  /** Equal but for blanks at the ends. */
  ghost predicate SameCore(s: string, t: string) {
    exists core :: TrimmedTo(s, core) && TrimmedTo(t, core)
  }

  ghost predicate SameOption(a: Option<string>, b: Option<string>) {
    a.Some? == b.Some? && (a.Some? ==> SameCore(a.value, b.value))
  }

  /** Equal but for one prefix `Shared` and empty parentheses. */
  ghost predicate SameEngine(s: string, t: string) {
    exists e :: EngineTo(s, e) && EngineTo(t, e)
  }

  predicate SameKeys(a: seq<string>, b: seq<string>) {
    NormalizeKeyColumns(a) == NormalizeKeyColumns(b)
  }

  /** The key a table has: the given one, or else the sorting key. */
  function KeyOfTable(d: Schema): seq<string>
    requires d.Table?
  {
    NormalizeKeyColumns(if NormalizeKeyColumns(d.primaryKey) == [] then d.orderBy else d.primaryKey)
  }

  predicate SameWords(a: Option<string>, b: Option<string>) {
    (a == None || a == Some("") <==> b == None || b == Some("")) && (a.Some? && b.Some? ==> Words(a.value) == Words(b.value))
  }

  ghost predicate SameStep(a: Codec.Step, b: Codec.Step) {
    exists e :: StepTo(a, e) && StepTo(b, e)
  }

  ghost predicate SameColumn(a: Column, b: Column) {
    && SameCore(a.name, b.name) && SameCore(a.typeText, b.typeText) && SameOption(a.renamedFrom, b.renamedFrom)
    && SameOption(a.comment, b.comment) && a.rest == b.rest
    && a.codec.Some? == b.codec.Some?
    && (a.codec.Some? ==> |a.codec.value| == |b.codec.value| && forall i :: 0 <= i < |a.codec.value| ==> SameStep(a.codec.value[i], b.codec.value[i]))
  }

  predicate SameText(a: Option<TextIndex>, b: Option<TextIndex>) {
    && a.Some? == b.Some?
    && (a.Some? ==> && Words(a.value.tokenizer) == Words(b.value.tokenizer)
                    && SameWords(a.value.preprocessor, b.value.preprocessor) && SameWords(a.value.postprocessor, b.value.postprocessor))
  }

  ghost predicate SameMember(a: Member, b: Member) {
    && a.name == b.name
    && match a
       case SkipIndex(_, expression, text, rest) =>
         b.SkipIndex? && Words(expression) == Words(b.expression) && SameText(text, b.text) && rest == b.rest
       case IndexProjection(_, index, typeText) => b.IndexProjection? && Normalize(index) == Normalize(b.index) && SameCore(typeText, b.typeText)
       case QueryProjection(_, query) => b.QueryProjection? && Words(query) == Words(b.query)
  }

  /** The same members, in whatever order they were written. */
  ghost predicate SameMembers(a: Option<seq<Member>>, b: Option<seq<Member>>) {
    && a.Some? == b.Some?
    && (a.Some? ==> exists p, q :: PairedMembers(a.value, b.value, p, q))
  }

  ghost predicate PairedMembers(a: seq<Member>, b: seq<Member>, p: seq<Member>, q: seq<Member>) {
    multiset(p) == multiset(a) && multiset(q) == multiset(b) && |p| == |q| && forall i :: 0 <= i < |p| ==> SameMember(p[i], q[i])
  }

  predicate SameSettings(a: Option<seq<Entry>>, b: Option<seq<Entry>>) {
    a.Some? == b.Some? && (a.Some? ==> multiset(a.value) == multiset(b.value))
  }

  /** Two tables that say the same. */
  ghost predicate SameTable(a: Schema, b: Schema)
    requires a.Table?
  {
    && b.Table? && SameCore(a.name.database, b.name.database) && SameCore(a.name.name, b.name.name)
    && |a.columns| == |b.columns| && (forall i :: 0 <= i < |a.columns| ==> SameColumn(a.columns[i], b.columns[i]))
    && KeyOfTable(a) == KeyOfTable(b) && SameKeys(a.orderBy, b.orderBy)
    && a.uniqueKey.Some? == b.uniqueKey.Some? && (a.uniqueKey.Some? ==> SameKeys(a.uniqueKey.value, b.uniqueKey.value))
    && SameWords(a.partitionBy, b.partitionBy) && SameWords(a.ttl, b.ttl)
    && SameEngine(a.engine, b.engine) && SameOption(a.comment, b.comment)
    && SameSettings(a.settings, b.settings) && SameMembers(a.indexes, b.indexes) && SameMembers(a.projections, b.projections)
  }

  lemma SpelledAlike(s: string, t: string)
    requires Spell(Words(s)) == Spell(Words(t))
    ensures Words(s) == Words(t)
  {
    SpelledWords(Words(s));
    SpelledWords(Words(t));
  }

  lemma WordsAlike(a: Option<string>, b: Option<string>, e: Option<string>)
    requires RespacedOption(a, e) && RespacedOption(b, e)
    ensures SameWords(a, b)
  {
    if e.Some? {
      SpelledAlike(a.value, b.value);
    }
  }

  lemma CoresAlike(s: string, t: string, e: string)
    requires TrimmedTo(s, e) && TrimmedTo(t, e)
    ensures SameCore(s, t)
  {
  }

  lemma OptionsAlike(a: Option<string>, b: Option<string>, e: Option<string>)
    requires TrimmedOption(a, e) && TrimmedOption(b, e)
    ensures SameOption(a, b)
  {
    hide TrimmedTo;
    if e.Some? {
      CoresAlike(a.value, b.value, e.value);
    }
  }

  lemma TextsAlike(a: Option<TextIndex>, b: Option<TextIndex>, e: Option<TextIndex>)
    requires a.Some? == b.Some? == e.Some? && (e.Some? ==> TextTo(a.value, e.value) && TextTo(b.value, e.value))
    ensures SameText(a, b)
  {
    hide Spell, Words, RespacedOption, SameWords;
    if e.Some? {
      SpelledAlike(a.value.tokenizer, b.value.tokenizer);
      WordsAlike(a.value.preprocessor, b.value.preprocessor, e.value.preprocessor);
      WordsAlike(a.value.postprocessor, b.value.postprocessor, e.value.postprocessor);
    }
  }

  lemma ColumnsAlike(a: Column, b: Column, e: Column)
    requires ColumnTo(a, e) && ColumnTo(b, e)
    ensures SameColumn(a, b)
  {
    hide TrimmedTo, StepTo, TrimmedOption, SameOption;
    CoresAlike(a.name, b.name, e.name);
    OptionsAlike(a.renamedFrom, b.renamedFrom, e.renamedFrom);
    OptionsAlike(a.comment, b.comment, e.comment);
    CoresAlike(a.typeText, b.typeText, e.typeText);
    if e.codec.Some? {
      forall i | 0 <= i < |e.codec.value| ensures SameStep(a.codec.value[i], b.codec.value[i]) {
        assert StepTo(a.codec.value[i], e.codec.value[i]) && StepTo(b.codec.value[i], e.codec.value[i]);
      }
    }
  }

  lemma MembersAlike(a: Member, b: Member, e: Member)
    requires MemberTo(a, e) && MemberTo(b, e)
    ensures SameMember(a, b)
  {
    hide TrimmedTo, Normalize, TextTo, Spell, Words, SameText;
    match a
    case SkipIndex(_, _, _, _) =>
      SpelledAlike(a.expression, b.expression);
      TextsAlike(a.text, b.text, e.text);
    case IndexProjection(_, _, _) => CoresAlike(a.typeText, b.typeText, e.typeText);
    case QueryProjection(_, _) => SpelledAlike(a.query, b.query);
  }

  lemma ListsAlike(leq: (string, string) -> bool, a: Option<seq<Member>>, b: Option<seq<Member>>, e: Option<seq<Member>>)
    requires MembersTo(leq, a, e) && MembersTo(leq, b, e)
    ensures SameMembers(a, b)
  {
    hide MemberTo, SameMember;
    if e.Some? {
      var p :| MembersInOrder(leq, a.value, p, e.value);
      var q :| MembersInOrder(leq, b.value, q, e.value);
      forall i | 0 <= i < |p| ensures SameMember(p[i], q[i]) {
        MembersAlike(p[i], q[i], e.value[i]);
      }
      assert PairedMembers(a.value, b.value, p, q);
    }
  }

  lemma SettingsAlike(leq: (string, string) -> bool, a: Option<seq<Entry>>, b: Option<seq<Entry>>, e: Option<seq<Entry>>)
    requires EntriesTo(leq, a, e) && EntriesTo(leq, b, e)
    ensures SameSettings(a, b)
  {
  }

  lemma AllColumnsAlike(a: seq<Column>, b: seq<Column>, e: seq<Column>)
    requires ColumnsTo(a, e) && ColumnsTo(b, e)
    ensures |a| == |b| && forall i :: 0 <= i < |a| ==> SameColumn(a[i], b[i])
  {
    hide ColumnTo, SameColumn;
    forall i | 0 <= i < |a| ensures SameColumn(a[i], b[i]) {
      ColumnsAlike(a[i], b[i], e[i]);
    }
  }

  lemma KeysAlike(a: Schema, b: Schema, e: Schema)
    requires a.Table? && b.Table? && e.Table? && KeysTo(a, e) && KeysTo(b, e)
    ensures KeyOfTable(a) == KeyOfTable(b) && SameKeys(a.orderBy, b.orderBy)
    ensures a.uniqueKey.Some? == b.uniqueKey.Some? && (a.uniqueKey.Some? ==> SameKeys(a.uniqueKey.value, b.uniqueKey.value))
  {
    hide NormalizeKeyColumns;
  }

  lemma TablesAlike(leq: (string, string) -> bool, a: Schema, b: Schema, e: Schema)
    requires a.Table? && b.Table? && TableTo(leq, a, e) && TableTo(leq, b, e)
    ensures SameTable(a, b)
  {
    hide ColumnsTo, SameColumn, TrimmedOption, RenamedTo, EngineTo, RespacedOption, SameWords, MembersTo, SameMembers, KeysTo, EntriesTo,
         SameSettings, KeyOfTable, SameKeys, SameCore, SameOption, SameEngine, TrimmedTo;
    CoresAlike(a.name.database, b.name.database, e.name.database);
    CoresAlike(a.name.name, b.name.name, e.name.name);
    EnginesAlike(a.engine, b.engine, e.engine);
    AllColumnsAlike(a.columns, b.columns, e.columns);
    KeysAlike(a, b, e);
    WordsAlike(a.partitionBy, b.partitionBy, e.partitionBy);
    WordsAlike(a.ttl, b.ttl, e.ttl);
    SettingsAlike(leq, a.settings, b.settings, e.settings);
    ListsAlike(leq, a.indexes, b.indexes, e.indexes);
    ListsAlike(leq, a.projections, b.projections, e.projections);
    OptionsAlike(a.comment, b.comment, e.comment);
  }

  lemma EnginesAlike(s: string, t: string, e: string)
    requires EngineTo(s, e) && EngineTo(t, e)
    ensures SameEngine(s, t)
  {
    hide EngineTo;
  }

  /** Tables with one canonical form have the same columns, keys, texts up to blanks, settings and members. */
  lemma OneCanonOneMeaning(leq: (string, string) -> bool, a: Schema, b: Schema)
    requires TotalPreorder(leq) && a.Table? && Canon(leq, a) == Canon(leq, b)
    ensures SameTable(a, b)
  {
    SameKind(leq, a, b);
    hide *;
    TableSays(leq, a);
    TableSays(leq, b);
    TablesAlike(leq, a, b, Canon(leq, a));
  }

  lemma SameKind(leq: (string, string) -> bool, a: Schema, b: Schema)
    requires a.Table? && Canon(leq, a) == Canon(leq, b)
    ensures b.Table?
  {
  }
}
