/**
 From written schemas to planned operations: what the planner compares of a canonical definition, why a
 schema plans nothing against its own canonical form, and what becomes of a blank TTL.
 */
module CanonicalPlan {
  import opened Wrappers
  import opened StableSort
  import opened DiffPrimitives
  import opened Projection
  import opened Canonical
  import opened CanonicalList
  import Codec
  import P = Planner
  import PlanReplay
  import PlanFacts

  /**
   The texts the planner compares by: for a table engine, keys and partition expression, where an absent
   partition expression is an empty one; for everything else the canonical values as JSON.
   */
  datatype Texts = Texts(
    shape: (string, seq<string>, seq<string>, string, Option<seq<string>>) -> string,
    column: Column -> string,
    codec: seq<Codec.Step> -> string,
    member: Member -> string,
    body: (string, Option<string>) -> string,
    refresh: RefreshRule -> string,
    dictionary: Schema -> string)

  function RefOf(n: Name): P.Ref {
    P.Ref(n.database, n.name)
  }

  function ColumnItem(t: Texts, c: Column): Item {
    Item(c.name, ColumnText(t.column(c), if c.codec.Some? then Some(t.codec(c.codec.value)) else None))
  }

  function ColumnItems(t: Texts, cs: seq<Column>): (r: seq<Item>)
    ensures |r| == |cs| && forall i :: 0 <= i < |cs| ==> r[i].name == cs[i].name
  {
    seq(|cs|, i requires 0 <= i < |cs| => ColumnItem(t, cs[i]))
  }

  function MemberItems(t: Texts, o: Option<seq<Member>>): (r: seq<Item>)
    ensures o.Some? ==> |r| == |o.value| && forall i :: 0 <= i < |r| ==> r[i].name == o.value[i].name
    ensures o.None? ==> r == []
  {
    if o.None? then [] else seq(|o.value|, i requires 0 <= i < |o.value| => Item(o.value[i].name, Text(t.member(o.value[i]))))
  }

  function SettingItems(o: Option<seq<Entry>>): seq<Item> {
    if o.None? then [] else seq(|o.value|, i requires 0 <= i < |o.value| => Item(o.value[i].key, Text(o.value[i].value)))
  }

  function Refs(o: Option<seq<Name>>): seq<P.Ref> {
    if o.None? then [] else seq(|o.value|, i requires 0 <= i < |o.value| => RefOf(o.value[i]))
  }

  function RefreshOf(t: Texts, o: Option<RefreshRule>): Option<P.RefreshRule> {
    if o.Some? then Some(P.RefreshRule(o.value.append, Refs(o.value.dependsOn), t.refresh(o.value))) else None
  }

  /** What the planner compares of a canonical definition. */
  function Compared(t: Texts, d: Schema): P.Definition {
    match d
    case Table(name, _, engine, columns, pk, ob, uk, part, ttl, settings, indexes, projections, _) =>
      P.Table(RefOf(name), t.shape(engine, pk, ob, P.OrEmpty(part), uk), ColumnItems(t, columns), MemberItems(t, indexes),
              MemberItems(t, projections), SettingItems(settings), ttl)
    case View(name, query, comment) => P.View(RefOf(name), t.body(query, comment))
    case MaterializedView(name, target, query, comment, refresh) =>
      P.MaterializedView(RefOf(name), t.body(query, comment), RefOf(target), RefreshOf(t, refresh))
    case Dictionary(name, _, _, _, source, _, _, _, _, _) => P.Dictionary(RefOf(name), source, t.dictionary(d.(source := "")))
  }

  function AllCompared(t: Texts, defs: seq<Schema>): (r: seq<P.Definition>)
    ensures |r| == |defs| && forall i :: 0 <= i < |defs| ==> r[i] == Compared(t, defs[i])
  {
    seq(|defs|, i requires 0 <= i < |defs| => Compared(t, defs[i]))
  }

  predicate UniqueColumns(cs: seq<Column>) {
    forall i, j :: 0 <= i < j < |cs| ==> cs[i].name != cs[j].name
  }

  predicate UniqueMembers(o: Option<seq<Member>>) {
    o.Some? ==> forall i, j :: 0 <= i < j < |o.value| ==> o.value[i].name != o.value[j].name
  }

  /** No column, index or projection name twice, as schema validation asks. */
  predicate UniqueParts(d: Schema) {
    d.Table? ==> UniqueColumns(d.columns) && UniqueMembers(d.indexes) && UniqueMembers(d.projections)
  }

  lemma ComparedKeepsKey(t: Texts, d: Schema)
    ensures P.DefinitionKey(Compared(t, d)) == KeyOf(d)
    ensures UniqueParts(d) ==> PlanReplay.Orderly(Compared(t, d))
  {
    hide P.KeyText;
  }

  // ----- nothing that is compared is lost -----

  /** Different columns and different members have different texts. */
  ghost predicate Telling(t: Texts) {
    && (forall a, b :: t.column(a) == t.column(b) ==> a == b) && (forall a, b :: t.member(a) == t.member(b) ==> a == b)
  }

  /** A column, an index, a projection and a setting are compared under their own names and in their own groups. */
  lemma EachPartIsCompared(t: Texts, d: Schema, i: nat)
    requires d.Table?
    ensures var p := Compared(t, d);
      && p.ref.database == d.name.database && p.ref.name == d.name.name && p.ttl == d.ttl
      && (i < |d.columns| ==> |p.columns| == |d.columns| && p.columns[i].name == d.columns[i].name && p.columns[i].value.ColumnText?
                              && p.columns[i].value.rest == t.column(d.columns[i]))
      && (d.indexes.Some? && i < |d.indexes.value| ==>
            |p.indexes| == |d.indexes.value| && p.indexes[i] == Item(d.indexes.value[i].name, Text(t.member(d.indexes.value[i]))))
      && (d.projections.Some? && i < |d.projections.value| ==>
            |p.projections| == |d.projections.value| && p.projections[i] == Item(d.projections.value[i].name, Text(t.member(d.projections.value[i]))))
      && (d.settings.Some? && i < |d.settings.value| ==>
            |p.settings| == |d.settings.value| && p.settings[i] == Item(d.settings.value[i].key, Text(d.settings.value[i].value)))
  {
  }

  lemma MembersTellApart(t: Texts, a: Option<seq<Member>>, b: Option<seq<Member>>)
    requires Telling(t) && MemberItems(t, a) == MemberItems(t, b)
    ensures (if a.Some? then a.value else []) == (if b.Some? then b.value else [])
  {
    if a.Some? && b.Some? {
      forall i | 0 <= i < |a.value| ensures |a.value| == |b.value| && a.value[i] == b.value[i] {
        assert MemberItems(t, a)[i] == MemberItems(t, b)[i];
      }
    }
  }

  lemma SettingsTellApart(a: Option<seq<Entry>>, b: Option<seq<Entry>>)
    requires SettingItems(a) == SettingItems(b)
    ensures (if a.Some? then a.value else []) == (if b.Some? then b.value else [])
  {
    if a.Some? && b.Some? {
      forall i | 0 <= i < |a.value| ensures |a.value| == |b.value| && a.value[i] == b.value[i] {
        assert SettingItems(a)[i] == SettingItems(b)[i];
      }
    }
  }

  lemma ColumnsTellApart(t: Texts, a: seq<Column>, b: seq<Column>)
    requires Telling(t) && ColumnItems(t, a) == ColumnItems(t, b)
    ensures a == b
  {
    forall i | 0 <= i < |a| ensures |a| == |b| && a[i] == b[i] {
      assert ColumnItems(t, a)[i] == ColumnItems(t, b)[i];
    }
  }

  /** Two tables that the planner cannot tell apart differ in comment and former name at most, beside what the shape text leaves out. */
  lemma ComparedTellsApart(t: Texts, a: Schema, b: Schema)
    requires Telling(t) && a.Table? && Compared(t, a) == Compared(t, b)
    ensures b.Table? && a.name == b.name && a.columns == b.columns && a.ttl == b.ttl
    ensures (if a.indexes.Some? then a.indexes.value else []) == (if b.indexes.Some? then b.indexes.value else [])
    ensures (if a.projections.Some? then a.projections.value else []) == (if b.projections.Some? then b.projections.value else [])
    ensures (if a.settings.Some? then a.settings.value else []) == (if b.settings.Some? then b.settings.value else [])
    ensures t.shape(a.engine, a.primaryKey, a.orderBy, P.OrEmpty(a.partitionBy), a.uniqueKey)
      == t.shape(b.engine, b.primaryKey, b.orderBy, P.OrEmpty(b.partitionBy), b.uniqueKey)
  {
    assert b.Table?;
    hide Telling, ColumnItems, MemberItems, SettingItems, P.OrEmpty;
    ColumnsTellApart(t, a.columns, b.columns);
    MembersTellApart(t, a.indexes, b.indexes);
    MembersTellApart(t, a.projections, b.projections);
    SettingsTellApart(a.settings, b.settings);
  }

  // ----- taking the canonical form again -----

  /** The canonical form of a canonical list, definition by definition. */
  function CanonEach(leq: (string, string) -> bool, list: seq<Schema>): (r: seq<Schema>)
    ensures |r| == |list| && forall i :: 0 <= i < |list| ==> r[i] == Canon(leq, list[i])
  {
    seq(|list|, i requires 0 <= i < |list| => Canon(leq, list[i]))
  }

  lemma NameIsFinal(leq: (string, string) -> bool, d: Schema)
    ensures var once := Canon(leq, d); var twice := Canon(leq, once); twice.name == once.name && KindOf(twice) == KindOf(once)
  {
    TrimNameIsIdempotent(d.name);
    hide TrimName, TrimRenamed, Engine, CanonColumns, PrimaryKey, CanonUnique, Kept, CanonSettings, CanonMembers, TrimOption, UnlessEmpty,
         Fragment, CanonRefresh, CanonAttributes, TrimRange;
  }

  /** Names that stay put. */
  ghost predicate NamesStay(leq: (string, string) -> bool, list: seq<Schema>) {
    forall i :: 0 <= i < |list| ==> Canon(leq, list[i]).name == list[i].name && KindOf(Canon(leq, list[i])) == KindOf(list[i])
  }

  lemma PutBehind(list: seq<Schema>, d: Schema)
    requires forall i :: 0 <= i < |list| ==> KeyOf(list[i]) != KeyOf(d)
    ensures Put(list, d) == list + [d]
  {
    hide KeyOf;
  }

  lemma KeyStays(leq: (string, string) -> bool, list: seq<Schema>, i: nat)
    requires NamesStay(leq, list) && i < |list|
    ensures KeyOf(Canon(leq, list[i])) == KeyOf(list[i])
  {
    hide Canon, P.KeyText, KindOf;
  }

  lemma {:induction false} DedupEach(leq: (string, string) -> bool, list: seq<Schema>, k: nat)
    requires CanonicalList.Distinct(list) && NamesStay(leq, list) && k <= |list|
    ensures Dedup(leq, list[..k]) == CanonEach(leq, list[..k])
  {
    hide *;
    if k == 0 {
      assert list[..0] == [];
      NothingToDedup(leq);
    } else {
      DedupEach(leq, list, k - 1);
      OtherKeys(leq, list, k - 1);
      PutBehind(CanonEach(leq, list[..k - 1]), Canon(leq, list[k - 1]));
      assert list[..k] == list[..k - 1] + [list[k - 1]];
      DedupLast(leq, list[..k - 1], list[k - 1]);
    }
  }

  lemma NothingToDedup(leq: (string, string) -> bool)
    ensures Dedup(leq, []) == CanonEach(leq, []) == []
  {
  }

  lemma DedupLast(leq: (string, string) -> bool, front: seq<Schema>, last: Schema)
    ensures Dedup(leq, front + [last]) == Put(Dedup(leq, front), Canon(leq, last))
    ensures CanonEach(leq, front + [last]) == CanonEach(leq, front) + [Canon(leq, last)]
  {
    hide Canon, Put, CanonEach;
    assert (front + [last])[..|front|] == front;
  }

  lemma OtherKeys(leq: (string, string) -> bool, list: seq<Schema>, k: nat)
    requires CanonicalList.Distinct(list) && NamesStay(leq, list) && k < |list|
    ensures forall i :: 0 <= i < |CanonEach(leq, list[..k])| ==> KeyOf(CanonEach(leq, list[..k])[i]) != KeyOf(Canon(leq, list[k]))
  {
    hide Canon, KeyOf, NamesStay, CanonEach;
    KeyStays(leq, list, k);
    forall i | 0 <= i < k ensures KeyOf(CanonEach(leq, list[..k])[i]) != KeyOf(Canon(leq, list[k])) {
      KeyStays(leq, list, i);
    }
  }

  lemma NamesOfCanonical(leq: (string, string) -> bool, defs: seq<Schema>)
    ensures NamesStay(leq, CanonAll(leq, defs))
  {
    hide Canon, CanonAll, KindOf;
    var once := CanonAll(leq, defs);
    forall i | 0 <= i < |once| ensures Canon(leq, once[i]).name == once[i].name && KindOf(Canon(leq, once[i])) == KindOf(once[i]) {
      SameElements(leq, defs);
      assert once[i] in once;
      DedupComesFrom(leq, defs, once[i]);
      var d :| d in defs && once[i] == Canon(leq, d);
      NameIsFinal(leq, d);
    }
  }

  lemma InOrderByName(leq: (string, string) -> bool, a: Schema, b: Schema, c: Schema, d: Schema)
    requires InOrder(leq, a, b) && a.name == c.name && b.name == d.name && KindOf(a) == KindOf(c) && KindOf(b) == KindOf(d)
    ensures InOrder(leq, c, d)
  {
  }

  /** A second pass keeps every definition in its place. */
  lemma TwiceIsEach(leq: (string, string) -> bool, defs: seq<Schema>)
    requires TotalPreorder(leq)
    ensures CanonAll(leq, CanonAll(leq, defs)) == CanonEach(leq, CanonAll(leq, defs))
  {
    var once := CanonAll(leq, defs);
    hide TotalPreorder, Canon, KeyOf, InOrder, Dedup, CanonicalList.Distinct;
    LastOneCounts(leq, defs, "");
    NamesOfCanonical(leq, defs);
    DedupEach(leq, once, |once|);
    assert once[..|once|] == once;
    OrderIsPreorder(leq);
    SortSorts((a, b) => InOrder(leq, a, b), Dedup(leq, defs));
    var each := CanonEach(leq, once);
    forall i, j | 0 <= i < j < |each| ensures InOrder(leq, each[i], each[j]) {
      InOrderByName(leq, once[i], once[j], each[i], each[j]);
    }
    SortedIsFixed((a, b) => InOrder(leq, a, b), each);
  }

  // ----- a schema against its canonical form -----

  lemma KeptIsAlike(o: Option<string>)
    ensures P.OrEmpty(Kept(Kept(o))) == P.OrEmpty(Kept(o))
  {
    if o.Some? {
      FragmentIsIdempotent(o.value);
    }
    hide Fragment;
  }

  /** For the planner a quiet definition is final after one pass. */
  lemma QuietIsAlike(leq: (string, string) -> bool, t: Texts, d: Schema)
    requires TotalPreorder(leq) && Quiet(d)
    ensures PlanFacts.Alike(Compared(t, Canon(leq, Canon(leq, d))), Compared(t, Canon(leq, d)))
  {
    QuietTwice(leq, d);
    if d.Table? {
      KeptIsAlike(d.partitionBy);
      KeptIsAlike(d.ttl);
    }
    hide TotalPreorder, TrimName, TrimRenamed, Engine, CanonColumns, PrimaryKey, CanonUnique, Kept, CanonSettings, CanonMembers, TrimOption, UnlessEmpty,
         Fragment, CanonRefresh, CanonAttributes, TrimRange, ColumnItems, MemberItems, SettingItems, RefreshOf, P.OrEmpty, Quiet;
  }

  lemma CanonicalIsAlike(leq: (string, string) -> bool, t: Texts, defs: seq<Schema>, x: Schema)
    requires TotalPreorder(leq) && (forall d :: d in defs ==> Quiet(d)) && x in CanonAll(leq, defs)
    ensures PlanFacts.Alike(Compared(t, Canon(leq, x)), Compared(t, x))
  {
    hide TotalPreorder, Quiet, CanonAll, Canon, Compared, PlanFacts.Alike;
    SameElements(leq, defs);
    DedupComesFrom(leq, defs, x);
    var d :| d in defs && x == Canon(leq, d);
    QuietIsAlike(leq, t, d);
  }

  /** A canonical list whose tables repeat no names passes validation. */
  lemma CanonicalIsValidated(leq: (string, string) -> bool, t: Texts, defs: seq<Schema>)
    requires forall x :: x in CanonAll(leq, defs) ==> UniqueParts(x)
    ensures PlanFacts.Validated(AllCompared(t, CanonAll(leq, defs)))
  {
    LastOneCounts(leq, defs, "");
    var once := CanonAll(leq, defs);
    hide CanonAll, Compared, KeyOf, UniqueParts, PlanReplay.Orderly, P.DefinitionKey;
    forall i | 0 <= i < |once| ensures P.DefinitionKey(Compared(t, once[i])) == KeyOf(once[i]) && PlanReplay.Orderly(Compared(t, once[i])) {
      ComparedKeepsKey(t, once[i]);
    }
  }

  /**
   Planning a schema against its own canonical form yields nothing: on every list of definitions whose
   engines and members settle, blank texts, dotted names and shared names included.
   */
  lemma CanonicalPlansNothing(leq: (string, string) -> bool, t: Texts, defs: seq<Schema>)
    requires TotalPreorder(leq) && (forall d :: d in defs ==> Quiet(d)) && forall x :: x in CanonAll(leq, defs) ==> UniqueParts(x)
    ensures P.Emitted(leq, AllCompared(t, CanonAll(leq, CanonAll(leq, defs))), AllCompared(t, CanonAll(leq, defs))) == []
  {
    var once := CanonAll(leq, defs);
    var before, after := AllCompared(t, CanonAll(leq, once)), AllCompared(t, once);
    TwiceIsEach(leq, defs);
    CanonicalIsValidated(leq, t, defs);
    hide TotalPreorder, Quiet, CanonAll, Canon, Compared, UniqueParts, PlanFacts.Alike, PlanFacts.Validated;
    forall i | 0 <= i < |after| ensures PlanFacts.Alike(before[i], after[i]) {
      assert once[i] in once;
      CanonicalIsAlike(leq, t, defs, once[i]);
    }
    hide *;
    assert PlanFacts.AllAlike(before, after) by {
      AlikeOf(before, after);
    }
    PlanFacts.AlikePlansNothing(leq, before, after);
  }

  lemma AlikeOf(before: seq<P.Definition>, after: seq<P.Definition>)
    requires |before| == |after| && forall i :: 0 <= i < |after| ==> PlanFacts.Alike(before[i], after[i])
    ensures PlanFacts.AllAlike(before, after)
  {
    hide PlanFacts.Alike;
  }

  // ----- a blank TTL, as written -----

  /** A TTL with something in it. */
  predicate Speaks(ttl: Option<string>) {
    ttl.Some? && Fragment(ttl.value) != ""
  }

  lemma WrittenTtl(o: Option<string>)
    ensures Kept(o) == Some("") <==> Blank(o)
    ensures P.OrEmpty(Kept(o)) != "" <==> Speaks(o)
  {
    if o == Some("") {
      assert Fragment("") == "";
    }
    hide Fragment;
  }

  /**
   From the written schemas to the plan: an empty TTL is set, which the server refuses, exactly when a
   table keeps its shape, its old TTL says something and its new one is written as nothing but spaces.
   Leaving the TTL out removes it.
   */
  lemma BlankTtlIsPlanned(leq: (string, string) -> bool, t: Texts, before: seq<Schema>, after: seq<Schema>, o: Schema, n: Schema)
    requires Canon(leq, o) in CanonAll(leq, before) && Canon(leq, n) in CanonAll(leq, after) && o.Table? && n.Table?
    requires Canon(leq, o).name == Canon(leq, n).name && Compared(t, Canon(leq, o)).shape == Compared(t, Canon(leq, n)).shape
    requires PlanReplay.Comparable(AllCompared(t, CanonAll(leq, before)), AllCompared(t, CanonAll(leq, after)))
    ensures var r := RefOf(Canon(leq, n).name);
      P.ModifyPart(r, P.Ttl, P.Plain("")) in P.Emitted(leq, AllCompared(t, CanonAll(leq, before)), AllCompared(t, CanonAll(leq, after)))
      <==> Speaks(o.ttl) && Blank(n.ttl)
  {
    var before', after' := AllCompared(t, CanonAll(leq, before)), AllCompared(t, CanonAll(leq, after));
    var o', n' := Compared(t, Canon(leq, o)), Compared(t, Canon(leq, n));
    InCompared(t, CanonAll(leq, before), Canon(leq, o));
    InCompared(t, CanonAll(leq, after), Canon(leq, n));
    WrittenTtl(o.ttl);
    WrittenTtl(n.ttl);
    TtlOfCompared(leq, t, o);
    TtlOfCompared(leq, t, n);
    hide Canon, CanonAll, Compared, AllCompared, Kept, Speaks, Blank, P.Emitted, PlanReplay.Valid, PlanReplay.KeysTell, PlanReplay.FindRef, P.OrEmpty;
    PlanFacts.BlankTtlIsPlanned(leq, before', after', n'.ref);
    PlanFacts.FindByName(before', o');
    PlanFacts.FindByName(after', n');
  }

  lemma InCompared(t: Texts, list: seq<Schema>, x: Schema)
    requires x in list
    ensures Compared(t, x) in AllCompared(t, list)
  {
    hide Compared;
    var i :| 0 <= i < |list| && list[i] == x;
    assert AllCompared(t, list)[i] == Compared(t, x);
  }

  lemma TtlOfCompared(leq: (string, string) -> bool, t: Texts, d: Schema)
    requires d.Table?
    ensures var c := Compared(t, Canon(leq, d)); c.Table? && c.ttl == Kept(d.ttl) && c.ref == RefOf(Canon(leq, d).name)
  {
    hide TrimName, TrimRenamed, Engine, CanonColumns, PrimaryKey, CanonUnique, Kept, CanonSettings, CanonMembers, TrimOption,
         ColumnItems, MemberItems, SettingItems, P.OrEmpty;
  }
}
