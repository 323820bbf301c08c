/**
 The migration planner: what it emits for two canonical schemas, and the order it puts that in.
 */
module Planner {
  import opened Wrappers
  import opened StableSort
  import opened DiffPrimitives
  import opened DependencyDepth

  // ----- definitions -----

  datatype Kind = TableKind | ViewKind | MaterializedViewKind | DictionaryKind

  datatype Ref = Ref(database: string, name: string)

  datatype Group = Columns | Indexes | Projections

  datatype RefreshRule = RefreshRule(append: bool, dependsOn: seq<Ref>, rest: string)

  /**
   A canonical definition. Texts stand for the compared values: `shape` for engine and keys, `body` for a
   view's query and comment, `rest` for everything of a dictionary but its source.
   */
  datatype Definition =
    | Table(ref: Ref, shape: string, columns: seq<Item>, indexes: seq<Item>, projections: seq<Item>, settings: seq<Item>, ttl: Option<string>)
    | View(ref: Ref, body: string)
    | MaterializedView(ref: Ref, body: string, target: Ref, refresh: Option<RefreshRule>)
    | Dictionary(ref: Ref, source: string, rest: string)

  function KindOf(d: Definition): Kind {
    match d
    case Table(_, _, _, _, _, _, _) => TableKind
    case View(_, _) => ViewKind
    case MaterializedView(_, _, _, _) => MaterializedViewKind
    case Dictionary(_, _, _) => DictionaryKind
  }

  function KindText(k: Kind): string {
    match k
    case TableKind => "table"
    case ViewKind => "view"
    case MaterializedViewKind => "materialized_view"
    case DictionaryKind => "dictionary"
  }

  function KeyText(k: Kind, ref: Ref): string {
    KindText(k) + ":" + ref.database + "." + ref.name
  }

  function DefinitionKey(d: Definition): string {
    KeyText(KindOf(d), d.ref)
  }

  function Items(d: Definition, g: Group): seq<Item>
    requires d.Table?
  {
    match g
    case Columns => d.columns
    case Indexes => d.indexes
    case Projections => d.projections
  }

  /** What a `Map` by key holds: the last definition of a key. */
  function Find(defs: seq<Definition>, key: string): Option<Definition> {
    if defs == [] then None
    else if DefinitionKey(defs[|defs| - 1]) == key then Some(defs[|defs| - 1])
    else Find(defs[..|defs| - 1], key)
  }

  // ----- operations -----

  datatype Part = Body | Member(group: Group, name: string) | Setting(name: string) | Ttl | Refresh | Source

  /** The payload of an operation, or of one part of an object. */
  datatype Payload =
    | TableShape(shape: string) | ViewBody(body: string) | DictionaryBody(rest: string)
    | MaterializedViewBody(body: string, target: Ref, append: bool, refreshable: bool)
    | Held(value: Value) | Plain(text: string) | Rule(rule: RefreshRule)

  datatype Op =
    | Drop(kind: Kind, ref: Ref)
    | CreateDatabase(database: string)
    | Create(def: Definition, replace: bool)
    | ModifyRefresh(ref: Ref, rule: RefreshRule)
    | AddPart(ref: Ref, part: Part, payload: Payload)
    | ModifyPart(ref: Ref, part: Part, payload: Payload)
    | RemoveCodec(ref: Ref, name: string)
    | RemovePart(ref: Ref, part: Part)

  function PartText(p: Part): string {
    match p
    case Body => ""
    case Member(Columns, n) => "column:" + n
    case Member(Indexes, n) => "index:" + n
    case Member(Projections, n) => "projection:" + n
    case Setting(n) => "setting:" + n
    case Ttl => "ttl"
    case Refresh => "refresh"
    case Source => "source"
  }

  function OpKey(op: Op): string {
    match op
    case Drop(k, r) => KeyText(k, r)
    case CreateDatabase(d) => "database:" + d
    case Create(d, _) => DefinitionKey(d)
    case ModifyRefresh(r, _) => KeyText(MaterializedViewKind, r) + ":refresh"
    case AddPart(r, p, _) => KeyText(TableKind, r) + ":" + PartText(p)
    case ModifyPart(r, p, _) => KeyText(TableKind, r) + ":" + PartText(p)
    case RemoveCodec(r, n) => KeyText(TableKind, r) + ":" + PartText(Member(Columns, n))
    case RemovePart(r, p) => KeyText(TableKind, r) + ":" + PartText(p)
  }

  function Rank(op: Op): nat {
    match op
    case Drop(_, _) => 0
    case CreateDatabase(_) => 2
    case Create(d, _) => if d.Table? then 3 else if d.View? then 4 else 5
    case _ => 1
  }

  // ----- what two definitions of one object differ in -----

  function AddOps(r: Ref, g: Group, items: seq<Item>): seq<Op> {
    if items == [] then []
    else
      var last := items[|items| - 1];
      AddOps(r, g, items[..|items| - 1]) + [AddPart(r, Member(g, last.name), Held(last.value))]
  }

  function RemoveOps(r: Ref, g: Group, items: seq<Item>): seq<Op> {
    if items == [] then []
    else RemoveOps(r, g, items[..|items| - 1]) + [RemovePart(r, Member(g, items[|items| - 1].name))]
  }

  /** Only the codec goes: everything else of the column is equal. */
  predicate IsCodecRemoval(before: Value, after: Value) {
    before.ColumnText? && after.ColumnText? && before.codec.Some? && after.codec.None? && before.rest == after.rest
  }

  /** A changed column is modified in place; a changed index or projection is dropped and added. */
  function ChangeOp(r: Ref, g: Group, c: Change): seq<Op> {
    if g.Columns? then
      [if IsCodecRemoval(c.before, c.after) then RemoveCodec(r, c.name) else ModifyPart(r, Member(g, c.name), Held(c.after))]
    else [RemovePart(r, Member(g, c.name)), AddPart(r, Member(g, c.name), Held(c.after))]
  }

  function ChangeOps(r: Ref, g: Group, changes: seq<Change>): seq<Op> {
    if changes == [] then []
    else ChangeOps(r, g, changes[..|changes| - 1]) + ChangeOp(r, g, changes[|changes| - 1])
  }

  function GroupOps(r: Ref, g: Group, before: seq<Item>, after: seq<Item>): seq<Op> {
    AddOps(r, g, Added(before, after)) + ChangeOps(r, g, Changed(before, after)) + RemoveOps(r, g, Removed(before, after))
  }

  function SettingOps(r: Ref, changes: seq<SettingChange>): seq<Op> {
    if changes == [] then []
    else
      SettingOps(r, changes[..|changes| - 1])
      + match changes[|changes| - 1]
        case ModifySetting(k, v) => [ModifyPart(r, Setting(k), Plain(v))]
        case ResetSetting(k) => [RemovePart(r, Setting(k))]
  }

  function OrEmpty(t: Option<string>): string {
    if t.Some? then t.value else ""
  }

  function TtlOps(r: Ref, before: Option<string>, after: Option<string>): seq<Op> {
    if OrEmpty(before) == OrEmpty(after) then []
    else if after.Some? then [ModifyPart(r, Ttl, Plain(after.value))]
    else [RemovePart(r, Ttl)]
  }

  /** `diffTables`: engine and keys force a recreate, everything else is altered. */
  function TableOps(o: Definition, n: Definition): seq<Op>
    requires o.Table? && n.Table?
  {
    if o.shape != n.shape then [Drop(TableKind, n.ref), Create(n, false)]
    else
      GroupOps(n.ref, Columns, o.columns, n.columns)
      + GroupOps(n.ref, Indexes, o.indexes, n.indexes)
      + GroupOps(n.ref, Projections, o.projections, n.projections)
      + SettingOps(n.ref, ChangesFor(SettingKeys(o.settings, n.settings), o.settings, n.settings))
      + TtlOps(n.ref, o.ttl, n.ttl)
  }

  predicate Appends(d: Definition)
    requires d.MaterializedView?
  {
    d.refresh.Some? && d.refresh.value.append
  }

  /** `diffMaterializedView`: a changed refresh rule alone is altered in place. */
  function MaterializedViewOps(o: Definition, n: Definition): seq<Op>
    requires o.MaterializedView? && n.MaterializedView?
  {
    if n.body != o.body || n.target != o.target || o.refresh.Some? != n.refresh.Some? || Appends(o) != Appends(n) then
      [Drop(MaterializedViewKind, n.ref), Create(n, false)]
    else if n.refresh.Some? && o.refresh != n.refresh then [ModifyRefresh(n.ref, n.refresh.value)]
    else []
  }

  predicate IsHidden(source: string) {
    |source| >= 8 && (source[..8] == "[HIDDEN]" || IsHidden(source[1..]))
  }

  /** `diffDictionary`: a hidden source is not compared; a dictionary is replaced, never dropped. */
  function DictionaryOps(o: Definition, n: Definition): seq<Op>
    requires o.Dictionary? && n.Dictionary?
  {
    if o.rest == n.rest && (IsHidden(n.source) || o.source == n.source) then [] else [Create(n, true)]
  }

  function DiffOps(o: Definition, n: Definition): seq<Op> {
    if o.Table? && n.Table? then TableOps(o, n)
    else if o.View? && n.View? then
      if n.body != o.body then [Drop(ViewKind, o.ref), Create(n, false)] else []
    else if o.MaterializedView? && n.MaterializedView? then MaterializedViewOps(o, n)
    else if o.Dictionary? && n.Dictionary? then DictionaryOps(o, n)
    else [Drop(KindOf(o), o.ref)]
  }

  // ----- what the planner emits -----

  function DropsEmitted(before: seq<Definition>, after: seq<Definition>): seq<Op> {
    if before == [] then []
    else
      var d := before[|before| - 1];
      DropsEmitted(before[..|before| - 1], after)
      + if Find(after, DefinitionKey(d)).None? then [Drop(KindOf(d), d.ref)] else []
  }

  function DiffsEmitted(before: seq<Definition>, after: seq<Definition>): seq<Op> {
    if after == [] then []
    else
      var n := after[|after| - 1];
      var o := Find(before, DefinitionKey(n));
      DiffsEmitted(before, after[..|after| - 1]) + if o.Some? then DiffOps(o.value, n) else []
  }

  predicate IsNew(before: seq<Definition>, n: Definition) {
    var o := Find(before, DefinitionKey(n));
    o.None? || KindOf(o.value) != KindOf(n)
  }

  function CreatesEmitted(before: seq<Definition>, after: seq<Definition>): seq<Op> {
    if after == [] then []
    else
      var n := after[|after| - 1];
      CreatesEmitted(before, after[..|after| - 1]) + if IsNew(before, n) then [Create(n, false)] else []
  }

  /** The databases of everything created, each once. */
  function NewDatabases(before: seq<Definition>, after: seq<Definition>): seq<string> {
    if after == [] then []
    else
      var n := after[|after| - 1];
      var rest := NewDatabases(before, after[..|after| - 1]);
      if IsNew(before, n) then AddOnce(rest, n.ref.database) else rest
  }

  function DatabaseOps(names: seq<string>): seq<Op> {
    if names == [] then [] else DatabaseOps(names[..|names| - 1]) + [CreateDatabase(names[|names| - 1])]
  }

  function Emitted(leq: (string, string) -> bool, before: seq<Definition>, after: seq<Definition>): seq<Op> {
    DropsEmitted(before, after) + DiffsEmitted(before, after) + CreatesEmitted(before, after)
    + DatabaseOps(Sort(leq, NewDatabases(before, after)))
  }

  // ----- the order -----

  predicate CreatesMv(op: Op) {
    op.Create? && op.def.MaterializedView?
  }

  function DepthOf(depth: map<string, nat>, op: Op): nat {
    if OpKey(op) in depth then depth[OpKey(op)] else 0
  }

  /** The comparator of the final sort: rank, then depth among materialized views, then key. */
  predicate Before(leq: (string, string) -> bool, depth: map<string, nat>, a: Op, b: Op) {
    if Rank(a) != Rank(b) then Rank(a) < Rank(b)
    else if CreatesMv(a) && CreatesMv(b) && DepthOf(depth, a) != DepthOf(depth, b) then DepthOf(depth, a) < DepthOf(depth, b)
    else leq(OpKey(a), OpKey(b))
  }

  /** `localeCompare` as the planner uses it: a total preorder that puts dictionary keys before view keys. */
  ghost predicate Locale(leq: (string, string) -> bool) {
    && TotalPreorder(leq)
    && forall a: Ref, b: Ref :: !leq(KeyText(MaterializedViewKind, b), KeyText(DictionaryKind, a))
  }

  lemma BeforeIsTotal(leq: (string, string) -> bool, depth: map<string, nat>, a: Op, b: Op)
    requires Locale(leq)
    ensures Before(leq, depth, a, b) || Before(leq, depth, b, a)
  {
    hide TotalPreorder, KeyText;
    Total(leq, OpKey(a), OpKey(b));
  }

  lemma DictionaryComesFirst(leq: (string, string) -> bool, depth: map<string, nat>, a: Op, b: Op)
    requires Locale(leq) && Rank(a) == 5 && Rank(b) == 5 && CreatesMv(a) && !CreatesMv(b)
    ensures !Before(leq, depth, a, b)
  {
    hide TotalPreorder, KeyText;
  }

  lemma BeforeIsTransitive(leq: (string, string) -> bool, depth: map<string, nat>, a: Op, b: Op, c: Op)
    requires Locale(leq) && Before(leq, depth, a, b) && Before(leq, depth, b, c)
    ensures Before(leq, depth, a, c)
  {
    if Rank(a) == Rank(b) == Rank(c) {
      if CreatesMv(a) && CreatesMv(c) && !CreatesMv(b) {
        DictionaryComesFirst(leq, depth, a, b);
        assert false;
      } else if CreatesMv(a) && !CreatesMv(b) {
        DictionaryComesFirst(leq, depth, a, b);
        assert false;
      } else if CreatesMv(b) && !CreatesMv(c) {
        DictionaryComesFirst(leq, depth, b, c);
        assert false;
      } else {
        hide KeyText;
        assert TotalPreorder(leq);
        hide TotalPreorder, Locale;
        if leq(OpKey(a), OpKey(b)) && leq(OpKey(b), OpKey(c)) {
          Transitive(leq, OpKey(a), OpKey(b), OpKey(c));
        }
      }
    }
  }

  /** The comparator is a total preorder, so the stable sort by it is well defined. */
  lemma BeforeIsPreorder(leq: (string, string) -> bool, depth: map<string, nat>)
    requires Locale(leq)
    ensures TotalPreorder((a, b) => Before(leq, depth, a, b))
  {
    forall a, b ensures Before(leq, depth, a, b) || Before(leq, depth, b, a) {
      BeforeIsTotal(leq, depth, a, b);
    }
    forall a, b, c | Before(leq, depth, a, b) && Before(leq, depth, b, c) ensures Before(leq, depth, a, c) {
      BeforeIsTransitive(leq, depth, a, b, c);
    }
  }

  // ----- the planner's loops -----

  /** The graph of the depth search: every materialized view of the target and the keys it depends on. */
  ghost predicate IsGraph(g: Graph, after: seq<Definition>) {
    forall k :: k in g <==> Find(after, k).Some? && Find(after, k).value.MaterializedView?
  }

  function DependencyKeys(refs: seq<Ref>): seq<string> {
    if refs == [] then [] else DependencyKeys(refs[..|refs| - 1]) + [KeyText(MaterializedViewKind, refs[|refs| - 1])]
  }

  function KeysBehind(d: Definition): seq<string> {
    if d.MaterializedView? && d.refresh.Some? then DependencyKeys(d.refresh.value.dependsOn) else []
  }

  /** The dependency edges among the definitions, as the search follows them. */
  ghost predicate HoldsEdges(g: Graph, after: seq<Definition>) {
    && IsGraph(g, after)
    && forall k :: k in g ==> g[k] == KeysBehind(Find(after, k).value)
  }

  lemma {:induction false} FindHasKey(defs: seq<Definition>, key: string)
    ensures Find(defs, key).Some? ==> DefinitionKey(Find(defs, key).value) == key && Find(defs, key).value in defs
  {
    if defs != [] && DefinitionKey(defs[|defs| - 1]) != key {
      FindHasKey(defs[..|defs| - 1], key);
    }
  }

  lemma KeyKind(d: Definition, e: Definition)
    requires DefinitionKey(d) == DefinitionKey(e)
    ensures KindOf(d) == KindOf(e)
  {
    assert DefinitionKey(d)[0] == KindText(KindOf(d))[0] && DefinitionKey(e)[0] == KindText(KindOf(e))[0];
  }

  lemma KindIsInKey(d: Definition, defs: seq<Definition>)
    ensures Find(defs, DefinitionKey(d)).Some? ==> KindOf(Find(defs, DefinitionKey(d)).value) == KindOf(d)
  {
    FindHasKey(defs, DefinitionKey(d));
    if Find(defs, DefinitionKey(d)).Some? {
      KeyKind(d, Find(defs, DefinitionKey(d)).value);
    }
  }

  method BuildGraph(after: seq<Definition>) returns (g: Graph, keys: seq<string>)
    ensures HoldsEdges(g, after)
    ensures forall k :: k in keys <==> k in g
  {
    g, keys := map[], [];
    for i := 0 to |after|
      invariant HoldsEdges(g, after[..i])
      invariant forall k :: k in keys <==> k in g
    {
      assert after[..i + 1] == after[..i] + [after[i]];
      hide *;
      GraphStep(g, after[..i], after[i]);
      if after[i].MaterializedView? {
        var key := DefinitionKey(after[i]);
        if key !in g {
          keys := keys + [key];
        }
        g := g[key := KeysBehind(after[i])];
      }
    }
    assert after[..|after|] == after;
  }

  lemma GraphStep(g: Graph, front: seq<Definition>, d: Definition)
    requires HoldsEdges(g, front)
    ensures HoldsEdges(if d.MaterializedView? then g[DefinitionKey(d) := KeysBehind(d)] else g, front + [d])
  {
    KindIsInKey(d, front);
    hide DefinitionKey, KindText, KeysBehind;
    assert (front + [d])[..|front|] == front;
  }

  /** `createMap` and its look-ups. */
  method CreateMap(defs: seq<Definition>) returns (byKey: map<string, Definition>)
    ensures IsMapOf(byKey, defs)
  {
    byKey := map[];
    for i := 0 to |defs|
      invariant IsMapOf(byKey, defs[..i])
    {
      assert defs[..i + 1][..i] == defs[..i];
      byKey := byKey[DefinitionKey(defs[i]) := defs[i]];
    }
    assert defs[..|defs|] == defs;
  }

  ghost predicate IsMapOf(byKey: map<string, Definition>, defs: seq<Definition>) {
    forall k :: (k in byKey <==> Find(defs, k).Some?) && (k in byKey ==> Find(defs, k) == Some(byKey[k]))
  }

  /** What left the schema is dropped. */
  method EmitDrops(before: seq<Definition>, after: seq<Definition>, newMap: map<string, Definition>) returns (ops: seq<Op>)
    requires IsMapOf(newMap, after)
    ensures ops == DropsEmitted(before, after)
  {
    hide DefinitionKey, Find;
    ops := [];
    for i := 0 to |before|
      invariant ops == DropsEmitted(before[..i], after)
    {
      assert before[..i + 1][..i] == before[..i];
      if DefinitionKey(before[i]) !in newMap {
        ops := ops + [Drop(KindOf(before[i]), before[i].ref)];
      }
    }
    assert before[..|before|] == before;
  }

  /** What stayed is compared. */
  method EmitDiffs(before: seq<Definition>, after: seq<Definition>, oldMap: map<string, Definition>) returns (ops: seq<Op>)
    requires IsMapOf(oldMap, before)
    ensures ops == DiffsEmitted(before, after)
  {
    hide DefinitionKey, DiffOps, Find;
    ops := [];
    for i := 0 to |after|
      invariant ops == DiffsEmitted(before, after[..i])
    {
      assert after[..i + 1][..i] == after[..i];
      if DefinitionKey(after[i]) in oldMap {
        ops := ops + DiffOps(oldMap[DefinitionKey(after[i])], after[i]);
      }
    }
    assert after[..|after|] == after;
  }

  /** What is new is created, and its database with it. */
  method EmitCreates(before: seq<Definition>, after: seq<Definition>, oldMap: map<string, Definition>) returns (ops: seq<Op>, databases: seq<string>)
    requires IsMapOf(oldMap, before)
    ensures ops == CreatesEmitted(before, after) && databases == NewDatabases(before, after)
  {
    hide DefinitionKey, Find, AddOnce;
    ops, databases := [], [];
    for i := 0 to |after|
      invariant ops == CreatesEmitted(before, after[..i]) && databases == NewDatabases(before, after[..i])
    {
      assert after[..i + 1][..i] == after[..i];
      var key := DefinitionKey(after[i]);
      if key !in oldMap || KindOf(oldMap[key]) != KindOf(after[i]) {
        databases := AddOnce(databases, after[i].ref.database);
        ops := ops + [Create(after[i], false)];
      }
    }
    assert after[..|after|] == after;
  }

  /** The planned operations: everything emitted, in the comparator's order. */
  function Planned(leq: (string, string) -> bool, depth: map<string, nat>, emitted: seq<Op>): seq<Op> {
    Sort((a, b) => Before(leq, depth, a, b), emitted)
  }

  /** `planDiff` on canonical schemas. */
  method PlanDiff(leq: (string, string) -> bool, before: seq<Definition>, after: seq<Definition>)
    returns (ops: seq<Op>, depth: map<string, nat>, g: Graph)
    ensures ops == Planned(leq, depth, Emitted(leq, before, after))
    ensures HoldsEdges(g, after) && g.Keys <= depth.Keys
    ensures forall k, d :: DependsOn(g, k, d) && !OnCycle(g, k) ==> depth[k] > depth[d]
  {
    var oldMap := CreateMap(before);
    var newMap := CreateMap(after);
    var drops := EmitDrops(before, after, newMap);
    var diffs := EmitDiffs(before, after, oldMap);
    var creates, databases := EmitCreates(before, after, oldMap);
    var graph, keys := BuildGraph(after);
    g := graph;
    depth := CreationDepth(graph, keys);
    ops := Planned(leq, depth, drops + diffs + creates + DatabaseOps(Sort(leq, databases)));
  }

  lemma PlannedIsSorted(leq: (string, string) -> bool, depth: map<string, nat>, emitted: seq<Op>, i: nat, j: nat)
    requires Locale(leq) && i < j < |Planned(leq, depth, emitted)|
    ensures Before(leq, depth, Planned(leq, depth, emitted)[i], Planned(leq, depth, emitted)[j])
  {
    hide Before, Locale, Sort, TotalPreorder;
    BeforeIsPreorder(leq, depth);
    SortSorts((a, b) => Before(leq, depth, a, b), emitted);
  }

  /**
   A materialized view that is not itself on a dependency cycle is created after every dependency that
   the plan also creates.
   */
  lemma CreatedAfterDependencies(leq: (string, string) -> bool, depth: map<string, nat>, g: Graph, emitted: seq<Op>, i: nat, j: nat)
    requires Locale(leq) && i < |Planned(leq, depth, emitted)| && j < |Planned(leq, depth, emitted)|
    requires g.Keys <= depth.Keys && forall k, d :: DependsOn(g, k, d) && !OnCycle(g, k) ==> depth[k] > depth[d]
    requires CreatesMv(Planned(leq, depth, emitted)[i]) && CreatesMv(Planned(leq, depth, emitted)[j])
    requires DependsOn(g, OpKey(Planned(leq, depth, emitted)[i]), OpKey(Planned(leq, depth, emitted)[j]))
    requires !OnCycle(g, OpKey(Planned(leq, depth, emitted)[i]))
    ensures j < i
  {
    hide Planned, OpKey, OnCycle, Locale;
    var sorted := Planned(leq, depth, emitted);
    assert DepthOf(depth, sorted[i]) > DepthOf(depth, sorted[j]);
    if i < j {
      PlannedIsSorted(leq, depth, emitted, i, j);
    }
  }
}
