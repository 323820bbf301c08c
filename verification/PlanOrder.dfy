/**
 The order of a plan, said without the comparator's ranks: which operation may stand before which, and what
 is already in place when the query of a view, a materialized view or a dictionary is deployed.
 */
module PlanOrder {
  import opened Wrappers
  import opened StableSort
  import opened DiffPrimitives
  import opened DependencyDepth
  import opened Planner
  import opened PlanReplay
  import opened PlanFacts

  /** Statements that alter an object in place. */
  predicate Alters(op: Op) {
    !op.Drop? && !op.CreateDatabase? && !op.Create?
  }

  predicate CreatesTable(op: Op) {
    op.Create? && op.def.Table?
  }

  predicate CreatesView(op: Op) {
    op.Create? && op.def.View?
  }

  predicate SameStage(a: Op, b: Op) {
    || (a.Drop? && b.Drop?) || (Alters(a) && Alters(b)) || (a.CreateDatabase? && b.CreateDatabase?)
    || (CreatesTable(a) && CreatesTable(b)) || (CreatesView(a) && CreatesView(b))
    || (a.Create? && b.Create? && !CreatesTable(a) && !CreatesTable(b) && !CreatesView(a) && !CreatesView(b))
  }

  /**
   Drops, alterations, databases, tables, views, then everything else; materialized views that are less deep
   first; keys decide the rest.
   */
  lemma PlannedOrder(leq: (string, string) -> bool, depth: map<string, nat>, emitted: seq<Op>, i: nat, j: nat)
    requires Locale(leq) && i < j < |Planned(leq, depth, emitted)|
    ensures var a, b := Planned(leq, depth, emitted)[i], Planned(leq, depth, emitted)[j];
      && (b.Drop? ==> a.Drop?)
      && (Alters(b) ==> a.Drop? || Alters(a))
      && (b.CreateDatabase? ==> !a.Create?)
      && (CreatesTable(b) ==> a.Create? ==> CreatesTable(a))
      && (CreatesView(b) ==> a.Create? ==> CreatesTable(a) || CreatesView(a))
      && (CreatesMv(a) && CreatesMv(b) && OpKey(a) in depth && OpKey(b) in depth ==>
            depth[OpKey(a)] < depth[OpKey(b)] || (depth[OpKey(a)] == depth[OpKey(b)] && leq(OpKey(a), OpKey(b))))
      && (SameStage(a, b) && !(CreatesMv(a) && CreatesMv(b)) ==> leq(OpKey(a), OpKey(b)))
  {
    hide Locale, OpKey, Planned;
    PlannedIsSorted(leq, depth, emitted, i, j);
  }

  /** What the query of a new object may read: tables, and beneath materialized views and dictionaries views as well. */
  predicate MayRead(d: Definition, t: Definition) {
    (t.Table? && !d.Table?) || (t.View? && (d.MaterializedView? || d.Dictionary?))
  }

  /** A dependency that a materialized view names, off any cycle. */
  ghost predicate WaitsFor(g: Graph, d: Definition, t: Definition) {
    && d.MaterializedView? && d.refresh.Some? && t.MaterializedView? && t.ref in d.refresh.value.dependsOn
    && !OnCycle(g, DefinitionKey(d))
  }

  /** The depths the search leaves. */
  ghost predicate DeepEnough(g: Graph, depth: map<string, nat>) {
    g.Keys <= depth.Keys && forall k, d :: DependsOn(g, k, d) && !OnCycle(g, k) ==> depth[k] > depth[d]
  }

  /** What the planner emits on a name is a drop, an alteration, or the creation of the new definition. */
  lemma ExpectedKinds(o: Option<Definition>, n: Definition, r: Ref, p: Part, op: Op)
    requires op in ExpectedOps(o, Some(n), r, p) && n.ref == r
    ensures op.Drop? || Alters(op) || (op.Create? && op.def == n)
  {
    hide Lookup, SettingText, IsHidden;
  }

  /** Nothing behind position `i` touches the part: it stays as it is. */
  lemma LeftAlone(cat: Catalogue, ops: seq<Op>, i: nat, r: Ref, p: Part)
    requires i <= |ops| && forall j :: i <= j < |ops| ==> !Touches(ops[j], r, p)
    ensures Run(cat, ops).parts(r, p) == Run(cat, ops[..i]).parts(r, p)
    decreases |ops|
  {
    hide Touches;
    if i == |ops| {
      assert ops[..i] == ops;
    } else {
      var front := ops[..|ops| - 1];
      assert front[..i] == ops[..i];
      LeftAlone(cat, front, i, r, p);
    }
  }

  lemma FindsMember(defs: seq<Definition>, d: Definition)
    requires Valid(defs) && d in defs
    ensures FindRef(defs, d.ref) == Some(d)
  {
    FindRefHas(defs, d.ref);
  }

  lemma {:induction false} NamedKey(refs: seq<Ref>, r: Ref)
    requires r in refs
    ensures KeyText(MaterializedViewKind, r) in DependencyKeys(refs)
  {
    hide KeyText;
    if r != refs[|refs| - 1] {
      NamedKey(refs[..|refs| - 1], r);
    }
  }

  lemma FindsByKey(defs: seq<Definition>, d: Definition)
    requires Validated(defs) && d in defs
    ensures Find(defs, DefinitionKey(d)) == Some(d)
  {
    hide DefinitionKey, Orderly, Find;
    var k :| 0 <= k < |defs| && defs[k] == d;
    FindsAt(defs, k);
  }

  lemma WaitingIsAnEdge(g: Graph, after: seq<Definition>, d: Definition, t: Definition)
    requires HoldsEdges(g, after) && Validated(after) && d in after && t in after && WaitsFor(g, d, t)
    ensures DependsOn(g, DefinitionKey(d), DefinitionKey(t))
  {
    hide OnCycle, Validated, KindText;
    FindsByKey(after, d);
    FindsByKey(after, t);
    NamedKey(d.refresh.value.dependsOn, t.ref);
  }

  lemma SelfEdge(g: Graph, k: string)
    requires DependsOn(g, k, k)
    ensures OnCycle(g, k)
  {
    var p := [k, k];
    assert Path(g, p) && |p| > 1;
  }

  /** Whatever a new object reads or waits for has no statement behind it any more. */
  lemma NothingComesLater(leq: (string, string) -> bool, depth: map<string, nat>, g: Graph, before: seq<Definition>, after: seq<Definition>,
                          i: nat, d: Definition, t: Definition, j: nat, p: Part)
    requires Locale(leq) && Comparable(before, after) && Validated(after) && HoldsEdges(g, after) && DeepEnough(g, depth)
    requires i <= j < |Planned(leq, depth, Emitted(leq, before, after))|
    requires Planned(leq, depth, Emitted(leq, before, after))[i].Create? && Planned(leq, depth, Emitted(leq, before, after))[i].def == d
    requires d in after && t in after && (MayRead(d, t) || WaitsFor(g, d, t))
    ensures !Touches(Planned(leq, depth, Emitted(leq, before, after))[j], t.ref, p)
  {
    hide Locale, Valid, KeysTell, Validated, Planned, Emitted, FindRef, ExpectedOps, Run, FoldPart, Touches, HoldsEdges, OnCycle, DependsOn, DefinitionKey;
    var ops := Planned(leq, depth, Emitted(leq, before, after));
    var b := ops[j];
    if Touches(b, t.ref, p) {
      var f, rest := PlannedSplit(leq, depth, before, after, j, t.ref, p);
      FindsMember(after, t);
      assert b in f + [b] + rest;
      ExpectedKinds(FindRef(before, t.ref), t, t.ref, p, b);
      if i < j {
        PlannedOrder(leq, depth, Emitted(leq, before, after), i, j);
      }
      if !MayRead(d, t) {
        WaitingIsAnEdge(g, after, d, t);
        if i == j {
          SelfEdge(g, DefinitionKey(d));
        } else {
          CreatedAfterDependencies(leq, depth, g, Emitted(leq, before, after), i, j);
        }
      }
    }
  }

  /**
   When a plan creates an object, every table of the target schema that it may read is there, and beneath
   materialized views and dictionaries every view, and whatever it waits for: each as the target says, part by part.
   */
  lemma CreatedOverItsSources(leq: (string, string) -> bool, depth: map<string, nat>, g: Graph, before: seq<Definition>, after: seq<Definition>,
                              i: nat, t: Definition, p: Part)
    requires Locale(leq) && Comparable(before, after) && Validated(after) && HoldsEdges(g, after) && DeepEnough(g, depth)
    requires i < |Planned(leq, depth, Emitted(leq, before, after))| && Planned(leq, depth, Emitted(leq, before, after))[i].Create?
    requires t in after
    requires MayRead(Planned(leq, depth, Emitted(leq, before, after))[i].def, t)
      || WaitsFor(g, Planned(leq, depth, Emitted(leq, before, after))[i].def, t)
    ensures var there := Run(CatalogueOf(before), Planned(leq, depth, Emitted(leq, before, after))[..i]);
      there.parts(t.ref, p) == Show(t, p) <==> !BlankTtl(FindRef(before, t.ref), Some(t), p)
  {
    var ops := Planned(leq, depth, Emitted(leq, before, after));
    var d := ops[i].def;
    hide Locale, Valid, KeysTell, Validated, Planned, Emitted, Run, Touches, HoldsEdges, DeepEnough, OnCycle, DefinitionKey, BlankTtl, Show,
         FindRef, MayRead, WaitsFor, IsHidden;
    CreatedIsNew(leq, depth, before, after, i);
    forall j | i <= j < |ops| ensures !Touches(ops[j], t.ref, p) {
      NothingComesLater(leq, depth, g, before, after, i, d, t, j, p);
    }
    LeftAlone(CatalogueOf(before), ops, i, t.ref, p);
    FindsMember(after, t);
    ReplayReachesTarget(leq, depth, before, after, t.ref, p);
  }

  /** Whatever a plan creates is a definition of the target schema. */
  lemma CreatedIsNew(leq: (string, string) -> bool, depth: map<string, nat>, before: seq<Definition>, after: seq<Definition>, i: nat)
    requires Locale(leq) && Comparable(before, after) && i < |Planned(leq, depth, Emitted(leq, before, after))|
    requires Planned(leq, depth, Emitted(leq, before, after))[i].Create?
    ensures Planned(leq, depth, Emitted(leq, before, after))[i].def in after
  {
    hide Locale, Comparable, Planned, Emitted, FindRef, ExpectedOps, Run, FoldPart;
    var op := Planned(leq, depth, Emitted(leq, before, after))[i];
    var r := op.def.ref;
    var f, rest := PlannedSplit(leq, depth, before, after, i, r, Body);
    FindRefHas(before, r);
    FindRefHas(after, r);
    CreateIsTheTarget(FindRef(before, r), FindRef(after, r), r, f, op, rest);
  }

  /** The server accepts the statement, and what a created object reads or waits for is there in its new shape. */
  ghost predicate Accepted(cat: Catalogue, g: Graph, after: seq<Definition>, op: Op) {
    && Legal(cat, op)
    && (op.Create? ==> forall t :: t in after && (MayRead(op.def, t) || WaitsFor(g, op.def, t)) ==> cat.parts(t.ref, Body) == Show(t, Body))
  }

  /** Every statement of a plan is accepted where it stands, but one that sets an empty TTL. */
  lemma EveryStatementIsAccepted(leq: (string, string) -> bool, depth: map<string, nat>, g: Graph, before: seq<Definition>, after: seq<Definition>, i: nat)
    requires Locale(leq) && Comparable(before, after) && Validated(after) && HoldsEdges(g, after) && DeepEnough(g, depth)
    requires i < |Planned(leq, depth, Emitted(leq, before, after))|
    ensures Accepted(Run(CatalogueOf(before), Planned(leq, depth, Emitted(leq, before, after))[..i]), g, after,
                     Planned(leq, depth, Emitted(leq, before, after))[i])
      <==> !SetsBlankTtl(Planned(leq, depth, Emitted(leq, before, after))[i])
  {
    hide Locale, Comparable, Validated, Planned, Emitted, Run, HoldsEdges, DeepEnough, Legal, SetsBlankTtl, Show, CatalogueOf, MayRead, WaitsFor, FindRef;
    var ops := Planned(leq, depth, Emitted(leq, before, after));
    EveryStatementIsLegal(leq, depth, before, after, i);
    if ops[i].Create? {
      forall t | t in after && (MayRead(ops[i].def, t) || WaitsFor(g, ops[i].def, t))
        ensures Run(CatalogueOf(before), ops[..i]).parts(t.ref, Body) == Show(t, Body)
      {
        CreatedOverItsSources(leq, depth, g, before, after, i, t, Body);
      }
    }
  }
}
