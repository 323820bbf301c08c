/**
 What follows from replay about whole plans: when a plan is empty, when a plan can reach its target at
 all, and when a placeholder source is deployed.
 */
module PlanFacts {
  import opened Wrappers
  import opened StableSort
  import opened DiffPrimitives
  import opened Planner
  import opened PlanReplay

  // ----- equal schemas -----

  lemma {:induction false} NothingAdded(all: seq<Item>, items: seq<Item>)
    requires forall x :: x in items ==> Lookup(all, x.name) == Some(x.value)
    ensures Added(all, items) == [] && Changed(all, items) == [] && Removed(items, all) == []
  {
    if items != [] {
      NothingAdded(all, items[..|items| - 1]);
      assert items[|items| - 1] in items;
    }
  }

  lemma GroupUnchanged(r: Ref, g: Group, items: seq<Item>)
    requires UniqueNames(items)
    ensures GroupOps(r, g, items, items) == []
  {
    forall x | x in items ensures Lookup(items, x.name) == Some(x.value) {
      UniqueLookup(items, x);
    }
    NothingAdded(items, items);
  }

  lemma {:induction false} NoSettingChanges(keys: seq<string>, items: seq<Item>)
    ensures ChangesFor(keys, items, items) == []
  {
    if keys != [] {
      NoSettingChanges(keys[..|keys| - 1], items);
    }
  }

  /** Nothing is planned between an object and the same object under another name. */
  lemma DiffOfSame(d: Definition, r: Ref)
    requires Orderly(d)
    ensures DiffOps(d, d.(ref := r)) == []
  {
    if d.Table? {
      GroupUnchanged(r, Columns, d.columns);
      GroupUnchanged(r, Indexes, d.indexes);
      GroupUnchanged(r, Projections, d.projections);
      NoSettingChanges(SettingKeys(d.settings, d.settings), d.settings);
      hide GroupOps, ChangesFor, SettingKeys, UniqueNames;
    }
  }

  /** No key twice, which is what schema validation asks of a list, and no member name twice. */
  predicate Validated(defs: seq<Definition>) {
    && (forall i, j :: 0 <= i < j < |defs| ==> DefinitionKey(defs[i]) != DefinitionKey(defs[j]))
    && (forall i :: 0 <= i < |defs| ==> Orderly(defs[i]))
  }

  lemma {:induction false} FindsAt(defs: seq<Definition>, k: nat)
    requires k < |defs| && forall i, j :: 0 <= i < j < |defs| ==> DefinitionKey(defs[i]) != DefinitionKey(defs[j])
    ensures Find(defs, DefinitionKey(defs[k])) == Some(defs[k])
  {
    hide DefinitionKey;
    if k < |defs| - 1 {
      FindsAt(defs[..|defs| - 1], k);
    }
  }

  /** Equal for the planner: an empty TTL is no TTL. */
  predicate Alike(o: Definition, n: Definition) {
    o == n || (o.Table? && n.Table? && o == n.(ttl := o.ttl) && OrEmpty(o.ttl) == OrEmpty(n.ttl))
  }

  lemma DiffOfAlike(o: Definition, n: Definition)
    requires Orderly(n) && Alike(o, n)
    ensures DiffOps(o, n) == [] && DefinitionKey(o) == DefinitionKey(n) && KindOf(o) == KindOf(n)
  {
    DiffOfSame(n, n.ref);
    assert n.(ref := n.ref) == n;
    hide GroupOps, SettingOps, ChangesFor, SettingKeys, UniqueNames;
    if o.Table? && n.Table? {
      AllEmpty(GroupOps(n.ref, Columns, n.columns, n.columns), GroupOps(n.ref, Indexes, n.indexes, n.indexes),
               GroupOps(n.ref, Projections, n.projections, n.projections),
               SettingOps(n.ref, ChangesFor(SettingKeys(n.settings, n.settings), n.settings, n.settings)), TtlOps(n.ref, n.ttl, n.ttl));
    }
  }

  lemma AllEmpty(a: seq<Op>, b: seq<Op>, c: seq<Op>, d: seq<Op>, e: seq<Op>)
    requires a + b + c + d + e == []
    ensures a == [] && b == [] && c == [] && d == [] && e == []
  {
    assert |a + b + c + d + e| == |a| + |b| + |c| + |d| + |e|;
  }

  /** Two schemas that are alike definition by definition. */
  predicate AllAlike(before: seq<Definition>, after: seq<Definition>) {
    |before| == |after| && forall i :: 0 <= i < |after| ==> Alike(before[i], after[i])
  }

  lemma AlikeAt(before: seq<Definition>, after: seq<Definition>, k: nat)
    requires Validated(after) && AllAlike(before, after) && k < |after|
    ensures DefinitionKey(before[k]) == DefinitionKey(after[k]) && KindOf(before[k]) == KindOf(after[k]) && DiffOps(before[k], after[k]) == []
    ensures Find(after, DefinitionKey(before[k])) == Some(after[k]) && Find(before, DefinitionKey(after[k])) == Some(before[k])
  {
    hide Alike, Orderly, DiffOps, Find, DefinitionKey;
    forall i | 0 <= i < |after| ensures DefinitionKey(before[i]) == DefinitionKey(after[i]) && KindOf(before[i]) == KindOf(after[i]) && DiffOps(before[i], after[i]) == [] {
      DiffOfAlike(before[i], after[i]);
    }
    FindsAt(after, k);
    FindsAt(before, k);
  }

  lemma NoDrop(front: seq<Definition>, d: Definition, after: seq<Definition>)
    requires DropsEmitted(front, after) == [] && Find(after, DefinitionKey(d)).Some?
    ensures DropsEmitted(front + [d], after) == []
  {
    hide DefinitionKey, Find;
    assert (front + [d])[..|front|] == front;
  }

  lemma NoDiff(before: seq<Definition>, front: seq<Definition>, o: Definition, d: Definition)
    requires DiffsEmitted(before, front) == [] && CreatesEmitted(before, front) == [] && NewDatabases(before, front) == []
    requires Find(before, DefinitionKey(d)) == Some(o) && KindOf(o) == KindOf(d) && DiffOps(o, d) == []
    ensures DiffsEmitted(before, front + [d]) == [] && CreatesEmitted(before, front + [d]) == [] && NewDatabases(before, front + [d]) == []
  {
    hide DefinitionKey, Find, DiffOps;
    assert (front + [d])[..|front|] == front;
  }

  lemma NothingOfNothing(before: seq<Definition>, after: seq<Definition>)
    ensures DropsEmitted([], after) == [] && DiffsEmitted(before, []) == [] && CreatesEmitted(before, []) == [] && NewDatabases(before, []) == []
  {
  }

  lemma SameLength(before: seq<Definition>, after: seq<Definition>)
    requires AllAlike(before, after)
    ensures |before| == |after|
  {
  }

  lemma {:induction false} NothingEmitted(before: seq<Definition>, after: seq<Definition>, k: nat)
    requires Validated(after) && AllAlike(before, after) && k <= |after|
    ensures DropsEmitted(before[..k], after) == [] && DiffsEmitted(before, after[..k]) == []
    ensures CreatesEmitted(before, after[..k]) == [] && NewDatabases(before, after[..k]) == []
  {
    hide *;
    SameLength(before, after);
    if k == 0 {
      assert before[..0] == [] && after[..0] == [];
      NothingOfNothing(before, after);
    } else {
      NothingEmitted(before, after, k - 1);
      AlikeAt(before, after, k - 1);
      assert before[..k] == before[..k - 1] + [before[k - 1]] && after[..k] == after[..k - 1] + [after[k - 1]];
      NoDrop(before[..k - 1], before[k - 1], after);
      NoDiff(before, after[..k - 1], before[k - 1], after[k - 1]);
    }
  }

  /** Schemas that are alike plan nothing. */
  lemma AlikePlansNothing(leq: (string, string) -> bool, before: seq<Definition>, after: seq<Definition>)
    requires Validated(after) && AllAlike(before, after)
    ensures Emitted(leq, before, after) == []
  {
    hide Validated, Alike;
    NothingEmitted(before, after, |after|);
    assert before[..|after|] == before && after[..|after|] == after;
  }

  /** A schema that did not change plans nothing. */
  lemma SameSchemaPlansNothing(leq: (string, string) -> bool, defs: seq<Definition>)
    requires Validated(defs)
    ensures Emitted(leq, defs, defs) == []
  {
    hide Validated, Emitted;
    AlikePlansNothing(leq, defs, defs);
  }

  // ----- when a target can be reached -----

  /** No two objects, of whatever kinds, share a name. */
  predicate NamesDistinct(defs: seq<Definition>) {
    forall i, j :: 0 <= i < j < |defs| ==> defs[i].ref != defs[j].ref
  }

  /** Every definition is there with every part of it, up to a placeholder source. */
  ghost predicate Holds(cat: Catalogue, defs: seq<Definition>) {
    forall d, p | d in defs :: cat.parts(d.ref, p) == Show(d, p) || HiddenSource(Some(d), p)
  }

  lemma BodiesTellKinds(d: Definition)
    ensures KindShown(Show(d, Body)) == Some(KindOf(d)) && !HiddenSource(Some(d), Body)
  {
  }

  lemma OneKindPerName(cat: Catalogue, defs: seq<Definition>, i: nat, j: nat)
    requires Holds(cat, defs) && i < j < |defs| && defs[i].ref == defs[j].ref
    ensures DefinitionKey(defs[i]) == DefinitionKey(defs[j])
  {
    hide Show, HiddenSource;
    BodiesTellKinds(defs[i]);
    BodiesTellKinds(defs[j]);
    assert cat.parts(defs[i].ref, Body) == Show(defs[i], Body);
    assert cat.parts(defs[j].ref, Body) == Show(defs[j], Body);
  }

  /** The TTL of some table that stays turns blank. */
  predicate SomeTtlBlanked(before: seq<Definition>, after: seq<Definition>) {
    exists i :: 0 <= i < |after| && BlankTtl(FindRef(before, after[i].ref), Some(after[i]), Ttl)
  }

  /** What a plan leaves of one definition: all of it, unless its TTL turned blank. */
  lemma DefinitionReached(leq: (string, string) -> bool, depth: map<string, nat>, before: seq<Definition>, after: seq<Definition>, d: Definition, p: Part)
    requires Locale(leq) && Comparable(before, after) && d in after
    ensures HiddenSource(Some(d), p)
      || (Run(CatalogueOf(before), Planned(leq, depth, Emitted(leq, before, after))).parts(d.ref, p) == Show(d, p)
          <==> !BlankTtl(FindRef(before, d.ref), Some(d), p))
  {
    FindByName(after, d);
    hide *;
    ReplayReachesTarget(leq, depth, before, after, d.ref, p);
    ShownByName(after, d, p);
  }

  /**
   A plan for a validated schema reaches it exactly when no two definitions share a name and no TTL turns
   blank. Validation compares keys, which hold the kind, so it lets a table and a view of one name through.
   */
  lemma ReachedIff(leq: (string, string) -> bool, depth: map<string, nat>, before: seq<Definition>, after: seq<Definition>)
    requires Locale(leq) && Valid(before) && Validated(after) && KeysTell(before, after)
    ensures Holds(Run(CatalogueOf(before), Planned(leq, depth, Emitted(leq, before, after))), after)
      <==> NamesDistinct(after) && !SomeTtlBlanked(before, after)
  {
    var reached := Run(CatalogueOf(before), Planned(leq, depth, Emitted(leq, before, after)));
    hide Run, Planned, Emitted, Locale, DefinitionKey, KeysTell, Orderly, FindRef, Show, HiddenSource;
    if NamesDistinct(after) {
      assert Comparable(before, after);
      forall d, p | d in after
        ensures HiddenSource(Some(d), p) || (reached.parts(d.ref, p) == Show(d, p) <==> !BlankTtl(FindRef(before, d.ref), Some(d), p))
      {
        DefinitionReached(leq, depth, before, after, d, p);
      }
      if !SomeTtlBlanked(before, after) {
        NothingBlanked(before, after);
      } else {
        var i :| 0 <= i < |after| && BlankTtl(FindRef(before, after[i].ref), Some(after[i]), Ttl);
        TablesHideNothing(after[i]);
        assert after[i] in after && reached.parts(after[i].ref, Ttl) != Show(after[i], Ttl);
      }
    }
    if Holds(reached, after) {
      forall i, j | 0 <= i < j < |after| ensures after[i].ref != after[j].ref {
        if after[i].ref == after[j].ref {
          OneKindPerName(reached, after, i, j);
        }
      }
    }
  }

  lemma NothingBlanked(before: seq<Definition>, after: seq<Definition>)
    requires !SomeTtlBlanked(before, after)
    ensures forall d, p | d in after :: !BlankTtl(FindRef(before, d.ref), Some(d), p)
  {
    hide FindRef;
    forall d, p | d in after ensures !BlankTtl(FindRef(before, d.ref), Some(d), p) {
      var i :| 0 <= i < |after| && after[i] == d;
      assert !BlankTtl(FindRef(before, after[i].ref), Some(after[i]), Ttl);
    }
  }

  lemma TablesHideNothing(d: Definition)
    ensures !HiddenSource(Some(d), Ttl)
  {
  }

  lemma FindByName(defs: seq<Definition>, d: Definition)
    requires Valid(defs) && d in defs
    ensures FindRef(defs, d.ref) == Some(d)
  {
    hide Orderly;
    FindRefHas(defs, d.ref);
  }

  lemma ShownByName(defs: seq<Definition>, d: Definition, p: Part)
    requires FindRef(defs, d.ref) == Some(d)
    ensures CatalogueOf(defs).parts(d.ref, p) == Show(d, p)
  {
  }

  // ----- names that share a key -----

  lemma OneMoved(leq: (string, string) -> bool, a: Definition, r: Ref)
    requires Orderly(a) && KeyText(KindOf(a), r) == DefinitionKey(a)
    ensures Emitted(leq, [a], [a.(ref := r)]) == []
  {
    var b := a.(ref := r);
    DiffOfSame(a, r);
    assert DefinitionKey(b) == DefinitionKey(a);
    hide DefinitionKey, KeyText, DiffOps, Orderly;
    assert [a][..0] == [] && [b][..0] == [];
    assert Find([a], DefinitionKey(b)) == Some(a) && Find([b], DefinitionKey(a)) == Some(b);
    hide Find;
    assert DropsEmitted([], [b]) == [] && DropsEmitted([a], [b]) == [];
    assert DiffsEmitted([a], []) == [] && DiffsEmitted([a], [b]) == [];
    assert CreatesEmitted([a], []) == [] && CreatesEmitted([a], [b]) == [];
    assert NewDatabases([a], []) == [] && NewDatabases([a], [b]) == [];
  }

  lemma OneNotFound(a: Definition, r: Ref)
    requires r != a.ref
    ensures FindRef([a], r) == None && CatalogueOf([a]).parts(r, Body) == None
  {
    assert [a] == [] + [a];
    FindRefLast([], a, r);
  }

  /** Moving an object to a name with the same key plans nothing, so the new name stays empty. */
  lemma SharedKeyPlansNothing(leq: (string, string) -> bool, depth: map<string, nat>, a: Definition, r: Ref)
    requires Orderly(a) && r != a.ref && KeyText(KindOf(a), r) == DefinitionKey(a)
    ensures var b := a.(ref := r);
      Emitted(leq, [a], [b]) == [] && !Holds(Run(CatalogueOf([a]), Planned(leq, depth, Emitted(leq, [a], [b]))), [b])
  {
    var b := a.(ref := r);
    hide KeyText, Emitted, Orderly;
    OneMoved(leq, a, r);
    OneNotFound(a, r);
    BodiesTellKinds(b);
    hide CatalogueOf, Show, Before, HiddenSource;
    assert Planned(leq, depth, []) == [];
    assert b in [b];
  }

  function Sample(k: Kind, r: Ref): Definition {
    match k
    case TableKind => Table(r, "", [], [], [], [], None)
    case ViewKind => View(r, "")
    case MaterializedViewKind => MaterializedView(r, "", r, None)
    case DictionaryKind => Dictionary(r, "", "")
  }

  lemma OtherKeyReaches(leq: (string, string) -> bool, depth: map<string, nat>, o: Definition, n: Definition)
    requires Locale(leq) && Orderly(o) && Orderly(n) && o.ref != n.ref && DefinitionKey(o) != DefinitionKey(n)
    ensures Holds(Run(CatalogueOf([o]), Planned(leq, depth, Emitted(leq, [o], [n]))), [n])
  {
    OneNotFound(o, n.ref);
    assert KeysTell([o], [n]);
    hide Run, CatalogueOf, Planned, Emitted, Locale, DefinitionKey, KeysTell, Orderly, FindRef;
    ReachedIff(leq, depth, [o], [n]);
  }

  /** One object under the first name, one of its kind under the second. */
  predicate IsMove(k: Kind, a: Ref, b: Ref, o: Definition, n: Definition) {
    KindOf(o) == k && KindOf(n) == k && o.ref == a && n.ref == b && Orderly(o) && Orderly(n)
  }

  /**
   Two names of a kind share a key exactly when some move from one to the other misses its target: with
   dots in database names the keys are ambiguous, and that is the only thing that goes wrong.
   */
  lemma SharedKeyIff(leq: (string, string) -> bool, depth: map<string, nat>, k: Kind, a: Ref, b: Ref)
    requires Locale(leq) && a != b
    ensures KeyText(k, a) == KeyText(k, b)
      <==> exists o, n :: IsMove(k, a, b, o, n) && !Holds(Run(CatalogueOf([o]), Planned(leq, depth, Emitted(leq, [o], [n]))), [n])
  {
    hide KeyText, Run, CatalogueOf, Planned, Emitted, Locale, Holds;
    if KeyText(k, a) == KeyText(k, b) {
      var o := Sample(k, a);
      SharedKeyPlansNothing(leq, depth, o, b);
      assert IsMove(k, a, b, o, o.(ref := b));
    } else {
      forall o, n | IsMove(k, a, b, o, n)
        ensures Holds(Run(CatalogueOf([o]), Planned(leq, depth, Emitted(leq, [o], [n]))), [n])
      {
        OtherKeyReaches(leq, depth, o, n);
      }
    }
  }

  /** Such names exist. */
  lemma DottedKeys(k: Kind)
    ensures KeyText(k, Ref("a.b", "c")) == KeyText(k, Ref("a", "b.c"))
  {
    var head := KindText(k) + ":";
    calc {
      head + "a.b" + "." + "c";
      { assert "a.b" + "." + "c" == "a" + "." + "b.c"; }
      head + "a" + "." + "b.c";
    }
  }

  // ----- a TTL that turns blank -----

  lemma {:induction false} InPart(r: Ref, p: Part, ops: seq<Op>, op: Op)
    requires Touches(op, r, p)
    ensures op in PartOps(r, p, ops) <==> op in ops
  {
    hide Touches;
    if ops != [] {
      var front, last := ops[..|ops| - 1], ops[|ops| - 1];
      assert ops == front + [last];
      InPart(r, p, front, op);
    }
  }

  lemma ExpectedBlank(o: Option<Definition>, n: Option<Definition>, r: Ref)
    requires (o.Some? ==> o.value.ref == r) && (n.Some? ==> n.value.ref == r)
    ensures ModifyPart(r, Ttl, Payload.Plain("")) in ExpectedOps(o, n, r, Ttl) <==> BlankTtl(o, n, Ttl)
  {
    hide Appends, IsHidden, Lookup, SettingText, GroupOps, SettingOps;
  }

  /** An empty TTL is planned exactly when the TTL of a table that stays turns blank. */
  lemma BlankTtlIsPlanned(leq: (string, string) -> bool, before: seq<Definition>, after: seq<Definition>, r: Ref)
    requires Comparable(before, after)
    ensures ModifyPart(r, Ttl, Payload.Plain("")) in Emitted(leq, before, after) <==> BlankTtl(FindRef(before, r), FindRef(after, r), Ttl)
  {
    var op := ModifyPart(r, Ttl, Payload.Plain(""));
    assert Touches(op, r, Ttl);
    hide *;
    InPart(r, Ttl, Emitted(leq, before, after), op);
    EmittedPart(leq, before, after, r, Ttl);
    FindRefHas(before, r);
    FindRefHas(after, r);
    ExpectedBlank(FindRef(before, r), FindRef(after, r), r);
  }

  // ----- the placeholder source -----

  predicate MarkAt(source: string, i: nat) {
    i + 8 <= |source| && source[i..i + 8] == "[HIDDEN]"
  }

  /** A source is a placeholder exactly when the marker stands somewhere in it. */
  lemma {:induction false} HiddenIff(source: string)
    ensures IsHidden(source) <==> exists i: nat :: MarkAt(source, i)
  {
    if |source| >= 8 {
      var rest := source[1..];
      HiddenIff(rest);
      if IsHidden(source) {
        if source[..8] == "[HIDDEN]" {
          assert MarkAt(source, 0);
        } else {
          var i: nat :| MarkAt(rest, i);
          assert source[i + 1..i + 1 + 8] == rest[i..i + 8];
          assert MarkAt(source, i + 1);
        }
      }
      if i: nat :| MarkAt(source, i) {
        if i > 0 {
          assert rest[i - 1..i - 1 + 8] == source[i..i + 8];
          assert MarkAt(rest, i - 1);
        }
      }
    }
  }

  /**
   A placeholder source never causes a replace, but it travels with one: it is deployed exactly when
   something else of the dictionary changed.
   */
  lemma PlaceholderIsDeployed(o: Definition, n: Definition)
    requires o.Dictionary? && n.Dictionary?
    ensures (exists op :: op in DictionaryOps(o, n) && op.Create? && IsHidden(op.def.source)) <==> IsHidden(n.source) && o.rest != n.rest
  {
    hide IsHidden;
    if IsHidden(n.source) && o.rest != n.rest {
      assert Create(n, true) in DictionaryOps(o, n);
    }
  }
}
