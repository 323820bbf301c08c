/**
 `canonicalizeDefinitions`: one canonical definition per key, the last one written, in a fixed order.
 */
module CanonicalList {
  import opened Wrappers
  import opened StableSort
  import opened Canonical
  import Planner

  function KindOf(d: Schema): Planner.Kind {
    match d
    case Table(_, _, _, _, _, _, _, _, _, _, _, _, _) => Planner.TableKind
    case View(_, _, _) => Planner.ViewKind
    case MaterializedView(_, _, _, _, _) => Planner.MaterializedViewKind
    case Dictionary(_, _, _, _, _, _, _, _, _, _) => Planner.DictionaryKind
  }

  /** `definitionKey`. */
  function KeyOf(d: Schema): string {
    Planner.KeyText(KindOf(d), Planner.Ref(d.name.database, d.name.name))
  }

  function SortKind(d: Schema): nat {
    match KindOf(d)
    case TableKind => 0
    case ViewKind => 1
    case MaterializedViewKind => 2
    case DictionaryKind => 3
  }

  // ----- a map that remembers its order -----

  function KeyIndex(list: seq<Schema>, key: string): (i: nat)
    ensures i <= |list| && (i < |list| ==> KeyOf(list[i]) == key) && forall j :: 0 <= j < i ==> KeyOf(list[j]) != key
  {
    if list == [] || KeyOf(list[0]) == key then 0 else 1 + KeyIndex(list[1..], key)
  }

  /** `Map.set`: a known key keeps its place. */
  function Put(list: seq<Schema>, d: Schema): seq<Schema> {
    var i := KeyIndex(list, KeyOf(d));
    if i < |list| then list[i := d] else list + [d]
  }

  function Dedup(leq: (string, string) -> bool, defs: seq<Schema>): seq<Schema> {
    if defs == [] then [] else Put(Dedup(leq, defs[..|defs| - 1]), Canon(leq, defs[|defs| - 1]))
  }

  predicate Distinct(list: seq<Schema>) {
    forall i, j :: 0 <= i < j < |list| ==> KeyOf(list[i]) != KeyOf(list[j])
  }

  /** The last definition whose canonical form has this key. */
  function LastOf(leq: (string, string) -> bool, defs: seq<Schema>, key: string): Option<Schema> {
    if defs == [] then None
    else if KeyOf(Canon(leq, defs[|defs| - 1])) == key then Some(Canon(leq, defs[|defs| - 1]))
    else LastOf(leq, defs[..|defs| - 1], key)
  }

  /** What the list holds under a key. */
  predicate Has(list: seq<Schema>, key: string, d: Option<Schema>) {
    match d
    case Some(x) => x in list && KeyOf(x) == key
    case None => forall i :: 0 <= i < |list| ==> KeyOf(list[i]) != key
  }

  // ----- the order -----

  predicate TieOr(leq: (string, string) -> bool, a: string, b: string, otherwise: bool) {
    if leq(a, b) && leq(b, a) then otherwise else leq(a, b)
  }

  predicate InOrder(leq: (string, string) -> bool, a: Schema, b: Schema) {
    if SortKind(a) != SortKind(b) then SortKind(a) < SortKind(b)
    else TieOr(leq, a.name.database, b.name.database, leq(a.name.name, b.name.name))
  }

  /** `canonicalizeDefinitions` as a function. */
  function CanonAll(leq: (string, string) -> bool, defs: seq<Schema>): seq<Schema> {
    Sort((a, b) => InOrder(leq, a, b), Dedup(leq, defs))
  }

  method CanonicalizeDefinitions(leq: (string, string) -> bool, defs: seq<Schema>) returns (out: seq<Schema>)
    ensures out == CanonAll(leq, defs)
  {
    var dedup: seq<Schema> := [];
    for i := 0 to |defs|
      invariant dedup == Dedup(leq, defs[..i])
    {
      assert defs[..i + 1][..i] == defs[..i];
      var normalized := Canon(leq, defs[i]);
      dedup := Put(dedup, normalized);
    }
    assert defs[..|defs|] == defs;
    out := Sort((a, b) => InOrder(leq, a, b), dedup);
  }

  lemma OrderIsTransitive(leq: (string, string) -> bool, a: Schema, b: Schema, c: Schema)
    requires TotalPreorder(leq) && InOrder(leq, a, b) && InOrder(leq, b, c)
    ensures InOrder(leq, a, c)
  {
    hide SortKind;
  }

  lemma OrderIsPreorder(leq: (string, string) -> bool)
    requires TotalPreorder(leq)
    ensures TotalPreorder((a, b) => InOrder(leq, a, b))
  {
    hide SortKind;
    forall a: Schema, b: Schema ensures InOrder(leq, a, b) || InOrder(leq, b, a) {
      Total(leq, a.name.database, b.name.database);
      Total(leq, a.name.name, b.name.name);
    }
    forall a: Schema, b: Schema, c: Schema | InOrder(leq, a, b) && InOrder(leq, b, c) ensures InOrder(leq, a, c) {
      OrderIsTransitive(leq, a, b, c);
    }
  }

  // ----- one definition per key, the last one -----

  lemma PutIsDistinct(list: seq<Schema>, d: Schema)
    requires Distinct(list)
    ensures Distinct(Put(list, d))
  {
    hide KeyOf;
  }

  lemma PutHas(list: seq<Schema>, d: Schema, key: string, x: Option<Schema>)
    requires Distinct(list) && Has(list, key, x)
    ensures Has(Put(list, d), key, if KeyOf(d) == key then Some(d) else x)
  {
    hide KeyOf;
    var i := KeyIndex(list, KeyOf(d));
    var next := Put(list, d);
    if KeyOf(d) == key {
      assert next[i] == d;
    } else if x.Some? {
      var k :| 0 <= k < |list| && list[k] == x.value;
      assert next[k] == x.value;
    }
  }

  /** No key is there twice, and every key holds the last definition written for it. */
  lemma {:induction false} DedupKeepsLast(leq: (string, string) -> bool, defs: seq<Schema>, key: string)
    ensures Distinct(Dedup(leq, defs)) && Has(Dedup(leq, defs), key, LastOf(leq, defs, key))
  {
    if defs != [] {
      hide KeyOf, Canon, Put, Distinct, Has;
      var front, last := defs[..|defs| - 1], Canon(leq, defs[|defs| - 1]);
      DedupKeepsLast(leq, front, key);
      PutIsDistinct(Dedup(leq, front), last);
      PutHas(Dedup(leq, front), last, key, LastOf(leq, front, key));
    }
  }

  lemma {:induction false} DedupComesFrom(leq: (string, string) -> bool, defs: seq<Schema>, x: Schema)
    requires x in Dedup(leq, defs)
    ensures exists d :: d in defs && x == Canon(leq, d)
  {
    hide KeyOf, Canon;
    var front, last := defs[..|defs| - 1], defs[|defs| - 1];
    if x != Canon(leq, last) {
      DedupComesFrom(leq, front, x);
      var d :| d in front && x == Canon(leq, d);
      assert d in defs;
    }
  }

  lemma {:induction false} InsertIsDistinct(leq: (Schema, Schema) -> bool, s: seq<Schema>, x: Schema)
    requires Distinct(s) && forall i :: 0 <= i < |s| ==> KeyOf(s[i]) != KeyOf(x)
    ensures Distinct(Insert(leq, s, x))
    ensures forall y :: y in Insert(leq, s, x) <==> y == x || y in s
  {
    hide KeyOf;
    if s != [] && !leq(s[|s| - 1], x) {
      var front, last := s[..|s| - 1], s[|s| - 1];
      assert s == front + [last];
      InsertIsDistinct(leq, front, x);
      var r := Insert(leq, front, x);
      forall i | 0 <= i < |r| ensures KeyOf(r[i]) != KeyOf(last) {
        assert r[i] in r;
        if r[i] != x {
          var k :| 0 <= k < |front| && front[k] == r[i];
          assert s[k] == r[i];
        }
      }
    }
  }

  lemma {:induction false} SortIsDistinct(leq: (Schema, Schema) -> bool, s: seq<Schema>)
    requires Distinct(s)
    ensures Distinct(Sort(leq, s))
  {
    hide KeyOf, Insert;
    if s != [] {
      var front, last := s[..|s| - 1], s[|s| - 1];
      SortIsDistinct(leq, front);
      var r := Sort(leq, front);
      forall i | 0 <= i < |r| ensures KeyOf(r[i]) != KeyOf(last) {
        assert r[i] in r;
        SortHas(leq, front, r[i]);
        var k :| 0 <= k < |front| && front[k] == r[i];
        assert s[k] == r[i];
      }
      InsertIsDistinct(leq, r, last);
    }
  }

  /**
   A canonical schema has no key twice, whatever was written: of several definitions with one key the
   last one counts. Schema validation, which runs on the canonical schema, can never report a duplicate.
   */
  lemma LastOneCounts(leq: (string, string) -> bool, defs: seq<Schema>, key: string)
    ensures Distinct(CanonAll(leq, defs)) && Has(CanonAll(leq, defs), key, LastOf(leq, defs, key))
  {
    DedupKeepsLast(leq, defs, key);
    hide Dedup, KeyOf, Distinct, InOrder;
    SortIsDistinct((a, b) => InOrder(leq, a, b), Dedup(leq, defs));
    SameElements(leq, defs);
    HasMoves(Dedup(leq, defs), CanonAll(leq, defs), key, LastOf(leq, defs, key));
  }

  lemma SameElements(leq: (string, string) -> bool, defs: seq<Schema>)
    ensures forall x :: x in CanonAll(leq, defs) <==> x in Dedup(leq, defs)
  {
    hide InOrder;
    forall x ensures x in CanonAll(leq, defs) <==> x in Dedup(leq, defs) {
      SortHas((a, b) => InOrder(leq, a, b), Dedup(leq, defs), x);
    }
  }

  lemma HasMoves(s: seq<Schema>, t: seq<Schema>, key: string, d: Option<Schema>)
    requires Has(s, key, d) && forall x :: x in t <==> x in s
    ensures Has(t, key, d)
  {
    hide KeyOf;
    if d.None? {
      forall i | 0 <= i < |t| ensures KeyOf(t[i]) != key {
        assert t[i] in s;
      }
    }
  }

  /** Tables, views, materialized views, dictionaries; within a kind by database, and within a database by name. */
  lemma ListIsOrdered(leq: (string, string) -> bool, defs: seq<Schema>, i: nat, j: nat)
    requires TotalPreorder(leq) && i < j < |CanonAll(leq, defs)|
    ensures var a, b := CanonAll(leq, defs)[i], CanonAll(leq, defs)[j];
      && (b.Table? ==> a.Table?) && (b.View? ==> a.Table? || a.View?) && (b.MaterializedView? ==> !a.Dictionary?)
      && ((a.Table? && b.Table?) || (a.View? && b.View?) || (a.MaterializedView? && b.MaterializedView?) || (a.Dictionary? && b.Dictionary?) ==>
            leq(a.name.database, b.name.database) && (leq(b.name.database, a.name.database) ==> leq(a.name.name, b.name.name)))
  {
    OrderIsPreorder(leq);
    hide Dedup, TotalPreorder, Sort;
    SortSorts((a, b) => InOrder(leq, a, b), Dedup(leq, defs));
    assert InOrder(leq, CanonAll(leq, defs)[i], CanonAll(leq, defs)[j]);
  }

  // ----- twice is once -----

  lemma {:induction false} FinalListStays(leq: (string, string) -> bool, list: seq<Schema>)
    requires Distinct(list) && forall d :: d in list ==> Canon(leq, d) == d
    ensures Dedup(leq, list) == list
  {
    hide KeyOf, Canon;
    if list != [] {
      var front, last := list[..|list| - 1], list[|list| - 1];
      assert list == front + [last] && last in list;
      FinalListStays(leq, front);
      assert forall j :: 0 <= j < |front| ==> KeyOf(list[j]) == KeyOf(front[j]);
    }
  }

  lemma CanonicalIsFinal(leq: (string, string) -> bool, defs: seq<Schema>, x: Schema)
    requires TotalPreorder(leq) && (forall d :: d in defs ==> Settles(d)) && x in CanonAll(leq, defs)
    ensures Canon(leq, x) == x
  {
    hide TotalPreorder, Settles, CanonAll, Canon;
    SameElements(leq, defs);
    DedupComesFrom(leq, defs, x);
    var d :| d in defs && x == Canon(leq, d);
    CanonIsFinal(leq, d);
  }

  /** `canonicalizeDefinitions` is idempotent on every list of definitions that settle. */
  lemma CanonAllIsIdempotent(leq: (string, string) -> bool, defs: seq<Schema>)
    requires TotalPreorder(leq) && forall d :: d in defs ==> Settles(d)
    ensures CanonAll(leq, CanonAll(leq, defs)) == CanonAll(leq, defs)
  {
    var once := CanonAll(leq, defs);
    hide TotalPreorder, Settles, Canon, KeyOf, InOrder, Dedup, Distinct;
    LastOneCounts(leq, defs, "");
    forall d | d in once ensures Canon(leq, d) == d {
      CanonicalIsFinal(leq, defs, d);
    }
    FinalListStays(leq, once);
    OrderIsPreorder(leq);
    SortSorts((a, b) => InOrder(leq, a, b), Dedup(leq, defs));
    SortedIsFixed((a, b) => InOrder(leq, a, b), once);
  }
}
