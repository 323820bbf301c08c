/**
 Replaying a plan: a catalogue as the parts of its objects, the effect and the legality of an operation,
 and the proof that the planned order is legal everywhere and reaches the target schema.
 */
module PlanReplay {
  import opened Wrappers
  import opened StableSort
  import opened DiffPrimitives
  import opened DependencyDepth
  import opened Planner

  // ----- the catalogue -----

  /** Every object is the parts it shows; an object that does not exist shows none. */
  datatype Catalogue = Catalogue(databases: set<string>, parts: (Ref, Part) -> Option<Payload>)

  function HeldIn(items: seq<Item>, name: string): Option<Payload> {
    match Lookup(items, name)
    case None => None
    case Some(v) => Some(Held(v))
  }

  function PlainIn(items: seq<Item>, key: string): Option<Payload> {
    match SettingText(items, key)
    case None => None
    case Some(v) => Some(Plain(v))
  }

  /** What a definition says about a part, as far as the planner compares it. */
  function Show(d: Definition, p: Part): Option<Payload> {
    match d
    case Table(_, shape, _, _, _, settings, ttl) =>
      (match p
       case Body => Some(TableShape(shape))
       case Member(g, n) => HeldIn(Items(d, g), n)
       case Setting(k) => PlainIn(settings, k)
       case Ttl => if OrEmpty(ttl) != "" then Some(Plain(OrEmpty(ttl))) else None
       case _ => None)
    case View(_, body) => if p.Body? then Some(ViewBody(body)) else None
    case MaterializedView(_, body, target, refresh) =>
      (match p
       case Body => Some(MaterializedViewBody(body, target, Appends(d), refresh.Some?))
       case Refresh => if refresh.Some? then Some(Rule(refresh.value)) else None
       case _ => None)
    case Dictionary(_, source, rest) =>
      (match p
       case Body => Some(DictionaryBody(rest))
       case Source => Some(Plain(source))
       case _ => None)
  }

  function FindRef(defs: seq<Definition>, r: Ref): Option<Definition> {
    if defs == [] then None
    else if defs[|defs| - 1].ref == r then Some(defs[|defs| - 1])
    else FindRef(defs[..|defs| - 1], r)
  }

  function ShowRef(d: Option<Definition>, p: Part): Option<Payload> {
    if d.Some? then Show(d.value, p) else None
  }

  /** Statements on a part of the object. */
  function AlteredPart(op: Op): Part
    requires op.AddPart? || op.ModifyPart? || op.RemoveCodec? || op.RemovePart? || op.ModifyRefresh?
  {
    match op
    case AddPart(_, p, _) => p
    case ModifyPart(_, p, _) => p
    case RemoveCodec(_, n) => Member(Columns, n)
    case RemovePart(_, p) => p
    case ModifyRefresh(_, _) => Refresh
  }

  predicate OnRef(op: Op, r: Ref) {
    match op
    case Drop(_, q) => q == r
    case CreateDatabase(_) => false
    case Create(d, _) => d.ref == r
    case ModifyRefresh(q, _) => q == r
    case AddPart(q, _, _) => q == r
    case ModifyPart(q, _, _) => q == r
    case RemoveCodec(q, _) => q == r
    case RemovePart(q, _) => q == r
  }

  /** The operation may change this part. */
  predicate Touches(op: Op, r: Ref, p: Part) {
    OnRef(op, r) && (op.Drop? || op.Create? || AlteredPart(op) == p)
  }

  /** A part after an operation that touches it. */
  function PartAfter(op: Op, p: Part, before: Option<Payload>): Option<Payload> {
    match op
    case Drop(_, _) => None
    case CreateDatabase(_) => before
    case Create(d, _) => Show(d, p)
    case ModifyRefresh(_, rule) => Some(Rule(rule))
    case AddPart(_, _, payload) => Some(payload)
    case ModifyPart(_, _, payload) => Some(payload)
    case RemoveCodec(_, _) =>
      if before.Some? && before.value.Held? && before.value.value.ColumnText?
      then Some(Held(before.value.value.(codec := None))) else before
    case RemovePart(_, _) => None
  }

  function Apply(cat: Catalogue, op: Op): Catalogue {
    Catalogue(
      if op.CreateDatabase? then cat.databases + {op.database} else cat.databases,
      (r: Ref, p: Part) => if Touches(op, r, p) then PartAfter(op, p, cat.parts(r, p)) else cat.parts(r, p))
  }

  function Run(cat: Catalogue, ops: seq<Op>): Catalogue {
    if ops == [] then cat else Apply(Run(cat, ops[..|ops| - 1]), ops[|ops| - 1])
  }

  function KindShown(body: Option<Payload>): Option<Kind> {
    match body
    case Some(TableShape(_)) => Some(TableKind)
    case Some(ViewBody(_)) => Some(ViewKind)
    case Some(MaterializedViewBody(_, _, _, _)) => Some(MaterializedViewKind)
    case Some(DictionaryBody(_)) => Some(DictionaryKind)
    case _ => None
  }

  /** `MODIFY TTL` without an expression. */
  predicate SetsBlankTtl(op: Op) {
    op.ModifyPart? && op.part.Ttl? && op.payload == Plain("")
  }

  /** The server accepts the statement: the right object is there, or is not there yet. */
  predicate Legal(cat: Catalogue, op: Op) {
    match op
    case Drop(k, r) => KindShown(cat.parts(r, Body)) == Some(k)
    case CreateDatabase(_) => true
    case Create(d, replace) =>
      d.ref.database in cat.databases
      && (if replace then KindShown(cat.parts(d.ref, Body)) == Some(DictionaryKind) else cat.parts(d.ref, Body).None?)
    case ModifyRefresh(r, _) => cat.parts(r, Refresh).Some?
    case AddPart(r, p, _) => KindShown(cat.parts(r, Body)) == Some(TableKind) && cat.parts(r, p).None?
    case ModifyPart(r, p, _) => KindShown(cat.parts(r, Body)) == Some(TableKind) && (p.Member? ==> cat.parts(r, p).Some?) && !SetsBlankTtl(op)
    case RemoveCodec(r, n) => KindShown(cat.parts(r, Body)) == Some(TableKind) && cat.parts(r, Member(Columns, n)).Some?
    case RemovePart(r, p) => KindShown(cat.parts(r, Body)) == Some(TableKind) && cat.parts(r, p).Some?
  }

  function Databases(defs: seq<Definition>): set<string> {
    if defs == [] then {} else Databases(defs[..|defs| - 1]) + {defs[|defs| - 1].ref.database}
  }

  /** The catalogue that holds exactly these definitions. */
  function CatalogueOf(defs: seq<Definition>): Catalogue {
    Catalogue(Databases(defs), (r: Ref, p: Part) => ShowRef(FindRef(defs, r), p))
  }

  // ----- one part at a time -----

  function PartOps(r: Ref, p: Part, ops: seq<Op>): seq<Op> {
    if ops == [] then []
    else PartOps(r, p, ops[..|ops| - 1]) + if Touches(ops[|ops| - 1], r, p) then [ops[|ops| - 1]] else []
  }

  function FoldPart(p: Part, start: Option<Payload>, ops: seq<Op>): Option<Payload> {
    if ops == [] then start else PartAfter(ops[|ops| - 1], p, FoldPart(p, start, ops[..|ops| - 1]))
  }

  lemma PartOpsLast(r: Ref, p: Part, ops: seq<Op>, op: Op)
    ensures PartOps(r, p, ops + [op]) == PartOps(r, p, ops) + if Touches(op, r, p) then [op] else []
  {
    assert (ops + [op])[..|ops|] == ops;
  }

  lemma {:induction false} PartOpsAppend(r: Ref, p: Part, a: seq<Op>, b: seq<Op>)
    ensures PartOps(r, p, a + b) == PartOps(r, p, a) + PartOps(r, p, b)
  {
    hide Touches;
    if b == [] {
      assert a + b == a;
    } else {
      var front, last := b[..|b| - 1], b[|b| - 1];
      assert a + b == (a + front) + [last];
      PartOpsAppend(r, p, a, front);
      PartOpsLast(r, p, a + front, last);
    }
  }

  lemma FoldLast(p: Part, start: Option<Payload>, ops: seq<Op>, op: Op)
    ensures FoldPart(p, start, ops + [op]) == PartAfter(op, p, FoldPart(p, start, ops))
  {
    assert (ops + [op])[..|ops|] == ops;
  }

  /** A part of the replayed catalogue depends on the operations that touch it, in their order, and on nothing else. */
  lemma {:induction false} RunIsPartwise(cat: Catalogue, ops: seq<Op>, r: Ref, p: Part)
    ensures Run(cat, ops).parts(r, p) == FoldPart(p, cat.parts(r, p), PartOps(r, p, ops))
  {
    if ops != [] {
      var front, last := ops[..|ops| - 1], ops[|ops| - 1];
      RunIsPartwise(cat, front, r, p);
      if Touches(last, r, p) {
        FoldLast(p, cat.parts(r, p), PartOps(r, p, front), last);
      } else {
        assert PartOps(r, p, front) + [] == PartOps(r, p, front);
      }
    }
  }

  lemma {:induction false} PartOpsIsFilter(r: Ref, p: Part, f: Op -> bool, ops: seq<Op>)
    requires forall op :: f(op) == Touches(op, r, p)
    ensures PartOps(r, p, ops) == Filter(f, ops)
  {
    hide Touches;
    if ops != [] {
      PartOpsIsFilter(r, p, f, ops[..|ops| - 1]);
    }
  }

  /** The plan sorts the operations on a part as if there were no others. */
  lemma PlannedPartwise(leq: (string, string) -> bool, depth: map<string, nat>, emitted: seq<Op>, r: Ref, p: Part)
    requires Locale(leq)
    ensures PartOps(r, p, Planned(leq, depth, emitted)) == Planned(leq, depth, PartOps(r, p, emitted))
  {
    hide Locale, Before, Touches, Sort, TotalPreorder;
    var f := (op: Op) => Touches(op, r, p);
    BeforeIsPreorder(leq, depth);
    FilterSort((a, b) => Before(leq, depth, a, b), f, emitted);
    PartOpsIsFilter(r, p, f, emitted);
    PartOpsIsFilter(r, p, f, Planned(leq, depth, emitted));
  }

  // ----- what is emitted for a part of a table -----

  /** The operations that take one member of a group from one value to the other. */
  function MemberOps(r: Ref, g: Group, n: string, before: Option<Value>, after: Option<Value>): seq<Op> {
    match (before, after)
    case (None, None) => []
    case (None, Some(v)) => [AddPart(r, Member(g, n), Held(v))]
    case (Some(v), None) => [RemovePart(r, Member(g, n))]
    case (Some(v), Some(w)) => if v == w then [] else ChangeOp(r, g, Change(n, v, w))
  }

  function PlainOps(r: Ref, p: Part, before: Option<string>, after: Option<string>): seq<Op> {
    if before == after then []
    else if after.Some? then [ModifyPart(r, p, Plain(after.value))]
    else [RemovePart(r, p)]
  }

  predicate Covers(p: Part, g: Group) {
    p.Member? && p.group == g
  }

  /** The three loops over named items, as one: what each turn pushes. */
  datatype Loop = Adds | Changes | Removes

  function Turn(loop: Loop, r: Ref, g: Group, other: seq<Item>, item: Item): seq<Op> {
    var prior := Lookup(other, item.name);
    match loop
    case Adds => if prior.None? then [AddPart(r, Member(g, item.name), Held(item.value))] else []
    case Changes => if prior.Some? && prior.value != item.value then ChangeOp(r, g, Change(item.name, prior.value, item.value)) else []
    case Removes => if prior.None? then [RemovePart(r, Member(g, item.name))] else []
  }

  function Turns(loop: Loop, r: Ref, g: Group, other: seq<Item>, items: seq<Item>): seq<Op> {
    if items == [] then []
    else Turns(loop, r, g, other, items[..|items| - 1]) + Turn(loop, r, g, other, items[|items| - 1])
  }

  lemma AddOpsLast(r: Ref, g: Group, items: seq<Item>, x: Item)
    ensures AddOps(r, g, items + [x]) == AddOps(r, g, items) + [AddPart(r, Member(g, x.name), Held(x.value))]
    ensures RemoveOps(r, g, items + [x]) == RemoveOps(r, g, items) + [RemovePart(r, Member(g, x.name))]
  {
    assert (items + [x])[..|items|] == items;
  }

  lemma ChangeOpsLast(r: Ref, g: Group, changes: seq<Change>, c: Change)
    ensures ChangeOps(r, g, changes + [c]) == ChangeOps(r, g, changes) + ChangeOp(r, g, c)
  {
    assert (changes + [c])[..|changes|] == changes;
  }

  lemma {:induction false} AddsAreTurns(r: Ref, g: Group, before: seq<Item>, after: seq<Item>)
    ensures AddOps(r, g, Added(before, after)) == Turns(Adds, r, g, before, after)
  {
    hide AddOps, Lookup;
    if after == [] {
      NoOps(r, g);
    } else {
      var front, last := after[..|after| - 1], after[|after| - 1];
      AddsAreTurns(r, g, before, front);
      AddOpsLast(r, g, Added(before, front), last);
      assert Added(before, front) + [] == Added(before, front);
    }
  }

  lemma NoOps(r: Ref, g: Group)
    ensures AddOps(r, g, []) == [] && ChangeOps(r, g, []) == [] && RemoveOps(r, g, []) == []
  {
  }

  lemma {:induction false} ChangesAreTurns(r: Ref, g: Group, before: seq<Item>, after: seq<Item>)
    ensures ChangeOps(r, g, Changed(before, after)) == Turns(Changes, r, g, before, after)
  {
    hide ChangeOps, Lookup, ChangeOp;
    if after == [] {
      NoOps(r, g);
    } else {
      var front, last := after[..|after| - 1], after[|after| - 1];
      ChangesAreTurns(r, g, before, front);
      var prior := Lookup(before, last.name);
      if prior.Some? {
        ChangeOpsLast(r, g, Changed(before, front), Change(last.name, prior.value, last.value));
      }
      assert Changed(before, front) + [] == Changed(before, front);
    }
  }

  lemma {:induction false} RemovesAreTurns(r: Ref, g: Group, before: seq<Item>, after: seq<Item>)
    ensures RemoveOps(r, g, Removed(before, after)) == Turns(Removes, r, g, after, before)
  {
    hide RemoveOps, Lookup;
    if before == [] {
      NoOps(r, g);
    } else {
      var front, last := before[..|before| - 1], before[|before| - 1];
      RemovesAreTurns(r, g, front, after);
      AddOpsLast(r, g, Removed(front, after), last);
      assert Removed(front, after) + [] == Removed(front, after);
    }
  }

  lemma OnePart(r: Ref, p: Part, op: Op)
    ensures PartOps(r, p, [op]) == if Touches(op, r, p) then [op] else []
  {
    assert [op][..0] == [];
  }

  lemma TwoParts(r: Ref, p: Part, a: Op, b: Op)
    ensures PartOps(r, p, [a, b]) == (if Touches(a, r, p) then [a] else []) + if Touches(b, r, p) then [b] else []
  {
    hide Touches;
    OnePart(r, p, a);
    assert [a] + [b] == [a, b];
    PartOpsLast(r, p, [a], b);
  }

  /** A turn pushes only for its own member. */
  lemma TurnPart(loop: Loop, r: Ref, g: Group, other: seq<Item>, item: Item, p: Part)
    ensures PartOps(r, p, Turn(loop, r, g, other, item))
      == if p == Member(g, item.name) then Turn(loop, r, g, other, item) else []
  {
    hide PartOps, Lookup, IsCodecRemoval;
    var ops := Turn(loop, r, g, other, item);
    if |ops| == 1 {
      OnePart(r, p, ops[0]);
    } else if |ops| == 2 {
      TwoParts(r, p, ops[0], ops[1]);
    } else {
      assert PartOps(r, p, []) == [] by {
        NoParts(r, p);
      }
    }
  }

  lemma NoParts(r: Ref, p: Part)
    ensures PartOps(r, p, []) == []
  {
  }

  lemma LookupLast(front: seq<Item>, x: Item, name: string)
    ensures Lookup(front + [x], name) == if x.name == name then Some(x.value) else Lookup(front, name)
  {
    assert (front + [x])[..|front|] == front;
  }

  lemma {:induction false} LookupMisses(items: seq<Item>, name: string)
    requires forall i :: 0 <= i < |items| ==> items[i].name != name
    ensures Lookup(items, name).None?
  {
    if items != [] {
      LookupMisses(items[..|items| - 1], name);
    }
  }

  lemma UniqueLast(front: seq<Item>, x: Item)
    requires UniqueNames(front + [x])
    ensures UniqueNames(front) && Lookup(front, x.name).None?
  {
    var all := front + [x];
    forall i, j | 0 <= i < j < |front| ensures front[i].name != front[j].name {
      assert all[i] == front[i] && all[j] == front[j];
    }
    forall i | 0 <= i < |front| ensures front[i].name != x.name {
      assert all[i] == front[i] && all[|front|] == x;
    }
    LookupMisses(front, x.name);
  }

  /** What a loop pushes for a part is what the turn of that member pushes. */
  lemma {:induction false} TurnsPart(loop: Loop, r: Ref, g: Group, other: seq<Item>, items: seq<Item>, p: Part)
    requires UniqueNames(items)
    ensures PartOps(r, p, Turns(loop, r, g, other, items))
      == if Covers(p, g) && Lookup(items, p.name).Some? then Turn(loop, r, g, other, Item(p.name, Lookup(items, p.name).value)) else []
  {
    if items == [] {
      NoParts(r, p);
    } else {
      hide PartOps, Lookup, Turn, UniqueNames;
      var front, last := items[..|items| - 1], items[|items| - 1];
      assert items == front + [last];
      UniqueLast(front, last);
      TurnsPart(loop, r, g, other, front, p);
      PartOpsAppend(r, p, Turns(loop, r, g, other, front), Turn(loop, r, g, other, last));
      TurnPart(loop, r, g, other, last, p);
      if Covers(p, g) {
        LookupLast(front, last, p.name);
      }
    }
  }

  /** What a group contributes to a part: the operations between the two values of one member. */
  lemma GroupPart(r: Ref, g: Group, before: seq<Item>, after: seq<Item>, p: Part)
    requires UniqueNames(before) && UniqueNames(after)
    ensures PartOps(r, p, GroupOps(r, g, before, after))
      == if Covers(p, g) then MemberOps(r, g, p.name, Lookup(before, p.name), Lookup(after, p.name)) else []
  {
    hide UniqueNames, AddOps, ChangeOps, RemoveOps, Added, Changed, Removed, Lookup, PartOps, Turns, ChangeOp;
    AddsAreTurns(r, g, before, after);
    ChangesAreTurns(r, g, before, after);
    RemovesAreTurns(r, g, before, after);
    TurnsPart(Adds, r, g, before, after, p);
    TurnsPart(Changes, r, g, before, after, p);
    TurnsPart(Removes, r, g, after, before, p);
    var adds, changes, removes := Turns(Adds, r, g, before, after), Turns(Changes, r, g, before, after), Turns(Removes, r, g, after, before);
    PartOpsAppend(r, p, adds + changes, removes);
    PartOpsAppend(r, p, adds, changes);
  }

  // ----- settings -----

  function CountOf(keys: seq<string>, k: string): nat {
    multiset(keys)[k]
  }

  function SettingTurn(r: Ref, key: string, before: seq<Item>, after: seq<Item>): seq<Op> {
    PlainOps(r, Setting(key), SettingText(before, key), SettingText(after, key))
  }

  lemma SettingOpsLast(r: Ref, front: seq<string>, key: string, before: seq<Item>, after: seq<Item>)
    ensures SettingOps(r, ChangesFor(front + [key], before, after))
      == SettingOps(r, ChangesFor(front, before, after)) + SettingTurn(r, key, before, after)
  {
    hide SettingText;
    assert (front + [key])[..|front|] == front;
    var some, all := ChangesFor(front, before, after), ChangesFor(front + [key], before, after);
    if |all| > |some| {
      assert all[..|some|] == some;
    } else {
      assert all == some;
    }
  }

  lemma SettingTurnPart(r: Ref, key: string, before: seq<Item>, after: seq<Item>, p: Part)
    ensures PartOps(r, p, SettingTurn(r, key, before, after)) == if p == Setting(key) then SettingTurn(r, key, before, after) else []
  {
    hide PartOps, SettingText;
    var ops := SettingTurn(r, key, before, after);
    if |ops| == 1 {
      OnePart(r, p, ops[0]);
    } else {
      NoParts(r, p);
    }
  }

  lemma CountLast(front: seq<string>, key: string, k: string)
    ensures CountOf(front + [key], k) == CountOf(front, k) + if key == k then 1 else 0
    ensures k in front <==> CountOf(front, k) > 0
  {
  }

  lemma {:induction false} SettingsPart(r: Ref, keys: seq<string>, before: seq<Item>, after: seq<Item>, p: Part)
    requires p.Setting? ==> CountOf(keys, p.name) <= 1
    ensures PartOps(r, p, SettingOps(r, ChangesFor(keys, before, after)))
      == if p.Setting? && p.name in keys then SettingTurn(r, p.name, before, after) else []
  {
    if keys == [] {
      NoParts(r, p);
    } else {
      hide PartOps, SettingTurn, CountOf, SettingOps, ChangesFor;
      var front, key := keys[..|keys| - 1], keys[|keys| - 1];
      assert keys == front + [key];
      if p.Setting? {
        CountLast(front, key, p.name);
      }
      SettingsPart(r, front, before, after, p);
      SettingOpsLast(r, front, key, before, after);
      PartOpsAppend(r, p, SettingOps(r, ChangesFor(front, before, after)), SettingTurn(r, key, before, after));
      SettingTurnPart(r, key, before, after, p);
    }
  }

  lemma {:induction false} DistinctCounts(s: seq<string>, k: string)
    requires forall i, j :: 0 <= i < j < |s| ==> s[i] != s[j]
    ensures CountOf(s, k) <= 1
  {
    if s != [] {
      var front, last := s[..|s| - 1], s[|s| - 1];
      assert s == front + [last];
      DistinctCounts(front, k);
    }
  }

  lemma {:induction false} NamesHave(items: seq<Item>, name: string)
    ensures name in Names(items) <==> Lookup(items, name).Some?
  {
    if items != [] {
      NamesHave(items[..|items| - 1], name);
    }
  }

  lemma AllSettingsPart(r: Ref, before: seq<Item>, after: seq<Item>, p: Part)
    ensures PartOps(r, p, SettingOps(r, ChangesFor(SettingKeys(before, after), before, after)))
      == if p.Setting? then PlainOps(r, p, SettingText(before, p.name), SettingText(after, p.name)) else []
  {
    var union := Names(before) + Names(after);
    hide Sort, Distinct, Names, CodeUnitLeq, SettingOps, ChangesFor, PartOps, Lookup;
    if p.Setting? {
      DistinctCounts(Distinct(union), p.name);
      SortIsPermutation(CodeUnitLeq, Distinct(union));
      SortHas(CodeUnitLeq, Distinct(union), p.name);
      NamesHave(before, p.name);
      NamesHave(after, p.name);
    }
    SettingsPart(r, SettingKeys(before, after), before, after, p);
  }

  lemma TtlPart(r: Ref, before: Option<string>, after: Option<string>, p: Part)
    ensures PartOps(r, p, TtlOps(r, before, after)) == if p.Ttl? then TtlOps(r, before, after) else []
  {
    var ops := TtlOps(r, before, after);
    if ops != [] {
      assert ops[..0] == [];
    }
  }

  // ----- a table that is altered -----

  /** Member names are unique. */
  predicate Orderly(d: Definition) {
    d.Table? ==> UniqueNames(d.columns) && UniqueNames(d.indexes) && UniqueNames(d.projections)
  }

  /** The operations between two shown values of one part of a table. */
  function TablePartOps(r: Ref, p: Part, o: Definition, n: Definition): seq<Op>
    requires o.Table? && n.Table?
  {
    match p
    case Member(g, m) => MemberOps(r, g, m, Lookup(Items(o, g), m), Lookup(Items(n, g), m))
    case Setting(k) => PlainOps(r, p, SettingText(o.settings, k), SettingText(n.settings, k))
    case Ttl => TtlOps(r, o.ttl, n.ttl)
    case _ => []
  }

  lemma FiveParts(r: Ref, p: Part, a: seq<Op>, b: seq<Op>, c: seq<Op>, d: seq<Op>, e: seq<Op>)
    ensures PartOps(r, p, a + b + c + d + e)
      == PartOps(r, p, a) + PartOps(r, p, b) + PartOps(r, p, c) + PartOps(r, p, d) + PartOps(r, p, e)
  {
    hide PartOps;
    PartOpsAppend(r, p, a + b + c + d, e);
    PartOpsAppend(r, p, a + b + c, d);
    PartOpsAppend(r, p, a + b, c);
    PartOpsAppend(r, p, a, b);
  }

  lemma AlteredTablePart(o: Definition, n: Definition, p: Part)
    requires o.Table? && n.Table? && o.shape == n.shape && Orderly(o) && Orderly(n)
    ensures PartOps(n.ref, p, TableOps(o, n)) == TablePartOps(n.ref, p, o, n)
  {
    hide GroupOps, SettingOps, TtlOps, PartOps, ChangesFor, SettingKeys, MemberOps, PlainOps, SettingText, Lookup, UniqueNames;
    var r := n.ref;
    GroupPart(r, Columns, o.columns, n.columns, p);
    GroupPart(r, Indexes, o.indexes, n.indexes, p);
    GroupPart(r, Projections, o.projections, n.projections, p);
    AllSettingsPart(r, o.settings, n.settings, p);
    TtlPart(r, o.ttl, n.ttl, p);
    FiveParts(r, p, GroupOps(r, Columns, o.columns, n.columns), GroupOps(r, Indexes, o.indexes, n.indexes),
              GroupOps(r, Projections, o.projections, n.projections),
              SettingOps(r, ChangesFor(SettingKeys(o.settings, n.settings), o.settings, n.settings)), TtlOps(r, o.ttl, n.ttl));
  }

  // ----- what is emitted for an object -----

  /** Keys are texts: with no dot in database names they tell kind, database and name apart. */
  predicate DotFree(r: Ref) {
    '.' !in r.database
  }

  lemma FirstDot(p: string, q: string, restP: string, restQ: string)
    requires '.' !in p && '.' !in q && p + "." + restP == q + "." + restQ
    ensures p == q && restP == restQ
  {
    var s, t := p + "." + restP, q + "." + restQ;
    assert s[|p|] == '.' && t[|q|] == '.';
    assert forall k :: 0 <= k < |q| ==> t[k] == q[k];
    assert forall k :: 0 <= k < |p| ==> s[k] == p[k];
    assert |p| == |q|;
    assert p == s[..|p|] == t[..|q|] == q;
    assert restP == s[|p| + 1..] == t[|q| + 1..] == restQ;
  }

  lemma BehindHead(head: string, s: string)
    ensures (head + s)[|head|..] == s
  {
  }

  lemma Assoc(a: string, b: string, c: string)
    ensures (a + b) + c == a + (b + c)
  {
  }

  lemma KeyTextInjective(k: Kind, a: Ref, b: Ref)
    requires KeyText(k, a) == KeyText(k, b) && DotFree(a) && DotFree(b)
    ensures a == b
  {
    var head := KindText(k) + ":";
    BehindHead(head, a.database + "." + a.name);
    BehindHead(head, b.database + "." + b.name);
    hide KindText;
    Assoc(head, a.database + ".", a.name);
    Assoc(head, b.database + ".", b.name);
    Assoc(head, a.database, ".");
    Assoc(head, b.database, ".");
    FirstDot(a.database, b.database, a.name, b.name);
  }

  /** One object per name, and orderly definitions. */
  predicate Valid(defs: seq<Definition>) {
    && (forall i, j :: 0 <= i < j < |defs| ==> defs[i].ref != defs[j].ref)
    && (forall i :: 0 <= i < |defs| ==> Orderly(defs[i]))
  }

  /** What has this definition's key is the object of its name. */
  predicate Tells(defs: seq<Definition>, d: Definition) {
    forall i :: 0 <= i < |defs| && DefinitionKey(defs[i]) == DefinitionKey(d) ==> defs[i].ref == d.ref
  }

  /** No old and new object of different names share a key. */
  predicate KeysTell(before: seq<Definition>, after: seq<Definition>) {
    forall j :: 0 <= j < |after| ==> Tells(before, after[j])
  }

  /** Two schemas that can be compared by keys. */
  predicate Comparable(before: seq<Definition>, after: seq<Definition>) {
    Valid(before) && Valid(after) && KeysTell(before, after)
  }

  /** Without dots in database names any two schemas can. */
  lemma DotFreeKeysTell(before: seq<Definition>, after: seq<Definition>)
    requires (forall d :: d in before ==> DotFree(d.ref)) && (forall d :: d in after ==> DotFree(d.ref))
    ensures KeysTell(before, after)
  {
    hide KeyText, DotFree;
    forall i, j | 0 <= i < |before| && 0 <= j < |after| && DefinitionKey(before[i]) == DefinitionKey(after[j])
      ensures before[i].ref == after[j].ref
    {
      KeyKind(before[i], after[j]);
      KeyTextInjective(KindOf(before[i]), before[i].ref, after[j].ref);
    }
  }

  lemma TellsBack(before: seq<Definition>, after: seq<Definition>, o: Definition)
    requires KeysTell(before, after) && o in before
    ensures Tells(after, o)
  {
    hide DefinitionKey;
    var i :| 0 <= i < |before| && before[i] == o;
    forall j | 0 <= j < |after| && DefinitionKey(after[j]) == DefinitionKey(o) ensures after[j].ref == o.ref {
      assert Tells(before, after[j]);
    }
  }

  lemma TellsOf(before: seq<Definition>, after: seq<Definition>, n: Definition)
    requires KeysTell(before, after) && n in after
    ensures Tells(before, n)
  {
    hide Tells;
  }

  lemma ComparableLast(before: seq<Definition>, front: seq<Definition>, last: Definition)
    requires Comparable(before, front + [last])
    ensures Comparable(before, front) && Tells(before, last)
  {
    ValidLast(front, last);
    hide Tells, Valid;
    var all := front + [last];
    assert all[|front|] == last;
    forall j | 0 <= j < |front| ensures Tells(before, front[j]) {
      assert all[j] == front[j];
    }
  }

  lemma {:induction false} FindRefHas(defs: seq<Definition>, r: Ref)
    ensures FindRef(defs, r).Some? ==> FindRef(defs, r).value in defs && FindRef(defs, r).value.ref == r
    ensures FindRef(defs, r).None? ==> forall i :: 0 <= i < |defs| ==> defs[i].ref != r
  {
    if defs != [] && defs[|defs| - 1].ref != r {
      FindRefHas(defs[..|defs| - 1], r);
    }
  }

  lemma {:induction false} FindRefMisses(defs: seq<Definition>, r: Ref)
    requires forall i :: 0 <= i < |defs| ==> defs[i].ref != r
    ensures FindRef(defs, r).None?
  {
    if defs != [] {
      FindRefMisses(defs[..|defs| - 1], r);
    }
  }

  lemma FindRefLast(front: seq<Definition>, d: Definition, r: Ref)
    ensures FindRef(front + [d], r) == if d.ref == r then Some(d) else FindRef(front, r)
  {
    assert (front + [d])[..|front|] == front;
  }

  lemma ValidLast(front: seq<Definition>, d: Definition)
    requires Valid(front + [d])
    ensures Valid(front) && FindRef(front, d.ref).None? && Orderly(d)
  {
    hide Orderly;
    var all := front + [d];
    assert all[|front|] == d;
    forall i | 0 <= i < |front| ensures front[i].ref != d.ref && Orderly(front[i]) {
      assert all[i] == front[i];
    }
    forall i, j | 0 <= i < j < |front| ensures front[i].ref != front[j].ref {
      assert all[i] == front[i] && all[j] == front[j];
    }
    FindRefMisses(front, d.ref);
  }

  lemma TellsLast(front: seq<Definition>, last: Definition, d: Definition)
    requires Tells(front + [last], d)
    ensures Tells(front, d) && (DefinitionKey(last) == DefinitionKey(d) ==> last.ref == d.ref)
  {
    hide DefinitionKey;
    var all := front + [last];
    assert all[|front|] == last;
    assert forall i :: 0 <= i < |front| ==> all[i] == front[i];
  }

  /** Looking up by key finds the object of that name, when it has the same kind. */
  lemma {:induction false} FindByRef(defs: seq<Definition>, d: Definition)
    requires Valid(defs) && Tells(defs, d)
    ensures Find(defs, DefinitionKey(d))
      == if FindRef(defs, d.ref).Some? && KindOf(FindRef(defs, d.ref).value) == KindOf(d) then FindRef(defs, d.ref) else None
  {
    if defs != [] {
      var front, last := defs[..|defs| - 1], defs[|defs| - 1];
      assert defs == front + [last];
      ValidLast(front, last);
      TellsLast(front, last, d);
      FindByRef(front, d);
      hide Valid, Tells, KeyText;
      if DefinitionKey(last) == DefinitionKey(d) {
        KeyKind(last, d);
      }
    }
  }

  /** What `diffTables` and its siblings emit for a part, between two definitions of one object. */
  function DiffPartOps(o: Definition, n: Definition, p: Part): seq<Op> {
    if o.Table? && n.Table? && o.shape == n.shape then TablePartOps(n.ref, p, o, n)
    else if o.MaterializedView? && n.MaterializedView? && |MaterializedViewOps(o, n)| == 1 then
      (if p.Refresh? then MaterializedViewOps(o, n) else [])
    else DiffOps(o, n)
  }

  lemma DropCreatePart(r: Ref, p: Part, k: Kind, n: Definition)
    requires n.ref == r
    ensures PartOps(r, p, [Drop(k, r), Create(n, false)]) == [Drop(k, r), Create(n, false)]
    ensures forall q: Ref :: q != r ==> PartOps(q, p, [Drop(k, r), Create(n, false)]) == []
  {
    hide PartOps;
    TwoParts(r, p, Drop(k, r), Create(n, false));
    forall q: Ref | q != r ensures PartOps(q, p, [Drop(k, r), Create(n, false)]) == [] {
      TwoParts(q, p, Drop(k, r), Create(n, false));
    }
  }

  lemma DiffPart(o: Definition, n: Definition, p: Part)
    requires o.ref == n.ref && KindOf(o) == KindOf(n) && Orderly(o) && Orderly(n)
    ensures PartOps(n.ref, p, DiffOps(o, n)) == DiffPartOps(o, n, p)
  {
    var r, ops := n.ref, DiffOps(o, n);
    if o.Table? && o.shape == n.shape {
      AlteredTablePart(o, n, p);
    } else {
      hide PartOps, Orderly, IsHidden, Appends;
      NoParts(r, p);
      if |ops| == 2 {
        DropCreatePart(r, p, KindOf(o), n);
      } else if |ops| == 1 {
        assert ops == [ops[0]];
        OnePart(r, p, ops[0]);
      }
    }
  }

  /** Every operation is on this object. */
  ghost predicate AllOn(r: Ref, ops: seq<Op>) {
    forall i :: 0 <= i < |ops| ==> OnRef(ops[i], r)
  }

  lemma OneRef(op: Op, r: Ref, q: Ref)
    requires OnRef(op, r) && q != r
    ensures !OnRef(op, q)
  {
  }

  /** Nothing is emitted for other objects. */
  lemma {:induction false} Elsewhere(r: Ref, ops: seq<Op>, q: Ref, p: Part)
    requires AllOn(r, ops) && q != r
    ensures PartOps(q, p, ops) == []
  {
    hide OnRef;
    if ops != [] {
      Elsewhere(r, ops[..|ops| - 1], q, p);
      OneRef(ops[|ops| - 1], r, q);
    }
  }

  lemma AllOnAppend(r: Ref, a: seq<Op>, b: seq<Op>)
    requires AllOn(r, a) && AllOn(r, b)
    ensures AllOn(r, a + b)
  {
    hide OnRef;
  }

  lemma {:induction false} TurnsOn(loop: Loop, r: Ref, g: Group, other: seq<Item>, items: seq<Item>)
    ensures AllOn(r, Turns(loop, r, g, other, items))
  {
    hide Lookup, IsCodecRemoval;
    if items != [] {
      var front, last := items[..|items| - 1], items[|items| - 1];
      TurnsOn(loop, r, g, other, front);
      assert AllOn(r, Turn(loop, r, g, other, last));
      hide Turn;
      AllOnAppend(r, Turns(loop, r, g, other, front), Turn(loop, r, g, other, last));
    }
  }

  lemma GroupOn(r: Ref, g: Group, before: seq<Item>, after: seq<Item>)
    ensures AllOn(r, GroupOps(r, g, before, after))
  {
    hide AddOps, ChangeOps, RemoveOps, Added, Changed, Removed, Turns, AllOn;
    AddsAreTurns(r, g, before, after);
    ChangesAreTurns(r, g, before, after);
    RemovesAreTurns(r, g, before, after);
    TurnsOn(Adds, r, g, before, after);
    TurnsOn(Changes, r, g, before, after);
    TurnsOn(Removes, r, g, after, before);
    var adds, changes, removes := Turns(Adds, r, g, before, after), Turns(Changes, r, g, before, after), Turns(Removes, r, g, after, before);
    AllOnAppend(r, adds, changes);
    AllOnAppend(r, adds + changes, removes);
  }

  lemma {:induction false} SettingsOn(r: Ref, changes: seq<SettingChange>)
    ensures AllOn(r, SettingOps(r, changes))
  {
    if changes != [] {
      SettingsOn(r, changes[..|changes| - 1]);
    }
  }

  lemma TableOn(o: Definition, n: Definition)
    requires o.Table? && n.Table?
    ensures AllOn(n.ref, TableOps(o, n))
  {
    hide GroupOps, SettingOps, ChangesFor, SettingKeys;
    var r := n.ref;
    var columns, indexes := GroupOps(r, Columns, o.columns, n.columns), GroupOps(r, Indexes, o.indexes, n.indexes);
    var projections, settings := GroupOps(r, Projections, o.projections, n.projections), SettingOps(r, ChangesFor(SettingKeys(o.settings, n.settings), o.settings, n.settings));
    GroupOn(r, Columns, o.columns, n.columns);
    GroupOn(r, Indexes, o.indexes, n.indexes);
    GroupOn(r, Projections, o.projections, n.projections);
    SettingsOn(r, ChangesFor(SettingKeys(o.settings, n.settings), o.settings, n.settings));
    AllOnAppend(r, columns, indexes);
    AllOnAppend(r, columns + indexes, projections);
    AllOnAppend(r, columns + indexes + projections, settings);
    AllOnAppend(r, columns + indexes + projections + settings, TtlOps(r, o.ttl, n.ttl));
  }

  lemma DiffElsewhere(o: Definition, n: Definition, q: Ref, p: Part)
    requires o.ref == n.ref && q != n.ref
    ensures PartOps(q, p, DiffOps(o, n)) == []
  {
    hide TableOps, IsHidden, Appends, PartOps;
    if o.Table? && n.Table? {
      TableOn(o, n);
    }
    Elsewhere(n.ref, DiffOps(o, n), q, p);
  }

  // ----- everything that is emitted for one object -----

  lemma {:induction false} DropsPart(before: seq<Definition>, after: seq<Definition>, r: Ref, p: Part)
    requires Valid(before)
    ensures PartOps(r, p, DropsEmitted(before, after))
      == match FindRef(before, r)
         case Some(o) => if Find(after, DefinitionKey(o)).None? then [Drop(KindOf(o), r)] else []
         case None => []
  {
    if before == [] {
      NoParts(r, p);
    } else {
      hide PartOps, FindRef, Valid, DefinitionKey, Find;
      var front, last := before[..|before| - 1], before[|before| - 1];
      assert before == front + [last];
      ValidLast(front, last);
      FindRefLast(front, last, r);
      DropsPart(front, after, r, p);
      if Find(after, DefinitionKey(last)).None? {
        PartOpsLast(r, p, DropsEmitted(front, after), Drop(KindOf(last), last.ref));
      } else {
        assert DropsEmitted(front, after) + [] == DropsEmitted(front, after);
      }
    }
  }

  lemma {:induction false} DiffsPart(before: seq<Definition>, after: seq<Definition>, r: Ref, p: Part)
    requires Comparable(before, after)
    ensures PartOps(r, p, DiffsEmitted(before, after))
      == match FindRef(after, r)
         case Some(n) => (match Find(before, DefinitionKey(n)) case Some(o) => PartOps(r, p, DiffOps(o, n)) case None => [])
         case None => []
  {
    if after == [] {
      NoParts(r, p);
    } else {
      hide PartOps, FindRef, Valid, DefinitionKey, Find, DiffOps, Tells, KeysTell;
      var front, last := after[..|after| - 1], after[|after| - 1];
      assert after == front + [last];
      ValidLast(front, last);
      ComparableLast(before, front, last);
      FindRefLast(front, last, r);
      DiffsPart(before, front, r, p);
      var o := Find(before, DefinitionKey(last));
      NoParts(r, p);
      if o.Some? {
        PartOpsAppend(r, p, DiffsEmitted(before, front), DiffOps(o.value, last));
        if last.ref != r {
          FoundHasRef(before, last);
          DiffElsewhere(o.value, last, r, p);
        }
      } else {
        assert DiffsEmitted(before, front) + [] == DiffsEmitted(before, front);
      }
    }
  }

  lemma FoundHasRef(before: seq<Definition>, n: Definition)
    requires Valid(before) && Tells(before, n) && Find(before, DefinitionKey(n)).Some?
    ensures Find(before, DefinitionKey(n)).value.ref == n.ref
  {
    hide Tells;
    FindByRef(before, n);
    FindRefHas(before, n.ref);
  }

  lemma CreateTouches(d: Definition, r: Ref, p: Part)
    ensures Touches(Create(d, false), r, p) <==> d.ref == r
  {
  }

  lemma {:induction false} CreatesPart(before: seq<Definition>, after: seq<Definition>, r: Ref, p: Part)
    requires Valid(after)
    ensures PartOps(r, p, CreatesEmitted(before, after))
      == match FindRef(after, r)
         case Some(n) => if IsNew(before, n) then [Create(n, false)] else []
         case None => []
  {
    if after == [] {
      NoParts(r, p);
    } else {
      hide PartOps, FindRef, Valid, IsNew, Orderly;
      var front, last := after[..|after| - 1], after[|after| - 1];
      assert after == front + [last];
      ValidLast(front, last);
      FindRefLast(front, last, r);
      CreatesPart(before, front, r, p);
      CreateTouches(last, r, p);
      hide Touches;
      if IsNew(before, last) {
        PartOpsLast(r, p, CreatesEmitted(before, front), Create(last, false));
      } else {
        assert CreatesEmitted(before, front) + [] == CreatesEmitted(before, front);
      }
    }
  }

  lemma {:induction false} DatabasesPart(names: seq<string>, r: Ref, p: Part)
    ensures PartOps(r, p, DatabaseOps(names)) == []
  {
    if names == [] {
      NoParts(r, p);
    } else {
      hide PartOps;
      DatabasesPart(names[..|names| - 1], r, p);
      PartOpsLast(r, p, DatabaseOps(names[..|names| - 1]), CreateDatabase(names[|names| - 1]));
    }
  }

  /** Everything the planner emits that touches a part, from the two definitions of its object. */
  function ExpectedOps(o: Option<Definition>, n: Option<Definition>, r: Ref, p: Part): seq<Op> {
    match (o, n)
    case (None, None) => []
    case (Some(o), None) => [Drop(KindOf(o), r)]
    case (None, Some(n)) => [Create(n, false)]
    case (Some(o), Some(n)) => if KindOf(o) == KindOf(n) then DiffPartOps(o, n, p) else [Drop(KindOf(o), r), Create(n, false)]
  }

  lemma EmittedPart(leq: (string, string) -> bool, before: seq<Definition>, after: seq<Definition>, r: Ref, p: Part)
    requires Comparable(before, after)
    ensures PartOps(r, p, Emitted(leq, before, after)) == ExpectedOps(FindRef(before, r), FindRef(after, r), r, p)
  {
    hide PartOps, DropsEmitted, DiffsEmitted, CreatesEmitted, DatabaseOps, NewDatabases, Sort, DiffPartOps, DiffOps, FindRef, Find, DefinitionKey, Valid, KeysTell;
    DropsPart(before, after, r, p);
    DiffsPart(before, after, r, p);
    CreatesPart(before, after, r, p);
    DatabasesPart(Sort(leq, NewDatabases(before, after)), r, p);
    var drops, diffs, creates := DropsEmitted(before, after), DiffsEmitted(before, after), CreatesEmitted(before, after);
    var databases := DatabaseOps(Sort(leq, NewDatabases(before, after)));
    PartOpsAppend(r, p, drops + diffs + creates, databases);
    PartOpsAppend(r, p, drops + diffs, creates);
    PartOpsAppend(r, p, drops, diffs);
    var o, n := FindRef(before, r), FindRef(after, r);
    ObjectOps(before, after, r, p);
    if o.Some? && n.Some? && KindOf(o.value) != KindOf(n.value) {
      assert [Drop(KindOf(o.value), r)] + [] + [Create(n.value, false)] == [Drop(KindOf(o.value), r), Create(n.value, false)];
    }
  }

  /** How the look-ups by key of the three passes see the two definitions of an object. */
  lemma ObjectOps(before: seq<Definition>, after: seq<Definition>, r: Ref, p: Part)
    requires Comparable(before, after)
    ensures var o, n := FindRef(before, r), FindRef(after, r);
      && (o.Some? ==> Find(after, DefinitionKey(o.value)) == if n.Some? && KindOf(n.value) == KindOf(o.value) then n else None)
      && (n.Some? ==> Find(before, DefinitionKey(n.value)) == if o.Some? && KindOf(o.value) == KindOf(n.value) then o else None)
      && (n.Some? ==> (IsNew(before, n.value) <==> !(o.Some? && KindOf(o.value) == KindOf(n.value))))
      && (o.Some? && n.Some? && KindOf(o.value) == KindOf(n.value) ==> PartOps(r, p, DiffOps(o.value, n.value)) == DiffPartOps(o.value, n.value, p))
  {
    hide PartOps, DiffPartOps, DiffOps, FindRef, Find, DefinitionKey, Tells, KeysTell, Valid, Orderly;
    FindRefHas(before, r);
    FindRefHas(after, r);
    var o, n := FindRef(before, r), FindRef(after, r);
    if o.Some? {
      MemberIsValid(before, o.value);
      TellsBack(before, after, o.value);
      FindByRef(after, o.value);
    }
    if n.Some? {
      MemberIsValid(after, n.value);
      TellsOf(before, after, n.value);
      FindByRef(before, n.value);
    }
    if o.Some? && n.Some? && KindOf(o.value) == KindOf(n.value) {
      DiffPart(o.value, n.value, p);
    }
  }

  lemma MemberIsValid(defs: seq<Definition>, d: Definition)
    requires Valid(defs) && d in defs
    ensures Orderly(d)
  {
    hide Orderly;
  }

  // ----- sorting changes nothing for one part -----

  lemma PairStays(leq: (string, string) -> bool, depth: map<string, nat>, a: Op, b: Op)
    requires Before(leq, depth, a, b)
    ensures Planned(leq, depth, [a, b]) == [a, b]
  {
    hide Before;
    SortedIsFixed((x, y) => Before(leq, depth, x, y), [a, b]);
  }

  lemma ShortStays(leq: (string, string) -> bool, depth: map<string, nat>, ops: seq<Op>)
    requires |ops| <= 1
    ensures Planned(leq, depth, ops) == ops
  {
    hide Before;
    SortedIsFixed((x, y) => Before(leq, depth, x, y), ops);
  }

  /** At most a drop and a create, or a removal and an addition of one part, in that order. */
  predicate PairShape(ops: seq<Op>, r: Ref, p: Part) {
    |ops| <= 1
    || (|ops| == 2 && ops[0].Drop? && ops[1].Create?)
    || (|ops| == 2 && ops[0] == RemovePart(r, p) && ops[1].AddPart? && ops[1].ref == r && ops[1].part == p)
  }

  lemma DiffShape(o: Definition, n: Definition, p: Part)
    ensures PairShape(DiffPartOps(o, n, p), n.ref, p)
  {
    hide Lookup, SettingText, IsHidden, Appends;
  }

  lemma ExpectedShape(o: Option<Definition>, n: Option<Definition>, r: Ref, p: Part)
    requires n.Some? ==> n.value.ref == r
    ensures PairShape(ExpectedOps(o, n, r, p), r, p)
  {
    hide DiffPartOps;
    if o.Some? && n.Some? {
      DiffShape(o.value, n.value, p);
    }
  }

  lemma ExpectedStays(leq: (string, string) -> bool, depth: map<string, nat>, ops: seq<Op>, r: Ref, p: Part)
    requires Locale(leq) && PairShape(ops, r, p)
    ensures Planned(leq, depth, ops) == ops
  {
    hide Planned, KeyText, PartText;
    if |ops| <= 1 {
      ShortStays(leq, depth, ops);
    } else {
      assert ops == [ops[0], ops[1]];
      if ops[0].RemovePart? {
        Total(leq, OpKey(ops[0]), OpKey(ops[1]));
      }
      PairStays(leq, depth, ops[0], ops[1]);
    }
  }

  /** The planned operations on a part are the expected ones, in order. */
  lemma PlannedPart(leq: (string, string) -> bool, depth: map<string, nat>, before: seq<Definition>, after: seq<Definition>, r: Ref, p: Part)
    requires Locale(leq) && Comparable(before, after)
    ensures PartOps(r, p, Planned(leq, depth, Emitted(leq, before, after))) == ExpectedOps(FindRef(before, r), FindRef(after, r), r, p)
  {
    hide Planned, Emitted, Locale, Comparable, PartOps, ExpectedOps, FindRef, PairShape;
    PlannedPartwise(leq, depth, Emitted(leq, before, after), r, p);
    EmittedPart(leq, before, after, r, p);
    FindRefHas(after, r);
    ExpectedShape(FindRef(before, r), FindRef(after, r), r, p);
    ExpectedStays(leq, depth, ExpectedOps(FindRef(before, r), FindRef(after, r), r, p), r, p);
  }

  // ----- the target is reached -----

  lemma FoldOne(p: Part, v: Option<Payload>, a: Op)
    ensures FoldPart(p, v, [a]) == PartAfter(a, p, v)
  {
    assert [a][..0] == [];
  }

  lemma FoldTwo(p: Part, v: Option<Payload>, a: Op, b: Op)
    ensures FoldPart(p, v, [a, b]) == PartAfter(b, p, PartAfter(a, p, v))
  {
    hide PartAfter;
    FoldOne(p, v, a);
    assert [a] + [b] == [a, b];
    FoldLast(p, v, [a], b);
  }

  lemma FoldShort(p: Part, v: Option<Payload>, ops: seq<Op>)
    requires |ops| <= 2
    ensures FoldPart(p, v, ops)
      == if ops == [] then v else if |ops| == 1 then PartAfter(ops[0], p, v) else PartAfter(ops[1], p, PartAfter(ops[0], p, v))
  {
    hide PartAfter, FoldPart;
    if ops == [] {
      FoldNone(p, v);
    } else if |ops| == 1 {
      assert ops == [ops[0]];
      FoldOne(p, v, ops[0]);
    } else {
      assert ops == [ops[0], ops[1]];
      FoldTwo(p, v, ops[0], ops[1]);
    }
  }

  lemma FoldNone(p: Part, v: Option<Payload>)
    ensures FoldPart(p, v, []) == v
  {
  }

  /** The one thing a diff ignores: the source of a dictionary whose new source is a placeholder. */
  predicate HiddenSource(n: Option<Definition>, p: Part) {
    n.Some? && n.value.Dictionary? && IsHidden(n.value.source) && p.Source?
  }

  /** The TTL of a table that stays turns into an empty text, which is set instead of removed. */
  predicate BlankTtl(o: Option<Definition>, n: Option<Definition>, p: Part) {
    && p.Ttl? && o.Some? && n.Some? && o.value.Table? && n.value.Table? && o.value.shape == n.value.shape
    && n.value.ttl == Some("") && OrEmpty(o.value.ttl) != ""
  }

  lemma TablePartReached(o: Definition, n: Definition, p: Part)
    requires o.Table? && n.Table? && o.shape == n.shape
    ensures FoldPart(p, Show(o, p), TablePartOps(n.ref, p, o, n)) == Show(n, p) <==> !BlankTtl(Some(o), Some(n), p)
  {
    hide Lookup, SettingText, FoldPart;
    FoldShort(p, Show(o, p), TablePartOps(n.ref, p, o, n));
  }

  lemma DiffReached(o: Definition, n: Definition, p: Part)
    requires o.ref == n.ref && KindOf(o) == KindOf(n)
    ensures HiddenSource(Some(n), p)
      || (FoldPart(p, Show(o, p), DiffPartOps(o, n, p)) == Show(n, p) <==> !BlankTtl(Some(o), Some(n), p))
  {
    if o.Table? && o.shape == n.shape {
      TablePartReached(o, n, p);
    } else {
      hide IsHidden, Lookup, SettingText, FoldPart;
      FoldShort(p, Show(o, p), DiffPartOps(o, n, p));
    }
  }

  lemma PartReached(o: Option<Definition>, n: Option<Definition>, r: Ref, p: Part)
    requires (o.Some? ==> o.value.ref == r) && (n.Some? ==> n.value.ref == r)
    ensures HiddenSource(n, p)
      || (FoldPart(p, ShowRef(o, p), ExpectedOps(o, n, r, p)) == ShowRef(n, p) <==> !BlankTtl(o, n, p))
  {
    hide DiffPartOps, Show, FoldPart;
    if o.Some? && n.Some? && KindOf(o.value) == KindOf(n.value) {
      DiffReached(o.value, n.value, p);
    } else {
      FoldShort(p, ShowRef(o, p), ExpectedOps(o, n, r, p));
    }
  }

  /**
   Replaying the plan over the old catalogue yields the new one: every object and every part of it, and
   nothing else, up to the placeholder source. It misses exactly the TTLs that turned blank.
   */
  lemma ReplayReachesTarget(leq: (string, string) -> bool, depth: map<string, nat>, before: seq<Definition>, after: seq<Definition>, r: Ref, p: Part)
    requires Locale(leq) && Comparable(before, after)
    ensures var reached := Run(CatalogueOf(before), Planned(leq, depth, Emitted(leq, before, after)));
      || HiddenSource(FindRef(after, r), p)
      || (reached.parts(r, p) == CatalogueOf(after).parts(r, p) <==> !BlankTtl(FindRef(before, r), FindRef(after, r), p))
  {
    hide Planned, Emitted, Locale, Comparable, PartOps, ExpectedOps, FindRef, Run, FoldPart, ShowRef, IsHidden, BlankTtl;
    RunIsPartwise(CatalogueOf(before), Planned(leq, depth, Emitted(leq, before, after)), r, p);
    PlannedPart(leq, depth, before, after, r, p);
    FindRefHas(before, r);
    FindRefHas(after, r);
    PartReached(FindRef(before, r), FindRef(after, r), r, p);
  }

  // ----- every statement is legal where it stands -----

  /** What legality asks of the object's body and of the part the operation is about. */
  predicate LegalValues(op: Op, body: Option<Payload>, v: Option<Payload>) {
    match op
    case Drop(k, _) => KindShown(body) == Some(k)
    case CreateDatabase(_) => true
    case Create(_, replace) => if replace then KindShown(body) == Some(DictionaryKind) else body.None?
    case ModifyRefresh(_, _) => v.Some?
    case AddPart(_, _, _) => KindShown(body) == Some(TableKind) && v.None?
    case ModifyPart(_, p, _) => KindShown(body) == Some(TableKind) && (p.Member? ==> v.Some?) && !SetsBlankTtl(op)
    case RemoveCodec(_, _) => KindShown(body) == Some(TableKind) && v.Some?
    case RemovePart(_, _) => KindShown(body) == Some(TableKind) && v.Some?
  }

  /** The part an operation is about; for a drop or a create that is the body. */
  function OwnPart(op: Op): Part {
    if op.Drop? || op.Create? || op.CreateDatabase? then Body else AlteredPart(op)
  }

  /** Where an operation stands among those on its part: first, or second behind the other one. */
  lemma FirstOrSecond(ops: seq<Op>, f: seq<Op>, op: Op, g: seq<Op>)
    requires ops == f + [op] + g && |ops| <= 2
    ensures |ops| > 0
    ensures f == [] ==> op == ops[0]
    ensures f != [] ==> |ops| == 2 && f == [ops[0]] && op == ops[1]
  {
    assert ops[|f|] == op;
    if f != [] {
      assert f[0] == ops[0];
    }
  }

  lemma {:induction false} PartOpsSplit(r: Ref, p: Part, ops: seq<Op>, i: nat)
    requires i < |ops|
    ensures PartOps(r, p, ops) == PartOps(r, p, ops[..i]) + (if Touches(ops[i], r, p) then [ops[i]] else []) + PartOps(r, p, ops[i + 1..])
  {
    hide Touches, PartOps;
    assert ops == (ops[..i] + [ops[i]]) + ops[i + 1..];
    PartOpsAppend(r, p, ops[..i] + [ops[i]], ops[i + 1..]);
    PartOpsLast(r, p, ops[..i], ops[i]);
  }

  lemma OwnIsTouched(op: Op, r: Ref)
    requires OnRef(op, r)
    ensures Touches(op, r, OwnPart(op))
  {
  }

  /** An operation on a member finds the member as it needs it. */
  lemma MemberLegal(r: Ref, g: Group, m: string, before: Option<Value>, after: Option<Value>, f: seq<Op>, op: Op, rest: seq<Op>, body: Option<Payload>)
    requires MemberOps(r, g, m, before, after) == f + [op] + rest && KindShown(body) == Some(TableKind)
    ensures LegalValues(op, body, FoldPart(Member(g, m), if before.Some? then Some(Held(before.value)) else None, f))
  {
    hide FoldPart, IsCodecRemoval;
    FirstOrSecond(MemberOps(r, g, m, before, after), f, op, rest);
    FoldShort(Member(g, m), if before.Some? then Some(Held(before.value)) else None, f);
  }

  lemma PlainLegal(r: Ref, p: Part, before: Option<string>, after: Option<string>, f: seq<Op>, op: Op, rest: seq<Op>, body: Option<Payload>)
    requires PlainOps(r, p, before, after) == f + [op] + rest && KindShown(body) == Some(TableKind) && !p.Member? && !p.Ttl?
    ensures LegalValues(op, body, FoldPart(p, if before.Some? then Some(Payload.Plain(before.value)) else None, f))
  {
    hide FoldPart;
    FirstOrSecond(PlainOps(r, p, before, after), f, op, rest);
    FoldShort(p, if before.Some? then Some(Payload.Plain(before.value)) else None, f);
  }

  lemma TtlLegal(r: Ref, before: Option<string>, after: Option<string>, f: seq<Op>, op: Op, rest: seq<Op>, body: Option<Payload>)
    requires TtlOps(r, before, after) == f + [op] + rest && KindShown(body) == Some(TableKind) && !SetsBlankTtl(op)
    ensures LegalValues(op, body, FoldPart(Ttl, if OrEmpty(before) != "" then Some(Payload.Plain(OrEmpty(before))) else None, f))
  {
    hide FoldPart;
    FirstOrSecond(TtlOps(r, before, after), f, op, rest);
    FoldShort(Ttl, if OrEmpty(before) != "" then Some(Payload.Plain(OrEmpty(before))) else None, f);
  }

  lemma TablePartLegal(o: Definition, n: Definition, p: Part, f: seq<Op>, op: Op, rest: seq<Op>)
    requires o.Table? && n.Table? && TablePartOps(n.ref, p, o, n) == f + [op] + rest && !SetsBlankTtl(op)
    ensures LegalValues(op, Show(o, Body), FoldPart(p, Show(o, p), f))
  {
    hide FoldPart, MemberOps, PlainOps, TtlOps, OrEmpty, SetsBlankTtl, LegalValues, Lookup, SettingText;
    var body := Show(o, Body);
    match p
    case Member(g, m) => MemberLegal(n.ref, g, m, Lookup(Items(o, g), m), Lookup(Items(n, g), m), f, op, rest, body);
    case Setting(k) => PlainLegal(n.ref, p, SettingText(o.settings, k), SettingText(n.settings, k), f, op, rest, body);
    case Ttl => TtlLegal(n.ref, o.ttl, n.ttl, f, op, rest, body);
    case _ => NothingThere(f, op, rest);
  }

  lemma NothingThere(f: seq<Op>, op: Op, rest: seq<Op>)
    ensures [] != f + [op] + rest
  {
    assert |f + [op] + rest| > 0;
  }

  /** Whatever is planned for an object whose body the plan replaces or drops. */
  lemma WholeLegal(o: Option<Definition>, n: Option<Definition>, r: Ref, f: seq<Op>, op: Op, rest: seq<Op>)
    requires (o.Some? ==> o.value.ref == r) && (n.Some? ==> n.value.ref == r)
    requires ExpectedOps(o, n, r, Body) == f + [op] + rest
    ensures LegalValues(op, FoldPart(Body, ShowRef(o, Body), f), FoldPart(Body, ShowRef(o, Body), f))
  {
    hide FoldPart, Appends, IsHidden, TableOps, Lookup, SettingText;
    if o.Some? && n.Some? && KindOf(o.value) == KindOf(n.value) {
      ReplacedShape(o.value, n.value);
      hide DiffPartOps;
    }
    FirstOrSecond(ExpectedOps(o, n, r, Body), f, op, rest);
    FoldShort(Body, ShowRef(o, Body), f);
  }

  /** What a diff plans for a body: nothing, a drop and a create, or a replace of a dictionary. */
  lemma ReplacedShape(o: Definition, n: Definition)
    requires o.ref == n.ref && KindOf(o) == KindOf(n)
    ensures var ops := DiffPartOps(o, n, Body);
      ops == [] || ops == [Drop(KindOf(o), n.ref), Create(n, false)] || (o.Dictionary? && ops == [Create(n, true)])
  {
    hide Appends, IsHidden, Lookup, SettingText;
  }

  /** What a diff plans for a part: alterations of a kept body, or nothing but drops and creates. */
  lemma DiffKeepsOrReplaces(o: Definition, n: Definition, p: Part)
    requires KindOf(o) == KindOf(n)
    ensures var ops := DiffPartOps(o, n, p);
      || (forall i :: 0 <= i < |ops| ==> ops[i].Drop? || ops[i].Create?)
      || (o.Table? && ops == TablePartOps(n.ref, p, o, n) && DiffPartOps(o, n, Body) == [])
      || (o.MaterializedView? && p.Refresh? && o.refresh.Some? && |ops| == 1 && ops[0].ModifyRefresh? && DiffPartOps(o, n, Body) == [])
  {
    if o.Table? && o.shape == n.shape {
      TableBodyStays(o, n);
    }
    hide TablePartOps, IsHidden, GroupOps, SettingOps, TtlOps;
  }

  /** An alteration is planned only for an object that stays, with its body untouched. */
  lemma AlterationKeepsBody(o: Option<Definition>, n: Option<Definition>, r: Ref, p: Part, f: seq<Op>, op: Op, rest: seq<Op>)
    requires n.Some? ==> n.value.ref == r
    requires ExpectedOps(o, n, r, p) == f + [op] + rest && !op.Drop? && !op.Create?
    ensures o.Some? && n.Some? && KindOf(o.value) == KindOf(n.value) && ExpectedOps(o, n, r, Body) == []
    ensures (o.value.Table? && TablePartOps(r, p, o.value, n.value) == f + [op] + rest)
      || (o.value.MaterializedView? && p.Refresh? && f == [] && op.ModifyRefresh? && o.value.refresh.Some?)
  {
    hide TablePartOps, DiffPartOps;
    var ops := ExpectedOps(o, n, r, p);
    assert ops[|f|] == op;
    if o.Some? && n.Some? && KindOf(o.value) == KindOf(n.value) {
      DiffKeepsOrReplaces(o.value, n.value, p);
    }
    if |ops| == 1 {
      FirstOrSecond(ops, f, op, rest);
    }
  }

  lemma TableBodyStays(o: Definition, n: Definition)
    requires o.Table? && n.Table?
    ensures TablePartOps(n.ref, Body, o, n) == []
  {
  }

  lemma ValuesLegal(o: Option<Definition>, n: Option<Definition>, r: Ref, op: Op, f: seq<Op>, rest: seq<Op>, fBody: seq<Op>, restBody: seq<Op>)
    requires (o.Some? ==> o.value.ref == r) && (n.Some? ==> n.value.ref == r) && OnRef(op, r) && !SetsBlankTtl(op)
    requires ExpectedOps(o, n, r, OwnPart(op)) == f + [op] + rest
    requires ExpectedOps(o, n, r, Body) == fBody + (if Touches(op, r, Body) then [op] else []) + restBody
    ensures LegalValues(op, FoldPart(Body, ShowRef(o, Body), fBody), FoldPart(OwnPart(op), ShowRef(o, OwnPart(op)), f))
  {
    hide ExpectedOps, FoldPart, LegalValues, TablePartOps;
    if op.Drop? || op.Create? {
      WholeLegal(o, n, r, fBody, op, restBody);
      WholeOwn(o, n, r, op, f, rest, fBody, restBody);
    } else {
      AlterationKeepsBody(o, n, r, OwnPart(op), f, op, rest);
      assert fBody == [];
      FoldNone(Body, ShowRef(o, Body));
      if o.value.Table? {
        TablePartLegal(o.value, n.value, OwnPart(op), f, op, rest);
      } else {
        FoldNone(Refresh, ShowRef(o, Refresh));
        RefreshLegal(op, FoldPart(Body, ShowRef(o, Body), fBody), ShowRef(o, Refresh));
      }
    }
  }

  lemma RefreshLegal(op: Op, body: Option<Payload>, v: Option<Payload>)
    requires op.ModifyRefresh? && v.Some?
    ensures LegalValues(op, body, v)
  {
  }

  /** For a drop or a create both views of its surroundings are the same. */
  lemma WholeOwn(o: Option<Definition>, n: Option<Definition>, r: Ref, op: Op, f: seq<Op>, rest: seq<Op>, fBody: seq<Op>, restBody: seq<Op>)
    requires (o.Some? ==> o.value.ref == r) && (n.Some? ==> n.value.ref == r)
    requires op.Drop? || op.Create?
    requires ExpectedOps(o, n, r, Body) == f + [op] + rest && ExpectedOps(o, n, r, Body) == fBody + [op] + restBody
    ensures f == fBody
  {
    hide DiffPartOps;
    if o.Some? && n.Some? && KindOf(o.value) == KindOf(n.value) {
      ReplacedShape(o.value, n.value);
    }
    FirstOrSecond(ExpectedOps(o, n, r, Body), f, op, rest);
    FirstOrSecond(ExpectedOps(o, n, r, Body), fBody, op, restBody);
  }

  lemma {:induction false} DatabasesGrow(cat: Catalogue, ops: seq<Op>, i: nat, d: string)
    requires i <= |ops| && d in Run(cat, ops[..i]).databases
    ensures d in Run(cat, ops).databases
    decreases |ops| - i
  {
    if i < |ops| {
      assert ops[..i + 1][..i] == ops[..i];
      DatabasesGrow(cat, ops, i + 1, d);
    } else {
      assert ops[..i] == ops;
    }
  }

  lemma {:induction false} DatabaseIsListed(defs: seq<Definition>, d: Definition)
    requires d in defs
    ensures d.ref.database in Databases(defs)
  {
    var front, last := defs[..|defs| - 1], defs[|defs| - 1];
    assert defs == front + [last];
    if d != last {
      DatabaseIsListed(front, d);
    }
  }

  lemma {:induction false} NewDatabaseIsListed(before: seq<Definition>, after: seq<Definition>, n: Definition)
    requires n in after && IsNew(before, n)
    ensures n.ref.database in NewDatabases(before, after)
  {
    hide IsNew;
    var front, last := after[..|after| - 1], after[|after| - 1];
    assert after == front + [last];
    if n != last {
      NewDatabaseIsListed(before, front, n);
    }
  }

  lemma {:induction false} DatabaseOpIsListed(names: seq<string>, d: string)
    requires d in names
    ensures CreateDatabase(d) in DatabaseOps(names)
  {
    var front, last := names[..|names| - 1], names[|names| - 1];
    assert names == front + [last];
    if d != last {
      DatabaseOpIsListed(front, d);
    }
  }

  lemma DatabaseIsEmitted(leq: (string, string) -> bool, before: seq<Definition>, after: seq<Definition>, n: Definition)
    requires n in after && IsNew(before, n)
    ensures CreateDatabase(n.ref.database) in Emitted(leq, before, after)
  {
    hide IsNew, DropsEmitted, DiffsEmitted, CreatesEmitted, NewDatabases, Sort, DatabaseOps;
    NewDatabaseIsListed(before, after, n);
    SortHas(leq, NewDatabases(before, after), n.ref.database);
    DatabaseOpIsListed(Sort(leq, NewDatabases(before, after)), n.ref.database);
  }

  lemma InPlan(leq: (string, string) -> bool, depth: map<string, nat>, emitted: seq<Op>, op: Op)
    ensures op in Planned(leq, depth, emitted) <==> op in emitted
  {
    hide Before;
    SortHas((a, b) => Before(leq, depth, a, b), emitted, op);
  }

  lemma CreatedDatabaseStays(cat: Catalogue, ops: seq<Op>, j: nat, i: nat, d: string)
    requires j < i <= |ops| && ops[j] == CreateDatabase(d)
    ensures d in Run(cat, ops[..i]).databases
  {
    assert ops[..i][..j + 1] == ops[..j + 1] && ops[..j + 1][j] == CreateDatabase(d);
    assert d in Run(cat, ops[..j + 1]).databases;
    DatabasesGrow(cat, ops[..i], j + 1, d);
  }

  /** The database of something new is created earlier in the plan. */
  lemma DatabaseComesFirst(leq: (string, string) -> bool, depth: map<string, nat>, cat: Catalogue, emitted: seq<Op>, i: nat, n: Definition)
    requires Locale(leq) && CreateDatabase(n.ref.database) in emitted && i < |Planned(leq, depth, emitted)|
    requires Planned(leq, depth, emitted)[i] == Create(n, false)
    ensures n.ref.database in Run(cat, Planned(leq, depth, emitted)[..i]).databases
  {
    var d := n.ref.database;
    hide Planned, Locale, Run, OpKey, DepthOf;
    InPlan(leq, depth, emitted, CreateDatabase(d));
    var ops := Planned(leq, depth, emitted);
    var j :| 0 <= j < |ops| && ops[j] == CreateDatabase(d);
    if i < j {
      PlannedIsSorted(leq, depth, emitted, i, j);
    }
    CreatedDatabaseStays(cat, ops, j, i, d);
  }

  lemma BaseDatabaseStays(before: seq<Definition>, ops: seq<Op>, i: nat, o: Definition)
    requires o in before && i <= |ops|
    ensures o.ref.database in Run(CatalogueOf(before), ops[..i]).databases
  {
    DatabaseIsListed(before, o);
    assert ops[..i][..0] == [];
    DatabasesGrow(CatalogueOf(before), ops[..i], 0, o.ref.database);
  }

  /** What a planned create creates is the new definition of that name. */
  lemma CreateIsTheTarget(o: Option<Definition>, n: Option<Definition>, r: Ref, f: seq<Op>, op: Op, rest: seq<Op>)
    requires (o.Some? ==> o.value.ref == r) && (n.Some? ==> n.value.ref == r)
    requires ExpectedOps(o, n, r, Body) == f + [op] + rest && op.Create?
    ensures n == Some(op.def) && (o.None? ==> !op.replace)
  {
    hide DiffPartOps;
    if o.Some? && n.Some? && KindOf(o.value) == KindOf(n.value) {
      ReplacedShape(o.value, n.value);
    }
    FirstOrSecond(ExpectedOps(o, n, r, Body), f, op, rest);
  }

  lemma NewWithoutOld(before: seq<Definition>, n: Definition)
    requires Valid(before) && Tells(before, n) && FindRef(before, n.ref).None?
    ensures IsNew(before, n)
  {
    hide Tells;
    FindByRef(before, n);
  }

  /** The database of whatever is created exists by then. */
  lemma CreateFindsDatabase(leq: (string, string) -> bool, depth: map<string, nat>, before: seq<Definition>, after: seq<Definition>, i: nat, op: Op)
    requires Locale(leq) && Comparable(before, after) && i < |Planned(leq, depth, Emitted(leq, before, after))|
    requires op == Planned(leq, depth, Emitted(leq, before, after))[i] && op.Create?
    requires FindRef(after, op.def.ref) == Some(op.def) && (FindRef(before, op.def.ref).None? ==> !op.replace)
    ensures op.def.ref.database in Run(CatalogueOf(before), Planned(leq, depth, Emitted(leq, before, after))[..i]).databases
  {
    hide Planned, Emitted, Locale, Valid, KeysTell, Tells, FindRef, Run, IsNew, Orderly;
    var n := op.def;
    FindRefHas(before, n.ref);
    FindRefHas(after, n.ref);
    if FindRef(before, n.ref).Some? {
      BaseDatabaseStays(before, Planned(leq, depth, Emitted(leq, before, after)), i, FindRef(before, n.ref).value);
    } else {
      TellsOf(before, after, n);
      NewWithoutOld(before, n);
      DatabaseIsEmitted(leq, before, after, n);
      DatabaseComesFirst(leq, depth, CatalogueOf(before), Emitted(leq, before, after), i, n);
    }
  }

  function RefOf(op: Op): Ref
    requires !op.CreateDatabase?
  {
    if op.Create? then op.def.ref else op.ref
  }

  lemma PlannedSplit(leq: (string, string) -> bool, depth: map<string, nat>, before: seq<Definition>, after: seq<Definition>, i: nat, r: Ref, p: Part)
    returns (f: seq<Op>, rest: seq<Op>)
    requires Locale(leq) && Comparable(before, after) && i < |Planned(leq, depth, Emitted(leq, before, after))|
    ensures var ops := Planned(leq, depth, Emitted(leq, before, after));
      && ExpectedOps(FindRef(before, r), FindRef(after, r), r, p) == f + (if Touches(ops[i], r, p) then [ops[i]] else []) + rest
      && Run(CatalogueOf(before), ops[..i]).parts(r, p) == FoldPart(p, ShowRef(FindRef(before, r), p), f)
  {
    hide Planned, Emitted, Locale, Comparable, PartOps, ExpectedOps, FindRef, Run, FoldPart, ShowRef, Touches;
    var ops := Planned(leq, depth, Emitted(leq, before, after));
    PlannedPart(leq, depth, before, after, r, p);
    PartOpsSplit(r, p, ops, i);
    RunIsPartwise(CatalogueOf(before), ops[..i], r, p);
    f, rest := PartOps(r, p, ops[..i]), PartOps(r, p, ops[i + 1..]);
  }

  lemma LegalFromValues(cat: Catalogue, op: Op)
    requires !op.CreateDatabase? && LegalValues(op, cat.parts(RefOf(op), Body), cat.parts(RefOf(op), OwnPart(op)))
    requires op.Create? ==> op.def.ref.database in cat.databases
    ensures Legal(cat, op)
  {
  }

  /**
   Every statement of the plan is accepted where it stands: no create hits an existing object or a
   missing database, every alteration finds its table and the member it needs, every drop finds its kind.
   The one exception is a TTL set to an empty text.
   */
  lemma EveryStatementIsLegal(leq: (string, string) -> bool, depth: map<string, nat>, before: seq<Definition>, after: seq<Definition>, i: nat)
    requires Locale(leq) && Comparable(before, after) && i < |Planned(leq, depth, Emitted(leq, before, after))|
    ensures Legal(Run(CatalogueOf(before), Planned(leq, depth, Emitted(leq, before, after))[..i]), Planned(leq, depth, Emitted(leq, before, after))[i])
      <==> !SetsBlankTtl(Planned(leq, depth, Emitted(leq, before, after))[i])
  {
    var op := Planned(leq, depth, Emitted(leq, before, after))[i];
    if !op.CreateDatabase? && !SetsBlankTtl(op) {
      hide SetsBlankTtl, Planned, Emitted, Locale, Comparable, ExpectedOps, FindRef, Run, FoldPart, ShowRef, LegalValues, Legal, CatalogueOf;
      var r := RefOf(op);
      FindRefHas(before, r);
      FindRefHas(after, r);
      OwnIsTouched(op, r);
      var f, rest := PlannedSplit(leq, depth, before, after, i, r, OwnPart(op));
      var fBody, restBody := PlannedSplit(leq, depth, before, after, i, r, Body);
      hide Touches;
      ValuesLegal(FindRef(before, r), FindRef(after, r), r, op, f, rest, fBody, restBody);
      if op.Create? {
        CreateIsTheTarget(FindRef(before, r), FindRef(after, r), r, f, op, rest);
        CreateFindsDatabase(leq, depth, before, after, i, op);
      }
      LegalFromValues(Run(CatalogueOf(before), Planned(leq, depth, Emitted(leq, before, after))[..i]), op);
    }
  }
}
