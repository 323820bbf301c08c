/**
 Column rename suggestions: a dropped and an added column that differ in nothing but their name.
 */
module RenameSuggestions {
  import opened Wrappers
  import opened StableSort
  import opened DiffPrimitives

  datatype Suggestion = Suggestion(from: string, to: string)

  /** The added columns with this signature, in their order. */
  function Candidates(added: seq<Item>, signature: Value): seq<Item> {
    if added == [] then []
    else
      var last := added[|added| - 1];
      Candidates(added[..|added| - 1], signature) + if last.value == signature then [last] else []
  }

  predicate Occurs(items: seq<Item>, signature: Value) {
    exists i :: 0 <= i < |items| && items[i].value == signature
  }

  /** Which dropped columns get a suggestion: the first of a signature that exactly one added column has. */
  function Suggested(added: seq<Item>, dropped: seq<Item>): seq<Suggestion> {
    if dropped == [] then []
    else
      var front, last := dropped[..|dropped| - 1], dropped[|dropped| - 1];
      var candidates := Candidates(added, last.value);
      Suggested(added, front) + if |candidates| == 1 && !Occurs(front, last.value) then [Suggestion(last.name, candidates[0].name)] else []
  }

  predicate InOrder(leq: (string, string) -> bool, a: Suggestion, b: Suggestion) {
    if leq(a.from, b.from) && leq(b.from, a.from) then leq(a.to, b.to) else leq(a.from, b.from)
  }

  // ----- the loops -----

  /** The map of the added columns by signature, without the signatures that were used up. */
  ghost predicate IsGrouped(groups: map<Value, seq<Item>>, added: seq<Item>, used: seq<Item>) {
    forall v ::
      && (v in groups <==> Candidates(added, v) != [] && !(|Candidates(added, v)| == 1 && Occurs(used, v)))
      && (v in groups ==> groups[v] == Candidates(added, v))
  }

  method GroupBySignature(added: seq<Item>) returns (groups: map<Value, seq<Item>>)
    ensures IsGrouped(groups, added, [])
  {
    groups := map[];
    for i := 0 to |added|
      invariant IsGrouped(groups, added[..i], [])
    {
      assert added[..i + 1][..i] == added[..i];
      var signature := added[i].value;
      var existing := if signature in groups then groups[signature] else [];
      groups := groups[signature := existing + [added[i]]];
    }
    assert added[..|added|] == added;
  }

  lemma OccursLast(front: seq<Item>, x: Item, v: Value)
    ensures Occurs(front + [x], v) <==> Occurs(front, v) || x.value == v
  {
    if Occurs(front, v) {
      var i :| 0 <= i < |front| && front[i].value == v;
      assert (front + [x])[i].value == v;
    }
    assert (front + [x])[|front|] == x;
  }

  /** One dropped column: whether it gets a suggestion, and what is left for the next ones. */
  lemma OneDropped(groups: map<Value, seq<Item>>, added: seq<Item>, front: seq<Item>, x: Item)
    requires IsGrouped(groups, added, front)
    ensures var alone := x.value in groups && |groups[x.value]| == 1;
      && (alone <==> |Candidates(added, x.value)| == 1 && !Occurs(front, x.value))
      && (alone ==> groups[x.value] == Candidates(added, x.value))
      && IsGrouped(if alone then groups - {x.value} else groups, added, front + [x])
  {
    hide Candidates, Occurs;
    forall v ensures Occurs(front + [x], v) <==> Occurs(front, v) || x.value == v {
      OccursLast(front, x, v);
    }
  }

  lemma SuggestedLast(added: seq<Item>, front: seq<Item>, x: Item)
    ensures Suggested(added, front + [x]) == Suggested(added, front)
      + if |Candidates(added, x.value)| == 1 && !Occurs(front, x.value) then [Suggestion(x.name, Candidates(added, x.value)[0].name)] else []
  {
    hide Candidates, Occurs;
    assert (front + [x])[..|front|] == front;
  }

  method InferColumnRenameSuggestions(leq: (string, string) -> bool, added: seq<Item>, dropped: seq<Item>) returns (out: seq<Suggestion>)
    ensures out == Sort((a, b) => InOrder(leq, a, b), Suggested(added, dropped))
  {
    var groups := GroupBySignature(added);
    var suggestions: seq<Suggestion> := [];
    for i := 0 to |dropped|
      invariant IsGrouped(groups, added, dropped[..i]) && suggestions == Suggested(added, dropped[..i])
    {
      hide *;
      var column := dropped[i];
      assert dropped[..i + 1] == dropped[..i] + [column];
      OneDropped(groups, added, dropped[..i], column);
      SuggestedLast(added, dropped[..i], column);
      if column.value in groups && |groups[column.value]| == 1 {
        var candidate := groups[column.value][0];
        groups := groups - {column.value};
        suggestions := suggestions + [Suggestion(column.name, candidate.name)];
      }
    }
    assert dropped[..|dropped|] == dropped;
    out := Sort((a, b) => InOrder(leq, a, b), suggestions);
  }

  // ----- what is suggested -----

  lemma {:induction false} CandidatesAre(added: seq<Item>, v: Value, x: Item)
    ensures x in Candidates(added, v) <==> x in added && x.value == v
  {
    if added != [] {
      var front, last := added[..|added| - 1], added[|added| - 1];
      assert added == front + [last];
      CandidatesAre(front, v, x);
    }
  }

  /** The first dropped column of its signature, which one added column alone has. */
  predicate IsRename(added: seq<Item>, dropped: seq<Item>, i: nat, s: Suggestion)
    requires i < |dropped|
  {
    && s.from == dropped[i].name && !Occurs(dropped[..i], dropped[i].value)
    && |Candidates(added, dropped[i].value)| == 1 && Candidates(added, dropped[i].value)[0].name == s.to
  }

  lemma {:induction false} SuggestedExactly(added: seq<Item>, dropped: seq<Item>, s: Suggestion)
    ensures s in Suggested(added, dropped) <==> exists i :: 0 <= i < |dropped| && IsRename(added, dropped, i, s)
  {
    hide Candidates;
    if dropped != [] {
      var front, last := dropped[..|dropped| - 1], dropped[|dropped| - 1];
      assert dropped == front + [last];
      SuggestedExactly(added, front, s);
      forall i | 0 <= i < |front| ensures IsRename(added, front, i, s) <==> IsRename(added, dropped, i, s) {
        assert dropped[..i] == front[..i];
      }
      hide Occurs;
      assert dropped[..|front|] == front;
      if exists i :: 0 <= i < |front| && IsRename(added, front, i, s) {
        var i :| 0 <= i < |front| && IsRename(added, front, i, s);
        assert IsRename(added, dropped, i, s);
      }
      if exists i :: 0 <= i < |dropped| && IsRename(added, dropped, i, s) {
        var i :| 0 <= i < |dropped| && IsRename(added, dropped, i, s);
        assert i < |front| ==> IsRename(added, front, i, s);
      } else {
        assert !IsRename(added, dropped, |front|, s);
      }
    }
  }

  /**
   A suggestion names a dropped and an added column of one signature, no other added column has that
   signature, and every dropped column that is the only one of its signature gets one.
   */
  lemma SuggestionsAreExact(leq: (string, string) -> bool, added: seq<Item>, dropped: seq<Item>, s: Suggestion)
    ensures s in Sort((a, b) => InOrder(leq, a, b), Suggested(added, dropped))
      <==> exists i :: 0 <= i < |dropped| && IsRename(added, dropped, i, s)
  {
    hide InOrder, IsRename;
    SortHas((a, b) => InOrder(leq, a, b), Suggested(added, dropped), s);
    SuggestedExactly(added, dropped, s);
  }

  /** Suggestions are listed by the dropped column, and those of one column by the added one. */
  lemma SuggestionsAreOrdered(leq: (string, string) -> bool, added: seq<Item>, dropped: seq<Item>, i: nat, j: nat)
    requires TotalPreorder(leq) && i < j < |Sort((a, b) => InOrder(leq, a, b), Suggested(added, dropped))|
    ensures var out := Sort((a, b) => InOrder(leq, a, b), Suggested(added, dropped));
      leq(out[i].from, out[j].from) && (leq(out[j].from, out[i].from) ==> leq(out[i].to, out[j].to))
  {
    hide Suggested;
    forall a: Suggestion, b: Suggestion ensures InOrder(leq, a, b) || InOrder(leq, b, a) {
      Total(leq, a.from, b.from);
      Total(leq, a.to, b.to);
    }
    forall a: Suggestion, b: Suggestion, c: Suggestion | InOrder(leq, a, b) && InOrder(leq, b, c) ensures InOrder(leq, a, c) {
      InOrderIsTransitive(leq, a, b, c);
    }
    SortSorts((a, b) => InOrder(leq, a, b), Suggested(added, dropped));
  }

  lemma InOrderIsTransitive(leq: (string, string) -> bool, a: Suggestion, b: Suggestion, c: Suggestion)
    requires TotalPreorder(leq) && InOrder(leq, a, b) && InOrder(leq, b, c)
    ensures InOrder(leq, a, c)
  {
  }

  lemma EarlierOccurs(dropped: seq<Item>, i: nat, j: nat)
    requires i < j < |dropped| && dropped[i].value == dropped[j].value
    ensures Occurs(dropped[..j], dropped[j].value)
  {
    assert dropped[..j][i].value == dropped[j].value;
  }

  /** Two suggestions never share a target: a suggestion uses its added column up. */
  lemma TargetsAreUsedOnce(added: seq<Item>, dropped: seq<Item>, i: nat, j: nat, s: Suggestion, t: Suggestion)
    requires UniqueNames(added) && i < |dropped| && j < |dropped|
    requires IsRename(added, dropped, i, s) && IsRename(added, dropped, j, t) && s.to == t.to
    ensures i == j
  {
    var v, w := dropped[i].value, dropped[j].value;
    CandidatesAre(added, v, Candidates(added, v)[0]);
    CandidatesAre(added, w, Candidates(added, w)[0]);
    hide Candidates, Occurs;
    assert v == w;
    if i < j {
      EarlierOccurs(dropped, i, j);
    } else if j < i {
      EarlierOccurs(dropped, j, i);
    }
  }

  /**
   Only the added side is checked for ambiguity. When several dropped columns share a signature the first
   of them is suggested all the same: another order of the dropped columns suggests another source.
   */
  lemma AmbiguousSourceIsSuggested(a: string, b: string, c: string, v: Value)
    ensures Suggested([Item(c, v)], [Item(a, v), Item(b, v)]) == [Suggestion(a, c)]
    ensures Suggested([Item(c, v)], [Item(b, v), Item(a, v)]) == [Suggestion(b, c)]
  {
    OnlyFirst(a, b, c, v);
    OnlyFirst(b, a, c, v);
  }

  lemma OnlyFirst(a: string, b: string, c: string, v: Value)
    ensures Suggested([Item(c, v)], [Item(a, v), Item(b, v)]) == [Suggestion(a, c)]
  {
    var added, one, two := [Item(c, v)], [Item(a, v)], [Item(a, v), Item(b, v)];
    assert added[..0] == [] && one[..0] == [] && two[..1] == one;
    assert Candidates(added, v) == added;
    assert !Occurs([], v);
    assert one[0].value == v;
    assert Occurs(one, v);
    hide Candidates, Occurs;
    assert Suggested(added, []) == [];
    assert Suggested(added, one) == [Suggestion(a, c)];
  }
}
