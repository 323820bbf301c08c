/**
 `diffByName` and `diffSettings`: what two lists of named items, and two settings records, differ in.
 */
module DiffPrimitives {
  import opened Wrappers
  import opened StableSort

  /** A column, index or projection; the value is everything but the name. */
  datatype Value = Text(text: string) | ColumnText(rest: string, codec: Option<string>)

  datatype Item = Item(name: string, value: Value)

  predicate UniqueNames(items: seq<Item>) {
    forall i, j :: 0 <= i < j < |items| ==> items[i].name != items[j].name
  }

  /** What a list holds under a name; `Map` keeps the last of equal names. */
  function Lookup(items: seq<Item>, name: string): Option<Value> {
    if items == [] then None
    else if items[|items| - 1].name == name then Some(items[|items| - 1].value)
    else Lookup(items[..|items| - 1], name)
  }

  datatype Change = Change(name: string, before: Value, after: Value)

  function Added(before: seq<Item>, after: seq<Item>): seq<Item> {
    if after == [] then []
    else
      var last := after[|after| - 1];
      Added(before, after[..|after| - 1]) + if Lookup(before, last.name).None? then [last] else []
  }

  function Changed(before: seq<Item>, after: seq<Item>): seq<Change> {
    if after == [] then []
    else
      var last := after[|after| - 1];
      var prior := Lookup(before, last.name);
      Changed(before, after[..|after| - 1])
      + if prior.Some? && prior.value != last.value then [Change(last.name, prior.value, last.value)] else []
  }

  function Removed(before: seq<Item>, after: seq<Item>): seq<Item> {
    if before == [] then []
    else
      var last := before[|before| - 1];
      Removed(before[..|before| - 1], after) + if Lookup(after, last.name).None? then [last] else []
  }

  ghost predicate IsIndex(byName: map<string, Value>, items: seq<Item>) {
    forall n :: (n in byName <==> Lookup(items, n).Some?) && (n in byName ==> Lookup(items, n) == Some(byName[n]))
  }

  method IndexByName(items: seq<Item>) returns (byName: map<string, Value>)
    ensures IsIndex(byName, items)
  {
    byName := map[];
    for i := 0 to |items|
      invariant IsIndex(byName, items[..i])
    {
      assert items[..i + 1][..i] == items[..i];
      byName := byName[items[i].name := items[i].value];
    }
    assert items[..|items|] == items;
  }

  /** `diffByName`: new items in their order, old ones that are gone in theirs. */
  method DiffByName(before: seq<Item>, after: seq<Item>) returns (added: seq<Item>, changed: seq<Change>, removed: seq<Item>)
    ensures added == Added(before, after) && changed == Changed(before, after) && removed == Removed(before, after)
  {
    var oldByName := IndexByName(before);
    var newByName := IndexByName(after);
    added, changed, removed := [], [], [];
    for i := 0 to |after|
      invariant added == Added(before, after[..i]) && changed == Changed(before, after[..i])
    {
      assert after[..i + 1][..i] == after[..i];
      var item := after[i];
      if item.name !in oldByName {
        added := added + [item];
      } else if oldByName[item.name] != item.value {
        changed := changed + [Change(item.name, oldByName[item.name], item.value)];
      }
    }
    for i := 0 to |before|
      invariant removed == Removed(before[..i], after)
    {
      assert before[..i + 1][..i] == before[..i];
      if before[i].name !in newByName {
        removed := removed + [before[i]];
      }
    }
    assert after[..|after|] == after && before[..|before|] == before;
  }

  lemma {:induction false} LookupHas(items: seq<Item>, name: string)
    ensures Lookup(items, name).Some? ==> Item(name, Lookup(items, name).value) in items
    ensures Lookup(items, name).None? ==> forall i :: 0 <= i < |items| ==> items[i].name != name
  {
    if items != [] && items[|items| - 1].name != name {
      LookupHas(items[..|items| - 1], name);
    }
  }

  lemma {:induction false} UniqueLookup(items: seq<Item>, x: Item)
    requires UniqueNames(items) && x in items
    ensures Lookup(items, x.name) == Some(x.value)
  {
    if items[|items| - 1] != x {
      var i :| 0 <= i < |items| && items[i] == x;
      UniqueLookup(items[..|items| - 1], x);
    }
  }

  /** Every difference is reported exactly once, under its kind; equal items are not reported. */
  lemma {:induction false} AddedExactly(before: seq<Item>, after: seq<Item>, x: Item)
    ensures x in Added(before, after) <==> x in after && Lookup(before, x.name).None?
  {
    if after != [] {
      var front, last := after[..|after| - 1], after[|after| - 1];
      assert after == front + [last];
      AddedExactly(before, front, x);
    }
  }

  lemma {:induction false} RemovedExactly(before: seq<Item>, after: seq<Item>, x: Item)
    ensures x in Removed(before, after) <==> x in before && Lookup(after, x.name).None?
  {
    if before != [] {
      var front, last := before[..|before| - 1], before[|before| - 1];
      assert before == front + [last];
      RemovedExactly(front, after, x);
    }
  }

  lemma {:induction false} ChangedExactly(before: seq<Item>, after: seq<Item>, c: Change)
    ensures c in Changed(before, after)
      <==> Item(c.name, c.after) in after && Lookup(before, c.name) == Some(c.before) && c.before != c.after
  {
    if after != [] {
      var front, last := after[..|after| - 1], after[|after| - 1];
      assert after == front + [last];
      ChangedExactly(before, front, c);
    }
  }

  // ----- settings -----

  datatype SettingChange = ModifySetting(key: string, value: string) | ResetSetting(key: string)

  /** A `Set` of strings in insertion order. */
  function AddOnce(s: seq<string>, x: string): seq<string> {
    if x in s then s else s + [x]
  }

  function Distinct(s: seq<string>): (r: seq<string>)
    ensures forall x :: x in r <==> x in s
    ensures forall i, j :: 0 <= i < j < |r| ==> r[i] != r[j]
  {
    if s == [] then [] else
      assert s == s[..|s| - 1] + [s[|s| - 1]];
      AddOnce(Distinct(s[..|s| - 1]), s[|s| - 1])
  }

  function Names(items: seq<Item>): seq<string> {
    if items == [] then [] else Names(items[..|items| - 1]) + [items[|items| - 1].name]
  }

  /** The default order of `Array.prototype.sort` on strings. */
  predicate CodeUnitLeq(a: string, b: string) {
    a == "" || (b != "" && (a[0] < b[0] || (a[0] == b[0] && CodeUnitLeq(a[1..], b[1..]))))
  }

  /** The union of the keys, sorted by code unit. */
  function SettingKeys(before: seq<Item>, after: seq<Item>): seq<string> {
    Sort(CodeUnitLeq, Distinct(Names(before) + Names(after)))
  }

  function SettingText(items: seq<Item>, key: string): Option<string> {
    match Lookup(items, key)
    case None => None
    case Some(v) => Some(if v.Text? then v.text else v.rest)
  }

  function ChangesFor(keys: seq<string>, before: seq<Item>, after: seq<Item>): seq<SettingChange> {
    if keys == [] then []
    else
      var key := keys[|keys| - 1];
      ChangesFor(keys[..|keys| - 1], before, after)
      + (if SettingText(after, key).None? then (if SettingText(before, key).Some? then [ResetSetting(key)] else [])
         else if SettingText(before, key) != SettingText(after, key) then [ModifySetting(key, SettingText(after, key).value)]
         else [])
  }

  /** `diffSettings`: a reset for what is gone, a change for what is new or different. */
  method DiffSettings(before: seq<Item>, after: seq<Item>) returns (changes: seq<SettingChange>)
    ensures changes == ChangesFor(SettingKeys(before, after), before, after)
  {
    var keys := SettingKeys(before, after);
    changes := [];
    for i := 0 to |keys|
      invariant changes == ChangesFor(keys[..i], before, after)
    {
      assert keys[..i + 1][..i] == keys[..i];
      var key := keys[i];
      var next := SettingText(after, key);
      if next.None? {
        if SettingText(before, key).Some? {
          changes := changes + [ResetSetting(key)];
        }
      } else if SettingText(before, key) != next {
        changes := changes + [ModifySetting(key, next.value)];
      }
    }
    assert keys[..|keys|] == keys;
  }
}
