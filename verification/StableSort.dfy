/**
 A stable sort under any total preorder, as `Array.prototype.sort` promises: elements that compare equal
 keep their order. What is proved about it is used for operation lists.
 */
module StableSort {

  ghost predicate TotalPreorder<T(!new)>(leq: (T, T) -> bool) {
    (forall a, b :: leq(a, b) || leq(b, a)) && (forall a, b, c :: leq(a, b) && leq(b, c) ==> leq(a, c))
  }

  /** Puts `x` behind everything that does not come after it. */
  function Insert<T>(leq: (T, T) -> bool, s: seq<T>, x: T): (r: seq<T>)
    ensures |r| == |s| + 1
  {
    if s == [] || leq(s[|s| - 1], x) then s + [x]
    else Insert(leq, s[..|s| - 1], x) + [s[|s| - 1]]
  }

  function Sort<T>(leq: (T, T) -> bool, s: seq<T>): (r: seq<T>)
    ensures |r| == |s|
  {
    if s == [] then [] else Insert(leq, Sort(leq, s[..|s| - 1]), s[|s| - 1])
  }

  ghost predicate Sorted<T>(leq: (T, T) -> bool, s: seq<T>) {
    forall i, j :: 0 <= i < j < |s| ==> leq(s[i], s[j])
  }

  lemma {:induction false} InsertKeeps<T>(leq: (T, T) -> bool, s: seq<T>, x: T)
    ensures multiset(Insert(leq, s, x)) == multiset(s) + multiset{x}
  {
    if s != [] && !leq(s[|s| - 1], x) {
      var front, last := s[..|s| - 1], s[|s| - 1];
      assert s == front + [last];
      InsertKeeps(leq, front, x);
    }
  }

  lemma {:induction false} SortIsPermutation<T>(leq: (T, T) -> bool, s: seq<T>)
    ensures multiset(Sort(leq, s)) == multiset(s)
  {
    if s != [] {
      var front, last := s[..|s| - 1], s[|s| - 1];
      assert s == front + [last];
      SortIsPermutation(leq, front);
      InsertKeeps(leq, Sort(leq, front), last);
    }
  }

  lemma SortHas<T>(leq: (T, T) -> bool, s: seq<T>, x: T)
    ensures x in Sort(leq, s) <==> x in s
  {
    SortIsPermutation(leq, s);
    assert x in Sort(leq, s) <==> x in multiset(Sort(leq, s));
    assert x in s <==> x in multiset(s);
  }

  lemma Transitive<T(!new)>(leq: (T, T) -> bool, a: T, b: T, c: T)
    requires TotalPreorder(leq) && leq(a, b) && leq(b, c)
    ensures leq(a, c)
  {
  }

  lemma Total<T(!new)>(leq: (T, T) -> bool, a: T, b: T)
    requires TotalPreorder(leq)
    ensures leq(a, b) || leq(b, a)
  {
  }

  lemma {:induction false} InsertStaysSorted<T(!new)>(leq: (T, T) -> bool, s: seq<T>, x: T)
    requires TotalPreorder(leq) && Sorted(leq, s)
    ensures Sorted(leq, Insert(leq, s, x))
  {
    hide TotalPreorder;
    if s != [] && !leq(s[|s| - 1], x) {
      var front, last := s[..|s| - 1], s[|s| - 1];
      Total(leq, x, last);
      InsertStaysSorted(leq, front, x);
      var r := Insert(leq, front, x);
      forall i | 0 <= i < |r| ensures leq(r[i], last) {
        InsertKeeps(leq, front, x);
        assert r[i] in multiset(r);
        assert r[i] == x || r[i] in front;
      }
    } else if s != [] {
      forall i | 0 <= i < |s| ensures leq(s[i], x) {
        if i < |s| - 1 {
          Transitive(leq, s[i], s[|s| - 1], x);
        }
      }
    }
  }

  lemma {:induction false} SortSorts<T(!new)>(leq: (T, T) -> bool, s: seq<T>)
    requires TotalPreorder(leq)
    ensures Sorted(leq, Sort(leq, s))
  {
    hide TotalPreorder;
    if s != [] {
      SortSorts(leq, s[..|s| - 1]);
      InsertStaysSorted(leq, Sort(leq, s[..|s| - 1]), s[|s| - 1]);
    }
  }

  // ----- sorting and filtering -----

  function Filter<T>(p: T -> bool, s: seq<T>): seq<T> {
    if s == [] then [] else Filter(p, s[..|s| - 1]) + if p(s[|s| - 1]) then [s[|s| - 1]] else []
  }

  lemma FilterLast<T>(p: T -> bool, s: seq<T>, x: T)
    ensures Filter(p, s + [x]) == Filter(p, s) + if p(x) then [x] else []
  {
    assert (s + [x])[..|s|] == s;
  }

  lemma {:induction false} FilterAppend<T>(p: T -> bool, a: seq<T>, b: seq<T>)
    ensures Filter(p, a + b) == Filter(p, a) + Filter(p, b)
  {
    if b == [] {
      assert a + b == a;
    } else {
      var front, last := b[..|b| - 1], b[|b| - 1];
      assert a + b == (a + front) + [last];
      FilterAppend(p, a, front);
      FilterLast(p, a + front, last);
    }
  }

  lemma {:induction false} FilterHas<T>(p: T -> bool, s: seq<T>, x: T)
    ensures x in Filter(p, s) <==> x in s && p(x)
  {
    if s != [] {
      var front, last := s[..|s| - 1], s[|s| - 1];
      assert s == front + [last];
      FilterHas(p, front, x);
    }
  }

  lemma InsertLast<T>(leq: (T, T) -> bool, s: seq<T>, x: T)
    requires s == [] || leq(s[|s| - 1], x)
    ensures Insert(leq, s, x) == s + [x]
  {
  }

  lemma InsertBefore<T>(leq: (T, T) -> bool, s: seq<T>, last: T, x: T)
    requires !leq(last, x)
    ensures Insert(leq, s + [last], x) == Insert(leq, s, x) + [last]
  {
    assert (s + [last])[..|s|] == s;
  }

  lemma SortLast<T>(leq: (T, T) -> bool, s: seq<T>, x: T)
    ensures Sort(leq, s + [x]) == Insert(leq, Sort(leq, s), x)
  {
    assert (s + [x])[..|s|] == s;
  }

  lemma AllAtMost<T(!new)>(leq: (T, T) -> bool, s: seq<T>, x: T, y: T)
    requires TotalPreorder(leq) && Sorted(leq, s) && s != [] && leq(s[|s| - 1], x) && y in s
    ensures leq(y, x)
  {
    hide TotalPreorder;
    var i :| 0 <= i < |s| && s[i] == y;
    if i < |s| - 1 {
      Transitive(leq, s[i], s[|s| - 1], x);
    }
  }

  /** An element behind everything picked goes to the end. */
  lemma InsertAtEnd<T(!new)>(leq: (T, T) -> bool, p: T -> bool, s: seq<T>, x: T)
    requires TotalPreorder(leq) && Sorted(leq, s) && (s == [] || leq(s[|s| - 1], x))
    ensures Insert(leq, Filter(p, s), x) == Filter(p, s) + [x]
  {
    hide *;
    var f := Filter(p, s);
    if f != [] {
      var y := f[|f| - 1];
      FilterHas(p, s, y);
      AllAtMost(leq, s, x, y);
    }
    InsertLast(leq, f, x);
  }

  lemma FilterBefore<T>(leq: (T, T) -> bool, p: T -> bool, front: seq<T>, last: T, x: T)
    requires !leq(last, x)
    requires Filter(p, Insert(leq, front, x)) == if p(x) then Insert(leq, Filter(p, front), x) else Filter(p, front)
    ensures Filter(p, Insert(leq, front + [last], x)) == if p(x) then Insert(leq, Filter(p, front + [last]), x) else Filter(p, front + [last])
  {
    hide Insert, Filter;
    InsertBefore(leq, front, last, x);
    FilterLast(p, Insert(leq, front, x), last);
    FilterLast(p, front, last);
    if p(last) {
      InsertBefore(leq, Filter(p, front), last, x);
    } else {
      assert Filter(p, front) + [] == Filter(p, front);
      assert Filter(p, Insert(leq, front, x)) + [] == Filter(p, Insert(leq, front, x));
    }
  }

  lemma {:induction false} FilterInsert<T(!new)>(leq: (T, T) -> bool, p: T -> bool, s: seq<T>, x: T)
    requires TotalPreorder(leq) && Sorted(leq, s)
    ensures Filter(p, Insert(leq, s, x)) == if p(x) then Insert(leq, Filter(p, s), x) else Filter(p, s)
  {
    hide TotalPreorder, Insert, Filter;
    if s == [] || leq(s[|s| - 1], x) {
      InsertLast(leq, s, x);
      FilterLast(p, s, x);
      InsertAtEnd(leq, p, s, x);
      assert Filter(p, s) + [] == Filter(p, s);
    } else {
      var front, last := s[..|s| - 1], s[|s| - 1];
      assert s == front + [last];
      FilterInsert(leq, p, front, x);
      hide Sorted;
      FilterBefore(leq, p, front, last, x);
    }
  }

  /** Sorting commutes with picking out some of the elements: that is what stable means. */
  lemma {:induction false} FilterSort<T(!new)>(leq: (T, T) -> bool, p: T -> bool, s: seq<T>)
    requires TotalPreorder(leq)
    ensures Filter(p, Sort(leq, s)) == Sort(leq, Filter(p, s))
  {
    hide TotalPreorder;
    if s != [] {
      var front, last := s[..|s| - 1], s[|s| - 1];
      FilterSort(leq, p, front);
      SortSorts(leq, front);
      FilterInsert(leq, p, Sort(leq, front), last);
      SortLast(leq, Filter(p, front), last);
      assert Filter(p, front) + [] == Filter(p, front);
    }
  }

  /** What is sorted already stays as it is. */
  lemma {:induction false} SortedIsFixed<T>(leq: (T, T) -> bool, s: seq<T>)
    requires Sorted(leq, s)
    ensures Sort(leq, s) == s
  {
    if s != [] {
      var front, last := s[..|s| - 1], s[|s| - 1];
      assert s == front + [last];
      SortedIsFixed(leq, front);
      assert front != [] ==> leq(front[|front| - 1], last);
    }
  }
}
