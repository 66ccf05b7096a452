/** Row lists as queries produce them: filtering, and sorting by a strict order. */
module Lists {
  function Filter<T>(s: seq<T>, p: T -> bool): seq<T> {
    if s == [] then []
    else
      var last := s[|s| - 1];
      Filter(s[..|s| - 1], p) + if p(last) then [last] else []
  }

  lemma FilterSnoc<T>(s: seq<T>, x: T, p: T -> bool)
    ensures Filter(s + [x], p) == Filter(s, p) + if p(x) then [x] else []
  {
    assert (s + [x])[..|s|] == s;
  }

  lemma {:induction false} FilterConcat<T>(s: seq<T>, t: seq<T>, p: T -> bool)
    ensures Filter(s + t, p) == Filter(s, p) + Filter(t, p)
  {
    if t == [] {
      assert s + t == s;
    } else {
      var front, x := t[..|t| - 1], t[|t| - 1];
      assert s + t == s + front + [x];
      FilterConcat(s, front, p);
      FilterSnoc(s + front, x, p);
    }
  }

  /** What holds of all rows holds of the kept ones, and so does the filter itself. */
  lemma {:induction false} FilterAll<T>(s: seq<T>, p: T -> bool, q: T -> bool)
    requires forall i :: 0 <= i < |s| ==> q(s[i])
    ensures forall i :: 0 <= i < |Filter(s, p)| ==> q(Filter(s, p)[i]) && p(Filter(s, p)[i])
  {
    if s != [] { FilterAll(s[..|s| - 1], p, q); }
  }

  lemma {:induction false} FilterContains<T>(s: seq<T>, p: T -> bool, x: T)
    ensures x in Filter(s, p) <==> x in s && p(x)
  {
    if s != [] {
      FilterContains(s[..|s| - 1], p, x);
      assert s == s[..|s| - 1] + [s[|s| - 1]];
    }
  }

  /** Kept rows stay in their relative order. */
  lemma {:induction false} FilterOrder<T(!new)>(s: seq<T>, p: T -> bool, r: (T, T) -> bool)
    requires forall i, j :: 0 <= i < j < |s| ==> r(s[i], s[j])
    ensures forall i, j :: 0 <= i < j < |Filter(s, p)| ==> r(Filter(s, p)[i], Filter(s, p)[j])
  {
    if s != [] {
      var front, last := s[..|s| - 1], s[|s| - 1];
      FilterOrder(front, p, r);
      var before := (x: T) => r(x, last);
      FilterAll(front, p, before);
      var f := Filter(front, p);
      assert forall i :: 0 <= i < |f| ==> before(f[i]);
    }
  }

  /** Two filters in a row are the one filter that asks for both. */
  lemma {:induction false} FilterFilter<T(!new)>(s: seq<T>, p: T -> bool, q: T -> bool, both: T -> bool)
    requires forall x :: both(x) <==> p(x) && q(x)
    ensures Filter(Filter(s, p), q) == Filter(s, both)
  {
    if s != [] {
      var front, last := s[..|s| - 1], s[|s| - 1];
      FilterFilter(front, p, q, both);
      if p(last) { FilterSnoc(Filter(front, p), last, q); } else { assert Filter(s, p) == Filter(front, p); }
    }
  }

  lemma {:induction false} FilterEverything<T>(s: seq<T>, p: T -> bool)
    requires forall i :: 0 <= i < |s| ==> p(s[i])
    ensures Filter(s, p) == s
  {
    if s != [] { FilterEverything(s[..|s| - 1], p); }
  }

  // Strictly sorted lists

  ghost predicate StrictOrder<T(!new)>(lt: (T, T) -> bool) {
    forall x, y :: !(lt(x, y) && lt(y, x))
  }

  predicate SortedBy<T>(s: seq<T>, lt: (T, T) -> bool) { forall i, j :: 0 <= i < j < |s| ==> lt(s[i], s[j]) }

  lemma SameHead<T(!new)>(s: seq<T>, t: seq<T>, lt: (T, T) -> bool)
    requires StrictOrder(lt) && SortedBy(s, lt) && SortedBy(t, lt) && multiset(s) == multiset(t) && s != [] && t != []
    ensures s[0] == t[0]
  {
    assert s[0] in multiset(t) && t[0] in multiset(s);
    var j :| 0 <= j < |t| && t[j] == s[0];
    var i :| 0 <= i < |s| && s[i] == t[0];
  }

  lemma TailRows<T>(s: seq<T>)
    requires s != []
    ensures multiset(s[1..]) == multiset(s) - multiset{s[0]}
  {
    assert s == [s[0]] + s[1..];
  }

  /** A strict order leaves one way to sort the same rows. */
  lemma {:induction false} SortedIsUnique<T(!new)>(s: seq<T>, t: seq<T>, lt: (T, T) -> bool)
    requires StrictOrder(lt) && SortedBy(s, lt) && SortedBy(t, lt) && multiset(s) == multiset(t)
    ensures s == t
  {
    assert |s| == |multiset(s)| == |multiset(t)| == |t|;
    if s != [] {
      SameHead(s, t, lt);
      TailRows(s);
      TailRows(t);
      SortedIsUnique(s[1..], t[1..], lt);
      assert s == [s[0]] + s[1..] && t == [t[0]] + t[1..];
    }
  }

  function Reversed<T>(s: seq<T>): seq<T> { seq(|s|, i requires 0 <= i < |s| => s[|s| - 1 - i]) }

  lemma {:induction false} ReversedKeepsRows<T>(s: seq<T>)
    ensures multiset(Reversed(s)) == multiset(s)
  {
    if s != [] {
      var front, last := s[..|s| - 1], s[|s| - 1];
      ReversedKeepsRows(front);
      assert Reversed(s) == [last] + Reversed(front);
      assert s == front + [last];
    }
  }

  // Stable sorting by a strict weak order

  /** Behind everything that does not come later. */
  function Insert<T>(s: seq<T>, x: T, lt: (T, T) -> bool): seq<T> {
    if s == [] then [x]
    else
      var last := s[|s| - 1];
      if lt(x, last) then Insert(s[..|s| - 1], x, lt) + [last] else s + [x]
  }

  function StableSort<T>(s: seq<T>, lt: (T, T) -> bool): seq<T> {
    if s == [] then [] else Insert(StableSort(s[..|s| - 1], lt), s[|s| - 1], lt)
  }

  ghost predicate WeakOrder<T(!new)>(lt: (T, T) -> bool) {
    && (forall x, y :: !(lt(x, y) && lt(y, x)))
    && (forall x, y, z :: lt(x, z) ==> lt(x, y) || lt(y, z))
  }

  /** No item comes earlier than one before it. */
  predicate Ascending<T>(s: seq<T>, lt: (T, T) -> bool) { forall i, j :: 0 <= i < j < |s| ==> !lt(s[j], s[i]) }

  lemma {:induction false} InsertPermutes<T>(s: seq<T>, x: T, lt: (T, T) -> bool)
    ensures multiset(Insert(s, x, lt)) == multiset(s) + multiset{x}
  {
    if s != [] {
      var front, last := s[..|s| - 1], s[|s| - 1];
      InsertPermutes(front, x, lt);
      assert s == front + [last];
    }
  }

  lemma {:induction false} SortPermutes<T>(s: seq<T>, lt: (T, T) -> bool)
    ensures multiset(StableSort(s, lt)) == multiset(s)
  {
    if s != [] {
      var front, last := s[..|s| - 1], s[|s| - 1];
      SortPermutes(front, lt);
      InsertPermutes(StableSort(front, lt), last, lt);
      assert s == front + [last];
    }
  }

  /** What holds of the items before holds after the insertion. */
  lemma {:induction false} InsertAll<T>(s: seq<T>, x: T, lt: (T, T) -> bool, q: T -> bool)
    requires q(x) && forall i :: 0 <= i < |s| ==> q(s[i])
    ensures forall i :: 0 <= i < |Insert(s, x, lt)| ==> q(Insert(s, x, lt)[i])
  {
    if s != [] { InsertAll(s[..|s| - 1], x, lt, q); }
  }

  lemma {:induction false} InsertAscends<T(!new)>(s: seq<T>, x: T, lt: (T, T) -> bool)
    requires WeakOrder(lt) && Ascending(s, lt)
    ensures Ascending(Insert(s, x, lt), lt)
  {
    if s != [] {
      var front, last := s[..|s| - 1], s[|s| - 1];
      if lt(x, last) {
        InsertAscends(front, x, lt);
        var notAfter := (y: T) => !lt(last, y);
        InsertAll(front, x, lt, notAfter);
        var out := Insert(front, x, lt);
        assert forall i :: 0 <= i < |out| ==> notAfter(out[i]);
      } else {
        forall i | 0 <= i < |s| ensures !lt(x, s[i]) {
          assert i == |s| - 1 || !lt(last, s[i]);
        }
      }
    }
  }

  lemma {:induction false} SortAscends<T(!new)>(s: seq<T>, lt: (T, T) -> bool)
    requires WeakOrder(lt)
    ensures Ascending(StableSort(s, lt), lt)
  {
    if s != [] {
      SortAscends(s[..|s| - 1], lt);
      InsertAscends(StableSort(s[..|s| - 1], lt), s[|s| - 1], lt);
    }
  }

  /** A class of items that are not earlier than one another. */
  ghost predicate Ties<T(!new)>(p: T -> bool, lt: (T, T) -> bool) { forall x, y :: p(x) && p(y) ==> !lt(x, y) }

  lemma {:induction false} InsertKeepsTies<T(!new)>(s: seq<T>, x: T, lt: (T, T) -> bool, p: T -> bool)
    requires Ties(p, lt)
    ensures Filter(Insert(s, x, lt), p) == Filter(s, p) + if p(x) then [x] else []
  {
    if s != [] {
      var front, last := s[..|s| - 1], s[|s| - 1];
      if lt(x, last) {
        InsertKeepsTies(front, x, lt, p);
        FilterSnoc(Insert(front, x, lt), last, p);
      } else {
        FilterSnoc(s, x, p);
      }
    }
  }

  /** Ties keep their list order. */
  lemma {:induction false} SortKeepsTies<T(!new)>(s: seq<T>, lt: (T, T) -> bool, p: T -> bool)
    requires Ties(p, lt)
    ensures Filter(StableSort(s, lt), p) == Filter(s, p)
  {
    if s != [] {
      SortKeepsTies(s[..|s| - 1], lt, p);
      InsertKeepsTies(StableSort(s[..|s| - 1], lt), s[|s| - 1], lt, p);
    }
  }

  /** Only the comparisons between items of the list matter. */
  lemma {:induction false} InsertDependsOn<T(!new)>(s: seq<T>, x: T, lt: (T, T) -> bool, lt': (T, T) -> bool,
                                                  q: T -> bool)
    requires q(x) && (forall i :: 0 <= i < |s| ==> q(s[i]))
    requires forall y, z :: q(y) && q(z) ==> lt(y, z) == lt'(y, z)
    ensures Insert(s, x, lt) == Insert(s, x, lt')
  {
    if s != [] { InsertDependsOn(s[..|s| - 1], x, lt, lt', q); }
  }

  lemma {:induction false} SortDependsOn<T(!new)>(s: seq<T>, lt: (T, T) -> bool, lt': (T, T) -> bool, q: T -> bool)
    requires forall i :: 0 <= i < |s| ==> q(s[i])
    requires forall y, z :: q(y) && q(z) ==> lt(y, z) == lt'(y, z)
    ensures StableSort(s, lt) == StableSort(s, lt')
    ensures forall i :: 0 <= i < |StableSort(s, lt)| ==> q(StableSort(s, lt)[i])
  {
    if s != [] {
      var front, last := s[..|s| - 1], s[|s| - 1];
      SortDependsOn(front, lt, lt', q);
      InsertDependsOn(StableSort(front, lt), last, lt, lt', q);
      InsertAll(StableSort(front, lt), last, lt, q);
    }
  }
}
