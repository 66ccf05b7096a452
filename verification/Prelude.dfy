/** Shared vocabulary: nullable columns and finite sums. */
module Prelude {
  /** A nullable column or a pointer that may be nil. */
  datatype Option<+T> = None | Some(value: T)

  function Min(x: int, y: int): int { if x <= y then x else y }

  /** Primary keys. Where the 64-bit width matters the using module says so. */
  type Id = nat

  predicate IsLeast(m: Id, ids: set<Id>) { m in ids && forall y :: y in ids ==> m <= y }

  /** Every non-empty finite set of ids has a least element: the row that `First` returns. */
  lemma {:induction false} LeastExists(ids: set<Id>)
    requires ids != {}
    ensures exists m :: IsLeast(m, ids)
  {
    var x :| x in ids;
    var rest := ids - {x};
    assert forall y :: y in ids <==> y == x || y in rest;
    if rest == {} {
      assert IsLeast(x, ids);
    } else {
      LeastExists(rest);
      var m: Id :| IsLeast(m, rest);
      assert IsLeast(if x <= m then x else m, ids);
    }
  }

  /** The first match in primary-key order, as a query ending in `First` sees it. */
  function FirstId(ids: set<Id>): (r: Option<Id>)
    ensures r.None? <==> ids == {}
    ensures r.Some? ==> IsLeast(r.value, ids)
  {
    if ids == {} then None
    else
      LeastExists(ids);
      var x :| x in ids && IsLeast(x, ids);
      Some(x)
  }
}

/** Sums over finite sets of row ids, the meaning of SQL's SUM. */
module Sums {
  import opened Prelude

  ghost function Sum(ids: set<Id>, f: Id -> real): real {
    if ids == {} then 0.0
    else
      var x :| x in ids;
      f(x) + Sum(ids - {x}, f)
  }

  lemma {:induction false} SumRemove(ids: set<Id>, x: Id, f: Id -> real)
    requires x in ids
    ensures Sum(ids, f) == f(x) + Sum(ids - {x}, f)
  {
    var y :| y in ids && Sum(ids, f) == f(y) + Sum(ids - {y}, f);
    if y != x {
      SumRemove(ids - {y}, x, f);
      SumRemove(ids - {x}, y, f);
      assert ids - {y} - {x} == ids - {x} - {y};
    }
  }

  lemma {:induction false} SumUnion(a: set<Id>, b: set<Id>, f: Id -> real)
    requires a !! b
    ensures Sum(a + b, f) == Sum(a, f) + Sum(b, f)
  {
    if a == {} {
      assert a + b == b;
    } else {
      var x :| x in a;
      SumRemove(a, x, f);
      SumRemove(a + b, x, f);
      SumUnion(a - {x}, b, f);
      assert a + b - {x} == a - {x} + b;
    }
  }

  lemma {:induction false} SumCongruent(ids: set<Id>, f: Id -> real, g: Id -> real)
    requires forall x :: x in ids ==> f(x) == g(x)
    ensures Sum(ids, f) == Sum(ids, g)
  {
    if ids != {} {
      var x :| x in ids;
      SumRemove(ids, x, f);
      SumRemove(ids, x, g);
      SumCongruent(ids - {x}, f, g);
    }
  }

  lemma {:induction false} SumZero(ids: set<Id>, f: Id -> real)
    requires forall x :: x in ids ==> f(x) == 0.0
    ensures Sum(ids, f) == 0.0
  {
    if ids != {} {
      var x :| x in ids;
      SumRemove(ids, x, f);
      SumZero(ids - {x}, f);
    }
  }

  /** Sums of summands are sums of sums. */
  lemma {:induction false} SumPlus(ids: set<Id>, f: Id -> real, g: Id -> real, h: Id -> real)
    requires forall x :: x in ids ==> h(x) == f(x) + g(x)
    ensures Sum(ids, h) == Sum(ids, f) + Sum(ids, g)
  {
    if ids != {} {
      var x :| x in ids;
      SumRemove(ids, x, f);
      SumRemove(ids, x, g);
      SumRemove(ids, x, h);
      SumPlus(ids - {x}, f, g, h);
    }
  }

  /** Rows outside a WHERE clause may be kept in the sum when they weigh nothing. */
  lemma {:induction false} SumWiden(small: set<Id>, big: set<Id>, f: Id -> real)
    requires small <= big
    requires forall x :: x in big && x !in small ==> f(x) == 0.0
    ensures Sum(small, f) == Sum(big, f)
  {
    SumZero(big - small, f);
    SumUnion(small, big - small, f);
    assert small + (big - small) == big;
  }

  /** At most two rows weigh anything. */
  lemma SumTwoPoints(ids: set<Id>, x: Id, y: Id, f: Id -> real)
    requires x in ids && y in ids
    requires forall z :: z in ids && z != x && z != y ==> f(z) == 0.0
    ensures Sum(ids, f) == if x == y then f(x) else f(x) + f(y)
  {
    SumRemove(ids, x, f);
    if x == y {
      SumZero(ids - {x}, f);
    } else {
      SumRemove(ids - {x}, y, f);
      SumZero(ids - {x} - {y}, f);
    }
  }

  /** Summands that differ at one row only. */
  lemma SumUpdate(ids: set<Id>, x: Id, f: Id -> real, g: Id -> real)
    requires forall y :: y in ids && y != x ==> f(y) == g(y)
    ensures Sum(ids + {x}, g) == Sum(ids, f) - (if x in ids then f(x) else 0.0) + g(x)
  {
    SumRemove(ids + {x}, x, g);
    assert ids + {x} - {x} == ids - {x};
    SumCongruent(ids - {x}, f, g);
    if x in ids { SumRemove(ids, x, f); } else { assert ids - {x} == ids; }
  }

  /** Exchange of the order of summation. */
  lemma {:induction false} SumSwap(us: set<Id>, ks: set<Id>, f: (Id, Id) -> real)
    ensures Sum(us, (u: Id) => Sum(ks, (k: Id) => f(u, k))) == Sum(ks, (k: Id) => Sum(us, (u: Id) => f(u, k)))
  {
    var left := (u: Id) => Sum(ks, (k: Id) => f(u, k));
    var right := (k: Id) => Sum(us, (u: Id) => f(u, k));
    if us == {} {
      SumZero(ks, right);
    } else {
      var u :| u in us;
      var row := (k: Id) => f(u, k);
      var rest := (k: Id) => Sum(us - {u}, (v: Id) => f(v, k));
      SumRemove(us, u, left);
      SumSwap(us - {u}, ks, f);
      forall k | k in ks ensures right(k) == row(k) + rest(k) {
        SumRemove(us, u, (v: Id) => f(v, k));
      }
      SumPlus(ks, row, rest, right);
    }
  }
}
