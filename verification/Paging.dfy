/** Notification pages of fifteen, with the offset arithmetic in 64-bit integers. */
module Paging {
  import opened Prelude
  import opened Lists

  const PER_PAGE: int := 15
  const MAX_INT64: int := 0x7FFF_FFFF_FFFF_FFFF
  const TWO_64: int := 0x1_0000_0000_0000_0000

  /** Two's complement wrap-around of a 64-bit int. */
  function Wrap(x: int): int {
    var r := x % TWO_64;
    if r > MAX_INT64 then r - TWO_64 else r
  }

  /** LIMIT 15 OFFSET off over a list in a fixed order; an offset that is not positive is left out of the query. */
  function Window<T>(rows: seq<T>, off: int): seq<T> {
    var start := if off > 0 then Min(off, |rows|) else 0;
    rows[start..Min(start + PER_PAGE, |rows|)]
  }

  function Offset(page: int): int { Wrap((page - 1) * PER_PAGE) }

  /** The page served for a request. */
  function Page<T>(rows: seq<T>, page: int): seq<T> { Window(rows, Offset(if page < 1 then 1 else page)) }

  function LastPage(total: nat): int {
    var last := (total + PER_PAGE - 1) / PER_PAGE;
    if last < 1 then 1 else last
  }

  /** The rows a page number stands for, with no bound on integers. */
  function IdealPage<T>(rows: seq<T>, page: int): seq<T>
    requires page >= 1
  {
    var start := Min((page - 1) * PER_PAGE, |rows|);
    rows[start..Min(start + PER_PAGE, |rows|)]
  }

  /** Page numbers whose offset fits in 64 bits. */
  predicate Fits(page: int) { (page - 1) * PER_PAGE <= MAX_INT64 }

  lemma FittingPageIsIdeal<T>(rows: seq<T>, page: int)
    requires page >= 1 && Fits(page)
    ensures Page(rows, page) == IdealPage(rows, page)
  {
    assert Offset(page) == (page - 1) * PER_PAGE;
  }

  /** The first n pages one after the other. */
  function Pages<T>(rows: seq<T>, n: nat): seq<T> { if n == 0 then [] else Pages(rows, n - 1) + Page(rows, n) }

  lemma Joined<T>(rows: seq<T>, a: nat, b: nat)
    requires a <= b <= |rows|
    ensures rows[..a] + rows[a..b] == rows[..b]
  {
  }

  lemma IdealPageIsSlice<T>(rows: seq<T>, n: nat)
    requires n >= 1
    ensures IdealPage(rows, n) == rows[Min((n - 1) * PER_PAGE, |rows|)..Min(n * PER_PAGE, |rows|)]
  {
  }

  lemma {:induction false} PagesArePrefix<T>(rows: seq<T>, n: nat)
    requires n == 0 || Fits(n)
    ensures Pages(rows, n) == rows[..Min(n * PER_PAGE, |rows|)]
  {
    if n > 0 {
      PagesArePrefix(rows, n - 1);
      FittingPageIsIdeal(rows, n);
      IdealPageIsSlice(rows, n);
      Joined(rows, Min((n - 1) * PER_PAGE, |rows|), Min(n * PER_PAGE, |rows|));
    }
  }

  lemma PageSizes<T>(rows: seq<T>, page: int)
    requires page >= 1 && Fits(page)
    ensures page < LastPage(|rows|) ==> |Page(rows, page)| == PER_PAGE
    ensures page == LastPage(|rows|) && rows != [] ==> 1 <= |Page(rows, page)| <= PER_PAGE
    ensures page > LastPage(|rows|) ==> Page(rows, page) == []
  {
    FittingPageIsIdeal(rows, page);
  }

  /** Pages 1 to last_page are the whole list, each row once; all but the last are full; last_page is at least 1. */
  lemma PagesPartition<T>(rows: seq<T>)
    requires |rows| <= MAX_INT64
    ensures LastPage(|rows|) >= 1 && Fits(LastPage(|rows|)) && Pages(rows, LastPage(|rows|)) == rows
    ensures forall page :: 1 <= page < LastPage(|rows|) ==> |Page(rows, page)| == 15
    ensures rows != [] ==> 1 <= |Page(rows, LastPage(|rows|))| <= 15
    ensures forall page :: page < 1 ==> Page(rows, page) == Page(rows, 1)
    ensures forall page :: page > LastPage(|rows|) && Fits(page) ==> Page(rows, page) == []
  {
    PagesArePrefix(rows, LastPage(|rows|));
    assert rows[..|rows|] == rows;
    PageSizes(rows, LastPage(|rows|));
    forall page | 1 <= page < LastPage(|rows|) ensures |Page(rows, page)| == PER_PAGE { PageSizes(rows, page); }
    forall page | page > LastPage(|rows|) && Fits(page) ensures Page(rows, page) == [] { PageSizes(rows, page); }
  }

  // Each page request runs its own query, ordered by creation time alone

  datatype Row = Row(id: Id, created: int)

  predicate NewestFirst(s: seq<Row>) { forall i, j :: 0 <= i < j < |s| ==> s[i].created >= s[j].created }

  /** An order in which the database may hand out the rows: it is free among equal creation times. */
  ghost predicate MayOrder(order: seq<Row>, rows: seq<Row>) {
    multiset(order) == multiset(rows) && NewestFirst(order)
  }

  /** One order for each page asked for. */
  ghost predicate Queries(orders: seq<seq<Row>>, rows: seq<Row>) {
    |orders| == LastPage(|rows|) && forall q :: 0 <= q < |orders| ==> MayOrder(orders[q], rows)
  }

  /** What a client sees that reads pages 1 to n, each from its own query. */
  function Served(orders: seq<seq<Row>>, n: nat): seq<Row>
    requires n <= |orders|
  {
    if n == 0 then [] else Served(orders, n - 1) + Page(orders[n - 1], n)
  }

  /** Where page n ends in a list. */
  function EndOf(n: nat, size: nat): nat { Min(n * PER_PAGE, size) }

  /** The rows on either side of a page boundary were not created at the same instant. */
  predicate NoTieAcrossPages(rows: seq<Row>) {
    forall c :: 0 < c < |rows| && c % 15 == 0 ==> rows[c - 1].created != rows[c].created
  }

  predicate NoRepeats(rows: seq<Row>) { forall i, j :: 0 <= i < j < |rows| ==> rows[i] != rows[j] }

  lemma {:induction false} NewerEnd(s: seq<Row>, t: int) returns (k: nat)
    requires NewestFirst(s)
    ensures k <= |s| && (forall i :: 0 <= i < k ==> s[i].created >= t)
            && (forall i :: k <= i < |s| ==> s[i].created < t)
  {
    k := |s|;
    if s != [] && s[|s| - 1].created < t { k := NewerEnd(s[..|s| - 1], t); }
  }

  lemma SplitRows(s: seq<Row>, k: nat)
    requires k <= |s|
    ensures multiset(s[..k]) + multiset(s[k..]) == multiset(s)
  {
    assert s[..k] + s[k..] == s;
  }

  predicate AllSince(s: seq<Row>, t: int) { forall i :: 0 <= i < |s| ==> s[i].created >= t }

  predicate AllBefore(s: seq<Row>, t: int) { forall i :: 0 <= i < |s| ==> s[i].created < t }

  /** Cutting the same rows at an instant gives the same rows on either side. */
  lemma CutAtInstant(a: seq<Row>, b: seq<Row>, a': seq<Row>, b': seq<Row>, t: int)
    requires multiset(a) + multiset(b) == multiset(a') + multiset(b')
    requires AllSince(a, t) && AllSince(a', t) && AllBefore(b, t) && AllBefore(b', t)
    ensures multiset(a) == multiset(a') && |a| == |a'|
  {
    forall x: Row ensures multiset(a)[x] == multiset(a')[x] {
      assert (multiset(a) + multiset(b))[x] == (multiset(a') + multiset(b'))[x];
      if x.created >= t {
        assert x !in b && x !in b';
      } else {
        assert x !in a && x !in a';
      }
    }
    assert |multiset(a)| == |a| && |multiset(a')| == |a'|;
  }

  /** Where the creation time drops, the rows before are the same in every order. */
  lemma DropFixesPrefix(s: seq<Row>, t: seq<Row>, c: nat)
    requires MayOrder(t, s) && NewestFirst(s) && 0 < c < |s| && s[c - 1].created != s[c].created
    ensures c <= |t| && multiset(t[..c]) == multiset(s[..c])
  {
    var at := s[c - 1].created;
    var k := NewerEnd(t, at);
    SplitRows(s, c);
    SplitRows(t, k);
    CutAtInstant(s[..c], s[c..], t[..k], t[k..], at);
  }

  lemma PrefixesAgree(s: seq<Row>, t: seq<Row>, n: nat)
    requires MayOrder(t, s) && NewestFirst(s) && NoTieAcrossPages(s)
    ensures |t| == |s| && multiset(t[..EndOf(n, |s|)]) == multiset(s[..EndOf(n, |s|)])
  {
    var c := EndOf(n, |s|);
    assert |t| == |multiset(t)| == |multiset(s)| == |s|;
    if 0 < c < |s| {
      DropFixesPrefix(s, t, c);
    } else if c == |s| {
      assert t[..c] == t && s[..c] == s;
    } else {
      assert t[..c] == [] && s[..c] == [];
    }
  }

  /** The n-th page completes a prefix. */
  lemma PageExtends(order: seq<Row>, n: nat)
    requires n >= 1 && Fits(n)
    ensures order[..EndOf(n - 1, |order|)] + Page(order, n) == order[..EndOf(n, |order|)]
  {
    FittingPageIsIdeal(order, n);
    IdealPageIsSlice(order, n);
  }

  lemma {:induction false} ServedIsPrefix(rows: seq<Row>, orders: seq<seq<Row>>, n: nat)
    requires NewestFirst(rows) && NoTieAcrossPages(rows) && Queries(orders, rows)
    requires n <= |orders| && |rows| <= MAX_INT64
    ensures multiset(Served(orders, n)) == multiset(rows[..EndOf(n, |rows|)])
  {
    if n == 0 {
      assert rows[..EndOf(0, |rows|)] == [];
    } else {
      var order := orders[n - 1];
      ServedIsPrefix(rows, orders, n - 1);
      PrefixesAgree(rows, order, n - 1);
      PrefixesAgree(rows, order, n);
      PageExtends(order, n);
    }
  }

  lemma {:induction false} OccursOnce(rows: seq<Row>, x: Row)
    requires NoRepeats(rows)
    ensures multiset(rows)[x] <= 1
  {
    if rows != [] {
      var front, last := rows[..|rows| - 1], rows[|rows| - 1];
      OccursOnce(front, x);
      assert rows == front + [last];
      assert last !in front;
    }
  }

  lemma {:induction false} ServedGrows(orders: seq<seq<Row>>, n: nat, m: nat, x: Row)
    requires n <= m <= |orders|
    ensures multiset(Served(orders, n))[x] <= multiset(Served(orders, m))[x]
  {
    if n < m { ServedGrows(orders, n, m - 1, x); }
  }

  /** The order with two neighbours exchanged. */
  function Swapped(s: seq<Row>, c: nat): seq<Row>
    requires 0 < c < |s|
  {
    s[c - 1 := s[c]][c := s[c - 1]]
  }

  /** All pages from one order, but the page after boundary q from the order with its two neighbours exchanged. */
  function TieQueries(rows: seq<Row>, q: nat): seq<seq<Row>>
    requires 0 < EndOf(q, |rows|) < |rows|
  {
    seq(LastPage(|rows|), p => if p == q then Swapped(rows, EndOf(q, |rows|)) else rows)
  }

  lemma {:induction false} PagesBeforeTie(rows: seq<Row>, q: nat, n: nat)
    requires 0 < EndOf(q, |rows|) < |rows| <= MAX_INT64 && n <= q
    ensures n <= LastPage(|rows|) && Served(TieQueries(rows, q), n) == rows[..EndOf(n, |rows|)]
  {
    if n > 0 {
      PagesBeforeTie(rows, q, n - 1);
      PageExtends(rows, n);
    }
  }

  lemma SwappedMayOrder(rows: seq<Row>, c: nat)
    requires NewestFirst(rows) && 0 < c < |rows| && rows[c - 1].created == rows[c].created
    ensures MayOrder(Swapped(rows, c), rows)
  {
    assert rows == rows[..c - 1] + [rows[c - 1], rows[c]] + rows[c + 1..];
    assert Swapped(rows, c) == rows[..c - 1] + [rows[c], rows[c - 1]] + rows[c + 1..];
  }

  lemma PageAfterTie(rows: seq<Row>, q: nat)
    requires 0 < EndOf(q, |rows|) < |rows| <= MAX_INT64
    ensures rows[EndOf(q, |rows|) - 1] in Page(Swapped(rows, EndOf(q, |rows|)), q + 1)
  {
    var c, order := EndOf(q, |rows|), Swapped(rows, EndOf(q, |rows|));
    FittingPageIsIdeal(order, q + 1);
    IdealPageIsSlice(order, q + 1);
    assert Page(order, q + 1)[0] == order[c] == rows[c - 1];
  }

  lemma TieQueriesAreQueries(rows: seq<Row>, q: nat)
    requires NewestFirst(rows) && 0 < EndOf(q, |rows|) < |rows|
    requires rows[EndOf(q, |rows|) - 1].created == rows[EndOf(q, |rows|)].created
    ensures Queries(TieQueries(rows, q), rows) && q < LastPage(|rows|)
  {
    SwappedMayOrder(rows, EndOf(q, |rows|));
  }

  lemma InBothIsTwice(orders: seq<seq<Row>>, n: nat, m: nat, s: seq<Row>, t: seq<Row>, x: Row)
    requires n <= m <= |orders| && Served(orders, n) == s + t && x in s && x in t
    ensures multiset(Served(orders, m))[x] >= 2
  {
    assert multiset(s + t) == multiset(s) + multiset(t);
    ServedGrows(orders, n, m, x);
  }

  lemma ServedAcrossTie(rows: seq<Row>, q: nat)
    requires 0 < EndOf(q, |rows|) < |rows| <= MAX_INT64
    ensures q < LastPage(|rows|)
    ensures Served(TieQueries(rows, q), q + 1)
         == rows[..EndOf(q, |rows|)] + Page(Swapped(rows, EndOf(q, |rows|)), q + 1)
  {
    PagesBeforeTie(rows, q, q);
    assert TieQueries(rows, q)[q] == Swapped(rows, EndOf(q, |rows|));
  }

  /** Two rows of one instant across a page boundary: two queries may show the one twice and the other never. */
  lemma TieIsServedTwice(rows: seq<Row>, q: nat)
    requires NewestFirst(rows) && 0 < EndOf(q, |rows|) < |rows| <= MAX_INT64
    requires rows[EndOf(q, |rows|) - 1].created == rows[EndOf(q, |rows|)].created
    ensures Queries(TieQueries(rows, q), rows)
    ensures multiset(Served(TieQueries(rows, q), LastPage(|rows|)))[rows[EndOf(q, |rows|) - 1]] >= 2
  {
    var c := EndOf(q, |rows|);
    var before, page := rows[..c], Page(Swapped(rows, c), q + 1);
    assert rows[c - 1] in before by { assert before[c - 1] == rows[c - 1]; }
    assert rows[c - 1] in page by { PageAfterTie(rows, q); }
    assert q < LastPage(|rows|) && Served(TieQueries(rows, q), q + 1) == before + page by { ServedAcrossTie(rows, q); }
    InBothIsTwice(TieQueries(rows, q), q + 1, LastPage(|rows|), before, page, rows[c - 1]);
    TieQueriesAreQueries(rows, q);
  }

  /** Reading all pages shows each row once, whatever orders the queries choose. */
  ghost predicate AlwaysPartition(rows: seq<Row>) {
    forall orders :: Queries(orders, rows) ==> multiset(Served(orders, |orders|)) == multiset(rows)
  }

  /** That is so exactly when no two rows of one instant stand on either side of a page boundary. */
  lemma PartitionExactly(rows: seq<Row>)
    requires NewestFirst(rows) && NoRepeats(rows) && |rows| <= MAX_INT64
    ensures AlwaysPartition(rows) <==> NoTieAcrossPages(rows)
  {
    if NoTieAcrossPages(rows) {
      forall orders | Queries(orders, rows) ensures multiset(Served(orders, |orders|)) == multiset(rows) {
        ServedIsPrefix(rows, orders, |orders|);
        assert rows[..EndOf(|orders|, |rows|)] == rows;
      }
    } else {
      var c :| 0 < c < |rows| && c % PER_PAGE == 0 && rows[c - 1].created == rows[c].created;
      TieBreaksPartition(rows, c);
    }
  }

  lemma TieBreaksPartition(rows: seq<Row>, c: nat)
    requires NewestFirst(rows) && NoRepeats(rows) && |rows| <= MAX_INT64
    requires 0 < c < |rows| && c % PER_PAGE == 0 && rows[c - 1].created == rows[c].created
    ensures !AlwaysPartition(rows)
  {
    var q := c / PER_PAGE;
    var orders := TieQueries(rows, q);
    TieIsServedTwice(rows, q);
    OccursOnce(rows, rows[c - 1]);
    assert |orders| == LastPage(|rows|);
    assert multiset(Served(orders, |orders|)) != multiset(rows);
  }

  predicate Newer(a: Row, b: Row) { a.created > b.created }

  lemma {:induction false} ServedFromOneOrder(rows: seq<Row>, orders: seq<seq<Row>>, n: nat)
    requires n <= |orders| && forall q :: 0 <= q < |orders| ==> orders[q] == rows
    ensures Served(orders, n) == Pages(rows, n)
  {
    if n > 0 { ServedFromOneOrder(rows, orders, n - 1); }
  }

  /** With distinct creation times the pages are the list itself, newest first. */
  lemma DistinctTimesServeTheList(rows: seq<Row>, orders: seq<seq<Row>>)
    requires SortedBy(rows, Newer) && Queries(orders, rows) && |rows| <= MAX_INT64
    ensures Served(orders, |orders|) == rows
  {
    forall q | 0 <= q < |orders| ensures orders[q] == rows {
      StrictFromRows(rows, orders[q]);
      SortedIsUnique(orders[q], rows, Newer);
    }
    ServedFromOneOrder(rows, orders, |orders|);
    PagesPartition(rows);
  }

  /** An order of rows with distinct creation times is strict. */
  lemma StrictFromRows(rows: seq<Row>, order: seq<Row>)
    requires SortedBy(rows, Newer) && MayOrder(order, rows)
    ensures SortedBy(order, Newer)
  {
    forall i, j | 0 <= i < j < |order| ensures order[i].created > order[j].created {
      if order[i].created == order[j].created {
        assert order[i] in multiset(rows) && order[j] in multiset(rows);
        var a, b :| 0 <= a < |rows| && rows[a] == order[i] && 0 <= b < |rows| && rows[b] == order[j];
        assert a == b;
        OccursOnce(rows, order[i]);
        TwiceIsTwo(order, i, j);
        assert false;
      }
    }
  }

  lemma TwiceIsTwo(s: seq<Row>, i: nat, j: nat)
    requires i < j < |s| && s[i] == s[j]
    ensures multiset(s)[s[i]] >= 2
  {
    assert s == s[..j] + s[j..];
    assert s[..j][i] == s[i] && s[j..][0] == s[j];
    assert s[i] in s[..j] && s[i] in s[j..];
  }

  ghost predicate AlwaysIdeal(page: int)
    requires page >= 1
  {
    forall rows: seq<bool> :: Page(rows, page) == IdealPage(rows, page)
  }

  /** A page number is served correctly for every list exactly when its offset does not overflow. */
  lemma IdealExactlyWhenFitting(page: int)
    requires 1 <= page <= MAX_INT64
    ensures AlwaysIdeal(page) <==> Fits(page)
  {
    if Fits(page) {
      forall rows: seq<bool> ensures Page(rows, page) == IdealPage(rows, page) { FittingPageIsIdeal(rows, page); }
    } else {
      var off := Offset(page);
      WrappedIsSmaller(page);
      var rows := seq(if off > 0 then off + 1 else 1, _ => true);
      assert Page(rows, page) != [] && IdealPage(rows, page) == [];
    }
  }

  lemma WrappedIsSmaller(page: int)
    requires 1 <= page <= MAX_INT64 && !Fits(page)
    ensures Offset(page) < (page - 1) * PER_PAGE - 1
  {
    var x := (page - 1) * PER_PAGE;
    assert x == x / TWO_64 * TWO_64 + x % TWO_64;
  }

  /** One page far beyond the last shows the first page again. */
  lemma OverflowServesFirstPage<T>(rows: seq<T>)
    ensures !Fits(1229782938247303442) && Page(rows, 1229782938247303442) == Page(rows, 1)
  {
  }
}
