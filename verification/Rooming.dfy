/** The ordered merge of per-hotel room numbers, and the reader that looks them up for luggage tags. */
module Rooming {
  import opened Prelude
  import opened GoText

  type HotelId = int

  /** A saved pair of group hotel id and room number. */
  datatype Number = Number(hotel: HotelId, room: string)

  /** One entry of the request; both fields may be missing. */
  datatype Change = Change(hotel: Option<HotelId>, room: Option<string>)

  function Wanted(c: Change): string { if c.room.Some? then TrimSpace(c.room.value) else "" }

  predicate Clears(c: Change) { Wanted(c) == "" }

  /** Every entry names one of the group's hotels. */
  predicate ValidChanges(req: seq<Change>, hotels: set<HotelId>) {
    forall i :: 0 <= i < |req| ==> req[i].hotel.Some? && req[i].hotel.value in hotels
  }

  function BadEntries(req: seq<Change>, hotels: set<HotelId>): set<nat> {
    set i: nat | i < |req| && (req[i].hotel.None? || req[i].hotel.value !in hotels)
  }

  predicate Named(req: seq<Change>) { forall i :: 0 <= i < |req| ==> req[i].hotel.Some? }

  // The simple form: maps

  /** A stored list as a map: the last value wins. */
  function AsMap(stored: seq<Number>): map<HotelId, string> {
    if stored == [] then map[]
    else AsMap(stored[..|stored| - 1])[stored[|stored| - 1].hotel := stored[|stored| - 1].room]
  }

  /** The request folded into a map: blanks delete, other values override. */
  function Fold(m: map<HotelId, string>, req: seq<Change>): map<HotelId, string>
    requires Named(req)
  {
    if req == [] then m
    else
      var rest, c := Fold(m, req[..|req| - 1]), req[|req| - 1];
      if Clears(c) then rest - {c.hotel.value} else rest[c.hotel.value := Wanted(c)]
  }

  // The order kept beside the map

  function StoredOrder(stored: seq<Number>): seq<HotelId> {
    if stored == [] then []
    else
      var front, id := stored[..|stored| - 1], stored[|stored| - 1].hotel;
      if id in AsMap(front) then StoredOrder(front) else StoredOrder(front) + [id]
  }

  function Order(stored: seq<Number>, req: seq<Change>): seq<HotelId>
    requires Named(req)
  {
    if req == [] then StoredOrder(stored)
    else
      var front, c := req[..|req| - 1], req[|req| - 1];
      if Clears(c) || c.hotel.value in Fold(AsMap(stored), front) then Order(stored, front)
      else Order(stored, front) + [c.hotel.value]
  }

  /** The pairs written out: the order filtered by the map. */
  function Listed(order: seq<HotelId>, m: map<HotelId, string>): seq<Number> {
    if order == [] then []
    else
      var id := order[|order| - 1];
      Listed(order[..|order| - 1], m) + if id in m then [Number(id, m[id])] else []
  }

  function Merged(stored: seq<Number>, req: seq<Change>): seq<Number>
    requires Named(req)
  {
    Listed(Order(stored, req), Fold(AsMap(stored), req))
  }

  // The handler's loops

  method Merge(stored: seq<Number>, req: seq<Change>) returns (merged: seq<Number>)
    requires Named(req)
    ensures merged == Merged(stored, req)
  {
    var order: seq<HotelId>, values: map<HotelId, string> := [], map[];
    for i := 0 to |stored|
      invariant order == StoredOrder(stored[..i]) && values == AsMap(stored[..i])
    {
      assert stored[..i + 1][..i] == stored[..i];
      var rn := stored[i];
      if rn.hotel !in values { order := order + [rn.hotel]; }
      values := values[rn.hotel := rn.room];
    }
    assert stored[..|stored|] == stored;
    for i := 0 to |req|
      invariant order == Order(stored, req[..i]) && values == Fold(AsMap(stored), req[..i])
    {
      assert req[..i + 1][..i] == req[..i];
      var ghID, val := req[i].hotel.value, Wanted(req[i]);
      if val == "" {
        values := values - {ghID};
        continue;
      }
      if ghID !in values { order := order + [ghID]; }
      values := values[ghID := val];
    }
    assert req[..|req|] == req;
    merged := [];
    for i := 0 to |order|
      invariant merged == Listed(order[..i], values)
    {
      assert order[..i + 1][..i] == order[..i];
      if order[i] in values { merged := merged + [Number(order[i], values[order[i]])]; }
    }
    assert order[..|order|] == order;
  }

  /** A room's meta: the numbers and the sibling keys that must survive a save. */
  datatype Meta = Meta(numbers: seq<Number>, siblings: map<string, string>)

  datatype UpdateResult = Saved | Invalid(entries: set<nat>)

  class Room {
    var meta: Meta

    /** Invalid entries are reported by position and nothing is saved. */
    method RoomingUpdate(hotels: set<HotelId>, req: seq<Change>) returns (r: UpdateResult)
      modifies this
      ensures r.Saved? <==> ValidChanges(req, hotels)
      ensures r.Saved? ==> meta == old(meta).(numbers := Merged(old(meta).numbers, req))
      ensures r.Invalid? ==> meta == old(meta)
      ensures r.Invalid? ==>
                forall i: nat :: i in r.entries <==> i < |req| && !(req[i].hotel.Some? && req[i].hotel.value in hotels)
    {
      var errs := BadEntries(req, hotels);
      if errs != {} {
        ghost var i :| i in errs;
        return Invalid(errs);
      }
      forall i: nat | i < |req| ensures req[i].hotel.Some? && req[i].hotel.value in hotels { assert i !in errs; }
      var merged := Merge(meta.numbers, req);
      meta := meta.(numbers := merged);
      return Saved;
    }
  }

  // The merge refines the map override

  /** Every id in the map is in the order. */
  lemma {:induction false} OrderCovers(stored: seq<Number>, req: seq<Change>, id: HotelId)
    requires Named(req)
    ensures id in Fold(AsMap(stored), req) ==> id in Order(stored, req)
  {
    if req != [] {
      OrderCovers(stored, req[..|req| - 1], id);
    } else {
      StoredOrderIs(stored, id);
    }
  }

  lemma {:induction false} StoredOrderIs(stored: seq<Number>, id: HotelId)
    ensures id in StoredOrder(stored) <==> id in AsMap(stored)
    ensures multiset(StoredOrder(stored))[id] <= 1
  {
    if stored != [] { StoredOrderIs(stored[..|stored| - 1], id); }
  }

  lemma AsMapSnoc(ns: seq<Number>, n: Number)
    ensures AsMap(ns + [n]) == AsMap(ns)[n.hotel := n.room]
  {
    assert (ns + [n])[..|ns|] == ns;
  }

  lemma {:induction false} ListedIsMap(order: seq<HotelId>, m: map<HotelId, string>)
    ensures forall id :: id in AsMap(Listed(order, m)) <==> id in order && id in m
    ensures forall id :: id in AsMap(Listed(order, m)) ==> AsMap(Listed(order, m))[id] == m[id]
  {
    if order != [] {
      var front, last := order[..|order| - 1], order[|order| - 1];
      ListedIsMap(front, m);
      assert forall id :: id in order <==> id == last || id in front;
      if last in m {
        AsMapSnoc(Listed(front, m), Number(last, m[last]));
      } else {
        assert Listed(order, m) == Listed(front, m);
      }
    }
  }

  /** As a map, the saved list is the stored one with the request folded in, repeated ids or not. */
  lemma MergeIsOverride(stored: seq<Number>, req: seq<Change>)
    requires Named(req)
    ensures AsMap(Merged(stored, req)) == Fold(AsMap(stored), req)
  {
    var m, order := Fold(AsMap(stored), req), Order(stored, req);
    var saved := AsMap(Merged(stored, req));
    ListedIsMap(order, m);
    forall id ensures (id in saved <==> id in m) && (id in saved ==> saved[id] == m[id]) {
      OrderCovers(stored, req, id);
    }
  }

  /** All copies of an id carry its final value. */
  lemma {:induction false} CopiesAgree(order: seq<HotelId>, m: map<HotelId, string>, n: Number)
    requires n in Listed(order, m)
    ensures n.hotel in m && n.room == m[n.hotel]
  {
    var front := order[..|order| - 1];
    if n in Listed(front, m) { CopiesAgree(front, m, n); }
  }

  // What is saved, entry by entry

  /** The last request entry that names the id. */
  function LastNamed(req: seq<Change>, id: HotelId): (j: Option<nat>)
    ensures j.Some? ==> j.value < |req| && req[j.value].hotel == Some(id)
    ensures forall i :: (if j.Some? then j.value + 1 else 0) <= i < |req| ==> req[i].hotel != Some(id)
  {
    if req == [] then None
    else if req[|req| - 1].hotel == Some(id) then Some(|req| - 1)
    else LastNamed(req[..|req| - 1], id)
  }

  /** The last stored pair of the id. */
  function LastStored(stored: seq<Number>, id: HotelId): (j: Option<nat>)
    ensures j.Some? ==> j.value < |stored| && stored[j.value].hotel == id
    ensures forall i :: (if j.Some? then j.value + 1 else 0) <= i < |stored| ==> stored[i].hotel != id
  {
    if stored == [] then None
    else if stored[|stored| - 1].hotel == id then Some(|stored| - 1)
    else LastStored(stored[..|stored| - 1], id)
  }

  /** The room number an id ends up with: the request's last word, blank meaning none, else what was stored last. */
  function LastWord(stored: seq<Number>, req: seq<Change>, id: HotelId): Option<string> {
    var named, kept := LastNamed(req, id), LastStored(stored, id);
    if named.Some? then
      var text := if req[named.value].room.Some? then TrimSpace(req[named.value].room.value) else "";
      if text == "" then None else Some(text)
    else if kept.Some? then Some(stored[kept.value].room)
    else None
  }

  lemma {:induction false} AsMapIsLastStored(stored: seq<Number>, id: HotelId)
    ensures (if id in AsMap(stored) then Some(AsMap(stored)[id]) else None) == LastWord(stored, [], id)
  {
    if stored != [] { AsMapIsLastStored(stored[..|stored| - 1], id); }
  }

  lemma {:induction false} FoldIsLastWord(stored: seq<Number>, req: seq<Change>, id: HotelId)
    requires Named(req)
    ensures var m := Fold(AsMap(stored), req);
            (if id in m then Some(m[id]) else None) == LastWord(stored, req, id)
  {
    if req == [] {
      AsMapIsLastStored(stored, id);
    } else {
      FoldIsLastWord(stored, req[..|req| - 1], id);
    }
  }

  lemma {:induction false} AsMapMember(ns: seq<Number>, id: HotelId)
    ensures id in AsMap(ns) ==> Number(id, AsMap(ns)[id]) in ns
  {
    if ns != [] {
      AsMapMember(ns[..|ns| - 1], id);
      assert ns == ns[..|ns| - 1] + [ns[|ns| - 1]];
    }
  }

  /** A pair is saved exactly when it is the last word on its id. */
  lemma SavedExactly(stored: seq<Number>, req: seq<Change>, id: HotelId, room: string)
    requires Named(req)
    ensures Number(id, room) in Merged(stored, req) <==> LastWord(stored, req, id) == Some(room)
  {
    var final := Fold(AsMap(stored), req);
    FoldIsLastWord(stored, req, id);
    MergeIsOverride(stored, req);
    AsMapMember(Merged(stored, req), id);
    if Number(id, room) in Merged(stored, req) { CopiesAgree(Order(stored, req), final, Number(id, room)); }
  }

  // How often an id is saved

  /** How many request entries clear the id while it has a value. */
  function Cleared(stored: seq<Number>, req: seq<Change>, id: HotelId): nat
    requires Named(req)
  {
    if req == [] then 0
    else
      var front, c := req[..|req| - 1], req[|req| - 1];
      Cleared(stored, front, id) + if Clears(c) && c.hotel.value == id && id in Fold(AsMap(stored), front) then 1 else 0
  }

  lemma {:induction false} OrderCopies(stored: seq<Number>, req: seq<Change>, id: HotelId)
    requires Named(req)
    ensures multiset(Order(stored, req))[id]
         == Cleared(stored, req, id) + if id in Fold(AsMap(stored), req) then 1 else 0
  {
    if req == [] {
      StoredOrderIs(stored, id);
    } else {
      OrderCopies(stored, req[..|req| - 1], id);
    }
  }

  function Copies(ns: seq<Number>, id: HotelId): nat {
    if ns == [] then 0 else Copies(ns[..|ns| - 1], id) + if ns[|ns| - 1].hotel == id then 1 else 0
  }

  lemma CopiesSnoc(ns: seq<Number>, n: Number, id: HotelId)
    ensures Copies(ns + [n], id) == Copies(ns, id) + if n.hotel == id then 1 else 0
  {
    assert (ns + [n])[..|ns|] == ns;
  }

  lemma MultiplicitySnoc(order: seq<HotelId>, id: HotelId)
    requires order != []
    ensures multiset(order)[id] == multiset(order[..|order| - 1])[id] + if order[|order| - 1] == id then 1 else 0
  {
    assert order == order[..|order| - 1] + [order[|order| - 1]];
  }

  lemma {:induction false} ListedCopies(order: seq<HotelId>, m: map<HotelId, string>, id: HotelId)
    ensures Copies(Listed(order, m), id) == if id in m then multiset(order)[id] else 0
  {
    if order != [] {
      var front, last := order[..|order| - 1], order[|order| - 1];
      ListedCopies(front, m, id);
      MultiplicitySnoc(order, id);
      if last in m {
        CopiesSnoc(Listed(front, m), Number(last, m[last]), id);
      } else {
        assert Listed(order, m) == Listed(front, m);
      }
    }
  }

  /** The exact number of saved pairs for an id: one more than the times it was cleared on the way. */
  lemma SavedCopies(stored: seq<Number>, req: seq<Change>, id: HotelId)
    requires Named(req)
    ensures Copies(Merged(stored, req), id)
         == if id in Fold(AsMap(stored), req) then 1 + Cleared(stored, req, id) else 0
  {
    ListedCopies(Order(stored, req), Fold(AsMap(stored), req), id);
    OrderCopies(stored, req, id);
  }

  predicate DistinctHotels(ns: seq<Number>) { forall i, j :: 0 <= i < j < |ns| ==> ns[i].hotel != ns[j].hotel }

  ghost predicate OneCopyEach(ns: seq<Number>) { forall id :: Copies(ns, id) <= 1 }

  lemma {:induction false} CopiesPositive(ns: seq<Number>, i: nat)
    requires i < |ns|
    ensures Copies(ns, ns[i].hotel) >= 1
  {
    if i < |ns| - 1 { CopiesPositive(ns[..|ns| - 1], i); }
  }

  lemma {:induction false} DistinctMeansOneCopy(ns: seq<Number>)
    ensures DistinctHotels(ns) <==> OneCopyEach(ns)
  {
    if ns != [] {
      var front, last := ns[..|ns| - 1], ns[|ns| - 1];
      DistinctMeansOneCopy(front);
      if i :| 0 <= i < |front| && front[i].hotel == last.hotel {
        CopiesPositive(front, i);
        assert Copies(ns, last.hotel) > 1 && ns[i].hotel == ns[|ns| - 1].hotel;
      } else {
        if Copies(front, last.hotel) > 0 { CopiesWitness(front, last.hotel); }
        assert Copies(front, last.hotel) == 0;
        assert DistinctHotels(ns) <==> DistinctHotels(front);
        if OneCopyEach(front) {
          forall id ensures Copies(ns, id) <= 1 { assert Copies(front, id) <= 1; }
        } else {
          var id :| Copies(front, id) > 1;
          assert Copies(ns, id) > 1;
        }
      }
    }
  }

  lemma {:induction false} CopiesWitness(ns: seq<Number>, id: HotelId)
    requires Copies(ns, id) > 0
    ensures exists i :: 0 <= i < |ns| && ns[i].hotel == id
  {
    if ns[|ns| - 1].hotel != id {
      CopiesWitness(ns[..|ns| - 1], id);
      var i :| 0 <= i < |ns| - 1 && ns[..|ns| - 1][i].hotel == id;
      assert ns[i].hotel == id;
    }
  }

  /** No id that ends up with a value was cleared on the way. */
  ghost predicate NoneRevived(stored: seq<Number>, req: seq<Change>)
    requires Named(req)
  {
    forall id :: id in Fold(AsMap(stored), req) ==> Cleared(stored, req, id) == 0
  }

  lemma OneCopyIffNoneRevived(stored: seq<Number>, req: seq<Change>)
    requires Named(req)
    ensures OneCopyEach(Merged(stored, req)) <==> NoneRevived(stored, req)
  {
    if OneCopyEach(Merged(stored, req)) {
      forall id | id in Fold(AsMap(stored), req) ensures Cleared(stored, req, id) == 0 { SavedCopies(stored, req, id); }
    }
    if NoneRevived(stored, req) {
      forall id ensures Copies(Merged(stored, req), id) <= 1 { SavedCopies(stored, req, id); }
    }
  }

  /** Saved ids are distinct exactly when no id was revived. */
  lemma SavedDistinctExactly(stored: seq<Number>, req: seq<Change>)
    requires Named(req)
    ensures DistinctHotels(Merged(stored, req)) <==> NoneRevived(stored, req)
  {
    DistinctMeansOneCopy(Merged(stored, req));
    OneCopyIffNoneRevived(stored, req);
  }

  /** A request that clears an id and then gives it a value again makes the id be saved twice. */
  lemma ClearedAndRenamedIsSavedTwice(id: HotelId)
    ensures var req := [Change(Some(id), None), Change(Some(id), Some("7"))];
            Named(req) && Copies(Merged([Number(id, "5")], req), id) == 2
            && !DistinctHotels(Merged([Number(id, "5")], req))
  {
    var clear, rename, stored := Change(Some(id), None), Change(Some(id), Some("7")), [Number(id, "5")];
    var req := [clear, rename];
    assert req[..1] == [clear] && [clear][..0] == [] && stored[..0] == [];
    assert AsMap(stored) == map[id := "5"];
    assert Fold(AsMap(stored), [clear]) == map[];
    assert Cleared(stored, [clear], id) == 1;
    SavedCopies(stored, req, id);
    DistinctMeansOneCopy(Merged(stored, req));
  }

  // Requests with distinct ids: order and repetition

  predicate DistinctChanges(req: seq<Change>)
    requires Named(req)
  {
    forall i, j :: 0 <= i < j < |req| ==> req[i].hotel.value != req[j].hotel.value
  }

  predicate Mentions(req: seq<Change>, id: HotelId)
    requires Named(req)
  {
    exists i :: 0 <= i < |req| && req[i].hotel.value == id
  }

  predicate SameAt(m: map<HotelId, string>, m': map<HotelId, string>, id: HotelId) {
    (id in m <==> id in m') && (id in m ==> m[id] == m'[id])
  }

  /** What the request says about an id hides what was there; what it does not mention stays. */
  lemma {:induction false} FoldAt(m: map<HotelId, string>, m': map<HotelId, string>, req: seq<Change>, id: HotelId)
    requires Named(req)
    ensures if Mentions(req, id) then SameAt(Fold(m, req), Fold(m', req), id) else SameAt(Fold(m, req), m, id)
  {
    if req != [] {
      var front, last := req[..|req| - 1], req[|req| - 1];
      FoldAt(m, m', front, id);
      if Mentions(front, id) {
        var i :| 0 <= i < |front| && front[i].hotel.value == id;
        assert req[i].hotel.value == id;
      } else if last.hotel.value == id {
        assert req[|req| - 1].hotel.value == id;
      } else {
        assert forall i :: 0 <= i < |front| ==> req[i] == front[i];
      }
    }
  }

  /** The ids of request entries that carry a value for an id not stored, in request order. */
  function NewIds(stored: seq<Number>, req: seq<Change>): seq<HotelId>
    requires Named(req)
  {
    if req == [] then []
    else
      var c := req[|req| - 1];
      NewIds(stored, req[..|req| - 1]) + if !Clears(c) && c.hotel.value !in AsMap(stored) then [c.hotel.value] else []
  }

  /** Survivors keep their order and new ids follow in request order. */
  lemma {:induction false} OrderOfDistinct(stored: seq<Number>, req: seq<Change>)
    requires Named(req) && DistinctChanges(req)
    ensures Order(stored, req) == StoredOrder(stored) + NewIds(stored, req)
  {
    if req != [] {
      var front, last := req[..|req| - 1], req[|req| - 1];
      OrderOfDistinct(stored, front);
      assert !Mentions(front, last.hotel.value) by {
        assert forall i :: 0 <= i < |front| ==> req[i] == front[i] && req[i].hotel.value != req[|req| - 1].hotel.value;
      }
      FoldAt(AsMap(stored), map[], front, last.hotel.value);
    }
  }

  lemma {:induction false} NothingCleared(stored: seq<Number>, req: seq<Change>, id: HotelId)
    requires Named(req) && DistinctChanges(req) && id in Fold(AsMap(stored), req)
    ensures Cleared(stored, req, id) == 0
  {
    if req != [] {
      var front, last := req[..|req| - 1], req[|req| - 1];
      if last.hotel.value == id {
        assert !Mentions(front, id) by {
          assert forall i :: 0 <= i < |front| ==>
            req[i] == front[i] && req[i].hotel.value != req[|req| - 1].hotel.value;
        }
        UnmentionedNotCleared(stored, front, id);
      } else {
        NothingCleared(stored, front, id);
      }
    }
  }

  lemma {:induction false} UnmentionedNotCleared(stored: seq<Number>, req: seq<Change>, id: HotelId)
    requires Named(req) && !Mentions(req, id)
    ensures Cleared(stored, req, id) == 0
  {
    if req != [] {
      assert forall i :: 0 <= i < |req| ==> req[i].hotel.value != id;
      assert forall i :: 0 <= i < |req| - 1 ==> req[..|req| - 1][i] == req[i];
      UnmentionedNotCleared(stored, req[..|req| - 1], id);
    }
  }

  function Hotels(ns: seq<Number>): seq<HotelId> { seq(|ns|, i requires 0 <= i < |ns| => ns[i].hotel) }

  function Present(order: seq<HotelId>, m: map<HotelId, string>): seq<HotelId> {
    if order == [] then []
    else Present(order[..|order| - 1], m) + if order[|order| - 1] in m then [order[|order| - 1]] else []
  }

  lemma {:induction false} ListedHotels(order: seq<HotelId>, m: map<HotelId, string>)
    ensures Hotels(Listed(order, m)) == Present(order, m)
  {
    if order != [] { ListedHotels(order[..|order| - 1], m); }
  }

  /** With distinct request ids: distinct saved ids, survivors in stored order, then the new ones in request order. */
  lemma DistinctRequestOrder(stored: seq<Number>, req: seq<Change>)
    requires Named(req) && DistinctChanges(req)
    ensures DistinctHotels(Merged(stored, req))
    ensures Hotels(Merged(stored, req)) == Present(StoredOrder(stored) + NewIds(stored, req), Fold(AsMap(stored), req))
  {
    forall id | id in Fold(AsMap(stored), req) ensures Cleared(stored, req, id) == 0 {
      NothingCleared(stored, req, id);
    }
    SavedDistinctExactly(stored, req);
    OrderOfDistinct(stored, req);
    ListedHotels(Order(stored, req), Fold(AsMap(stored), req));
  }

  // Order, told by positions

  /** The first stored pair of the id. */
  function FirstStored(stored: seq<Number>, id: HotelId): (j: Option<nat>)
    ensures j.Some? ==> j.value < |stored| && stored[j.value].hotel == id
    ensures forall i :: 0 <= i < (if j.Some? then j.value else |stored|) ==> stored[i].hotel != id
  {
    if stored == [] then None
    else
      var front := FirstStored(stored[..|stored| - 1], id);
      if front.Some? then front else if stored[|stored| - 1].hotel == id then Some(|stored| - 1) else None
  }

  /** Stored ids rank by their first pair, new ones behind them by the request's entry. */
  function Rank(stored: seq<Number>, req: seq<Change>, id: HotelId): nat {
    var first, named := FirstStored(stored, id), LastNamed(req, id);
    if first.Some? then first.value else if named.Some? then |stored| + named.value else |stored| + |req|
  }

  predicate Ranked(ids: seq<HotelId>, stored: seq<Number>, req: seq<Change>) {
    forall i, j :: 0 <= i < j < |ids| ==> Rank(stored, req, ids[i]) < Rank(stored, req, ids[j])
  }

  lemma RankedSnoc(ids: seq<HotelId>, last: HotelId, stored: seq<Number>, req: seq<Change>)
    requires Ranked(ids, stored, req) && forall id :: id in ids ==> Rank(stored, req, id) < Rank(stored, req, last)
    ensures Ranked(ids + [last], stored, req)
  {
    var all := ids + [last];
    forall i, j | 0 <= i < j < |all| ensures Rank(stored, req, all[i]) < Rank(stored, req, all[j]) {
      assert all[i] == ids[i] && ids[i] in ids;
    }
  }

  lemma {:induction false} StoredOrderRanked(all: seq<Number>, n: nat, req: seq<Change>)
    requires n <= |all|
    ensures Ranked(StoredOrder(all[..n]), all, req)
    ensures forall id :: id in StoredOrder(all[..n]) ==> FirstStored(all, id).Some? && FirstStored(all, id).value < n
  {
    if n > 0 {
      var front, id := all[..n - 1], all[n - 1].hotel;
      assert all[..n][..n - 1] == front;
      StoredOrderRanked(all, n - 1, req);
      StoredOrderIs(front, id);
      if id !in AsMap(front) {
        NotStoredBefore(front, id);
        assert FirstStored(all, id).value == n - 1 by { assert forall i :: 0 <= i < n - 1 ==> all[i] == front[i]; }
        RankedSnoc(StoredOrder(front), id, all, req);
      }
    }
  }

  lemma {:induction false} NotStoredBefore(ns: seq<Number>, id: HotelId)
    ensures id in AsMap(ns) <==> FirstStored(ns, id).Some?
  {
    if ns != [] { NotStoredBefore(ns[..|ns| - 1], id); }
  }

  lemma {:induction false} NewIdsRanked(stored: seq<Number>, all: seq<Change>, n: nat)
    requires Named(all) && DistinctChanges(all) && n <= |all|
    ensures Ranked(NewIds(stored, all[..n]), stored, all)
    ensures forall id :: id in NewIds(stored, all[..n]) ==>
              FirstStored(stored, id).None? && LastNamed(all, id).Some? && LastNamed(all, id).value < n
  {
    if n > 0 {
      var front, c := all[..n - 1], all[n - 1];
      assert all[..n][..n - 1] == front;
      NewIdsRanked(stored, all, n - 1);
      NotStoredBefore(stored, c.hotel.value);
      assert LastNamed(all, c.hotel.value) == Some(n - 1) by {
        assert forall i :: 0 <= i < |all| && i != n - 1 ==> all[i].hotel.value != c.hotel.value;
      }
    }
  }

  lemma {:induction false} PresentRanked(ids: seq<HotelId>, m: map<HotelId, string>, stored: seq<Number>,
                                         req: seq<Change>)
    requires Ranked(ids, stored, req)
    ensures Ranked(Present(ids, m), stored, req)
    ensures forall id :: id in Present(ids, m) ==> id in ids
  {
    if ids != [] {
      var front, last := ids[..|ids| - 1], ids[|ids| - 1];
      PresentRanked(front, m, stored, req);
      forall id | id in front ensures Rank(stored, req, id) < Rank(stored, req, last) {
        var i :| 0 <= i < |front| && front[i] == id;
        assert ids[i] == id;
      }
      if last in m { RankedSnoc(Present(front, m), last, stored, req); }
    }
  }

  /** With distinct request ids: stored ids in the order of their first pairs, then new ones in request order. */
  lemma SavedInOrder(stored: seq<Number>, req: seq<Change>)
    requires Named(req) && DistinctChanges(req)
    ensures Ranked(Hotels(Merged(stored, req)), stored, req)
  {
    var kept, added := StoredOrder(stored), NewIds(stored, req);
    assert stored[..|stored|] == stored && req[..|req|] == req;
    StoredOrderRanked(stored, |stored|, req);
    NewIdsRanked(stored, req, |req|);
    forall i, j | 0 <= i < j < |kept + added|
      ensures Rank(stored, req, (kept + added)[i]) < Rank(stored, req, (kept + added)[j])
    {
      if i < |kept| <= j {
        assert kept[i] in kept && added[j - |kept|] in added;
      }
    }
    DistinctRequestOrder(stored, req);
    PresentRanked(kept + added, Fold(AsMap(stored), req), stored, req);
  }

  lemma {:induction false} StoredOrderOfDistinct(ns: seq<Number>)
    requires DistinctHotels(ns)
    ensures StoredOrder(ns) == Hotels(ns)
    ensures forall id :: id in AsMap(ns) <==> id in Hotels(ns)
  {
    if ns != [] {
      var front, last := ns[..|ns| - 1], ns[|ns| - 1];
      StoredOrderOfDistinct(front);
      assert Hotels(ns) == Hotels(front) + [last.hotel];
      assert forall i :: 0 <= i < |front| ==> Hotels(front)[i] == ns[i].hotel != last.hotel;
    }
  }

  lemma {:induction false} ListedAgain(ns: seq<Number>, m: map<HotelId, string>)
    requires forall n :: n in ns ==> n.hotel in m && m[n.hotel] == n.room
    ensures Listed(Hotels(ns), m) == ns
  {
    if ns != [] {
      var front, last := ns[..|ns| - 1], ns[|ns| - 1];
      assert forall n :: n in front ==> n in ns;
      assert last in ns;
      ListedAgain(front, m);
      assert Hotels(ns)[..|ns| - 1] == Hotels(front);
    }
  }

  // Sending the request again

  predicate NeverClears(req: seq<Change>, id: HotelId)
    requires Named(req)
  {
    forall i :: 0 <= i < |req| && req[i].hotel.value == id ==> !Clears(req[i])
  }

  /** No entry clears a number that the same request gives a value in the end. */
  predicate NoClearUndone(req: seq<Change>)
    requires Named(req)
  {
    forall i :: 0 <= i < |req| && Clears(req[i]) ==> req[i].hotel.value !in Fold(map[], req)
  }

  /** A number that is there is cleared on the way exactly when some entry clears it. */
  lemma {:induction false} ClearedOfPresent(stored: seq<Number>, req: seq<Change>, id: HotelId)
    requires Named(req) && id in AsMap(stored)
    ensures Cleared(stored, req, id) == 0 <==> NeverClears(req, id)
    ensures NeverClears(req, id) ==> id in Fold(AsMap(stored), req)
  {
    if req != [] {
      var front, last := req[..|req| - 1], req[|req| - 1];
      ClearedOfPresent(stored, front, id);
      assert NeverClears(req, id) <==> NeverClears(front, id) && (last.hotel.value == id ==> !Clears(last)) by {
        assert forall i :: 0 <= i < |front| ==> req[i] == front[i];
      }
    }
  }

  lemma {:induction false} NeverClearedIsNotCleared(stored: seq<Number>, req: seq<Change>, id: HotelId)
    requires Named(req) && NeverClears(req, id)
    ensures Cleared(stored, req, id) == 0
  {
    if req != [] { NeverClearedIsNotCleared(stored, req[..|req| - 1], id); }
  }

  /** Whatever is stored, no clearing is undone exactly when the numbers saved in the end are never cleared. */
  lemma UndoneIsAboutFinal(m: map<HotelId, string>, req: seq<Change>)
    requires Named(req)
    ensures NoClearUndone(req) <==> forall id :: id in Fold(m, req) ==> NeverClears(req, id)
  {
    forall i | 0 <= i < |req|
      ensures req[i].hotel.value in Fold(m, req) <==> req[i].hotel.value in Fold(map[], req)
    {
      assert Mentions(req, req[i].hotel.value);
      FoldAt(m, map[], req, req[i].hotel.value);
    }
    if NoClearUndone(req) {
      forall id | id in Fold(m, req) ensures NeverClears(req, id) {
        assert forall i :: 0 <= i < |req| && req[i].hotel.value == id ==> !Clears(req[i]);
      }
    } else {
      var i :| 0 <= i < |req| && Clears(req[i]) && req[i].hotel.value in Fold(map[], req);
      assert !NeverClears(req, req[i].hotel.value);
    }
  }

  lemma FoldAgain(m: map<HotelId, string>, req: seq<Change>)
    requires Named(req)
    ensures Fold(Fold(m, req), req) == Fold(m, req)
  {
    var final := Fold(m, req);
    var again := Fold(final, req);
    forall id ensures (id in again <==> id in final) && (id in again ==> again[id] == final[id]) {
      FoldAt(final, m, req, id);
    }
  }

  /** Ids put behind the stored ones are not written out when every saved number is there and never cleared. */
  lemma {:induction false} NothingNewListed(ns: seq<Number>, req: seq<Change>, final: map<HotelId, string>)
    requires Named(req) && forall id :: id in final ==> id in AsMap(ns) && NeverClears(req, id)
    ensures Listed(Order(ns, req), final) == Listed(StoredOrder(ns), final)
  {
    if req != [] {
      var front, last := req[..|req| - 1], req[|req| - 1];
      assert forall id :: NeverClears(req, id) ==> NeverClears(front, id);
      NothingNewListed(ns, front, final);
      if last.hotel.value in final { ClearedOfPresent(ns, front, last.hotel.value); }
    }
  }

  lemma StableWhenNothingUndone(stored: seq<Number>, req: seq<Change>)
    requires Named(req) && NoClearUndone(req)
    ensures DistinctHotels(Merged(stored, req)) && Merged(Merged(stored, req), req) == Merged(stored, req)
  {
    var saved, final := Merged(stored, req), Fold(AsMap(stored), req);
    UndoneIsAboutFinal(AsMap(stored), req);
    forall id | id in final ensures Cleared(stored, req, id) == 0 { NeverClearedIsNotCleared(stored, req, id); }
    SavedDistinctExactly(stored, req);
    MergeIsOverride(stored, req);
    FoldAgain(AsMap(stored), req);
    NothingNewListed(saved, req, final);
    StoredOrderOfDistinct(saved);
    forall n | n in saved ensures n.hotel in final && final[n.hotel] == n.room {
      CopiesAgree(Order(stored, req), final, n);
    }
    ListedAgain(saved, final);
  }

  /** What an undone clearing puts behind the list makes the second save hold two copies. */
  lemma GrowsWhenUndone(stored: seq<Number>, req: seq<Change>)
    requires Named(req) && !NoClearUndone(req)
    ensures !DistinctHotels(Merged(Merged(stored, req), req))
  {
    var saved, final := Merged(stored, req), Fold(AsMap(stored), req);
    UndoneIsAboutFinal(AsMap(stored), req);
    var id :| id in final && !NeverClears(req, id);
    MergeIsOverride(stored, req);
    FoldAgain(AsMap(stored), req);
    ClearedOfPresent(saved, req, id);
    SavedDistinctExactly(saved, req);
  }

  /**
   * For every stored list: the saved ids are distinct and stay as they are when the request is sent again, exactly
   * when the request undoes no clearing of its own.
   */
  lemma MergeAgainExactly(stored: seq<Number>, req: seq<Change>)
    requires Named(req)
    ensures DistinctHotels(Merged(stored, req)) && Merged(Merged(stored, req), req) == Merged(stored, req)
       <==> NoClearUndone(req)
  {
    if NoClearUndone(req) { StableWhenNothingUndone(stored, req); } else { GrowsWhenUndone(stored, req); }
  }

  lemma {:induction false} ClearedStays(m: map<HotelId, string>, req: seq<Change>, i: nat)
    requires Named(req) && DistinctChanges(req) && i < |req| && Clears(req[i])
    ensures req[i].hotel.value !in Fold(m, req)
  {
    if i < |req| - 1 { ClearedStays(m, req[..|req| - 1], i); }
  }

  /** In particular, a request with distinct ids changes nothing the second time. */
  lemma MergeAgain(stored: seq<Number>, req: seq<Change>)
    requires Named(req) && DistinctChanges(req)
    ensures Merged(Merged(stored, req), req) == Merged(stored, req)
  {
    forall i | 0 <= i < |req| && Clears(req[i]) ensures req[i].hotel.value !in Fold(map[], req) {
      ClearedStays(map[], req, i);
    }
    MergeAgainExactly(stored, req);
  }

  /** On an empty list such a request saves one copy the first time and two the second. */
  lemma SecondTimeDiffers(id: HotelId)
    ensures var req := [Change(Some(id), None), Change(Some(id), Some("7"))];
            Named(req) && Copies(Merged([], req), id) == 1 && Copies(Merged(Merged([], req), req), id) == 2
  {
    var clear, rename := Change(Some(id), None), Change(Some(id), Some("7"));
    var req := [clear, rename];
    assert req[..1] == [clear] && [clear][..0] == [];
    assert Fold(map[], [clear]) == map[];
    assert Fold(map[], req) == map[id := "7"];
    assert Cleared([], [clear], id) == 0;
    SavedCopies([], req, id);
    var saved := Merged([], req);
    MergeIsOverride([], req);
    assert AsMap(saved) == map[id := "7"];
    assert Fold(AsMap(saved), [clear]) == map[];
    assert Cleared(saved, [clear], id) == 1;
    SavedCopies(saved, req, id);
  }

  // The reader

  /** One room's list read over what earlier rooms gave: empty numbers are passed over. */
  function ReadRoom(m: map<HotelId, string>, ns: seq<Number>): map<HotelId, string> {
    if ns == [] then m
    else
      var rest, n := ReadRoom(m, ns[..|ns| - 1]), ns[|ns| - 1];
      if n.room != "" then rest[n.hotel := n.room] else rest
  }

  function ReadRooms(rooms: seq<Meta>): map<HotelId, string> {
    if rooms == [] then map[] else ReadRoom(ReadRooms(rooms[..|rooms| - 1]), rooms[|rooms| - 1].numbers)
  }

  /** The reader loop of `buildHotels`. */
  method HotelRoomMap(rooms: seq<Meta>) returns (m: map<HotelId, string>)
    ensures m == ReadRooms(rooms)
  {
    m := map[];
    for r := 0 to |rooms|
      invariant m == ReadRooms(rooms[..r])
    {
      var ns := rooms[r].numbers;
      ghost var before := m;
      for i := 0 to |ns|
        invariant m == ReadRoom(before, ns[..i])
      {
        assert ns[..i + 1][..i] == ns[..i];
        if ns[i].room != "" { m := m[ns[i].hotel := ns[i].room]; }
      }
      assert ns[..|ns|] == ns && rooms[..r + 1][..r] == rooms[..r];
    }
    assert rooms[..|rooms|] == rooms;
  }

  lemma ReadSnoc(m: map<HotelId, string>, ns: seq<Number>, n: Number)
    ensures ReadRoom(m, ns + [n]) == if n.room != "" then ReadRoom(m, ns)[n.hotel := n.room] else ReadRoom(m, ns)
  {
    assert (ns + [n])[..|ns|] == ns;
  }

  predicate Shows(order: seq<HotelId>, final: map<HotelId, string>, id: HotelId) {
    id in order && id in final && final[id] != ""
  }

  lemma {:induction false} ReadListed(m: map<HotelId, string>, order: seq<HotelId>, final: map<HotelId, string>,
                                     id: HotelId)
    ensures var read := ReadRoom(m, Listed(order, final));
            if Shows(order, final, id) then id in read && read[id] == final[id] else SameAt(read, m, id)
  {
    if order != [] {
      var front, last := order[..|order| - 1], order[|order| - 1];
      ReadListed(m, front, final, id);
      assert id in order <==> id == last || id in front;
      if last in final {
        ReadSnoc(m, Listed(front, final), Number(last, final[last]));
      } else {
        assert Listed(order, final) == Listed(front, final);
      }
    }
  }

  /** For a saved room the reader sees exactly the non-empty part of the folded map, over earlier rooms. */
  lemma ReaderSeesOverride(earlier: seq<Meta>, room: Meta, req: seq<Change>)
    requires Named(req)
    ensures var final := Fold(AsMap(room.numbers), req);
            ReadRooms(earlier + [room.(numbers := Merged(room.numbers, req))])
              == ReadRooms(earlier) + map id | id in final && final[id] != "" :: final[id]
  {
    var final, order, before := Fold(AsMap(room.numbers), req), Order(room.numbers, req), ReadRooms(earlier);
    var rooms := earlier + [room.(numbers := Merged(room.numbers, req))];
    assert rooms[..|rooms| - 1] == earlier;
    var read, wanted := ReadRoom(before, Listed(order, final)),
                       before + map id | id in final && final[id] != "" :: final[id];
    forall id ensures (id in read <==> id in wanted) && (id in read ==> read[id] == wanted[id]) {
      ReadListed(before, order, final, id);
      OrderCovers(room.numbers, req, id);
    }
  }
}
