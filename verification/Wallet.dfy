/**
 * The wallet handlers and the journal hook, step by step over the tables they update.
 * A save and its hook are one transaction.
 */
module Wallet {
  import opened Prelude
  import opened GoText
  import opened Finance

  /** A new row of the user, open for editing, tied to nothing. */
  ghost predicate Stores(b: Books, b': Books, chart: Chart, user: Id, row: Cash, quote: Quote) {
    && Saves(b, b', chart, b.nextCash, row, quote)
    && b'.nextCash == b.nextCash + 1
    && Editable(row, user) && row.relatedId.None?
  }

  /** An edit of a row the guards let this user edit. */
  ghost predicate Edits(b: Books, b': Books, chart: Chart, user: Id, k: Id, row: Cash, quote: Quote) {
    && k in b.cashes && Editable(b.cashes[k], user)
    && Saves(b, b', chart, k, row, quote)
    && b'.nextCash == b.nextCash
    && Editable(row, user)
    && row.relatedId == b.cashes[k].relatedId && row.exchangeRate == b.cashes[k].exchangeRate
  }

  /** A wallet request seen from outside. */
  ghost predicate WalletStep(b: Books, b': Books, chart: Chart, user: Id) {
    || b' == b
    || (exists row, quote :: Stores(b, b', chart, user, row, quote))
    || (exists k, row, quote :: Edits(b, b', chart, user, k, row, quote))
  }

  /** A row other than the saved one keeps its journal, hence stays mirrored. */
  lemma OthersStayMirrored(b: Books, b': Books, chart: Chart, k: Id, row: Cash, quote: Quote, j: Id)
    requires Saves(b, b', chart, k, row, quote) && Sound(b)
    requires j != k && j in b.cashes && Mirrors(b, chart, j)
    ensures Mirrors(b', chart, j)
  {
    assert forall x :: x in b'.entries && IsFor(b'.entries[x], j) ==> x in OtherEntries(b', k);
    if !Skipped(chart, b.cashes[j]) {
      var e, d, c :| PostedAs(b, chart, j, e, d, c);
      assert e in OtherEntries(b, k) && d in OtherItems(b, k) && c in OtherItems(b, k);
      assert d in OtherItems(b', k) && c in OtherItems(b', k);
      forall i | i in b'.items && b'.items[i].entryId == e ensures i == d || i == c {
        assert i in OtherItems(b', k);
      }
      assert PostedAs(b', chart, j, e, d, c);
    }
  }

  /** No line dangles after a save: it hangs on an untouched header or on the row's own. */
  lemma SaveKeepsSound(b: Books, b': Books, chart: Chart, k: Id, row: Cash, quote: Quote)
    requires Saves(b, b', chart, k, row, quote) && Sound(b)
    ensures Sound(b')
  {
    forall i | i in b'.items ensures b'.items[i].entryId in b'.entries {
      if !Owns(b', k, i) {
        assert i in OtherItems(b', k);
        assert i in OtherItems(b, k);
        var e := b.items[i].entryId;
        assert e in OtherEntries(b, k);
      }
    }
    forall e | e in b'.entries && b'.entries[e].txType == Some(MORPH_USER_CASH)
      ensures b'.entries[e].txId.Some? && b'.entries[e].txId.value in b'.cashes
    {
      if !IsFor(b'.entries[e], k) { assert e in OtherEntries(b', k); }
    }
  }

  /** Whatever is saved, the journal follows the cash table. */
  lemma SaveKeepsConsistent(b: Books, b': Books, chart: Chart, k: Id, row: Cash, quote: Quote)
    requires Consistent(b, chart) && Saves(b, b', chart, k, row, quote)
    ensures Consistent(b', chart)
  {
    SaveKeepsSound(b, b', chart, k, row, quote);
    forall j | j in b'.cashes ensures Mirrors(b', chart, j) {
      if j != k { OthersStayMirrored(b, b', chart, k, row, quote, j); }
    }
  }

  datatype StoreResult = Created(id: Id) | StoreInvalid(fields: set<string>)

  datatype UpdateResult = Updated | NotFound | NotOwner | Locked | UpdateInvalid(fields: set<string>)

  /** The row a valid store request describes. */
  function NewRow(user: Id, f: WalletForm, currencies: map<string, real>): Cash
    requires FormErrors(f) == {}
  {
    var rate := if f.currency in currencies && currencies[f.currency] != 0.0 then 1.0 / currencies[f.currency] else 1.0;
    Cash(user, ParseUint(f.groupId), ParseUint(f.categoryId), ParseUint(f.toUserId), f.dateValue,
         ParseKind(f.kind).value, f.amountValue, f.currency, Some(rate), Some(f.details), f.attachment,
         false, None, None)
  }

  /** The columns an edit writes; the others keep their values. */
  function EditedRow(row: Cash, f: WalletForm): Cash
    requires FormErrors(f) == {}
  {
    row.(kind := ParseKind(f.kind).value, currency := f.currency, details := Some(f.details),
         amount := f.amountValue, cashedAt := f.dateValue,
         groupId := ParseUint(f.groupId), categoryId := ParseUint(f.categoryId), toUserId := ParseUint(f.toUserId),
         attachments := if f.attachment.Some? then f.attachment else row.attachments)
  }

  /** What an edit leaves alone. */
  predicate KeepsColumns(row: Cash, row': Cash) {
    row'.userId == row.userId && row'.isFixed == row.isFixed && row'.picVerifiedAt == row.picVerifiedAt
    && row'.relatedId == row.relatedId && row'.exchangeRate == row.exchangeRate
  }

  /** Date and rate that a save at `now` gives the row's journal. */
  function QuoteFor(row: Cash, rates: seq<RateRow>, now: Time): Quote {
    var date := if row.cashedAt.Some? then row.cashedAt.value else now;
    Quote(date, GetExchangeRate(rates, date, BASE_CURRENCY, row.currency))
  }

  /** The query for the row's existing header. */
  function FirstHeader(entries: map<Id, Entry>, k: Id): (r: Option<Id>)
    ensures r.None? <==> NoHeader(entries, k)
    ensures r.Some? ==> r.value in entries && IsFor(entries[r.value], k)
    ensures r.Some? ==> forall x :: x in entries && IsFor(entries[x], k) ==> r.value <= x
  {
    var hits := set x | x in entries && IsFor(entries[x], k);
    assert hits == {} ==> NoHeader(entries, k) by {
      if hits == {} { forall x | x in entries ensures !IsFor(entries[x], k) { assert x !in hits; } }
    }
    assert forall x :: x in entries && IsFor(entries[x], k) ==> x in hits;
    FirstId(hits)
  }

  function LineIds(items: map<Id, Item>, e: Id, side: Side): set<Id> {
    set i | i in items && items[i].entryId == e && items[i].line.side == side
  }

  /** Where an upsert of header e and this side writes: the first match, or the fresh id. */
  function LineId(items: map<Id, Item>, e: Id, side: Side, next: Id): Id {
    var hit := FirstId(LineIds(items, e, side));
    if hit.Some? then hit.value else next
  }

  function Advance(items: map<Id, Item>, e: Id, side: Side, next: Id): Id {
    if LineIds(items, e, side) == {} then next + 1 else next
  }

  // The projection read back in the row's own terms

  lemma RateTold(rates: seq<RateRow>, currency: string, at: Time)
    ensures RateTells(rates, currency, at, GetExchangeRate(rates, at, BASE_CURRENCY, currency))
  {
    if currency != BASE_CURRENCY {
      var latest := LatestRate(rates, at, BASE_CURRENCY, currency);
      assert forall x :: QuotedInWeek(x, currency, at) <==> RateApplies(x, at, BASE_CURRENCY, currency);
      if latest.Some? { assert QuotedInWeek(latest.value, currency, at); }
    }
  }

  lemma PairTold(chart: Chart, row: Cash, rate: real)
    ensures PairTells(chart, row, DebitLine(chart, row, rate), CreditLine(chart, row, rate))
  {
  }

  /** A row that the journal mirrors with the quote of its save has the entry that its columns and the rates tell. */
  lemma MirrorTells(b: Books, chart: Chart, k: Id, rates: seq<RateRow>, now: Time)
    requires k in b.cashes && k in b.quotes && Mirrors(b, chart, k)
    requires b.quotes[k] == QuoteFor(b.cashes[k], rates, now)
    ensures EntryTells(b, chart, k, b.cashes[k], rates, now)
  {
    var row, quote := b.cashes[k], b.quotes[k];
    assert KeptOut(chart, row) <==> Skipped(chart, row);
    assert forall x: Entry :: HeadsRow(x, k) <==> IsFor(x, k);
    if !KeptOut(chart, row) {
      var e, d, c :| PostedAs(b, chart, k, e, d, c);
      RateTold(rates, row.currency, quote.date);
      PairTold(chart, row, quote.rate);
      assert EntryIs(b, chart, k, row, rates, quote.date, e, d, c);
    }
  }

  /** The rate kept with a new row: the inverse of its currency's, or 1 when there is none. */
  predicate InverseRate(rate: Option<real>, currency: string, currencies: map<string, real>) {
    rate.Some? && if currency in currencies && currencies[currency] != 0.0 then rate.value * currencies[currency] == 1.0
                  else rate.value == 1.0
  }

  lemma NewRowTells(user: Id, f: WalletForm, currencies: map<string, real>)
    requires FormErrors(f) == {}
    ensures var row := NewRow(user, f, currencies);
            RowTells(row, f) && row.userId == user && row.attachments == f.attachment
            && InverseRate(row.exchangeRate, f.currency, currencies)
  {
    NoFieldsMeansAccepted(f);
  }

  lemma NoFieldsMeansAccepted(f: WalletForm)
    ensures FieldsTell(FormErrors(f), f)
  {
  }

  // Value-level reasons why the hook's table updates amount to `Saves`

  /** What the tables look like before the hook of row k runs: no header, or one with its two lines. */
  ghost predicate ReadyFor(b: Books, chart: Chart, k: Id) {
    || NoHeader(b.entries, k)
    || (k in b.cashes && k in b.quotes && exists e, d, c :: PostedAs(b, chart, k, e, d, c))
  }

  lemma ConsistentIsReady(b: Books, chart: Chart, k: Id)
    requires Consistent(b, chart)
    ensures ReadyFor(b, chart, k)
  {
    if k in b.cashes { assert Mirrors(b, chart, k); }
  }

  /** A row has at most one header. */
  lemma OneHeader(b: Books, chart: Chart, k: Id, e: Id)
    requires ReadyFor(b, chart, k) && e in b.entries && IsFor(b.entries[e], k)
    ensures forall x :: x in b.entries && IsFor(b.entries[x], k) ==> x == e
  {
  }

  /** The tables after the header of row k, if any, went with its lines. */
  ghost predicate Deleted(b: Books, b': Books, k: Id, row: Cash, quote: Quote, gone: Option<Id>) {
    && b'.cashes == b.cashes[k := row] && b'.quotes == b.quotes[k := quote]
    && b'.entries == (if gone.Some? then b.entries - {gone.value} else b.entries)
    && b'.items == (map i | i in b.items && Some(b.items[i].entryId) != gone :: b.items[i])
  }

  lemma DeletionFrames(b: Books, b': Books, k: Id, row: Cash, quote: Quote, gone: Option<Id>)
    requires Sound(b) && Deleted(b, b', k, row, quote, gone)
    requires forall x :: x in b.entries ==> (IsFor(b.entries[x], k) <==> Some(x) == gone)
    ensures OtherEntries(b', k) == OtherEntries(b, k)
    ensures OtherItems(b', k) == OtherItems(b, k)
  {
    assert OtherEntries(b', k) == OtherEntries(b, k);
    assert forall i :: i in b.items ==> (Owns(b, k, i) <==> Some(b.items[i].entryId) == gone);
  }

  /** Removing the header of k with its lines leaves a skipped row mirrored and the rest as it was. */
  lemma DeletionSaves(b: Books, b': Books, chart: Chart, k: Id, row: Cash, quote: Quote, gone: Option<Id>)
    requires Sound(b) && Skipped(chart, row) && Deleted(b, b', k, row, quote, gone)
    requires forall x :: x in b.entries ==> (IsFor(b.entries[x], k) <==> Some(x) == gone)
    requires b'.nextEntry == b.nextEntry && b'.nextItem == b.nextItem && b.nextCash <= b'.nextCash && k < b'.nextCash
    ensures Saves(b, b', chart, k, row, quote)
  {
    DeletionFrames(b, b', k, row, quote, gone);
    assert forall x :: x in b'.entries ==> x in b.entries && Some(x) != gone;
  }

  /** Header e and lines d, c of row k as they sit in the tables before the write: old ones, or fresh ids. */
  ghost predicate Slots(b: Books, chart: Chart, k: Id, e: Id, d: Id, c: Id) {
    || (k in b.cashes && k in b.quotes && PostedAs(b, chart, k, e, d, c))
    || (e == b.nextEntry && d == b.nextItem && c == d + 1 && NoHeader(b.entries, k))
  }

  /** The tables after header e and lines d, c of row k were written. */
  ghost predicate Posted(b: Books, b': Books, chart: Chart, k: Id, row: Cash, quote: Quote, e: Id, d: Id, c: Id) {
    && b'.cashes == b.cashes[k := row] && b'.quotes == b.quotes[k := quote]
    && e in b'.entries && HeaderMatches(b'.entries[e], k, row, quote)
    && b'.entries == b.entries[e := b'.entries[e]]
    && b'.items == b.items[d := Item(e, DebitLine(chart, row, quote.rate))]
                    [c := Item(e, CreditLine(chart, row, quote.rate))]
  }

  lemma PostingMirrors(b: Books, b': Books, chart: Chart, k: Id, row: Cash, quote: Quote, e: Id, d: Id, c: Id)
    requires Sound(b) && Slots(b, chart, k, e, d, c) && Posted(b, b', chart, k, row, quote, e, d, c)
    ensures PostedAs(b', chart, k, e, d, c)
  {
  }

  lemma PostingSparesEntries(b: Books, b': Books, chart: Chart, k: Id, row: Cash, quote: Quote, e: Id, d: Id, c: Id)
    requires Sound(b) && Slots(b, chart, k, e, d, c) && Posted(b, b', chart, k, row, quote, e, d, c)
    ensures OtherEntries(b', k) == OtherEntries(b, k)
  {
  }

  lemma PostingSparesItem(b: Books, b': Books, chart: Chart, k: Id, row: Cash, quote: Quote, e: Id, d: Id, c: Id)
    requires Sound(b) && Slots(b, chart, k, e, d, c) && Posted(b, b', chart, k, row, quote, e, d, c)
    ensures forall i :: i in b.items && i != d && i != c ==>
                          i in b'.items && b'.items[i] == b.items[i] && (Owns(b', k, i) <==> Owns(b, k, i))
  {
  }

  lemma PostingSparesItems(b: Books, b': Books, chart: Chart, k: Id, row: Cash, quote: Quote, e: Id, d: Id, c: Id)
    requires Sound(b) && Slots(b, chart, k, e, d, c) && Posted(b, b', chart, k, row, quote, e, d, c)
    ensures OtherItems(b', k) == OtherItems(b, k)
  {
    PostingSparesItem(b, b', chart, k, row, quote, e, d, c);
    assert Owns(b', k, d) && Owns(b', k, c);
    assert d in b.items ==> Owns(b, k, d);
    assert c in b.items ==> Owns(b, k, c);
  }

  lemma PostingKeepsIds(b: Books, b': Books, chart: Chart, k: Id, row: Cash, quote: Quote, e: Id, d: Id, c: Id)
    requires k in b.cashes && k in b.quotes
    requires PostedAs(b, chart, k, e, d, c) && Posted(b, b', chart, k, row, quote, e, d, c)
    requires PostedAs(b', chart, k, e, d, c)
    ensures EntriesOf(b', k).Keys == EntriesOf(b, k).Keys == {e}
    ensures ItemsOf(b', k).Keys == ItemsOf(b, k).Keys == {d, c}
  {
    assert forall i :: i in b.items ==> (Owns(b, k, i) <==> b.items[i].entryId == e);
    assert forall i :: i in b'.items ==> (Owns(b', k, i) <==> b'.items[i].entryId == e);
  }

  /** Header e and lines d, c written over the old ones, or with fresh ids, mirror the row. */
  lemma PostingSaves(b: Books, b': Books, chart: Chart, k: Id, row: Cash, quote: Quote, e: Id, d: Id, c: Id)
    requires Consistent(b, chart) && !Skipped(chart, row)
    requires Slots(b, chart, k, e, d, c) && Posted(b, b', chart, k, row, quote, e, d, c)
    requires b'.entries[e].createdBy == if e in b.entries then b.entries[e].createdBy else Some(row.userId)
    requires b.nextEntry <= b'.nextEntry && b.nextItem <= b'.nextItem && b.nextCash <= b'.nextCash && k < b'.nextCash
    requires e < b'.nextEntry && d < b'.nextItem && c < b'.nextItem
    ensures Saves(b, b', chart, k, row, quote)
  {
    PostingMirrors(b, b', chart, k, row, quote, e, d, c);
    PostingSparesEntries(b, b', chart, k, row, quote, e, d, c);
    PostingSparesItems(b, b', chart, k, row, quote, e, d, c);
    assert KeepsIds(b, b', chart, k, row) by {
      if k in b.cashes && !Skipped(chart, b.cashes[k]) {
        assert Mirrors(b, chart, k);
        PostingKeepsIds(b, b', chart, k, row, quote, e, d, c);
      } else if k in b.cashes {
        assert Mirrors(b, chart, k);
      }
    }
  }

  /** Upserts under a header that has its two lines find those lines. */
  lemma SlotsReused(b: Books, chart: Chart, k: Id, e: Id, d: Id, c: Id, debit: Line)
    requires Sound(b) && k in b.cashes && k in b.quotes && PostedAs(b, chart, k, e, d, c) && debit.side == Debit
    ensures LineId(b.items, e, Debit, b.nextItem) == d && Advance(b.items, e, Debit, b.nextItem) == b.nextItem
    ensures var items := b.items[d := Item(e, debit)];
            LineId(items, e, Credit, b.nextItem) == c && Advance(items, e, Credit, b.nextItem) == b.nextItem
  {
    assert LineIds(b.items, e, Debit) == {d};
    assert LineIds(b.items[d := Item(e, debit)], e, Credit) == {c};
  }

  /** Upserts under a fresh header take two fresh ids. */
  lemma SlotsFresh(b: Books, e: Id, debit: Line)
    requires Sound(b) && e == b.nextEntry && debit.side == Debit
    ensures LineId(b.items, e, Debit, b.nextItem) == b.nextItem
    ensures Advance(b.items, e, Debit, b.nextItem) == b.nextItem + 1
    ensures var items, next := b.items[b.nextItem := Item(e, debit)], b.nextItem + 1;
            LineId(items, e, Credit, next) == next && Advance(items, e, Credit, next) == next + 1
  {
    assert LineIds(b.items, e, Debit) == {};
    assert LineIds(b.items[b.nextItem := Item(e, debit)], e, Credit) == {};
  }

  /** The two upserts of header e write the slots of row k. */
  lemma SlotsFound(b: Books, chart: Chart, k: Id, e: Id, debit: Line)
    requires Consistent(b, chart) && ReadyFor(b, chart, k) && debit.side == Debit
    requires e == if FirstHeader(b.entries, k).Some? then FirstHeader(b.entries, k).value else b.nextEntry
    ensures var d, next := LineId(b.items, e, Debit, b.nextItem), Advance(b.items, e, Debit, b.nextItem);
            var items := b.items[d := Item(e, debit)];
            Slots(b, chart, k, e, d, LineId(items, e, Credit, next))
            && d < Advance(items, e, Credit, next) && LineId(items, e, Credit, next) < Advance(items, e, Credit, next)
            && b.nextItem <= Advance(items, e, Credit, next)
  {
    if FirstHeader(b.entries, k).Some? {
      var e': Id, d: Id, c: Id :| PostedAs(b, chart, k, e', d, c);
      SlotsReused(b, chart, k, e, d, c, debit);
    } else {
      SlotsFresh(b, e, debit);
    }
  }

  /** The hook's three writes, each where the tables say, amount to one save. */
  lemma UpsertsSave(b: Books, b': Books, chart: Chart, k: Id, row: Cash, quote: Quote, e: Id, d: Id, c: Id)
    requires Consistent(b, chart) && ReadyFor(b, chart, k) && !Skipped(chart, row)
    requires Posted(b, b', chart, k, row, quote, e, d, c)
    requires var hit := FirstHeader(b.entries, k);
             if hit.Some?
             then e == hit.value && b'.nextEntry == b.nextEntry && b'.entries[e].createdBy == b.entries[e].createdBy
             else e == b.nextEntry && b'.nextEntry == e + 1 && b'.entries[e].createdBy == Some(row.userId)
    requires d == LineId(b.items, e, Debit, b.nextItem)
    requires var next := Advance(b.items, e, Debit, b.nextItem);
             var after := b.items[d := Item(e, DebitLine(chart, row, quote.rate))];
             c == LineId(after, e, Credit, next) && b'.nextItem == Advance(after, e, Credit, next)
    requires b.nextCash <= b'.nextCash && k < b'.nextCash
    ensures Saves(b, b', chart, k, row, quote)
  {
    SlotsFound(b, chart, k, e, DebitLine(chart, row, quote.rate));
    PostingSaves(b, b', chart, k, row, quote, e, d, c);
  }

  class Ledger {
    const chart: Chart
    var cashes: map<Id, Cash>
    var entries: map<Id, Entry>
    var items: map<Id, Item>
    var nextCash: Id
    var nextEntry: Id
    var nextItem: Id
    ghost var quotes: map<Id, Quote>

    ghost function State(): Books
      reads this
    {
      Books(cashes, entries, items, nextCash, nextEntry, nextItem, quotes)
    }

    constructor (chart: Chart)
      ensures State() == EMPTY_BOOKS && this.chart == chart
    {
      this.chart := chart;
      cashes, entries, items, quotes := map[], map[], map[], map[];
      nextCash, nextEntry, nextItem := 1, 1, 1;
    }

    /** Lines first, then the header. */
    method DeleteWithItems(e: Id)
      modifies this`entries, this`items
      ensures items == map i | i in old(items) && old(items)[i].entryId != e :: old(items)[i]
      ensures entries == old(entries) - {e}
    {
      items := map i | i in items && items[i].entryId != e :: items[i];
      entries := entries - {e};
    }

    /** One line per header and side: overwritten when there, created with a fresh id otherwise. */
    method UpsertItem(e: Id, side: Side, account: Option<Id>, currency: string, rate: real, amount: real,
                      ownerType: Option<string>, ownerId: Option<Id>) returns (at: Id)
      modifies this`items, this`nextItem
      ensures at == LineId(old(items), e, side, old(nextItem))
              && nextItem == Advance(old(items), e, side, old(nextItem))
      ensures items == old(items)[at := Item(e, Line(side, account, currency, rate, amount, ownerType, ownerId))]
    {
      var hit := FirstId(LineIds(items, e, side));
      if hit.Some? {
        at := hit.value;
      } else {
        at := nextItem;
        nextItem := nextItem + 1;
      }
      items := items[at := Item(e, Line(side, account, currency, rate, amount, ownerType, ownerId))];
    }

    /** The header of row k, updated in place or created. */
    method UpsertHeader(existing: Option<Id>, k: Id, row: Cash, date: Time) returns (e: Id)
      requires existing.Some? ==> existing.value in entries && IsFor(entries[existing.value], k)
      modifies this`entries, this`nextEntry
      ensures e in entries && entries == old(entries)[e := entries[e]]
      ensures forall rate :: HeaderMatches(entries[e], k, row, Quote(date, rate))
      ensures if existing.Some?
              then e == existing.value && nextEntry == old(nextEntry)
                   && entries[e].createdBy == old(entries)[e].createdBy
              else e == old(nextEntry) && nextEntry == e + 1 && entries[e].createdBy == Some(row.userId)
    {
      if existing.Some? {
        e := existing.value;
        entries := entries[e := entries[e].(entryDate := date, details := row.details, updatedBy := Some(row.userId))];
      } else {
        e := nextEntry;
        entries := entries[e := Entry(Some(MORPH_USER_CASH), Some(k), date, row.details,
                                      Some(row.userId), Some(row.userId))];
        nextEntry := nextEntry + 1;
      }
    }

    /** The switch on the row's type: which accounts and owners the two lines get. */
    method PostLines(e: Id, row: Cash, rate: real) returns (d: Id, c: Id)
      modifies this`items, this`nextItem
      ensures d == LineId(old(items), e, Debit, old(nextItem))
      ensures var next := Advance(old(items), e, Debit, old(nextItem));
              var after := old(items)[d := Item(e, DebitLine(chart, row, rate))];
              && c == LineId(after, e, Credit, next) && nextItem == Advance(after, e, Credit, next)
              && items == after[c := Item(e, CreditLine(chart, row, rate))]
    {
      var advance := CashAccountIdForCode(chart, COA_ADVANCE_CASH);
      match row.kind {
        case Income =>
          var account := AccountIdOr(CategoryOf(chart, row), CashAccountIdForCode(chart, COA_MAIN_CASH));
          d := UpsertItem(e, Debit, advance, row.currency, rate, row.amount, Some(OWNER_USER), Some(row.userId));
          c := UpsertItem(e, Credit, account, row.currency, rate, row.amount, None, None);
        case Expense =>
          var account := AccountIdOr(CategoryOf(chart, row), CashAccountIdForCode(chart, COA_DEFAULT_EXPENSE));
          d := UpsertItem(e, Debit, account, row.currency, rate, row.amount, None, None);
          c := UpsertItem(e, Credit, advance, row.currency, rate, row.amount, Some(OWNER_USER), Some(row.userId));
        case Transfer =>
          d := UpsertItem(e, Debit, advance, row.currency, rate, row.amount, Some(OWNER_USER), row.toUserId);
          c := UpsertItem(e, Credit, advance, row.currency, rate, row.amount, Some(OWNER_USER), Some(row.userId));
      }
    }

    /**
     * The hook that follows the save of row k. `before` is the state the transaction started from;
     * only the cash row has been written since.
     */
    method SyncJournalEntry(k: Id, rates: seq<RateRow>, now: Time, ghost before: Books)
      requires Consistent(before, chart)
      requires k in cashes && k < nextCash && before.nextCash <= nextCash
      requires State() == before.(cashes := before.cashes[k := cashes[k]], nextCash := nextCash)
      modifies this`entries, this`items, this`nextEntry, this`nextItem, this`quotes
      ensures Saves(before, State(), chart, k, cashes[k], QuoteFor(cashes[k], rates, now))
    {
      var row := cashes[k];
      ConsistentIsReady(before, chart, k);
      var existing := FirstHeader(entries, k);
      quotes := quotes[k := QuoteFor(row, rates, now)];

      if Skipped(chart, row) {
        RemoveEntry(k, row, existing, before);
      } else {
        PostEntry(k, row, existing, rates, now, before);
      }
    }

    /** Skipped rows: nothing to do without a header. */
    method RemoveEntry(k: Id, row: Cash, existing: Option<Id>, ghost before: Books)
      requires Consistent(before, chart) && ReadyFor(before, chart, k) && Skipped(chart, row)
      requires existing == FirstHeader(entries, k)
      requires before.nextCash <= nextCash && k < nextCash && k in quotes
      requires State() == before.(cashes := before.cashes[k := row], nextCash := nextCash,
                                  quotes := before.quotes[k := quotes[k]])
      modifies this`entries, this`items
      ensures Saves(before, State(), chart, k, row, quotes[k])
    {
      if existing.Some? {
        OneHeader(before, chart, k, existing.value);
        DeleteWithItems(existing.value);
      }
      DeletionSaves(before, State(), chart, k, row, quotes[k], existing);
    }

    /** Second half of the hook: header, rate, lines. */
    method PostEntry(k: Id, row: Cash, existing: Option<Id>, rates: seq<RateRow>, now: Time, ghost before: Books)
      requires Consistent(before, chart) && ReadyFor(before, chart, k) && !Skipped(chart, row)
      requires existing == FirstHeader(entries, k)
      requires before.nextCash <= nextCash && k < nextCash
      requires State() == before.(cashes := before.cashes[k := row], nextCash := nextCash,
                                  quotes := before.quotes[k := QuoteFor(row, rates, now)])
      modifies this`entries, this`items, this`nextEntry, this`nextItem
      ensures Saves(before, State(), chart, k, row, QuoteFor(row, rates, now))
    {
      var date := if row.cashedAt.Some? then row.cashedAt.value else now;
      var e := UpsertHeader(existing, k, row, date);
      var rate := GetExchangeRate(rates, date, BASE_CURRENCY, row.currency);
      var d, c := PostLines(e, row, rate);
      UpsertsSave(before, State(), chart, k, row, quotes[k], e, d, c);
    }

    /** Any creation or overwrite of a cash row, whoever makes it: the row is written, then the hook runs. */
    method Save(k: Id, row: Cash, rates: seq<RateRow>, now: Time)
      requires Consistent(State(), chart)
      requires k in cashes || k == nextCash
      modifies this
      ensures Saves(old(State()), State(), chart, k, row, QuoteFor(row, rates, now))
      ensures EntryTells(State(), chart, k, row, rates, now)
      ensures nextCash == if k in old(cashes) then old(nextCash) else k + 1
    {
      ghost var before := State();
      if k !in cashes { nextCash := k + 1; }
      cashes := cashes[k := row];
      SyncJournalEntry(k, rates, now, before);
      MirrorTells(State(), chart, k, rates, now);
    }

    method WalletStore(user: Id, f: WalletForm, currencies: map<string, real>, rates: seq<RateRow>, now: Time)
      returns (r: StoreResult)
      requires Consistent(State(), chart)
      modifies this
      ensures Consistent(State(), chart)
      ensures WalletStep(old(State()), State(), chart, user)
      ensures r.StoreInvalid? ==> FieldsTell(r.fields, f) && r.fields != {} && State() == old(State())
      ensures r.Created? ==>
                && FieldsTell({}, f) && r.id == old(nextCash) && r.id in cashes && RowTells(cashes[r.id], f)
                && cashes[r.id].attachments == f.attachment
                && InverseRate(cashes[r.id].exchangeRate, f.currency, currencies)
                && EntryTells(State(), chart, r.id, cashes[r.id], rates, now)
      ensures FormErrors(f) == {} ==>
                var row := NewRow(user, f, currencies);
                r == Created(old(nextCash))
                && Stores(old(State()), State(), chart, user, row, QuoteFor(row, rates, now))
    {
      var errs := FormErrors(f);
      NoFieldsMeansAccepted(f);
      if errs != {} { return StoreInvalid(errs); }
      var txn := NewRow(user, f, currencies);
      var k := nextCash;
      NewRowTells(user, f, currencies);
      Save(k, txn, rates, now);
      SaveKeepsConsistent(old(State()), State(), chart, k, txn, QuoteFor(txn, rates, now));
      assert Stores(old(State()), State(), chart, user, txn, QuoteFor(txn, rates, now));
      r := Created(k);
    }

    method WalletUpdate(user: Id, k: Id, f: WalletForm, rates: seq<RateRow>, now: Time) returns (r: UpdateResult)
      requires Consistent(State(), chart)
      modifies this
      ensures Consistent(State(), chart)
      ensures WalletStep(old(State()), State(), chart, user)
      ensures r != Updated ==> State() == old(State())
      ensures r == NotFound <==> k !in old(cashes)
      ensures r == NotOwner <==> k in old(cashes) && old(cashes)[k].userId != user
      ensures (r == NotOwner || r == Locked) <==> k in old(cashes) && !Editable(old(cashes)[k], user)
      ensures r.UpdateInvalid? <==> k in old(cashes) && Editable(old(cashes)[k], user) && FormErrors(f) != {}
      ensures r.UpdateInvalid? ==> FieldsTell(r.fields, f) && r.fields != {}
      ensures r == Updated ==>
                && FieldsTell({}, f) && k in old(cashes) && k in cashes && RowTells(cashes[k], f)
                && KeepsColumns(old(cashes)[k], cashes[k])
                && cashes[k].attachments == (if f.attachment.Some? then f.attachment else old(cashes)[k].attachments)
                && EntryTells(State(), chart, k, cashes[k], rates, now)
      ensures r == Updated ==>
                k in old(cashes) && FormErrors(f) == {} &&
                var row := EditedRow(old(cashes)[k], f);
                Edits(old(State()), State(), chart, user, k, row, QuoteFor(row, rates, now))
    {
      if k !in cashes { return NotFound; }
      var txn := cashes[k];
      if txn.userId != user { return NotOwner; }
      if txn.isFixed || txn.picVerifiedAt.Some? { return Locked; }
      var errs := FormErrors(f);
      NoFieldsMeansAccepted(f);
      if errs != {} { return UpdateInvalid(errs); }
      txn := EditedRow(txn, f);
      Save(k, txn, rates, now);
      SaveKeepsConsistent(old(State()), State(), chart, k, txn, QuoteFor(txn, rates, now));
      assert Edits(old(State()), State(), chart, user, k, txn, QuoteFor(txn, rates, now));
      r := Updated;
    }
  }
}
