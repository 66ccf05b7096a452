/** What the journal guarantees over whole runs: agreement with the rows, trial balance, wallet balances. */
module LedgerTheorems {
  import opened Prelude
  import opened Sums
  import opened GoText
  import opened Finance
  import opened Wallet

  // Runs

  /** Any save of any row by anyone (the wallet handlers, or the back office on the same tables), or none. */
  ghost predicate AnySave(b: Books, b': Books, chart: Chart) {
    b' == b || exists k, row, quote :: Saves(b, b', chart, k, row, quote)
  }

  ghost predicate SaveRun(run: seq<Books>, chart: Chart) {
    run != [] && forall i :: 0 <= i < |run| - 1 ==> AnySave(run[i], run[i + 1], chart)
  }

  /** In every state of every run from consistent (for instance empty) books, the journal mirrors the rows. */
  lemma {:induction false} JournalFollowsRows(run: seq<Books>, chart: Chart, n: nat)
    requires SaveRun(run, chart) && (run[0] == EMPTY_BOOKS || Consistent(run[0], chart)) && n < |run|
    ensures Consistent(run[n], chart)
  {
    if n > 0 {
      JournalFollowsRows(run, chart, n - 1);
      var b, b' := run[n - 1], run[n];
      assert AnySave(b, run[n - 1 + 1], chart);
      if b' != b {
        var k, row, quote :| Saves(b, b', chart, k, row, quote);
        SaveKeepsConsistent(b, b', chart, k, row, quote);
      }
    }
  }

  /** One save of a run: which row, what it became, which rates were quoted then, and when. */
  datatype SaveCall = SaveCall(k: Id, row: Cash, rates: seq<RateRow>, now: Time)

  ghost predicate SavesDone(run: seq<Books>, calls: seq<SaveCall>, chart: Chart) {
    |run| == |calls| + 1
    && forall i :: 0 <= i < |calls| ==> CallDone(run[i], run[i + 1], calls[i], chart)
  }

  ghost predicate CallDone(b: Books, b': Books, s: SaveCall, chart: Chart) {
    Saves(b, b', chart, s.k, s.row, QuoteFor(s.row, s.rates, s.now))
  }

  lemma CallWrites(b: Books, b': Books, s: SaveCall, chart: Chart)
    requires CallDone(b, b', s, chart)
    ensures b'.cashes == b.cashes[s.k := s.row] && b'.quotes == b.quotes[s.k := QuoteFor(s.row, s.rates, s.now)]
  {
  }

  lemma {:induction false} LastSaveStays(run: seq<Books>, calls: seq<SaveCall>, chart: Chart, j: nat, n: nat)
    requires SavesDone(run, calls, chart) && j < n <= |calls|
    requires forall i :: j < i < n ==> calls[i].k != calls[j].k
    ensures var k := calls[j].k;
            && k in run[n].cashes && k in run[n].quotes && run[n].cashes[k] == calls[j].row
            && run[n].quotes[k] == QuoteFor(calls[j].row, calls[j].rates, calls[j].now)
  {
    var s := calls[n - 1];
    if j < n - 1 { LastSaveStays(run, calls, chart, j, n - 1); }
    assert CallDone(run[n - 1], run[n - 1 + 1], s, chart);
    CallWrites(run[n - 1], run[n], s, chart);
  }

  lemma {:induction false} ConsistentThroughout(run: seq<Books>, calls: seq<SaveCall>, chart: Chart, n: nat)
    requires SavesDone(run, calls, chart) && Consistent(run[0], chart) && n <= |calls|
    ensures Consistent(run[n], chart)
  {
    if n > 0 {
      var s := calls[n - 1];
      ConsistentThroughout(run, calls, chart, n - 1);
      assert CallDone(run[n - 1], run[n - 1 + 1], s, chart);
      SaveKeepsConsistent(run[n - 1], run[n], chart, s.k, s.row, QuoteFor(s.row, s.rates, s.now));
    }
  }

  /**
   * Over any run the journal says of each row what the row's last save had to write: its columns, its accounts and
   * the rate quoted then; whatever was saved before or elsewhere since leaves no trace.
   */
  lemma JournalIsOfLastSave(run: seq<Books>, calls: seq<SaveCall>, chart: Chart, j: nat, n: nat)
    requires SavesDone(run, calls, chart) && Consistent(run[0], chart) && j < n <= |calls|
    requires forall i :: j < i < n ==> calls[i].k != calls[j].k
    ensures EntryTells(run[n], chart, calls[j].k, calls[j].row, calls[j].rates, calls[j].now)
  {
    LastSaveStays(run, calls, chart, j, n);
    ConsistentThroughout(run, calls, chart, n);
    assert Mirrors(run[n], chart, calls[j].k);
    MirrorTells(run[n], chart, calls[j].k, calls[j].rates, calls[j].now);
  }

  /** Fixed or PIC-verified: `WalletUpdate` refuses everybody. */
  predicate RowLocked(row: Cash) { row.isFixed || row.picVerifiedAt.Some? }

  ghost predicate SomebodysStep(b: Books, b': Books, chart: Chart) {
    exists user :: WalletStep(b, b', chart, user)
  }

  ghost predicate WalletRun(run: seq<Books>, chart: Chart) {
    run != [] && forall i :: 0 <= i < |run| - 1 ==> SomebodysStep(run[i], run[i + 1], chart)
  }

  lemma HeadersAreSpared(b: Books, b': Books, j: Id, k: Id)
    requires OtherEntries(b', j) == OtherEntries(b, j) && k != j
    ensures EntriesOf(b', k) == EntriesOf(b, k)
  {
    forall e | e in EntriesOf(b, k) ensures e in EntriesOf(b', k) && b'.entries[e] == b.entries[e] {
      assert e in OtherEntries(b, j);
    }
    forall e | e in EntriesOf(b', k) ensures e in EntriesOf(b, k) {
      assert e in OtherEntries(b', j);
    }
  }

  lemma LinesAreSpared(b: Books, b': Books, j: Id, k: Id)
    requires OtherItems(b', j) == OtherItems(b, j) && EntriesOf(b', k) == EntriesOf(b, k) && k != j
    ensures ItemsOf(b', k) == ItemsOf(b, k)
  {
    forall i | i in ItemsOf(b, k) ensures i in ItemsOf(b', k) && b'.items[i] == b.items[i] {
      assert i in OtherItems(b, j) && b.items[i].entryId in EntriesOf(b, k);
    }
    forall i | i in ItemsOf(b', k) ensures i in ItemsOf(b, k) {
      assert i in OtherItems(b', j) && b'.items[i].entryId in EntriesOf(b', k);
    }
  }

  /** Saving another row leaves the header and the lines of row k where they are, as they are. */
  lemma SaveSparesOthers(b: Books, b': Books, chart: Chart, j: Id, row: Cash, quote: Quote, k: Id)
    requires Saves(b, b', chart, j, row, quote) && k != j && Sound(b)
    ensures EntriesOf(b', k) == EntriesOf(b, k)
    ensures ItemsOf(b', k) == ItemsOf(b, k)
  {
    HeadersAreSpared(b, b', j, k);
    LinesAreSpared(b, b', j, k);
  }

  ghost predicate SameRow(b: Books, b': Books, k: Id) {
    && k in b.cashes && k in b.quotes && k in b'.cashes && k in b'.quotes
    && b'.cashes[k] == b.cashes[k] && b'.quotes[k] == b.quotes[k]
    && EntriesOf(b', k) == EntriesOf(b, k) && ItemsOf(b', k) == ItemsOf(b, k)
  }

  lemma SaveElsewhere(b: Books, b': Books, chart: Chart, j: Id, row: Cash, quote: Quote, k: Id)
    requires Saves(b, b', chart, j, row, quote) && Consistent(b, chart) && k != j && k in b.cashes
    ensures Consistent(b', chart) && SameRow(b, b', k)
  {
    SaveKeepsConsistent(b, b', chart, j, row, quote);
    SaveSparesOthers(b, b', chart, j, row, quote, k);
  }

  /** No wallet request of anybody touches a locked row or its journal. */
  lemma StepSparesLocked(b: Books, b': Books, chart: Chart, user: Id, k: Id)
    requires WalletStep(b, b', chart, user) && Consistent(b, chart)
    requires k in b.cashes && RowLocked(b.cashes[k])
    ensures Consistent(b', chart) && SameRow(b, b', k)
  {
    if exists row, quote :: Stores(b, b', chart, user, row, quote) {
      var row, quote :| Stores(b, b', chart, user, row, quote);
      SaveElsewhere(b, b', chart, b.nextCash, row, quote, k);
    } else if exists j, row, quote :: Edits(b, b', chart, user, j, row, quote) {
      var j, row, quote :| Edits(b, b', chart, user, j, row, quote);
      SaveElsewhere(b, b', chart, j, row, quote, k);
    }
  }

  /** Over any run of wallet requests by any users, a locked row and its journal never change. */
  lemma {:induction false} LockedRowsAreFrozen(run: seq<Books>, chart: Chart, k: Id, n: nat)
    requires WalletRun(run, chart) && Consistent(run[0], chart) && n < |run|
    requires k in run[0].cashes && RowLocked(run[0].cashes[k])
    ensures Consistent(run[n], chart) && SameRow(run[0], run[n], k)
  {
    if n > 0 {
      LockedRowsAreFrozen(run, chart, k, n - 1);
      assert SomebodysStep(run[n - 1], run[n - 1 + 1], chart);
      var user :| WalletStep(run[n - 1], run[n], chart, user);
      StepSparesLocked(run[n - 1], run[n], chart, user, k);
    }
  }

  /** Rows the wallet alone created are never skipped: each has its entry in every state. */
  lemma {:induction false} WalletRowsArePosted(run: seq<Books>, chart: Chart, k: Id, n: nat)
    requires WalletRun(run, chart) && run[0] == EMPTY_BOOKS && n < |run| && k in run[n].cashes
    ensures Editable(run[n].cashes[k], run[n].cashes[k].userId) && run[n].cashes[k].relatedId.None?
    ensures Consistent(run[n], chart) && exists e, d, c :: PostedAs(run[n], chart, k, e, d, c)
  {
    WalletRowsStayOpen(run, chart, n);
    assert Mirrors(run[n], chart, k);
  }

  ghost predicate AllOpen(b: Books) {
    forall k :: k in b.cashes ==> Editable(b.cashes[k], b.cashes[k].userId) && b.cashes[k].relatedId.None?
  }

  lemma {:induction false} WalletRowsStayOpen(run: seq<Books>, chart: Chart, n: nat)
    requires WalletRun(run, chart) && run[0] == EMPTY_BOOKS && n < |run|
    ensures Consistent(run[n], chart) && AllOpen(run[n])
  {
    if n > 0 {
      WalletRowsStayOpen(run, chart, n - 1);
      assert SomebodysStep(run[n - 1], run[n - 1 + 1], chart);
      var user :| WalletStep(run[n - 1], run[n], chart, user);
      StepKeepsOpen(run[n - 1], run[n], chart, user);
    }
  }

  lemma OpenRowSaved(b: Books, b': Books, chart: Chart, k: Id, row: Cash, quote: Quote)
    requires Saves(b, b', chart, k, row, quote) && Consistent(b, chart) && AllOpen(b)
    requires Editable(row, row.userId) && row.relatedId.None?
    ensures Consistent(b', chart) && AllOpen(b')
  {
    SaveKeepsConsistent(b, b', chart, k, row, quote);
  }

  lemma StepKeepsOpen(b: Books, b': Books, chart: Chart, user: Id)
    requires WalletStep(b, b', chart, user) && Consistent(b, chart) && AllOpen(b)
    ensures Consistent(b', chart) && AllOpen(b')
  {
    if exists row, quote :: Stores(b, b', chart, user, row, quote) {
      var row, quote :| Stores(b, b', chart, user, row, quote);
      OpenRowSaved(b, b', chart, b.nextCash, row, quote);
    } else if exists j, row, quote :: Edits(b, b', chart, user, j, row, quote) {
      var j, row, quote :| Edits(b, b', chart, user, j, row, quote);
      OpenRowSaved(b, b', chart, j, row, quote);
    }
  }

  ghost predicate SameHeader(b: Books, b': Books, k: Id) {
    && EntriesOf(b', k).Keys == EntriesOf(b, k).Keys && ItemsOf(b', k).Keys == ItemsOf(b, k).Keys
    && forall e :: e in EntriesOf(b, k) ==> e in b'.entries && b'.entries[e].createdBy == b.entries[e].createdBy
  }

  lemma SaveKeepsHeader(b: Books, b': Books, chart: Chart, j: Id, row: Cash, quote: Quote, k: Id)
    requires Saves(b, b', chart, j, row, quote) && Sound(b) && k in b.cashes
    requires !Skipped(chart, b.cashes[k]) && !Skipped(chart, b'.cashes[k])
    ensures SameHeader(b, b', k)
  {
    if k == j {
      assert KeepsIds(b, b', chart, k, row);
    } else {
      SaveSparesOthers(b, b', chart, j, row, quote, k);
      assert forall e :: e in EntriesOf(b, k) ==> EntriesOf(b', k)[e] == EntriesOf(b, k)[e];
    }
  }

  lemma SameHeaderChains(a: Books, b: Books, c: Books, k: Id)
    requires SameHeader(a, b, k) && SameHeader(b, c, k)
    ensures SameHeader(a, c, k)
  {
    assert forall e :: e in EntriesOf(a, k) ==> e in EntriesOf(b, k);
  }

  predicate PostedIn(b: Books, chart: Chart, k: Id) { k in b.cashes && !Skipped(chart, b.cashes[k]) }

  lemma StepKeepsHeader(run: seq<Books>, chart: Chart, k: Id, m: nat)
    requires SaveRun(run, chart) && (run[0] == EMPTY_BOOKS || Consistent(run[0], chart)) && m + 1 < |run|
    requires PostedIn(run[m], chart, k) && PostedIn(run[m + 1], chart, k)
    ensures SameHeader(run[m], run[m + 1], k)
  {
    JournalFollowsRows(run, chart, m);
    assert AnySave(run[m], run[m + 1], chart);
    if run[m + 1] != run[m] {
      var j, row, quote :| Saves(run[m], run[m + 1], chart, j, row, quote);
      SaveKeepsHeader(run[m], run[m + 1], chart, j, row, quote, k);
    }
  }

  /** While a row is not skipped its header keeps id and creator, and its lines their ids, through every edit. */
  lemma {:induction false} HeaderOutlivesEdits(run: seq<Books>, chart: Chart, k: Id, i: nat, n: nat)
    requires SaveRun(run, chart) && (run[0] == EMPTY_BOOKS || Consistent(run[0], chart)) && i <= n < |run|
    requires forall m :: i <= m <= n ==> PostedIn(run[m], chart, k)
    ensures SameHeader(run[i], run[n], k)
    decreases n - i
  {
    if i < n {
      StepKeepsHeader(run, chart, k, i);
      HeaderOutlivesEdits(run, chart, k, i + 1, n);
      SameHeaderChains(run[i], run[i + 1], run[n], k);
    } else {
      SameHeaderItself(run[i], k);
    }
  }

  lemma SameHeaderItself(b: Books, k: Id)
    ensures SameHeader(b, b, k)
  {
  }

  // Totals over journal lines, row by row

  predicate OfCashRow(b: Books, i: Id)
    requires i in b.items
  {
    b.items[i].entryId in b.entries && b.entries[b.items[i].entryId].txType == Some(MORPH_USER_CASH)
  }

  function Weigh(b: Books, m: Line -> real): Id -> real {
    (i: Id) => if i in b.items then m(b.items[i].line) else 0.0
  }

  function CashLines(b: Books): set<Id> { set i | i in b.items && OfCashRow(b, i) }

  /** A measure summed over all lines of cash-row entries, as a report reads the journal. */
  ghost function LedgerTotal(b: Books, m: Line -> real): real { Sum(CashLines(b), Weigh(b, m)) }

  function RowWeight(b: Books, chart: Chart, m: Line -> real): Id -> real {
    (k: Id) =>
      if k in b.cashes && k in b.quotes && !Skipped(chart, b.cashes[k])
      then m(DebitLine(chart, b.cashes[k], b.quotes[k].rate)) + m(CreditLine(chart, b.cashes[k], b.quotes[k].rate))
      else 0.0
  }

  function ItemsOfRows(b: Books, ks: set<Id>): set<Id> {
    set i | i in b.items && OfCashRow(b, i) && b.entries[b.items[i].entryId].txId.Some?
            && b.entries[b.items[i].entryId].txId.value in ks
  }

  lemma OwnLines(b: Books, chart: Chart, k: Id, e: Id, d: Id, c: Id)
    requires k in b.cashes && k in b.quotes && PostedAs(b, chart, k, e, d, c)
    ensures ItemsOfRows(b, {k}) == {d, c} && d != c
  {
    assert b.items[d].line.side == Debit && b.items[c].line.side == Credit;
  }

  lemma RowContribution(b: Books, chart: Chart, m: Line -> real, k: Id)
    requires Consistent(b, chart) && k in b.cashes
    ensures Sum(ItemsOfRows(b, {k}), Weigh(b, m)) == RowWeight(b, chart, m)(k)
  {
    assert Mirrors(b, chart, k);
    if Skipped(chart, b.cashes[k]) {
      assert ItemsOfRows(b, {k}) == {};
    } else {
      var e, d, c :| PostedAs(b, chart, k, e, d, c);
      OwnLines(b, chart, k, e, d, c);
      SumTwoPoints({d, c}, d, c, Weigh(b, m));
    }
  }

  lemma ItemsSplit(b: Books, ks: set<Id>, k: Id)
    requires k in ks
    ensures ItemsOfRows(b, ks) == ItemsOfRows(b, {k}) + ItemsOfRows(b, ks - {k})
    ensures ItemsOfRows(b, {k}) !! ItemsOfRows(b, ks - {k})
  {
  }

  lemma {:induction false} TotalsOfRows(b: Books, chart: Chart, m: Line -> real, ks: set<Id>)
    requires Consistent(b, chart) && ks <= b.cashes.Keys
    ensures Sum(ItemsOfRows(b, ks), Weigh(b, m)) == Sum(ks, RowWeight(b, chart, m))
  {
    if ks == {} {
      assert ItemsOfRows(b, ks) == {};
    } else {
      var k :| k in ks;
      TotalsOfRows(b, chart, m, ks - {k});
      RowContribution(b, chart, m, k);
      SumRemove(ks, k, RowWeight(b, chart, m));
      ItemsSplit(b, ks, k);
      SumUnion(ItemsOfRows(b, {k}), ItemsOfRows(b, ks - {k}), Weigh(b, m));
    }
  }

  /** Every report over the incrementally kept journal is a sum over the present cash rows. */
  lemma LedgerIsRowSum(b: Books, chart: Chart, m: Line -> real)
    requires Consistent(b, chart)
    ensures LedgerTotal(b, m) == Sum(b.cashes.Keys, RowWeight(b, chart, m))
  {
    TotalsOfRows(b, chart, m, b.cashes.Keys);
    assert ItemsOfRows(b, b.cashes.Keys) == CashLines(b);
  }

  /** Two histories that end in the same rows and last quotes give the same report, whatever it measures. */
  lemma HistoryIsForgotten(b1: Books, b2: Books, chart: Chart, m: Line -> real)
    requires Consistent(b1, chart) && Consistent(b2, chart)
    requires b1.cashes == b2.cashes && b1.quotes == b2.quotes
    ensures LedgerTotal(b1, m) == LedgerTotal(b2, m)
  {
    LedgerIsRowSum(b1, chart, m);
    LedgerIsRowSum(b2, chart, m);
    SumCongruent(b1.cashes.Keys, RowWeight(b1, chart, m), RowWeight(b2, chart, m));
  }

  // Trial balance

  function SideIn(side: Side, currency: string): Line -> real {
    (l: Line) => if l.side == side && l.currency == currency then l.amount else 0.0
  }

  function SideInBase(side: Side): Line -> real {
    (l: Line) => if l.side == side then l.amount * l.rate else 0.0
  }

  /** The two lines of one row cancel, in its currency and in the base currency. */
  lemma PairBalances(chart: Chart, row: Cash, rate: real, currency: string)
    ensures var d, c := DebitLine(chart, row, rate), CreditLine(chart, row, rate);
            && SideIn(Debit, currency)(d) + SideIn(Debit, currency)(c)
               == SideIn(Credit, currency)(d) + SideIn(Credit, currency)(c)
            && SideInBase(Debit)(d) + SideInBase(Debit)(c) == SideInBase(Credit)(d) + SideInBase(Credit)(c)
  {
  }

  lemma RowsBalance(b: Books, chart: Chart, currency: string)
    ensures Sum(b.cashes.Keys, RowWeight(b, chart, SideIn(Debit, currency)))
         == Sum(b.cashes.Keys, RowWeight(b, chart, SideIn(Credit, currency)))
    ensures Sum(b.cashes.Keys, RowWeight(b, chart, SideInBase(Debit)))
         == Sum(b.cashes.Keys, RowWeight(b, chart, SideInBase(Credit)))
  {
    forall k | k in b.cashes
      ensures RowWeight(b, chart, SideIn(Debit, currency))(k) == RowWeight(b, chart, SideIn(Credit, currency))(k)
      ensures RowWeight(b, chart, SideInBase(Debit))(k) == RowWeight(b, chart, SideInBase(Credit))(k)
    {
      if k in b.quotes { PairBalances(chart, b.cashes[k], b.quotes[k].rate, currency); }
    }
    SumCongruent(b.cashes.Keys, RowWeight(b, chart, SideIn(Debit, currency)),
                 RowWeight(b, chart, SideIn(Credit, currency)));
    SumCongruent(b.cashes.Keys, RowWeight(b, chart, SideInBase(Debit)), RowWeight(b, chart, SideInBase(Credit)));
  }

  /** Debits equal credits in each currency and in the base currency, in every state of every run. */
  lemma TrialBalance(run: seq<Books>, chart: Chart, n: nat, currency: string)
    requires SaveRun(run, chart) && (run[0] == EMPTY_BOOKS || Consistent(run[0], chart)) && n < |run|
    ensures LedgerTotal(run[n], SideIn(Debit, currency)) == LedgerTotal(run[n], SideIn(Credit, currency))
    ensures LedgerTotal(run[n], SideInBase(Debit)) == LedgerTotal(run[n], SideInBase(Credit))
  {
    JournalFollowsRows(run, chart, n);
    var b := run[n];
    LedgerIsRowSum(b, chart, SideIn(Debit, currency));
    LedgerIsRowSum(b, chart, SideIn(Credit, currency));
    LedgerIsRowSum(b, chart, SideInBase(Debit));
    LedgerIsRowSum(b, chart, SideInBase(Credit));
    RowsBalance(b, chart, currency);
  }

  // The journal against the wallet balance

  /** Lines owned by a user in a currency, debits positive. */
  function OwnedBy(user: Id, currency: string): Line -> real {
    (l: Line) =>
      if l.ownerType == Some(OWNER_USER) && l.ownerId == Some(user) && l.currency == currency
      then (if l.side == Debit then l.amount else -l.amount) else 0.0
  }

  /** The `amount` column restricted to one currency. */
  function AmountIn(currency: string): Cash -> real {
    (row: Cash) => if row.currency == currency then row.amount else 0.0
  }

  /** Sign with which the row's journal lines move the user's account. */
  function LedgerSign(chart: Chart, row: Cash, user: Id): real {
    if Skipped(chart, row) then 0.0
    else match row.kind
      case Income => if row.userId == user then 1.0 else 0.0
      case Expense => if row.userId == user then -1.0 else 0.0
      case Transfer => (if row.toUserId == Some(user) then 1.0 else 0.0) - (if row.userId == user then 1.0 else 0.0)
  }

  /** Rows on which wallet and journal agree for this user. */
  predicate Agreeable(chart: Chart, row: Cash, user: Id) {
    Concerns(row, user) ==>
      && !Skipped(chart, row)
      && (row.kind == Transfer ==> !(row.userId == user && row.toUserId == Some(user)))
      && (row.kind != Transfer ==> row.userId == user)
  }

  /** What the wallet counts and the journal does not: the reconciling items of one row. */
  function Gap(chart: Chart, row: Cash, user: Id): real {
    if Agreeable(chart, row, user) then 0.0
    else if Skipped(chart, row) then BalanceSign(row, user)
    else if row.kind == Expense then -1.0
    else 1.0
  }

  /** What row k adds to a SUM(CASE ...) of this user. */
  function Cell(rows: Table, user: Id, sign: (Cash, Id) -> real, column: Cash -> real, k: Id): real {
    if k in rows && Concerns(rows[k], user) then sign(rows[k], user) * column(rows[k]) else 0.0
  }

  function Signed(rows: Table, user: Id, sign: (Cash, Id) -> real, column: Cash -> real): Id -> real {
    (k: Id) => Cell(rows, user, sign, column, k)
  }

  lemma SumCaseOverAll(rows: Table, user: Id, sign: (Cash, Id) -> real, column: Cash -> real)
    ensures SumCase(rows, user, sign, column) == Sum(rows.Keys, Signed(rows, user, sign, column))
  {
    var mine := set k | k in rows && Concerns(rows[k], user);
    SumCongruent(mine, (k: Id) => if k in rows then sign(rows[k], user) * column(rows[k]) else 0.0,
                 Signed(rows, user, sign, column));
    SumWiden(mine, rows.Keys, Signed(rows, user, sign, column));
  }

  function GapWeight(b: Books, chart: Chart, user: Id, column: Cash -> real): Id -> real {
    (k: Id) => if k in b.cashes then Gap(chart, b.cashes[k], user) * column(b.cashes[k]) else 0.0
  }

  /** One row: its lines for the user move the account by LedgerSign, the wallet by that plus the gap. */
  lemma RowReconciles(chart: Chart, row: Cash, rate: real, user: Id, currency: string)
    ensures var d, c := DebitLine(chart, row, rate), CreditLine(chart, row, rate);
            !Skipped(chart, row) ==>
              OwnedBy(user, currency)(d) + OwnedBy(user, currency)(c)
              == LedgerSign(chart, row, user) * AmountIn(currency)(row)
    ensures (if Concerns(row, user) then BalanceSign(row, user) else 0.0)
         == LedgerSign(chart, row, user) + Gap(chart, row, user)
  {
  }

  lemma RowsReconcile(b: Books, chart: Chart, user: Id, currency: string, k: Id)
    requires k in b.cashes && k in b.quotes
    ensures Signed(b.cashes, user, BalanceSign, AmountIn(currency))(k)
         == RowWeight(b, chart, OwnedBy(user, currency))(k) + GapWeight(b, chart, user, AmountIn(currency))(k)
  {
    var row, amount := b.cashes[k], AmountIn(currency)(b.cashes[k]);
    var total := if Concerns(row, user) then BalanceSign(row, user) else 0.0;
    var ledger, gap := LedgerSign(chart, row, user), Gap(chart, row, user);
    RowReconciles(chart, row, b.quotes[k].rate, user, currency);
    assert total * amount == ledger * amount + gap * amount by { assert total == ledger + gap; }
    assert RowWeight(b, chart, OwnedBy(user, currency))(k) == ledger * amount;
  }

  /** Exact reconciliation in every consistent state: wallet = journal + reconciling items. */
  lemma WalletReconciles(b: Books, chart: Chart, user: Id, currency: string)
    requires Consistent(b, chart)
    ensures Balance(b.cashes, user, AmountIn(currency))
         == LedgerTotal(b, OwnedBy(user, currency)) + Sum(b.cashes.Keys, GapWeight(b, chart, user, AmountIn(currency)))
  {
    LedgerIsRowSum(b, chart, OwnedBy(user, currency));
    SumCaseOverAll(b.cashes, user, BalanceSign, AmountIn(currency));
    forall k | k in b.cashes
      ensures Signed(b.cashes, user, BalanceSign, AmountIn(currency))(k)
           == RowWeight(b, chart, OwnedBy(user, currency))(k) + GapWeight(b, chart, user, AmountIn(currency))(k)
    {
      RowsReconcile(b, chart, user, currency, k);
    }
    SumPlus(b.cashes.Keys, RowWeight(b, chart, OwnedBy(user, currency)), GapWeight(b, chart, user, AmountIn(currency)),
            Signed(b.cashes, user, BalanceSign, AmountIn(currency)));
  }

  /** Without skipped rows, self-transfers and recipients on income or expense, the journal is the wallet. */
  lemma JournalAgreesWithWallet(run: seq<Books>, chart: Chart, n: nat, user: Id, currency: string)
    requires SaveRun(run, chart) && (run[0] == EMPTY_BOOKS || Consistent(run[0], chart)) && n < |run|
    requires forall k :: k in run[n].cashes ==> Agreeable(chart, run[n].cashes[k], user)
    ensures Balance(run[n].cashes, user, AmountIn(currency)) == LedgerTotal(run[n], OwnedBy(user, currency))
  {
    JournalFollowsRows(run, chart, n);
    WalletReconciles(run[n], chart, user, currency);
    SumZero(run[n].cashes.Keys, GapWeight(run[n], chart, user, AmountIn(currency)));
  }

  /** The same rows with other amounts. */
  function Repriced(rows: Table, amounts: map<Id, real>): Table {
    map k | k in rows :: if k in amounts then rows[k].(amount := amounts[k]) else rows[k]
  }

  ghost predicate Agrees(b: Books, user: Id, currency: string) {
    Balance(b.cashes, user, AmountIn(currency)) == LedgerTotal(b, OwnedBy(user, currency))
  }

  /** Whatever amounts these rows carry, in whatever journal mirrors them, wallet and journal agree. */
  ghost predicate AgreesAtAllAmounts(b: Books, chart: Chart, user: Id) {
    forall amounts: map<Id, real>, currency: string, b2: Books ::
      Consistent(b2, chart) && b2.cashes == Repriced(b.cashes, amounts) ==> Agrees(b2, user, currency)
  }

  function RepricedItems(b: Books, rows: Table): map<Id, Item>
    requires Sound(b) && rows.Keys == b.cashes.Keys
  {
    map i | i in b.items ::
      if OfCashRow(b, i)
      then b.items[i].(line := b.items[i].line.(amount := rows[b.entries[b.items[i].entryId].txId.value].amount))
      else b.items[i]
  }

  lemma RepricedMirrors(b: Books, b2: Books, chart: Chart, amounts: map<Id, real>, k: Id)
    requires Sound(b) && k in b.cashes && Mirrors(b, chart, k)
    requires b2 == b.(cashes := Repriced(b.cashes, amounts), items := RepricedItems(b, Repriced(b.cashes, amounts)))
    ensures Mirrors(b2, chart, k)
  {
    if !Skipped(chart, b.cashes[k]) {
      var e, d, c :| PostedAs(b, chart, k, e, d, c);
      assert PostedAs(b2, chart, k, e, d, c);
    }
  }

  lemma RepricedBooks(b: Books, chart: Chart, amounts: map<Id, real>) returns (b2: Books)
    requires Consistent(b, chart)
    ensures Consistent(b2, chart) && b2.cashes == Repriced(b.cashes, amounts)
  {
    var rows := Repriced(b.cashes, amounts);
    b2 := b.(cashes := rows, items := RepricedItems(b, rows));
    forall k | k in b2.cashes ensures Mirrors(b2, chart, k) { RepricedMirrors(b, b2, chart, amounts, k); }
  }

  /** Gaps depend on the shape of a row only, not on its amount. */
  lemma NoGaps(b: Books, b2: Books, chart: Chart, user: Id, amounts: map<Id, real>, currency: string)
    requires forall k :: k in b.cashes ==> Agreeable(chart, b.cashes[k], user)
    requires b2.cashes == Repriced(b.cashes, amounts)
    ensures Sum(b2.cashes.Keys, GapWeight(b2, chart, user, AmountIn(currency))) == 0.0
  {
    var gap := GapWeight(b2, chart, user, AmountIn(currency));
    forall k | k in b2.cashes ensures gap(k) == 0.0 {
      assert Agreeable(chart, b2.cashes[k], user) == Agreeable(chart, b.cashes[k], user);
    }
    SumZero(b2.cashes.Keys, gap);
  }

  lemma AgreeableAgrees(b: Books, b2: Books, chart: Chart, user: Id, amounts: map<Id, real>, currency: string)
    requires forall k :: k in b.cashes ==> Agreeable(chart, b.cashes[k], user)
    requires Consistent(b2, chart) && b2.cashes == Repriced(b.cashes, amounts)
    ensures Agrees(b2, user, currency)
  {
    NoGaps(b, b2, chart, user, amounts, currency);
    WalletReconciles(b2, chart, user, currency);
  }

  lemma IndicatorGap(b: Books, b2: Books, chart: Chart, user: Id, k: Id, amounts: map<Id, real>)
    requires k in b.cashes && !Agreeable(chart, b.cashes[k], user)
    requires amounts == map j | j in b.cashes :: if j == k then 1.0 else 0.0
    requires b2.cashes == Repriced(b.cashes, amounts)
    ensures var gap := GapWeight(b2, chart, user, AmountIn(b.cashes[k].currency));
            gap(k) != 0.0 && forall j :: j in b2.cashes && j != k ==> gap(j) == 0.0
  {
    var column := AmountIn(b.cashes[k].currency);
    forall j | j in b2.cashes && j != k ensures Gap(chart, b2.cashes[j], user) * column(b2.cashes[j]) == 0.0 {
      assert column(b2.cashes[j]) == 0.0;
    }
    assert column(b2.cashes[k]) == 1.0;
    assert Gap(chart, b2.cashes[k], user) == Gap(chart, b.cashes[k], user);
  }

  lemma IndicatorSum(b: Books, b2: Books, chart: Chart, user: Id, k: Id, amounts: map<Id, real>)
    requires k in b.cashes && !Agreeable(chart, b.cashes[k], user)
    requires amounts == map j | j in b.cashes :: if j == k then 1.0 else 0.0
    requires b2.cashes == Repriced(b.cashes, amounts)
    ensures Sum(b2.cashes.Keys, GapWeight(b2, chart, user, AmountIn(b.cashes[k].currency))) != 0.0
  {
    IndicatorGap(b, b2, chart, user, k, amounts);
    SumTwoPoints(b2.cashes.Keys, k, k, GapWeight(b2, chart, user, AmountIn(b.cashes[k].currency)));
  }

  lemma IndicatorDisagrees(b: Books, b2: Books, chart: Chart, user: Id, k: Id, amounts: map<Id, real>)
    requires k in b.cashes && !Agreeable(chart, b.cashes[k], user)
    requires amounts == map j | j in b.cashes :: if j == k then 1.0 else 0.0
    requires Consistent(b2, chart) && b2.cashes == Repriced(b.cashes, amounts)
    ensures !Agrees(b2, user, b.cashes[k].currency)
  {
    IndicatorSum(b, b2, chart, user, k, amounts);
    WalletReconciles(b2, chart, user, b.cashes[k].currency);
  }

  /** Give a row that is not agreeable the amount 1 and all others 0: wallet and journal differ. */
  lemma OneBadRow(b: Books, chart: Chart, user: Id, k: Id)
    requires Consistent(b, chart) && k in b.cashes && !Agreeable(chart, b.cashes[k], user)
    ensures !AgreesAtAllAmounts(b, chart, user)
  {
    var amounts := map j | j in b.cashes :: if j == k then 1.0 else 0.0;
    var b2 := RepricedBooks(b, chart, amounts);
    IndicatorDisagrees(b, b2, chart, user, k, amounts);
  }

  /** Exactly when wallet and journal must agree: every row of the user is agreeable. */
  lemma WalletAgreementExactly(b: Books, chart: Chart, user: Id)
    requires Consistent(b, chart)
    ensures AgreesAtAllAmounts(b, chart, user) <==> forall k :: k in b.cashes ==> Agreeable(chart, b.cashes[k], user)
  {
    if forall k :: k in b.cashes ==> Agreeable(chart, b.cashes[k], user) {
      forall amounts: map<Id, real>, currency: string, b2: Books
        | Consistent(b2, chart) && b2.cashes == Repriced(b.cashes, amounts)
        ensures Agrees(b2, user, currency)
      {
        AgreeableAgrees(b, b2, chart, user, amounts, currency);
      }
    } else {
      var k :| k in b.cashes && !Agreeable(chart, b.cashes[k], user);
      OneBadRow(b, chart, user, k);
    }
  }

  // The balance query on its own

  function SelfTransferSign(row: Cash, user: Id): real {
    if row.kind == Transfer && row.userId == user && row.toUserId == Some(user) then 1.0 else 0.0
  }

  /** balance = total_in - total_out + the user's transfers to themselves. */
  lemma BalanceEquation(rows: Table, user: Id, column: Cash -> real)
    ensures Balance(rows, user, column)
         == TotalIn(rows, user, column) - TotalOut(rows, user, column) + SumCase(rows, user, SelfTransferSign, column)
  {
    SumCaseOverAll(rows, user, BalanceSign, column);
    SumCaseOverAll(rows, user, InSign, column);
    SumCaseOverAll(rows, user, OutSign, column);
    SumCaseOverAll(rows, user, SelfTransferSign, column);
    var inAndSelf := (k: Id) => Signed(rows, user, InSign, column)(k) + Signed(rows, user, SelfTransferSign, column)(k);
    SumPlus(rows.Keys, Signed(rows, user, InSign, column), Signed(rows, user, SelfTransferSign, column), inAndSelf);
    SumPlus(rows.Keys, Signed(rows, user, BalanceSign, column), Signed(rows, user, OutSign, column), inAndSelf);
  }

  /** All parties of all rows are among these users. */
  ghost predicate Covers(users: set<Id>, rows: Table) {
    forall k :: k in rows ==> rows[k].userId in users && (rows[k].toUserId.Some? ==> rows[k].toUserId.value in users)
  }

  /** How many times a row's amount counts in the sum of everybody's balances. */
  function NetSign(row: Cash): real {
    var other := row.toUserId.Some? && row.toUserId.value != row.userId;
    match row.kind
    case Income => if other then 2.0 else 1.0
    case Expense => if other then -2.0 else -1.0
    case Transfer => if other then 0.0 else if row.toUserId.None? then -1.0 else 1.0
  }

  function Net(rows: Table, sign: Cash -> real, column: Cash -> real): Id -> real {
    (k: Id) => if k in rows then sign(rows[k]) * column(rows[k]) else 0.0
  }

  lemma RowNet(users: set<Id>, rows: Table, k: Id, column: Cash -> real)
    requires Covers(users, rows) && k in rows
    ensures Sum(users, (u: Id) => Cell(rows, u, BalanceSign, column, k)) == Net(rows, NetSign, column)(k)
  {
    var row := rows[k];
    var other := if row.toUserId.Some? then row.toUserId.value else row.userId;
    var f := (u: Id) => Cell(rows, u, BalanceSign, column, k);
    SumTwoPoints(users, row.userId, other, f);
    SignsAddUp(row, other, column(row));
  }

  lemma SignsAddUp(row: Cash, other: Id, amount: real)
    requires other == if row.toUserId.Some? then row.toUserId.value else row.userId
    ensures NetSign(row) * amount
         == BalanceSign(row, row.userId) * amount +
             if other == row.userId then 0.0 else BalanceSign(row, other) * amount
  {
    assert NetSign(row) == BalanceSign(row, row.userId) + if other == row.userId then 0.0 else BalanceSign(row, other);
  }

  ghost function SumOfBalances(users: set<Id>, rows: Table, column: Cash -> real): real {
    Sum(users, (u: Id) => Balance(rows, u, column))
  }

  /** The exact sum of all users' balances for any cash table. */
  lemma SumOfBalancesExactly(users: set<Id>, rows: Table, column: Cash -> real)
    requires Covers(users, rows)
    ensures SumOfBalances(users, rows, column) == Sum(rows.Keys, Net(rows, NetSign, column))
  {
    var cell := (u: Id, k: Id) => Cell(rows, u, BalanceSign, column, k);
    forall u | u in users ensures Balance(rows, u, column) == Sum(rows.Keys, (k: Id) => cell(u, k)) {
      SumCaseOverAll(rows, u, BalanceSign, column);
      SumCongruent(rows.Keys, Signed(rows, u, BalanceSign, column), (k: Id) => cell(u, k));
    }
    SumCongruent(users, (u: Id) => Balance(rows, u, column), (u: Id) => Sum(rows.Keys, (k: Id) => cell(u, k)));
    SumSwap(users, rows.Keys, cell);
    forall k | k in rows ensures Sum(users, (u: Id) => cell(u, k)) == Net(rows, NetSign, column)(k) {
      RowNet(users, rows, k, column);
      SumCongruent(users, (u: Id) => cell(u, k), (u: Id) => Cell(rows, u, BalanceSign, column, k));
    }
    SumCongruent(rows.Keys, (k: Id) => Sum(users, (u: Id) => cell(u, k)), Net(rows, NetSign, column));
  }

  /** Transfers only move money: the recipient is somebody else, and other rows name no recipient. */
  predicate Closed(row: Cash) {
    if row.kind == Transfer then row.toUserId.Some? && row.toUserId.value != row.userId else row.toUserId.None?
  }

  function ExternalSign(row: Cash): real {
    match row.kind case Income => 1.0 case Expense => -1.0 case Transfer => 0.0
  }

  /** Conservation: the balances of all users add up to total income minus total expense. */
  lemma BalancesConserved(users: set<Id>, rows: Table, column: Cash -> real)
    requires Covers(users, rows) && forall k :: k in rows ==> Closed(rows[k])
    ensures SumOfBalances(users, rows, column) == Sum(rows.Keys, Net(rows, ExternalSign, column))
  {
    SumOfBalancesExactly(users, rows, column);
    SumCongruent(rows.Keys, Net(rows, NetSign, column), Net(rows, ExternalSign, column));
  }

  // What one request does to a balance

  /** What a row counts in a user's balance. */
  function Counts(row: Cash, user: Id): real {
    if Concerns(row, user) then BalanceSign(row, user) * row.amount else 0.0
  }

  function Amount(): Cash -> real { (row: Cash) => row.amount }

  /** The other rows count as before. */
  lemma CellsElsewhere(rows: Table, k: Id, row: Cash, user: Id, y: Id)
    requires y in rows && y != k
    ensures Cell(rows[k := row], user, BalanceSign, Amount(), y) == Cell(rows, user, BalanceSign, Amount(), y)
  {
    assert rows[k := row][y] == rows[y];
  }

  lemma CellIsCounts(rows: Table, k: Id, user: Id)
    requires k in rows
    ensures Cell(rows, user, BalanceSign, Amount(), k) == Counts(rows[k], user)
  {
  }

  /** Saving a row replaces what the old one counted by what the new one counts. */
  lemma SaveMovesBalance(rows: Table, k: Id, row: Cash, user: Id)
    ensures Balance(rows[k := row], user, Amount())
         == Balance(rows, user, Amount()) - (if k in rows then Counts(rows[k], user) else 0.0) + Counts(row, user)
  {
    var rows' := rows[k := row];
    var cell, cell' := Signed(rows, user, BalanceSign, Amount()), Signed(rows', user, BalanceSign, Amount());
    SumCaseOverAll(rows, user, BalanceSign, Amount());
    SumCaseOverAll(rows', user, BalanceSign, Amount());
    forall y | y in rows.Keys && y != k ensures cell(y) == cell'(y) { CellsElsewhere(rows, k, row, user, y); }
    SumUpdate(rows.Keys, k, cell, cell');
    assert rows'.Keys == rows.Keys + {k};
    CellIsCounts(rows', k, user);
    if k in rows { CellIsCounts(rows, k, user); }
  }

  /** How an accepted request counts for somebody, read off its text. */
  function TextSign(f: WalletForm, owner: Id, user: Id): real {
    var names := ParseUint(f.toUserId) == Some(user);
    if owner != user && !names then 0.0
    else if f.kind == "income" then 1.0
    else if f.kind == "expense" then -1.0
    else if names then 1.0
    else -1.0
  }

  /** A row that holds what the request's text says moves everybody's balance as that text says. */
  lemma RequestMovesBalance(rows: Table, k: Id, row: Cash, f: WalletForm, user: Id)
    requires FieldsTell({}, f) && RowTells(row, f)
    ensures Balance(rows[k := row], user, Amount())
         == Balance(rows, user, Amount()) - (if k in rows then Counts(rows[k], user) else 0.0)
            + TextSign(f, row.userId, user) * f.amountValue
  {
    SaveMovesBalance(rows, k, row, user);
    assert Counts(row, user) == TextSign(f, row.userId, user) * f.amountValue;
  }

  /** An accepted edit: out goes what the row counted, in comes what the form says. */
  lemma UpdateMovesBalance(rows: Table, k: Id, f: WalletForm, user: Id)
    requires k in rows && FormErrors(f) == {}
    ensures Balance(rows[k := EditedRow(rows[k], f)], user, Amount())
         == Balance(rows, user, Amount()) - Counts(rows[k], user) + TextSign(f, rows[k].userId, user) * f.amountValue
  {
    NoFieldsMeansAccepted(f);
    RequestMovesBalance(rows, k, EditedRow(rows[k], f), f, user);
  }

  /** An accepted new transaction of somebody. */
  lemma StoreMovesBalance(rows: Table, k: Id, owner: Id, f: WalletForm, currencies: map<string, real>, user: Id)
    requires k !in rows && FormErrors(f) == {}
    ensures Balance(rows[k := NewRow(owner, f, currencies)], user, Amount())
         == Balance(rows, user, Amount()) + TextSign(f, owner, user) * f.amountValue
  {
    NoFieldsMeansAccepted(f);
    RequestMovesBalance(rows, k, NewRow(owner, f, currencies), f, user);
  }

  // Request forms that the validation lets through and that part the wallet from the journal

  /** A valid transfer of 10 to oneself: the balance rises by 10, the journal lines cancel. */
  lemma SelfTransferParts(user: Id, chart: Chart)
    requires user < UINT64_LIMIT
    ensures var f := WalletForm("transfer", "10", 10.0, "SAR", "x", "2024-01-01", None, "", "", FormatUint(user), None);
            FormErrors(f) == {} &&
            var row := NewRow(user, f, map[]);
            BalanceSign(row, user) == 1.0 && LedgerSign(chart, row, user) == 0.0
            && !Agreeable(chart, row, user)
  {
    FormatUintDigits(user);
    ParseFormatUint(user);
  }

  /** A valid income of 10 that names a recipient raises the recipient's balance without a journal line of theirs. */
  lemma RecipientOnIncomeParts(user: Id, other: Id, chart: Chart)
    requires other < UINT64_LIMIT && other != user
    ensures var f := WalletForm("income", "10", 10.0, "SAR", "x", "2024-01-01", None, "", "1", FormatUint(other), None);
            FormErrors(f) == {} &&
            var row := NewRow(user, f, map[]);
            BalanceSign(row, other) == 1.0 && Concerns(row, other) && LedgerSign(chart, row, other) == 0.0
            && !Agreeable(chart, row, other) && !Closed(row)
  {
    ParseFormatUint(other);
  }

  /** An edit skips an open row exactly when the row is tied to a record and the new category is a vendor payment. */
  lemma EditSkipsExactly(row: Cash, f: WalletForm, chart: Chart)
    requires FormErrors(f) == {} && !row.isFixed
    ensures var category := ParseUint(f.categoryId);
            Skipped(chart, EditedRow(row, f)) <==>
              row.relatedId.Some? && category.Some? && category.value in chart.categories
              && chart.categories[category.value].group == Some(VENDOR_PAYMENT)
  {
  }

  /** Such an edit of one's own open row removes its entry, while the wallet goes on counting the amount. */
  lemma SkippingEditParts(b: Books, b': Books, chart: Chart, user: Id, k: Id, f: WalletForm, quote: Quote)
    requires k in b.cashes && FormErrors(f) == {}
    requires Edits(b, b', chart, user, k, EditedRow(b.cashes[k], f), quote)
    requires Skipped(chart, EditedRow(b.cashes[k], f))
    ensures k in b'.cashes && NoHeader(b'.entries, k)
    ensures Concerns(b'.cashes[k], user) && BalanceSign(b'.cashes[k], user) != 0.0
            && b'.cashes[k].amount == f.amountValue
    ensures !Agreeable(chart, b'.cashes[k], user)
  {
  }

  /** The validation accepts it: an expense of 10 in a vendor-payment category, for a row tied to a record. */
  lemma SkippingEditIsAccepted(row: Cash, user: Id)
    requires Editable(row, user) && row.relatedId.Some?
    ensures var chart := Chart(map[1 := Category(None, Some(VENDOR_PAYMENT))], map[]);
            var f := WalletForm("expense", "10", 10.0, "SAR", "x", "2024-01-01", None, "", FormatUint(1), "", None);
            FormErrors(f) == {} && Skipped(chart, EditedRow(row, f))
  {
    FormatUintDigits(1);
    ParseFormatUint(1);
  }
}
