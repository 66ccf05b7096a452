/**
 * The cash table, the chart of accounts and the journal tables of the wallet, with the pure
 * questions asked of them: which lines a cash row stands for, what a wallet balance is.
 */
module Finance {
  import opened Prelude
  import opened Sums
  import opened GoText

  /** Seconds since the epoch; rates are keyed by calendar day. */
  type Time = int

  const DAY: int := 86400

  function DayOf(t: Time): int { t / DAY }

  const COA_MAIN_CASH := "1.101.001"
  const COA_ADVANCE_CASH := "1.101.003"
  const COA_DEFAULT_EXPENSE := "6.000.009"
  const BASE_CURRENCY := "IDR"
  const MORPH_USER_CASH := "user_cash"
  const OWNER_USER := "user"
  const VENDOR_PAYMENT := "vendor-payment"

  /** `user_cashes.type`: "d" income, "c" expense, "t" transfer. */
  datatype CashType = Income | Expense | Transfer

  /** `journal_entry_items.type`: "d" or "c". */
  datatype Side = Debit | Credit

  datatype Cash = Cash(
    userId: Id, groupId: Option<Id>, categoryId: Option<Id>, toUserId: Option<Id>,
    cashedAt: Option<Time>, kind: CashType, amount: real, currency: string,
    exchangeRate: Option<real>, details: Option<string>, attachments: Option<string>,
    isFixed: bool, picVerifiedAt: Option<Time>, relatedId: Option<Id>)

  datatype Entry = Entry(
    txType: Option<string>, txId: Option<Id>, entryDate: Time, details: Option<string>,
    createdBy: Option<Id>, updatedBy: Option<Id>)

  /** A journal line without the header it hangs on. */
  datatype Line = Line(
    side: Side, account: Option<Id>, currency: string, rate: real, amount: real,
    ownerType: Option<string>, ownerId: Option<Id>)

  datatype Item = Item(entryId: Id, line: Line)

  datatype Category = Category(accountId: Option<Id>, group: Option<string>)

  /** What Laravel owns and a run leaves alone: categories and account codes. */
  datatype Chart = Chart(categories: map<Id, Category>, accounts: map<string, Id>)

  datatype RateRow = RateRow(day: int, base: string, currency: string, rate: real)

  function CashAccountIdForCode(chart: Chart, code: string): Option<Id> {
    if code in chart.accounts && chart.accounts[code] != 0 then Some(chart.accounts[code]) else None
  }

  function CategoryOf(chart: Chart, row: Cash): Option<Category> {
    if row.categoryId.Some? && row.categoryId.value in chart.categories
    then Some(chart.categories[row.categoryId.value]) else None
  }

  function AccountIdOr(c: Option<Category>, fallback: Option<Id>): Option<Id> {
    if c.Some? && c.value.accountId.Some? then c.value.accountId else fallback
  }

  // Exchange rates

  predicate RateApplies(r: RateRow, at: Time, base: string, to: string) {
    r.base == base && r.currency == to && DayOf(at) - 7 <= r.day <= DayOf(at)
  }

  /** Among the rows that apply, one with the greatest day. */
  function LatestRate(rates: seq<RateRow>, at: Time, base: string, to: string): (r: Option<RateRow>)
    ensures r.None? <==> forall x :: x in rates ==> !RateApplies(x, at, base, to)
    ensures r.Some? ==> r.value in rates && RateApplies(r.value, at, base, to)
                        && forall x :: x in rates && RateApplies(x, at, base, to) ==> x.day <= r.value.day
  {
    if rates == [] then None
    else
      var rest := LatestRate(rates[1..], at, base, to);
      assert forall x :: x in rates <==> x == rates[0] || x in rates[1..];
      if RateApplies(rates[0], at, base, to) && (rest.None? || rest.value.day <= rates[0].day)
      then Some(rates[0]) else rest
  }

  function DefaultRate(to: string): real {
    if to == "USD" then 16000.0 else if to == "SAR" then 4300.0 else 1.0
  }

  function GetExchangeRate(rates: seq<RateRow>, at: Time, base: string, to: string): real {
    if base == to then 1.0
    else
      var latest := LatestRate(rates, at, base, to);
      if latest.Some? then latest.value.rate else DefaultRate(to)
  }

  // What a cash row stands for in the journal

  /** Rows that keep no journal entry: fixed ones, and vendor payments tied to another record. */
  predicate Skipped(chart: Chart, row: Cash) {
    var category := CategoryOf(chart, row);
    row.isFixed || (category.Some? && category.value.group == Some(VENDOR_PAYMENT) && row.relatedId.Some?)
  }

  function UserLine(chart: Chart, row: Cash, side: Side, owner: Option<Id>, rate: real): Line {
    Line(side, CashAccountIdForCode(chart, COA_ADVANCE_CASH), row.currency, rate, row.amount, Some(OWNER_USER), owner)
  }

  function CounterLine(chart: Chart, row: Cash, side: Side, code: string, rate: real): Line {
    Line(side, AccountIdOr(CategoryOf(chart, row), CashAccountIdForCode(chart, code)),
         row.currency, rate, row.amount, None, None)
  }

  function DebitLine(chart: Chart, row: Cash, rate: real): Line {
    match row.kind
    case Income => UserLine(chart, row, Debit, Some(row.userId), rate)
    case Expense => CounterLine(chart, row, Debit, COA_DEFAULT_EXPENSE, rate)
    case Transfer => UserLine(chart, row, Debit, row.toUserId, rate)
  }

  function CreditLine(chart: Chart, row: Cash, rate: real): Line {
    match row.kind
    case Income => CounterLine(chart, row, Credit, COA_MAIN_CASH, rate)
    case Expense => UserLine(chart, row, Credit, Some(row.userId), rate)
    case Transfer => UserLine(chart, row, Credit, Some(row.userId), rate)
  }

  // The wallet balance query

  predicate Concerns(row: Cash, user: Id) { row.userId == user || row.toUserId == Some(user) }

  /** The CASE of the `balance` column as a sign. */
  function BalanceSign(row: Cash, user: Id): real {
    if row.kind == Income then 1.0
    else if row.kind == Expense then -1.0
    else if row.toUserId == Some(user) then 1.0
    else if row.userId == user then -1.0
    else 0.0
  }

  function InSign(row: Cash, user: Id): real {
    if row.kind == Income || (row.kind == Transfer && row.toUserId == Some(user)) then 1.0 else 0.0
  }

  function OutSign(row: Cash, user: Id): real {
    if row.kind == Expense || (row.kind == Transfer && row.userId == user) then 1.0 else 0.0
  }

  type Table = map<Id, Cash>

  /** A signed amount column summed over the rows that concern the user. */
  ghost function SumCase(rows: Table, user: Id, sign: (Cash, Id) -> real, column: Cash -> real): real {
    Sum(set k | k in rows && Concerns(rows[k], user),
        (k: Id) => if k in rows then sign(rows[k], user) * column(rows[k]) else 0.0)
  }

  ghost function Balance(rows: Table, user: Id, column: Cash -> real): real { SumCase(rows, user, BalanceSign, column) }

  ghost function TotalIn(rows: Table, user: Id, column: Cash -> real): real { SumCase(rows, user, InSign, column) }

  ghost function TotalOut(rows: Table, user: Id, column: Cash -> real): real { SumCase(rows, user, OutSign, column) }

  // The books: cash table and journal as one value

  /** `quotes` remembers, for each cash row, the date and the rate its last save looked up. */
  datatype Quote = Quote(date: Time, rate: real)

  datatype Books = Books(
    cashes: Table, entries: map<Id, Entry>, items: map<Id, Item>,
    nextCash: Id, nextEntry: Id, nextItem: Id, quotes: map<Id, Quote>)

  const EMPTY_BOOKS := Books(map[], map[], map[], 1, 1, 1, map[])

  predicate IsFor(e: Entry, k: Id) { e.txType == Some(MORPH_USER_CASH) && e.txId == Some(k) }

  predicate HeaderMatches(e: Entry, k: Id, row: Cash, quote: Quote) {
    IsFor(e, k) && e.entryDate == quote.date && e.details == row.details && e.updatedBy == Some(row.userId)
  }

  /** Row k has the one header e, and e has exactly the debit line d and the credit line c of its row. */
  ghost predicate PostedAs(b: Books, chart: Chart, k: Id, e: Id, d: Id, c: Id)
    requires k in b.cashes && k in b.quotes
  {
    var row, rate := b.cashes[k], b.quotes[k].rate;
    && e in b.entries && HeaderMatches(b.entries[e], k, row, b.quotes[k])
    && (forall x :: x in b.entries && IsFor(b.entries[x], k) ==> x == e)
    && d in b.items && b.items[d] == Item(e, DebitLine(chart, row, rate))
    && c in b.items && b.items[c] == Item(e, CreditLine(chart, row, rate))
    && (forall i :: i in b.items && b.items[i].entryId == e ==> i == d || i == c)
  }

  predicate NoHeader(entries: map<Id, Entry>, k: Id) { forall x :: x in entries ==> !IsFor(entries[x], k) }

  ghost predicate Mirrors(b: Books, chart: Chart, k: Id)
    requires k in b.cashes && k in b.quotes
  {
    if Skipped(chart, b.cashes[k]) then NoHeader(b.entries, k)
    else exists e, d, c :: PostedAs(b, chart, k, e, d, c)
  }

  /** Ids in use lie below the auto-increment counters and no journal row dangles. */
  ghost predicate Sound(b: Books) {
    && b.quotes.Keys == b.cashes.Keys
    && (forall k :: k in b.cashes ==> k < b.nextCash)
    && (forall e :: e in b.entries ==> e < b.nextEntry)
    && (forall i :: i in b.items ==> i < b.nextItem)
    && (forall i :: i in b.items ==> b.items[i].entryId in b.entries)
    && (forall e :: e in b.entries && b.entries[e].txType == Some(MORPH_USER_CASH)
                    ==> b.entries[e].txId.Some? && b.entries[e].txId.value in b.cashes)
  }

  /** The journal says what the cash table says, row by row. */
  ghost predicate Consistent(b: Books, chart: Chart) {
    Sound(b) && forall k :: k in b.cashes ==> Mirrors(b, chart, k)
  }

  predicate Owns(b: Books, k: Id, i: Id)
    requires i in b.items
  {
    var e := b.items[i].entryId;
    e in b.entries && IsFor(b.entries[e], k)
  }

  function EntriesOf(b: Books, k: Id): map<Id, Entry> {
    map e | e in b.entries && IsFor(b.entries[e], k) :: b.entries[e]
  }

  function ItemsOf(b: Books, k: Id): map<Id, Item> {
    map i | i in b.items && Owns(b, k, i) :: b.items[i]
  }

  function OtherEntries(b: Books, k: Id): map<Id, Entry> {
    map e | e in b.entries && !IsFor(b.entries[e], k) :: b.entries[e]
  }

  function OtherItems(b: Books, k: Id): map<Id, Item> {
    map i | i in b.items && !Owns(b, k, i) :: b.items[i]
  }

  /**
   * One save of row k with its hook, told by its effect alone: the row is stored, its journal is
   * rebuilt from it, and every other row and every other journal entry keeps id and content.
   */
  ghost predicate Saves(b: Books, b': Books, chart: Chart, k: Id, row: Cash, quote: Quote) {
    && b'.cashes == b.cashes[k := row]
    && b'.quotes == b.quotes[k := quote]
    && Mirrors(b', chart, k)
    && OtherEntries(b', k) == OtherEntries(b, k)
    && OtherItems(b', k) == OtherItems(b, k)
    && KeepsIds(b, b', chart, k, row)
    && b.nextEntry <= b'.nextEntry && b.nextItem <= b'.nextItem
    && (forall e :: e in b'.entries ==> e < b'.nextEntry)
    && (forall i :: i in b'.items ==> i < b'.nextItem)
    && b.nextCash <= b'.nextCash && k < b'.nextCash
  }

  /** A row that stays posted keeps its header, that header's creator, and its line ids; a new header is the owner's. */
  ghost predicate KeepsIds(b: Books, b': Books, chart: Chart, k: Id, row: Cash) {
    !Skipped(chart, row) ==>
      if k in b.cashes && !Skipped(chart, b.cashes[k])
      then EntriesOf(b', k).Keys == EntriesOf(b, k).Keys
           && ItemsOf(b', k).Keys == ItemsOf(b, k).Keys
           && forall e :: e in EntriesOf(b, k) ==> b'.entries[e].createdBy == b.entries[e].createdBy
      else forall e :: e in EntriesOf(b', k) ==> b'.entries[e].createdBy == Some(row.userId)
  }

  // What an entry must say, in the columns of the row alone

  /** A quote against rupiah for the currency, not after the date and at most seven days before it. */
  predicate QuotedInWeek(x: RateRow, currency: string, at: Time) {
    x.base == "IDR" && x.currency == currency && at / 86400 - 7 <= x.day <= at / 86400
  }

  /** Rupiah at 1; else the newest quote of the week; else 16000 for USD, 4300 for SAR and 1 for the rest. */
  ghost predicate RateTells(rates: seq<RateRow>, currency: string, at: Time, rate: real) {
    if currency == "IDR" then rate == 1.0
    else if exists x :: x in rates && QuotedInWeek(x, currency, at)
    then exists x :: x in rates && QuotedInWeek(x, currency, at) && x.rate == rate
                     && forall y :: y in rates && QuotedInWeek(y, currency, at) ==> y.day <= x.day
    else rate == if currency == "USD" then 16000.0 else if currency == "SAR" then 4300.0 else 1.0
  }

  /** Booked on the account of this code, on none when the chart has no such account. */
  predicate BookedOn(chart: Chart, code: string, account: Option<Id>) {
    match account
    case Some(a) => a != 0 && code in chart.accounts && chart.accounts[code] == a
    case None => code !in chart.accounts || chart.accounts[code] == 0
  }

  /** A line in somebody's advance cash. */
  predicate IsAdvanceOf(chart: Chart, l: Line, owner: Option<Id>) {
    l.ownerType == Some("user") && l.ownerId == owner && BookedOn(chart, "1.101.003", l.account)
  }

  /** A line nobody owns, on the account of the row's category or else on the account of this code. */
  predicate IsCounterpart(chart: Chart, l: Line, categoryId: Option<Id>, code: string) {
    && l.ownerType.None? && l.ownerId.None?
    && if categoryId.Some? && categoryId.value in chart.categories && chart.categories[categoryId.value].accountId.Some?
       then l.account == chart.categories[categoryId.value].accountId
       else BookedOn(chart, code, l.account)
  }

  /** Income comes from main cash, expense goes to the default expense account, transfers from sender to recipient. */
  predicate PairTells(chart: Chart, row: Cash, debit: Line, credit: Line) {
    match row.kind
    case Income =>
      IsAdvanceOf(chart, debit, Some(row.userId)) && IsCounterpart(chart, credit, row.categoryId, "1.101.001")
    case Expense =>
      IsCounterpart(chart, debit, row.categoryId, "6.000.009") && IsAdvanceOf(chart, credit, Some(row.userId))
    case Transfer =>
      IsAdvanceOf(chart, debit, row.toUserId) && IsAdvanceOf(chart, credit, Some(row.userId))
  }

  /** Fixed, or tied to a record and in a category of vendor payments. */
  predicate KeptOut(chart: Chart, row: Cash) {
    row.isFixed
    || (row.relatedId.Some? && row.categoryId.Some? && row.categoryId.value in chart.categories
        && chart.categories[row.categoryId.value].group == Some("vendor-payment"))
  }

  predicate HeadsRow(e: Entry, k: Id) { e.txType == Some("user_cash") && e.txId == Some(k) }

  /** Header e and lines d, c are all there is for row k, and they say what the row says. */
  ghost predicate EntryIs(b: Books, chart: Chart, k: Id, row: Cash, rates: seq<RateRow>, at: Time,
                          e: Id, d: Id, c: Id)
  {
    && e in b.entries && d in b.items && c in b.items
    && (forall x :: x in b.entries ==> (HeadsRow(b.entries[x], k) <==> x == e))
    && (forall i :: i in b.items ==> (b.items[i].entryId == e <==> i == d || i == c))
    && b.entries[e].entryDate == at && b.entries[e].details == row.details && b.entries[e].updatedBy == Some(row.userId)
    && var debit, credit := b.items[d].line, b.items[c].line;
    && debit.side == Debit && credit.side == Credit && PairTells(chart, row, debit, credit)
    && debit.currency == credit.currency == row.currency
    && debit.amount == credit.amount == row.amount
    && debit.rate == credit.rate && RateTells(rates, row.currency, at, debit.rate)
  }

  /** The journal says of row k what its last save, with these rates and at this moment, had to write. */
  ghost predicate EntryTells(b: Books, chart: Chart, k: Id, row: Cash, rates: seq<RateRow>, now: Time) {
    if KeptOut(chart, row) then forall x :: x in b.entries ==> !HeadsRow(b.entries[x], k)
    else
      var at := if row.cashedAt.Some? then row.cashedAt.value else now;
      exists e, d, c :: EntryIs(b, chart, k, row, rates, at, e, d, c)
  }

  // Handlers' validation

  /** Request fields as text, with the values the float and date parsers give for two of them. */
  datatype WalletForm = WalletForm(
    kind: string, amount: string, amountValue: real, currency: string, details: string,
    date: string, dateValue: Option<Time>, groupId: string, categoryId: string, toUserId: string,
    attachment: Option<string>)

  function ParseKind(s: string): Option<CashType> {
    if s == "income" then Some(Income)
    else if s == "expense" then Some(Expense)
    else if s == "transfer" then Some(Transfer)
    else None
  }

  /** The fields with a validation error. */
  function FormErrors(f: WalletForm): set<string> {
    (if ParseKind(f.kind).None? then {"type"} else {})
    + (if f.amount == "" then {"amount"} else {})
    + (if f.currency != "SAR" && f.currency != "IDR" then {"currency"} else {})
    + (if f.details == "" then {"details"} else {})
    + (if f.date == "" then {"date"} else {})
    + (if (f.kind == "income" || f.kind == "expense") && f.categoryId == "" then {"category_id"} else {})
    + (if f.kind == "transfer" && f.toUserId == "" then {"to_user_id"} else {})
  }

  /** Which fields a refusal names. */
  predicate FieldsTell(fields: set<string>, f: WalletForm) {
    && fields <= {"type", "amount", "currency", "details", "date", "category_id", "to_user_id"}
    && ("type" in fields <==> f.kind != "income" && f.kind != "expense" && f.kind != "transfer")
    && ("amount" in fields <==> f.amount == "")
    && ("currency" in fields <==> f.currency != "SAR" && f.currency != "IDR")
    && ("details" in fields <==> f.details == "")
    && ("date" in fields <==> f.date == "")
    && ("category_id" in fields <==> (f.kind == "income" || f.kind == "expense") && f.categoryId == "")
    && ("to_user_id" in fields <==> f.kind == "transfer" && f.toUserId == "")
  }

  /** What an accepted request leaves in the row, read off the request's text. */
  predicate RowTells(row: Cash, f: WalletForm) {
    && (row.kind == Income <==> f.kind == "income") && (row.kind == Expense <==> f.kind == "expense")
    && (row.kind == Transfer <==> f.kind == "transfer")
    && row.amount == f.amountValue && row.currency == f.currency && row.details == Some(f.details)
    && row.cashedAt == f.dateValue && row.groupId == ParseUint(f.groupId)
    && row.categoryId == ParseUint(f.categoryId) && row.toUserId == ParseUint(f.toUserId)
  }

  /** Owner, not PIC-verified, not a fixed entry: the response's `editable`. */
  predicate Editable(row: Cash, user: Id) {
    row.userId == user && row.picVerifiedAt.None? && !row.isFixed
  }
}
