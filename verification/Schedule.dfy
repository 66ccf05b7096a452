/** The schedule: four lists merged by a stable sort on fixed-width date-time text. */
module Schedule {
  import opened Prelude
  import opened GoText
  import opened Lists

  datatype Date = Date(year: nat, month: nat, day: nat)

  /** Wall-clock fields. */
  datatype Civil = Civil(date: Date, hour: nat, minute: nat, second: nat)

  /** Years the four-digit format can show, and fields in their ranges. */
  predicate ValidDate(d: Date) { d.year <= 9999 && 1 <= d.month <= 12 && 1 <= d.day <= 31 }

  predicate Valid(c: Civil) { ValidDate(c.date) && c.hour < 24 && c.minute < 60 && c.second < 60 }

  /** Chronological order of wall-clock instants: field by field from the year down. */
  predicate DateBefore(a: Date, b: Date) {
    a.year < b.year || (a.year == b.year && (a.month < b.month || (a.month == b.month && a.day < b.day)))
  }

  predicate Before(a: Civil, b: Civil) {
    DateBefore(a.date, b.date)
    || (a.date == b.date && (a.hour < b.hour || (a.hour == b.hour
        && (a.minute < b.minute || (a.minute == b.minute && a.second < b.second)))))
  }

  // Formatting

  function Pow10(w: nat): nat { if w == 0 then 1 else 10 * Pow10(w - 1) }

  /** Zero-padded decimal of a fixed width. */
  function Pad(n: nat, w: nat): string { if w == 0 then "" else Pad(n / 10, w - 1) + [Digit(n % 10)] }

  /** The layout "2006-01-02". */
  function FormatDate(d: Date): string { Pad(d.year, 4) + ("-" + (Pad(d.month, 2) + ("-" + Pad(d.day, 2)))) }

  /** The clock part of the layout "2006-01-02T15:04:05". */
  function FormatClock(hour: nat, minute: nat, second: nat): string {
    "T" + (Pad(hour, 2) + (":" + (Pad(minute, 2) + (":" + Pad(second, 2)))))
  }

  function FormatDateTime(c: Civil): string { FormatDate(c.date) + FormatClock(c.hour, c.minute, c.second) }

  lemma {:induction false} PadWidth(n: nat, w: nat)
    ensures |Pad(n, w)| == w
  {
    if w > 0 { PadWidth(n / 10, w - 1); }
  }

  /** Behind prefixes of one length the rest decides only when the prefixes are equal. */
  lemma {:induction false} LessAfterPrefix(p: string, q: string, x: string, y: string)
    requires |p| == |q|
    ensures Less(p + x, q + y) <==> Less(p, q) || (p == q && Less(x, y))
  {
    if p == "" {
      assert p + x == x && q + y == y;
    } else {
      assert (p + x)[1..] == p[1..] + x && (q + y)[1..] == q[1..] + y;
      LessAfterPrefix(p[1..], q[1..], x, y);
      assert p == [p[0]] + p[1..] && q == [q[0]] + q[1..];
    }
  }

  /** Fixed-width decimals compare as numbers. */
  lemma {:induction false} PadOrder(m: nat, n: nat, w: nat)
    requires m < Pow10(w) && n < Pow10(w)
    ensures Less(Pad(m, w), Pad(n, w)) <==> m < n
    ensures Pad(m, w) == Pad(n, w) <==> m == n
  {
    if w > 0 {
      PadOrder(m / 10, n / 10, w - 1);
      PadWidth(m / 10, w - 1);
      PadWidth(n / 10, w - 1);
      LessAfterPrefix(Pad(m / 10, w - 1), Pad(n / 10, w - 1), [Digit(m % 10)], [Digit(n % 10)]);
      assert Less([Digit(m % 10)], [Digit(n % 10)]) <==> m % 10 < n % 10;
      if Pad(m, w) == Pad(n, w) {
        assert Pad(m, w)[..w - 1] == Pad(m / 10, w - 1) && Pad(n, w)[..w - 1] == Pad(n / 10, w - 1);
        assert Pad(m, w)[w - 1] == Digit(m % 10) && Pad(n, w)[w - 1] == Digit(n % 10);
      }
    }
  }

  /** One padded field in front of a separator and a rest. */
  lemma FieldOrder(m: nat, n: nat, w: nat, sep: char, x: string, y: string)
    requires m < Pow10(w) && n < Pow10(w)
    ensures Less(Pad(m, w) + ([sep] + x), Pad(n, w) + ([sep] + y)) <==> m < n || (m == n && Less(x, y))
  {
    PadOrder(m, n, w);
    PadWidth(m, w);
    PadWidth(n, w);
    LessAfterPrefix(Pad(m, w), Pad(n, w), [sep] + x, [sep] + y);
    LessAfterPrefix([sep], [sep], x, y);
  }

  lemma Widths()
    ensures Pow10(2) == 100 && Pow10(4) == 10000
  {
    assert Pow10(0) == 1 && Pow10(1) == 10 && Pow10(2) == 100 && Pow10(3) == 1000;
  }

  lemma ClockOrder(a: Civil, b: Civil)
    requires Valid(a) && Valid(b)
    ensures Less(FormatClock(a.hour, a.minute, a.second), FormatClock(b.hour, b.minute, b.second))
       <==> a.hour < b.hour || (a.hour == b.hour &&
                            (a.minute < b.minute || (a.minute == b.minute && a.second < b.second)))
  {
    Widths();
    PadOrder(a.second, b.second, 2);
    var sa, sb := Pad(a.second, 2), Pad(b.second, 2);
    FieldOrder(a.minute, b.minute, 2, ':', sa, sb);
    var ma, mb := Pad(a.minute, 2) + (":" + sa), Pad(b.minute, 2) + (":" + sb);
    FieldOrder(a.hour, b.hour, 2, ':', ma, mb);
    LessAfterPrefix("T", "T", Pad(a.hour, 2) + (":" + ma), Pad(b.hour, 2) + (":" + mb));
  }

  lemma DateOrder(a: Date, b: Date)
    requires ValidDate(a) && ValidDate(b)
    ensures Less(FormatDate(a), FormatDate(b)) <==> DateBefore(a, b)
    ensures FormatDate(a) == FormatDate(b) <==> a == b
    ensures |FormatDate(a)| == |FormatDate(b)| == 10
  {
    Widths();
    PadOrder(a.day, b.day, 2);
    PadOrder(b.day, a.day, 2);
    FieldOrder(a.month, b.month, 2, '-', Pad(a.day, 2), Pad(b.day, 2));
    FieldOrder(a.year, b.year, 4, '-', Pad(a.month, 2) + ("-" + Pad(a.day, 2)),
               Pad(b.month, 2) + ("-" + Pad(b.day, 2)));
    DateWidth(a);
    DateWidth(b);
    if FormatDate(a) == FormatDate(b) { DateInjective(a, b); }
  }

  lemma DateWidth(d: Date)
    ensures |FormatDate(d)| == 10
    ensures FormatDate(d)[..4] == Pad(d.year, 4) && FormatDate(d)[5..7] == Pad(d.month, 2)
            && FormatDate(d)[8..] == Pad(d.day, 2)
  {
    PadWidth(d.year, 4);
    PadWidth(d.month, 2);
    PadWidth(d.day, 2);
  }

  lemma DateInjective(a: Date, b: Date)
    requires ValidDate(a) && ValidDate(b) && FormatDate(a) == FormatDate(b)
    ensures a == b
  {
    Widths();
    DateWidth(a);
    DateWidth(b);
    PadOrder(a.year, b.year, 4);
    PadOrder(a.month, b.month, 2);
    PadOrder(a.day, b.day, 2);
  }

  /** For years 0000 to 9999, comparing the texts is comparing wall-clock instants. */
  lemma TextOrderIsTimeOrder(a: Civil, b: Civil)
    requires Valid(a) && Valid(b)
    ensures Less(FormatDateTime(a), FormatDateTime(b)) <==> Before(a, b)
  {
    DateOrder(a.date, b.date);
    ClockOrder(a, b);
    LessAfterPrefix(FormatDate(a.date), FormatDate(b.date),
                    FormatClock(a.hour, a.minute, a.second), FormatClock(b.hour, b.minute, b.second));
  }

  // The lists

  datatype Flight = Flight(id: Id, at: Option<Civil>)

  datatype Stay = Stay(id: Id, checkIn: Option<Date>, checkOut: Option<Date>)

  datatype Kind = Arrival | Departure | CheckIn | CheckOut

  /** `at` is the moment the text stands for; undated items have the empty text. */
  datatype Item = Item(kind: Kind, id: Id, at: Option<Civil>)

  function DateTime(i: Item): string { if i.at.Some? then FormatDateTime(i.at.value) else "" }

  predicate ValidItem(i: Item) { i.at.Some? ==> Valid(i.at.value) }

  function FlightItem(f: Flight, kind: Kind): Item { Item(kind, f.id, f.at) }

  /** Check-in at 15:00, check-out at 12:00. */
  function HotelItem(s: Stay, checkIn: bool): Item {
    var date, hour := if checkIn then s.checkIn else s.checkOut, if checkIn then 15 else 12;
    Item(if checkIn then CheckIn else CheckOut, s.id, if date.Some? then Some(Civil(date.value, hour, 0, 0)) else None)
  }

  lemma TwoDigits(n: nat)
    requires n < 100
    ensures Pad(n, 2) == [Digit(n / 10), Digit(n % 10)]
  {
    assert n / 10 / 10 == 0 && n / 10 % 10 == n / 10;
    assert Pad(n / 10, 1) == Pad(0, 0) + [Digit(n / 10)] == [Digit(n / 10)];
  }

  lemma FourDigits(n: nat)
    requires n < 10000
    ensures Pad(n, 4) == [Digit(n / 1000), Digit(n / 100 % 10), Digit(n / 10 % 10), Digit(n % 10)]
  {
    TwoDigits(n / 100);
    assert n / 10 / 10 == n / 100 && n / 100 / 10 == n / 1000 && n / 100 % 10 == n / 10 / 10 % 10;
    assert Pad(n, 4) == Pad(n / 10, 3) + [Digit(n % 10)];
    assert Pad(n / 10, 3) == Pad(n / 100, 2) + [Digit(n / 10 % 10)];
  }

  /** The layouts "2006-01-02" and "2006-01-02T15:04:05", character by character. */
  lemma LayoutIs(c: Civil)
    requires Valid(c)
    ensures var y, d := c.date.year, c.date;
            && |FormatDateTime(c)| == 19 && FormatDateTime(c)[..10] == FormatDate(d)
            && FormatDate(d) == [Digit(y / 1000), Digit(y / 100 % 10), Digit(y / 10 % 10), Digit(y % 10), '-',
                                 Digit(d.month / 10), Digit(d.month % 10), '-', Digit(d.day / 10), Digit(d.day % 10)]
            && FormatDateTime(c)[10..] == ['T', Digit(c.hour / 10), Digit(c.hour % 10), ':', Digit(c.minute / 10),
                                           Digit(c.minute % 10), ':', Digit(c.second / 10), Digit(c.second % 10)]
  {
    FourDigits(c.date.year);
    TwoDigits(c.date.month);
    TwoDigits(c.date.day);
    TwoDigits(c.hour);
    TwoDigits(c.minute);
    TwoDigits(c.second);
  }

  /** The clock texts the handler appends to hotel dates are the format's own, 15:00 in and 12:00 out. */
  lemma HotelClocks(s: Stay)
    ensures DateTime(HotelItem(s, true)) == if s.checkIn.Some? then FormatDate(s.checkIn.value) + "T15:00:00" else ""
    ensures DateTime(HotelItem(s, false)) == if s.checkOut.Some? then FormatDate(s.checkOut.value) + "T12:00:00" else ""
  {
    TwoDigits(15);
    TwoDigits(12);
    TwoDigits(0);
    assert FormatClock(15, 0, 0) == "T15:00:00" && FormatClock(12, 0, 0) == "T12:00:00";
  }

  function FlightItems(fs: seq<Flight>, kind: Kind): seq<Item> {
    if fs == [] then [] else FlightItems(fs[..|fs| - 1], kind) + [FlightItem(fs[|fs| - 1], kind)]
  }

  function HotelItems(ss: seq<Stay>, checkIn: bool): seq<Item> {
    if ss == [] then [] else HotelItems(ss[..|ss| - 1], checkIn) + [HotelItem(ss[|ss| - 1], checkIn)]
  }

  // The stable sort

  predicate Precedes(a: Item, b: Item) { Less(DateTime(a), DateTime(b)) }

  method Schedule(arrivals: seq<Flight>, departures: seq<Flight>, checkIns: seq<Stay>, checkOuts: seq<Stay>)
    returns (items: seq<Item>)
    ensures items == StableSort(FlightItems(arrivals, Arrival) + FlightItems(departures, Departure)
                                + HotelItems(checkIns, true) + HotelItems(checkOuts, false), Precedes)
  {
    items := [];
    for i := 0 to |arrivals|
      invariant items == FlightItems(arrivals[..i], Arrival)
    {
      assert arrivals[..i + 1][..i] == arrivals[..i];
      items := items + [FlightItem(arrivals[i], Arrival)];
    }
    ghost var first := items;
    for i := 0 to |departures|
      invariant items == first + FlightItems(departures[..i], Departure)
    {
      assert departures[..i + 1][..i] == departures[..i];
      items := items + [FlightItem(departures[i], Departure)];
    }
    assert arrivals[..|arrivals|] == arrivals && departures[..|departures|] == departures;
    var ins := HotelList(checkIns, true);
    var outs := HotelList(checkOuts, false);
    items := items + ins;
    items := items + outs;
    items := StableSort(items, Precedes);
  }

  method HotelList(ss: seq<Stay>, checkIn: bool) returns (out: seq<Item>)
    ensures out == HotelItems(ss, checkIn)
  {
    out := [];
    for i := 0 to |ss|
      invariant out == HotelItems(ss[..i], checkIn)
    {
      assert ss[..i + 1][..i] == ss[..i];
      out := out + [HotelItem(ss[i], checkIn)];
    }
    assert ss[..|ss|] == ss;
  }

  // Chronological and stable

  /** Undated items first, then by time. */
  predicate Earlier(a: Item, b: Item) {
    b.at.Some? && (a.at.None? || Before(a.at.value, b.at.value))
  }

  lemma PrecedesIsEarlier(a: Item, b: Item)
    requires ValidItem(a) && ValidItem(b)
    ensures Precedes(a, b) <==> Earlier(a, b)
    ensures b.at.Some? ==> DateTime(b) != ""
  {
    if b.at.Some? { DateWidth(b.at.value.date); }
    if a.at.Some? && b.at.Some? { TextOrderIsTimeOrder(a.at.value, b.at.value); }
  }

  predicate AllValid(s: seq<Item>) { forall i :: 0 <= i < |s| ==> ValidItem(s[i]) }

  predicate Chronological(s: seq<Item>) { Ascending(s, Earlier) }

  /** The items at one moment, in list order. */
  function At(m: Option<Civil>): Item -> bool { (i: Item) => i.at == m }

  lemma EarlierIsWeakOrder()
    ensures WeakOrder(Earlier)
  {
  }

  /** Sorting by text is sorting by time. */
  lemma SortByTime(s: seq<Item>)
    requires AllValid(s)
    ensures StableSort(s, Precedes) == StableSort(s, Earlier)
  {
    forall y, z | ValidItem(y) && ValidItem(z) ensures Precedes(y, z) == Earlier(y, z) { PrecedesIsEarlier(y, z); }
    SortDependsOn(s, Precedes, Earlier, ValidItem);
  }

  predicate ValidFlights(fs: seq<Flight>) { forall k :: 0 <= k < |fs| && fs[k].at.Some? ==> Valid(fs[k].at.value) }

  predicate ValidStays(ss: seq<Stay>) {
    forall k :: 0 <= k < |ss| ==> (ss[k].checkIn.Some? ==> ValidDate(ss[k].checkIn.value))
                                  && (ss[k].checkOut.Some? ==> ValidDate(ss[k].checkOut.value))
  }

  lemma {:induction false} FlightItemsValid(fs: seq<Flight>, kind: Kind)
    requires ValidFlights(fs)
    ensures AllValid(FlightItems(fs, kind))
  {
    if fs != [] { FlightItemsValid(fs[..|fs| - 1], kind); }
  }

  lemma {:induction false} HotelItemsValid(ss: seq<Stay>, checkIn: bool)
    requires ValidStays(ss)
    ensures AllValid(HotelItems(ss, checkIn))
  {
    if ss != [] { HotelItemsValid(ss[..|ss| - 1], checkIn); }
  }

  /** Four lists of items, one behind the other, sorted by text. */
  lemma MergedIsChronologicalAndStable(a: seq<Item>, d: seq<Item>, i: seq<Item>, o: seq<Item>, m: Option<Civil>)
    requires AllValid(a + d + i + o)
    ensures var out := StableSort(a + d + i + o, Precedes);
            && multiset(out) == multiset(a) + multiset(d) + multiset(i) + multiset(o)
            && Chronological(out)
            && Filter(out, At(m)) == Filter(a, At(m)) + Filter(d, At(m)) + Filter(i, At(m)) + Filter(o, At(m))
  {
    SortByTime(a + d + i + o);
    SortPermutes(a + d + i + o, Earlier);
    EarlierIsWeakOrder();
    SortAscends(a + d + i + o, Earlier);
    SortKeepsTies(a + d + i + o, Earlier, At(m));
    FilterConcat(a + d + i, o, At(m));
    FilterConcat(a + d, i, At(m));
    FilterConcat(a, d, At(m));
  }

  /** One item per flight, in order, at its own time. */
  function Flown(fs: seq<Flight>, kind: Kind): seq<Item> {
    seq(|fs|, k requires 0 <= k < |fs| => Item(kind, fs[k].id, fs[k].at))
  }

  function Clock(d: Option<Date>, hour: nat): Option<Civil> {
    if d.Some? then Some(Civil(d.value, hour, 0, 0)) else None
  }

  function CheckedIn(ss: seq<Stay>): seq<Item> {
    seq(|ss|, k requires 0 <= k < |ss| => Item(CheckIn, ss[k].id, Clock(ss[k].checkIn, 15)))
  }

  function CheckedOut(ss: seq<Stay>): seq<Item> {
    seq(|ss|, k requires 0 <= k < |ss| => Item(CheckOut, ss[k].id, Clock(ss[k].checkOut, 12)))
  }

  lemma {:induction false} FlightItemsAre(fs: seq<Flight>, kind: Kind)
    ensures FlightItems(fs, kind) == Flown(fs, kind)
  {
    if fs != [] {
      FlightItemsAre(fs[..|fs| - 1], kind);
      assert Flown(fs, kind) == Flown(fs[..|fs| - 1], kind) + [FlightItem(fs[|fs| - 1], kind)];
    }
  }

  lemma {:induction false} HotelItemsAre(ss: seq<Stay>)
    ensures HotelItems(ss, true) == CheckedIn(ss) && HotelItems(ss, false) == CheckedOut(ss)
  {
    if ss != [] {
      var front, last := ss[..|ss| - 1], ss[|ss| - 1];
      HotelItemsAre(front);
      assert CheckedIn(ss) == CheckedIn(front) + [HotelItem(last, true)];
      assert CheckedOut(ss) == CheckedOut(front) + [HotelItem(last, false)];
    }
  }

  /**
   * The response to any flights and stays is a permutation of their items in chronological order, undated ones first;
   * at each moment arrivals come before departures, check-ins and check-outs, each in its own list order.
   */
  lemma ScheduleIsChronologicalAndStable(arrivals: seq<Flight>, departures: seq<Flight>, checkIns: seq<Stay>,
                                         checkOuts: seq<Stay>, m: Option<Civil>)
    requires ValidFlights(arrivals) && ValidFlights(departures) && ValidStays(checkIns) && ValidStays(checkOuts)
    ensures var out := StableSort(FlightItems(arrivals, Arrival) + FlightItems(departures, Departure)
                                  + HotelItems(checkIns, true) + HotelItems(checkOuts, false), Precedes);
            var a, d := Flown(arrivals, Arrival), Flown(departures, Departure);
            var i, o := CheckedIn(checkIns), CheckedOut(checkOuts);
            && multiset(out) == multiset(a) + multiset(d) + multiset(i) + multiset(o)
            && Chronological(out)
            && Filter(out, At(m)) == Filter(a, At(m)) + Filter(d, At(m)) + Filter(i, At(m)) + Filter(o, At(m))
  {
    FlightItemsValid(arrivals, Arrival);
    FlightItemsValid(departures, Departure);
    HotelItemsValid(checkIns, true);
    HotelItemsValid(checkOuts, false);
    FlightItemsAre(arrivals, Arrival);
    FlightItemsAre(departures, Departure);
    HotelItemsAre(checkIns);
    HotelItemsAre(checkOuts);
    MergedIsChronologicalAndStable(FlightItems(arrivals, Arrival), FlightItems(departures, Departure),
                                   HotelItems(checkIns, true), HotelItems(checkOuts, false), m);
  }

  ghost predicate SameTies(s: seq<Item>, t: seq<Item>) {
    forall m: Option<Civil> :: Filter(s, At(m)) == Filter(t, At(m))
  }

  lemma {:induction false} TiesHaveMembers(s: seq<Item>, i: nat)
    requires i < |s|
    ensures Filter(s, At(s[i].at)) != []
  {
    if i < |s| - 1 { TiesHaveMembers(s[..|s| - 1], i); }
  }

  lemma {:induction false} TieWitness(s: seq<Item>, m: Option<Civil>) returns (i: nat)
    requires Filter(s, At(m)) != []
    ensures i < |s| && s[i].at == m
  {
    i := |s| - 1;
    if s[i].at != m { i := TieWitness(s[..i], m); }
  }

  lemma NeitherEarlier(x: Item, y: Item)
    requires !Earlier(x, y) && !Earlier(y, x)
    ensures x.at == y.at
  {
  }

  /** Some item of t shares the last moment of s, and it is not later than the last item of t. */
  lemma LastNotBefore(s: seq<Item>, t: seq<Item>)
    requires Chronological(t) && s != [] && t != []
    requires Filter(s, At(s[|s| - 1].at)) == Filter(t, At(s[|s| - 1].at))
    ensures !Earlier(t[|t| - 1], s[|s| - 1])
  {
    TiesHaveMembers(s, |s| - 1);
    var j := TieWitness(t, s[|s| - 1].at);
    if j < |t| - 1 { assert !Earlier(t[|t| - 1], t[j]); }
  }

  /** Nothing comes after the last item, so both lists end at the same moment. */
  lemma SameLastMoment(s: seq<Item>, t: seq<Item>)
    requires Chronological(s) && Chronological(t) && SameTies(s, t) && s != [] && t != []
    ensures s[|s| - 1].at == t[|t| - 1].at
  {
    LastNotBefore(s, t);
    assert Filter(s, At(t[|t| - 1].at)) == Filter(t, At(t[|t| - 1].at));
    LastNotBefore(t, s);
    NeitherEarlier(s[|s| - 1], t[|t| - 1]);
  }

  /** Chronological order and list order among ties leave no choice: this is what any stable sort returns. */
  lemma {:induction false} StableResultIsUnique(s: seq<Item>, t: seq<Item>)
    requires Chronological(s) && Chronological(t) && SameTies(s, t)
    ensures s == t
  {
    if s == [] || t == [] {
      if s != [] { TiesHaveMembers(s, 0); }
      if t != [] { TiesHaveMembers(t, 0); }
    } else {
      SameLastMoment(s, t);
      var s', t', x, y := s[..|s| - 1], t[..|t| - 1], s[|s| - 1], t[|t| - 1];
      assert Filter(s, At(x.at)) == Filter(t, At(x.at));
      assert Filter(s, At(x.at)) == Filter(s', At(x.at)) + [x] && Filter(t, At(x.at)) == Filter(t', At(x.at)) + [y];
      assert (Filter(s', At(x.at)) + [x])[|Filter(s, At(x.at))| - 1] == x;
      assert x == y;
      forall m: Option<Civil> ensures Filter(s', At(m)) == Filter(t', At(m)) {
        assert Filter(s, At(m)) == Filter(t, At(m));
        if m == x.at {
          assert Filter(s', At(m)) == Filter(s, At(m))[..|Filter(s, At(m))| - 1];
          assert Filter(t', At(m)) == Filter(t, At(m))[..|Filter(t, At(m))| - 1];
        } else {
          assert Filter(s, At(m)) == Filter(s', At(m)) && Filter(t, At(m)) == Filter(t', At(m));
        }
      }
      StableResultIsUnique(s', t');
      assert s == s' + [x] && t == t' + [y];
    }
  }
}
