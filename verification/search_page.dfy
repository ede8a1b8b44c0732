/** The results page: the mock flight generator (its random draws passed in),
    the sorted view of the stored results, the sort toggle, and the actions
    a search dispatches. */
module SearchPage {
  import opened Wrappers
  import opened BookingContext
  import Text

  // ---------------------------------------------------------------------
  // Mock results

  datatype Airline = Airline(name: string, logo: string, code: string)

  /** The five carriers, in the order the generator lists them. Each logo is
      a flag emoji whose UTF-8 bytes the source file holds re-read as
      Windows-1252 text, eight characters per flag; the strings here are
      those characters. */
  const Airlines: seq<Airline> := [
    Airline("Singapore Airlines", "\U{00F0}\U{0178}\U{2021}\U{00B8}\U{00F0}\U{0178}\U{2021}\U{00AC}", "SQ"),
    Airline("Qatar Airways", "\U{00F0}\U{0178}\U{2021}\U{00B6}\U{00F0}\U{0178}\U{2021}\U{00A6}", "QR"),
    Airline("Emirates", "\U{00F0}\U{0178}\U{2021}\U{00A6}\U{00F0}\U{0178}\U{2021}\U{00AA}", "EK"),
    Airline("Saudi Airlines", "\U{00F0}\U{0178}\U{2021}\U{00B8}\U{00F0}\U{0178}\U{2021}\U{00A6}", "SV"),
    Airline("Turkish Airlines", "\U{00F0}\U{0178}\U{2021}\U{00B9}\U{00F0}\U{0178}\U{2021}\U{00B7}", "TK")
  ]

  /** The three `Math.random()` results one generated flight consumes (the
      first flight does not use its stop draw). */
  datatype Draw = Draw(stops: real, price: real, refund: real)

  predicate ValidDraw(d: Draw) {
    0.0 <= d.stops < 1.0 && 0.0 <= d.price < 1.0 && 0.0 <= d.refund < 1.0
  }

  predicate ValidDraws(draws: seq<Draw>) {
    |draws| == |Airlines| && forall k :: 0 <= k < |draws| ==> ValidDraw(draws[k])
  }

  /** `Math.floor(r * n)` for a draw `r` in [0, 1): a whole number below `n`. */
  function FloorScaled(r: real, n: nat): (v: nat)
    requires 0.0 <= r < 1.0 && n > 0
    ensures v < n
  {
    var x := r * (n as real);
    ScaledBelow(r, n as real);
    FloorBounds(x);
    assert x.Floor as real < n as real;
    x.Floor
  }

  lemma FloorBounds(x: real)
    ensures x.Floor as real <= x < x.Floor as real + 1.0
    ensures x >= 0.0 ==> x.Floor >= 0
  {
  }

  lemma ScaledBelow(r: real, m: real)
    requires 0.0 <= r < 1.0 && m > 0.0
    ensures 0.0 <= r * m < m
  {
    assert m - r * m == (1.0 - r) * m;
  }

  function DepartureText(k: nat): string {
    Text.NatToString(12 + k) + ":" + Text.NatToString(k * 10)
  }

  function ArrivalText(k: nat): string {
    Text.NatToString(15 + k) + ":" + Text.NatToString(30 + k * 5)
  }

  function DurationText(k: nat): string {
    Text.NatToString(3 + k) + "h " + Text.NatToString(k * 10) + "m"
  }

  /** The flight generated at position `k` of the list. */
  function MockFlight(p: SearchParams, k: nat, d: Draw): (f: FlightResult)
    requires k < |Airlines| && ValidDraw(d)
    ensures k == 0 ==> f.stops == 0
    ensures k > 0 ==> 1 <= f.stops <= 2
    ensures (110 + 50 * k) as real <= f.price <= (309 + 50 * k) as real
    ensures f.refundable <==> d.refund > 0.5
  {
    FlightResult(
      "flight-" + Text.NatToString(k),
      Airlines[k].name,
      Airlines[k].logo,
      DepartureText(k),
      ArrivalText(k),
      DurationText(k),
      if k == 0 then 0 else FloorScaled(d.stops, 2) + 1,
      (110 + k * 50 + FloorScaled(d.price, 200)) as real,
      "USD",
      p.origin,
      p.destination,
      "Boeing 777",
      d.refund > 0.5,
      ClassName(p.cabinClass),
      Airlines[k].code + Text.NatToString(100 + k))
  }

  /** `generateMockFlights`: one flight per carrier, in carrier order. */
  function GenerateMockFlights(p: SearchParams, draws: seq<Draw>): (r: seq<FlightResult>)
    requires ValidDraws(draws)
    ensures |r| == 5
    ensures forall k :: 0 <= k < 5 ==>
              && r[k].id == "flight-" + Text.NatToString(k)
              && r[k].airline == Airlines[k].name
              && r[k].flightNumber == Airlines[k].code + Text.NatToString(100 + k)
              && r[k].origin == p.origin && r[k].destination == p.destination
              && r[k].cabinClass == ClassName(p.cabinClass)
              && r[k].price >= 0.0
  {
    seq(|Airlines|, k requires 0 <= k < |Airlines| => MockFlight(p, k, draws[k]))
  }

  /** Different positions give different flight ids. */
  lemma FlightIdsDistinct(j: nat, k: nat)
    requires j != k
    ensures "flight-" + Text.NatToString(j) != "flight-" + Text.NatToString(k)
  {
    assert ("flight-" + Text.NatToString(j))[7..] == Text.NatToString(j);
    assert ("flight-" + Text.NatToString(k))[7..] == Text.NatToString(k);
    if Text.NatToString(j) == Text.NatToString(k) {
      Text.PrintedInjective(j, k);
    }
  }

  /** The generated flights carry five different ids. */
  lemma MockIdsDistinct(p: SearchParams, draws: seq<Draw>, j: nat, k: nat)
    requires ValidDraws(draws)
    requires j < k < 5
    ensures GenerateMockFlights(p, draws)[j].id != GenerateMockFlights(p, draws)[k].id
  {
    FlightIdsDistinct(j, k);
  }

  // ---------------------------------------------------------------------
  // Sorted view

  datatype SortKey = ByPrice | ByDuration | ByDeparture

  datatype SortOrder = Asc | Desc

  datatype SortState = SortState(sortBy: SortKey, sortOrder: SortOrder)

  /** The results page opens sorted by price, ascending. */
  const InitialSort: SortState := SortState(ByPrice, Asc)

  /** `parseInt(duration.split('h')[0])`; `None` is JavaScript's `NaN`. */
  function HourKey(f: FlightResult): Option<nat> {
    Text.ParseLeadingInt(Text.BeforeFirst(f.duration, 'h'))
  }

  /** The order on hour keys, a missing hour below every number. */
  predicate HourLe(a: Option<nat>, b: Option<nat>) {
    a.None? || (b.Some? && a.value <= b.value)
  }

  /** `a` is not greater than `b` under the chosen key. */
  predicate KeyLe(key: SortKey, a: FlightResult, b: FlightResult) {
    match key
    case ByPrice => a.price <= b.price
    case ByDuration => HourLe(HourKey(a), HourKey(b))
    case ByDeparture => !Text.StrLess(b.departureTime, a.departureTime)
  }

  /** The comparator lets `a` come before `b`: for ascending order when `a`'s
      key is not greater, for descending when it is not smaller. */
  predicate Precedes(st: SortState, a: FlightResult, b: FlightResult) {
    match st.sortOrder
    case Asc => KeyLe(st.sortBy, a, b)
    case Desc => KeyLe(st.sortBy, b, a)
  }

  predicate SortedBy(st: SortState, s: seq<FlightResult>) {
    forall i, j :: 0 <= i < j < |s| ==> Precedes(st, s[i], s[j])
  }

  lemma KeyLeTotal(key: SortKey, a: FlightResult, b: FlightResult)
    ensures KeyLe(key, a, b) || KeyLe(key, b, a)
  {
    if key == ByDeparture {
      Text.StrLessTotal(a.departureTime, b.departureTime);
      if Text.StrLess(a.departureTime, b.departureTime) {
        Text.StrLessAsymmetric(a.departureTime, b.departureTime);
      } else if a.departureTime == b.departureTime {
        Text.StrLessIrreflexive(a.departureTime);
      }
    }
  }

  lemma KeyLeTransitive(key: SortKey, a: FlightResult, b: FlightResult, c: FlightResult)
    requires KeyLe(key, a, b) && KeyLe(key, b, c)
    ensures KeyLe(key, a, c)
  {
    if key == ByDeparture {
      var x, y, z := a.departureTime, b.departureTime, c.departureTime;
      Text.StrLessTotal(x, y);
      Text.StrLessTotal(y, z);
      if x == y || y == z {
      } else {
        Text.StrLessTransitive(x, y, z);
        Text.StrLessAsymmetric(x, z);
      }
    }
  }

  lemma PrecedesTotal(st: SortState, a: FlightResult, b: FlightResult)
    ensures Precedes(st, a, b) || Precedes(st, b, a)
  {
    KeyLeTotal(st.sortBy, a, b);
  }

  lemma PrecedesTransitive(st: SortState, a: FlightResult, b: FlightResult, c: FlightResult)
    requires Precedes(st, a, b) && Precedes(st, b, c)
    ensures Precedes(st, a, c)
  {
    if st.sortOrder == Asc {
      KeyLeTransitive(st.sortBy, a, b, c);
    } else {
      KeyLeTransitive(st.sortBy, c, b, a);
    }
  }

  /** Insert `x` before the first element of `s` it may precede. */
  function Insert(st: SortState, x: FlightResult, s: seq<FlightResult>): (r: seq<FlightResult>)
    ensures multiset(r) == multiset(s) + multiset{x}
  {
    if s == [] then [x]
    else if Precedes(st, x, s[0]) then [x] + s
    else
      assert s == [s[0]] + s[1..];
      [s[0]] + Insert(st, x, s[1..])
  }

  /** An element that may precede the head of a sorted list may precede
      all of it, so putting it in front keeps the list sorted. */
  lemma ConsSorted(st: SortState, x: FlightResult, s: seq<FlightResult>)
    requires SortedBy(st, s) && s != [] && Precedes(st, x, s[0])
    ensures SortedBy(st, [x] + s)
  {
    var r := [x] + s;
    forall i, j | 0 <= i < j < |r| ensures Precedes(st, r[i], r[j]) {
      if i == 0 {
        if j > 1 {
          PrecedesTransitive(st, x, s[0], s[j - 1]);
        }
      } else {
        assert r[i] == s[i - 1] && r[j] == s[j - 1];
      }
    }
  }

  /** Every element of `t` drawn from `s` or equal to `x` may follow the head
      of the sorted list `s` when `x` may: putting that head in front of `t`
      keeps `t` sorted. */
  lemma HeadBeforeSorted(st: SortState, x: FlightResult, s: seq<FlightResult>, t: seq<FlightResult>)
    requires SortedBy(st, s) && s != [] && Precedes(st, s[0], x)
    requires SortedBy(st, t) && multiset(t) == multiset(s[1..]) + multiset{x}
    ensures SortedBy(st, [s[0]] + t)
  {
    var r := [s[0]] + t;
    forall i, j | 0 <= i < j < |r| ensures Precedes(st, r[i], r[j]) {
      if i == 0 {
        var y := t[j - 1];
        assert y in multiset(t);
        if y != x {
          assert y in multiset(s[1..]);
          var m :| 0 <= m < |s[1..]| && s[1..][m] == y;
          assert s[m + 1] == y;
        }
      } else {
        assert r[i] == t[i - 1] && r[j] == t[j - 1];
      }
    }
  }

  /** Inserting into a sorted list keeps it sorted. */
  lemma {:induction false} InsertSorted(st: SortState, x: FlightResult, s: seq<FlightResult>)
    requires SortedBy(st, s)
    ensures SortedBy(st, Insert(st, x, s))
  {
    if s == [] {
    } else if Precedes(st, x, s[0]) {
      ConsSorted(st, x, s);
    } else {
      InsertSorted(st, x, s[1..]);
      PrecedesTotal(st, x, s[0]);
      HeadBeforeSorted(st, x, s, Insert(st, x, s[1..]));
    }
  }

  /** The sorted view of the stored results: a reordering of them, ordered
      by the chosen key in the chosen direction. Equal keys may end up in
      any order, as the source's comparator never reports a tie. */
  function SortResults(st: SortState, s: seq<FlightResult>): (r: seq<FlightResult>)
    ensures SortedBy(st, r)
    ensures multiset(r) == multiset(s)
  {
    if s == [] then [] else
      assert s == [s[0]] + s[1..];
      var t := SortResults(st, s[1..]);
      InsertSorted(st, s[0], t);
      Insert(st, s[0], t)
  }

  /** A list sorted ascending by a key, read backwards, is sorted descending
      by it. */
  lemma ReversedAscIsDesc(key: SortKey, s: seq<FlightResult>)
    requires SortedBy(SortState(key, Asc), s)
    ensures SortedBy(SortState(key, Desc), seq(|s|, i requires 0 <= i < |s| => s[|s| - 1 - i]))
  {
  }

  /** The text before the 'h' of a generated duration reads back as the
      hour it printed, for any position. */
  lemma DurationHour(k: nat)
    ensures Text.ParseLeadingInt(Text.BeforeFirst(DurationText(k), 'h')) == Some(3 + k)
  {
    var hours := Text.NatToString(3 + k);
    var rest := " " + Text.NatToString(k * 10) + "m";
    assert DurationText(k) == hours + ['h'] + rest;
    assert 'h' !in hours by {
      assert Text.AllDigits(hours);
    }
    Text.BeforeFirstOfPrefix(hours, 'h', rest);
    Text.ParseLeadingPrinted(3 + k, []);
    assert hours + [] == hours;
  }

  /** Every generated flight's duration reads back as its hour, `3 + k`. */
  lemma MockHourKey(p: SearchParams, draws: seq<Draw>, k: nat)
    requires ValidDraws(draws) && k < 5
    ensures HourKey(GenerateMockFlights(p, draws)[k]) == Some(3 + k)
  {
    assert GenerateMockFlights(p, draws)[k] == MockFlight(p, k, draws[k]);
    DurationHour(k);
  }

  /** The duration key strictly increases along the generated list. */
  lemma MockDurationsIncrease(p: SearchParams, draws: seq<Draw>, j: nat, k: nat)
    requires ValidDraws(draws) && j < k < 5
    ensures HourLe(HourKey(GenerateMockFlights(p, draws)[j]), HourKey(GenerateMockFlights(p, draws)[k]))
    ensures HourKey(GenerateMockFlights(p, draws)[j]) != HourKey(GenerateMockFlights(p, draws)[k])
  {
    MockHourKey(p, draws, j);
    MockHourKey(p, draws, k);
  }

  /** The two-digit hour `12 + k` prints as '1' and the digit `2 + k`. */
  lemma DepartureHourDigits(k: nat)
    requires k < 5
    ensures Text.NatToString(12 + k) == ['1', Text.DigitChar(2 + k)]
  {
    assert (12 + k) / 10 == 1 && (12 + k) % 10 == 2 + k;
  }

  /** The departure text of an earlier position sorts strictly first. */
  lemma DepartureTextsIncrease(j: nat, k: nat)
    requires j < k < 5
    ensures Text.StrLess(DepartureText(j), DepartureText(k))
  {
    var a, b := DepartureText(j), DepartureText(k);
    DepartureHourDigits(j);
    DepartureHourDigits(k);
    assert a[0] == '1' == b[0];
    assert a[1..][0] == Text.DigitChar(2 + j) && b[1..][0] == Text.DigitChar(2 + k);
  }

  /** The departure strings strictly increase along the generated list. */
  lemma MockDeparturesIncrease(p: SearchParams, draws: seq<Draw>, j: nat, k: nat)
    requires ValidDraws(draws) && j < k < 5
    ensures Text.StrLess(GenerateMockFlights(p, draws)[j].departureTime,
                         GenerateMockFlights(p, draws)[k].departureTime)
  {
    assert GenerateMockFlights(p, draws)[j] == MockFlight(p, j, draws[j]);
    assert GenerateMockFlights(p, draws)[k] == MockFlight(p, k, draws[k]);
    DepartureTextsIncrease(j, k);
  }

  // ---------------------------------------------------------------------
  // Sort toggle

  /** `toggleSort`: the current key flips the direction; another key is
      selected ascending. */
  function ToggleSort(st: SortState, key: SortKey): (r: SortState)
    ensures r.sortBy == key
    ensures st.sortBy == key ==> r.sortOrder != st.sortOrder
    ensures st.sortBy != key ==> r.sortOrder == Asc
  {
    if st.sortBy == key then
      SortState(key, if st.sortOrder == Asc then Desc else Asc)
    else
      SortState(key, Asc)
  }

  /** On opening, the page lists every result once, cheapest first; a click
      on the price button then reverses to dearest first, and a click on
      another key sorts by that key ascending. */
  lemma InitialView(s: seq<FlightResult>, key: SortKey)
    ensures var r := SortResults(InitialSort, s);
      multiset(r) == multiset(s)
      && forall i, j :: 0 <= i < j < |r| ==> r[i].price <= r[j].price
    ensures ToggleSort(InitialSort, ByPrice) == SortState(ByPrice, Desc)
    ensures key != ByPrice ==> ToggleSort(InitialSort, key) == SortState(key, Asc)
  {
    var r := SortResults(InitialSort, s);
    forall i, j | 0 <= i < j < |r|
      ensures r[i].price <= r[j].price
    {
      assert Precedes(InitialSort, r[i], r[j]);
    }
  }

  /** Clicking the current key twice restores the sort state. */
  lemma ToggleTwiceRestores(st: SortState)
    ensures ToggleSort(ToggleSort(st, st.sortBy), st.sortBy) == st
  {
  }

  /** Clicking a new key twice leaves it selected in descending order. */
  lemma ToggleNewKeyTwice(st: SortState, key: SortKey)
    requires st.sortBy != key
    ensures ToggleSort(ToggleSort(st, key), key) == SortState(key, Desc)
  {
  }

  // ---------------------------------------------------------------------
  // Searching

  /** How the request to the search endpoint ends. */
  datatype FetchOutcome = ResponseOk | ResponseNotOk | NetworkFailure

  /** The actions `searchFlights` dispatches, in order: loading on, error
      cleared, then the mock results for the current parameters whatever
      the fetch outcome (the response body is discarded). Without search
      parameters, none. */
  function SearchActions(s: BookingState, draws: seq<Draw>, outcome: FetchOutcome): (acts: seq<BookingAction>)
    requires ValidDraws(draws)
    ensures s.searchParams.None? ==> acts == []
    ensures s.searchParams.Some? ==> |acts| == 3 && acts[0] == SetLoading(true) && acts[1] == SetError(None)
    ensures s.searchParams.Some? ==> acts[2] == SetSearchResults(GenerateMockFlights(s.searchParams.value, draws))
  {
    if s.searchParams.None? then []
    else
      var mock := GenerateMockFlights(s.searchParams.value, draws);
      match outcome
      case ResponseOk => [SetLoading(true), SetError(None), SetSearchResults(mock)]
      case ResponseNotOk => [SetLoading(true), SetError(None), SetSearchResults(mock)]
      case NetworkFailure => [SetLoading(true), SetError(None), SetSearchResults(mock)]
  }

  /** After a search the store holds the mock list, is not loading and has no
      error, whatever the fetch outcome; parameters, selected flight and
      passengers are untouched. The store is loading only between the first
      two dispatches: clearing the error also clears the loading flag, so
      while the request is outstanding the store is not loading. */
  lemma SearchFlightsOutcome(s: BookingState, draws: seq<Draw>, outcome: FetchOutcome)
    requires ValidDraws(draws)
    requires s.searchParams.Some?
    ensures var final := Dispatch(s, SearchActions(s, draws, outcome));
      && !final.isLoading && final.error.None?
      && final.searchResults == GenerateMockFlights(s.searchParams.value, draws)
      && final.searchParams == s.searchParams
      && final.selectedFlight == s.selectedFlight
      && final.passengers == s.passengers
    ensures Reduce(s, SearchActions(s, draws, outcome)[0]).isLoading
    ensures var pending := Dispatch(s, SearchActions(s, draws, outcome)[..2]);
      !pending.isLoading && pending.error.None?
  {
    var acts := SearchActions(s, draws, outcome);
    var s1 := Reduce(s, acts[0]);
    var s2 := Reduce(s1, acts[1]);
    assert Dispatch(s, acts[..2]) == Dispatch(s1, acts[..2][1..]);
    assert Dispatch(s1, acts[..2][1..]) == Dispatch(s2, acts[..2][2..]);
    assert acts[..2][2..] == [];
    var s3 := Reduce(s2, acts[2]);
    assert Dispatch(s, acts) == Dispatch(s1, acts[1..]);
    assert Dispatch(s1, acts[1..]) == Dispatch(s2, acts[2..]);
    assert Dispatch(s2, acts[2..]) == Dispatch(s3, acts[3..]);
    assert acts[3..] == [];
  }

  /** Without search parameters a search dispatches nothing. */
  lemma SearchWithoutParams(s: BookingState, draws: seq<Draw>, outcome: FetchOutcome)
    requires ValidDraws(draws)
    requires s.searchParams.None?
    ensures Dispatch(s, SearchActions(s, draws, outcome)) == s
  {
  }
}
