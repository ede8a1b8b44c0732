/** The search form: its state, the passenger counters with their clamps,
    the other input handlers, and the submit guard that turns the form into
    search parameters. Calendar dates are opaque and their `'dd MMM yyyy'`
    rendering is a function supplied by the caller. */
module SearchForm {
  import opened Wrappers
  import opened BookingContext

  /** A day picked in a calendar; no date arithmetic is modelled. */
  datatype Date = Date(serial: int)

  datatype FormData = FormData(
    tripType: TripType,
    origin: string,
    destination: string,
    departureDate: Option<Date>,
    returnDate: Option<Date>,
    passengers: PassengerCounts,
    cabinClass: CabinClass)

  const InitialForm: FormData :=
    FormData(RoundTrip, "", "", None, None, PassengerCounts(1, 0, 0), Economy)

  // ---------------------------------------------------------------------
  // Passenger counters

  datatype CounterOp = IncAdult | DecAdult | IncChildren | DecChildren | IncInfant | DecInfant

  /** The counts every reachable form keeps: at least one adult, no negative
      count. */
  predicate ValidCounts(c: PassengerCounts) {
    c.adult >= 1 && c.children >= 0 && c.infant >= 0
  }

  /** `Math.max(floor, n - 1)`. */
  function ClampedDec(n: int, floor: int): (m: int)
    ensures m >= floor
    ensures n - 1 >= floor ==> m == n - 1
    ensures n - 1 < floor ==> m == floor
  {
    if n - 1 > floor then n - 1 else floor
  }

  /** One click on a `+` or `-` button. */
  function ApplyCounter(f: FormData, op: CounterOp): (g: FormData)
    ensures g.(passengers := f.passengers) == f
  {
    var c := f.passengers;
    var c' := match op
      case IncAdult => c.(adult := c.adult + 1)
      case DecAdult => c.(adult := ClampedDec(c.adult, 1))
      case IncChildren => c.(children := c.children + 1)
      case DecChildren => c.(children := ClampedDec(c.children, 0))
      case IncInfant => c.(infant := c.infant + 1)
      case DecInfant => c.(infant := ClampedDec(c.infant, 0));
    f.(passengers := c')
  }

  /** A run of counter clicks, in order. */
  function ApplyCounters(f: FormData, ops: seq<CounterOp>): FormData
    decreases |ops|
  {
    if ops == [] then f else ApplyCounters(ApplyCounter(f, ops[0]), ops[1..])
  }

  /** Each `+` adds exactly one to its own count and leaves the other two
      alone; each `-` lowers its own count by one down to its floor (one
      adult, zero children or infants) and leaves the other two alone. */
  lemma CounterEffect(f: FormData, op: CounterOp)
    ensures var c, d := f.passengers, ApplyCounter(f, op).passengers;
      match op
      case IncAdult => d == PassengerCounts(c.adult + 1, c.children, c.infant)
      case IncChildren => d == PassengerCounts(c.adult, c.children + 1, c.infant)
      case IncInfant => d == PassengerCounts(c.adult, c.children, c.infant + 1)
      case DecAdult => d.children == c.children && d.infant == c.infant
                       && d.adult >= 1 && (c.adult > 1 ==> d.adult == c.adult - 1)
      case DecChildren => d.adult == c.adult && d.infant == c.infant
                          && d.children >= 0 && (c.children > 0 ==> d.children == c.children - 1)
      case DecInfant => d.adult == c.adult && d.children == c.children
                        && d.infant >= 0 && (c.infant > 0 ==> d.infant == c.infant - 1)
  {
  }

  /** Every click keeps the counts valid. */
  lemma CounterKeepsValid(f: FormData, op: CounterOp)
    requires ValidCounts(f.passengers)
    ensures ValidCounts(ApplyCounter(f, op).passengers)
  {
  }

  /** From any form whose counts are valid (at least one adult, no negative
      count), any sequence of clicks keeps them valid and leaves the other
      fields alone. */
  lemma {:induction false} CountersStayValid(f: FormData, ops: seq<CounterOp>)
    requires ValidCounts(f.passengers)
    ensures ValidCounts(ApplyCounters(f, ops).passengers)
    ensures ApplyCounters(f, ops).(passengers := f.passengers) == f
    decreases |ops|
  {
    if ops != [] {
      CounterKeepsValid(f, ops[0]);
      CountersStayValid(ApplyCounter(f, ops[0]), ops[1..]);
    }
  }

  /** In particular, from the initial form. */
  lemma InitialCountersValid(ops: seq<CounterOp>)
    ensures ValidCounts(ApplyCounters(InitialForm, ops).passengers)
  {
    CountersStayValid(InitialForm, ops);
  }

  /** The `-` button of a count is disabled at its floor. */
  predicate DecDisabled(f: FormData, op: CounterOp) {
    match op
    case DecAdult => f.passengers.adult <= 1
    case DecChildren => f.passengers.children <= 0
    case DecInfant => f.passengers.infant <= 0
    case _ => false
  }

  /** The increment undone by its decrement. */
  function Undo(op: CounterOp): CounterOp {
    match op
    case IncAdult => DecAdult
    case IncChildren => DecChildren
    case IncInfant => DecInfant
    case DecAdult => IncAdult
    case DecChildren => IncChildren
    case DecInfant => IncInfant
  }

  /** On valid counts a `+` followed by the matching `-` restores the form,
      and so does an enabled `-` followed by the matching `+`. */
  lemma CounterUndo(f: FormData, op: CounterOp)
    requires ValidCounts(f.passengers)
    requires !DecDisabled(f, op)
    ensures ApplyCounter(ApplyCounter(f, op), Undo(op)) == f
  {
  }

  /** On valid counts a disabled `-` would change nothing, so the disabled
      state only hides a no-op. */
  lemma DisabledDecIsNoOp(f: FormData, op: CounterOp)
    requires ValidCounts(f.passengers)
    requires DecDisabled(f, op)
    ensures ApplyCounter(f, op) == f
  {
  }

  /** The count in the passengers button. */
  function TotalPassengers(f: FormData): int {
    f.passengers.adult + f.passengers.children + f.passengers.infant
  }

  /** A `+` raises the total by one and an enabled `-` lowers it by one; the
      total of a reachable form is at least one. */
  lemma TotalTracksCounters(f: FormData, op: CounterOp)
    requires ValidCounts(f.passengers)
    ensures TotalPassengers(f) >= 1
    ensures op in {IncAdult, IncChildren, IncInfant} ==>
              TotalPassengers(ApplyCounter(f, op)) == TotalPassengers(f) + 1
    ensures op in {DecAdult, DecChildren, DecInfant} && !DecDisabled(f, op) ==>
              TotalPassengers(ApplyCounter(f, op)) == TotalPassengers(f) - 1
  {
  }

  // ---------------------------------------------------------------------
  // Other inputs

  /** The tab, select and calendar handlers. A calendar can also clear its
      selection. */
  datatype FormEdit =
    | PickTripType(t: TripType)
    | PickOrigin(code: string)
    | PickDestination(code: string)
    | PickDepartureDate(d: Option<Date>)
    | PickReturnDate(d: Option<Date>)
    | PickClass(k: CabinClass)

  /** Each edit sets exactly its own field; the rest of the form is kept. */
  function ApplyEdit(f: FormData, e: FormEdit): (g: FormData)
    ensures g.passengers == f.passengers
    ensures e.PickTripType? ==> g == f.(tripType := e.t)
    ensures e.PickOrigin? ==> g == f.(origin := e.code)
    ensures e.PickDestination? ==> g == f.(destination := e.code)
    ensures e.PickDepartureDate? ==> g == f.(departureDate := e.d)
    ensures e.PickReturnDate? ==> g == f.(returnDate := e.d)
    ensures e.PickClass? ==> g == f.(cabinClass := e.k)
  {
    match e
    case PickTripType(t) => f.(tripType := t)
    case PickOrigin(code) => f.(origin := code)
    case PickDestination(code) => f.(destination := code)
    case PickDepartureDate(d) => f.(departureDate := d)
    case PickReturnDate(d) => f.(returnDate := d)
    case PickClass(k) => f.(cabinClass := k)
  }

  /** Switching the trip type keeps a return date already picked: the
      picker is hidden, not cleared. */
  lemma TripTypeKeepsReturnDate(f: FormData, t: TripType)
    ensures ApplyEdit(f, PickTripType(t)).returnDate == f.returnDate
  {
  }

  // ---------------------------------------------------------------------
  // Submitting

  /** `handleSubmit`: nothing unless origin, destination and departure date
      are all filled in; otherwise the parameters built from the form, with
      both dates rendered by `fmt`. */
  function HandleSubmit(f: FormData, fmt: Date -> string): (r: Option<SearchParams>)
    ensures r.None? <==> f.origin == "" || f.destination == "" || f.departureDate.None?
    ensures r.Some? ==>
              && r.value.origin == f.origin && r.value.destination == f.destination
              && r.value.departureDate == fmt(f.departureDate.value)
              && r.value.passenger == f.passengers
              && r.value.tripType == f.tripType && r.value.cabinClass == f.cabinClass
    ensures r.Some? ==> (r.value.returnDate.Some? <==> f.returnDate.Some?)
    ensures r.Some? && f.returnDate.Some? ==> r.value.returnDate == Some(fmt(f.returnDate.value))
  {
    if f.origin == "" || f.destination == "" || f.departureDate.None? then None
    else
      var ret := match f.returnDate
        case None => None
        case Some(d) => Some(fmt(d));
      Some(SearchParams(f.origin, f.destination, fmt(f.departureDate.value), ret,
                        f.passengers, f.tripType, f.cabinClass))
  }

  /** Nothing beyond the three fields is checked: the same airport on both
      ends is accepted, and so is a round trip with no return date. */
  lemma SubmitChecksOnlyThreeFields(f: FormData, fmt: Date -> string)
    requires f.origin != "" && f.destination != "" && f.departureDate.Some?
    ensures HandleSubmit(f, fmt).Some?
    ensures f.tripType == RoundTrip && f.returnDate.None? ==>
              HandleSubmit(f, fmt).value.returnDate.None?
  {
  }

  /** A one-way search still carries a return date picked before the trip
      type was switched. */
  lemma OneWayKeepsStaleReturn(f: FormData, fmt: Date -> string, ret: Date)
    requires f.origin != "" && f.destination != "" && f.departureDate.Some?
    ensures var g := ApplyEdit(ApplyEdit(f, PickReturnDate(Some(ret))), PickTripType(OneWay));
      && HandleSubmit(g, fmt).Some?
      && HandleSubmit(g, fmt).value.tripType == OneWay
      && HandleSubmit(g, fmt).value.returnDate == Some(fmt(ret))
  {
  }

  /** The form as submitted from the initial state is refused. */
  lemma InitialFormRefused(fmt: Date -> string)
    ensures HandleSubmit(InitialForm, fmt).None?
  {
  }

  /** The store after a submit: untouched when refused, otherwise only its
      search parameters replaced by the built ones. */
  function SubmitStore(s: BookingState, f: FormData, fmt: Date -> string): (t: BookingState)
    ensures HandleSubmit(f, fmt).None? ==> t == s
    ensures HandleSubmit(f, fmt).Some? ==>
              t == s.(searchParams := HandleSubmit(f, fmt))
  {
    match HandleSubmit(f, fmt)
    case None => s
    case Some(p) => Reduce(s, SetSearchParams(p))
  }
}
