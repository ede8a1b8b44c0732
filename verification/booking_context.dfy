/** The booking store: the records shared by every screen, the closed set of
    actions, the pure transition function over the six-field state, and the
    guarded accessor that fails outside a provider. */
module BookingContext {
  import opened Wrappers
  import Text

  datatype PassengerType = Adult | Child | Infant

  /** The `type` tag as the source spells it. */
  function TypeName(t: PassengerType): string {
    match t
    case Adult => "adult"
    case Child => "child"
    case Infant => "infant"
  }

  /** The tag with its first letter upper-cased; the passenger form's badge
      and every validation message use this same label. */
  function TypeLabel(t: PassengerType): string {
    Text.Capitalize(TypeName(t))
  }

  /** One traveller. `passportNumber` is an optional field of the record. */
  datatype PassengerInfo = PassengerInfo(
    id: string,
    ptype: PassengerType,
    title: string,
    firstName: string,
    lastName: string,
    gender: string,
    dateOfBirth: string,
    country: string,
    email: string,
    phone: string,
    passportNumber: Option<string>)

  /** Seat counts per passenger type; JavaScript numbers, so any integer. */
  datatype PassengerCounts = PassengerCounts(adult: int, children: int, infant: int)

  datatype TripType = OneWay | RoundTrip | MultiCity

  datatype CabinClass = Economy | Business | First

  /** The class tag as the source spells it. */
  function ClassName(c: CabinClass): string {
    match c
    case Economy => "economy"
    case Business => "business"
    case First => "first"
  }

  datatype SearchParams = SearchParams(
    origin: string,
    destination: string,
    departureDate: string,
    returnDate: Option<string>,
    passenger: PassengerCounts,
    tripType: TripType,
    cabinClass: CabinClass)

  datatype FlightResult = FlightResult(
    id: string,
    airline: string,
    airlineLogo: string,
    departureTime: string,
    arrivalTime: string,
    duration: string,
    stops: nat,
    price: real,
    currency: string,
    origin: string,
    destination: string,
    aircraft: string,
    refundable: bool,
    cabinClass: string,
    flightNumber: string)

  datatype BookingState = BookingState(
    searchParams: Option<SearchParams>,
    searchResults: seq<FlightResult>,
    selectedFlight: Option<FlightResult>,
    passengers: seq<PassengerInfo>,
    isLoading: bool,
    error: Option<string>)

  /** The closed action union, plus `Unknown` for any other `type` tag
      reaching the reducer's default branch. */
  datatype BookingAction =
    | SetSearchParams(params: SearchParams)
    | SetSearchResults(results: seq<FlightResult>)
    | SetSelectedFlight(flight: FlightResult)
    | SetPassengers(passengers: seq<PassengerInfo>)
    | SetLoading(loading: bool)
    | SetError(message: Option<string>)
    | ClearBooking
    | Unknown(tag: string)

  const InitialState: BookingState :=
    BookingState(None, [], None, [], false, None)

  /** The six fields of the state, used to say which ones an action may write. */
  datatype Field = SearchParamsField | SearchResultsField | SelectedFlightField
                 | PassengersField | IsLoadingField | ErrorField

  /** Field `f` holds the same value in `s` and `t`. */
  predicate Agree(s: BookingState, t: BookingState, f: Field) {
    match f
    case SearchParamsField => s.searchParams == t.searchParams
    case SearchResultsField => s.searchResults == t.searchResults
    case SelectedFlightField => s.selectedFlight == t.selectedFlight
    case PassengersField => s.passengers == t.passengers
    case IsLoadingField => s.isLoading == t.isLoading
    case ErrorField => s.error == t.error
  }

  /** The fields an action is allowed to change. */
  function Writes(a: BookingAction): set<Field> {
    match a
    case SetSearchParams(_) => {SearchParamsField}
    case SetSearchResults(_) => {SearchResultsField, IsLoadingField}
    case SetSelectedFlight(_) => {SelectedFlightField}
    case SetPassengers(_) => {PassengersField}
    case SetLoading(_) => {IsLoadingField}
    case SetError(_) => {ErrorField, IsLoadingField}
    case ClearBooking => {SearchParamsField, SearchResultsField, SelectedFlightField,
                          PassengersField, IsLoadingField, ErrorField}
    case Unknown(_) => {}
  }

  /** What the written fields hold after the action. */
  predicate Effect(a: BookingAction, r: BookingState) {
    match a
    case SetSearchParams(p) => r.searchParams == Some(p)
    case SetSearchResults(rs) => r.searchResults == rs && !r.isLoading
    case SetSelectedFlight(f) => r.selectedFlight == Some(f)
    case SetPassengers(ps) => r.passengers == ps
    case SetLoading(b) => r.isLoading == b
    case SetError(e) => r.error == e && !r.isLoading
    case ClearBooking => r == InitialState
    case Unknown(_) => true
  }

  /** The reducer. */
  function Reduce(s: BookingState, a: BookingAction): (r: BookingState)
    ensures forall f :: f !in Writes(a) ==> Agree(s, r, f)
    ensures Effect(a, r)
  {
    match a
    case SetSearchParams(p) => s.(searchParams := Some(p))
    case SetSearchResults(rs) => s.(searchResults := rs, isLoading := false)
    case SetSelectedFlight(f) => s.(selectedFlight := Some(f))
    case SetPassengers(ps) => s.(passengers := ps)
    case SetLoading(b) => s.(isLoading := b)
    case SetError(e) => s.(error := e, isLoading := false)
    case ClearBooking => InitialState
    case Unknown(_) => s
  }

  /** The frame and effect of `Reduce` pin the next state down completely:
      any state that keeps the unwritten fields and shows the effect is the
      reducer's result. */
  lemma ContractDeterminesReduce(s: BookingState, a: BookingAction, t: BookingState)
    requires forall f :: f !in Writes(a) ==> Agree(s, t, f)
    requires Effect(a, t)
    ensures t == Reduce(s, a)
  {
    var r := Reduce(s, a);
    assert forall f :: Agree(r, t, f) by {
      forall f ensures Agree(r, t, f) {
        if f !in Writes(a) {
          assert Agree(s, r, f) && Agree(s, t, f);
        }
      }
    }
    assert Agree(r, t, SearchParamsField) && Agree(r, t, SearchResultsField);
    assert Agree(r, t, SelectedFlightField) && Agree(r, t, PassengersField);
    assert Agree(r, t, IsLoadingField) && Agree(r, t, ErrorField);
  }

  /** The initial state is empty: no parameters, results, flight, passengers,
      not loading and no error. */
  lemma InitialStateIsEmpty()
    ensures InitialState.searchParams.None? && InitialState.searchResults == []
    ensures InitialState.selectedFlight.None? && InitialState.passengers == []
    ensures !InitialState.isLoading && InitialState.error.None?
  {
  }

  /** Clearing yields the initial state from anywhere, so clearing twice is
      clearing once. */
  lemma ClearIdempotent(s: BookingState)
    ensures Reduce(s, ClearBooking) == InitialState
    ensures Reduce(Reduce(s, ClearBooking), ClearBooking) == Reduce(s, ClearBooking)
  {
  }

  /** An action outside the known variants leaves the state as it was. */
  lemma UnknownIsNoOp(s: BookingState, tag: string)
    ensures Reduce(s, Unknown(tag)) == s
  {
  }

  /** Replaying a list of actions in order, as successive `dispatch` calls do. */
  function Dispatch(s: BookingState, actions: seq<BookingAction>): BookingState
    decreases |actions|
  {
    if actions == [] then s else Dispatch(Reduce(s, actions[0]), actions[1..])
  }

  /** Dispatching two batches is dispatching their concatenation. */
  lemma {:induction false} DispatchAppend(s: BookingState, xs: seq<BookingAction>, ys: seq<BookingAction>)
    ensures Dispatch(s, xs + ys) == Dispatch(Dispatch(s, xs), ys)
    decreases |xs|
  {
    if xs != [] {
      assert (xs + ys)[1..] == xs[1..] + ys;
      DispatchAppend(Reduce(s, xs[0]), xs[1..], ys);
    } else {
      assert xs + ys == ys;
    }
  }

  /** A mounted provider, exposing its current state. */
  datatype Context = Context(state: BookingState)

  const MissingProviderMessage: string := "useBooking must be used within a BookingProvider"

  /** Reading the store: fails with the configuration error when no
      provider is mounted above the caller. */
  function UseBooking(provider: Option<Context>): (r: Result<Context>)
    ensures r.Failure? <==> provider.None?
    ensures r.Failure? ==> r.error == MissingProviderMessage
    ensures r.Success? ==> r.value == provider.value
  {
    match provider
    case None => Failure(MissingProviderMessage)
    case Some(c) => Success(c)
  }
}
