# Flight-booking front end: a verified model of its logic

This project models, in Dafny, the logic under a flight-booking web front end. The front end is built with Next.js and React. Its screens are a search form, a results page with sorting and filter widgets, and a booking page. The booking page collects the passengers' details and shows a fare summary and a progress bar. Every screen shares one booking store: a six-field record changed only through a closed set of actions by a pure reducer.

The model keeps what is deterministic in those screens:

- The store: its records, its actions, the reducer with exact frame conditions, the ordered replay of dispatches, and the accessor that fails outside a provider (`BookingContext`).
- The booking page (`BookingPage`):
  - the passenger roster built from the searched seat counts;
  - the by-id partial update;
  - the collect-all validation with its message texts;
  - the gate that moves to the next step only without errors.
- The passenger form: its badge, its one-field edits, and the adult-only passport input (`PassengerForm`).
- The fare summary, in exact rational arithmetic (`BookingSummary`).
- The results page (`SearchPage`):
  - the mock flight generator, with its random draws as parameters;
  - the sorted view, proved to be a permutation ordered by the chosen key;
  - the sort toggle;
  - the actions a search dispatches.
- The search form: its counters and their clamps, its submit guard and the parameters it builds (`SearchForm`).
- The filter panel's checkbox lists and reset (`SearchFilters`).
- A result card's labels and its booking action (`FlightCard`).
- The three-step progress bar (`BookingProgress`).

`Text` supplies decimal printing and parsing, `parseInt`-style leading-digit parsing, capitalisation and the lexicographic string order. `Wrappers` supplies `Option` and `Result`.

The model keeps some behaviours of the code that a reader might not expect:

- A validation message numbers the passenger by its 1-based position in the whole roster. It does not number it within its type.
- A search built from the form carries a return date whenever one is held in the form, whatever the trip type.
- A round trip with no return date is submitted.
- The results page never shows its loading indicator while a search is outstanding. The search turns loading on and then clears the error before the request is sent, and clearing the error also turns loading off.
- The fare summary has no infant block. Whenever there are infants, the listed block taxes fall short of the total tax by 12% of the infant fare.

## Model

| member | source | states |
|---|---|---|
| BookingContext.InitialStateIsEmpty | contexts/BookingContext.tsx:69-76 | The initial store has no search parameters, no results, no selected flight, no passengers, is not loading and has no error. |
| BookingContext.Reduce | contexts/BookingContext.tsx:78-97 | Every field outside the action's write set keeps its value. The written fields show the action's effect: parameters, selection and passengers take the payload; results take the payload and loading becomes false; loading takes the payload; the error takes the message (possibly none) and loading becomes false; clearing yields the initial state. |
| BookingContext.ContractDeterminesReduce | contexts/BookingContext.tsx:78-97 | Any state that keeps the unwritten fields and shows the effect equals the reducer's result, so the frame-and-effect contract describes the reducer completely. |
| BookingContext.ClearIdempotent | contexts/BookingContext.tsx:92-93 | Clearing yields the initial state from any state, and clearing twice equals clearing once. |
| BookingContext.UnknownIsNoOp | contexts/BookingContext.tsx:94-95 | An action with any other type tag leaves the state unchanged. |
| BookingContext.DispatchAppend | contexts/BookingContext.tsx:105 | Replaying two batches of dispatches in turn equals replaying their concatenation. |
| BookingContext.UseBooking | contexts/BookingContext.tsx:114-120 | Reading the store fails exactly when no provider is mounted, with the message "useBooking must be used within a BookingProvider"; otherwise it returns the provider's context. |
| BookingPage.BuildRoster | app/booking/page.tsx:33-89 | The three loops produce adults, then children, then infants, one fresh record per seat. A non-positive count adds none. The length is the sum of the clamped counts. |
| BookingPage.RosterShape | app/booking/page.tsx:36-86 | Position k of the roster holds the fresh record of its type whose index is k's offset inside that type's block. |
| BookingPage.RosterSeeding | app/booking/page.tsx:40-86 | In a fresh roster every text field is empty, except the email at position 0, which is non-empty exactly when there is an adult. Adults carry an empty passport number; children and infants carry none. |
| BookingPage.FreshIdsDistinct | app/booking/page.tsx:42-75 | Ids `adult-k`, `child-k` and `infant-k` differ whenever the type or the index differs. |
| BookingPage.RosterIdsDistinct | app/booking/page.tsx:36-86 | All ids of a fresh roster are pairwise distinct. |
| BookingPage.EnterBookingPage | app/booking/page.tsx:23-31 | The page redirects to search exactly when the store lacks a selected flight or search parameters. Otherwise it shows the roster built from the searched counts. |
| BookingPage.Merge | app/booking/page.tsx:93 | Every field the partial supplies takes the partial's value, and every field it does not supply keeps the record's value. An empty partial returns the record unchanged. |
| BookingPage.MergeIdempotent | app/booking/page.tsx:93 | Merging the same partial twice equals merging it once. |
| BookingPage.UpdatePassenger | app/booking/page.tsx:91-95 | The roster keeps its length and order. A record whose id matches gets the partial merged in; every other record is identical. |
| BookingPage.UpdateAbsentId | app/booking/page.tsx:91-95 | An id that is on no record leaves the roster unchanged. |
| BookingPage.UpdateIdempotent | app/booking/page.tsx:91-95 | Applying the same update twice equals applying it once. |
| BookingPage.PassengersOfType | app/booking/page.tsx:158-160 | The filtered list holds only records of the type, and every record of that type on the roster. |
| BookingPage.PassengersOfTypeAppend | app/booking/page.tsx:158-160 | Filtering by type distributes over concatenation, so roster order is kept. |
| BookingPage.RosterOfType | app/booking/page.tsx:158-160 | On a fresh roster, the list for one type is exactly that type's block of fresh records. |
| BookingPage.RosterByType | app/booking/page.tsx:158-160 | The adult, child and infant lists, concatenated, give back the fresh roster. |
| BookingPage.CheckField | app/booking/page.tsx:104-131 | One check appends its message exactly when its field fails and leaves the earlier messages in place. |
| BookingPage.CheckPassenger | app/booking/page.tsx:101-131 | A passenger's messages come in the order title, first name, last name, gender, date of birth, country, email, passport. |
| BookingPage.ValidatePassengers | app/booking/page.tsx:97-135 | Every passenger is visited in roster order, with no early exit. The result is the concatenation of each passenger's messages at its roster position. |
| BookingPage.PassengerErrorsEmpty | app/booking/page.tsx:104-131 | A passenger produces no message exactly when it passes all eight checks. The email check applies only at position 0 and the passport check only to adults. |
| BookingPage.ErrorsEmptyIffComplete | app/booking/page.tsx:97-135 | Validation returns no messages exactly when every passenger passes every check at its position. |
| BookingPage.MessagesPrefixed | app/booking/page.tsx:101-102 | Every message about the passenger at position i starts with its capitalised type, a space, the number i+1 and ": ". |
| BookingPage.FreshMissingCount | app/booking/page.tsx:40-131 | A fresh record fails the six common checks, plus the passport check when it is an adult, plus the email check at position 0 when that email is empty. |
| BookingPage.FreshRosterErrorCount | app/booking/page.tsx:40-131 | With at least one adult, an unedited roster yields exactly 6·(a+c+i) + a messages. |
| BookingPage.HandleContinue | app/booking/page.tsx:137-152 | With errors, the page and the store are unchanged and there is one error toast per message, in order. Without errors, the store receives the roster through SET_PASSENGERS, the step becomes 1, and one success toast appears. |
| PassengerForm.TypeLabels | components/booking/PassengerForm.tsx:52-54 | The badge labels are "Adult", "Child" and "Infant": the type tag with its first letter upper-cased, the same label the validation messages use. |
| PassengerForm.BadgeColor | components/booking/PassengerForm.tsx:39-50 | Any tag other than adult, child or infant gets the gray fallback colour. |
| PassengerForm.BadgeColorsDistinct | components/booking/PassengerForm.tsx:39-50 | The three types get three different colours, none of them the fallback. |
| PassengerForm.EditPatch | components/booking/PassengerForm.tsx:79-215 | Each input's handler emits a partial that supplies exactly one field, the edited one. |
| PassengerForm.MergeKeepsUnsupplied | components/booking/PassengerForm.tsx:79-215 | Merging a partial keeps every field it does not supply. |
| PassengerForm.OneEditOneField | components/booking/PassengerForm.tsx:79-215 | On a roster with distinct ids, one edit changes only the edited field of the one record with that id. |
| PassengerForm.EditTakesValue | components/booking/PassengerForm.tsx:79-215 | After an edit, the edited field holds the typed value. |
| PassengerForm.FreshPassportInput | components/booking/PassengerForm.tsx:206-218 | On a fresh roster, the passport input appears exactly on records that carry a passport field, and it shows an empty value. |
| PassengerForm.PassportEditDecidesCheck | components/booking/PassengerForm.tsx:206-218 | After typing into an adult's passport input, the input shows the typed text. The passport check then fails exactly when that text is empty. |
| BookingSummary.SubtotalFormula | components/booking/BookingSummary.tsx:17-22 | subtotal = base·adult + 0.75·base·children + 0.1·base·infant. |
| BookingSummary.TotalsFormula | components/booking/BookingSummary.tsx:23-151 | Gross is 1.12 times the subtotal, the offer is 0.95 times gross, and so the offer is 1.064 times the subtotal. |
| BookingSummary.DiscountNotApplied | components/booking/BookingSummary.tsx:138-151 | The discount line is 0.1·base whatever the counts. It is not subtracted: for one adult on a positive fare, the offer differs from gross minus the discount. |
| BookingSummary.Breakdown | components/booking/BookingSummary.tsx:96-122 | An adult block appears iff adult > 0 and a child block iff children > 0, adult first; there is never an infant block. Each block shows its type's fare and 12% of it as tax. |
| BookingSummary.BreakdownTaxesAddUp | components/booking/BookingSummary.tsx:17-122 | The listed block taxes plus 12% of the infant fare equal the total taxes exactly. |
| BookingSummary.FaresLinear | components/booking/BookingSummary.tsx:18-20 | Each type's fare is linear in its own count: scaling the count by any integer scales the fare by it, and the fare of a sum of counts is the sum of the fares. |
| BookingSummary.TotalsMonotone | components/booking/BookingSummary.tsx:17-24 | For a non-negative base, the subtotal, gross and offer never decrease when any count grows. |
| BookingSummary.WorkedExample | components/booking/BookingSummary.tsx:17-151 | Base 110 with 2 adults and 1 child: subtotal 302.5, taxes 36.3, gross 338.8, offer 321.86, discount line 11. |
| SearchPage.MockFlight | app/search/page.tsx:67-83 | The first flight has 0 stops and every other flight 1 or 2. The price of flight k lies in [110+50k, 309+50k]. The flight is refundable iff its draw exceeds 0.5. |
| SearchPage.GenerateMockFlights | app/search/page.tsx:58-84 | There are exactly five flights, in carrier order SQ, QR, EK, SV, TK, with ids `flight-0` to `flight-4`. Flight numbers are the code followed by 100+k. Origin, destination and class come from the parameters; no price is negative. |
| SearchPage.MockIdsDistinct | app/search/page.tsx:68 | The five generated ids are pairwise distinct. |
| SearchPage.MockHourKey | app/search/page.tsx:74-96 | Reading the leading hour of flight k's duration gives 3+k. |
| SearchPage.MockDurationsIncrease | app/search/page.tsx:74-96 | The duration sort key strictly increases along the generated list. |
| SearchPage.MockDeparturesIncrease | app/search/page.tsx:72-100 | The departure strings strictly increase in lexicographic order along the generated list. |
| SearchPage.PrecedesTotal | app/search/page.tsx:86-111 | For any two flights, the comparator lets one of them come first under every key and direction. |
| SearchPage.PrecedesTransitive | app/search/page.tsx:86-111 | The comparator's order is transitive under every key and direction. |
| SearchPage.Insert | app/search/page.tsx:86-111 | Inserting adds exactly the one flight: the result's multiset is the input's plus it. |
| SearchPage.InsertSorted | app/search/page.tsx:86-111 | Inserting into a list sorted by the comparator keeps it sorted. |
| SearchPage.SortResults | app/search/page.tsx:86-111 | The sorted view is a permutation of the stored results. It is non-decreasing in the chosen key (price, leading hour of the duration, or departure string) for ascending order and non-increasing for descending order. |
| SearchPage.ReversedAscIsDesc | app/search/page.tsx:106-110 | A list sorted ascending by a key, read backwards, is sorted descending by that key. |
| SearchPage.ToggleSort | app/search/page.tsx:113-120 | The clicked key becomes the sort key. Clicking the current key flips the direction; clicking another key selects it ascending. |
| SearchPage.ToggleTwiceRestores | app/search/page.tsx:113-120 | Clicking the current key twice restores the sort state. |
| SearchPage.InitialView | app/search/page.tsx:17-18 | The page opens sorted by price ascending: every result once, in non-decreasing price. From there a click on price gives descending price, and a click on another key gives that key ascending. |
| SearchPage.ToggleNewKeyTwice | app/search/page.tsx:113-120 | Clicking a new key twice leaves it selected in descending order. |
| SearchPage.SearchActions | app/search/page.tsx:26-56 | Without parameters nothing is dispatched. Otherwise exactly three actions: loading-on, then error-cleared, then the mock list generated from the current parameters, whatever the fetch outcome. |
| SearchPage.SearchFlightsOutcome | app/search/page.tsx:26-56 | Whatever the fetch outcome, the final store holds the mock list, is not loading and has no error. Parameters, selection and passengers are untouched. The store is loading after the first dispatch only: after the two dispatches made before the request it is not loading and has no error. |
| SearchPage.SearchWithoutParams | app/search/page.tsx:27 | Without search parameters a search leaves the store unchanged. |
| SearchForm.ClampedDec | components/search/SearchForm.tsx:232-310 | A decrement never goes below its floor and otherwise lowers the count by one. |
| SearchForm.ApplyCounter | components/search/SearchForm.tsx:228-329 | A counter click changes nothing but the passenger counts. |
| SearchForm.CounterEffect | components/search/SearchForm.tsx:228-329 | `+` adds exactly one to its count and leaves the other two alone. `-` lowers its count by one down to its floor (1 adult, 0 children or infants) and leaves the other two alone. |
| SearchForm.CountersStayValid | components/search/SearchForm.tsx:44-329 | Any sequence of clicks from valid counts keeps at least one adult and no negative count, and changes no other field. |
| SearchForm.InitialCountersValid | components/search/SearchForm.tsx:38-329 | From the initial form (one adult), any sequence of clicks keeps the counts valid. |
| SearchForm.CounterUndo | components/search/SearchForm.tsx:228-329 | On valid counts, `+` followed by `-` restores the form. So does an enabled `-` followed by `+`. |
| SearchForm.DisabledDecIsNoOp | components/search/SearchForm.tsx:232-313 | On valid counts, a disabled `-` would change nothing. |
| SearchForm.TotalTracksCounters | components/search/SearchForm.tsx:73 | The total of a reachable form is at least 1. Each `+` raises it by one and each enabled `-` lowers it by one. |
| SearchForm.ApplyEdit | components/search/SearchForm.tsx:86-196 | Each tab, select or calendar edit sets exactly its own field (trip type, origin, destination, departure date, return date or cabin class) to the picked value and keeps every other field, the passenger counts included. |
| SearchForm.TripTypeKeepsReturnDate | components/search/SearchForm.tsx:86-201 | Switching the trip type keeps a return date already picked. |
| SearchForm.HandleSubmit | components/search/SearchForm.tsx:52-71 | Submission yields nothing exactly when origin, destination or departure date is missing. Otherwise origin, destination, counts, trip type and class are copied and the departure date is formatted. A return date is present iff one is held, formatted the same way. |
| SearchForm.SubmitChecksOnlyThreeFields | components/search/SearchForm.tsx:55-57 | Nothing else is checked: any form with the three fields set is submitted, including a round trip without a return date. |
| SearchForm.OneWayKeepsStaleReturn | components/search/SearchForm.tsx:59-67 | A return date picked before switching to one-way is still sent with the one-way search. |
| SearchForm.InitialFormRefused | components/search/SearchForm.tsx:38-57 | The initial form (round trip, empty airports, no dates, 1/0/0, economy) is refused. |
| SearchForm.SubmitStore | components/search/SearchForm.tsx:52-71 | A refused submission leaves the store untouched. An accepted one replaces only its search parameters, with the built ones. |
| SearchFilters.Without | components/search/SearchFilters.tsx:33-47 | Unchecking removes every occurrence of the id and keeps every other entry with its multiplicity. |
| SearchFilters.WithoutAppend | components/search/SearchFilters.tsx:33-47 | Unchecking distributes over concatenation, so the relative order of the rest is kept. |
| SearchFilters.WithoutAbsent | components/search/SearchFilters.tsx:33-47 | Unchecking an id that is not listed changes nothing. |
| SearchFilters.Toggle | components/search/SearchFilters.tsx:33-47 | Checking appends the id at the end and keeps the earlier entries in order. Unchecking removes it entirely. The id is listed afterwards iff the box was checked. |
| SearchFilters.CheckThenUncheck | components/search/SearchFilters.tsx:34-37 | Checking an unlisted id and then unchecking it restores the list. |
| SearchFilters.UncheckIdempotent | components/search/SearchFilters.tsx:37 | Unchecking twice equals unchecking once. |
| SearchFilters.HandleStopChange | components/search/SearchFilters.tsx:33-39 | A stop change alters only the stop list. |
| SearchFilters.HandleAirlineChange | components/search/SearchFilters.tsx:41-47 | An airline change alters only the airline list. |
| SearchFilters.SlidePrice | components/search/SearchFilters.tsx:122 | The price range becomes the slider's value, and every other filter is kept. |
| SearchFilters.SlideDuration | components/search/SearchFilters.tsx:143 | The duration range becomes the slider's value, and every other filter is kept. |
| SearchFilters.ResetFilters | components/search/SearchFilters.tsx:49-54 | Reset gives price [100, 2000], no stops, no airlines and duration [2, 24]. |
| SearchFilters.ResetRestoresInitial | components/search/SearchFilters.tsx:13-54 | Reset yields the initial panel from any state, so it is idempotent. |
| FlightCard.StopText | components/search/FlightCard.tsx:24-28 | 0 stops reads "Non Stop", 1 reads "1 Stop", and n ≥ 2 reads "n Stops". |
| FlightCard.StopTextInjective | components/search/FlightCard.tsx:24-28 | Different stop counts get different labels. |
| FlightCard.RefundLabel | components/search/FlightCard.tsx:54 | The badge reads "Partially Refundable" iff the flight is refundable, and "Non Refundable" otherwise. |
| FlightCard.BookFlight | components/search/FlightCard.tsx:19-22 | Booking makes the card's flight the selection and changes nothing else in the store. |
| FlightCard.LastBookingWins | components/search/FlightCard.tsx:19-22 | Booking a second card replaces the first choice. |
| BookingProgress.Render | components/booking/BookingProgress.tsx:8-64 | There are three steps, with ids 0 to 2. Each is completed, current or upcoming as the current step is above, at or below its id. Completed steps show a check and the others the number id+1. A label is highlighted iff its step is not upcoming. Connectors follow steps 0 and 1 only, each highlighted iff the preceding step is completed. |
| BookingProgress.StatusesOrdered | components/booking/BookingProgress.tsx:26-30 | Along the bar the statuses never move backwards, and at most one step is current. |
| BookingProgress.CompletedCount | components/booking/BookingProgress.tsx:26-30 | For a current step s between 0 and 3, the completed steps are exactly those before s. |
| BookingProgress.FirstStepView | components/booking/BookingProgress.tsx:22-62 | At step 0 the first circle is current and shows 1, the others are upcoming, and no connector is lit. |
| Text.PrintedInjective | app/booking/page.tsx:42 | Different numbers print as different decimal strings, which is what makes `${type}-${i}` ids unique. |
| Text.StrLessTransitive | app/search/page.tsx:99-107 | The lexicographic string order used for departure times is transitive. |
| Text.StrLessTotal | app/search/page.tsx:99-107 | Two strings are equal, or one is below the other. |

## Left out

- The network request of a search and its JSON parsing: the response is discarded, so only the outcome is a parameter.
- The `console.error` logging when a search request fails: it has no effect on the store or the screen.
- `Math.random()`: each generated flight's three draws are parameters in [0, 1). `Math.floor(r * n)` is the floor of the exact product.
- date-fns `format` and the calendars' "not before today" rules: dates are opaque values, and their rendering is a function parameter.
- IEEE-754 doubles and `toFixed(2)`: fares are exact rationals, and display rounding is not modelled.
- React plumbing (hooks, effect scheduling, router navigation, toast rendering, context wiring) and the race between overlapping searches. Toasts appear only as returned values.
- The home, header and layout components and the hard-coded itinerary strings: they are presentational.
- Filtering of results: the filter panel's state is never applied to the results, so there is no filtering behaviour.
- SearchPage.SortResults: tie order is not modelled. The source's comparator never reports a tie, so the engine decides the order of equal keys. The model proves permutation and ordering, and it fixes one order among those allowed.
- SearchPage.HourKey: `parseInt` is modelled for text that starts with a digit. A duration with no leading digit reads as "no number", ordered below every number. In the source that is NaN, and its comparisons make the comparator inconsistent. Leading whitespace and signs are not modelled.
- SearchPage.MockFlight: the logo strings are the exact characters in the source file, without re-encoding.
- Text.Capitalize: upper-cases ASCII letters only. The tags it is applied to are ASCII.
- Strings are sequences of code points, not UTF-16 units. Every string compared in the model is ASCII.
- The passengers-button caption ("n Passenger(s)"): it is presentational, and the total it shows is modelled.
- The slider components' own clamping and step rules: they belong to a UI library outside the model.
- The airport lists of the origin and destination selects: origin and destination are arbitrary strings, and the submit guard checks only that they are non-empty.
