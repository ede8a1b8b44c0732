/** The booking page: the passenger roster built from the searched seat
    counts, the by-id partial update, the collect-all validation and the
    "continue only without errors" gate. */
module BookingPage {
  import opened Wrappers
  import opened BookingContext
  import Text

  /** Iterations of `for (let i = 0; i < n; i++)`. */
  function Seats(n: int): nat {
    if n > 0 then n else 0
  }

  const GuestEmail: string := "guest@example.com"

  /** The `k`-th (0-based) fresh record of type `t`: id `<type>-<k>`, every
      text field empty except the first adult's placeholder email, and a
      passport field only on adults. */
  function FreshPassenger(t: PassengerType, k: nat): PassengerInfo {
    PassengerInfo(
      TypeName(t) + "-" + Text.NatToString(k), t, "", "", "", "", "", "",
      if t == Adult && k == 0 then GuestEmail else "",
      "",
      if t == Adult then Some("") else None)
  }

  /** `n` fresh records of one type. */
  function Block(t: PassengerType, n: nat): (b: seq<PassengerInfo>)
    ensures |b| == n
    ensures forall k :: 0 <= k < n ==> b[k] == FreshPassenger(t, k)
  {
    seq(n, k requires 0 <= k => FreshPassenger(t, k))
  }

  /** The roster for the given counts: adults, then children, then infants. */
  function Roster(c: PassengerCounts): seq<PassengerInfo> {
    Block(Adult, Seats(c.adult)) + Block(Child, Seats(c.children)) + Block(Infant, Seats(c.infant))
  }

  /** `initializePassengers`: three loops appending one fresh record per seat. */
  method BuildRoster(c: PassengerCounts) returns (r: seq<PassengerInfo>)
    ensures r == Roster(c)
    ensures |r| == Seats(c.adult) + Seats(c.children) + Seats(c.infant)
  {
    r := [];
    var i := 0;
    while i < c.adult
      invariant 0 <= i <= Seats(c.adult)
      invariant r == Block(Adult, i)
    {
      r := r + [FreshPassenger(Adult, i)];
      i := i + 1;
    }
    var adults := r;
    i := 0;
    while i < c.children
      invariant 0 <= i <= Seats(c.children)
      invariant r == adults + Block(Child, i)
    {
      r := r + [FreshPassenger(Child, i)];
      i := i + 1;
    }
    var grown := r;
    i := 0;
    while i < c.infant
      invariant 0 <= i <= Seats(c.infant)
      invariant r == grown + Block(Infant, i)
    {
      r := r + [FreshPassenger(Infant, i)];
      i := i + 1;
    }
  }

  /** The shape of a fresh roster: its length, the type order, the index of
      each record inside its block, and the seeded fields. */
  lemma RosterShape(c: PassengerCounts)
    ensures |Roster(c)| == Seats(c.adult) + Seats(c.children) + Seats(c.infant)
    ensures forall k :: 0 <= k < Seats(c.adult) ==> Roster(c)[k] == FreshPassenger(Adult, k)
    ensures forall k :: Seats(c.adult) <= k < Seats(c.adult) + Seats(c.children) ==>
              Roster(c)[k] == FreshPassenger(Child, k - Seats(c.adult))
    ensures forall k :: Seats(c.adult) + Seats(c.children) <= k < |Roster(c)| ==>
              Roster(c)[k] == FreshPassenger(Infant, k - Seats(c.adult) - Seats(c.children))
  {
  }

  /** In a fresh roster only roster position 0 has a non-empty email (and
      only when it is an adult); every other text field is empty; adults
      carry an empty passport number and the others none at all. */
  lemma RosterSeeding(c: PassengerCounts, k: nat)
    requires k < |Roster(c)|
    ensures var p := Roster(c)[k];
      && p.title == "" && p.firstName == "" && p.lastName == "" && p.gender == ""
      && p.dateOfBirth == "" && p.country == "" && p.phone == ""
      && (p.email != "" <==> (k == 0 && c.adult > 0))
      && (p.ptype == Adult ==> p.passportNumber == Some(""))
      && (p.ptype != Adult ==> p.passportNumber.None?)
  {
    RosterShape(c);
  }

  /** Ids are distinct because the type prefixes differ in their first letter
      and the printed indices are injective. */
  lemma FreshIdsDistinct(t: PassengerType, j: nat, u: PassengerType, k: nat)
    requires t != u || j != k
    ensures FreshPassenger(t, j).id != FreshPassenger(u, k).id
  {
    var a := FreshPassenger(t, j).id;
    var b := FreshPassenger(u, k).id;
    if a == b {
      assert TypeName(t)[0] == a[0] == b[0] == TypeName(u)[0];
      assert t == u;
      var n := |TypeName(t)| + 1;
      assert a[n..] == Text.NatToString(j);
      assert b[n..] == Text.NatToString(k);
      Text.PrintedInjective(j, k);
    }
  }

  /** Every record of a fresh roster has its own id. */
  lemma RosterIdsDistinct(c: PassengerCounts)
    ensures forall j, k :: 0 <= j < k < |Roster(c)| ==> Roster(c)[j].id != Roster(c)[k].id
  {
    RosterShape(c);
    var na, nc := Seats(c.adult), Seats(c.children);
    forall j, k | 0 <= j < k < |Roster(c)|
      ensures Roster(c)[j].id != Roster(c)[k].id
    {
      var tj := if j < na then Adult else if j < na + nc then Child else Infant;
      var ij: nat := if j < na then j else if j < na + nc then j - na else j - na - nc;
      var tk := if k < na then Adult else if k < na + nc then Child else Infant;
      var ik: nat := if k < na then k else if k < na + nc then k - na else k - na - nc;
      assert Roster(c)[j] == FreshPassenger(tj, ij);
      assert Roster(c)[k] == FreshPassenger(tk, ik);
      FreshIdsDistinct(tj, ij, tk, ik);
    }
  }

  /** The page's reaction to the store: without a selected flight or search
      parameters it redirects to the search screen; otherwise it (re)builds
      the roster from the searched counts. */
  datatype PageEntry = RedirectToSearch | ShowRoster(roster: seq<PassengerInfo>)

  method EnterBookingPage(store: BookingState) returns (e: PageEntry)
    ensures e.RedirectToSearch? <==> (store.selectedFlight.None? || store.searchParams.None?)
    ensures e.ShowRoster? ==> e.roster == Roster(store.searchParams.value.passenger)
  {
    if store.selectedFlight.None? || store.searchParams.None? {
      return RedirectToSearch;
    }
    var r := BuildRoster(store.searchParams.value.passenger);
    return ShowRoster(r);
  }

  /** `Partial<PassengerInfo>`: each field either given or left out. */
  datatype Patch = Patch(
    id: Option<string>,
    ptype: Option<PassengerType>,
    title: Option<string>,
    firstName: Option<string>,
    lastName: Option<string>,
    gender: Option<string>,
    dateOfBirth: Option<string>,
    country: Option<string>,
    email: Option<string>,
    phone: Option<string>,
    passportNumber: Option<string>)

  const EmptyPatch: Patch :=
    Patch(None, None, None, None, None, None, None, None, None, None, None)

  /** `{ ...p, ...data }`: every field the patch supplies takes the patch's
      value, every other field keeps the record's. */
  function Merge(p: PassengerInfo, d: Patch): (m: PassengerInfo)
    ensures d == EmptyPatch ==> m == p
    ensures d.id.Some? ==> m.id == d.id.value
    ensures d.id.None? ==> m.id == p.id
    ensures d.ptype.Some? ==> m.ptype == d.ptype.value
    ensures d.ptype.None? ==> m.ptype == p.ptype
    ensures d.title.Some? ==> m.title == d.title.value
    ensures d.title.None? ==> m.title == p.title
    ensures d.firstName.Some? ==> m.firstName == d.firstName.value
    ensures d.firstName.None? ==> m.firstName == p.firstName
    ensures d.lastName.Some? ==> m.lastName == d.lastName.value
    ensures d.lastName.None? ==> m.lastName == p.lastName
    ensures d.gender.Some? ==> m.gender == d.gender.value
    ensures d.gender.None? ==> m.gender == p.gender
    ensures d.dateOfBirth.Some? ==> m.dateOfBirth == d.dateOfBirth.value
    ensures d.dateOfBirth.None? ==> m.dateOfBirth == p.dateOfBirth
    ensures d.country.Some? ==> m.country == d.country.value
    ensures d.country.None? ==> m.country == p.country
    ensures d.email.Some? ==> m.email == d.email.value
    ensures d.email.None? ==> m.email == p.email
    ensures d.phone.Some? ==> m.phone == d.phone.value
    ensures d.phone.None? ==> m.phone == p.phone
    ensures d.passportNumber.Some? ==> m.passportNumber == d.passportNumber
    ensures d.passportNumber.None? ==> m.passportNumber == p.passportNumber
  {
    PassengerInfo(
      d.id.GetOr(p.id), d.ptype.GetOr(p.ptype), d.title.GetOr(p.title),
      d.firstName.GetOr(p.firstName), d.lastName.GetOr(p.lastName),
      d.gender.GetOr(p.gender), d.dateOfBirth.GetOr(p.dateOfBirth),
      d.country.GetOr(p.country), d.email.GetOr(p.email), d.phone.GetOr(p.phone),
      if d.passportNumber.Some? then d.passportNumber else p.passportNumber)
  }

  /** Merging the same patch twice changes nothing more. */
  lemma MergeIdempotent(p: PassengerInfo, d: Patch)
    ensures Merge(Merge(p, d), d) == Merge(p, d)
  {
  }

  /** `updatePassenger`: merge the patch into every record with the id. */
  function UpdatePassenger(roster: seq<PassengerInfo>, id: string, d: Patch): (r: seq<PassengerInfo>)
    ensures |r| == |roster|
    ensures forall k :: 0 <= k < |r| && roster[k].id != id ==> r[k] == roster[k]
    ensures forall k :: 0 <= k < |r| && roster[k].id == id ==> r[k] == Merge(roster[k], d)
  {
    seq(|roster|, k requires 0 <= k < |roster| =>
      if roster[k].id == id then Merge(roster[k], d) else roster[k])
  }

  /** An id not on the roster leaves it untouched. */
  lemma UpdateAbsentId(roster: seq<PassengerInfo>, id: string, d: Patch)
    requires forall k :: 0 <= k < |roster| ==> roster[k].id != id
    ensures UpdatePassenger(roster, id, d) == roster
  {
  }

  /** Applying the same update twice is applying it once. */
  lemma UpdateIdempotent(roster: seq<PassengerInfo>, id: string, d: Patch)
    ensures UpdatePassenger(UpdatePassenger(roster, id, d), id, d) == UpdatePassenger(roster, id, d)
  {
    var once := UpdatePassenger(roster, id, d);
    var twice := UpdatePassenger(once, id, d);
    forall k | 0 <= k < |roster|
      ensures twice[k] == once[k]
    {
      if roster[k].id == id {
        MergeIdempotent(roster[k], d);
      }
    }
  }

  /** `getPassengersByType`: the records of one type, in roster order. */
  function PassengersOfType(roster: seq<PassengerInfo>, t: PassengerType): (r: seq<PassengerInfo>)
    ensures forall k :: 0 <= k < |r| ==> r[k].ptype == t
    ensures forall p :: p in roster && p.ptype == t ==> p in r
    ensures forall p :: p in r ==> p in roster
  {
    if roster == [] then []
    else (if roster[0].ptype == t then [roster[0]] else []) + PassengersOfType(roster[1..], t)
  }

  lemma {:induction false} PassengersOfTypeAppend(a: seq<PassengerInfo>, b: seq<PassengerInfo>, t: PassengerType)
    ensures PassengersOfType(a + b, t) == PassengersOfType(a, t) + PassengersOfType(b, t)
  {
    if a == [] {
      assert a + b == b;
    } else {
      assert (a + b)[1..] == a[1..] + b;
      PassengersOfTypeAppend(a[1..], b, t);
    }
  }

  lemma {:induction false} PassengersOfBlock(t: PassengerType, n: nat, u: PassengerType)
    ensures PassengersOfType(Block(t, n), u) == if t == u then Block(t, n) else []
  {
    if n > 0 {
      assert Block(t, n) == Block(t, n - 1) + [FreshPassenger(t, n - 1)];
      PassengersOfBlock(t, n - 1, u);
      PassengersOfTypeAppend(Block(t, n - 1), [FreshPassenger(t, n - 1)], u);
      assert PassengersOfType([FreshPassenger(t, n - 1)], u)
          == if t == u then [FreshPassenger(t, n - 1)] else [];
    }
  }

  /** The number of seats of type `t`. */
  function SeatsOf(c: PassengerCounts, t: PassengerType): nat {
    match t
    case Adult => Seats(c.adult)
    case Child => Seats(c.children)
    case Infant => Seats(c.infant)
  }

  /** On a fresh roster the list of one type the page renders is exactly
      that type's block. */
  lemma RosterOfType(c: PassengerCounts, t: PassengerType)
    ensures PassengersOfType(Roster(c), t) == Block(t, SeatsOf(c, t))
  {
    var a, ch, i := Block(Adult, Seats(c.adult)), Block(Child, Seats(c.children)), Block(Infant, Seats(c.infant));
    PassengersOfTypeAppend(a + ch, i, t);
    PassengersOfTypeAppend(a, ch, t);
    PassengersOfBlock(Adult, Seats(c.adult), t);
    PassengersOfBlock(Child, Seats(c.children), t);
    PassengersOfBlock(Infant, Seats(c.infant), t);
  }

  /** Rendering the adult, child and infant lists one after the other shows
      a fresh roster in its own order. */
  lemma RosterByType(c: PassengerCounts)
    ensures PassengersOfType(Roster(c), Adult) + PassengersOfType(Roster(c), Child)
            + PassengersOfType(Roster(c), Infant) == Roster(c)
  {
    RosterOfType(c, Adult);
    RosterOfType(c, Child);
    RosterOfType(c, Infant);
  }

  // ---------------------------------------------------------------------
  // Validation

  /** The checked fields; their messages are emitted in this order. */
  datatype RequiredField = Title | FirstName | LastName | Gender | DateOfBirth
                         | Country | Email | Passport

  function FieldLabel(f: RequiredField): string {
    match f
    case Title => "Title"
    case FirstName => "First name"
    case LastName => "Last name"
    case Gender => "Gender"
    case DateOfBirth => "Date of birth"
    case Country => "Country"
    case Email => "Email"
    case Passport => "Passport number"
  }

  /** Whether the record at roster position `index` fails the check of `f`:
      six fields for everyone, the email only at position 0, the passport
      only for adults (an absent passport counts as empty). */
  predicate IsMissing(p: PassengerInfo, index: nat, f: RequiredField) {
    match f
    case Title => p.title == ""
    case FirstName => p.firstName == ""
    case LastName => p.lastName == ""
    case Gender => p.gender == ""
    case DateOfBirth => p.dateOfBirth == ""
    case Country => p.country == ""
    case Email => index == 0 && p.email == ""
    case Passport => p.ptype == Adult && (p.passportNumber.None? || p.passportNumber.value == "")
  }

  /** The text every message about the passenger at `index` starts with. */
  function MessagePrefix(p: PassengerInfo, index: nat): string {
    TypeLabel(p.ptype) + " " + Text.NatToString(index + 1) + ": "
  }

  /** `<Label> <position>: <field> is required`, the position 1-based over
      the whole roster. */
  function Message(p: PassengerInfo, index: nat, f: RequiredField): string {
    MessagePrefix(p, index) + FieldLabel(f) + " is required"
  }

  /** The message for `f` if that check fails, nothing otherwise. */
  function Check(p: PassengerInfo, index: nat, f: RequiredField): seq<string> {
    if IsMissing(p, index, f) then [Message(p, index, f)] else []
  }

  /** The messages for one passenger, in the fixed field order. */
  function PassengerErrors(p: PassengerInfo, index: nat): seq<string> {
    Check(p, index, Title) + Check(p, index, FirstName) + Check(p, index, LastName)
    + Check(p, index, Gender) + Check(p, index, DateOfBirth) + Check(p, index, Country)
    + Check(p, index, Email) + Check(p, index, Passport)
  }

  /** The messages for the first `n` passengers, passenger by passenger. */
  function ErrorsUpTo(roster: seq<PassengerInfo>, n: nat): seq<string>
    requires n <= |roster|
  {
    if n == 0 then [] else ErrorsUpTo(roster, n - 1) + PassengerErrors(roster[n - 1], n - 1)
  }

  /** One `if (!field) errors.push(...)` step. */
  method CheckField(p: PassengerInfo, index: nat, f: RequiredField, errors: seq<string>)
    returns (errors': seq<string>)
    ensures errors' == errors + Check(p, index, f)
  {
    errors' := errors;
    if IsMissing(p, index, f) {
      errors' := errors' + [Message(p, index, f)];
    }
  }

  /** One passenger's eight checks, in source order. */
  method CheckPassenger(p: PassengerInfo, index: nat) returns (mine: seq<string>)
    ensures mine == PassengerErrors(p, index)
  {
    mine := CheckField(p, index, Title, []);
    assert mine == Check(p, index, Title);
    mine := CheckField(p, index, FirstName, mine);
    mine := CheckField(p, index, LastName, mine);
    mine := CheckField(p, index, Gender, mine);
    mine := CheckField(p, index, DateOfBirth, mine);
    mine := CheckField(p, index, Country, mine);
    mine := CheckField(p, index, Email, mine);
    mine := CheckField(p, index, Passport, mine);
  }

  /** `validatePassengers`: visits every passenger and appends a message for
      each failed check, never stopping early. */
  method ValidatePassengers(roster: seq<PassengerInfo>) returns (errors: seq<string>)
    ensures errors == ErrorsUpTo(roster, |roster|)
  {
    errors := [];
    var index := 0;
    while index < |roster|
      invariant 0 <= index <= |roster|
      invariant errors == ErrorsUpTo(roster, index)
    {
      var mine := CheckPassenger(roster[index], index);
      errors := errors + mine;
      index := index + 1;
    }
  }

  /** The record at position `index` passes every check. */
  predicate Complete(p: PassengerInfo, index: nat) {
    forall f :: !IsMissing(p, index, f)
  }

  lemma PassengerErrorsEmpty(p: PassengerInfo, index: nat)
    ensures PassengerErrors(p, index) == [] <==> Complete(p, index)
  {
    if PassengerErrors(p, index) == [] {
      forall f ensures !IsMissing(p, index, f) {
        assert |Check(p, index, f)| == 0;
      }
    }
  }

  /** Validation reports nothing exactly when every passenger passes every
      check at its roster position. */
  lemma {:induction false} ErrorsEmptyIffComplete(roster: seq<PassengerInfo>, n: nat)
    requires n <= |roster|
    ensures ErrorsUpTo(roster, n) == [] <==> forall k :: 0 <= k < n ==> Complete(roster[k], k)
  {
    if n > 0 {
      ErrorsEmptyIffComplete(roster, n - 1);
      PassengerErrorsEmpty(roster[n - 1], n - 1);
    }
  }

  lemma CheckPrefixed(p: PassengerInfo, index: nat, f: RequiredField, m: string)
    requires m in Check(p, index, f)
    ensures MessagePrefix(p, index) <= m
  {
    assert m == MessagePrefix(p, index) + (FieldLabel(f) + " is required");
  }

  /** Each message about the passenger at `index` starts with its capitalised
      type and its 1-based roster position. */
  lemma MessagesPrefixed(p: PassengerInfo, index: nat, m: string)
    requires m in PassengerErrors(p, index)
    ensures MessagePrefix(p, index) <= m
  {
    forall f | m in Check(p, index, f) ensures MessagePrefix(p, index) <= m {
      CheckPrefixed(p, index, f, m);
    }
  }

  /** The number of failed checks of one passenger. */
  function MissingCount(p: PassengerInfo, index: nat): nat {
    |PassengerErrors(p, index)|
  }

  /** Error count of a fresh record at position `k` of a fresh roster: the six
      common fields, the passport for an adult, the email at position 0 when
      it is still empty. */
  lemma FreshMissingCount(c: PassengerCounts, k: nat)
    requires k < |Roster(c)|
    ensures MissingCount(Roster(c)[k], k) == 6 + (if Roster(c)[k].ptype == Adult then 1 else 0)
                                             + (if k == 0 && Roster(c)[k].email == "" then 1 else 0)
  {
    RosterSeeding(c, k);
  }

  lemma {:induction false} FreshPrefixErrorCount(c: PassengerCounts, n: nat)
    requires c.adult >= 1
    requires n <= |Roster(c)|
    ensures |ErrorsUpTo(Roster(c), n)| == 6 * n + (if n < c.adult then n else c.adult)
  {
    if n > 0 {
      FreshPrefixErrorCount(c, n - 1);
      FreshMissingCount(c, n - 1);
      RosterShape(c);
      RosterSeeding(c, 0);
    }
  }

  /** An unedited roster with at least one adult yields one message per
      mandatory field per passenger plus one passport message per adult. */
  lemma FreshRosterErrorCount(c: PassengerCounts)
    requires c.adult >= 1
    ensures |ErrorsUpTo(Roster(c), |Roster(c)|)| == 6 * |Roster(c)| + c.adult
  {
    FreshPrefixErrorCount(c, |Roster(c)|);
  }

  /** A notification raised by the page. */
  datatype Toast = ErrorToast(text: string) | SuccessToast(text: string)

  const SavedMessage: string := "Booking details saved successfully!"

  /** The page's local state next to the store. */
  datatype PageState = PageState(store: BookingState, passengers: seq<PassengerInfo>, currentStep: int)

  /** `handleContinue`: with errors, one error toast each and nothing else;
      without, the roster goes to the store and the step becomes 1. */
  method HandleContinue(page: PageState) returns (next: PageState, toasts: seq<Toast>)
    ensures ErrorsUpTo(page.passengers, |page.passengers|) != [] ==>
              next == page && |toasts| == |ErrorsUpTo(page.passengers, |page.passengers|)|
    ensures ErrorsUpTo(page.passengers, |page.passengers|) != [] ==>
              forall k :: 0 <= k < |toasts| ==>
                toasts[k] == ErrorToast(ErrorsUpTo(page.passengers, |page.passengers|)[k])
    ensures ErrorsUpTo(page.passengers, |page.passengers|) == [] ==>
              next.store == Reduce(page.store, SetPassengers(page.passengers))
              && next.passengers == page.passengers && next.currentStep == 1
              && toasts == [SuccessToast(SavedMessage)]
  {
    var errors := ValidatePassengers(page.passengers);
    if |errors| > 0 {
      toasts := seq(|errors|, k requires 0 <= k < |errors| => ErrorToast(errors[k]));
      next := page;
      return;
    }
    var store := Reduce(page.store, SetPassengers(page.passengers));
    toasts := [SuccessToast(SavedMessage)];
    next := PageState(store, page.passengers, 1);
  }
}
