/** The per-passenger form: its badge, its single-field edit handlers and the
    adult-only passport input. */
module PassengerForm {
  import opened Wrappers
  import opened BookingContext
  import opened BookingPage

  /** The badge label is the capitalised type tag. */
  lemma TypeLabels()
    ensures TypeLabel(Adult) == "Adult"
    ensures TypeLabel(Child) == "Child"
    ensures TypeLabel(Infant) == "Infant"
  {
    assert TypeName(Adult)[1..] == "dult";
    assert TypeName(Child)[1..] == "hild";
    assert TypeName(Infant)[1..] == "nfant";
  }

  const GrayBadge: string := "bg-gray-100 text-gray-800"

  /** `getBadgeColor` on the runtime `type` string. */
  function BadgeColor(tag: string): (color: string)
    ensures tag !in {"adult", "child", "infant"} ==> color == GrayBadge
  {
    if tag == "adult" then "bg-blue-100 text-blue-800"
    else if tag == "child" then "bg-green-100 text-green-800"
    else if tag == "infant" then "bg-purple-100 text-purple-800"
    else GrayBadge
  }

  /** The three passenger types get three different colours, none of them
      the fallback. */
  lemma BadgeColorsDistinct(t: PassengerType, u: PassengerType)
    ensures BadgeColor(TypeName(t)) != GrayBadge
    ensures t != u ==> BadgeColor(TypeName(t)) != BadgeColor(TypeName(u))
  {
    assert "bg-blue-100 text-blue-800"[3] == 'b';
    assert "bg-green-100 text-green-800"[3] == 'g';
    assert "bg-purple-100 text-purple-800"[3] == 'p';
  }

  /** One input of the form, carrying the new value. */
  datatype FieldEdit =
    | EditTitle(v: string) | EditFirstName(v: string) | EditLastName(v: string)
    | EditGender(v: string) | EditDateOfBirth(v: string) | EditCountry(v: string)
    | EditEmail(v: string) | EditPhone(v: string) | EditPassport(v: string)

  /** The fields a patch supplies. */
  datatype PatchField = IdField | TypeField | TitleField | FirstNameField | LastNameField
                      | GenderField | DateOfBirthField | CountryField | EmailField
                      | PhoneField | PassportField

  function Supplied(d: Patch): set<PatchField> {
    (if d.id.Some? then {IdField} else {})
    + (if d.ptype.Some? then {TypeField} else {})
    + (if d.title.Some? then {TitleField} else {})
    + (if d.firstName.Some? then {FirstNameField} else {})
    + (if d.lastName.Some? then {LastNameField} else {})
    + (if d.gender.Some? then {GenderField} else {})
    + (if d.dateOfBirth.Some? then {DateOfBirthField} else {})
    + (if d.country.Some? then {CountryField} else {})
    + (if d.email.Some? then {EmailField} else {})
    + (if d.phone.Some? then {PhoneField} else {})
    + (if d.passportNumber.Some? then {PassportField} else {})
  }

  /** The field an edit targets. */
  function Target(e: FieldEdit): PatchField {
    match e
    case EditTitle(_) => TitleField
    case EditFirstName(_) => FirstNameField
    case EditLastName(_) => LastNameField
    case EditGender(_) => GenderField
    case EditDateOfBirth(_) => DateOfBirthField
    case EditCountry(_) => CountryField
    case EditEmail(_) => EmailField
    case EditPhone(_) => PhoneField
    case EditPassport(_) => PassportField
  }

  /** The partial each input's handler passes to `onUpdate`: exactly one
      field, the edited one. */
  function EditPatch(e: FieldEdit): (d: Patch)
    ensures Supplied(d) == {Target(e)}
  {
    match e
    case EditTitle(v) => EmptyPatch.(title := Some(v))
    case EditFirstName(v) => EmptyPatch.(firstName := Some(v))
    case EditLastName(v) => EmptyPatch.(lastName := Some(v))
    case EditGender(v) => EmptyPatch.(gender := Some(v))
    case EditDateOfBirth(v) => EmptyPatch.(dateOfBirth := Some(v))
    case EditCountry(v) => EmptyPatch.(country := Some(v))
    case EditEmail(v) => EmptyPatch.(email := Some(v))
    case EditPhone(v) => EmptyPatch.(phone := Some(v))
    case EditPassport(v) => EmptyPatch.(passportNumber := Some(v))
  }

  /** Field `f` of `p` and `q` hold the same value. */
  predicate SameField(p: PassengerInfo, q: PassengerInfo, f: PatchField) {
    match f
    case IdField => p.id == q.id
    case TypeField => p.ptype == q.ptype
    case TitleField => p.title == q.title
    case FirstNameField => p.firstName == q.firstName
    case LastNameField => p.lastName == q.lastName
    case GenderField => p.gender == q.gender
    case DateOfBirthField => p.dateOfBirth == q.dateOfBirth
    case CountryField => p.country == q.country
    case EmailField => p.email == q.email
    case PhoneField => p.phone == q.phone
    case PassportField => p.passportNumber == q.passportNumber
  }

  /** Merging a patch keeps every field it does not supply. */
  lemma MergeKeepsUnsupplied(p: PassengerInfo, d: Patch)
    ensures forall f :: f !in Supplied(d) ==> SameField(p, Merge(p, d), f)
  {
  }

  /** One edit on a roster with distinct ids changes one field of one
      passenger: the record with the id gets the new value in the edited
      field, every other field and every other record stay as they were. */
  lemma OneEditOneField(roster: seq<PassengerInfo>, k: nat, e: FieldEdit)
    requires k < |roster|
    requires forall i, j :: 0 <= i < j < |roster| ==> roster[i].id != roster[j].id
    ensures var r := UpdatePassenger(roster, roster[k].id, EditPatch(e));
      && |r| == |roster|
      && (forall j :: 0 <= j < |r| && j != k ==> r[j] == roster[j])
      && (forall f :: f != Target(e) ==> SameField(roster[k], r[k], f))
  {
    var r := UpdatePassenger(roster, roster[k].id, EditPatch(e));
    forall j | 0 <= j < |r| && j != k ensures r[j] == roster[j] {
      if j < k {
        assert roster[j].id != roster[k].id;
      } else {
        assert roster[k].id != roster[j].id;
      }
    }
    MergeKeepsUnsupplied(roster[k], EditPatch(e));
  }

  /** The edited field holds the typed value afterwards. */
  lemma EditTakesValue(p: PassengerInfo, e: FieldEdit)
    ensures var q := Merge(p, EditPatch(e));
      match e
      case EditTitle(v) => q.title == v
      case EditFirstName(v) => q.firstName == v
      case EditLastName(v) => q.lastName == v
      case EditGender(v) => q.gender == v
      case EditDateOfBirth(v) => q.dateOfBirth == v
      case EditCountry(v) => q.country == v
      case EditEmail(v) => q.email == v
      case EditPhone(v) => q.phone == v
      case EditPassport(v) => q.passportNumber == Some(v)
  {
  }

  /** The passport input is rendered for adults only. */
  predicate ShowsPassportInput(p: PassengerInfo) {
    p.ptype == Adult
  }

  /** The value shown in the passport input: `passportNumber || ''`. */
  function PassportDisplay(p: PassengerInfo): string {
    p.passportNumber.GetOr("")
  }

  /** On a fresh roster the passport input appears exactly on the records
      that carry a passport field, and it shows an empty value. */
  lemma FreshPassportInput(c: PassengerCounts, k: nat)
    requires k < |Roster(c)|
    ensures ShowsPassportInput(Roster(c)[k]) <==> Roster(c)[k].passportNumber.Some?
    ensures PassportDisplay(Roster(c)[k]) == ""
  {
    RosterSeeding(c, k);
  }

  /** Typing into the passport input of an adult makes the passport check
      depend on the typed text alone. */
  lemma PassportEditDecidesCheck(p: PassengerInfo, index: nat, v: string)
    requires ShowsPassportInput(p)
    ensures IsMissing(Merge(p, EditPatch(EditPassport(v))), index, Passport) <==> v == ""
    ensures PassportDisplay(Merge(p, EditPatch(EditPassport(v)))) == v
  {
  }
}
