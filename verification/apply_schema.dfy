/** The application form's schema (`applySchema` in src/lib/apply-schema.ts):
    seven field rules deciding whether a decoded JSON body is an application. */
module ApplySchema {
  import opened Wrappers

  /** A decoded JSON value, as far as the schema can tell them apart: a string,
      an array, or anything else (number, boolean, null, object). */
  datatype Value = Str(s: string) | Arr(items: seq<Value>) | Other

  /** The request body's seven keys; `None` is a key that is absent. Unknown
      keys are dropped by the schema and do not appear here. */
  datatype RawApply = RawApply(
    firstName: Option<Value>,
    lastName: Option<Value>,
    email: Option<Value>,
    phone: Option<Value>,
    preferredTrack: Option<Value>,
    availability: Option<Value>,
    notes: Option<Value>)

  datatype Track = Online | NotSure
  datatype Day = Mon | Wed

  /** A payload the schema accepted, with the enumerations decoded. */
  datatype Application = Application(
    firstName: string,
    lastName: string,
    email: string,
    phone: Option<string>,
    track: Track,
    availability: seq<Day>,
    notes: Option<string>)

  /** The field a validation issue is reported against. */
  datatype Field = FirstName | LastName | Email | Phone | PreferredTrack | Availability | Notes

  /** The fields in the order the schema declares them. */
  const Fields: seq<Field> := [FirstName, LastName, Email, Phone, PreferredTrack, Availability, Notes]

  /** The track enumeration: exactly "online" or "not-sure". */
  function TrackCode(code: string): (r: Option<Track>)
    ensures r == Some(Online) <==> code == "online"
    ensures r == Some(NotSure) <==> code == "not-sure"
  {
    if code == "online" then Some(Online)
    else if code == "not-sure" then Some(NotSure)
    else None
  }

  /** The availability enumeration: exactly "mon" or "wed". */
  function DayCode(code: string): (r: Option<Day>)
    ensures r == Some(Mon) <==> code == "mon"
    ensures r == Some(Wed) <==> code == "wed"
  {
    if code == "mon" then Some(Mon)
    else if code == "wed" then Some(Wed)
    else None
  }

  /** `z.string().min(1)`. */
  predicate NonEmptyString(v: Option<Value>) {
    v.Some? && v.value.Str? && |v.value.s| >= 1
  }

  /** `z.string().optional()`: absent, or any string at all. */
  predicate OptionalString(v: Option<Value>) {
    v.None? || v.value.Str?
  }

  /** The day one availability entry names, if it is a string from the
      enumeration. */
  function EntryDay(v: Value): Option<Day> {
    if v.Str? then DayCode(v.s) else None
  }

  /** One availability entry: a string from the enumeration. */
  predicate DayEntry(v: Value) {
    EntryDay(v).Some?
  }

  /** `z.array(z.enum(["mon", "wed"])).min(1)`: a non-empty array of codes.
      Repeated codes are not rejected. */
  predicate AvailabilityRule(v: Option<Value>) {
    && v.Some? && v.value.Arr? && |v.value.items| >= 1
    && forall i :: 0 <= i < |v.value.items| ==> DayEntry(v.value.items[i])
  }

  /** Whether `raw` satisfies the rule for field `f`; `emailOk` is the
      email-format check, which is not modelled further. */
  predicate FieldOk(raw: RawApply, f: Field, emailOk: string -> bool) {
    match f
    case FirstName => NonEmptyString(raw.firstName)
    case LastName => NonEmptyString(raw.lastName)
    case Email => raw.email.Some? && raw.email.value.Str? && emailOk(raw.email.value.s)
    case Phone => OptionalString(raw.phone)
    case PreferredTrack => raw.preferredTrack.Some? && raw.preferredTrack.value.Str?
                           && TrackCode(raw.preferredTrack.value.s).Some?
    case Availability => AvailabilityRule(raw.availability)
    case Notes => OptionalString(raw.notes)
  }

  /** The schema as one object rule: every field's own rule, in declaration
      order. No field is left unchecked. */
  predicate Valid(raw: RawApply, emailOk: string -> bool): (r: bool)
    ensures r <==> forall f :: FieldOk(raw, f, emailOk)
  {
    && FieldOk(raw, FirstName, emailOk)
    && FieldOk(raw, LastName, emailOk)
    && FieldOk(raw, Email, emailOk)
    && FieldOk(raw, Phone, emailOk)
    && FieldOk(raw, PreferredTrack, emailOk)
    && FieldOk(raw, Availability, emailOk)
    && FieldOk(raw, Notes, emailOk)
  }

  lemma EveryFieldListed()
    ensures forall f :: f in Fields
  {
    forall f ensures f in Fields {
      match f
      case FirstName => assert Fields[0] == f;
      case LastName => assert Fields[1] == f;
      case Email => assert Fields[2] == f;
      case Phone => assert Fields[3] == f;
      case PreferredTrack => assert Fields[4] == f;
      case Availability => assert Fields[5] == f;
      case Notes => assert Fields[6] == f;
    }
  }

  /** No field is listed twice. */
  predicate Distinct(fs: seq<Field>) {
    forall i, j :: 0 <= i < j < |fs| ==> fs[i] != fs[j]
  }

  lemma FieldsDistinct()
    ensures Distinct(Fields)
  {
  }

  /** The fields among `fs` whose rule fails, in order; from a list without
      repeats, each failing field is reported once. */
  function FailingFields(raw: RawApply, fs: seq<Field>, emailOk: string -> bool): (r: seq<Field>)
    ensures forall f :: f in r <==> f in fs && !FieldOk(raw, f, emailOk)
    ensures |r| <= |fs|
    ensures Distinct(fs) ==> Distinct(r)
  {
    if |fs| == 0 then []
    else
      (if FieldOk(raw, fs[0], emailOk) then [] else [fs[0]])
      + FailingFields(raw, fs[1..], emailOk)
  }

  /** The decoded availability codes, in order, repeats kept. */
  function Days(items: seq<Value>): (r: seq<Day>)
    requires forall i :: 0 <= i < |items| ==> DayEntry(items[i])
    ensures |r| == |items|
    ensures forall i :: 0 <= i < |items| ==> Some(r[i]) == EntryDay(items[i])
  {
    if |items| == 0 then []
    else
      assert DayEntry(items[0]);
      [EntryDay(items[0]).value] + Days(items[1..])
  }

  function OptionalText(v: Option<Value>): Option<string>
    requires OptionalString(v)
  {
    if v.None? then None else Some(v.value.s)
  }

  /** `applySchema.safeParse(body)`: the typed application, or the fields whose
      rules failed. */
  function Validate(raw: RawApply, emailOk: string -> bool): (r: Result<Application, seq<Field>>)
    ensures r.Success? <==> Valid(raw, emailOk)
    ensures r.Failure? ==> |r.error| > 0
    ensures r.Failure? ==> forall f :: f in r.error <==> !FieldOk(raw, f, emailOk)
    ensures r.Failure? ==> Distinct(r.error)
    ensures r.Success? ==>
      && r.value.firstName == raw.firstName.value.s
      && r.value.lastName == raw.lastName.value.s
      && r.value.email == raw.email.value.s
      && (raw.phone.None? <==> r.value.phone.None?)
      && (raw.phone.Some? ==> r.value.phone == Some(raw.phone.value.s))
      && (raw.notes.None? <==> r.value.notes.None?)
      && (raw.notes.Some? ==> r.value.notes == Some(raw.notes.value.s))
      && Some(r.value.track) == TrackCode(raw.preferredTrack.value.s)
      && |r.value.availability| == |raw.availability.value.items|
      && (forall i :: 0 <= i < |r.value.availability| ==>
            Some(r.value.availability[i]) == EntryDay(raw.availability.value.items[i]))
  {
    var failing := FailingFields(raw, Fields, emailOk);
    EveryFieldListed();
    FieldsDistinct();
    if |failing| == 0 then
      assert FieldOk(raw, FirstName, emailOk) && FieldOk(raw, LastName, emailOk);
      assert FieldOk(raw, Email, emailOk) && FieldOk(raw, Phone, emailOk);
      assert FieldOk(raw, PreferredTrack, emailOk) && FieldOk(raw, Availability, emailOk);
      assert FieldOk(raw, Notes, emailOk);
      Success(Application(
        raw.firstName.value.s,
        raw.lastName.value.s,
        raw.email.value.s,
        OptionalText(raw.phone),
        TrackCode(raw.preferredTrack.value.s).value,
        Days(raw.availability.value.items),
        OptionalText(raw.notes)))
    else
      assert !FieldOk(raw, failing[0], emailOk);
      Failure(failing)
  }

  // ---------------------------------------------------------------------------
  // The field rules, one at a time

  /** An empty first or last name is rejected and reported against that field. */
  lemma EmptyNameRejected(raw: RawApply, emailOk: string -> bool)
    requires raw.firstName == Some(Str("")) || raw.lastName == Some(Str(""))
    ensures Validate(raw, emailOk).Failure?
    ensures raw.firstName == Some(Str("")) ==> FirstName in Validate(raw, emailOk).error
    ensures raw.lastName == Some(Str("")) ==> LastName in Validate(raw, emailOk).error
  {
  }

  /** An email string the format check refuses is rejected and reported. */
  lemma BadEmailRejected(raw: RawApply, emailOk: string -> bool)
    requires raw.email.Some? && raw.email.value.Str? && !emailOk(raw.email.value.s)
    ensures Validate(raw, emailOk).Failure?
    ensures Email in Validate(raw, emailOk).error
  {
  }

  /** The track rule holds exactly for the two enumeration strings. */
  lemma TrackRule(raw: RawApply, emailOk: string -> bool)
    ensures FieldOk(raw, PreferredTrack, emailOk) <==>
      raw.preferredTrack == Some(Str("online")) || raw.preferredTrack == Some(Str("not-sure"))
  {
  }

  /** The availability rule holds exactly for non-empty arrays of "mon"/"wed"
      strings. */
  lemma AvailabilityRuleExact(raw: RawApply, emailOk: string -> bool)
    ensures FieldOk(raw, Availability, emailOk) <==>
      && raw.availability.Some? && raw.availability.value.Arr?
      && |raw.availability.value.items| > 0
      && forall i :: 0 <= i < |raw.availability.value.items| ==>
           raw.availability.value.items[i] in {Str("mon"), Str("wed")}
  {
  }

  /** Repeated availability codes pass the rule and survive decoding: a body
      whose other six fields pass is accepted with `["mon", "mon"]`. */
  lemma DuplicateDaysAccepted(raw: RawApply, emailOk: string -> bool)
    requires forall f :: f != Availability ==> FieldOk(raw, f, emailOk)
    requires raw.availability == Some(Arr([Str("mon"), Str("mon")]))
    ensures Valid(raw, emailOk)
    ensures Validate(raw, emailOk).Success?
    ensures Validate(raw, emailOk).value.availability == [Mon, Mon]
  {
    assert FieldOk(raw, FirstName, emailOk) && FieldOk(raw, LastName, emailOk);
    assert FieldOk(raw, Email, emailOk) && FieldOk(raw, Phone, emailOk);
    assert FieldOk(raw, PreferredTrack, emailOk) && FieldOk(raw, Notes, emailOk);
    assert DayEntry(raw.availability.value.items[0]);
    assert DayEntry(raw.availability.value.items[1]);
  }

  /** Phone and notes never fail: absent, or any string, is accepted. */
  lemma OptionalFieldsNeverReject(raw: RawApply, emailOk: string -> bool)
    requires raw.phone.None? || raw.phone.value.Str?
    requires raw.notes.None? || raw.notes.value.Str?
    ensures Phone !in FailingFields(raw, Fields, emailOk)
    ensures Notes !in FailingFields(raw, Fields, emailOk)
  {
    assert FieldOk(raw, Phone, emailOk) && FieldOk(raw, Notes, emailOk);
  }
}
