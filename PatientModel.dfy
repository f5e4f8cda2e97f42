/** The Patient document (backend/models/Patient.js): its fields and defaults,
    the casting setters (trim, lower case), the path validators, and the `age`
    virtual. The database id is a `nat`. */
module PatientModel {
  import opened Js
  import opened Patterns
  import opened Dates

  const NOT_AVAILABLE: string := "N/A"

  datatype Patient = Patient(
    id: nat,
    name: string,
    dob: Date,
    contact: string,
    email: string,
    medicalHistory: string,
    bloodPressure: string,
    heartRate: string,
    respiratoryRate: string,
    oxygenLevel: string,
    isCritical: bool,
    isActive: bool,
    createdBy: Option<nat>,
    updatedBy: Option<nat>,
    createdAt: int,
    updatedAt: int)

  /** The schema paths that carry a validator. */
  datatype PatientPath = NamePath | DobPath | ContactPath | EmailPath | MedicalHistoryPath

  // ---------------------------------------------------------------------------
  // Setters applied when a value is cast to the schema

  /** `name` has `trim: true`. */
  function CastName(s: string): (t: string)
    ensures |t| <= |s|
    ensures t == [] || (!IsWhiteSpace(t[0]) && !IsWhiteSpace(t[|t| - 1]))
  {
    Trim(s)
  }

  /** `email` has `lowercase: true` and `trim: true`. */
  function CastEmail(s: string): (t: string)
    ensures forall i | 0 <= i < |t| :: !IsUpperAscii(t[i])
    ensures t == [] || (!IsWhiteSpace(t[0]) && !IsWhiteSpace(t[|t| - 1]))
  {
    var t := Trim(s);
    ToLowerKeepsWhiteSpace(t);
    ToLower(t)
  }

  /** The cast name is the input without its white-space margins. */
  lemma CastNameRemovesMargins(s: string)
    ensures exists a: nat :: WhiteSpaceMargins(s, a, |CastName(s)|) && CastName(s) == s[a..a + |CastName(s)|]
  {
    TrimRemovesMargins(s);
    assert CastName(s) == Trim(s);
  }

  /** The cast address is the lower-cased input without its white-space margins. */
  lemma CastEmailRemovesMargins(s: string)
    ensures exists a: nat :: WhiteSpaceMargins(s, a, |CastEmail(s)|) && CastEmail(s) == ToLower(s[a..a + |CastEmail(s)|])
  {
    var a := |s| - |TrimStart(s)|;
    var t := Trim(s);
    TrimAt(s);
    assert CastEmail(s) == ToLower(t) && |ToLower(t)| == |t|;
    assert WhiteSpaceMargins(s, a, |CastEmail(s)|) && CastEmail(s) == ToLower(s[a..a + |CastEmail(s)|]);
  }

  /** Casting an already cast address changes nothing. */
  lemma CastEmailIdempotent(s: string)
    ensures CastEmail(CastEmail(s)) == CastEmail(s)
  {
    var t := CastEmail(s);
    LowerTrimCommute(s);
    TrimIdempotent(ToLower(s));
    ToLowerIdempotent(Trim(s));
    assert t == Trim(ToLower(s));
    assert Trim(t) == t;
    assert ToLower(t) == t;
  }

  lemma ToLowerKeepsWhiteSpace(t: string)
    ensures forall i | 0 <= i < |t| :: IsWhiteSpace(ToLower(t)[i]) <==> IsWhiteSpace(t[i])
  {
    forall i | 0 <= i < |t| ensures IsWhiteSpace(ToLower(t)[i]) <==> IsWhiteSpace(t[i]) {
      LowerKeepsWhiteSpace(t[i]);
    }
  }

  lemma {:induction false} TrimIdempotent(s: string)
    ensures Trim(Trim(s)) == Trim(s)
  {
    var t := Trim(s);
    if t != [] {
      assert TrimStart(t) == t;
      assert TrimEnd(t) == t;
    }
  }

  // ---------------------------------------------------------------------------
  // Path validators

  /** `required` on a string rejects the empty string; `minlength: 3`. */
  predicate NameValid(name: string) { |name| >= 3 }

  /** `v < new Date()`, read at day granularity: a date of birth on or before today. */
  predicate DobValid(dob: Date, today: Date) { OnOrBefore(dob, today) }

  /** `match: /^[0-9]{10}$/` */
  predicate ContactValid(contact: string) { TenDigits(contact) }

  /** `v === 'N/A' || /^[^\s@]+@[^\s@]+\.[^\s@]+$/.test(v)` */
  predicate EmailValid(email: string) { email == NOT_AVAILABLE || EmailPattern(email) }

  /** `required` on a string rejects the empty string. */
  predicate MedicalHistoryValid(history: string) { history != [] }

  predicate PathValid(p: Patient, path: PatientPath, today: Date) {
    PathPasses(path, NameValid(p.name), DobValid(p.dob, today), ContactValid(p.contact), EmailValid(p.email),
               MedicalHistoryValid(p.medicalHistory))
  }

  /** The outcome of the validator of one path, given the outcome of each. */
  predicate PathPasses(path: PatientPath, nameOk: bool, dobOk: bool, contactOk: bool, emailOk: bool, historyOk: bool) {
    match path
    case NamePath => nameOk
    case DobPath => dobOk
    case ContactPath => contactOk
    case EmailPath => emailOk
    case MedicalHistoryPath => historyOk
  }

  /** The paths whose validator fails, in schema order, as a ValidationError lists them. */
  function PatientErrors(p: Patient, today: Date): (errs: seq<PatientPath>)
    ensures forall path :: path in errs <==> !PathValid(p, path, today)
    ensures NoRepeats(errs)
  {
    FailedPaths(NameValid(p.name), DobValid(p.dob, today), ContactValid(p.contact), EmailValid(p.email),
                MedicalHistoryValid(p.medicalHistory))
  }

  /** The paths of the failing validators, in schema order, each once. */
  function FailedPaths(nameOk: bool, dobOk: bool, contactOk: bool, emailOk: bool, historyOk: bool)
    : (errs: seq<PatientPath>)
    ensures NamePath in errs <==> !nameOk
    ensures DobPath in errs <==> !dobOk
    ensures ContactPath in errs <==> !contactOk
    ensures EmailPath in errs <==> !emailOk
    ensures MedicalHistoryPath in errs <==> !historyOk
    ensures NoRepeats(errs)
  {
    var history := Failed(historyOk, MedicalHistoryPath, []);
    assert NoRepeats(history) && EmailPath !in history;
    var email := Failed(emailOk, EmailPath, history);
    assert NoRepeats(email) && ContactPath !in email;
    var contact := Failed(contactOk, ContactPath, email);
    assert NoRepeats(contact) && DobPath !in contact;
    var dob := Failed(dobOk, DobPath, contact);
    assert NoRepeats(dob) && NamePath !in dob;
    Failed(nameOk, NamePath, dob)
  }

  predicate NoRepeats(errs: seq<PatientPath>) {
    forall i, j | 0 <= i < j < |errs| :: errs[i] != errs[j]
  }

  /** The path of one validator in front of those of the later ones, when it fails. */
  function Failed(ok: bool, path: PatientPath, later: seq<PatientPath>): (errs: seq<PatientPath>)
    ensures path !in later ==> (path in errs <==> !ok)
    ensures forall q | q != path :: q in errs <==> q in later
    ensures NoRepeats(later) && path !in later ==> NoRepeats(errs)
  {
    if ok then later else [path] + later
  }

  /** Whether a save of p would pass validation. */
  predicate PatientSchemaValid(p: Patient, today: Date) {
    PatientErrors(p, today) == []
  }

  // ---------------------------------------------------------------------------
  // Creating a document

  /** The fields a new Patient is built from; a missing one is None. */
  datatype PatientInput = PatientInput(
    name: Option<string>,
    dob: Option<Date>,
    contact: Option<string>,
    email: Option<string>,
    medicalHistory: Option<string>,
    bloodPressure: Option<string>,
    heartRate: Option<string>,
    respiratoryRate: Option<string>,
    oxygenLevel: Option<string>,
    isCritical: Option<bool>,
    isActive: Option<bool>)

  function OrDefault<T>(x: Option<T>, d: T): T {
    if x.Some? then x.value else d
  }

  /** The paths a save of `new Patient(input)` reports, in schema order: a
      required field that is missing, or a given field whose cast value fails its
      validator. A missing e-mail address takes the default 'N/A', which Mongoose
      runs through the path's setters like any other value: the stored 'n/a' then
      fails the path's own validator (DefaultEmailRefused). */
  function InputErrors(input: PatientInput, today: Date): (errs: seq<PatientPath>)
    ensures NamePath in errs <==> input.name.None? || !NameValid(CastName(input.name.value))
    ensures DobPath in errs <==> input.dob.None? || !DobValid(input.dob.value, today)
    ensures ContactPath in errs <==> input.contact.None? || !ContactValid(input.contact.value)
    ensures EmailPath in errs <==> !EmailValid(InputEmail(input))
    ensures input.email.None? ==> EmailPath in errs
    ensures input.email.Some? ==> (EmailPath in errs <==> !EmailValid(CastEmail(input.email.value)))
    ensures MedicalHistoryPath in errs <==>
      input.medicalHistory.None? || !MedicalHistoryValid(input.medicalHistory.value)
  {
    DefaultEmailRefused();
    FailedPaths(input.name.Some? && NameValid(CastName(input.name.value)),
                input.dob.Some? && DobValid(input.dob.value, today),
                input.contact.Some? && ContactValid(input.contact.value),
                EmailValid(InputEmail(input)),
                input.medicalHistory.Some? && MedicalHistoryValid(input.medicalHistory.value))
  }

  /** The address a new document holds: the one sent, or the default 'N/A',
      both cast by the path's setters. */
  function InputEmail(input: PatientInput): string {
    CastEmail(OrDefault(input.email, NOT_AVAILABLE))
  }

  /** The default 'N/A' is stored as 'n/a', which is neither 'N/A' nor an address. */
  lemma DefaultEmailRefused()
    ensures CastEmail(NOT_AVAILABLE) == "n/a"
    ensures !EmailValid(CastEmail(NOT_AVAILABLE))
  {
    assert TrimStart(NOT_AVAILABLE) == NOT_AVAILABLE;
    assert TrimEnd(NOT_AVAILABLE) == NOT_AVAILABLE;
    assert ToLower(NOT_AVAILABLE) == "n/a";
  }

  /** The input of a save that reports nothing. */
  predicate InputComplete(input: PatientInput, today: Date) {
    input.name.Some? && NameValid(CastName(input.name.value))
    && input.dob.Some? && DobValid(input.dob.value, today)
    && input.contact.Some? && ContactValid(input.contact.value)
    && EmailValid(InputEmail(input))
    && input.medicalHistory.Some? && MedicalHistoryValid(input.medicalHistory.value)
  }

  lemma InputErrorsEmpty(input: PatientInput, today: Date)
    ensures InputErrors(input, today) == [] <==> InputComplete(input, today)
  {
    var errs := InputErrors(input, today);
    if InputComplete(input, today) {
      assert NamePath !in errs && DobPath !in errs && ContactPath !in errs;
      assert EmailPath !in errs && MedicalHistoryPath !in errs;
    }
  }

  /** The document `new Patient(input)` builds, the defaults filling the
      missing optional fields. */
  function NewPatient(id: nat, input: PatientInput, createdBy: Option<nat>, now: int): Patient
    requires input.name.Some? && input.dob.Some? && input.contact.Some? && input.medicalHistory.Some?
  {
    Patient(
      id,
      CastName(input.name.value),
      input.dob.value,
      input.contact.value,
      InputEmail(input),
      input.medicalHistory.value,
      OrDefault(input.bloodPressure, NOT_AVAILABLE),
      OrDefault(input.heartRate, NOT_AVAILABLE),
      OrDefault(input.respiratoryRate, NOT_AVAILABLE),
      OrDefault(input.oxygenLevel, NOT_AVAILABLE),
      OrDefault(input.isCritical, false),
      OrDefault(input.isActive, true),
      createdBy,
      None,
      now,
      now)
  }

  lemma NewPatientValid(id: nat, input: PatientInput, createdBy: Option<nat>, now: int, today: Date)
    requires InputComplete(input, today)
    ensures PatientSchemaValid(NewPatient(id, input, createdBy, now), today)
  {
    var p := NewPatient(id, input, createdBy, now);
    assert EmailValid(p.email);
    assert forall path :: PathValid(p, path, today);
  }

  /** `new Patient(input)` with `createdBy` and the timestamps set, then saved:
      the defaults fill the missing optional fields and the save is refused with
      the failing paths when there are any. */
  function CreatePatientDocument(id: nat, input: PatientInput, createdBy: Option<nat>,
                                 now: int, today: Date): (r: Result<Patient, seq<PatientPath>>)
    ensures r.Ok? <==> InputErrors(input, today) == []
    ensures r.Err? ==> r.error == InputErrors(input, today)
    ensures r.Ok? ==> PatientSchemaValid(r.value, today)
    ensures r.Ok? ==> r.value.id == id && r.value.createdAt == now && r.value.updatedAt == now
    ensures r.Ok? ==> r.value.createdBy == createdBy && r.value.updatedBy.None?
    ensures r.Ok? ==> r.value.isCritical == (input.isCritical == Some(true))
    ensures r.Ok? ==> r.value.isActive == (input.isActive != Some(false))
    ensures r.Ok? ==> input.email.Some? && r.value.email == CastEmail(input.email.value)
    ensures input.email.None? ==> r.Err? && EmailPath in r.error
  {
    var errs := InputErrors(input, today);
    InputErrorsEmpty(input, today);
    if errs != [] then Err(errs)
    else
      NewPatientValid(id, input, createdBy, now, today);
      Ok(NewPatient(id, input, createdBy, now))
  }

  /** A new patient given only the required fields is built active, not
      critical, with 'N/A' for every vital sign and the cast default 'n/a' for the
      e-mail address; the save is then refused on the e-mail path alone. */
  lemma NewPatientDefaults(id: nat, name: string, dob: Date, contact: string, history: string,
                           now: int, today: Date)
    requires NameValid(CastName(name)) && DobValid(dob, today) && ContactValid(contact)
    requires MedicalHistoryValid(history)
    ensures var input := PatientInput(Some(name), Some(dob), Some(contact), None, Some(history),
                                      None, None, None, None, None, None);
      var r := CreatePatientDocument(id, input, None, now, today);
      var p := NewPatient(id, input, None, now);
      !p.isCritical && p.isActive && p.email == "n/a"
      && p.bloodPressure == NOT_AVAILABLE && p.heartRate == NOT_AVAILABLE
      && p.respiratoryRate == NOT_AVAILABLE && p.oxygenLevel == NOT_AVAILABLE
      && PatientErrors(p, today) == [EmailPath]
      && r == Err([EmailPath])
  {
    var input := PatientInput(Some(name), Some(dob), Some(contact), None, Some(history),
                              None, None, None, None, None, None);
    DefaultEmailRefused();
    var p := NewPatient(id, input, None, now);
    assert p.email == CastEmail(NOT_AVAILABLE);
    assert FailedPaths(true, true, true, false, true) == [EmailPath];
    assert InputErrors(input, today) == FailedPaths(true, true, true, false, true);
    assert PatientErrors(p, today) == FailedPaths(true, true, true, false, true);
  }

  // ---------------------------------------------------------------------------
  // The age virtual

  /** `patient.age`: null without a date of birth, otherwise the number of
      birthdays reached by today. */
  function Age(dob: Option<Date>, today: Date): (age: Option<int>)
    ensures age.None? <==> dob.None?
    ensures age.Some? ==> OnOrBefore(Anniversary(dob.value, age.value), today)
    ensures age.Some? ==> Before(today, Anniversary(dob.value, age.value + 1))
  {
    if dob.None? then None else Some(AgeInYears(dob.value, today))
  }

  /** A stored patient, whose date of birth passed its validator, has a
      non-negative age. */
  lemma StoredPatientAgeNonNegative(p: Patient, today: Date)
    requires PatientSchemaValid(p, today)
    ensures Age(Some(p.dob), today).Some? && Age(Some(p.dob), today).value >= 0
  {
    assert DobPath !in PatientErrors(p, today);
    AgeNonNegative(p.dob, today);
  }
}
