/** The PatientRecord document (backend/models/PatientRecord.js): one vital-sign
    reading of a patient. Saving a document runs two hooks: the pre-save hook
    classifies the reading and overwrites `isCritical`, and the post-save hook
    recomputes the patient's `isCritical` flag from the records of the last 24
    hours. The database is a `Db` object holding both collections; the clock is
    the `now` parameter (milliseconds). */
module PatientRecordModel {
  import opened Js
  import opened Dates
  import opened Vitals
  import opened PatientModel

  const BLOOD_PRESSURE: string := "BloodPressure"
  const HEART_RATE: string := "HeartRate"
  const RESPIRATORY_RATE: string := "RespiratoryRate"
  const OXYGEN_LEVEL: string := "OxygenLevel"

  /** The `testType` enum. */
  const TEST_TYPES: seq<string> := [BLOOD_PRESSURE, HEART_RATE, RESPIRATORY_RATE, OXYGEN_LEVEL]

  /** The literals the symptom rule compares the lower-cased symptom with. */
  const CRITICAL_SYMPTOMS: seq<string> := ["fever", "shortnessOfBreath"]

  datatype Record = Record(
    id: nat,
    patientId: nat,
    testType: string,
    value: string,
    symptoms: seq<string>,
    treatmentNotes: Option<string>,
    isCritical: bool,
    date: int,
    recordedBy: Option<nat>,
    isActive: bool)

  datatype RecordPath = TestTypePath | ValuePath

  /** The paths whose validator fails: `testType` outside the enum, or an empty
      `value` (`required` rejects the empty string). */
  function RecordErrors(r: Record): (errs: seq<RecordPath>)
    ensures TestTypePath in errs <==> r.testType !in TEST_TYPES
    ensures ValuePath in errs <==> r.value == []
  {
    (if r.testType in TEST_TYPES then [] else [TestTypePath])
    + (if r.value != [] then [] else [ValuePath])
  }

  // ---------------------------------------------------------------------------
  // The reading classifier of the pre-save hook

  /** The numeric part of the classifier: the rule of the reading's own test type,
      applied only to a non-empty value. */
  predicate ReadingCritical(testType: string, value: string) {
    value != [] &&
    ((testType == BLOOD_PRESSURE && BloodPressureOutOfRange(value))
     || (testType == HEART_RATE && (Bradycardic(ParseFloat(value)) || Tachycardic(ParseFloat(value))))
     || (testType == OXYGEN_LEVEL && LowOxygen(ParseFloat(value)))
     || (testType == RESPIRATORY_RATE && (Bradypneic(ParseFloat(value)) || Tachypneic(ParseFloat(value)))))
  }

  /** `symptoms.some(s => ['fever', 'shortnessOfBreath'].includes(s.toLowerCase()))` */
  predicate HasCriticalSymptom(symptoms: seq<string>) {
    exists i | 0 <= i < |symptoms| :: ToLower(symptoms[i]) in CRITICAL_SYMPTOMS
  }

  /** The flag the pre-save hook stores. */
  predicate Classify(r: Record) {
    ReadingCritical(r.testType, r.value) || HasCriticalSymptom(r.symptoms)
  }

  /** A lower-cased string never equals 'shortnessOfBreath', which has a capital B,
      so the symptom rule fires exactly on the symptoms that lower-case to 'fever'. */
  lemma OnlyFeverTriggers(symptoms: seq<string>)
    ensures HasCriticalSymptom(symptoms) <==> exists i | 0 <= i < |symptoms| :: ToLower(symptoms[i]) == "fever"
  {
    forall i | 0 <= i < |symptoms| ensures ToLower(symptoms[i]) != "shortnessOfBreath" {
      var t := ToLower(symptoms[i]);
      if |t| == 17 {
        assert !IsUpperAscii(t[9]);
      }
    }
  }

  /** The camel-case symptom itself is not recognised, while any capitalisation of
      'fever' is. */
  lemma SymptomExamples()
    ensures !HasCriticalSymptom(["shortnessOfBreath"])
    ensures HasCriticalSymptom(["FEVER"])
  {
    OnlyFeverTriggers(["shortnessOfBreath"]);
    var fever := ["FEVER"];
    assert ToLower(fever[0]) == "fever";
    assert ToLower(fever[0]) in CRITICAL_SYMPTOMS;
  }

  /** A test type outside the enum, or an empty value, contributes nothing; a
      reading that parses to NaN never crosses a threshold. */
  lemma NoNumericRuleApplies(testType: string, value: string)
    ensures testType !in TEST_TYPES ==> !ReadingCritical(testType, value)
    ensures value == [] ==> !ReadingCritical(testType, value)
    ensures testType != BLOOD_PRESSURE && ParseFloat(value).None? ==> !ReadingCritical(testType, value)
  {
  }

  lemma RuleOfParsedValue(v: string, x: real)
    requires v != [] && ParseFloat(v) == Some(x)
    ensures ReadingCritical(HEART_RATE, v) <==> x <= 50.0 || x >= 120.0
    ensures ReadingCritical(OXYGEN_LEVEL, v) <==> x < 90.0
    ensures ReadingCritical(RESPIRATORY_RATE, v) <==> x <= 10.0 || x >= 30.0
  {
    ParsedRules(v);
  }

  /** The three single-number rules, on the value parseFloat reads. */
  lemma ParsedRules(v: string)
    requires v != []
    ensures ReadingCritical(HEART_RATE, v) == (Le(ParseFloat(v), 50.0) || Ge(ParseFloat(v), 120.0))
    ensures ReadingCritical(OXYGEN_LEVEL, v) == Lt(ParseFloat(v), 90.0)
    ensures ReadingCritical(RESPIRATORY_RATE, v) == (Le(ParseFloat(v), 10.0) || Ge(ParseFloat(v), 30.0))
  {
  }

  lemma BloodPressureRule(v: string)
    requires v != []
    ensures ReadingCritical(BLOOD_PRESSURE, v) <==> BloodPressureOutOfRange(v)
  {
  }

  /** The thresholds on decimal numerals: heart rate at most 50 or at least 120,
      oxygen below 90, respiratory rate at most 10 or at least 30, and blood
      pressure `a/b` by the four bounds. */
  lemma ThresholdsOnNumerals(n: nat, a: nat, b: nat)
    ensures ReadingCritical(HEART_RATE, NatToString(n)) <==> n <= 50 || n >= 120
    ensures ReadingCritical(OXYGEN_LEVEL, NatToString(n)) <==> n < 90
    ensures ReadingCritical(RESPIRATORY_RATE, NatToString(n)) <==> n <= 10 || n >= 30
    ensures ReadingCritical(BLOOD_PRESSURE, NatToString(a) + "/" + NatToString(b))
            <==> a >= 180 || b >= 120 || a < 90 || b < 60
  {
    var s := NatToString(n);
    NumeralReadsBack(n);
    RuleOfParsedValue(s, n as real);
    var bp := NatToString(a) + "/" + NatToString(b);
    BloodPressureOfNumerals(a, b);
    BloodPressureRule(bp);
  }

  /** A reading with a bare systolic number has no diastolic part, and a reading
      with an empty systolic part reads it as 0 and is critical. */
  lemma BloodPressureEdgeCases(a: nat, b: nat)
    ensures !ReadingCritical(BLOOD_PRESSURE, NatToString(a))
    ensures ReadingCritical(BLOOD_PRESSURE, "/" + NatToString(b))
  {
    var sa := NatToString(a);
    DigitsHaveNoSlash(sa);
    NoSlashNotOutOfRange(sa);
    BloodPressureRule(sa);
    var v := "/" + NatToString(b);
    EmptySystolicOutOfRange(b);
    BloodPressureRule(v);
  }

  /** A document being saved; the pre-save hook rewrites its `isCritical` in place. */
  class RecordDocument {
    var record: Record

    constructor(r: Record)
      ensures record == r
    {
      record := r;
    }

    /** The pre-save hook: it takes the branch of its test type, reads the value,
        ORs in the symptom rule and overwrites whatever flag the document had. */
    method PreSave()
      modifies this
      ensures record == old(record).(isCritical := Classify(old(record)))
    {
      var critical := false;
      var r := record;
      if r.testType == BLOOD_PRESSURE && r.value != [] {
        var parts := Split(r.value, '/');
        var systolic := ToNumber(parts[0]);
        var diastolic := if |parts| > 1 then ToNumber(parts[1]) else None;
        if systolic.Some? && diastolic.Some? {
          critical := systolic.value >= 180.0 || diastolic.value >= 120.0
                      || systolic.value < 90.0 || diastolic.value < 60.0;
        }
        assert critical == ReadingCritical(r.testType, r.value) by {
          assert (systolic, diastolic) == BloodPressureParts(r.value);
          BloodPressureRule(r.value);
        }
      } else if r.testType == HEART_RATE && r.value != [] {
        var heartRate := ParseFloat(r.value);
        critical := Le(heartRate, 50.0) || Ge(heartRate, 120.0);
        assert critical == ReadingCritical(r.testType, r.value) by { ParsedRules(r.value); }
      } else if r.testType == OXYGEN_LEVEL && r.value != [] {
        var oxygenLevel := ParseFloat(r.value);
        critical := Lt(oxygenLevel, 90.0);
        assert critical == ReadingCritical(r.testType, r.value) by { ParsedRules(r.value); }
      } else if r.testType == RESPIRATORY_RATE && r.value != [] {
        var respiratoryRate := ParseFloat(r.value);
        critical := Le(respiratoryRate, 10.0) || Ge(respiratoryRate, 30.0);
        assert critical == ReadingCritical(r.testType, r.value) by { ParsedRules(r.value); }
      } else {
        assert !ReadingCritical(r.testType, r.value) by { NoNumericRuleApplies(r.testType, r.value); }
      }
      var hasCriticalSymptom := HasCriticalSymptom(r.symptoms);
      record := r.(isCritical := critical || hasCriticalSymptom);
    }
  }

  // ---------------------------------------------------------------------------
  // The patient flag of the post-save hook

  /** The records the post-save count matches: this patient, flagged critical,
      dated at or after now - 24h. Soft-deleted records are not excluded. */
  predicate RecentCritical(r: Record, patientId: nat, now: int) {
    r.patientId == patientId && r.isCritical && r.date >= now - DAY_MS
  }

  /** `countDocuments({ patientId, isCritical: true, date: { $gte: now - 24h } })` */
  function RecentCriticalCount(records: seq<Record>, patientId: nat, now: int): (n: nat)
    ensures n <= |records|
  {
    if records == [] then 0
    else RecentCriticalCount(records[..|records| - 1], patientId, now)
         + (if RecentCritical(records[|records| - 1], patientId, now) then 1 else 0)
  }

  /** The count is positive exactly when some record matches. */
  lemma {:induction false} RecentCriticalCountPositive(records: seq<Record>, patientId: nat, now: int)
    ensures RecentCriticalCount(records, patientId, now) > 0
            <==> exists i | 0 <= i < |records| :: RecentCritical(records[i], patientId, now)
  {
    if records != [] {
      var init := records[..|records| - 1];
      RecentCriticalCountPositive(init, patientId, now);
      if exists i | 0 <= i < |init| :: RecentCritical(init[i], patientId, now) {
        var i :| 0 <= i < |init| && RecentCritical(init[i], patientId, now);
        assert records[i] == init[i];
      }
      if exists i | 0 <= i < |records| :: RecentCritical(records[i], patientId, now) {
        var i :| 0 <= i < |records| && RecentCritical(records[i], patientId, now);
        if i < |init| { assert init[i] == records[i]; }
      }
    }
  }

  /** `Patient.findByIdAndUpdate(patientId, { isCritical: flag })`: no validation
      and no hooks run, the timestamps plugin sets `updatedAt`, and a missing id
      matches nothing. */
  function SetCriticalFlag(patients: seq<Patient>, patientId: nat, flag: bool, now: int): (r: seq<Patient>)
    ensures |r| == |patients|
    ensures forall i | 0 <= i < |r| && i != patientId :: r[i] == patients[i]
    ensures patientId < |r| ==> r[patientId] == patients[patientId].(isCritical := flag, updatedAt := now)
  {
    if patientId < |patients| then patients[patientId := patients[patientId].(isCritical := flag, updatedAt := now)]
    else patients
  }

  /** The flag the post-save hook writes for a patient. */
  predicate PatientFlag(records: seq<Record>, patientId: nat, now: int) {
    RecentCriticalCount(records, patientId, now) > 0
  }

  /** Running the reconcile twice with no write between them changes nothing the
      second time, apart from the timestamp. */
  lemma ReconcileIdempotent(patients: seq<Patient>, records: seq<Record>, patientId: nat, now: int, later: int)
    ensures var once := SetCriticalFlag(patients, patientId, PatientFlag(records, patientId, now), now);
      var twice := SetCriticalFlag(once, patientId, PatientFlag(records, patientId, now), later);
      |twice| == |once| &&
      forall i | 0 <= i < |once| :: twice[i].isCritical == once[i].isCritical
  {
  }

  /** The 24-hour window is inclusive at its start, and a soft-deleted record
      counts like any other. */
  lemma WindowBoundary(r: Record, now: int)
    requires r.isCritical
    ensures r.date == now - DAY_MS ==> PatientFlag([r], r.patientId, now)
    ensures r.date == now - DAY_MS - 1 ==> !PatientFlag([r], r.patientId, now)
    ensures r.date >= now - DAY_MS ==> PatientFlag([r.(isActive := false)], r.patientId, now)
  {
    assert [r][..0] == [];
    assert [r.(isActive := false)][..0] == [];
  }

  /** The stored records and patients. Ids are positions: a document is never
      removed, only soft-deleted. */
  class Db {
    var patients: seq<Patient>
    var records: seq<Record>

    predicate Valid()
      reads this
    {
      (forall i | 0 <= i < |patients| :: patients[i].id == i)
      && (forall i | 0 <= i < |records| :: records[i].id == i)
    }

    constructor()
      ensures Valid() && patients == [] && records == []
    {
      patients := [];
      records := [];
    }

    /** The post-save hook. `fails` stands for the count or the update throwing:
        the error is caught and logged, nothing is written and the save that ran
        the hook still succeeds. */
    method Reconcile(patientId: nat, now: int, fails: bool)
      requires Valid()
      modifies this
      ensures Valid()
      ensures records == old(records)
      ensures fails ==> patients == old(patients)
      ensures !fails ==> patients == SetCriticalFlag(old(patients), patientId, PatientFlag(records, patientId, now), now)
    {
      if !fails {
        var criticalRecordCount := RecentCriticalCount(records, patientId, now);
        patients := SetCriticalFlag(patients, patientId, criticalRecordCount > 0, now);
      }
    }

    /** `new PatientRecord(input).save()` at time now: cast (the string fields are
        trimmed, the defaults filled in), validate, run the pre-save hook, store,
        then run the post-save hook. A failing validation stores nothing and runs
        no hook. */
    method SaveRecord(input: Record, now: int, reconcileFails: bool) returns (result: Result<Record, seq<RecordPath>>)
      requires Valid()
      modifies this
      ensures Valid()
      ensures var doc := CastRecord(input, |old(records)|);
        if RecordErrors(doc) != [] then
          result == Err(RecordErrors(doc)) && records == old(records) && patients == old(patients)
        else
          var saved := doc.(isCritical := Classify(doc));
          result == Ok(saved) && records == old(records) + [saved]
          && (reconcileFails ==> patients == old(patients))
          && (!reconcileFails ==> patients == SetCriticalFlag(old(patients), doc.patientId,
                                                              PatientFlag(records, doc.patientId, now), now))
    {
      var doc := CastRecord(input, |records|);
      var errs := RecordErrors(doc);
      if errs != [] {
        return Err(errs);
      }
      var document := new RecordDocument(doc);
      document.PreSave();
      var saved := document.record;
      assert saved.id == |records|;
      records := records + [saved];
      Reconcile(saved.patientId, now, reconcileFails);
      result := Ok(saved);
    }
  }

  /** The document the constructor builds from the input: the next id, and the
      trimmed value and notes. */
  function CastRecord(input: Record, id: nat): (doc: Record)
    ensures doc.id == id && doc.patientId == input.patientId && doc.date == input.date
  {
    input.(id := id, value := Trim(input.value),
           treatmentNotes := if input.treatmentNotes.Some? then Some(Trim(input.treatmentNotes.value)) else None)
  }

  /** Saving a critical reading dated inside the window, when the patient exists
      and the hook does not fail, always leaves the patient flagged. */
  lemma SavedCriticalRecordFlagsPatient(records: seq<Record>, saved: Record, now: int)
    requires saved.isCritical && saved.date >= now - DAY_MS
    ensures PatientFlag(records + [saved], saved.patientId, now)
  {
    var all := records + [saved];
    assert all[..|all| - 1] == records;
  }
}
