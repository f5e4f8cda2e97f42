/** The client utilities (src/utils/helpers.js): the form validators, the
    vital-sign checks that collect the reasons a patient looks critical, the
    age and capitalisation formatters, and the mapping between the client's
    camel-case test-type keys and the server's Pascal-case names. A vital is
    `None` when absent. */
module Helpers {
  import opened Js
  import opened Patterns
  import opened Dates
  import opened Vitals
  import opened PatientRecordModel

  // ---------------------------------------------------------------------------
  // Validators

  /** `validateEmail`: the shared address pattern, which the left-to-right scan
      decides. */
  function ValidateEmail(email: string): (ok: bool)
    ensures ok <==> EmailScan(email)
  {
    EmailScanMatchesPattern(email);
    EmailPattern(email)
  }

  /** `validatePhone`: /^\d{10}$/, exactly ten ASCII digits. */
  function ValidatePhone(phone: string): (ok: bool)
    ensures ok <==> |phone| == 10 && forall i | 0 <= i < |phone| :: '0' <= phone[i] <= '9'
  {
    TenDigits(phone)
  }

  /** `validateBloodPressure`: /^\d+\/\d+$/, that is, the value splits on '/'
      into exactly two non-empty digit runs. */
  function ValidateBloodPressure(bp: string): (ok: bool)
    ensures var parts := Split(bp, '/');
      ok <==> |parts| == 2 && parts[0] != [] && parts[1] != [] && AllDigits(parts[0]) && AllDigits(parts[1])
  {
    BloodPressurePatternIff(bp);
    BloodPressurePattern(bp)
  }

  /** `password && password.length >= 6`, read for its truthiness. */
  function ValidatePassword(password: Option<string>): (ok: bool)
    ensures ok <==> password.Some? && |password.value| >= 6
  {
    Truthy(password) && |password.value| >= 6
  }

  /** A JavaScript value passed to validateNumeric: a string or a number. */
  datatype JsValue = JsString(s: string) | JsNumber(n: Number)
  datatype Number = Finite(x: real) | NaN | PositiveInfinity | NegativeInfinity

  /** `Number.parseFloat(value)`: a number is first printed, which reads back as
      itself; None is NaN and the infinities are not NaN. */
  function ParseFloatOf(v: JsValue): (r: Number)
    ensures v.JsString? ==> (r.NaN? <==> ParseFloat(v.s).None?)
  {
    match v
    case JsString(s) => if ParseFloat(s).Some? then Finite(ParseFloat(s).value) else NaN
    case JsNumber(n) => n
  }

  /** `Number.isFinite(value)` does not convert: only a finite number passes. */
  predicate IsFinite(v: JsValue) { v.JsNumber? && v.n.Finite? }

  /** `!Number.isNaN(Number.parseFloat(value)) && Number.isFinite(value)` */
  predicate ValidateNumeric(v: JsValue) { !ParseFloatOf(v).NaN? && IsFinite(v) }

  /** Exactly the finite numbers pass: every string is refused, even "42". */
  lemma ValidateNumericOnlyNumbers(v: JsValue)
    ensures ValidateNumeric(v) <==> v.JsNumber? && v.n.Finite?
    ensures v.JsString? ==> !ValidateNumeric(v)
  {
  }

  /** The form check and the stored-value split agree: a value of the form
      digits '/' digits has exactly two digit parts. */
  lemma ValidBloodPressureHasTwoParts(bp: string)
    requires ValidateBloodPressure(bp)
    ensures |Split(bp, '/')| == 2 && AllDigits(Split(bp, '/')[0]) && AllDigits(Split(bp, '/')[1])
  {
    BloodPressurePatternSplits(bp);
  }

  // ---------------------------------------------------------------------------
  // The vital-sign checks

  const HYPERTENSIVE_CRISIS: string := "Hypertensive crisis"
  const HYPOTENSION: string := "Hypotension"
  const BRADYCARDIA: string := "Bradycardia"
  const TACHYCARDIA: string := "Tachycardia"
  const LOW_OXYGEN: string := "Low oxygen saturation"
  const BRADYPNEA: string := "Bradypnea"
  const TACHYPNEA: string := "Tachypnea"

  /** The reason one check pushes, if any. */
  function Pushed(r: Option<string>): seq<string> { if r.Some? then [r.value] else [] }

  /** `const [systolic, diastolic] = bp.split('/').map(Number)` followed by
      `!Number.isNaN(systolic) && !Number.isNaN(diastolic)`. Number.isNaN does
      not convert, so an undefined diastolic (no '/') passes the test, and a
      comparison with it is false. */
  function BloodPressureReason(bp: Option<string>): (r: Option<string>)
    ensures r.None? || r == Some(HYPERTENSIVE_CRISIS) || r == Some(HYPOTENSION)
    ensures !Truthy(bp) ==> r.None?
  {
    if !Truthy(bp) then None
    else
      var parts := Split(bp.value, '/');
      var systolic := ToNumber(parts[0]);
      var hasDiastolic := |parts| > 1;
      var diastolic := if hasDiastolic then ToNumber(parts[1]) else None;
      ReasonOfReadings(systolic, hasDiastolic, diastolic)
  }

  /** The thresholds of `checkBloodPressure` once both parts are read. */
  function ReasonOfReadings(systolic: Option<real>, hasDiastolic: bool, diastolic: Option<real>): (r: Option<string>)
    ensures r.None? || r == Some(HYPERTENSIVE_CRISIS) || r == Some(HYPOTENSION)
  {
    if systolic.None? || (hasDiastolic && diastolic.None?) then None
    else if Ge(systolic, 180.0) || (hasDiastolic && Ge(diastolic, 120.0)) then Some(HYPERTENSIVE_CRISIS)
    else if Lt(systolic, 90.0) || (hasDiastolic && Lt(diastolic, 60.0)) then Some(HYPOTENSION)
    else None
  }

  /** With a diastolic part, the client fires on the two parts exactly when the
      server's range test does: both read as numbers and one bound is crossed. */
  lemma ReadingsWithDiastolic(systolic: Option<real>, diastolic: Option<real>)
    ensures ReasonOfReadings(systolic, true, diastolic).Some? <==>
      systolic.Some? && diastolic.Some? && (Hypertensive(systolic.value, diastolic.value) || Hypotensive(systolic.value, diastolic.value))
    ensures systolic.Some? && diastolic.Some? ==>
      (ReasonOfReadings(systolic, true, diastolic) == Some(HYPERTENSIVE_CRISIS) <==> Hypertensive(systolic.value, diastolic.value))
      && (ReasonOfReadings(systolic, true, diastolic) == Some(HYPOTENSION) <==>
          !Hypertensive(systolic.value, diastolic.value) && Hypotensive(systolic.value, diastolic.value))
  {
  }

  /** A value with a '/' is read as its two parts. */
  lemma ReasonOfSlashedValue(value: string)
    requires '/' in value
    ensures var p := BloodPressureParts(value);
      BloodPressureReason(Some(value)) == ReasonOfReadings(p.0, true, p.1)
  {
    assert |Split(value, '/')| > 1 by {
      var i :| 0 <= i < |value| && value[i] == '/';
      assert IndexOf(value, '/') <= i;
    }
  }

  /** `checkHeartRate`: parseFloat, then at most 50 or at least 120. */
  function HeartRateReason(hr: Option<string>): (r: Option<string>)
    ensures r == Some(BRADYCARDIA) <==> Truthy(hr) && Bradycardic(ParseFloat(hr.value))
    ensures r == Some(TACHYCARDIA) <==> Truthy(hr) && Tachycardic(ParseFloat(hr.value))
    ensures r.None? <==> !Truthy(hr) || !(Bradycardic(ParseFloat(hr.value)) || Tachycardic(ParseFloat(hr.value)))
  {
    if !Truthy(hr) then None
    else if Le(ParseFloat(hr.value), 50.0) then Some(BRADYCARDIA)
    else if Ge(ParseFloat(hr.value), 120.0) then Some(TACHYCARDIA)
    else None
  }

  /** `checkOxygenLevel`: parseFloat, then below 90. */
  function OxygenReason(o2: Option<string>): (r: Option<string>)
    ensures r.Some? <==> Truthy(o2) && LowOxygen(ParseFloat(o2.value))
    ensures r.Some? ==> r.value == LOW_OXYGEN
  {
    if Truthy(o2) && Lt(ParseFloat(o2.value), 90.0) then Some(LOW_OXYGEN) else None
  }

  /** `checkRespiratoryRate`: parseFloat, then at most 10 or at least 30. */
  function RespiratoryReason(rr: Option<string>): (r: Option<string>)
    ensures r == Some(BRADYPNEA) <==> Truthy(rr) && Bradypneic(ParseFloat(rr.value))
    ensures r == Some(TACHYPNEA) <==> Truthy(rr) && Tachypneic(ParseFloat(rr.value))
    ensures r.None? <==> !Truthy(rr) || !(Bradypneic(ParseFloat(rr.value)) || Tachypneic(ParseFloat(rr.value)))
  {
    if !Truthy(rr) then None
    else if Le(ParseFloat(rr.value), 10.0) then Some(BRADYPNEA)
    else if Ge(ParseFloat(rr.value), 30.0) then Some(TACHYPNEA)
    else None
  }

  /** The shared `reasons` array the checks push onto. */
  class ReasonList {
    var items: seq<string>

    constructor()
      ensures items == []
    {
      items := [];
    }

    method Push(reason: string)
      modifies this
      ensures items == old(items) + [reason]
    {
      items := items + [reason];
    }
  }

  method CheckBloodPressure(bp: Option<string>, reasons: ReasonList) returns (isCritical: bool)
    modifies reasons
    ensures isCritical <==> BloodPressureReason(bp).Some?
    ensures reasons.items == old(reasons.items) + Pushed(BloodPressureReason(bp))
  {
    isCritical := false;
    if Truthy(bp) {
      var parts := Split(bp.value, '/');
      var systolic := ToNumber(parts[0]);
      var diastolic: Option<real> := None;
      var hasDiastolic := |parts| > 1;
      if hasDiastolic {
        diastolic := ToNumber(parts[1]);
      }
      if systolic.Some? && (!hasDiastolic || diastolic.Some?) {
        if Ge(systolic, 180.0) || (hasDiastolic && Ge(diastolic, 120.0)) {
          isCritical := true;
          reasons.Push(HYPERTENSIVE_CRISIS);
        } else if Lt(systolic, 90.0) || (hasDiastolic && Lt(diastolic, 60.0)) {
          isCritical := true;
          reasons.Push(HYPOTENSION);
        }
      }
    }
  }

  method CheckHeartRate(hr: Option<string>, reasons: ReasonList) returns (isCritical: bool)
    modifies reasons
    ensures isCritical <==> HeartRateReason(hr).Some?
    ensures reasons.items == old(reasons.items) + Pushed(HeartRateReason(hr))
  {
    isCritical := false;
    if Truthy(hr) {
      var heartRate := ParseFloat(hr.value);
      if Le(heartRate, 50.0) {
        isCritical := true;
        reasons.Push(BRADYCARDIA);
      } else if Ge(heartRate, 120.0) {
        isCritical := true;
        reasons.Push(TACHYCARDIA);
      }
    }
  }

  method CheckOxygenLevel(o2: Option<string>, reasons: ReasonList) returns (isCritical: bool)
    modifies reasons
    ensures isCritical <==> OxygenReason(o2).Some?
    ensures reasons.items == old(reasons.items) + Pushed(OxygenReason(o2))
  {
    isCritical := false;
    if Truthy(o2) {
      var oxygenLevel := ParseFloat(o2.value);
      if Lt(oxygenLevel, 90.0) {
        isCritical := true;
        reasons.Push(LOW_OXYGEN);
      }
    }
  }

  method CheckRespiratoryRate(rr: Option<string>, reasons: ReasonList) returns (isCritical: bool)
    modifies reasons
    ensures isCritical <==> RespiratoryReason(rr).Some?
    ensures reasons.items == old(reasons.items) + Pushed(RespiratoryReason(rr))
  {
    isCritical := false;
    if Truthy(rr) {
      var respiratoryRate := ParseFloat(rr.value);
      if Le(respiratoryRate, 10.0) {
        isCritical := true;
        reasons.Push(BRADYPNEA);
      } else if Ge(respiratoryRate, 30.0) {
        isCritical := true;
        reasons.Push(TACHYPNEA);
      }
    }
  }

  datatype VitalSigns = VitalSigns(
    bloodPressure: Option<string>,
    heartRate: Option<string>,
    oxygenLevel: Option<string>,
    respiratoryRate: Option<string>)

  /** The reason of the first check, in the order blood pressure, heart rate,
      oxygen, respiratory rate, that fires; the later checks never run. */
  function FirstReason(v: VitalSigns): (r: Option<string>)
    ensures r.None? <==> BloodPressureReason(v.bloodPressure).None? && HeartRateReason(v.heartRate).None?
                         && OxygenReason(v.oxygenLevel).None? && RespiratoryReason(v.respiratoryRate).None?
    ensures BloodPressureReason(v.bloodPressure).Some? ==> r == BloodPressureReason(v.bloodPressure)
  {
    if BloodPressureReason(v.bloodPressure).Some? then BloodPressureReason(v.bloodPressure)
    else if HeartRateReason(v.heartRate).Some? then HeartRateReason(v.heartRate)
    else if OxygenReason(v.oxygenLevel).Some? then OxygenReason(v.oxygenLevel)
    else RespiratoryReason(v.respiratoryRate)
  }

  /** `checkCriticalVitals`: the four checks chained with a short-circuit `||`
      over one shared reasons array, so at most one reason is ever pushed and the
      flag is set exactly when one was. */
  method CheckCriticalVitals(v: VitalSigns) returns (isCritical: bool, reasons: seq<string>)
    ensures reasons == Pushed(FirstReason(v))
    ensures |reasons| <= 1
    ensures isCritical <==> |reasons| == 1
  {
    var list := new ReasonList();
    isCritical := CheckBloodPressure(v.bloodPressure, list);
    if !isCritical {
      isCritical := CheckHeartRate(v.heartRate, list);
    }
    if !isCritical {
      isCritical := CheckOxygenLevel(v.oxygenLevel, list);
    }
    if !isCritical {
      isCritical := CheckRespiratoryRate(v.respiratoryRate, list);
    }
    reasons := list.items;
  }

  /** On heart rate, oxygen and respiratory rate the client check fires exactly
      when the server's classifier marks the reading critical. */
  lemma ClientAgreesWithServer(value: string)
    ensures HeartRateReason(Some(value)).Some? <==> ReadingCritical(HEART_RATE, value)
    ensures OxygenReason(Some(value)).Some? <==> ReadingCritical(OXYGEN_LEVEL, value)
    ensures RespiratoryReason(Some(value)).Some? <==> ReadingCritical(RESPIRATORY_RATE, value)
  {
  }

  /** With a '/' in the value both sides read the same two parts and apply the
      same four thresholds. */
  lemma ClientBloodPressureWithSlash(value: string)
    requires '/' in value
    ensures BloodPressureReason(Some(value)).Some? <==> ReadingCritical(BLOOD_PRESSURE, value)
  {
    var p := BloodPressureParts(value);
    ReasonOfSlashedValue(value);
    ReadingsWithDiastolic(p.0, p.1);
    BloodPressureRule(value);
  }

  /** When both parts read as numbers, the hypertensive thresholds are checked
      first and the hypotensive ones only when those fail. */
  lemma ReasonOfParts(value: string, systolic: real, diastolic: real)
    requires '/' in value && BloodPressureParts(value) == (Some(systolic), Some(diastolic))
    ensures var r := BloodPressureReason(Some(value));
      (r == Some(HYPERTENSIVE_CRISIS) <==> Hypertensive(systolic, diastolic))
      && (r == Some(HYPOTENSION) <==> !Hypertensive(systolic, diastolic) && Hypotensive(systolic, diastolic))
  {
    ReasonOfSlashedValue(value);
    ReadingsWithDiastolic(Some(systolic), Some(diastolic));
  }

  /** `a/b` in decimal: a crisis iff a >= 180 or b >= 120, otherwise hypotension
      iff a < 90 or b < 60. */
  lemma BloodPressureReasonOfNumerals(a: nat, b: nat)
    ensures var r := BloodPressureReason(Some(NatToString(a) + "/" + NatToString(b)));
      (r == Some(HYPERTENSIVE_CRISIS) <==> a >= 180 || b >= 120)
      && (r == Some(HYPOTENSION) <==> a < 180 && b < 120 && (a < 90 || b < 60))
  {
    SlashBetween(NatToString(a), NatToString(b));
    BloodPressureNumerals(a, b);
    ReasonOfParts(NatToString(a) + "/" + NatToString(b), a as real, b as real);
  }

  lemma SlashBetween(x: string, y: string)
    ensures '/' in x + "/" + y
  {
    assert (x + "/" + y)[|x|] == '/';
  }

  /** Without a '/', the client judges the systolic number alone: a bare 180 or
      more is a hypertensive crisis on the client and not critical on the server. */
  lemma ClientFlagsBareSystolic(n: nat)
    requires n >= 180
    ensures BloodPressureReason(Some(NatToString(n))) == Some(HYPERTENSIVE_CRISIS)
    ensures !ReadingCritical(BLOOD_PRESSURE, NatToString(n))
  {
    var v := NatToString(n);
    DigitsHaveNoSlash(v);
    ReasonOfBareValue(v);
    NumeralReadsBack(n);
    assert ReasonOfReadings(Some(n as real), false, None) == Some(HYPERTENSIVE_CRISIS);
    BloodPressureEdgeCases(n, 0);
  }

  /** A non-empty value without a '/' is judged on its systolic number alone. */
  lemma ReasonOfBareValue(value: string)
    requires value != [] && '/' !in value
    ensures BloodPressureReason(Some(value)) == ReasonOfReadings(ToNumber(value), false, None)
  {
    assert IndexOf(value, '/') == |value|;
    assert Split(value, '/') == [value];
  }

  // ---------------------------------------------------------------------------
  // Formatters

  /** `formatAge(dob)`: 'N/A' without a date of birth, otherwise the completed
      years followed by " years"; the count is the number of birthdays reached. */
  method FormatAge(dob: Option<Date>, today: Date) returns (s: string)
    ensures dob.None? ==> s == "N/A"
    ensures dob.Some? ==> exists age: int ::
      s == IntToString(age) + " years"
      && OnOrBefore(Anniversary(dob.value, age), today) && Before(today, Anniversary(dob.value, age + 1))
  {
    if dob.None? {
      return "N/A";
    }
    var birthDate := dob.value;
    var age := today.year - birthDate.year;
    var monthDiff := today.month - birthDate.month;
    if monthDiff < 0 || (monthDiff == 0 && today.day < birthDate.day) {
      age := age - 1;
    }
    AgeCountsBirthdays(birthDate, today);
    assert age == AgeInYears(birthDate, today);
    s := IntToString(age) + " years";
  }

  /** `capitalizeFirstLetter`: '' for a falsy input, otherwise the first
      character upper-cased and the rest unchanged. */
  function CapitalizeFirstLetter(s: Option<string>): (r: string)
    ensures !Truthy(s) ==> r == []
    ensures Truthy(s) ==> |r| == |s.value| && r[1..] == s.value[1..]
    ensures Truthy(s) ==> !IsLowerAscii(r[0]) && (IsLowerAscii(s.value[0]) || r[0] == s.value[0])
    ensures Truthy(s) && IsLowerAscii(s.value[0]) ==> r[0] as int == s.value[0] as int - 32
  {
    if !Truthy(s) then [] else [UpperChar(s.value[0])] + s.value[1..]
  }

  /** Lower-casing undoes capitalising: a capitalised string and the original
      agree once both are lower-cased. */
  lemma LowerUndoesCapitalize(s: string)
    requires s != []
    ensures ToLower(CapitalizeFirstLetter(Some(s))) == ToLower(s)
  {
    var r := CapitalizeFirstLetter(Some(s));
    assert LowerChar(r[0]) == LowerChar(s[0]);
    assert forall i | 1 <= i < |r| :: r[i] == s[i];
  }

  /** Capitalising twice is capitalising once. */
  lemma CapitalizeIdempotent(s: Option<string>)
    ensures CapitalizeFirstLetter(Some(CapitalizeFirstLetter(s))) == CapitalizeFirstLetter(s)
  {
    var r := CapitalizeFirstLetter(s);
    if r != [] {
      assert UpperChar(r[0]) == r[0];
      assert [r[0]] + r[1..] == r;
    }
  }

  // ---------------------------------------------------------------------------
  // Test-type names

  /** What `mapping[type] || type` yields: a string, or, for a name the object
      literal inherits from Object.prototype, that inherited member (truthy). */
  datatype Mapped = Name(name: string) | PrototypeMember(key: string)

  const CLIENT_KEYS: seq<string> := ["bloodPressure", "heartRate", "oxygenLevel", "respiratoryRate"]
  const SERVER_NAMES: seq<string> := [BLOOD_PRESSURE, HEART_RATE, OXYGEN_LEVEL, RESPIRATORY_RATE]

  /** `normalizeTestType` */
  function NormalizeTestType(t: string): (r: Mapped)
    ensures forall k | 0 <= k < 4 :: t == CLIENT_KEYS[k] ==> r == Name(SERVER_NAMES[k])
    ensures t !in CLIENT_KEYS ==> r == (if InheritedKey(t) then PrototypeMember(t) else Name(t))
  {
    if t == "bloodPressure" then Name(BLOOD_PRESSURE)
    else if t == "heartRate" then Name(HEART_RATE)
    else if t == "oxygenLevel" then Name(OXYGEN_LEVEL)
    else if t == "respiratoryRate" then Name(RESPIRATORY_RATE)
    else if InheritedKey(t) then PrototypeMember(t)
    else Name(t)
  }

  /** `denormalizeTestType` */
  function DenormalizeTestType(t: string): (r: Mapped)
    ensures forall k | 0 <= k < 4 :: t == SERVER_NAMES[k] ==> r == Name(CLIENT_KEYS[k])
    ensures t !in SERVER_NAMES ==> r == (if InheritedKey(t) then PrototypeMember(t) else Name(t))
  {
    if t == BLOOD_PRESSURE then Name("bloodPressure")
    else if t == HEART_RATE then Name("heartRate")
    else if t == OXYGEN_LEVEL then Name("oxygenLevel")
    else if t == RESPIRATORY_RATE then Name("respiratoryRate")
    else if InheritedKey(t) then PrototypeMember(t)
    else Name(t)
  }

  /** Denormalizing undoes normalizing for every name that is neither a server
      name (which normalizing leaves alone but denormalizing maps) nor inherited. */
  lemma DenormalizeNormalize(t: string)
    requires t !in SERVER_NAMES && !InheritedKey(t)
    ensures NormalizeTestType(t).Name? && DenormalizeTestType(NormalizeTestType(t).name) == Name(t)
  {
  }

  /** Normalizing undoes denormalizing for every name that is neither a client
      key nor inherited. */
  lemma NormalizeDenormalize(t: string)
    requires t !in CLIENT_KEYS && !InheritedKey(t)
    ensures DenormalizeTestType(t).Name? && NormalizeTestType(DenormalizeTestType(t).name) == Name(t)
  {
  }

  /** The two tables are inverse on the four test types. */
  lemma TestTypeRoundTrips(k: nat)
    requires k < 4
    ensures NormalizeTestType(CLIENT_KEYS[k]) == Name(SERVER_NAMES[k])
    ensures DenormalizeTestType(SERVER_NAMES[k]) == Name(CLIENT_KEYS[k])
  {
  }

  /** A name inherited from Object.prototype is not returned unchanged: the
      lookup finds the prototype member, which is truthy. */
  lemma InheritedNamesAreNotStrings()
    ensures NormalizeTestType("constructor") == PrototypeMember("constructor")
    ensures DenormalizeTestType("toString") == PrototypeMember("toString")
  {
  }
}
