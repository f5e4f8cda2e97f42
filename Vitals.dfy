/** The numeric reading of a vital-sign string and the fixed thresholds that
    both the server's pre-save classifier and the client's checks apply.
    Blood pressure is read as `value.split('/').map(Number)` destructured into
    [systolic, diastolic] (a missing second part is undefined, hence NaN); the
    other vitals are read with parseFloat. */
module Vitals {
  import opened Js

  /** `const [systolic, diastolic] = value.split('/').map(Number)` */
  function BloodPressureParts(value: string): (r: (Option<real>, Option<real>))
    ensures '/' !in value ==> r.1.None?
  {
    var parts := Split(value, '/');
    (ToNumber(parts[0]), if |parts| > 1 then ToNumber(parts[1]) else None)
  }

  predicate Hypertensive(systolic: real, diastolic: real) { systolic >= 180.0 || diastolic >= 120.0 }
  predicate Hypotensive(systolic: real, diastolic: real) { systolic < 90.0 || diastolic < 60.0 }

  predicate Bradycardic(heartRate: Option<real>) { Le(heartRate, 50.0) }
  predicate Tachycardic(heartRate: Option<real>) { Ge(heartRate, 120.0) }
  predicate LowOxygen(oxygen: Option<real>) { Lt(oxygen, 90.0) }
  predicate Bradypneic(rate: Option<real>) { Le(rate, 10.0) }
  predicate Tachypneic(rate: Option<real>) { Ge(rate, 30.0) }

  /** Both parts parse and one of the four blood-pressure thresholds is crossed. */
  predicate BloodPressureOutOfRange(value: string) {
    var (s, d) := BloodPressureParts(value);
    s.Some? && d.Some? && (Hypertensive(s.value, d.value) || Hypotensive(s.value, d.value))
  }

  // ---------------------------------------------------------------------------
  // Reading numerals

  lemma DigitsHaveNoSlash(s: string)
    requires AllDigits(s)
    ensures '/' !in s
  {
    forall k | 0 <= k < |s| ensures s[k] != '/' {
      assert IsDigit(s[k]);
    }
  }

  lemma NumeralReadsBack(n: nat)
    ensures ToNumber(NatToString(n)) == Some(n as real)
    ensures ParseFloat(NatToString(n)) == Some(n as real)
  {
    NatRoundTrip(n);
    NatToStringValue(n);
    ParseFloatOfDigits(NatToString(n));
  }

  /** `a/b` written in decimal splits into the two numbers. */
  lemma BloodPressureNumerals(a: nat, b: nat)
    ensures BloodPressureParts(NatToString(a) + "/" + NatToString(b)) == (Some(a as real), Some(b as real))
  {
    var sa := NatToString(a);
    var sb := NatToString(b);
    DigitsHaveNoSlash(sa);
    DigitsHaveNoSlash(sb);
    SplitTwo(sa, sb, '/');
    assert sa + "/" + sb == sa + ['/'] + sb;
    NumeralReadsBack(a);
    NumeralReadsBack(b);
  }

  lemma OutOfRangeOfParts(v: string, x: real, y: real)
    requires BloodPressureParts(v) == (Some(x), Some(y))
    ensures BloodPressureOutOfRange(v) <==> Hypertensive(x, y) || Hypotensive(x, y)
  {
  }

  /** For decimal numerals, the blood-pressure rule is exactly the four thresholds. */
  lemma BloodPressureOfNumerals(a: nat, b: nat)
    ensures BloodPressureOutOfRange(NatToString(a) + "/" + NatToString(b))
            <==> a >= 180 || b >= 120 || a < 90 || b < 60
  {
    BloodPressureNumerals(a, b);
    OutOfRangeOfParts(NatToString(a) + "/" + NatToString(b), a as real, b as real);
  }

  /** A value without '/' has no diastolic part and is never out of range. */
  lemma NoSlashNotOutOfRange(value: string)
    requires '/' !in value
    ensures !BloodPressureOutOfRange(value)
  {
  }

  /** An empty systolic part reads as Number('') = 0, below 90. */
  lemma EmptySystolicOutOfRange(b: nat)
    ensures BloodPressureOutOfRange("/" + NatToString(b))
  {
    var sb := NatToString(b);
    var v := "/" + sb;
    assert IndexOf(v, '/') == 0;
    assert v[1..] == sb;
    DigitsHaveNoSlash(sb);
    assert IndexOf(sb, '/') == |sb|;
    assert Split(v, '/') == [""] + Split(sb, '/');
    NumeralReadsBack(b);
  }
}
