/** The three regular expressions the application uses, written out by hand:
    the e-mail shape /^[^\s@]+@[^\s@]+\.[^\s@]+$/ (Patient and User schemas and the
    client's validateEmail), ten digits /^[0-9]{10}$/ (contact numbers, validatePhone)
    and /^\d+\/\d+$/ (validateBloodPressure). */
module Patterns {
  import opened Js

  /** [^\s@]+ : one or more characters that are neither white space nor '@'. */
  predicate EmailPart(s: string) {
    s != [] && forall i | 0 <= i < |s| :: !IsWhiteSpace(s[i]) && s[i] != '@'
  }

  /** /^[^\s@]+@[^\s@]+\.[^\s@]+$/ : the string splits as part '@' part '.' part. */
  predicate EmailPattern(s: string) {
    exists at, dot | 0 < at < dot < |s| - 1 ::
      s[at] == '@' && s[dot] == '.' &&
      EmailPart(s[..at]) && EmailPart(s[at + 1..dot]) && EmailPart(s[dot + 1..])
  }

  /** A left-to-right reading of the same expression, the way a matcher finds it:
      no white space at all, exactly one '@' which is not first, and a '.' somewhere
      strictly between the character after the '@' and the last character. */
  predicate EmailScan(s: string) {
    var at := IndexOf(s, '@');
    (forall i | 0 <= i < |s| :: !IsWhiteSpace(s[i])) &&
    0 < at && at + 2 < |s| && '@' !in s[at + 1..] && '.' in s[at + 2..|s| - 1]
  }

  lemma EmailScanMatchesPattern(s: string)
    ensures EmailScan(s) <==> EmailPattern(s)
  {
    if EmailScan(s) { ScanGivesPattern(s); }
    if EmailPattern(s) {
      var at, dot :| 0 < at < dot < |s| - 1 &&
        s[at] == '@' && s[dot] == '.' &&
        EmailPart(s[..at]) && EmailPart(s[at + 1..dot]) && EmailPart(s[dot + 1..]);
      PatternGivesScan(s, at, dot);
    }
  }

  lemma ScanGivesPattern(s: string)
    requires EmailScan(s)
    ensures EmailPattern(s)
  {
    var at := IndexOf(s, '@');
    var mid := s[at + 2..|s| - 1];
    var k :| 0 <= k < |mid| && mid[k] == '.';
    var dot := at + 2 + k;
    assert s[dot] == '.';
    var tail := s[at + 1..];
    assert forall i | at + 1 <= i < |s| :: s[i] == tail[i - at - 1];
    assert EmailPart(s[..at]);
    assert EmailPart(s[at + 1..dot]);
    assert EmailPart(s[dot + 1..]);
  }

  lemma PatternGivesScan(s: string, at: nat, dot: nat)
    requires 0 < at < dot < |s| - 1 && s[at] == '@' && s[dot] == '.'
    requires EmailPart(s[..at]) && EmailPart(s[at + 1..dot]) && EmailPart(s[dot + 1..])
    ensures EmailScan(s)
  {
    assert forall i | 0 <= i < at :: s[i] == s[..at][i];
    assert forall i | at < i < dot :: s[i] == s[at + 1..dot][i - at - 1];
    assert forall i | dot < i < |s| :: s[i] == s[dot + 1..][i - dot - 1];
    assert IndexOf(s, '@') == at;
    assert '@' !in s[at + 1..];
    assert s[at + 2..|s| - 1][dot - at - 2] == '.';
  }

  /** Every string the e-mail expression accepts has exactly one '@' and no white space. */
  lemma EmailHasSingleAt(s: string, i: nat, j: nat)
    requires EmailPattern(s)
    requires i < |s| && j < |s| && s[i] == '@' && s[j] == '@'
    ensures i == j && !IsWhiteSpace(s[i])
  {
    var at, dot :| 0 < at < dot < |s| - 1 &&
      s[at] == '@' && s[dot] == '.' &&
      EmailPart(s[..at]) && EmailPart(s[at + 1..dot]) && EmailPart(s[dot + 1..]);
    NotAtOutside(s, at, dot, i);
    NotAtOutside(s, at, dot, j);
  }

  lemma NotAtOutside(s: string, at: nat, dot: nat, i: nat)
    requires 0 < at < dot < |s| - 1 && s[at] == '@' && s[dot] == '.'
    requires EmailPart(s[..at]) && EmailPart(s[at + 1..dot]) && EmailPart(s[dot + 1..])
    requires i < |s| && s[i] == '@'
    ensures i == at
  {
    forall k | 0 <= k < |s| && k != at ensures s[k] != '@' {
      if k < at {
        assert s[..at][k] == s[k];
      } else if k < dot {
        assert s[at + 1..dot][k - at - 1] == s[k];
      } else if k > dot {
        assert s[dot + 1..][k - dot - 1] == s[k];
      }
    }
  }

  /** /^[0-9]{10}$/ (and /^\d{10}$/: \d is the ASCII digits). */
  predicate TenDigits(s: string) {
    |s| == 10 && AllDigits(s)
  }

  /** /^\d+\/\d+$/ */
  predicate BloodPressurePattern(s: string) {
    exists i | 0 < i < |s| - 1 :: s[i] == '/' && AllDigits(s[..i]) && AllDigits(s[i + 1..])
  }

  /** A string of the blood-pressure shape splits on '/' into exactly two digit runs. */
  lemma BloodPressurePatternSplits(s: string)
    requires BloodPressurePattern(s)
    ensures var parts := Split(s, '/');
      |parts| == 2 && parts[0] != [] && parts[1] != [] && AllDigits(parts[0]) && AllDigits(parts[1])
  {
    var i :| 0 < i < |s| - 1 && s[i] == '/' && AllDigits(s[..i]) && AllDigits(s[i + 1..]);
    assert forall k | 0 <= k < i :: s[k] == s[..i][k];
    assert IndexOf(s, '/') == i;
    var rest := s[i + 1..];
    assert IndexOf(rest, '/') == |rest|;
  }

  /** The converse: a string that splits on '/' into two non-empty digit runs
      has the blood-pressure shape. */
  lemma TwoRunsGiveBloodPressurePattern(s: string)
    requires var parts := Split(s, '/');
      |parts| == 2 && parts[0] != [] && parts[1] != [] && AllDigits(parts[0]) && AllDigits(parts[1])
    ensures BloodPressurePattern(s)
  {
    var parts := Split(s, '/');
    var x, y := parts[0], parts[1];
    SplitJoin(s, '/');
    assert Join(parts, '/') == x + ['/'] + y;
    var i := |x|;
    assert s[i] == '/' && s[..i] == x && s[i + 1..] == y;
  }

  /** The blood-pressure shape is exactly a split into two non-empty digit runs. */
  lemma BloodPressurePatternIff(s: string)
    ensures var parts := Split(s, '/');
      BloodPressurePattern(s) <==>
      |parts| == 2 && parts[0] != [] && parts[1] != [] && AllDigits(parts[0]) && AllDigits(parts[1])
  {
    var parts := Split(s, '/');
    if BloodPressurePattern(s) {
      BloodPressurePatternSplits(s);
    }
    if |parts| == 2 && parts[0] != [] && parts[1] != [] && AllDigits(parts[0]) && AllDigits(parts[1]) {
      TwoRunsGiveBloodPressurePattern(s);
    }
  }
}
