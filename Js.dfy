/** The few JavaScript string and number primitives the application relies on:
    String.prototype.split with a one-character separator, trim, ASCII case
    mapping, Number(string), parseFloat(string) and integer-to-string. A JavaScript
    number that may be NaN is an Option<real>: None stands for NaN, and NaN fails
    every comparison. */
module Js {

  datatype Option<+T> = None | Some(value: T)

  /** The outcome of an operation that can be refused. */
  datatype Result<+T, +E> = Ok(value: T) | Err(error: E)

  /** JavaScript's truth test on a string that may be undefined: absent and
      empty are false. */
  predicate Truthy(x: Option<string>) { x.Some? && x.value != [] }

  // ---------------------------------------------------------------------------
  // Characters

  predicate IsDigit(c: char) { '0' <= c <= '9' }

  predicate AllDigits(s: string) { forall i | 0 <= i < |s| :: IsDigit(s[i]) }

  /** The WhiteSpace and LineTerminator code points that trim(), Number() and the
      regular-expression class \s all use. */
  predicate IsWhiteSpace(c: char) {
    c == ' ' || c == '\t' || c == '\n' || c == '\r' || c == '\U{000B}' || c == '\U{000C}'
    || c == '\U{00A0}' || c == '\U{1680}' || ('\U{2000}' <= c <= '\U{200A}')
    || c == '\U{2028}' || c == '\U{2029}' || c == '\U{202F}' || c == '\U{205F}'
    || c == '\U{3000}' || c == '\U{FEFF}'
  }

  predicate IsUpperAscii(c: char) { 'A' <= c <= 'Z' }

  predicate IsLowerAscii(c: char) { 'a' <= c <= 'z' }

  function LowerChar(c: char): (d: char)
    ensures !IsUpperAscii(d)
    ensures IsUpperAscii(c) ==> d as int == c as int + 32
    ensures IsUpperAscii(c) || d == c
  {
    if IsUpperAscii(c) then (c as int + 32) as char else c
  }

  function UpperChar(c: char): (d: char)
    ensures !IsLowerAscii(d)
    ensures IsLowerAscii(c) ==> d as int == c as int - 32
    ensures IsLowerAscii(c) || d == c
  {
    if IsLowerAscii(c) then (c as int - 32) as char else c
  }

  /** String.prototype.toLowerCase on the ASCII letters; every other character is kept. */
  function ToLower(s: string): (t: string)
    ensures |t| == |s|
    ensures forall i | 0 <= i < |t| :: t[i] == LowerChar(s[i])
  {
    if s == [] then [] else [LowerChar(s[0])] + ToLower(s[1..])
  }

  lemma {:induction false} ToLowerIdempotent(s: string)
    ensures ToLower(ToLower(s)) == ToLower(s)
  {
    var t := ToLower(s);
    assert forall i | 0 <= i < |t| :: LowerChar(t[i]) == t[i];
  }

  // ---------------------------------------------------------------------------
  // Searching, splitting, trimming

  /** Index of the first occurrence of c in s, or |s| when there is none. */
  function IndexOf(s: string, c: char): (i: nat)
    ensures i <= |s|
    ensures i < |s| ==> s[i] == c
    ensures forall k | 0 <= k < i :: s[k] != c
  {
    if s == [] then 0
    else if s[0] == c then 0
    else 1 + IndexOf(s[1..], c)
  }

  /** s.split(sep) for a one-character separator: the maximal pieces between separators. */
  function Split(s: string, sep: char): (parts: seq<string>)
    ensures |parts| >= 1
    decreases |s|
  {
    var i := IndexOf(s, sep);
    if i == |s| then [s] else [s[..i]] + Split(s[i + 1..], sep)
  }

  /** parts.join(sep) */
  function Join(parts: seq<string>, sep: char): string
  {
    if parts == [] then []
    else if |parts| == 1 then parts[0]
    else parts[0] + [sep] + Join(parts[1..], sep)
  }

  /** Splitting and then joining with the same separator gives the string back,
      and no piece contains the separator. */
  lemma {:induction false} SplitJoin(s: string, sep: char)
    ensures Join(Split(s, sep), sep) == s
    ensures forall k | 0 <= k < |Split(s, sep)| :: sep !in Split(s, sep)[k]
    decreases |s|
  {
    var i := IndexOf(s, sep);
    if i < |s| {
      var rest := s[i + 1..];
      SplitJoin(rest, sep);
      assert Split(s, sep) == [s[..i]] + Split(rest, sep);
      assert s == s[..i] + [sep] + rest;
      forall k | 0 <= k < |Split(s, sep)| ensures sep !in Split(s, sep)[k] {
        if k > 0 { assert Split(s, sep)[k] == Split(rest, sep)[k - 1]; }
      }
    }
  }

  /** Joining pieces free of the separator and splitting again gives the
      pieces back. */
  lemma {:induction false} JoinSplit(parts: seq<string>, sep: char)
    requires |parts| >= 1
    requires forall k | 0 <= k < |parts| :: sep !in parts[k]
    ensures Split(Join(parts, sep), sep) == parts
    decreases |parts|
  {
    if |parts| == 1 {
      assert IndexOf(parts[0], sep) == |parts[0]|;
    } else {
      var x, rest := parts[0], Join(parts[1..], sep);
      assert Join(parts, sep) == x + [sep] + rest;
      SplitFirst(x, rest, sep);
      JoinSplit(parts[1..], sep);
      assert parts == [x] + parts[1..];
    }
  }

  /** A separator-free piece followed by the separator is split off first. */
  lemma SplitFirst(x: string, rest: string, sep: char)
    requires sep !in x
    ensures Split(x + [sep] + rest, sep) == [x] + Split(rest, sep)
  {
    var s := x + [sep] + rest;
    assert IndexOf(s, sep) == |x| by {
      IndexOfAfter(x, [sep] + rest, sep);
      assert s == x + ([sep] + rest);
    }
    assert s[..|x|] == x && s[|x| + 1..] == rest;
  }

  lemma {:induction false} IndexOfAfter(x: string, rest: string, c: char)
    requires c !in x
    ensures IndexOf(x + rest, c) == |x| + IndexOf(rest, c)
  {
    if x != [] {
      assert (x + rest)[1..] == x[1..] + rest;
      IndexOfAfter(x[1..], rest, c);
    } else {
      assert x + rest == rest;
    }
  }

  /** Two separator-free pieces joined by the separator split back into the pieces. */
  lemma SplitTwo(x: string, y: string, sep: char)
    requires sep !in x && sep !in y
    ensures Split(x + [sep] + y, sep) == [x, y]
  {
    var v := x + [sep] + y;
    IndexOfAfter(x, [sep] + y, sep);
    assert v == x + ([sep] + y);
    assert v[..|x|] == x;
    assert v[|x| + 1..] == y;
    assert IndexOf(y, sep) == |y|;
  }

  function TrimStart(s: string): (t: string)
    ensures |t| <= |s| && t == s[|s| - |t|..]
    ensures t == [] || !IsWhiteSpace(t[0])
  {
    if s != [] && IsWhiteSpace(s[0]) then TrimStart(s[1..]) else s
  }

  function TrimEnd(s: string): (t: string)
    ensures |t| <= |s| && t == s[..|t|]
    ensures t == [] || !IsWhiteSpace(t[|t| - 1])
  {
    if s != [] && IsWhiteSpace(s[|s| - 1]) then TrimEnd(s[..|s| - 1]) else s
  }

  predicate AllWhiteSpace(s: string) {
    forall i | 0 <= i < |s| :: IsWhiteSpace(s[i])
  }

  /** Everything of s outside the n characters from a is white space. */
  predicate WhiteSpaceMargins(s: string, a: nat, n: nat) {
    a + n <= |s| && AllWhiteSpace(s[..a]) && AllWhiteSpace(s[a + n..])
  }

  /** String.prototype.trim; TrimRemovesMargins states what it removes. */
  function Trim(s: string): (t: string)
    ensures |t| <= |s|
    ensures t == [] || (!IsWhiteSpace(t[0]) && !IsWhiteSpace(t[|t| - 1]))
  {
    TrimEnd(TrimStart(s))
  }

  /** TrimStart removes white space only. */
  lemma {:induction false} TrimStartMargin(s: string)
    ensures AllWhiteSpace(s[..|s| - |TrimStart(s)|])
  {
    if s != [] && IsWhiteSpace(s[0]) {
      TrimStartMargin(s[1..]);
      assert s[..|s| - |TrimStart(s)|] == [s[0]] + s[1..][..|s[1..]| - |TrimStart(s[1..])|];
    }
  }

  /** TrimEnd removes white space only. */
  lemma {:induction false} TrimEndMargin(s: string)
    ensures AllWhiteSpace(s[|TrimEnd(s)|..])
  {
    if s != [] && IsWhiteSpace(s[|s| - 1]) {
      var p := s[..|s| - 1];
      TrimEndMargin(p);
      assert s[|TrimEnd(s)|..] == p[|TrimEnd(p)|..] + [s[|s| - 1]];
    }
  }

  /** Trim keeps a contiguous part of s whose two margins are white space;
      with Trim's own ensures (its ends are not white space) this determines
      the result. */
  lemma TrimRemovesMargins(s: string)
    ensures exists a: nat :: WhiteSpaceMargins(s, a, |Trim(s)|) && Trim(s) == s[a..a + |Trim(s)|]
  {
    TrimAt(s);
  }

  /** The margins of Trim, at the offset TrimStart leaves. */
  lemma TrimAt(s: string)
    ensures var a := |s| - |TrimStart(s)|;
      WhiteSpaceMargins(s, a, |Trim(s)|) && Trim(s) == s[a..a + |Trim(s)|]
  {
    var u := TrimStart(s);
    var t := TrimEnd(u);
    TrimStartMargin(s);
    TrimEndMargin(u);
    MarginsOfParts(s, u, t);
  }

  /** A suffix u of s after white space, and a prefix t of u before white
      space, leave white-space margins around t in s. */
  lemma MarginsOfParts(s: string, u: string, t: string)
    requires |u| <= |s| && u == s[|s| - |u|..] && AllWhiteSpace(s[..|s| - |u|])
    requires |t| <= |u| && t == u[..|t|] && AllWhiteSpace(u[|t|..])
    ensures WhiteSpaceMargins(s, |s| - |u|, |t|) && t == s[|s| - |u|..|s| - |u| + |t|]
  {
    var a := |s| - |u|;
    assert s[a + |t|..] == u[|t|..];
  }

  /** The lower-case and trim setters commute, so the order in which a schema
      applies them does not matter. */
  lemma LowerTrimCommute(s: string)
    ensures ToLower(Trim(s)) == Trim(ToLower(s))
  {
    LowerTrimStart(s);
    LowerTrimEnd(TrimStart(s));
  }

  lemma LowerKeepsWhiteSpace(c: char)
    ensures IsWhiteSpace(LowerChar(c)) <==> IsWhiteSpace(c)
  {
  }

  lemma {:induction false} LowerTrimStart(s: string)
    ensures ToLower(TrimStart(s)) == TrimStart(ToLower(s))
  {
    if s != [] {
      var l := ToLower(s);
      assert l[0] == LowerChar(s[0]);
      LowerKeepsWhiteSpace(s[0]);
      if IsWhiteSpace(s[0]) {
        assert l[1..] == ToLower(s[1..]);
        LowerTrimStart(s[1..]);
      }
    }
  }

  lemma {:induction false} LowerTrimEnd(s: string)
    ensures ToLower(TrimEnd(s)) == TrimEnd(ToLower(s))
  {
    if s != [] {
      var l := ToLower(s);
      var n := |s| - 1;
      LowerKeepsWhiteSpace(s[n]);
      if IsWhiteSpace(s[n]) {
        assert IsWhiteSpace(l[n]);
        assert TrimEnd(s) == TrimEnd(s[..n]);
        assert TrimEnd(l) == TrimEnd(l[..n]);
        ToLowerPrefix(s, n);
        LowerTrimEnd(s[..n]);
      } else {
        assert !IsWhiteSpace(l[n]);
        assert TrimEnd(s) == s && TrimEnd(l) == l;
      }
    }
  }

  lemma ToLowerPrefix(s: string, n: nat)
    requires n <= |s|
    ensures ToLower(s)[..n] == ToLower(s[..n])
  {
  }

  lemma TrimNoWhiteSpace(s: string)
    requires forall i | 0 <= i < |s| :: !IsWhiteSpace(s[i])
    ensures Trim(s) == s
  {
  }

  predicate OccursAt(s: string, pat: string, j: nat) {
    j + |pat| <= |s| && s[j..j + |pat|] == pat
  }

  /** Index of the first occurrence of pat in s at or after k. */
  function FindFrom(s: string, pat: string, k: nat): (r: Option<nat>)
    ensures r.Some? ==> k <= r.value && OccursAt(s, pat, r.value)
    ensures r.Some? ==> forall j: nat | k <= j < r.value :: !OccursAt(s, pat, j)
    ensures r.None? ==> forall j: nat | k <= j :: !OccursAt(s, pat, j)
    decreases |s| - k
  {
    if k + |pat| > |s| then None
    else if s[k..k + |pat|] == pat then Some(k)
    else FindFrom(s, pat, k + 1)
  }

  /** s.replace(pat, rep) with a string pattern: only the first occurrence is replaced. */
  function ReplaceFirst(s: string, pat: string, rep: string): string
  {
    match FindFrom(s, pat, 0)
    case None => s
    case Some(i) => s[..i] + rep + s[i + |pat|..]
  }

  /** The property names every object literal inherits from Object.prototype,
      so that `literal[name]` is a function or an object, and truthy, even on a
      literal that does not list the name. */
  predicate InheritedKey(name: string) {
    name in {"constructor", "hasOwnProperty", "isPrototypeOf", "propertyIsEnumerable",
             "toString", "toLocaleString", "valueOf", "__proto__", "__defineGetter__",
             "__defineSetter__", "__lookupGetter__", "__lookupSetter__"}
  }

  // ---------------------------------------------------------------------------
  // Numbers

  function DigitValue(c: char): nat
    requires IsDigit(c)
  {
    c as int - '0' as int
  }

  /** The value of a run of decimal digits, most significant first. */
  function DigitsValue(s: string): nat
    requires AllDigits(s)
  {
    if s == [] then 0 else 10 * DigitsValue(s[..|s| - 1]) + DigitValue(s[|s| - 1])
  }

  function Pow10(n: nat): (p: nat)
    ensures p >= 1
  {
    if n == 0 then 1 else 10 * Pow10(n - 1)
  }

  /** Length of the longest prefix of s made of decimal digits. */
  function DigitRun(s: string): (n: nat)
    ensures n <= |s|
    ensures forall i | 0 <= i < n :: IsDigit(s[i])
    ensures n < |s| ==> !IsDigit(s[n])
  {
    if s != [] && IsDigit(s[0]) then 1 + DigitRun(s[1..]) else 0
  }

  /** The value of `digits` or `digits.fraction`; `frac` holds the digits after the point. */
  function DecimalValue(whole: string, frac: string): real
    requires AllDigits(whole) && AllDigits(frac)
  {
    DigitsValue(whole) as real + DigitsValue(frac) as real / Pow10(|frac|) as real
  }

  /** An unsigned decimal literal occupying all of s: `12`, `12.`, `12.5` or `.5`. */
  function UnsignedDecimal(s: string): Option<real>
  {
    var n := DigitRun(s);
    if n == |s| then
      (if n > 0 then Some(DigitsValue(s) as real) else None)
    else if s[n] == '.' then
      var rest := s[n + 1..];
      var m := DigitRun(rest);
      if m == |rest| && (n > 0 || m > 0) then Some(DecimalValue(s[..n], rest)) else None
    else None
  }

  function Negate(x: Option<real>): Option<real>
  {
    if x.Some? then Some(-x.value) else None
  }

  /** Number(s) for a string s: surrounding white space is ignored, the empty
      string is 0, and anything that is not a (signed) decimal literal is NaN. */
  function ToNumber(s: string): Option<real>
  {
    var t := Trim(s);
    if t == [] then Some(0.0)
    else if t[0] == '-' then Negate(UnsignedDecimal(t[1..]))
    else if t[0] == '+' then UnsignedDecimal(t[1..])
    else UnsignedDecimal(t)
  }

  /** The longest decimal prefix of s (leading white space skipped), as parseFloat reads it. */
  function UnsignedPrefix(s: string): Option<real>
  {
    var n := DigitRun(s);
    if n < |s| && s[n] == '.' then
      var rest := s[n + 1..];
      var m := DigitRun(rest);
      if n > 0 || m > 0 then Some(DecimalValue(s[..n], rest[..m])) else None
    else if n > 0 then Some(DigitsValue(s[..n]) as real)
    else None
  }

  /** parseFloat(s): NaN unless some digits follow the optional sign. */
  function ParseFloat(s: string): Option<real>
  {
    var t := TrimStart(s);
    if t != [] && t[0] == '-' then Negate(UnsignedPrefix(t[1..]))
    else if t != [] && t[0] == '+' then UnsignedPrefix(t[1..])
    else UnsignedPrefix(t)
  }

  // Comparisons of a possibly-NaN number with a constant: NaN makes each false.
  predicate Le(x: Option<real>, c: real) { x.Some? && x.value <= c }
  predicate Lt(x: Option<real>, c: real) { x.Some? && x.value < c }
  predicate Ge(x: Option<real>, c: real) { x.Some? && x.value >= c }

  // ---------------------------------------------------------------------------
  // Integer to string, as template literals and String(n) render integers

  function DigitChar(d: nat): (c: char)
    requires d < 10
    ensures IsDigit(c) && DigitValue(c) == d
  {
    ('0' as int + d) as char
  }

  function NatToString(n: nat): (s: string)
    ensures s != [] && AllDigits(s)
  {
    if n < 10 then [DigitChar(n)] else NatToString(n / 10) + [DigitChar(n % 10)]
  }

  function IntToString(i: int): (s: string)
    ensures s != []
  {
    if i < 0 then "-" + NatToString(-i) else NatToString(i)
  }

  lemma {:induction false} NatToStringValue(n: nat)
    ensures DigitsValue(NatToString(n)) == n
  {
    if n >= 10 {
      NatToStringValue(n / 10);
      var s := NatToString(n);
      assert s[..|s| - 1] == NatToString(n / 10);
    }
  }

  lemma DecimalOfAllDigits(s: string)
    requires s != [] && AllDigits(s)
    ensures UnsignedDecimal(s) == Some(DigitsValue(s) as real)
  {
    assert DigitRun(s) == |s| by { DigitRunAll(s); }
  }

  lemma {:induction false} DigitRunAll(s: string)
    requires AllDigits(s)
    ensures DigitRun(s) == |s|
  {
    if s != [] { DigitRunAll(s[1..]); }
  }

  /** parseFloat reads a whole run of digits as its decimal value. */
  lemma ParseFloatOfDigits(s: string)
    requires s != [] && AllDigits(s)
    ensures ParseFloat(s) == Some(DigitsValue(s) as real)
  {
    assert IsDigit(s[0]);
    assert TrimStart(s) == s;
    assert UnsignedPrefix(s) == Some(DigitsValue(s) as real) by {
      DigitRunAll(s);
      WholePrefix(s);
    }
  }

  lemma WholePrefix(s: string)
    ensures s[..|s|] == s
  {
  }

  lemma NumeralHasNoWhiteSpace(i: int)
    ensures forall k | 0 <= k < |IntToString(i)| :: !IsWhiteSpace(IntToString(i)[k])
  {
    var s := IntToString(i);
    forall k | 0 <= k < |s| ensures !IsWhiteSpace(s[k]) {
      assert s[k] == '-' || IsDigit(s[k]);
    }
  }

  /** Printing a natural number and reading it back with Number() is the identity. */
  lemma NatRoundTrip(n: nat)
    ensures ToNumber(NatToString(n)) == Some(n as real)
  {
    var d := NatToString(n);
    DigitsRoundTrip(n);
    assert Trim(d) == d by { DigitsTrimmed(d); }
    assert IsDigit(d[0]);
    UnsignedNumeral(d, n as real);
  }

  /** The same for a negative number: its numeral reads back as its negation. */
  lemma NegativeRoundTrip(n: nat)
    ensures ToNumber("-" + NatToString(n)) == Some(-(n as real))
  {
    var d := NatToString(n);
    DigitsRoundTrip(n);
    NegativeNumeralShape(d);
    NegativeNumeral("-" + d, d, n as real);
  }

  lemma NegativeNumeralShape(d: string)
    requires AllDigits(d)
    ensures var s := "-" + d; s != [] && s[0] == '-' && s[1..] == d && Trim(s) == s
  {
    SignedTail('-', d);
    SignedTrimmed('-', d);
  }

  lemma DigitsTrimmed(d: string)
    requires AllDigits(d)
    ensures Trim(d) == d
  {
    forall k | 0 <= k < |d| ensures !IsWhiteSpace(d[k]) {
      assert IsDigit(d[k]);
    }
    TrimNoWhiteSpace(d);
  }

  lemma SignedTrimmed(c: char, d: string)
    requires c == '-' && AllDigits(d)
    ensures Trim([c] + d) == [c] + d && Trim("-" + d) == "-" + d
  {
    var s := [c] + d;
    forall k | 0 <= k < |s| ensures !IsWhiteSpace(s[k]) {
      assert k == 0 || s[k] == d[k - 1];
    }
    TrimNoWhiteSpace(s);
  }

  lemma UnsignedNumeral(s: string, x: real)
    requires Trim(s) == s && s != [] && IsDigit(s[0]) && UnsignedDecimal(s) == Some(x)
    ensures ToNumber(s) == Some(x)
  {
  }

  lemma NegativeNumeral(s: string, d: string, x: real)
    requires s != [] && s[0] == '-' && s[1..] == d && Trim(s) == s && UnsignedDecimal(d) == Some(x)
    ensures ToNumber(s) == Some(-x)
  {
    assert ToNumber(s) == Negate(UnsignedDecimal(d));
    NegateSome(UnsignedDecimal(d), x);
  }

  lemma SignedTail(c: char, d: string)
    ensures ([c] + d)[0] == c && ([c] + d)[1..] == d
  {
  }

  lemma NegateSome(u: Option<real>, x: real)
    requires u == Some(x)
    ensures Negate(u) == Some(-x)
  {
  }

  lemma DigitsRoundTrip(n: nat)
    ensures UnsignedDecimal(NatToString(n)) == Some(n as real)
  {
    NatToStringValue(n);
    DecimalOfAllDigits(NatToString(n));
  }
}
