/** The few JavaScript string and number built-ins the controllers rely on:
    `\s` and `trim`, ASCII `toLowerCase`, `String(n)` for integers and
    `parseInt` without a radix. */
module Js {
  import opened Wrappers

  /** ECMAScript WhiteSpace and LineTerminator: what `\s` matches and what
      `String.prototype.trim` strips. */
  predicate IsSpace(c: char) {
    c == '\t' || c == '\n' || c == '\U{B}' || c == '\U{C}' || c == '\r' || c == ' '
    || c == '\U{A0}' || c == '\U{1680}' || ('\U{2000}' <= c <= '\U{200A}')
    || c == '\U{2028}' || c == '\U{2029}' || c == '\U{202F}' || c == '\U{205F}'
    || c == '\U{3000}' || c == '\U{FEFF}'
  }

  predicate NoSpace(s: string) {
    forall i :: 0 <= i < |s| ==> !IsSpace(s[i])
  }

  /** `trimStart`: the suffix left after the maximal run of leading whitespace. */
  function TrimStart(s: string): (r: string)
    ensures |r| <= |s|
    ensures r == [] || !IsSpace(r[0])
  {
    if s != [] && IsSpace(s[0]) then TrimStart(s[1..]) else s
  }

  /** What `trimStart` keeps is the rest of the string, unchanged. */
  lemma {:induction false} TrimStartKeepsRest(s: string, i: nat)
    requires i < |TrimStart(s)|
    ensures TrimStart(s)[i] == s[|s| - |TrimStart(s)| + i]
  {
    if s != [] && IsSpace(s[0]) {
      TrimStartKeepsRest(s[1..], i);
    }
  }

  /** What `trimStart` removes is whitespace. */
  lemma {:induction false} TrimStartSkipsSpace(s: string, i: nat)
    requires i < |s| - |TrimStart(s)|
    ensures IsSpace(s[i])
  {
    assert IsSpace(s[0]);
    if i > 0 {
      TrimStartSkipsSpace(s[1..], i - 1);
    }
  }

  /** `trimEnd`: the prefix left after the maximal run of trailing whitespace. */
  function TrimEnd(s: string): (r: string)
    ensures |r| <= |s| && forall i :: 0 <= i < |r| ==> r[i] == s[i]
    ensures r == [] || !IsSpace(r[|r| - 1])
    ensures forall i :: |r| <= i < |s| ==> IsSpace(s[i])
  {
    if s != [] && IsSpace(s[|s| - 1]) then TrimEnd(s[..|s| - 1]) else s
  }

  /** `trim`: neither end of the result is whitespace. */
  function Trim(s: string): (r: string)
    ensures |r| <= |s|
    ensures r == [] || (!IsSpace(r[0]) && !IsSpace(r[|r| - 1]))
  {
    TrimEnd(TrimStart(s))
  }

  /** A string whose ends are not whitespace is its own trim. */
  lemma TrimKeepsTrimmed(s: string)
    requires s == [] || (!IsSpace(s[0]) && !IsSpace(s[|s| - 1]))
    ensures Trim(s) == s
  {
  }

  lemma TrimIdempotent(s: string)
    ensures Trim(Trim(s)) == Trim(s)
  {
    TrimKeepsTrimmed(Trim(s));
  }

  /** `toLowerCase` on one character, restricted to ASCII. */
  function LowerChar(c: char): char {
    if 'A' <= c <= 'Z' then (c as int + 32) as char else c
  }

  predicate IsUpper(c: char) {
    'A' <= c <= 'Z'
  }

  /** `toLowerCase` (ASCII letters only). */
  function ToLower(s: string): (r: string)
    ensures |r| == |s|
    ensures forall i :: 0 <= i < |s| ==> !IsUpper(r[i])
    ensures forall i :: 0 <= i < |s| ==> r[i] == LowerChar(s[i])
  {
    seq(|s|, i requires 0 <= i < |s| => LowerChar(s[i]))
  }

  lemma LowerKeepsSpace(c: char)
    ensures IsSpace(LowerChar(c)) == IsSpace(c)
  {
  }

  lemma {:induction false} TrimStartLower(s: string)
    ensures TrimStart(ToLower(s)) == ToLower(TrimStart(s))
  {
    if s != [] {
      LowerKeepsSpace(s[0]);
      if IsSpace(s[0]) {
        assert ToLower(s)[1..] == ToLower(s[1..]);
        TrimStartLower(s[1..]);
      }
    }
  }

  lemma {:induction false} TrimEndLower(s: string)
    ensures TrimEnd(ToLower(s)) == ToLower(TrimEnd(s))
  {
    if s != [] {
      var p := s[..|s| - 1];
      LowerLast(s);
      LowerKeepsSpace(s[|s| - 1]);
      if IsSpace(s[|s| - 1]) {
        TrimEndLower(p);
      }
    }
  }

  /** Lowercasing a string lowercases its last character and the prefix
      before it separately. */
  lemma LowerLast(s: string)
    requires s != []
    ensures ToLower(s)[..|s| - 1] == ToLower(s[..|s| - 1])
    ensures ToLower(s)[|s| - 1] == LowerChar(s[|s| - 1])
  {
  }

  /** Lowercasing and trimming commute, so the order in which the schema's
      `lowercase` and `trim` setters run does not matter. */
  lemma TrimLowerCommute(s: string)
    ensures Trim(ToLower(s)) == ToLower(Trim(s))
  {
    TrimStartLower(s);
    TrimEndLower(TrimStart(s));
  }

  /** `email.toLowerCase().trim()`. */
  function LowerTrim(s: string): (r: string)
    ensures |r| <= |s|
    ensures forall i :: 0 <= i < |r| ==> !IsUpper(r[i])
    ensures r == [] || (!IsSpace(r[0]) && !IsSpace(r[|r| - 1]))
  {
    var l := ToLower(s);
    TrimKeepsLower(l);
    Trim(l)
  }

  /** Trimming only removes characters, so it adds no upper-case letter. */
  lemma TrimKeepsLower(l: string)
    requires forall i :: 0 <= i < |l| ==> !IsUpper(l[i])
    ensures forall i :: 0 <= i < |Trim(l)| ==> !IsUpper(Trim(l)[i])
  {
    forall i | 0 <= i < |Trim(l)| ensures !IsUpper(Trim(l)[i]) {
      TrimStartKeepsRest(l, i);
    }
  }

  /** Normalising an already normalised email changes nothing. */
  lemma LowerTrimIdempotent(s: string)
    ensures LowerTrim(LowerTrim(s)) == LowerTrim(s)
  {
    var r := LowerTrim(s);
    LowerKeepsLower(r);
    TrimKeepsTrimmed(r);
    assert LowerTrim(r) == Trim(ToLower(r));
  }

  /** Text without upper-case letters is its own lowercase. */
  lemma LowerKeepsLower(s: string)
    requires forall i :: 0 <= i < |s| ==> !IsUpper(s[i])
    ensures ToLower(s) == s
  {
    var l := ToLower(s);
    assert forall i :: 0 <= i < |s| ==> l[i] == s[i];
  }

  // ---------------------------------------------------------------- numbers

  predicate IsDigit(c: char) {
    '0' <= c <= '9'
  }

  /** A digit of base 10, or of base 16 when `hex` holds. */
  predicate IsRadixDigit(c: char, hex: bool) {
    IsDigit(c) || (hex && ('a' <= c <= 'f' || 'A' <= c <= 'F'))
  }

  predicate AllRadixDigits(s: string, hex: bool) {
    forall i :: 0 <= i < |s| ==> IsRadixDigit(s[i], hex)
  }

  function RadixDigitValue(c: char, hex: bool): (d: nat)
    requires IsRadixDigit(c, hex)
    ensures d < (if hex then 16 else 10)
  {
    if IsDigit(c) then c as int - '0' as int
    else if 'a' <= c <= 'f' then c as int - 'a' as int + 10
    else c as int - 'A' as int + 10
  }

  /** The value of a digit string, most significant digit first. */
  function RadixValue(s: string, hex: bool): nat
    requires AllRadixDigits(s, hex)
  {
    if s == [] then 0
    else RadixValue(s[..|s| - 1], hex) * (if hex then 16 else 10) + RadixDigitValue(s[|s| - 1], hex)
  }

  function DigitChar(d: nat): (c: char)
    requires d < 10
    ensures IsDigit(c) && RadixDigitValue(c, false) == d
  {
    ('0' as int + d) as char
  }

  /** `String(n)` for a non-negative integer: decimal, no leading zero. */
  function NatToString(n: nat): (s: string)
    ensures |s| > 0 && AllRadixDigits(s, false)
    ensures s[0] == '0' <==> n == 0
    ensures |s| == 1 <==> n < 10
    decreases n
  {
    if n < 10 then [DigitChar(n)] else NatToString(n / 10) + [DigitChar(n % 10)]
  }

  lemma {:induction false} NatToStringValue(n: nat)
    ensures RadixValue(NatToString(n), false) == n
    decreases n
  {
    if n >= 10 {
      NatToStringValue(n / 10);
      var s := NatToString(n);
      assert s[..|s| - 1] == NatToString(n / 10);
    }
  }

  /** `String(i)` for an integer. */
  function IntToString(i: int): (s: string)
    ensures |s| > 0 && (s[0] == '-' <==> i < 0)
  {
    if i < 0 then "-" + NatToString(-i) else NatToString(i)
  }

  /** The maximal prefix of `s` made of digits of the radix. */
  function DigitRun(s: string, hex: bool): (r: string)
    ensures |r| <= |s| && r == s[..|r|] && AllRadixDigits(r, hex)
    ensures |r| == |s| || !IsRadixDigit(s[|r|], hex)
  {
    if s != [] && IsRadixDigit(s[0], hex) then [s[0]] + DigitRun(s[1..], hex) else []
  }

  /** `parseInt(s)` without a radix argument: leading whitespace is skipped,
      then the sign and the magnitude are read. */
  function ParseInt(s: string): Option<int> {
    ParseSigned(TrimStart(s))
  }

  /** One optional sign, then the magnitude; a minus negates it. */
  function ParseSigned(t: string): Option<int> {
    if t != [] && t[0] == '-' then
      match ParseMagnitude(t[1..])
      case None => None
      case Some(v) => Some(-v)
    else if t != [] && t[0] == '+' then ParseMagnitude(t[1..])
    else ParseMagnitude(t)
  }

  /** A `0x`/`0X` prefix selects base 16, and the longest run of digits
      that follows is read; no digit at all gives NaN (`None`). */
  function ParseMagnitude(u: string): Option<int> {
    var hex := |u| >= 2 && u[0] == '0' && (u[1] == 'x' || u[1] == 'X');
    var digits := DigitRun(if hex then u[2..] else u, hex);
    if digits == [] then None else Some(RadixValue(digits, hex))
  }

  /** `parseInt` reads back what `String` writes. */
  lemma ParseIntRoundTrip(i: int)
    ensures ParseInt(IntToString(i)) == Some(i)
  {
    if i < 0 {
      RoundTripNegative(i);
    } else {
      var u := NatToString(i);
      ParseIntUnsigned(u);
      NatToStringValue(i);
    }
  }

  lemma RoundTripNegative(i: int)
    requires i < 0
    ensures ParseInt(IntToString(i)) == Some(i)
  {
    NegativeDecimal(-i);
  }

  lemma NegativeDecimal(n: nat)
    requires n > 0
    ensures ParseInt("-" + NatToString(n)) == Some(-(n as int))
  {
    var s := "-" + NatToString(n);
    assert s[1..] == NatToString(n);
    ParseIntNegative(s);
    NatToStringValue(n);
  }

  /** A string that does not start with whitespace is its own `trimStart`. */
  lemma TrimStartKeeps(s: string)
    requires s != [] && !IsSpace(s[0])
    ensures TrimStart(s) == s
  {
  }

  /** Decimal digits without a leading zero read as their value. */
  lemma MagnitudeOfDecimal(u: string)
    requires u != [] && AllRadixDigits(u, false) && (|u| == 1 || u[0] != '0')
    ensures ParseMagnitude(u) == Some(RadixValue(u, false))
  {
    assert IsRadixDigit(u[0], false);
    DigitRunAll(u, false);
  }

  /** Decimal digits without a leading zero parse to their value. */
  lemma ParseIntUnsigned(u: string)
    requires u != [] && AllRadixDigits(u, false) && (|u| == 1 || u[0] != '0')
    ensures ParseInt(u) == Some(RadixValue(u, false))
  {
    assert IsRadixDigit(u[0], false);
    TrimStartKeeps(u);
    MagnitudeOfDecimal(u);
  }

  /** A minus sign followed by decimal digits without a leading zero parses
      to the negated value. */
  lemma ParseIntNegative(s: string)
    requires |s| >= 2 && s[0] == '-'
    requires AllRadixDigits(s[1..], false) && (|s| == 2 || s[1] != '0')
    ensures ParseInt(s) == Some(-(RadixValue(s[1..], false) as int))
  {
    TrimStartKeeps(s);
    MagnitudeOfDecimal(s[1..]);
  }

  lemma {:induction false} DigitRunAll(s: string, hex: bool)
    requires AllRadixDigits(s, hex)
    ensures DigitRun(s, hex) == s
  {
    if s != [] {
      DigitRunAll(s[1..], hex);
    }
  }

  /** A string without any decimal digit parses to NaN. */
  lemma ParseIntNoDigits(s: string)
    requires forall i :: 0 <= i < |s| ==> !IsDigit(s[i])
    ensures ParseInt(s) == None
  {
    var t := TrimStart(s);
    if t != [] {
      TrimStartKeepsRest(s, 0);
    }
    if t != [] && (t[0] == '-' || t[0] == '+') {
      if |t| >= 2 {
        TrimStartKeepsRest(s, 1);
      }
      MagnitudeWithoutDigits(t[1..]);
    } else {
      MagnitudeWithoutDigits(t);
    }
  }

  /** Text that does not start with a digit has no magnitude. */
  lemma MagnitudeWithoutDigits(u: string)
    requires u == [] || !IsDigit(u[0])
    ensures ParseMagnitude(u) == None
  {
  }
}
