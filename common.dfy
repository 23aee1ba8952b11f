// Shared vocabulary: optional values, results, C character classes and the
// decimal conversions the client takes from the C++ standard library
// (std::to_string, std::stoi, std::stoul).

module Common {

  datatype Option<T> = None | Some(value: T)

  datatype Result<T, E> = Ok(value: T) | Err(error: E)

  /** Largest value of a 32-bit `unsigned int`, plus one. */
  const UInt32Modulus: nat := 0x1_0000_0000

  /** Largest value of a 64-bit `unsigned long`, plus one. */
  const UInt64Modulus: nat := 0x1_0000_0000_0000_0000

  const IntMax: int := 0x7FFF_FFFF
  const IntMin: int := -0x8000_0000

  /** A C++ `unsigned int`. */
  type UInt32 = x: nat | x < 0x1_0000_0000

  /** `isdigit` in the "C" locale. */
  predicate IsDigit(c: char) { '0' <= c <= '9' }

  /** `isalpha` in the "C" locale. */
  predicate IsAlpha(c: char) { 'a' <= c <= 'z' || 'A' <= c <= 'Z' }

  /** `isspace` in the "C" locale. */
  predicate IsSpace(c: char) {
    c == ' ' || c == '\t' || c == '\n' || c == '\r' || c == '\U{B}' || c == '\U{C}'
  }

  predicate AllDigits(s: string) { forall i :: 0 <= i < |s| ==> IsDigit(s[i]) }

  function DigitValue(c: char): (d: nat)
    requires IsDigit(c)
    ensures d < 10
  {
    c as int - '0' as int
  }

  function DigitChar(d: nat): (c: char)
    requires d < 10
    ensures IsDigit(c) && DigitValue(c) == d
  {
    ('0' as int + d) as char
  }

  /** `std::to_string` of an unsigned value: decimal digits, no leading zero. */
  function NatToDecimal(n: nat): (s: string)
    ensures 1 <= |s| && AllDigits(s)
    ensures |s| > 1 ==> s[0] != '0'
    decreases n
  {
    if n < 10 then [DigitChar(n)] else NatToDecimal(n / 10) + [DigitChar(n % 10)]
  }

  /** The value of a string of decimal digits. */
  function DecimalValue(s: string): nat
    requires AllDigits(s)
  {
    if s == [] then 0 else DecimalValue(s[..|s| - 1]) * 10 + DigitValue(s[|s| - 1])
  }

  /** Reading back what std::to_string wrote gives the number again. */
  lemma {:induction false} DecimalRoundTrip(n: nat)
    ensures DecimalValue(NatToDecimal(n)) == n
    decreases n
  {
    if n >= 10 {
      var s := NatToDecimal(n);
      assert s[..|s| - 1] == NatToDecimal(n / 10);
      DecimalRoundTrip(n / 10);
    }
  }

  /** Distinct numbers are written as distinct strings. */
  lemma NatToDecimalInjective(m: nat, n: nat)
    requires NatToDecimal(m) == NatToDecimal(n)
    ensures m == n
  {
    DecimalRoundTrip(m);
    DecimalRoundTrip(n);
  }

  /** First index at or after `i` that is not a decimal digit. */
  function DigitRunEnd(s: string, i: nat): (j: nat)
    requires i <= |s|
    ensures i <= j <= |s|
    ensures AllDigits(s[i..j])
    ensures j == |s| || !IsDigit(s[j])
    decreases |s| - i
  {
    if i == |s| || !IsDigit(s[i]) then i else DigitRunEnd(s, i + 1)
  }

  /** First index at or after `i` that is not white space. */
  function SpaceRunEnd(s: string, i: nat): (j: nat)
    requires i <= |s|
    ensures i <= j <= |s|
    ensures forall k :: i <= k < j ==> IsSpace(s[k])
    ensures j == |s| || !IsSpace(s[j])
    decreases |s| - i
  {
    if i == |s| || !IsSpace(s[i]) then i else SpaceRunEnd(s, i + 1)
  }

  /** What strtol/strtoul read: leading white space, an optional sign, then
      the longest run of digits.  None when there is no digit. */
  datatype NumberPrefix = NumberPrefix(negative: bool, magnitude: nat)

  function ReadNumberPrefix(s: string): (r: Option<NumberPrefix>)
    ensures r.None? <==> (var i := SpaceRunEnd(s, 0);
                          var j := if i < |s| && (s[i] == '+' || s[i] == '-') then i + 1 else i;
                          j == |s| || !IsDigit(s[j]))
  {
    var i := SpaceRunEnd(s, 0);
    var neg := i < |s| && s[i] == '-';
    var j := if i < |s| && (s[i] == '+' || s[i] == '-') then i + 1 else i;
    var k := DigitRunEnd(s, j);
    if k == j then None else Some(NumberPrefix(neg, DecimalValue(s[j..k])))
  }

  /** `std::stoi`: None stands for the std::invalid_argument (no digits) or
      std::out_of_range (outside `int`) it throws. */
  function StdStoi(s: string): (r: Option<int>)
    ensures r.Some? ==> IntMin <= r.value <= IntMax
  {
    match ReadNumberPrefix(s)
    case None => None
    case Some(p) =>
      var v: int := if p.negative then 0 - p.magnitude as int else p.magnitude as int;
      if IntMin <= v <= IntMax then Some(v) else None
  }

  /** `std::stoul` on a 64-bit `unsigned long`: a negative number wraps
      around as strtoul does; None stands for the exception it throws. */
  function StdStoul(s: string): (r: Option<nat>)
    ensures r.Some? ==> r.value < UInt64Modulus
  {
    match ReadNumberPrefix(s)
    case None => None
    case Some(p) =>
      if p.magnitude >= UInt64Modulus then None
      else if p.negative then Some((UInt64Modulus - p.magnitude) % UInt64Modulus)
      else Some(p.magnitude)
  }

  /** Every number std::to_string writes is read back by std::stoul. */
  lemma StoulReadsDecimal(n: nat)
    requires n < UInt64Modulus
    ensures StdStoul(NatToDecimal(n)) == Some(n)
  {
    var s := NatToDecimal(n);
    assert SpaceRunEnd(s, 0) == 0;
    var k := DigitRunEnd(s, 0);
    DigitRunEndAll(s, 0);
    assert s[0..k] == s;
    DecimalRoundTrip(n);
  }

  lemma {:induction false} DigitRunEndAll(s: string, i: nat)
    requires i <= |s| && AllDigits(s)
    ensures DigitRunEnd(s, i) == |s|
    decreases |s| - i
  {
    if i < |s| { DigitRunEndAll(s, i + 1); }
  }
}
