/**
 * The C library text conversions the command parsers rely on: `strtol`,
 * `atoi`, the `%d` conversion of `sscanf` and `std::from_chars` for
 * `uint8_t`, stated over 8-bit character sequences.
 */
module CText {
  import opened Common

  predicate IsDigit(c: char8) { '0' <= c <= '9' }

  /** `isspace` in the "C" locale: space, \t, \n, \v, \f and \r. */
  predicate IsSpace(c: char8) {
    c == ' ' || c == '\t' || c == '\n' || c == '\r' || c as int == 0x0B || c as int == 0x0C
  }

  predicate AllDigits(s: seq<char8>) { forall i :: 0 <= i < |s| ==> IsDigit(s[i]) }

  function DigitValue(c: char8): (d: nat)
    requires IsDigit(c)
    ensures d < 10
  {
    c as int - '0' as int
  }

  function DigitChar(d: nat): (c: char8)
    requires d < 10
    ensures IsDigit(c) && DigitValue(c) == d
  {
    (d + '0' as int) as char
  }

  /** Value of a run of decimal digits, most significant digit first. */
  function DigitsValue(s: seq<char8>): nat
    requires AllDigits(s)
  {
    if s == [] then 0 else 10 * DigitsValue(s[..|s| - 1]) + DigitValue(s[|s| - 1])
  }

  /** Length of the longest prefix of decimal digits. */
  function LeadingDigits(s: seq<char8>): (n: nat)
    ensures n <= |s| && AllDigits(s[..n])
    ensures n < |s| ==> !IsDigit(s[n])
  {
    if s == [] || !IsDigit(s[0]) then 0
    else
      var n := 1 + LeadingDigits(s[1..]);
      assert s[..n] == [s[0]] + s[1..][..n - 1];
      n
  }

  /** Length of the longest prefix of white space. */
  function LeadingSpaces(s: seq<char8>): (n: nat)
    ensures n <= |s|
    ensures forall i :: 0 <= i < n ==> IsSpace(s[i])
    ensures n < |s| ==> !IsSpace(s[n])
  {
    if s == [] || !IsSpace(s[0]) then 0 else 1 + LeadingSpaces(s[1..])
  }

  /** A converted number and the index just past its last digit. */
  datatype Scanned = Scanned(value: int, end: nat)

  /**
   * The conversion shared by `strtol(s, &end, 10)`, `atoi` and `%d`: skip
   * white space, accept one optional sign, then take the longest run of
   * decimal digits. None when no digit follows. The value is exact (not
   * yet limited to any C integer width).
   */
  function ScanInteger(s: seq<char8>): (r: Option<Scanned>)
    ensures r.Some? ==> 0 < r.value.end <= |s| && IsDigit(s[r.value.end - 1])
    ensures r.Some? && r.value.end < |s| ==> !IsDigit(s[r.value.end])
  {
    var ws := LeadingSpaces(s);
    var signed := ws < |s| && (s[ws] == '+' || s[ws] == '-');
    var start := if signed then ws + 1 else ws;
    var n := LeadingDigits(s[start..]);
    if n == 0 then None
    else
      var magnitude: int := DigitsValue(s[start..][..n]);
      assert s[start + n - 1] == s[start..][..n][n - 1];
      Some(Scanned(if signed && s[ws] == '-' then -magnitude else magnitude, start + n))
  }

  const LongMin: int := -0x8000_0000
  const LongMax: int := 0x7FFF_FFFF

  /** `strtol(s, &end, 10)` with a 32-bit `long`: saturates on overflow; `end` is 0 when nothing was converted. */
  function StrToL(s: seq<char8>): (r: Scanned)
    ensures LongMin <= r.value <= LongMax && r.end <= |s|
    ensures r.end == 0 ==> r.value == 0
  {
    match ScanInteger(s)
    case None => Scanned(0, 0)
    case Some(sc) =>
      Scanned(if sc.value < LongMin then LongMin else if sc.value > LongMax then LongMax else sc.value, sc.end)
  }

  /** `atoi(s)`: the value `strtol` computes, 0 when no digits were found. */
  function Atoi(s: seq<char8>): (v: int)
    ensures LongMin <= v <= LongMax
  {
    StrToL(s).value
  }

  /** `std::from_chars` into a `uint8_t` over the whole view: only digits, at least one, value at most 255. */
  function FromCharsU8(s: seq<char8>): (r: Option<u8>)
    ensures r.Some? ==> |s| > 0 && AllDigits(s)
  {
    if |s| > 0 && AllDigits(s) && DigitsValue(s) <= 255 then Some(DigitsValue(s)) else None
  }

  /** Decimal rendering of `n` without leading zeros (as `printf("%u")` writes it). */
  function Decimal(n: nat): (s: seq<char8>)
    ensures |s| > 0 && AllDigits(s)
  {
    if n < 10 then [DigitChar(n)] else Decimal(n / 10) + [DigitChar(n % 10)]
  }

  lemma {:induction false} DecimalValue(n: nat)
    ensures DigitsValue(Decimal(n)) == n
  {
    if n >= 10 {
      DecimalValue(n / 10);
      var s := Decimal(n);
      assert s[..|s| - 1] == Decimal(n / 10);
    }
  }

  lemma {:induction false} LeadingDigitsOfConcat(a: seq<char8>, b: seq<char8>)
    requires AllDigits(a)
    requires b == [] || !IsDigit(b[0])
    ensures LeadingDigits(a + b) == |a|
  {
    if a != [] {
      assert (a + b)[1..] == a[1..] + b;
      LeadingDigitsOfConcat(a[1..], b);
    } else {
      assert a + b == b;
    }
  }

  /** A run of digits followed by a non-digit is read back by the shared conversion, which stops after the run. */
  lemma DigitsScan(ds: seq<char8>, rest: seq<char8>)
    requires |ds| > 0 && AllDigits(ds)
    requires rest == [] || !IsDigit(rest[0])
    ensures ScanInteger(ds + rest) == Some(Scanned(DigitsValue(ds), |ds|))
  {
    var s := ds + rest;
    assert s[0] == ds[0];
    UnsignedScan(s);
    LeadingDigitsOfConcat(ds, rest);
    assert s[..|ds|] == ds;
  }

  /** Text that starts with a digit is read as its leading run of digits. */
  lemma UnsignedScan(s: seq<char8>)
    requires |s| > 0 && IsDigit(s[0])
    ensures ScanInteger(s) == Some(Scanned(DigitsValue(s[..LeadingDigits(s)]), LeadingDigits(s)))
  {
    assert LeadingSpaces(s) == 0;
    assert s[0..] == s;
  }

  /** A number written in decimal is read back by the shared conversion, and stops where the digits stop. */
  lemma DecimalScans(n: nat, rest: seq<char8>)
    requires rest == [] || !IsDigit(rest[0])
    ensures ScanInteger(Decimal(n) + rest) == Some(Scanned(n, |Decimal(n)|))
  {
    DigitsScan(Decimal(n), rest);
    DecimalValue(n);
  }

  lemma DecimalFromChars(n: nat)
    requires n <= 255
    ensures FromCharsU8(Decimal(n)) == Some(n)
  {
    DecimalValue(n);
  }
}
