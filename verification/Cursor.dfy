/** The page cursor: a decimal offset, printed by the page builder and parsed back with
    Rust's `str::parse::<i64>`. */
module Cursor {

  import opened Wrappers
  import opened Text

  const I64_MAX := 0x7FFF_FFFF_FFFF_FFFF

  predicate IsDigit(c: char) {
    '0' <= c <= '9'
  }

  predicate AllDigits(s: string) {
    forall i :: 0 <= i < |s| ==> IsDigit(s[i])
  }

  function DigitChar(d: nat): (c: char)
    requires d < 10
    ensures IsDigit(c)
  {
    '0' + d as char
  }

  function DigitValue(c: char): (d: nat)
    requires IsDigit(c)
    ensures d < 10
  {
    (c - '0') as int
  }

  /** `to_string` of an unsigned number. */
  function Decimal(n: nat): (s: string)
    ensures s != "" && AllDigits(s)
  {
    if n < 10 then [DigitChar(n)] else Decimal(n / 10) + [DigitChar(n % 10)]
  }

  function DigitsValue(s: string): nat
    requires AllDigits(s)
  {
    if s == "" then 0 else 10 * DigitsValue(s[..|s| - 1]) + DigitValue(s[|s| - 1])
  }

  /** An optional sign, at least one digit, and a value that fits. */
  function ParseI64(s: string): Option<int> {
    var signed := s != "" && (s[0] == '+' || s[0] == '-');
    var digits := if signed then s[1..] else s;
    if digits == "" || !AllDigits(digits) then None
    else
      var magnitude: int := DigitsValue(digits);
      var value := if signed && s[0] == '-' then -magnitude else magnitude;
      if -I64_MAX - 1 <= value <= I64_MAX then Some(value) else None
  }

  function ParseCursorOffset(cursor: string): nat {
    var trimmed := Trim(Rust, cursor);
    if trimmed == "" then 0
    else
      var parsed := ParseI64(trimmed);
      if parsed.Some? && parsed.value >= 0 then parsed.value else 0
  }

  lemma {:induction false} DecimalValue(n: nat)
    ensures DigitsValue(Decimal(n)) == n
  {
    if n < 10 {
      assert [DigitChar(n)][..0] == "";
    } else {
      DecimalValue(n / 10);
      var s := Decimal(n);
      assert s[..|s| - 1] == Decimal(n / 10);
    }
  }

  lemma DigitsAreTrimmed(s: string)
    requires AllDigits(s)
    ensures Trim(Rust, s) == s
  {
    assert forall c: char :: IsDigit(c) ==> !IsSpace(Rust, c);
  }

  lemma ParseDigits(s: string)
    requires s != "" && AllDigits(s)
    ensures ParseI64(s) == if DigitsValue(s) <= I64_MAX then Some(DigitsValue(s)) else None
  {
    assert IsDigit(s[0]);
  }

  /** A printed offset parses back exactly when it fits a signed 64-bit number. */
  lemma CursorRoundTrip(n: nat)
    ensures ParseCursorOffset(Decimal(n)) == n <==> n <= I64_MAX
  {
    DecimalValue(n);
    DigitsAreTrimmed(Decimal(n));
    ParseDigits(Decimal(n));
  }

  predicate Digits(s: string, n: nat) {
    s != "" && AllDigits(s) && DigitsValue(s) == n
  }

  /** The text is a decimal number that fits, with a sign or without; only zero may be negative. */
  predicate IsNumeral(s: string, n: nat) {
    && n <= I64_MAX
    && (|| Digits(s, n)
        || (s != "" && s[0] == '+' && Digits(s[1..], n))
        || (s != "" && s[0] == '-' && n == 0 && Digits(s[1..], 0)))
  }

  /** A cursor means the number it is, blanks around it aside; anything else means the start. */
  lemma CursorMeans(cursor: string)
    ensures forall n: nat :: IsNumeral(Trim(Rust, cursor), n) ==> ParseCursorOffset(cursor) == n
    ensures (forall n: nat :: !IsNumeral(Trim(Rust, cursor), n)) ==> ParseCursorOffset(cursor) == 0
  {
    NumeralMeans(Trim(Rust, cursor), ParseCursorOffset(cursor));
  }

  lemma NumeralMeans(s: string, offset: nat)
    requires offset == if s == "" then 0
                       else if ParseI64(s).Some? && ParseI64(s).value >= 0 then ParseI64(s).value else 0
    ensures forall n: nat :: IsNumeral(s, n) ==> offset == n
    ensures (forall n: nat :: !IsNumeral(s, n)) ==> offset == 0
  {
    if s != "" {
      if offset != 0 {
        assert IsNumeral(s, offset);
      }
      forall n: nat | IsNumeral(s, n) ensures offset == n {
        if Digits(s, n) {
          assert IsDigit(s[0]);
        }
      }
    }
  }
}
