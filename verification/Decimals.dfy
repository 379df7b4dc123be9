/** Decimal numerals. */
module Decimals {

  predicate IsDigit(c: char) { '0' <= c <= '9' }

  predicate AllDigits(s: string) { forall i :: 0 <= i < |s| ==> IsDigit(s[i]) }

  function DigitsValue(s: string): nat
    requires AllDigits(s)
  {
    if s == [] then 0 else 10 * DigitsValue(s[..|s| - 1]) + (s[|s| - 1] as int - '0' as int)
  }

  function Decimal(n: nat): (s: string)
    ensures s != [] && AllDigits(s)
  {
    if n < 10 then ['0' + n as char] else Decimal(n / 10) + ['0' + (n % 10) as char]
  }

  lemma {:induction false} DecimalValue(n: nat)
    ensures DigitsValue(Decimal(n)) == n
  {
    if n >= 10 {
      DecimalValue(n / 10);
      assert Decimal(n)[..|Decimal(n)| - 1] == Decimal(n / 10);
    } else {
      assert Decimal(n)[..0] == [];
    }
  }

  /** Distinct numbers have distinct numerals. */
  lemma DecimalInjective(m: nat, n: nat)
    requires Decimal(m) == Decimal(n)
    ensures m == n
  {
    DecimalValue(m);
    DecimalValue(n);
  }

  const MAX_INT := 0x7FFF_FFFF_FFFF_FFFF

  const MAX_UINT := 0xFFFF_FFFF_FFFF_FFFF

  /** How many digits s starts with. */
  function DigitRun(s: string): (n: nat)
    ensures n <= |s| && AllDigits(s[..n]) && (n < |s| ==> !IsDigit(s[n]))
  {
    if s == "" || !IsDigit(s[0]) then 0 else 1 + DigitRun(s[1..])
  }

  /**
   strconv.Atoi with its error dropped: 0 for malformed text, the nearest bound when out of range. Reading stops as soon
   as the digits exceed 64 bits, so what follows them no longer makes the text malformed.
   */
  function Atoi(s: string): int {
    var digits := if s != "" && s[0] in {'+', '-'} then s[1..] else s;
    var n: int := DigitsValue(digits[..DigitRun(digits)]);
    if digits == "" || (n <= MAX_UINT && DigitRun(digits) < |digits|) then 0
    else if s[0] == '-' then (if n > MAX_INT then -MAX_INT - 1 else -n)
    else if n > MAX_INT then MAX_INT else n
  }

  lemma AtoiOfDecimal(n: nat)
    requires n <= MAX_INT
    ensures Atoi(Decimal(n)) == n
  {
    DecimalValue(n);
    var s := Decimal(n);
    assert IsDigit(s[0]);
    assert DigitRun(s) == |s| && s[..|s|] == s;
  }

  /** Text longer than any number of 64 bits is out of range whatever follows its digits; shorter, it is malformed. */
  lemma AtoiOverruns(digits: string, rest: string)
    requires digits != "" && AllDigits(digits) && rest != "" && !IsDigit(rest[0])
    ensures Atoi(digits + rest) == if DigitsValue(digits) > MAX_UINT then MAX_INT else 0
  {
    var s := digits + rest;
    assert s[0] == digits[0] && IsDigit(s[0]) && s[|digits|] == rest[0];
    assert forall i :: 0 <= i < |digits| ==> s[i] == digits[i];
    assert DigitRun(s) == |digits|;
    assert s[..|digits|] == digits;
  }
}
