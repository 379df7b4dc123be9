/** Runtime revisions: canonical decimal text of any length, ordered by length and then by code unit. */
module Revisions {
  import opened Texts
  import opened JsText
  import Decimals

  datatype RevisionError = NotCanonical

  predicate IsDecimal(s: Text) {
    && s != []
    && (forall i :: 0 <= i < |s| ==> IsDigit(s[i]))
    && (s[0] == 0x30 ==> |s| == 1)
  }

  /** The order the language gives two texts: at the first difference, or by length. */
  predicate TextGreater(a: Text, b: Text) {
    if b == [] then a != []
    else if a == [] then false
    else if a[0] != b[0] then a[0] > b[0]
    else TextGreater(a[1..], b[1..])
  }

  function CompareRuntimeRevision(a: Text, b: Text): Result<int, RevisionError> {
    if !IsDecimal(a) || !IsDecimal(b) then Err(NotCanonical)
    else if a == b then Ok(0)
    else Ok(if |a| != |b| then (if |a| > |b| then 1 else -1) else (if TextGreater(a, b) then 1 else -1))
  }

  // ----- The number a revision stands for -----

  function Power(n: nat): (p: nat)
    ensures p >= 1
  {
    if n == 0 then 1 else 10 * Power(n - 1)
  }

  ghost predicate AllDigits(s: Text) { forall i :: 0 <= i < |s| ==> IsDigit(s[i]) }

  function Value(s: Text): int {
    if s == [] then 0 else (s[0] - 0x30) * Power(|s| - 1) + Value(s[1..])
  }

  function Sign(n: int): int { if n > 0 then 1 else if n < 0 then -1 else 0 }

  lemma {:induction false} ValueBounds(s: Text)
    requires AllDigits(s)
    ensures 0 <= Value(s) < Power(|s|)
  {
    if s != [] {
      ValueBounds(s[1..]);
      DigitTimes(s[0] - 0x30, Power(|s| - 1));
    }
  }

  lemma DigitTimes(d: int, p: nat)
    requires 0 <= d <= 9
    ensures 0 <= d * p <= 9 * p
  {
  }

  lemma LeadDominates(d: nat, e: nat, p: nat, x: nat, y: nat)
    requires d > e && x < p && y < p
    ensures d * p + x > e * p + y
  {
    assert d * p == (d - e - 1) * p + p + e * p;
  }

  lemma LongerIsLarger(a: Text, b: Text)
    requires IsDecimal(a) && IsDecimal(b) && |a| > |b|
    ensures Value(a) > Value(b)
  {
    assert AllDigits(a[1..]);
    ValueBounds(a[1..]);
    ValueBounds(b);
    PowerGrows(|b|, |a| - 1);
    assert a[0] != 0x30 && IsDigit(a[0]);
    LeadDominates(a[0] - 0x30, 0, Power(|a| - 1), Value(a[1..]), Value(b));
  }

  lemma {:induction false} PowerGrows(m: nat, n: nat)
    requires m <= n
    ensures Power(m) <= Power(n)
    decreases n
  {
    if m < n {
      PowerGrows(m, n - 1);
    }
  }

  lemma {:induction false} SameLengthOrder(a: Text, b: Text)
    requires AllDigits(a) && AllDigits(b) && |a| == |b|
    ensures a == b || Value(a) != Value(b)
    ensures TextGreater(a, b) <==> Value(a) > Value(b)
  {
    if a != [] {
      assert IsDigit(a[0]) && IsDigit(b[0]);
      var p, x, y := Power(|a| - 1), Value(a[1..]), Value(b[1..]);
      ValueBounds(a[1..]);
      ValueBounds(b[1..]);
      SameLengthOrder(a[1..], b[1..]);
      assert a == [a[0]] + a[1..] && b == [b[0]] + b[1..];
      if a[0] > b[0] {
        LeadDominates(a[0] - 0x30, b[0] - 0x30, p, x, y);
      } else if a[0] < b[0] {
        LeadDominates(b[0] - 0x30, a[0] - 0x30, p, y, x);
      }
    }
  }

  /** Comparing texts is comparing the numbers they stand for, whatever their size; only equal texts compare as 0. */
  lemma CompareIsNumeric(a: Text, b: Text)
    requires IsDecimal(a) && IsDecimal(b)
    ensures CompareRuntimeRevision(a, b) == Ok(Sign(Value(a) - Value(b)))
    ensures Value(a) == Value(b) <==> a == b
  {
    if |a| > |b| {
      LongerIsLarger(a, b);
    } else if |b| > |a| {
      LongerIsLarger(b, a);
    } else {
      SameLengthOrder(a, b);
    }
  }

  // ----- Numerals -----

  /** A lone zero, or digits that start with another. */
  predicate IsNumeralText(s: Text) {
    s == [0x30] || (s != [] && 0x31 <= s[0] <= 0x39 && forall i :: 0 <= i < |s| ==> 0x30 <= s[i] <= 0x39)
  }

  /** The code units of ASCII text. */
  function Units(s: string): (t: Text)
    ensures |t| == |s| && forall i :: 0 <= i < |s| ==> s[i] < 128 as char ==> t[i] == s[i] as int
  {
    seq(|s|, i requires 0 <= i < |s| => if s[i] < 128 as char then s[i] as int else 0xFFFD)
  }

  lemma {:induction false} ValueSnoc(s: Text, d: Unit)
    ensures Value(s + [d]) == 10 * Value(s) + (d - 0x30)
  {
    if s == [] {
      assert Power(0) == 1 && [d][1..] == [];
    } else {
      var t := s + [d];
      assert t[1..] == s[1..] + [d] && Power(|s|) == 10 * Power(|s| - 1);
      ValueSnoc(s[1..], d);
      var lead: int := s[0];
      Tenfold(lead - 0x30, Power(|s| - 1));
    }
  }

  lemma Tenfold(d: int, p: nat)
    ensures d * (10 * p) == 10 * (d * p)
  {
  }

  lemma {:induction false} NumeralStandsFor(n: nat)
    ensures IsNumeralText(Units(Decimals.Decimal(n))) && Value(Units(Decimals.Decimal(n))) == n
    ensures n > 0 ==> Units(Decimals.Decimal(n))[0] != 0x30
  {
    var s := Decimals.Decimal(n);
    if n < 10 {
      assert Units(s) == [0x30 + n] && [0x30 + n][1..] == [] && Power(0) == 1;
    } else {
      var most := Decimals.Decimal(n / 10);
      NumeralStandsFor(n / 10);
      assert Units(s) == Units(most) + [0x30 + n % 10];
      ValueSnoc(Units(most), 0x30 + n % 10);
    }
  }

  /** Comparing the numerals of two numbers, of any size, compares the numbers. */
  lemma NumeralsCompare(m: nat, n: nat)
    ensures CompareRuntimeRevision(Units(Decimals.Decimal(m)), Units(Decimals.Decimal(n)))
         == Ok(if m > n then 1 else if m < n then -1 else 0)
  {
    NumeralStandsFor(m);
    NumeralStandsFor(n);
    CompareIsNumeric(Units(Decimals.Decimal(m)), Units(Decimals.Decimal(n)));
  }

  /** The order is total: antisymmetric, transitive, and refusing exactly non-canonical text. */
  lemma CompareIsTotalOrder(a: Text, b: Text, c: Text)
    ensures CompareRuntimeRevision(a, b).Err? <==> !IsNumeralText(a) || !IsNumeralText(b)
    ensures CompareRuntimeRevision(a, b).Ok? ==>
              CompareRuntimeRevision(b, a) == Ok(-CompareRuntimeRevision(a, b).value)
    ensures CompareRuntimeRevision(a, b).Ok? && CompareRuntimeRevision(b, c).Ok?
            && CompareRuntimeRevision(a, b).value >= 0 && CompareRuntimeRevision(b, c).value >= 0 ==>
              CompareRuntimeRevision(a, c).Ok? && CompareRuntimeRevision(a, c).value >= 0
  {
    assert forall s: Text :: IsDecimal(s) <==> IsNumeralText(s);
    if IsDecimal(a) && IsDecimal(b) {
      CompareIsNumeric(a, b);
      CompareIsNumeric(b, a);
      if IsDecimal(c) {
        CompareIsNumeric(b, c);
        CompareIsNumeric(a, c);
      }
    }
  }
}
