/**
 A price built from minor units by splitting their decimal digits. With fewer digits than
 the exponent the split has nothing left of the point, and the price comes out too large.
 */
module Decimals {

  type DigitSeq = s: seq<nat> | forall i :: 0 <= i < |s| ==> s[i] < 10

  function Power(k: nat): nat { if k == 0 then 1 else 10 * Power(k - 1) }

  /** The decimal digits of a number, without leading zeros. */
  function Digits(n: nat): (d: DigitSeq)
    ensures |d| > 0
  {
    if n < 10 then [n] else Digits(n / 10) + [n % 10]
  }

  function Number(d: DigitSeq): nat {
    if |d| == 0 then 0 else Number(d[..|d| - 1]) * 10 + d[|d| - 1]
  }

  lemma {:induction false} NumberOfDigits(n: nat)
    ensures Number(Digits(n)) == n
  {
    var d := Digits(n);
    if n >= 10 {
      NumberOfDigits(n / 10);
      assert d[..|d| - 1] == Digits(n / 10);
    } else {
      assert d[..0] == [];
    }
  }

  predicate IsDigit(c: char) { '0' <= c <= '9' }

  /** A number as text. */
  function Numeral(n: nat): (text: string)
    ensures |text| == |Digits(n)| && forall i :: 0 <= i < |text| ==> IsDigit(text[i])
  {
    var d := Digits(n);
    seq(|d|, i requires 0 <= i < |d| => '0' + d[i] as char)
  }

  /** A decimal: its digits as a number, and how many of them are right of the point. */
  datatype Decimal = Decimal(coefficient: nat, scale: nat)

  /** Reading "whole.fraction". */
  function Read(whole: DigitSeq, fraction: DigitSeq): Decimal { Decimal(Number(whole + fraction), |fraction|) }

  /** The last `exponent` digits go right of the point; a shorter text goes there whole. */
  function DecimalFromUnits(units: nat, exponent: nat): Decimal {
    var d := Digits(units);
    if exponent == 0 then Read(d, [])
    else if |d| <= exponent then Read([], d)
    else Read(d[..|d| - exponent], d[|d| - exponent..])
  }

  /** The decimal is the fraction n / 10^k. */
  predicate Denotes(d: Decimal, n: nat, k: nat) { d.coefficient * Power(k) == n * Power(d.scale) }

  lemma {:induction false} PowerGrows(j: nat, k: nat)
    requires j < k
    ensures 0 < Power(j) < Power(k)
  {
    if j < k - 1 {
      PowerGrows(j, k - 1);
    } else {
      PowerPositive(j);
    }
  }

  lemma {:induction false} PowerPositive(k: nat)
    ensures Power(k) > 0
  {
    if k > 0 { PowerPositive(k - 1); }
  }

  /** All digits survive the split, and the point stands as far left as there are digits. */
  lemma {:induction false} SplitKeepsDigits(units: nat, exponent: nat)
    ensures DecimalFromUnits(units, exponent) ==
            Decimal(units, if |Digits(units)| <= exponent then |Digits(units)| else exponent)
  {
    var d := Digits(units);
    NumberOfDigits(units);
    assert d + [] == d && [] + d == d;
    if 0 < exponent < |d| { assert d[..|d| - exponent] + d[|d| - exponent..] == d; }
  }

  lemma {:induction false} SameFractionIff(n: nat, j: nat, k: nat)
    ensures n * Power(j) == n * Power(k) <==> n == 0 || j == k
  {
    if j < k { PowerGrows(j, k); ProductGrows(n, Power(j), Power(k)); }
    if k < j { PowerGrows(k, j); ProductGrows(n, Power(k), Power(j)); }
  }

  lemma ProductGrows(n: nat, a: nat, b: nat)
    requires a < b
    ensures n > 0 ==> n * a < n * b
  {
  }

  /** The decimal is units / 10^exponent exactly when there are enough digits, or no units. */
  lemma {:induction false} ExactIff(units: nat, exponent: nat)
    ensures Denotes(DecimalFromUnits(units, exponent), units, exponent) <==> |Digits(units)| >= exponent || units == 0
  {
    SplitKeepsDigits(units, exponent);
    SameFractionIff(units, exponent, DecimalFromUnits(units, exponent).scale);
  }

  /** With fewer digits it is units over the power of the digits it has. */
  lemma {:induction false} ShortText(units: nat, exponent: nat)
    requires |Digits(units)| <= exponent
    ensures Denotes(DecimalFromUnits(units, exponent), units, |Digits(units)|)
  {
    SplitKeepsDigits(units, exponent);
  }

  /** The one-unit boundary price with exponent 2: a tenth, not a hundredth. */
  lemma {:induction false} OneUnit()
    ensures DecimalFromUnits(1, 2) == Decimal(1, 1) && !Denotes(DecimalFromUnits(1, 2), 1, 2)
  {
    SplitKeepsDigits(1, 2);
    ExactIff(1, 2);
  }
}
