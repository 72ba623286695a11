/** Number.prototype.toFixed(1), the one-decimal formatting the client uses
    for confidences and box coordinates, over exact reals: the sign is taken
    apart first, the magnitude is rounded to the nearest tenth (the larger
    candidate on a tie), and the tenths are printed as digits, '.', digit. */
module Fixed {
  import opened Text

  /** The integer nearest to ten times `x`, the larger one on a tie. */
  function RoundTenths(x: real): (n: nat)
    requires x >= 0.0
    ensures x * 10.0 - 0.5 < n as real <= x * 10.0 + 0.5
  {
    (x * 10.0 + 0.5).Floor
  }

  /** The signed number of tenths that ToFixed1(x) prints. */
  function SignedTenths(x: real): (t: int)
    ensures x >= 0.0 ==> x * 10.0 - 0.5 < t as real <= x * 10.0 + 0.5
    ensures x < 0.0 ==> x * 10.0 - 0.5 <= t as real < x * 10.0 + 0.5
    ensures x >= 0.0 ==> t >= 0
  {
    if x < 0.0 then -(RoundTenths(-x) as int) else RoundTenths(x)
  }

  predicate IsFixedChar(c: char) {
    IsDigit(c) || c == '.' || c == '-'
  }

  function ToFixed1(x: real): (s: string)
    ensures |s| >= 3
    ensures forall i :: 0 <= i < |s| ==> IsFixedChar(s[i])
  {
    var n := RoundTenths(if x < 0.0 then -x else x);
    (if x < 0.0 then "-" else "") + UnsignedFixed1(n)
  }

  /** The tenths `n` printed as integer digits, '.', and one digit. */
  function UnsignedFixed1(n: nat): (s: string)
    ensures |s| >= 3 && s[0] != '-'
    ensures forall i :: 0 <= i < |s| ==> IsFixedChar(s[i])
  {
    NatToDecimal(n / 10) + "." + [DigitChar(n % 10)]
  }

  function ParseUnsignedFixed1(s: string): Option<nat> {
    if |s| < 3 || s[|s| - 2] != '.' || !IsDigit(s[|s| - 1]) || !AllDigits(s[..|s| - 2]) then None
    else Some(DecimalToNat(s[..|s| - 2]) * 10 + DigitValue(s[|s| - 1]))
  }

  /** Reads a one-decimal number back as a signed number of tenths. */
  function ParseFixed1(s: string): Option<int> {
    if |s| > 0 && s[0] == '-' then
      match ParseUnsignedFixed1(s[1..])
      case None => None
      case Some(n) => Some(-(n as int))
    else
      match ParseUnsignedFixed1(s)
      case None => None
      case Some(n) => Some(n)
  }

  lemma UnsignedRoundTrip(n: nat)
    ensures ParseUnsignedFixed1(UnsignedFixed1(n)) == Some(n)
  {
    var s := UnsignedFixed1(n);
    assert s[..|s| - 2] == NatToDecimal(n / 10);
    DecimalRoundTrip(n / 10);
  }

  /** What ToFixed1 prints denotes exactly the rounded tenths of its input. */
  lemma Fixed1RoundTrip(x: real)
    ensures ParseFixed1(ToFixed1(x)) == Some(SignedTenths(x))
  {
    var n := RoundTenths(if x < 0.0 then -x else x);
    var u := UnsignedFixed1(n);
    UnsignedRoundTrip(n);
    if x < 0.0 {
      assert ToFixed1(x)[1..] == u;
    } else {
      assert ToFixed1(x) == u;
    }
  }
}
