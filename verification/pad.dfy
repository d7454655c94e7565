/** Zero padding of the date parts: `padMeTwo`, on top of a model of
    `String.prototype.padStart`. */
module Padding {
  import opened Strings

  function Repeat(c: char, n: nat): (r: string)
    ensures |r| == n && forall i | 0 <= i < n :: r[i] == c
  {
    if n == 0 then "" else [c] + Repeat(c, n - 1)
  }

  /** `s.padStart(width, [fill])`: fill characters in front up to `width`,
      a string already that wide left alone. */
  function PadStart(s: string, width: nat, fill: char): (r: string)
    ensures |r| == if |s| >= width then |s| else width
    ensures r[|r| - |s|..] == s
    ensures forall i | 0 <= i < |r| - |s| :: r[i] == fill
  {
    if |s| >= width then s else Repeat(fill, width - |s|) + s
  }

  /** `padMeTwo(n)`: `String(n).padStart(2, "0")`. */
  function PadMeTwo(n: nat): (r: string)
    ensures AllDigits(r)
  {
    PadStart(DecimalString(n), 2, '0')
  }

  /** A leading zero does not change a decimal value. */
  lemma {:induction false} LeadingZero(ds: string)
    requires AllDigits(ds)
    ensures AllDigits("0" + ds) && DecimalValue("0" + ds) == DecimalValue(ds)
    decreases |ds|
  {
    if |ds| > 0 {
      var init := ds[..|ds| - 1];
      LeadingZero(init);
      assert ("0" + ds)[..|"0" + ds| - 1] == "0" + init;
    }
  }

  /** Reading the padded text back gives the number; below ten it is a zero
      and one digit, from ten on the plain decimal notation. */
  lemma {:induction false} PadMeTwoLaws(n: nat)
    ensures DecimalValue(PadMeTwo(n)) == n
    ensures |PadMeTwo(n)| == if n < 100 then 2 else |DecimalString(n)|
    ensures n < 10 ==> PadMeTwo(n) == ['0', DigitChar(n)]
    ensures n >= 10 ==> PadMeTwo(n) == DecimalString(n)
  {
    var ds := DecimalString(n);
    if n < 10 {
      assert PadMeTwo(n) == "0" + ds;
      LeadingZero(ds);
    } else {
      DecimalWidth(n);
    }
  }

  /** Two digits reach exactly below one hundred. */
  lemma {:induction false} DecimalWidth(n: nat)
    ensures |DecimalString(n)| <= 2 <==> n < 100
  {
    if n >= 10 {
      assert |DecimalString(n)| == |DecimalString(n / 10)| + 1;
    }
  }
}
