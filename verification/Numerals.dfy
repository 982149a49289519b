/** `i.to_string()` of the host and `tonumber` of Lua are inverse on 64-bit integers. */
module Numerals {
  import opened Wrappers
  import opened Json
  import opened JsonScan

  lemma {:induction false} NatValueOfText(n: nat)
    ensures AllDigits(NatText(n)) && NatValue(NatText(n)) == n
  {
    var s := NatText(n);
    if n < 10 {
      assert s[..0] == "";
      assert NatValue(s) == NatValue(s[..0]) * 10 + DigitValue(s[0]);
    } else {
      NatValueOfText(n / 10);
      assert s[..|s| - 1] == NatText(n / 10);
      assert DigitValue(s[|s| - 1]) == n % 10;
    }
  }

  lemma DigitsAreNumberChars(i: int)
    ensures forall j :: 0 <= j < |IntText(i)| ==> IsNumberChar(IntText(i)[j])
  {
    NatValueOfText(if i < 0 then -i else i);
  }

  lemma ToNumberDigits(neg: bool, s: string)
    requires AllDigits(s) && |s| > 0
    requires var n: int := NatValue(s); INT64_MIN <= (if neg then -n else n) <= INT64_MAX
    ensures var n: int := NatValue(s); ToNumber((if neg then "-" else "") + s) == Some(Int(if neg then -n else n))
  {
    hide NatValue, Pow10, DotAt;
    var t := (if neg then "-" else "") + s;
    assert IsDigit(s[0]);
    if neg {
      assert t[0] == '-' && t[1..] == s;
    } else {
      assert t == s;
    }
  }

  /** The number a plugin reads is the integer the host printed. */
  lemma ToNumberOfIntText(i: int)
    requires INT64_MIN <= i <= INT64_MAX
    ensures ToNumber(IntText(i)) == Some(Int(i))
  {
    if i < 0 {
      NatValueOfText(-i);
      ToNumberDigits(true, NatText(-i));
    } else {
      NatValueOfText(i);
      ToNumberDigits(false, NatText(i));
      assert "" + NatText(i) == NatText(i);
    }
  }

  /** A numeral that has lost its last digit. */
  function CutNumeral(i: int): (s: string) {
    IntText(i)[..|IntText(i)| - 1]
  }

  /** What the cut numeral still says: the quotient by ten, or nothing if no digit is left. */
  function CutValue(i: int): (v: Option<LuaValue>) {
    if -10 < i < 10 then None else if i < 0 then Some(Int(-(-i / 10))) else Some(Int(i / 10))
  }

  /** Losing the last digit is dividing by ten. */
  lemma CutNumeralIs(i: int)
    ensures -10 < i < 10 ==> CutNumeral(i) == if i < 0 then "-" else ""
    ensures i >= 10 ==> CutNumeral(i) == NatText(i / 10)
    ensures i <= -10 ==> CutNumeral(i) == "-" + NatText(-i / 10)
  {
    var n := if i < 0 then -i else i;
    if n >= 10 { assert NatText(n)[..|NatText(n)| - 1] == NatText(n / 10); }
  }

  lemma NoDigits(s: string)
    requires s == "" || s == "-"
    ensures ToNumber(s) == None
  {
  }

  lemma ToNumberOfCut(i: int)
    requires INT64_MIN <= i <= INT64_MAX
    ensures CutNumeral(i) == "" <==> 0 <= i < 10
    ensures ToNumber(CutNumeral(i)) == CutValue(i)
  {
    hide ToNumber, CutNumeral, NatText;
    CutNumeralIs(i);
    if -10 < i < 10 {
      NoDigits(CutNumeral(i));
    } else {
      var n := if i < 0 then -i else i;
      NatValueOfText(n / 10);
      ToNumberDigits(i < 0, NatText(n / 10));
      assert "" + NatText(n / 10) == NatText(n / 10);
    }
  }
}
