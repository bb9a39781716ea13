/** `GenerateVerifyCode` (util/util.go): a string of random decimal digits.
    The random source is a parameter: `draws[i]` is what `rand.Intn(10)`
    returns in the i-th iteration, so it lies in [0, 10). Seeding it from the
    clock is left out. */
module Util {
  import opened GoTypes

  /** The alphabet of a verify code. */
  const Digits := "0123456789"

  predicate IsDigit(c: char)
  {
    '0' as int <= c as int <= '9' as int
  }

  /** `Digits[d]` is the digit of value `d`. */
  lemma DigitsTable()
    ensures |Digits| == 10
    ensures forall d :: 0 <= d < 10 ==> Digits[d] as int == '0' as int + d
  {
    assert Digits == ['0', '1', '2', '3', '4', '5', '6', '7', '8', '9'];
  }

  predicate IsDraw(d: int)
  {
    0 <= d < 10
  }

  /** The code a sequence of draws spells: one digit per draw. */
  function DigitCode(draws: seq<int>): (s: string)
    requires forall i :: 0 <= i < |draws| ==> IsDraw(draws[i])
    ensures |s| == |draws|
    ensures forall i :: 0 <= i < |s| ==> IsDigit(s[i])
  {
    DigitsTable();
    var s := seq(|draws|, i requires 0 <= i < |draws| && IsDraw(draws[i]) => Digits[draws[i]]);
    assert forall i :: 0 <= i < |s| ==> s[i] == Digits[draws[i]];
    s
  }

  /** The draws that spell a digit string. */
  function DrawsOf(s: string): (d: seq<int>)
    requires forall i :: 0 <= i < |s| ==> IsDigit(s[i])
    ensures |d| == |s|
    ensures forall i :: 0 <= i < |d| ==> IsDraw(d[i])
  {
    seq(|s|, i requires 0 <= i < |s| && IsDigit(s[i]) => s[i] as int - '0' as int)
  }

  /** Every digit string is the code of some draws, so each of the `10^n`
      codes of length `n` can come out. */
  lemma EveryCodeReachable(s: string)
    requires forall i :: 0 <= i < |s| ==> IsDigit(s[i])
    ensures DigitCode(DrawsOf(s)) == s
  {
    var c := DigitCode(DrawsOf(s));
    forall i | 0 <= i < |s|
      ensures c[i] == s[i]
    {
      DigitAt(s[i]);
    }
  }

  /** Distinct draws give distinct codes. */
  lemma CodeDeterminesDraws(d1: seq<int>, d2: seq<int>)
    requires forall i :: 0 <= i < |d1| ==> IsDraw(d1[i])
    requires forall i :: 0 <= i < |d2| ==> IsDraw(d2[i])
    requires DigitCode(d1) == DigitCode(d2)
    ensures d1 == d2
  {
    forall i | 0 <= i < |d1|
      ensures d1[i] == d2[i]
    {
      assert DigitCode(d1)[i] == DigitCode(d2)[i];
      DrawAt(d1[i]);
      DrawAt(d2[i]);
    }
  }

  lemma DigitAt(c: char)
    requires IsDigit(c)
    ensures Digits[c as int - '0' as int] == c
  {
    DigitsTable();
  }

  lemma DrawAt(d: int)
    requires IsDraw(d)
    ensures Digits[d] as int - '0' as int == d
  {
    DigitsTable();
  }

  /** `GenerateVerifyCode`: `length` iterations, each appending the digit
      its draw selects; a length of zero or less gives "". */
  method GenerateVerifyCode(length: goint, draws: seq<int>) returns (code: string)
    requires length as int <= |draws|
    requires forall i :: 0 <= i < |draws| ==> IsDraw(draws[i])
    ensures length <= 0 ==> code == ""
    ensures length > 0 ==> code == DigitCode(draws[..length])
    ensures |code| == if length > 0 then length as int else 0
    ensures forall i :: 0 <= i < |code| ==> IsDigit(code[i])
  {
    code := "";
    var i: int := 0;
    while i < length as int
      invariant 0 <= i <= if length > 0 then length as int else 0
      invariant code == DigitCode(draws[..i])
    {
      DigitsTable();
      assert draws[..i + 1] == draws[..i] + [draws[i]];
      code := code + [Digits[draws[i]]];
      i := i + 1;
    }
    if length > 0 {
      assert i == length as int;
    }
  }
}
