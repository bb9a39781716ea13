/** The parts of Go's `strconv` package that the nullable types call:
    `ParseUint` and `ParseInt` with base 10, and `ParseBool`.

    The functions follow the library's own control flow (the digit loop of
    `ParseUint`, the sign handling and cutoff checks of `ParseInt`, the token
    switch of `ParseBool`); the lemmas state which literals they accept.
    A decimal printer is defined only so that the round trip can be stated. */
module Strconv {
  import opened Wrappers

  /** The `Err` field of Go's `*strconv.NumError`. */
  datatype NumError = ErrSyntax | ErrRange

  predicate IsDigit(c: char)
  {
    '0' <= c <= '9'
  }

  function DigitValue(c: char): (d: nat)
    requires IsDigit(c)
    ensures d < 10
  {
    c as int - '0' as int
  }

  function DigitChar(d: nat): (c: char)
    requires d < 10
    ensures IsDigit(c) && DigitValue(c) == d
  {
    ('0' as int + d) as char
  }

  predicate AllDigits(s: string)
  {
    forall i :: 0 <= i < |s| ==> IsDigit(s[i])
  }

  /** The number denoted by the digits `s` written after the digits of `acc`. */
  function Accumulate(acc: nat, s: string): nat
    requires AllDigits(s)
    decreases |s|
  {
    if s == [] then acc else Accumulate(acc * 10 + DigitValue(s[0]), s[1..])
  }

  /** The number a string of decimal digits denotes (leading zeros allowed). */
  function DecimalValue(s: string): nat
    requires AllDigits(s)
  {
    Accumulate(0, s)
  }

  function Pow2(n: nat): (p: nat)
    ensures p >= 1
  {
    if n == 0 then 1 else 2 * Pow2(n - 1)
  }

  function MaxUint(bitSize: nat): nat
  {
    Pow2(bitSize) - 1
  }

  lemma Pow2Widths()
    ensures Pow2(7) == 0x80 && Pow2(8) == 0x100
    ensures Pow2(15) == 0x8000 && Pow2(16) == 0x1_0000
    ensures Pow2(31) == 0x8000_0000 && Pow2(32) == 0x1_0000_0000
    ensures Pow2(63) == 0x8000_0000_0000_0000 && Pow2(64) == 0x1_0000_0000_0000_0000
  {
    Pow2Bytes();
    Pow2Halves();
    Pow2Words();
    Pow2Doubles();
  }

  lemma Pow2Bytes()
    ensures Pow2(7) == 0x80 && Pow2(8) == 0x100
  {
    assert Pow2(4) == 16;
    assert Pow2(7) == 0x80;
  }

  lemma Pow2Halves()
    ensures Pow2(15) == 0x8000 && Pow2(16) == 0x1_0000
  {
    Pow2Bytes();
    Pow2Add(8, 7);
    Pow2Add(8, 8);
  }

  lemma Pow2Words()
    ensures Pow2(31) == 0x8000_0000 && Pow2(32) == 0x1_0000_0000
  {
    Pow2Halves();
    Pow2Add(16, 15);
    Pow2Add(16, 16);
  }

  lemma Pow2Doubles()
    ensures Pow2(63) == 0x8000_0000_0000_0000 && Pow2(64) == 0x1_0000_0000_0000_0000
  {
    Pow2Words();
    Pow2Add(32, 31);
    Pow2Add(32, 32);
  }

  lemma {:induction false} Pow2Add(a: nat, b: nat)
    ensures Pow2(a + b) == Pow2(a) * Pow2(b)
    decreases a
  {
    if a > 0 {
      Pow2Add(a - 1, b);
    }
  }

  /** A non-empty run of decimal digits: what `ParseUint(s, 10, _)` accepts. */
  predicate IsUnsignedLiteral(s: string)
  {
    s != "" && AllDigits(s)
  }

  /** An optional `+` or `-` followed by a non-empty run of decimal digits:
      what `ParseInt(s, 10, _)` accepts. */
  predicate IsSignedLiteral(s: string)
  {
    s != "" && (if s[0] == '+' || s[0] == '-' then IsUnsignedLiteral(s[1..]) else AllDigits(s))
  }

  function SignedLiteralValue(s: string): int
    requires IsSignedLiteral(s)
  {
    if s[0] == '-' then -(DecimalValue(s[1..]) as int)
    else if s[0] == '+' then DecimalValue(s[1..])
    else DecimalValue(s)
  }

  /** The digit loop of `ParseUint` for base 10, continuing from the value `n`
      read so far. A character that is not a digit is a syntax error (base 10
      admits neither letters nor underscores); the first digit that takes the
      value above `maxVal` is a range error, whatever follows it. Go detects
      that overflow with a cutoff and a wrap-around test on uint64, which
      together amount to `n * 10 + d > maxVal` for every `maxVal < 2^64`. */
  function ScanUint(s: string, maxVal: nat, n: nat): (r: Result<nat, NumError>)
    requires n <= maxVal
    ensures r.Success? ==> r.value <= maxVal
    decreases |s|
  {
    if s == [] then Success(n)
    else if !IsDigit(s[0]) then Failure(ErrSyntax)
    else if n * 10 + DigitValue(s[0]) > maxVal then Failure(ErrRange)
    else ScanUint(s[1..], maxVal, n * 10 + DigitValue(s[0]))
  }

  /** `strconv.ParseUint(s, 10, bitSize)`. */
  function ParseUint(s: string, bitSize: nat): (r: Result<nat, NumError>)
    requires 1 <= bitSize <= 64
    ensures r.Success? ==> r.value <= MaxUint(bitSize)
  {
    if s == "" then Failure(ErrSyntax) else ScanUint(s, MaxUint(bitSize), 0)
  }

  /** `strconv.ParseInt(s, 10, bitSize)`: an optional sign, then `ParseUint`
      on the rest with the same bit size; a syntax error is passed on, while
      after a range error Go carries on with the saturated value and the
      signed cutoff checks reject it. */
  function ParseInt(s: string, bitSize: nat): (r: Result<int, NumError>)
    requires 1 <= bitSize <= 64
    ensures r.Success? ==> -(Pow2(bitSize - 1) as int) <= r.value < Pow2(bitSize - 1)
  {
    if s == "" then Failure(ErrSyntax)
    else
      var neg := s[0] == '-';
      var digits := if s[0] == '+' || s[0] == '-' then s[1..] else s;
      var u := ParseUint(digits, bitSize);
      if u.Failure? && u.error == ErrSyntax then Failure(ErrSyntax)
      else
        var un := if u.Success? then u.value else MaxUint(bitSize);
        var cutoff := Pow2(bitSize - 1);
        if !neg && un >= cutoff then Failure(ErrRange)
        else if neg && un > cutoff then Failure(ErrRange)
        else Success(if neg then -un else un)
  }

  lemma {:induction false} AccumulateGrows(acc: nat, s: string)
    requires AllDigits(s)
    ensures Accumulate(acc, s) >= acc
    decreases |s|
  {
    if s != [] {
      AccumulateGrows(acc * 10 + DigitValue(s[0]), s[1..]);
    }
  }

  /** The digit loop succeeds exactly on digit strings whose value, read on
      from `n`, stays within `maxVal`, and then yields that value. */
  lemma {:induction false} ScanUintExact(s: string, maxVal: nat, n: nat)
    requires n <= maxVal
    ensures ScanUint(s, maxVal, n).Success? <==> AllDigits(s) && Accumulate(n, s) <= maxVal
    ensures ScanUint(s, maxVal, n).Success? ==> ScanUint(s, maxVal, n).value == Accumulate(n, s)
    decreases |s|
  {
    if s != [] {
      if AllDigits(s) {
        assert AllDigits(s[1..]) by {
          forall i | 0 <= i < |s[1..]| ensures IsDigit(s[1..][i]) { assert s[1..][i] == s[i + 1]; }
        }
        var n1 := n * 10 + DigitValue(s[0]);
        if n1 > maxVal {
          AccumulateGrows(n1, s[1..]);
        } else {
          ScanUintExact(s[1..], maxVal, n1);
        }
      } else if IsDigit(s[0]) {
        var n1 := n * 10 + DigitValue(s[0]);
        assert !AllDigits(s[1..]) by {
          var i :| 0 <= i < |s| && !IsDigit(s[i]);
          assert s[1..][i - 1] == s[i];
        }
        if n1 <= maxVal {
          ScanUintExact(s[1..], maxVal, n1);
        }
      }
    }
  }

  /** `ParseUint(s, 10, bitSize)` succeeds exactly on unsigned decimal
      literals whose value fits in `bitSize` bits, and yields that value. */
  lemma ParseUintAccepts(s: string, bitSize: nat)
    requires 1 <= bitSize <= 64
    ensures ParseUint(s, bitSize).Success? <==> IsUnsignedLiteral(s) && DecimalValue(s) <= MaxUint(bitSize)
    ensures ParseUint(s, bitSize).Success? ==> ParseUint(s, bitSize).value == DecimalValue(s)
  {
    if s != "" {
      ScanUintExact(s, MaxUint(bitSize), 0);
    }
  }

  /** `ParseInt(s, 10, bitSize)` succeeds exactly on signed decimal literals
      whose value lies in the signed range of `bitSize` bits, and yields that
      value. (For `bitSize` 1 Go's range handling differs; the model's callers
      use 8 bits and more.) */
  lemma ParseIntAccepts(s: string, bitSize: nat)
    requires 2 <= bitSize <= 64
    ensures ParseInt(s, bitSize).Success? <==>
      IsSignedLiteral(s) && -(Pow2(bitSize - 1) as int) <= SignedLiteralValue(s) < Pow2(bitSize - 1)
    ensures ParseInt(s, bitSize).Success? ==> ParseInt(s, bitSize).value == SignedLiteralValue(s)
  {
    if s != "" {
      var digits := if s[0] == '+' || s[0] == '-' then s[1..] else s;
      ParseUintAccepts(digits, bitSize);
      assert Pow2(bitSize) == 2 * Pow2(bitSize - 1);
      assert Pow2(bitSize - 1) >= 2 by {
        assert Pow2(bitSize - 1) == 2 * Pow2(bitSize - 2);
      }
      if s[0] != '+' && s[0] != '-' {
        assert digits == s;
      }
    }
  }

  /** `strconv.ParseBool`. */
  function ParseBool(str: string): (r: Result<bool, NumError>)
    ensures r == Success(true) <==> str in {"1", "t", "T", "TRUE", "true", "True"}
    ensures r == Success(false) <==> str in {"0", "f", "F", "FALSE", "false", "False"}
    ensures r.Failure? ==> r.error == ErrSyntax
  {
    if str == "1" || str == "t" || str == "T" || str == "TRUE" || str == "true" || str == "True" then
      Success(true)
    else if str == "0" || str == "f" || str == "F" || str == "FALSE" || str == "false" || str == "False" then
      Success(false)
    else
      Failure(ErrSyntax)
  }

  /** The decimal form of a natural number, without leading zeros. */
  function FormatUint(v: nat): (s: string)
    ensures IsUnsignedLiteral(s)
    decreases v
  {
    if v < 10 then [DigitChar(v)] else FormatUint(v / 10) + [DigitChar(v % 10)]
  }

  /** The decimal form of an integer, with a `-` when it is negative. */
  function FormatInt(v: int): string
  {
    if v < 0 then "-" + FormatUint(-v) else FormatUint(v)
  }

  lemma {:induction false} AccumulateAppend(acc: nat, s: string, c: char)
    requires AllDigits(s) && IsDigit(c)
    ensures AllDigits(s + [c])
    ensures Accumulate(acc, s + [c]) == Accumulate(acc, s) * 10 + DigitValue(c)
    decreases |s|
  {
    assert AllDigits(s + [c]) by {
      forall i | 0 <= i < |s + [c]| ensures IsDigit((s + [c])[i]) {
        if i < |s| { assert (s + [c])[i] == s[i]; }
      }
    }
    if s != [] {
      assert (s + [c])[0] == s[0];
      assert (s + [c])[1..] == s[1..] + [c];
      assert AllDigits(s[1..]) by {
        forall i | 0 <= i < |s[1..]| ensures IsDigit(s[1..][i]) { assert s[1..][i] == s[i + 1]; }
      }
      AccumulateAppend(acc * 10 + DigitValue(s[0]), s[1..], c);
    } else {
      assert s + [c] == [c];
    }
  }

  lemma {:induction false} FormatUintValue(v: nat)
    ensures DecimalValue(FormatUint(v)) == v
    decreases v
  {
    if v >= 10 {
      FormatUintValue(v / 10);
      AccumulateAppend(0, FormatUint(v / 10), DigitChar(v % 10));
    } else {
      assert FormatUint(v) == [DigitChar(v)];
      assert Accumulate(0, [DigitChar(v)]) == Accumulate(v, []);
    }
  }

  /** Every value that fits is accepted back from its decimal form. */
  lemma ParseFormatUint(v: nat, bitSize: nat)
    requires 1 <= bitSize <= 64 && v <= MaxUint(bitSize)
    ensures ParseUint(FormatUint(v), bitSize) == Success(v)
  {
    FormatUintValue(v);
    ParseUintAccepts(FormatUint(v), bitSize);
  }

  /** Every value in the signed range is accepted back from its decimal form. */
  lemma ParseFormatInt(v: int, bitSize: nat)
    requires 2 <= bitSize <= 64 && -(Pow2(bitSize - 1) as int) <= v < Pow2(bitSize - 1)
    ensures ParseInt(FormatInt(v), bitSize) == Success(v)
  {
    var s := FormatInt(v);
    var m := if v < 0 then -v else v;
    FormatUintValue(m);
    if v < 0 {
      assert s[1..] == FormatUint(m);
    } else {
      assert FormatUint(m)[0] != '-' && FormatUint(m)[0] != '+';
    }
    ParseIntAccepts(s, bitSize);
  }
}
