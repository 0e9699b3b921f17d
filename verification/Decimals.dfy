// Decimal numerals and the function that writes them (run_skip.go).
module Decimals {

  const INT64_BOUND: nat := 0x8000_0000_0000_0000

  function DigitChar(d: nat): char
    requires d < 10
  {
    '0' + d as char
  }

  function Decimal(n: nat): (s: string)
    ensures s != "" && forall i :: 0 <= i < |s| ==> '0' <= s[i] <= '9'
  {
    if n < 10 then [DigitChar(n)] else Decimal(n / 10) + [DigitChar(n % 10)]
  }

  lemma {:induction false} DecimalInjective(m: nat, n: nat)
    ensures Decimal(m) == Decimal(n) <==> m == n
    decreases m
  {
    if Decimal(m) == Decimal(n) {
      var s, t := Decimal(m), Decimal(n);
      assert s[|s| - 1] == DigitChar(m % 10) && t[|t| - 1] == DigitChar(n % 10);
      if m < 10 || n < 10 {
        assert |s| == |t|;
        TwoDigits(m);
        TwoDigits(n);
      } else {
        assert s[..|s| - 1] == Decimal(m / 10) && t[..|t| - 1] == Decimal(n / 10);
        DecimalInjective(m / 10, n / 10);
      }
    }
  }

  lemma TwoDigits(n: nat)
    ensures |Decimal(n)| == 1 <==> n < 10
  {
    if n >= 10 {
      assert |Decimal(n / 10)| >= 1;
    }
  }

  function Pow10(k: nat): nat {
    if k == 0 then 1 else 10 * Pow10(k - 1)
  }

  lemma {:induction false} Pow10Of20()
    ensures Pow10(20) > INT64_BOUND
  {
    assert Pow10(4) == 10000;
    assert Pow10(8) == 100000000;
    assert Pow10(12) == 1000000000000;
    assert Pow10(16) == 10000000000000000;
    assert Pow10(20) == 100000000000000000000;
  }

  /** The digits are written from the back of a twenty-byte buffer; every value
      of the type fits. A negative number gives the empty string. */
  method Itoa(n: int) returns (s: string)
    requires n < INT64_BOUND
    ensures s == if n < 0 then "" else Decimal(n)
  {
    if n == 0 {
      return "0";
    }
    var b := new char[20];
    var i, rest := 20, n;
    Pow10Of20();
    while rest > 0
      invariant 0 <= i <= 20 && rest <= n
      invariant n > 0 ==> 0 <= rest < Pow10(i)
      invariant n < 0 ==> i == 20 && rest == n
      invariant n > 0 && rest > 0 ==> Decimal(rest) + b[i..] == Decimal(n)
      invariant n > 0 && rest == 0 ==> b[i..] == Decimal(n)
      decreases rest
    {
      i := i - 1;
      b[i] := DigitChar(rest % 10);
      assert b[i..] == [DigitChar(rest % 10)] + b[i + 1..];
      rest := rest / 10;
    }
    s := b[i..];
  }
}
