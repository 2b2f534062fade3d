/** Decimal numerals as the seeder formats them: f"{n}" and f"{n:04d}". */
module Decimals {

  function Digit(d: nat): char
    requires d < 10
  {
    ('0' as int + d) as char
  }

  function Decimal(n: nat): string {
    if n < 10 then [Digit(n)] else Decimal(n / 10) + [Digit(n % 10)]
  }

  /** f"{n:04d}" */
  function Padded(n: nat): string {
    Zeros(4 - |Decimal(n)|) + Decimal(n)
  }

  function Zeros(k: int): string
    decreases k
  {
    if k <= 0 then "" else "0" + Zeros(k - 1)
  }

  predicate AllDigits(s: string) {
    forall i :: 0 <= i < |s| ==> '0' <= s[i] <= '9'
  }

  function Value(s: string): int {
    if s == "" then 0 else 10 * Value(s[..|s| - 1]) + (s[|s| - 1] as int - '0' as int)
  }

  lemma {:induction false} ValueOfDecimal(n: nat)
    ensures Value(Decimal(n)) == n && AllDigits(Decimal(n)) && Decimal(n) != ""
  {
    if n >= 10 {
      ValueOfDecimal(n / 10);
      assert Decimal(n)[..|Decimal(n)| - 1] == Decimal(n / 10);
    } else {
      assert [Digit(n)][..0] == "";
    }
  }

  lemma {:induction false} ZerosDoNotCount(k: int, s: string)
    ensures Value(Zeros(k) + s) == Value(s) && AllDigits(Zeros(k))
    decreases k, |s|
  {
    if s != "" {
      var init := s[..|s| - 1];
      ZerosDoNotCount(k, init);
      assert (Zeros(k) + s)[..|Zeros(k) + s| - 1] == Zeros(k) + init;
    } else if k > 0 {
      ZeroThenZeros(k);
    } else {
      assert Zeros(k) + s == s;
    }
  }

  lemma {:induction false} ZeroThenZeros(k: int)
    ensures Value(Zeros(k) + "") == 0 && AllDigits(Zeros(k))
  {
    assert Zeros(k) + "" == Zeros(k);
    if k > 0 {
      ZeroThenZeros(k - 1);
      ZerosShift(k - 1);
      assert Zeros(k) == Zeros(k - 1) + "0";
      assert Zeros(k)[..|Zeros(k)| - 1] == Zeros(k - 1);
      assert Zeros(k - 1) + "" == Zeros(k - 1);
    }
  }

  lemma {:induction false} ZerosShift(k: int)
    ensures "0" + Zeros(k) == Zeros(k) + "0"
  {
    if k > 0 {
      ZerosShift(k - 1);
      assert "0" + ("0" + Zeros(k - 1)) == "0" + (Zeros(k - 1) + "0");
      assert "0" + (Zeros(k - 1) + "0") == ("0" + Zeros(k - 1)) + "0";
    }
  }

  /** A zero-padded index parses back to the index. */
  lemma {:induction false} ValueOfPadded(n: nat)
    ensures Value(Padded(n)) == n && AllDigits(Padded(n))
  {
    hide Value, Decimal, Zeros, AllDigits;
    ValueOfDecimal(n);
    ZerosDoNotCount(4 - |Decimal(n)|, Decimal(n));
    DigitsJoin(Zeros(4 - |Decimal(n)|), Decimal(n));
  }

  lemma DigitsJoin(a: string, b: string)
    requires AllDigits(a) && AllDigits(b)
    ensures AllDigits(a + b)
  {
  }

  lemma {:induction false} NoLeadingZero(n: nat)
    ensures Decimal(n) != "" && (Decimal(n)[0] == '0' <==> n == 0)
  {
    if n >= 10 {
      NoLeadingZero(n / 10);
      assert Decimal(n)[0] == Decimal(n / 10)[0];
    }
  }

  lemma {:induction false} ZerosAre(k: int)
    ensures |Zeros(k)| == if k <= 0 then 0 else k
  {
    if k > 0 {
      ZerosAre(k - 1);
    }
  }

  /** Padding fills up to four digits, and a longer index is not padded at all. */
  lemma {:induction false} PaddedToFour(n: nat)
    ensures |Padded(n)| >= 4 && (|Padded(n)| > 4 ==> Padded(n) == Decimal(n) && Padded(n)[0] != '0')
  {
    NoLeadingZero(n);
    ZerosAre(4 - |Decimal(n)|);
    if |Decimal(n)| > 4 {
      assert Zeros(4 - |Decimal(n)|) == "";
      assert n != 0;
    }
  }

  /** A numeral after the last hyphen can be read off the end of a name. */
  lemma {:induction false} SuffixDetermined(a: string, x: string, b: string, y: string)
    requires AllDigits(x) && AllDigits(y)
    requires a + "-" + x == b + "-" + y
    ensures a == b && x == y
  {
    DigitsAfter(a, x);
    DigitsAfter(b, y);
    var s := a + "-" + x;
    assert |a| == |b|;
    assert a == s[..|a|] && b == s[..|b|] && x == s[|a| + 1..] && y == s[|b| + 1..];
  }

  lemma DigitsAfter(a: string, x: string)
    requires AllDigits(x)
    ensures var s := a + "-" + x;
            s[|a|] == '-' && forall k :: |a| < k < |s| ==> s[k] != '-'
  {
    var s := a + "-" + x;
    assert forall k :: |a| < k < |s| ==> s[k] == x[k - |a| - 1];
  }

  lemma {:induction false} NumberedNamesDiffer(a: string, i: nat, b: string, j: nat)
    ensures a + "-" + Padded(i) == b + "-" + Padded(j) ==> i == j
  {
    ValueOfPadded(i);
    ValueOfPadded(j);
    if a + "-" + Padded(i) == b + "-" + Padded(j) {
      SuffixDetermined(a, Padded(i), b, Padded(j));
    }
  }
}
