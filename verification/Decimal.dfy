/** Decimal text of natural numbers, as `String(n)` and `padStart(10, "0")` write it. */
module Decimal {

  function Digit(d: nat): char
    requires d < 10
  {
    ('0' as int + d) as char
  }

  function Text(n: nat): (s: string)
    ensures |s| > 0
  {
    if n < 10 then [Digit(n)] else Text(n / 10) + [Digit(n % 10)]
  }

  function Value(s: string): int {
    if s == "" then 0 else 10 * Value(s[..|s| - 1]) + (s[|s| - 1] as int - '0' as int)
  }

  function Zeros(n: nat): (s: string)
    ensures |s| == n
    ensures forall i :: 0 <= i < n ==> s[i] == '0'
  {
    seq(n, _ => '0')
  }

  /** `String(n).padStart(10, "0")`. */
  function Padded(n: nat): string {
    var text := Text(n);
    if |text| < 10 then Zeros(10 - |text|) + text else text
  }

  lemma {:induction false} ValueOfPadding(zeros: nat, n: nat)
    ensures Value(Zeros(zeros) + Text(n)) == n
  {
    var s := Zeros(zeros) + Text(n);
    if n < 10 {
      ValueOfZeros(zeros);
      assert s[..|s| - 1] == Zeros(zeros);
    } else {
      ValueOfPadding(zeros, n / 10);
      assert s[..|s| - 1] == Zeros(zeros) + Text(n / 10);
    }
  }

  lemma {:induction false} ValueOfZeros(n: nat)
    ensures Value(Zeros(n)) == 0
  {
    if n > 0 {
      ValueOfZeros(n - 1);
      assert Zeros(n)[..n - 1] == Zeros(n - 1);
    }
  }

  lemma TextIsInjective(a: nat, b: nat)
    requires Text(a) == Text(b)
    ensures a == b
  {
    ValueOfPadding(0, a);
    ValueOfPadding(0, b);
    assert Zeros(0) + Text(a) == Text(a) && Zeros(0) + Text(b) == Text(b);
  }

  lemma PaddedIsInjective(a: nat, b: nat)
    requires Padded(a) == Padded(b)
    ensures a == b
  {
    PaddedIsPadding(a);
    PaddedIsPadding(b);
  }

  lemma PaddedIsPadding(n: nat)
    ensures Value(Padded(n)) == n
  {
    ValueOfPadding(if |Text(n)| < 10 then 10 - |Text(n)| else 0, n);
    assert |Text(n)| >= 10 ==> Zeros(0) + Text(n) == Text(n);
  }

  const PADDED_LIMIT: nat := 10_000_000_000

  function Pow10(k: nat): nat {
    if k == 0 then 1 else 10 * Pow10(k - 1)
  }

  lemma {:induction false} TextLength(n: nat, k: nat)
    requires k >= 1
    ensures n < Pow10(k) <==> |Text(n)| <= k
  {
    if n >= 10 {
      if k == 1 {
        assert Pow10(1) == 10;
      } else {
        TextLength(n / 10, k - 1);
      }
    } else {
      Pow10Grows(k);
    }
  }

  lemma {:induction false} Pow10Grows(k: nat)
    requires k >= 1
    ensures Pow10(k) >= 10
  {
    if k > 1 {
      Pow10Grows(k - 1);
    }
  }

  /** Below 10^10 the padded text always has ten characters. */
  lemma PaddedLength(n: nat)
    ensures |Padded(n)| == 10 <==> n < PADDED_LIMIT
  {
    TextLength(n, 10);
    assert Pow10(10) == PADDED_LIMIT by {
      assert Pow10(5) == 100_000;
      assert Pow10(10) == 10 * (10 * (10 * (10 * (10 * Pow10(5)))));
    }
  }
}
