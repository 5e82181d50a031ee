/** Decimal rendering of natural numbers and how the number of digits grows. */
module Decimal {
  function DigitChar(d: nat): (c: char)
    requires d < 10
    ensures '0' <= c <= '9'
  {
    '0' + d as char
  }

  /** Number of decimal digits. */
  function Width(n: nat): (w: nat)
    ensures w >= 1
  {
    if n < 10 then 1 else Width(n / 10) + 1
  }

  function Render(n: nat): (s: string)
    ensures |s| == Width(n)
    ensures forall i :: 0 <= i < |s| ==> '0' <= s[i] <= '9'
  {
    if n < 10 then [DigitChar(n)] else Render(n / 10) + [DigitChar(n % 10)]
  }

  lemma {:induction false} RenderIsInjective(a: nat, b: nat)
    requires Render(a) == Render(b)
    ensures a == b
  {
    var s, t := Render(a), Render(b);
    assert s[|s| - 1] == DigitChar(a % 10) && t[|t| - 1] == DigitChar(b % 10);
    if a >= 10 && b >= 10 {
      assert Render(a / 10) == s[..|s| - 1] && Render(b / 10) == t[..|t| - 1];
      RenderIsInjective(a / 10, b / 10);
    }
  }

  /** What a row of digits stands for. */
  function Value(s: string): int {
    if s == "" then 0 else 10 * Value(s[..|s| - 1]) + (s[|s| - 1] as int - '0' as int)
  }

  /** The digits stand for the number, without a leading zero. */
  lemma {:induction false} RenderIsDecimal(n: nat)
    ensures Value(Render(n)) == n
    ensures n > 0 ==> Render(n)[0] != '0'
    ensures n == 0 ==> Render(n) == "0"
  {
    if n >= 10 {
      RenderIsDecimal(n / 10);
      assert Render(n)[..|Render(n)| - 1] == Render(n / 10);
    } else {
      assert [DigitChar(n)][..0] == "";
    }
  }

  lemma {:induction false} WidthIsMonotone(a: nat, b: nat)
    requires a <= b
    ensures Width(a) <= Width(b)
  {
    if a >= 10 {
      WidthIsMonotone(a / 10, b / 10);
    }
  }

  /** Multiplying by at most ten adds at most one digit. */
  lemma WidthGrowsByOne(a: nat, b: nat)
    requires a >= 1 && b <= 10 * a + 9
    ensures Width(b) <= Width(a) + 1
  {
    WidthIsMonotone(b, 10 * a + 9);
    assert (10 * a + 9) / 10 == a;
  }

  function Pow10(k: nat): nat { if k == 0 then 1 else 10 * Pow10(k - 1) }

  lemma {:induction false} WidthIsPowerBracket(a: nat, k: nat)
    requires k >= 1
    ensures Width(a) > k <==> a >= Pow10(k)
  {
    if k == 1 {
      assert Pow10(1) == 10 * Pow10(0);
      assert a >= 10 ==> Width(a) == Width(a / 10) + 1;
    } else if a >= 10 {
      WidthIsPowerBracket(a / 10, k - 1);
      assert a / 10 >= Pow10(k - 1) <==> a >= 10 * Pow10(k - 1);
    } else {
      assert Pow10(k) >= 10 by { PowerIsLarge(k); }
    }
  }

  lemma {:induction false} PowerIsLarge(k: nat)
    requires k >= 1
    ensures Pow10(k) >= 10
  {
    if k > 1 {
      PowerIsLarge(k - 1);
    }
  }

  /** A value that has just lost a digit by at most halving cannot lose another by dropping 7. */
  lemma NoSecondDrop(high: nat, middle: nat, low: nat)
    requires low <= middle <= low + 7 && high <= 2 * middle + 8 && middle > 40
    requires Width(middle) < Width(high)
    ensures Width(low) == Width(middle)
  {
    WidthIsMonotone(low, middle);
    var k := Width(middle);
    WidthIsPowerBracket(high, k);
    WidthIsMonotone(10, middle);
    assert k >= 2 by { assert Width(10) == 2; }
    PowerIsLarge(k - 1);
    WidthIsPowerBracket(low, k - 1);
  }
}
