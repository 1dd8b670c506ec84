/** The powers of the generator 0x03: its order is 255, so every non-zero byte is one of them. */
module Generator {
  import opened Bytes
  import opened Product

  // ---------- powers of the generator ----------

  function Power(n: nat): Byte {
    if n == 0 then ONE else Triple(Power(n - 1))
  }

  lemma {:induction false} PowerSum(i: nat, j: nat)
    ensures Times(Power(i), Power(j)) == Power(i + j)
  {
    hide Times, Triple;
    if i == 0 {
      TimesOneLeft(Power(j));
    } else {
      PowerSum(i - 1, j);
      TimesTriple(Power(i - 1), Power(j));
    }
  }

  lemma Power17()
    ensures Power(15) == Byte(true, false, true, false, true, true, false, false)
    ensures Power(17) == Byte(true, false, false, false, false, true, true, true)
  {
    assert Power(1) == Byte(true, true, false, false, false, false, false, false);
    assert Power(2) == Byte(true, false, true, false, false, false, false, false);
    assert Power(3) == Byte(true, true, true, true, false, false, false, false);
    assert Power(4) == Byte(true, false, false, false, true, false, false, false);
    assert Power(5) == Byte(true, true, false, false, true, true, false, false);
    assert Power(6) == Byte(true, false, true, false, true, false, true, false);
    assert Power(7) == Byte(true, true, true, true, true, true, true, true);
    assert Power(8) == Byte(false, true, false, true, true, false, false, false);
    assert Power(9) == Byte(false, true, true, true, false, true, false, false);
    assert Power(10) == Byte(false, true, false, false, true, true, true, false);
    assert Power(11) == Byte(false, true, true, false, true, false, false, true);
    assert Power(12) == Byte(true, false, false, false, false, true, false, true);
    assert Power(13) == Byte(false, false, false, true, true, true, true, true);
    assert Power(14) == Byte(true, true, false, false, true, false, false, false);
    assert Power(15) == Byte(true, false, true, false, true, true, false, false);
    assert Power(16) == Byte(true, true, true, true, true, false, true, false);
    assert Power(17) == Byte(true, false, false, false, false, true, true, true);
  }

  lemma Power34()
    ensures Power(34) == Byte(false, false, true, true, true, false, true, false)
  {
    hide Power;
    Power17();
    PowerSum(17, 17);
    assert Times(Byte(true, false, false, false, false, true, true, true),
      Byte(true, false, false, false, false, true, true, true)) ==
      Byte(false, false, true, true, true, false, true, false);
  }

  lemma Power51()
    ensures Power(51) == Byte(false, false, true, true, false, false, false, false)
  {
    hide Power;
    Power34();
    Power17();
    PowerSum(34, 17);
    assert Times(Byte(false, false, true, true, true, false, true, false),
      Byte(true, false, false, false, false, true, true, true)) ==
      Byte(false, false, true, true, false, false, false, false);
  }

  lemma Power85()
    ensures Power(85) == Byte(true, false, true, true, true, true, false, true)
  {
    hide Power;
    Power51();
    Power34();
    PowerSum(51, 34);
    assert Times(Byte(false, false, true, true, false, false, false, false),
      Byte(false, false, true, true, true, false, true, false)) ==
      Byte(true, false, true, true, true, true, false, true);
  }

  lemma Power170()
    ensures Power(170) == Byte(false, false, true, true, true, true, false, true)
  {
    hide Power;
    Power85();
    PowerSum(85, 85);
    assert Times(Byte(true, false, true, true, true, true, false, true),
      Byte(true, false, true, true, true, true, false, true)) ==
      Byte(false, false, true, true, true, true, false, true);
  }

  lemma Power255()
    ensures Power(255) == Byte(true, false, false, false, false, false, false, false)
  {
    hide Power;
    Power170();
    Power85();
    PowerSum(170, 85);
    assert Times(Byte(false, false, true, true, true, true, false, true),
      Byte(true, false, true, true, true, true, false, true)) ==
      Byte(true, false, false, false, false, false, false, false);
  }

  lemma TripleInjective(x: Byte, y: Byte)
    requires Triple(x) == Triple(y)
    ensures x == y
  {}

  lemma {:induction false} PowerNonZero(n: nat)
    ensures Power(n) != ZERO
  {
    if n > 0 {
      PowerNonZero(n - 1);
      assert Triple(ZERO) == ZERO;
      if Power(n) == ZERO {
        TripleInjective(Power(n - 1), ZERO);
      }
    }
  }

  lemma {:induction false} PowerCancel(i: nat, j: nat)
    requires i <= j && Power(i) == Power(j)
    ensures Power(j - i) == ONE
  {
    hide Triple;
    if i > 0 {
      TripleInjective(Power(i - 1), Power(j - 1));
      PowerCancel(i - 1, j - 1);
    }
  }

  lemma {:induction false} PowerMultiple(d: nat, q: nat, r: nat)
    requires Power(d) == ONE
    ensures Power(q * d + r) == Power(r)
  {
    hide Times, Triple;
    if q > 0 {
      assert q * d + r == d + ((q - 1) * d + r);
      PowerSum(d, (q - 1) * d + r);
      TimesOneLeft(Power((q - 1) * d + r));
      PowerMultiple(d, q - 1, r);
    }
  }

  lemma SmallDivisor(n: nat)
    requires 0 < n <= 15 && 255 % n == 0
    ensures n == 1 || n == 3 || n == 5 || n == 15
  {
    if n <= 7 {
      assert n == 1 || n == 2 || n == 3 || n == 4 || n == 5 || n == 6 || n == 7;
    } else {
      assert n == 8 || n == 9 || n == 10 || n == 11 || n == 12 || n == 13 || n == 14 || n == 15;
    }
  }

  lemma LargeDivisor(d: nat, q: nat)
    requires 15 < d < 255 && q * d == 255
    ensures d == 17 || d == 51 || d == 85
  {
    MulMonotone(q, 16, q, d);
    assert q <= 15;
    assert q == 0 || q == 1 || q == 2 || q == 3 || q == 4 || q == 5 || q == 6 || q == 7
        || q == 8 || q == 9 || q == 10 || q == 11 || q == 12 || q == 13 || q == 14 || q == 15;
  }

  /** A proper divisor of 255 divides 15, 51 or 85. */
  lemma DivisorsOf255(d: nat)
    requires 0 < d < 255 && 255 % d == 0
    ensures 15 % d == 0 || 51 % d == 0 || 85 % d == 0
  {
    if d <= 15 {
      SmallDivisor(d);
    } else {
      assert 255 / d * d == 255;
      LargeDivisor(d, 255 / d);
    }
  }

  lemma MulMonotone(a: nat, b: nat, x: nat, y: nat)
    requires a <= x && b <= y
    ensures a * b <= x * y
  {
    assert a * b <= x * b <= x * y;
  }

  lemma NoSmallPeriod(i: nat)
    requires 0 < i < 255
    ensures Power(i) != ONE
  {
    hide Power;
    if Power(i) == ONE {
      var d := 1;
      while Power(d) != ONE
        invariant 0 < d <= i
        invariant forall e | 0 < e < d :: Power(e) != ONE
        decreases i - d
      {
        d := d + 1;
      }
      Power255();
      LeastPeriodDivides(d, 255);
      DivisorsOf255(d);
      Power17();
      Power51();
      Power85();
      if 15 % d == 0 {
        DividesPeriod(d, 15);
      } else if 51 % d == 0 {
        DividesPeriod(d, 51);
      } else {
        DividesPeriod(d, 85);
      }
      assert false;
    }
  }

  lemma LeastPeriodDivides(d: nat, n: nat)
    requires d > 0 && Power(d) == ONE && Power(n) == ONE
    requires forall e | 0 < e < d :: Power(e) != ONE
    ensures n % d == 0
  {
    hide Power;
    assert n == n / d * d + n % d;
    PowerMultiple(d, n / d, n % d);
  }

  lemma DividesPeriod(d: nat, n: nat)
    requires d > 0 && Power(d) == ONE && n % d == 0
    ensures Power(n) == ONE
  {
    assert n == n / d * d + 0;
    PowerMultiple(d, n / d, 0);
    assert Power(0) == ONE;
  }

  /** The generator has order exactly 255. */
  lemma GeneratorOrder(i: nat)
    ensures Power(i) == ONE <==> i % 255 == 0
  {
    hide Power;
    Power255();
    assert i == i / 255 * 255 + i % 255;
    PowerMultiple(255, i / 255, i % 255);
    if i % 255 == 0 {
      DividesPeriod(255, i);
    } else {
      NoSmallPeriod(i % 255);
    }
  }

  lemma PowerInjective(i: nat, j: nat)
    requires i <= j < 255 && Power(i) == Power(j)
    ensures i == j
  {
    hide Power;
    if i < j {
      PowerCancel(i, j);
      NoSmallPeriod(j - i);
      assert false;
    }
  }

  // ---------- every non-zero byte is a power ----------

  function PowerCode(n: nat): Octet {
    ToInt(Power(n))
  }

  lemma PowerCodeInjective(i: nat, j: nat)
    requires i <= j < 255 && PowerCode(i) == PowerCode(j)
    ensures i == j
  {
    hide Power, ToInt;
    ToIntInjective(Power(i), Power(j));
    PowerInjective(i, j);
  }

  lemma PowerCodePositive(i: nat)
    ensures PowerCode(i) > 0
  {
    hide Power, ToInt;
    PowerNonZero(i);
    ToIntOfZero();
    if PowerCode(i) == 0 {
      ToIntInjective(Power(i), ZERO);
    }
  }

  function CodesBelow(n: nat): set<nat> {
    hide PowerCode;
    if n == 0 then {} else CodesBelow(n - 1) + {PowerCode(n - 1)}
  }

  lemma {:induction false} CodeMembers(n: nat, v: nat)
    ensures v in CodesBelow(n) <==> exists i :: 0 <= i < n && v == PowerCode(i)
  {
    hide PowerCode;
    if n > 0 {
      CodeMembers(n - 1, v);
    }
  }

  lemma {:induction false} CodesDistinct(n: nat)
    requires n <= 255
    ensures |CodesBelow(n)| == n
  {
    hide PowerCode;
    if n > 0 {
      CodesDistinct(n - 1);
      CodeMembers(n - 1, PowerCode(n - 1));
      if PowerCode(n - 1) in CodesBelow(n - 1) {
        var i :| 0 <= i < n - 1 && PowerCode(n - 1) == PowerCode(i);
        PowerCodeInjective(i, n - 1);
      }
    }
  }

  lemma {:induction false} SubsetFills(s: set<nat>, n: nat)
    requires forall v | v in s :: 1 <= v <= n
    ensures |s| <= n
    ensures |s| == n ==> forall v | 1 <= v <= n :: v in s
  {
    if n > 0 {
      SubsetFills(s - {n}, n - 1);
    } else {
      assert s == {};
    }
  }

  lemma EveryCodeIsTaken(n: nat, v: nat)
    requires n == 255 && 1 <= v <= n
    ensures exists i :: 0 <= i < n && v == PowerCode(i)
  {
    hide PowerCode;
    forall w | w in CodesBelow(n) ensures 1 <= w <= n {
      CodeMembers(n, w);
      var i :| 0 <= i < n && w == PowerCode(i);
      PowerCodePositive(i);
    }
    CodesDistinct(n);
    SubsetFills(CodesBelow(n), n);
    CodeMembers(n, v);
  }

  lemma EveryNonZeroIsPower(a: Byte)
    requires a != ZERO
    ensures exists i :: 0 <= i < 255 && Power(i) == a
  {
    hide Power, ToInt, PowerCode;
    ToIntOfZero();
    if ToInt(a) == 0 {
      ToIntInjective(a, ZERO);
    }
    EveryCodeIsTaken(255, ToInt(a));
    var i :| 0 <= i < 255 && ToInt(a) == PowerCode(i);
    SameCode(a, i);
  }

  lemma SameCode(a: Byte, i: nat)
    requires ToInt(a) == PowerCode(i)
    ensures a == Power(i)
  {
    hide Power, ToInt;
    ToIntInjective(a, Power(i));
  }

  lemma ToIntOfZero()
    ensures ToInt(ZERO) == 0
  {
    assert Bits(ZERO) == LowBits(0, 8);
  }

  /** The discrete logarithm to base 3. */
  ghost function Log(a: Byte): (i: nat)
    requires a != ZERO
    ensures i < 255 && Power(i) == a
  {
    EveryNonZeroIsPower(a);
    var i :| 0 <= i < 255 && Power(i) == a;
    i
  }
}
