/**
 The field laws of GF(2^8), and the tables that the program builds in a loop from powers of the
 generator.  Every table operation is proved to compute the reference product.
 */
module Gf256 {
  import opened Bytes
  import opened Wrappers
  import opened Product
  import opened Generator

  // ---------- the field laws ----------

  lemma TimesCommutes(a: Byte, b: Byte)
    ensures Times(a, b) == Times(b, a)
  {
    hide Power, Times;
    if a == ZERO || b == ZERO {
      TimesZero(a);
      TimesZero(b);
    } else {
      PowerSum(Log(a), Log(b));
      PowerSum(Log(b), Log(a));
    }
  }

  lemma TimesAssociates(a: Byte, b: Byte, c: Byte)
    ensures Times(Times(a, b), c) == Times(a, Times(b, c))
  {
    hide Power, Times;
    if a == ZERO || b == ZERO || c == ZERO {
      TimesZero(a);
      TimesZero(b);
      TimesZero(c);
      TimesZero(Times(a, b));
      TimesZero(Times(b, c));
    } else {
      var i, j, k := Log(a), Log(b), Log(c);
      PowerSum(i, j);
      PowerSum(j, k);
      PowerSum(i + j, k);
      PowerSum(i, j + k);
    }
  }

  lemma TimesOne(a: Byte)
    ensures Times(ONE, a) == a && Times(a, ONE) == a
  {
    hide Times;
    TimesOneLeft(a);
    TimesCommutes(a, ONE);
  }

  lemma NoZeroDivisors(a: Byte, b: Byte)
    ensures Times(a, b) == ZERO <==> a == ZERO || b == ZERO
  {
    hide Power, Times;
    if a != ZERO && b != ZERO {
      PowerSum(Log(a), Log(b));
      PowerNonZero(Log(a) + Log(b));
    } else {
      TimesZero(a);
      TimesZero(b);
    }
  }

  ghost function Inverse(a: Byte): (r: Byte)
    requires a != ZERO
    ensures Times(a, r) == ONE && Times(r, a) == ONE && r != ZERO
  {
    hide Power, Times;
    var r := Power(255 - Log(a));
    PowerSum(Log(a), 255 - Log(a));
    Power255();
    TimesCommutes(a, r);
    PowerNonZero(255 - Log(a));
    r
  }

  /** A product by a non-zero factor determines the other factor. */
  lemma TimesCancels(a: Byte, b: Byte, c: Byte)
    requires c != ZERO && Times(a, c) == Times(b, c)
    ensures a == b
  {
    hide Times;
    var i := Inverse(c);
    TimesAssociates(a, c, i);
    TimesAssociates(b, c, i);
    TimesOne(a);
    TimesOne(b);
  }

  // ---------- the tables ----------

  /** `x << 1`, masked to a byte. */
  function ShiftLeft(x: Byte): Byte {
    Byte(false, x.b0, x.b1, x.b2, x.b3, x.b4, x.b5, x.b6)
  }

  /** The low byte of 0x11b. */
  const POLYNOMIAL := Byte(true, true, false, true, true, false, false, false)

  lemma ShiftAndReduce(x: Byte)
    ensures Xor(ShiftLeft(x), if x.b7 then POLYNOMIAL else ZERO) == Double(x)
  {}

  class Tables {
    const exp: seq<Byte>
    const log: seq<nat>

    ghost predicate Valid() {
      && |exp| == 512 && |log| == 256
      && (forall i | 0 <= i < 512 :: exp[i] == Power(i))
      && (forall v | 0 <= v < 256 :: log[v] < 255)
      && (forall i | 0 <= i < 255 :: log[PowerCode(i)] == i)
    }

    constructor ()
      ensures Valid()
    {
      hide Power, PowerCode, ToInt, Xor, Double, ShiftLeft;
      var e := new Byte[512](_ => ZERO);
      var l := new nat[256](_ => 0);
      var x, i := ONE, 0;
      assert x == Power(0) by { PowerStep(0); }
      while i < 255
        invariant 0 <= i <= 255
        invariant x == Power(i)
        invariant forall k | 0 <= k < i :: e[k] == Power(k)
        invariant forall k | 0 <= k < i :: l[PowerCode(k)] == k
        invariant forall v | 0 <= v < 256 :: l[v] < 255
      {
        e[i] := x;
        CodeOfPower(i);
        forall k | 0 <= k < i ensures PowerCode(k) != PowerCode(i) {
          if PowerCode(k) == PowerCode(i) {
            PowerCodeInjective(k, i);
          }
        }
        l[ToInt(x)] := i;
        PowerStep(i + 1);
        ShiftAndReduce(x);
        var x2 := Xor(ShiftLeft(x), if x.b7 then POLYNOMIAL else ZERO);
        x := Xor(x2, x);
        i := i + 1;
      }
      while i < 512
        invariant 255 <= i <= 512
        invariant forall k | 0 <= k < i :: e[k] == Power(k)
        invariant forall k | 0 <= k < 255 :: l[PowerCode(k)] == k
        invariant forall v | 0 <= v < 256 :: l[v] < 255
      {
        Periodic(i - 255);
        e[i] := e[i - 255];
        i := i + 1;
      }
      exp, log := e[..], l[..];
    }

    lemma LogOf(a: Byte)
      requires Valid() && a != ZERO
      ensures Power(log[ToInt(a)]) == a
    {
      hide Power, ToInt, Times;
      CodeOfPower(Log(a));
    }

    /** gfAdd. */
    function GfAdd(a: Byte, b: Byte): (r: Byte) {
      Xor(a, b)
    }

    /** gfMul: a table lookup that computes the field product. */
    function GfMul(a: Byte, b: Byte): (r: Byte)
      requires Valid()
      ensures r == Times(a, b)
    {
      hide Power, ToInt, Times;
      TimesZero(a);
      TimesZero(b);
      if a == ZERO || b == ZERO then ZERO else
      LogOf(a);
      LogOf(b);
      PowerSum(log[ToInt(a)], log[ToInt(b)]);
      exp[log[ToInt(a)] + log[ToInt(b)]]
    }

    lemma InverseLookup(a: Byte)
      requires Valid() && a != ZERO
      ensures Times(a, exp[255 - log[ToInt(a)]]) == ONE
    {
      hide Power, ToInt, Times;
      LogOf(a);
      PowerSum(log[ToInt(a)], 255 - log[ToInt(a)]);
      Power255();
    }

    lemma QuotientLookup(a: Byte, b: Byte)
      requires Valid() && a != ZERO && b != ZERO
      ensures Times(exp[(log[ToInt(a)] + 255 - log[ToInt(b)]) % 255], b) == a
    {
      hide Power, ToInt, Times;
      LogOf(a);
      LogOf(b);
      var d := log[ToInt(a)] + 255 - log[ToInt(b)];
      PowerModulo(d);
      PowerSum(d, log[ToInt(b)]);
      Periodic(log[ToInt(a)]);
    }

    /** gfInv: undefined at zero, otherwise the multiplicative inverse. */
    function GfInv(a: Byte): (r: Option<Byte>)
      requires Valid()
      ensures r.None? <==> a == ZERO
      ensures r.Some? ==> Times(a, r.value) == ONE
    {
      hide Power, ToInt, Times;
      if a == ZERO then None else
      InverseLookup(a);
      Some(exp[255 - log[ToInt(a)]])
    }

    /** gfDiv: undefined for a zero divisor, otherwise the quotient. */
    function GfDiv(a: Byte, b: Byte): (r: Option<Byte>)
      requires Valid()
      ensures r.None? <==> b == ZERO
      ensures r.Some? ==> Times(r.value, b) == a
    {
      hide Power, ToInt, Times;
      if b == ZERO then None else if a == ZERO then
        TimesZero(b);
        Some(ZERO)
      else
        QuotientLookup(a, b);
        Some(exp[(log[ToInt(a)] + 255 - log[ToInt(b)]) % 255])
    }
  }

  lemma PowerStep(i: nat)
    ensures i == 0 ==> Power(i) == ONE
    ensures i > 0 ==> Power(i) == Xor(Double(Power(i - 1)), Power(i - 1))
  {}

  lemma CodeOfPower(i: nat)
    ensures PowerCode(i) == ToInt(Power(i))
  {}

  lemma Periodic(n: nat)
    ensures Power(n + 255) == Power(n)
  {
    hide Power, Times;
    Power255();
    PowerSum(255, n);
    TimesOneLeft(Power(n));
  }

  lemma PowerModulo(n: nat)
    ensures Power(n % 255) == Power(n)
  {
    hide Power;
    Power255();
    PowerMultiple(255, n / 255, n % 255);
  }
}
