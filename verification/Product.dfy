/**
 Exclusive or and the product of GF(2^8) with the reduction polynomial x^8+x^4+x^3+x+1.

 The reference product is the carry-less ("Russian peasant") product reduced modulo the polynomial.
 */
module Product {
  import opened Bytes

  // ---------- the additive group ----------

  function Scale(bit: bool, x: Byte): Byte {
    if bit then x else ZERO
  }

  lemma XorCommutes(x: Byte, y: Byte)
    ensures Xor(x, y) == Xor(y, x)
  {}

  lemma XorUnit(x: Byte)
    ensures Xor(x, ZERO) == x && Xor(ZERO, x) == x && Xor(x, x) == ZERO
  {}

  lemma XorZeroIsEqual(x: Byte, y: Byte)
    requires Xor(x, y) == ZERO
    ensures x == y
  {}

  lemma XorSwapMiddle(x: Byte, y: Byte, z: Byte, w: Byte)
    ensures Xor(Xor(x, y), Xor(z, w)) == Xor(Xor(x, z), Xor(y, w))
  {}

  // ---------- the reference product ----------

  /** Multiplication by x, reduced by x^8 = x^4 + x^3 + x + 1. */
  function Double(x: Byte): Byte {
    Byte(x.b7, x.b0 != x.b7, x.b1, x.b2 != x.b7, x.b3 != x.b7, x.b4, x.b5, x.b6)
  }

  /** Multiplication by the generator 0x03 = x + 1. */
  function Triple(x: Byte): Byte {
    Xor(Double(x), x)
  }

  /** The peasant product of `a` and the bits of `b` from the i-th on. */
  function Peasant(a: Byte, b: Byte, i: nat): Byte
    requires i <= 8
    decreases 8 - i
  {
    if i == 8 then ZERO else Xor(Scale(Bit(b, i), a), Peasant(Double(a), b, i + 1))
  }

  /** The field product. */
  function Times(a: Byte, b: Byte): Byte {
    Peasant(a, b, 0)
  }

  lemma DoubleLinear(x: Byte, y: Byte)
    ensures Double(Xor(x, y)) == Xor(Double(x), Double(y))
  {}

  lemma ScaleXor(bit: bool, x: Byte, y: Byte)
    ensures Scale(bit, Xor(x, y)) == Xor(Scale(bit, x), Scale(bit, y))
  {}

  lemma XorScale(x: Byte, y: Byte, i: nat, a: Byte)
    requires i < 8
    ensures Scale(Bit(Xor(x, y), i), a) == Xor(Scale(Bit(x, i), a), Scale(Bit(y, i), a))
  {}

  lemma DoubleScale(bit: bool, x: Byte)
    ensures Double(Scale(bit, x)) == Scale(bit, Double(x))
  {}

  lemma XorZero()
    ensures Xor(ZERO, ZERO) == ZERO && Double(ZERO) == ZERO
  {}

  lemma {:induction false} PeasantLinearLeft(x: Byte, y: Byte, b: Byte, i: nat)
    requires i <= 8
    ensures Peasant(Xor(x, y), b, i) == Xor(Peasant(x, b, i), Peasant(y, b, i))
    decreases 8 - i
  {
    hide Xor, Double, Bit, Scale;
    if i == 8 {
      XorZero();
    } else {
      DoubleLinear(x, y);
      ScaleXor(Bit(b, i), x, y);
      PeasantLinearLeft(Double(x), Double(y), b, i + 1);
      XorSwapMiddle(Scale(Bit(b, i), x), Scale(Bit(b, i), y),
                    Peasant(Double(x), b, i + 1), Peasant(Double(y), b, i + 1));
    }
  }

  lemma {:induction false} PeasantLinearRight(a: Byte, x: Byte, y: Byte, i: nat)
    requires i <= 8
    ensures Peasant(a, Xor(x, y), i) == Xor(Peasant(a, x, i), Peasant(a, y, i))
    decreases 8 - i
  {
    hide Xor, Double, Bit, Scale;
    if i == 8 {
      XorZero();
    } else {
      XorScale(x, y, i, a);
      PeasantLinearRight(Double(a), x, y, i + 1);
      XorSwapMiddle(Scale(Bit(x, i), a), Scale(Bit(y, i), a),
                    Peasant(Double(a), x, i + 1), Peasant(Double(a), y, i + 1));
    }
  }

  lemma {:induction false} PeasantDouble(x: Byte, b: Byte, i: nat)
    requires i <= 8
    ensures Peasant(Double(x), b, i) == Double(Peasant(x, b, i))
    decreases 8 - i
  {
    hide Xor, Double, Bit, Scale;
    if i == 8 {
      XorZero();
    } else {
      PeasantDouble(Double(x), b, i + 1);
      DoubleScale(Bit(b, i), x);
      DoubleLinear(Scale(Bit(b, i), x), Peasant(Double(x), b, i + 1));
    }
  }

  /** The product is linear in each factor. */
  lemma TimesDistributes(a: Byte, b: Byte, c: Byte)
    ensures Times(a, Xor(b, c)) == Xor(Times(a, b), Times(a, c))
    ensures Times(Xor(a, b), c) == Xor(Times(a, c), Times(b, c))
  {
    hide Xor, Peasant;
    PeasantLinearRight(a, b, c, 0);
    PeasantLinearLeft(a, b, c, 0);
  }

  lemma TimesTriple(a: Byte, b: Byte)
    ensures Times(Triple(a), b) == Triple(Times(a, b))
  {
    hide Xor, Peasant, Double;
    PeasantLinearLeft(Double(a), a, b, 0);
    PeasantDouble(a, b, 0);
  }

  lemma {:induction false} PeasantZero(b: Byte, i: nat)
    requires i <= 8
    ensures Peasant(ZERO, b, i) == ZERO
    ensures Peasant(b, ZERO, i) == ZERO
    decreases 8 - i
  {
    hide Xor, Double, Bit;
    if i < 8 {
      XorZero();
      PeasantZero(b, i + 1);
      PeasantZero(Double(b), i + 1);
      assert !Bit(ZERO, i) by { BitOfZero(i); }
    }
  }

  lemma BitOfZero(i: nat)
    requires i < 8
    ensures !Bit(ZERO, i)
  {}

  lemma TimesZero(b: Byte)
    ensures Times(ZERO, b) == ZERO && Times(b, ZERO) == ZERO
  {
    hide Xor, Peasant;
    PeasantZero(b, 0);
  }

  /** x^i, the single bit i. */
  function Unit(i: nat): Byte
    requires i < 8
  {
    Byte(i == 0, i == 1, i == 2, i == 3, i == 4, i == 5, i == 6, i == 7)
  }

  /** The bits of `b` from the i-th on. */
  function HighPart(b: Byte, i: nat): Byte
    requires i <= 8
  {
    Byte(b.b0 && i <= 0, b.b1 && i <= 1, b.b2 && i <= 2, b.b3 && i <= 3,
         b.b4 && i <= 4, b.b5 && i <= 5, b.b6 && i <= 6, b.b7 && i <= 7)
  }

  lemma HighPartStep(b: Byte, i: nat)
    requires i < 8
    ensures HighPart(b, i) == Xor(Scale(Bit(b, i), Unit(i)), HighPart(b, i + 1))
    ensures i < 7 ==> Double(Unit(i)) == Unit(i + 1)
  {}

  lemma {:induction false} PeasantUnit(b: Byte, i: nat)
    requires i < 8
    ensures Peasant(Unit(i), b, i) == HighPart(b, i)
    decreases 8 - i
  {
    hide Xor, Double, Bit, Scale, Unit;
    HighPartStep(b, i);
    if i < 7 {
      PeasantUnit(b, i + 1);
    } else {
      assert Peasant(Double(Unit(7)), b, 8) == ZERO;
    }
  }

  lemma TimesOneLeft(b: Byte)
    ensures Times(ONE, b) == b
  {
    hide Xor, Peasant;
    PeasantUnit(b, 0);
  }
}
