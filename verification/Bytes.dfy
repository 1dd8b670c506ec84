/**
 Bytes.

 A `Byte` is its eight bits; `Octet` is the same byte read as a number.  The two views are in
 one-to-one correspondence.
 */
module Bytes {
  type Octet = n: int | 0 <= n < 0x100

  datatype Byte = Byte(b0: bool, b1: bool, b2: bool, b3: bool, b4: bool, b5: bool, b6: bool, b7: bool)

  const ZERO := Byte(false, false, false, false, false, false, false, false)
  const ONE := Byte(true, false, false, false, false, false, false, false)

  function Bit(b: Byte, i: nat): bool
    requires i < 8
  {
    if i == 0 then b.b0 else if i == 1 then b.b1 else if i == 2 then b.b2 else if i == 3 then b.b3
    else if i == 4 then b.b4 else if i == 5 then b.b5 else if i == 6 then b.b6 else b.b7
  }

  function Value(bit: bool): nat {
    if bit then 1 else 0
  }

  /** The number whose bits, least significant first, are `bits`. */
  function Number(bits: seq<bool>): (n: nat) {
    if bits == [] then 0 else Value(bits[0]) + 2 * Number(bits[1..])
  }

  function Bits(b: Byte): (bits: seq<bool>)
    ensures |bits| == 8
  {
    [b.b0, b.b1, b.b2, b.b3, b.b4, b.b5, b.b6, b.b7]
  }

  lemma {:induction false} NumberInjective(x: seq<bool>, y: seq<bool>)
    requires |x| == |y| && Number(x) == Number(y)
    ensures x == y
  {
    if x != [] {
      assert Number(x) % 2 == Value(x[0]) && Number(y) % 2 == Value(y[0]);
      NumberInjective(x[1..], y[1..]);
      assert x == [x[0]] + x[1..] && y == [y[0]] + y[1..];
    }
  }

  function Pow2(k: nat): (p: nat)
    ensures p > 0
  {
    if k == 0 then 1 else 2 * Pow2(k - 1)
  }

  lemma {:induction false} NumberBound(bits: seq<bool>)
    ensures Number(bits) < Pow2(|bits|)
  {
    if bits != [] {
      NumberBound(bits[1..]);
    }
  }

  function ToInt(b: Byte): (n: Octet) {
    NumberBound(Bits(b));
    assert Pow2(8) == 0x100;
    Number(Bits(b))
  }

  /** The `k` low bits of `n`. */
  function LowBits(n: nat, k: nat): (bits: seq<bool>)
    ensures |bits| == k
    ensures n < Pow2(k) ==> Number(bits) == n
  {
    if k == 0 then [] else
    var bits := [n % 2 == 1] + LowBits(n / 2, k - 1);
    assert bits[1..] == LowBits(n / 2, k - 1);
    bits
  }

  function OfInt(n: Octet): (b: Byte)
    ensures ToInt(b) == n
  {
    var s := LowBits(n, 8);
    assert Pow2(8) == 0x100;
    var b := Byte(s[0], s[1], s[2], s[3], s[4], s[5], s[6], s[7]);
    assert Bits(b) == s;
    b
  }

  lemma ToIntInjective(a: Byte, b: Byte)
    requires ToInt(a) == ToInt(b)
    ensures a == b
  {
    NumberInjective(Bits(a), Bits(b));
    assert forall i | 0 <= i < 8 :: Bits(a)[i] == Bits(b)[i];
    assert Bits(a)[0] == a.b0 && Bits(a)[1] == a.b1 && Bits(a)[2] == a.b2 && Bits(a)[3] == a.b3;
    assert Bits(a)[4] == a.b4 && Bits(a)[5] == a.b5 && Bits(a)[6] == a.b6 && Bits(a)[7] == a.b7;
  }

  lemma OfIntToInt(b: Byte)
    ensures OfInt(ToInt(b)) == b
  {
    ToIntInjective(OfInt(ToInt(b)), b);
  }

  /** Bitwise exclusive or. */
  function Xor(x: Byte, y: Byte): Byte {
    Byte(x.b0 != y.b0, x.b1 != y.b1, x.b2 != y.b2, x.b3 != y.b3,
         x.b4 != y.b4, x.b5 != y.b5, x.b6 != y.b6, x.b7 != y.b7)
  }
}
