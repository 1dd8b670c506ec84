/**
 Polynomials over GF(2^8), as coefficient lists with the constant term first: evaluation, division
 by a linear factor, the bound on the number of roots, and Lagrange interpolation.
 */
module Polynomials {
  import opened Bytes
  import opened Generator
  import opened Gf256
  import opened Product

  type Poly = seq<Byte>

  function Eval(c: Poly, x: Byte): Byte {
    if c == [] then ZERO else Xor(c[0], Times(x, Eval(c[1..], x)))
  }

  /** gfPolyEval: the Horner loop computes the polynomial's value. */
  method GfPolyEval(gf: Tables, coeffs: array<Byte>, x: Byte) returns (y: Byte)
    requires gf.Valid()
    ensures y == Eval(coeffs[..], x)
  {
    hide Xor, Times;
    y := ZERO;
    var i := coeffs.Length - 1;
    while i >= 0
      invariant -1 <= i < coeffs.Length
      invariant y == Eval(coeffs[i + 1..], x)
    {
      assert coeffs[i..][1..] == coeffs[i + 1..];
      XorCommutes(coeffs[i], Times(x, y));
      TimesCommutes(x, y);
      y := gf.GfAdd(gf.GfMul(y, x), coeffs[i]);
      i := i - 1;
    }
  }

  // ---------- linear operations on coefficients ----------

  predicate AllZero(c: Poly) {
    forall i | 0 <= i < |c| :: c[i] == ZERO
  }

  function Sum(c: Poly, d: Poly): (s: Poly)
    requires |c| == |d|
    ensures |s| == |c|
  {
    seq(|c|, i requires 0 <= i < |c| => Xor(c[i], d[i]))
  }

  function Multiple(k: Byte, c: Poly): (s: Poly)
    ensures |s| == |c|
  {
    seq(|c|, i requires 0 <= i < |c| => Times(k, c[i]))
  }

  /** (x - a) c(x); subtraction is exclusive or. */
  function TimesLinear(c: Poly, a: Byte): (s: Poly)
    ensures |s| == |c| + 1
  {
    Sum([ZERO] + c, Multiple(a, c + [ZERO]))
  }

  lemma ZeroLaws(x: Byte)
    ensures Times(x, ZERO) == ZERO && Times(ZERO, x) == ZERO
    ensures Xor(ZERO, x) == x && Xor(x, ZERO) == x && Xor(x, x) == ZERO
  {
    hide Times;
    TimesZero(x);
    XorUnit(x);
  }

  lemma {:induction false} EvalAllZero(c: Poly, x: Byte)
    requires AllZero(c)
    ensures Eval(c, x) == ZERO
  {
    hide Xor, Times;
    if c != [] {
      EvalAllZero(c[1..], x);
      ZeroLaws(x);
      ZeroLaws(ZERO);
    }
  }

  lemma {:induction false} EvalSum(c: Poly, d: Poly, x: Byte)
    requires |c| == |d|
    ensures Eval(Sum(c, d), x) == Xor(Eval(c, x), Eval(d, x))
  {
    hide Xor, Times;
    if c == [] {
      ZeroLaws(ZERO);
    } else {
      assert Sum(c, d)[1..] == Sum(c[1..], d[1..]);
      var u, v := Eval(c[1..], x), Eval(d[1..], x);
      EvalSum(c[1..], d[1..], x);
      TimesDistributes(x, u, v);
      XorSwapMiddle(c[0], d[0], Times(x, u), Times(x, v));
    }
  }

  lemma {:induction false} EvalMultiple(k: Byte, c: Poly, x: Byte)
    ensures Eval(Multiple(k, c), x) == Times(k, Eval(c, x))
  {
    hide Xor, Times;
    if c == [] {
      ZeroLaws(k);
    } else {
      assert Multiple(k, c)[1..] == Multiple(k, c[1..]);
      var u := Eval(c[1..], x);
      EvalMultiple(k, c[1..], x);
      TimesDistributes(k, c[0], Times(x, u));
      TimesAssociates(k, x, u);
      TimesAssociates(x, k, u);
      TimesCommutes(k, x);
    }
  }

  lemma {:induction false} EvalPadded(c: Poly, x: Byte)
    ensures Eval(c + [ZERO], x) == Eval(c, x)
  {
    hide Xor, Times;
    if c == [] {
      EvalAllZero([ZERO], x);
    } else {
      assert (c + [ZERO])[1..] == c[1..] + [ZERO];
      EvalPadded(c[1..], x);
    }
  }

  lemma EvalTimesLinear(c: Poly, a: Byte, x: Byte)
    ensures Eval(TimesLinear(c, a), x) == Times(Eval(c, x), Xor(a, x))
  {
    hide Xor, Times;
    var u := Eval(c, x);
    EvalSum([ZERO] + c, Multiple(a, c + [ZERO]), x);
    assert ([ZERO] + c)[1..] == c;
    ZeroLaws(Times(x, u));
    EvalMultiple(a, c + [ZERO], x);
    EvalPadded(c, x);
    TimesDistributes(x, a, u);
    TimesDistributes(a, x, u);
    TimesCommutes(u, Xor(a, x));
    XorCommutes(Times(x, u), Times(a, u));
  }

  // ---------- division and the number of roots ----------

  /** The quotient of c(x) - c(a) by x - a. */
  function Quotient(c: Poly, a: Byte): (q: Poly)
    ensures |q| == if c == [] then 0 else |c| - 1
  {
    if |c| <= 1 then [] else [Eval(c[1..], a)] + Quotient(c[1..], a)
  }

  lemma {:induction false} Division(c: Poly, a: Byte, x: Byte)
    requires c != []
    ensures Eval(c, x) == Xor(Eval(c, a), Times(Xor(x, a), Eval(Quotient(c, a), x)))
  {
    hide Xor, Times;
    if |c| == 1 {
      ZeroLaws(x);
      ZeroLaws(a);
      ZeroLaws(Xor(x, a));
      ZeroLaws(Eval(c, a));
    } else {
      var r := c[1..];
      var q := Quotient(r, a);
      Division(r, a, x);
      assert Quotient(c, a)[1..] == q;
      DivisionStep(c[0], Eval(r, x), Eval(r, a), Eval(q, x), a, x);
    }
  }

  lemma DivisionStep(c0: Byte, rx: Byte, ra: Byte, qx: Byte, a: Byte, x: Byte)
    requires rx == Xor(ra, Times(Xor(x, a), qx))
    ensures Xor(c0, Times(x, rx)) == Xor(Xor(c0, Times(a, ra)), Times(Xor(x, a), Xor(ra, Times(x, qx))))
  {
    hide Xor, Times;
    var d := Xor(x, a);
    var m := Times(x, Times(d, qx));
    calc {
      Times(x, rx);
      { TimesDistributes(x, ra, Times(d, qx)); }
      Xor(Times(x, ra), m);
    }
    assert Times(d, Times(x, qx)) == m by {
      TimesAssociates(d, x, qx);
      TimesCommutes(d, x);
      TimesAssociates(x, d, qx);
    }
    assert Times(d, Xor(ra, Times(x, qx))) == Xor(Xor(Times(x, ra), Times(a, ra)), m) by {
      TimesDistributes(d, ra, Times(x, qx));
      TimesDistributes(x, a, ra);
    }
    CancelTwice(c0, Times(x, ra), Times(a, ra), m);
  }

  lemma CancelTwice(c: Byte, p: Byte, q: Byte, m: Byte)
    ensures Xor(c, Xor(p, m)) == Xor(Xor(c, q), Xor(Xor(p, q), m))
  {}

  lemma {:induction false} QuotientAllZero(c: Poly, a: Byte)
    requires c != [] && AllZero(Quotient(c, a))
    ensures AllZero(c[1..])
  {
    hide Xor, Times;
    if |c| > 1 {
      var r := c[1..];
      assert Quotient(c, a)[1..] == Quotient(r, a);
      QuotientAllZero(r, a);
      EvalAllZero(r[1..], a);
      assert Quotient(c, a)[0] == ZERO;
      ZeroLaws(a);
      ZeroLaws(r[0]);
    }
  }

  predicate Distinct(xs: seq<Byte>) {
    forall i, j | 0 <= i < j < |xs| :: xs[i] != xs[j]
  }

  /** A polynomial with at least as many distinct roots as coefficients is zero. */
  lemma {:induction false} TooManyRoots(c: Poly, xs: seq<Byte>)
    requires |xs| == |c| && Distinct(xs)
    requires forall i | 0 <= i < |xs| :: Eval(c, xs[i]) == ZERO
    ensures AllZero(c)
    decreases |c|
  {
    hide Xor, Times;
    if c != [] {
      var n := |c| - 1;
      var a, q := xs[n], Quotient(c, xs[n]);
      forall i | 0 <= i < n ensures Eval(q, xs[..n][i]) == ZERO {
        Division(c, a, xs[i]);
        ZeroLaws(Times(Xor(xs[i], a), Eval(q, xs[i])));
        NoZeroDivisors(Xor(xs[i], a), Eval(q, xs[i]));
        if Xor(xs[i], a) == ZERO {
          XorZeroIsEqual(xs[i], a);
          assert false;
        }
      }
      TooManyRoots(q, xs[..n]);
      QuotientAllZero(c, a);
      EvalAllZero(c[1..], a);
      ZeroLaws(a);
      ZeroLaws(c[0]);
    }
  }

  /** Polynomials of the same length that agree on that many points are the same. */
  lemma AgreeEverywhere(c: Poly, d: Poly, xs: seq<Byte>)
    requires |c| == |d| == |xs| && Distinct(xs)
    requires forall i | 0 <= i < |xs| :: Eval(c, xs[i]) == Eval(d, xs[i])
    ensures c == d
  {
    hide Xor, Times;
    forall i | 0 <= i < |xs| ensures Eval(Sum(c, d), xs[i]) == ZERO {
      EvalSum(c, d, xs[i]);
      ZeroLaws(Eval(c, xs[i]));
    }
    TooManyRoots(Sum(c, d), xs);
    forall i | 0 <= i < |c| ensures c[i] == d[i] {
      assert Sum(c, d)[i] == Xor(c[i], d[i]);
      XorZeroIsEqual(c[i], d[i]);
    }
  }

  // ---------- Lagrange interpolation ----------

  /** The product over the first `m` points other than the j-th of (x_i - z). */
  function ProductSkipping(xs: seq<Byte>, j: nat, m: nat, z: Byte): Byte
    requires m <= |xs|
  {
    if m == 0 then ONE
    else if m - 1 == j then ProductSkipping(xs, j, m - 1, z)
    else Times(ProductSkipping(xs, j, m - 1, z), Xor(xs[m - 1], z))
  }

  /** The coefficients of the polynomial whose value at z is `ProductSkipping(xs, j, m, z)`. */
  function BasisPoly(xs: seq<Byte>, j: nat, m: nat): (c: Poly)
    requires m <= |xs|
    ensures |c| == if j < m then m else m + 1
  {
    if m == 0 then [ONE]
    else if m - 1 == j then BasisPoly(xs, j, m - 1)
    else TimesLinear(BasisPoly(xs, j, m - 1), xs[m - 1])
  }

  lemma {:induction false} EvalBasisPoly(xs: seq<Byte>, j: nat, m: nat, z: Byte)
    requires m <= |xs|
    ensures Eval(BasisPoly(xs, j, m), z) == ProductSkipping(xs, j, m, z)
  {
    hide Xor, Times;
    if m == 0 {
      ZeroLaws(z);
      ZeroLaws(ONE);
    } else {
      EvalBasisPoly(xs, j, m - 1, z);
      EvalTimesLinear(BasisPoly(xs, j, m - 1), xs[m - 1], z);
    }
  }

  lemma {:induction false} ProductVanishes(xs: seq<Byte>, j: nat, m: nat, k: nat)
    requires k < m <= |xs| && j != k
    ensures ProductSkipping(xs, j, m, xs[k]) == ZERO
  {
    hide Xor, Times;
    var p := ProductSkipping(xs, j, m - 1, xs[k]);
    ZeroLaws(xs[k]);
    if m - 1 == k {
      ZeroLaws(p);
    } else {
      ProductVanishes(xs, j, m - 1, k);
      ZeroLaws(Xor(xs[m - 1], xs[k]));
    }
  }

  lemma {:induction false} ProductNonZero(xs: seq<Byte>, j: nat, m: nat)
    requires m <= |xs| && j < |xs| && Distinct(xs)
    ensures ProductSkipping(xs, j, m, xs[j]) != ZERO
  {
    hide Xor, Times;
    if m == 0 {
    } else {
      ProductNonZero(xs, j, m - 1);
      if m - 1 != j && ProductSkipping(xs, j, m, xs[j]) == ZERO {
        NoZeroDivisors(ProductSkipping(xs, j, m - 1, xs[j]), Xor(xs[m - 1], xs[j]));
        XorZeroIsEqual(xs[m - 1], xs[j]);
      }
    }
  }

  ghost function Weight(xs: seq<Byte>, ys: seq<Byte>, j: nat): Byte
    requires |xs| == |ys| && j < |xs| && Distinct(xs)
  {
    ProductNonZero(xs, j, |xs|);
    Times(ys[j], Inverse(ProductSkipping(xs, j, |xs|, xs[j])))
  }

  /** The sum of the first `n` weighted basis polynomials. */
  ghost function LagrangePoly(xs: seq<Byte>, ys: seq<Byte>, n: nat): (c: Poly)
    requires n <= |xs| == |ys| && Distinct(xs)
    ensures |c| == |xs|
  {
    if n == 0 then seq(|xs|, _ => ZERO)
    else Sum(LagrangePoly(xs, ys, n - 1), Multiple(Weight(xs, ys, n - 1), BasisPoly(xs, n - 1, |xs|)))
  }

  lemma {:induction false} LagrangeAtPoint(xs: seq<Byte>, ys: seq<Byte>, n: nat, k: nat)
    requires n <= |xs| == |ys| && Distinct(xs) && k < |xs|
    ensures Eval(LagrangePoly(xs, ys, n), xs[k]) == if k < n then ys[k] else ZERO
  {
    hide Xor, Times;
    if n == 0 {
      EvalAllZero(LagrangePoly(xs, ys, 0), xs[k]);
    } else {
      var j, w := n - 1, Weight(xs, ys, n - 1);
      LagrangeAtPoint(xs, ys, j, k);
      EvalSum(LagrangePoly(xs, ys, j), Multiple(w, BasisPoly(xs, j, |xs|)), xs[k]);
      EvalMultiple(w, BasisPoly(xs, j, |xs|), xs[k]);
      EvalBasisPoly(xs, j, |xs|, xs[k]);
      if k == j {
        ProductNonZero(xs, j, |xs|);
        var den := ProductSkipping(xs, j, |xs|, xs[j]);
        TimesAssociates(ys[j], Inverse(den), den);
        TimesOne(ys[j]);
        ZeroLaws(ys[j]);
      } else {
        ProductVanishes(xs, j, |xs|, k);
        ZeroLaws(w);
        ZeroLaws(Eval(LagrangePoly(xs, ys, j), xs[k]));
      }
    }
  }

  /** There is exactly one polynomial with as many coefficients as points through given points. */
  lemma InterpolationIsUnique(xs: seq<Byte>, ys: seq<Byte>, c: Poly)
    requires |xs| == |ys| == |c| && Distinct(xs)
    ensures (forall i | 0 <= i < |xs| :: Eval(c, xs[i]) == ys[i]) <==> c == LagrangePoly(xs, ys, |xs|)
  {
    hide Xor, Times;
    forall i | 0 <= i < |xs| ensures Eval(LagrangePoly(xs, ys, |xs|), xs[i]) == ys[i] {
      LagrangeAtPoint(xs, ys, |xs|, i);
    }
    if forall i | 0 <= i < |xs| :: Eval(c, xs[i]) == ys[i] {
      AgreeEverywhere(c, LagrangePoly(xs, ys, |xs|), xs);
    }
  }

  // ---------- the Lagrange sum at zero ----------

  /** `l` is the value at zero of the j-th Lagrange basis polynomial. */
  ghost predicate IsBasisAtZero(xs: seq<Byte>, j: nat, l: Byte)
    requires j < |xs|
  {
    Times(l, ProductSkipping(xs, j, |xs|, xs[j])) == ProductSkipping(xs, j, |xs|, ZERO)
  }

  /** The exclusive or of the first `n` products y_j l_j. */
  function DotProduct(ys: seq<Byte>, ls: seq<Byte>, n: nat): Byte
    requires n <= |ys| && n <= |ls|
  {
    if n == 0 then ZERO else Xor(DotProduct(ys, ls, n - 1), Times(ys[n - 1], ls[n - 1]))
  }

  lemma RegroupWeight(y: Byte, inv: Byte, den: Byte, l: Byte)
    requires Times(inv, den) == ONE
    ensures Times(Times(y, inv), Times(l, den)) == Times(y, l)
  {
    hide Times;
    TimesAssociates(y, inv, Times(l, den));
    TimesCommutes(l, den);
    TimesAssociates(inv, den, l);
    TimesOne(l);
  }

  lemma {:induction false} DotProductIsLagrange(xs: seq<Byte>, ys: seq<Byte>, ls: seq<Byte>, n: nat)
    requires n <= |xs| == |ys| == |ls| && Distinct(xs)
    requires forall j | 0 <= j < |xs| :: IsBasisAtZero(xs, j, ls[j])
    ensures DotProduct(ys, ls, n) == Eval(LagrangePoly(xs, ys, n), ZERO)
  {
    hide Xor, Times, Eval, ProductSkipping, BasisPoly, Sum, Multiple, Distinct, Inverse;
    if n == 0 {
      EvalAllZero(LagrangePoly(xs, ys, 0), ZERO);
    } else {
      var j, w := n - 1, Weight(xs, ys, n - 1);
      DotProductIsLagrange(xs, ys, ls, j);
      EvalSum(LagrangePoly(xs, ys, j), Multiple(w, BasisPoly(xs, j, |xs|)), ZERO);
      EvalMultiple(w, BasisPoly(xs, j, |xs|), ZERO);
      EvalBasisPoly(xs, j, |xs|, ZERO);
      ProductNonZero(xs, j, |xs|);
      var den := ProductSkipping(xs, j, |xs|, xs[j]);
      RegroupWeight(ys[j], Inverse(den), den, ls[j]);
    }
  }

  /** Combining as many values of a polynomial as it has coefficients gives its constant term. */
  lemma DotProductRecovers(c: Poly, xs: seq<Byte>, ys: seq<Byte>, ls: seq<Byte>)
    requires |c| == |xs| == |ys| == |ls| > 0 && Distinct(xs)
    requires forall j | 0 <= j < |xs| :: IsBasisAtZero(xs, j, ls[j])
    requires forall j | 0 <= j < |xs| :: ys[j] == Eval(c, xs[j])
    ensures DotProduct(ys, ls, |xs|) == c[0]
  {
    hide Xor, Times;
    InterpolationIsUnique(xs, ys, c);
    DotProductIsLagrange(xs, ys, ls, |xs|);
    ZeroLaws(Eval(c[1..], ZERO));
    ZeroLaws(c[0]);
  }
}
