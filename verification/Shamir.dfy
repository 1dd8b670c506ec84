/**
 Shamir secret sharing, byte-parallel over GF(2^8), and the share wire format.

 Randomness is a parameter: `fills(i, k)` is the k-th byte of the fill for secret byte i, and the
 set identifier is given.  The share checksum is a parameter returning 16 bytes.
 */
module Shamir {
  import opened Bytes
  import opened Wrappers
  import opened Generator
  import opened Gf256
  import opened Polynomials
  import opened Product

  type Fills = (nat, nat) -> Byte

  datatype ShamirShare = ShamirShare(setId: seq<Byte>, x: nat, threshold: nat, y: seq<Byte>)

  datatype Error =
    | ThresholdTooSmall | FewerSharesThanThreshold | TooManyShares | EmptySecret
    | NoShares | BelowThreshold | DifferentSplits | InconsistentThresholds | InconsistentLengths
    | InvalidIndex | DuplicateIndex | OutputLengthMismatch
    | SetIdLength | ValueTooLong | TooShort | BadMagic | LengthMismatch | ChecksumMismatch

  // ---------- splitting ----------

  /** The polynomial of secret byte i: the secret byte, then t - 1 filled coefficients. */
  function Coefficients(secretByte: Byte, fills: Fills, t: nat, i: nat): (c: Poly)
    requires t >= 1
    ensures |c| == t && c[0] == secretByte && forall k | 1 <= k < t :: c[k] == fills(i, k)
  {
    [secretByte] + seq(t - 1, k requires 0 <= k < t - 1 => fills(i, k + 1))
  }

  function ShareBytes(secret: seq<Byte>, fills: Fills, t: nat, x: Octet): (y: seq<Byte>)
    requires t >= 1
    ensures |y| == |secret|
  {
    seq(|secret|, i requires 0 <= i < |secret| => Eval(Coefficients(secret[i], fills, t, i), OfInt(x)))
  }

  /** Share j carries the evaluations at j + 1. */
  function SharesOf(secret: seq<Byte>, t: nat, n: nat, setId: seq<Byte>, fills: Fills): (s: seq<ShamirShare>)
    requires 1 <= t && n <= 255
    ensures |s| == n
  {
    seq(n, j requires 0 <= j < n => ShamirShare(setId, j + 1, t, ShareBytes(secret, fills, t, j + 1)))
  }

  function SplitError(secret: seq<Byte>, t: int, n: int): Option<Error> {
    if t < 2 then Some(ThresholdTooSmall)
    else if n < t then Some(FewerSharesThanThreshold)
    else if n > 255 then Some(TooManyShares)
    else if secret == [] then Some(EmptySecret)
    else None
  }

  /** Share j has the index j + 1 and byte by byte the values at j + 1 of polynomials with the secret byte as
      constant term and the fill as the rest. */
  ghost predicate AreEvaluations(shares: seq<ShamirShare>, secret: seq<Byte>, t: int, n: int, setId: seq<Byte>,
      fills: Fills)
  {
    && 2 <= t <= n <= 255 && |shares| == n
    && (forall j | 0 <= j < n ::
          && shares[j].x == j + 1 && shares[j].threshold == t && shares[j].setId == setId
          && |shares[j].y| == |secret|)
    && forall j, i | 0 <= j < n && 0 <= i < |secret| ::
         shares[j].y[i] == Eval([secret[i]] + seq(t - 1, k requires 0 <= k => fills(i, k + 1)), OfInt(j + 1))
  }

  lemma SharesAreEvaluations(secret: seq<Byte>, t: nat, n: nat, setId: seq<Byte>, fills: Fills)
    requires 2 <= t <= n <= 255
    ensures AreEvaluations(SharesOf(secret, t, n, setId, fills), secret, t, n, setId, fills)
  {
    hide Eval, OfInt, ToInt;
    forall j, i | 0 <= j < n && 0 <= i < |secret|
      ensures SharesOf(secret, t, n, setId, fills)[j].y[i]
              == Eval([secret[i]] + seq(t - 1, k requires 0 <= k => fills(i, k + 1)), OfInt(j + 1))
    {
      assert Coefficients(secret[i], fills, t, i) == [secret[i]] + seq(t - 1, k requires 0 <= k => fills(i, k + 1));
    }
  }

  method Split(gf: Tables, secret: seq<Byte>, t: int, n: int, setId: seq<Byte>, fills: Fills)
    returns (r: Result<seq<ShamirShare>, Error>)
    requires gf.Valid()
    ensures SplitError(secret, t, n).Some? ==> r == Err(SplitError(secret, t, n).value)
    ensures SplitError(secret, t, n).None? ==> r == Ok(SharesOf(secret, t, n, setId, fills))
    ensures r == Err(ThresholdTooSmall) <==> t < 2
    ensures r == Err(FewerSharesThanThreshold) <==> 2 <= t && n < t
    ensures r == Err(TooManyShares) <==> 2 <= t <= n && n > 255
    ensures r == Err(EmptySecret) <==> 2 <= t <= n <= 255 && secret == []
    ensures r.Ok? <==> 2 <= t <= n <= 255 && secret != []
    ensures r.Ok? ==> AreEvaluations(r.value, secret, t, n, setId, fills)
  {
    hide Eval, OfInt, ToInt, AreEvaluations;
    if t < 2 { return Err(ThresholdTooSmall); }
    if n < t { return Err(FewerSharesThanThreshold); }
    if n > 255 { return Err(TooManyShares); }
    if |secret| == 0 { return Err(EmptySecret); }
    var ys := new Byte[n, |secret|];
    var coeffs := new Byte[t];
    var i := 0;
    while i < |secret|
      invariant 0 <= i <= |secret|
      invariant forall j, k | 0 <= j < n && 0 <= k < i :: ys[j, k] == ShareBytes(secret, fills, t, j + 1)[k]
    {
      var k := 0;
      while k < t
        modifies coeffs
        invariant 0 <= k <= t
        invariant forall m | 0 <= m < k :: coeffs[m] == fills(i, m)
      {
        coeffs[k] := fills(i, k);
        k := k + 1;
      }
      coeffs[0] := secret[i];
      assert coeffs[..] == Coefficients(secret[i], fills, t, i);
      var j := 0;
      while j < n
        modifies ys
        invariant 0 <= j <= n
        invariant coeffs[..] == Coefficients(secret[i], fills, t, i)
        invariant forall m, k | 0 <= m < n && 0 <= k < i :: ys[m, k] == ShareBytes(secret, fills, t, m + 1)[k]
        invariant forall m | 0 <= m < j :: ys[m, i] == ShareBytes(secret, fills, t, m + 1)[i]
      {
        ys[j, i] := GfPolyEval(gf, coeffs, OfInt(j + 1));
        j := j + 1;
      }
      i := i + 1;
    }
    var shares := Assemble(ys, secret, t, n, setId, fills);
    SharesAreEvaluations(secret, t, n, setId, fills);
    r := Ok(shares);
  }

  /** The rows of the matrix as shares. */
  method Assemble(ys: array2<Byte>, secret: seq<Byte>, t: nat, n: nat, setId: seq<Byte>, fills: Fills)
    returns (shares: seq<ShamirShare>)
    requires 1 <= t && n <= 255 && ys.Length0 == n && ys.Length1 == |secret|
    requires forall j, k | 0 <= j < n && 0 <= k < |secret| :: ys[j, k] == ShareBytes(secret, fills, t, j + 1)[k]
    ensures shares == SharesOf(secret, t, n, setId, fills)
  {
    hide ShareBytes, Eval, OfInt, ToInt;
    shares := [];
    var j := 0;
    while j < n
      invariant 0 <= j <= n && |shares| == j
      invariant forall m | 0 <= m < j :: shares[m] == SharesOf(secret, t, n, setId, fills)[m]
    {
      var y := seq(|secret|, k requires 0 <= k < |secret| reads ys => ys[j, k]);
      assert y == ShareBytes(secret, fills, t, j + 1);
      shares := shares + [ShamirShare(setId, j + 1, t, y)];
      j := j + 1;
    }
    assert shares == SharesOf(secret, t, n, setId, fills);
  }

  // ---------- combining ----------

  /** The first complaint about shares i, i+1, ...; `seen` are the indices before i. */
  function FirstError(shares: seq<ShamirShare>, i: nat, seen: set<nat>): Option<Error>
    requires shares != [] && i <= |shares|
    decreases |shares| - i
  {
    if i == |shares| then None
    else if shares[i].setId != shares[0].setId then Some(DifferentSplits)
    else if shares[i].threshold != shares[0].threshold then Some(InconsistentThresholds)
    else if |shares[i].y| != |shares[0].y| then Some(InconsistentLengths)
    else if shares[i].x < 1 || shares[i].x > 255 then Some(InvalidIndex)
    else if shares[i].x in seen then Some(DuplicateIndex)
    else FirstError(shares, i + 1, seen + {shares[i].x})
  }

  function CombineError(shares: seq<ShamirShare>): Option<Error> {
    if shares == [] then Some(NoShares)
    else if |shares| < shares[0].threshold then Some(BelowThreshold)
    else FirstError(shares, 0, {})
  }

  /** At least a threshold of shares of one split with distinct indices. */
  predicate Combinable(shares: seq<ShamirShare>) {
    && shares != []
    && shares[0].threshold <= |shares|
    && (forall i | 0 <= i < |shares| ::
         shares[i].setId == shares[0].setId && shares[i].threshold == shares[0].threshold
         && |shares[i].y| == |shares[0].y| && 1 <= shares[i].x <= 255)
    && forall i, j | 0 <= i < j < |shares| :: shares[i].x != shares[j].x
  }

  lemma {:induction false} FirstErrorMeaning(shares: seq<ShamirShare>, i: nat, seen: set<nat>)
    requires shares != [] && i <= |shares|
    requires forall v :: v in seen <==> exists k :: 0 <= k < i && shares[k].x == v
    ensures FirstError(shares, i, seen).None? <==>
      (forall k | i <= k < |shares| ::
        && shares[k].setId == shares[0].setId && shares[k].threshold == shares[0].threshold
        && |shares[k].y| == |shares[0].y| && 1 <= shares[k].x <= 255
        && forall m | 0 <= m < k :: shares[m].x != shares[k].x)
    decreases |shares| - i
  {
    if i < |shares| {
      FirstErrorMeaning(shares, i + 1, seen + {shares[i].x});
    }
  }

  /** The checks accept exactly the combinable share lists. */
  lemma CombineErrorMeaning(shares: seq<ShamirShare>)
    ensures CombineError(shares).None? <==> Combinable(shares)
  {
    if shares != [] {
      FirstErrorMeaning(shares, 0, {});
    }
  }

  ghost predicate Sound(shares: seq<ShamirShare>, i: nat)
    requires i < |shares|
  {
    && shares[i].setId == shares[0].setId && shares[i].threshold == shares[0].threshold
    && |shares[i].y| == |shares[0].y| && 1 <= shares[i].x <= 255 && !Repeated(shares, i)
  }

  ghost predicate Repeated(shares: seq<ShamirShare>, i: nat)
    requires i < |shares|
  {
    exists m :: 0 <= m < i && shares[m].x == shares[i].x
  }

  /** The complaint names what is wrong with share i. */
  ghost predicate Names(e: Error, shares: seq<ShamirShare>, i: nat)
    requires i < |shares|
  {
    var s, first := shares[i], shares[0];
    && (e == DifferentSplits <==> s.setId != first.setId)
    && (e == InconsistentThresholds <==> s.setId == first.setId && s.threshold != first.threshold)
    && (e == InconsistentLengths <==>
        s.setId == first.setId && s.threshold == first.threshold && |s.y| != |first.y|)
    && (e == InvalidIndex ==> !(1 <= s.x <= 255))
    && (e == DuplicateIndex ==> 1 <= s.x <= 255 && Repeated(shares, i))
    && (e == DifferentSplits || e == InconsistentThresholds || e == InconsistentLengths || e == InvalidIndex
        || e == DuplicateIndex)
  }

  lemma {:induction false} FirstErrorNames(shares: seq<ShamirShare>, i: nat, seen: set<nat>)
    requires shares != [] && i <= |shares| && FirstError(shares, i, seen).Some?
    requires forall v :: v in seen <==> exists k :: 0 <= k < i && shares[k].x == v
    ensures exists j: nat :: i <= j < |shares| && Names(FirstError(shares, i, seen).value, shares, j)
                             && forall m: nat | i <= m < j :: Sound(shares, m)
    decreases |shares| - i
  {
    var e := FirstError(shares, i, seen).value;
    if i < |shares| && FirstError(shares, i + 1, seen + {shares[i].x}).Some? && Sound(shares, i) {
      FirstErrorNames(shares, i + 1, seen + {shares[i].x});
      var j: nat :| i + 1 <= j < |shares| && Names(e, shares, j) && forall m: nat | i + 1 <= m < j :: Sound(shares, m);
      assert forall m: nat | i <= m < j :: Sound(shares, m);
    } else {
      assert Names(e, shares, i);
    }
  }

  /** A refusal says what is wrong: no shares, too few, or the first defect of the first defective share. */
  lemma CombineErrorNames(shares: seq<ShamirShare>)
    ensures CombineError(shares) == Some(NoShares) <==> shares == []
    ensures CombineError(shares) == Some(BelowThreshold) <==> shares != [] && |shares| < shares[0].threshold
    ensures shares != [] && |shares| >= shares[0].threshold && CombineError(shares).Some? ==>
      exists j: nat :: j < |shares| && Names(CombineError(shares).value, shares, j)
                       && forall m: nat | m < j :: Sound(shares, m)
  {
    hide FirstError, Names, Sound;
    if shares != [] && |shares| >= shares[0].threshold && CombineError(shares).Some? {
      FirstErrorNames(shares, 0, {});
      var j: nat :| j < |shares| && Names(CombineError(shares).value, shares, j)
        && forall m: nat | m < j :: Sound(shares, m);
      NotAboutCounts(CombineError(shares).value, shares, j);
    }
  }

  lemma NotAboutCounts(e: Error, shares: seq<ShamirShare>, j: nat)
    requires j < |shares| && Names(e, shares, j)
    ensures e != NoShares && e != BelowThreshold
  {}

  function Points(shares: seq<ShamirShare>): (xs: seq<Byte>)
    requires Combinable(shares)
    ensures |xs| == shares[0].threshold
  {
    seq(shares[0].threshold, j requires 0 <= j < shares[0].threshold => OfInt(shares[j].x))
  }

  function Values(shares: seq<ShamirShare>, i: nat): (ys: seq<Byte>)
    requires Combinable(shares) && i < |shares[0].y|
    ensures |ys| == shares[0].threshold
  {
    seq(shares[0].threshold, j requires 0 <= j < shares[0].threshold => shares[j].y[i])
  }

  lemma PointsDistinct(shares: seq<ShamirShare>)
    requires Combinable(shares)
    ensures Distinct(Points(shares))
    ensures ZERO !in Points(shares)
  {
    hide ToInt;
    var xs := Points(shares);
    forall i, j | 0 <= i < j < |xs| ensures xs[i] != xs[j] {
      assert ToInt(xs[i]) == shares[i].x && ToInt(xs[j]) == shares[j].x;
    }
    forall i | 0 <= i < |xs| ensures xs[i] != ZERO {
      ToIntOfZero();
      assert ToInt(xs[i]) == shares[i].x;
    }
  }

  ghost function BasisAtZero(xs: seq<Byte>, j: nat): (l: Byte)
    requires j < |xs| && Distinct(xs)
    ensures IsBasisAtZero(xs, j, l)
  {
    hide Times, Xor;
    ProductNonZero(xs, j, |xs|);
    var num, den := ProductSkipping(xs, j, |xs|, ZERO), ProductSkipping(xs, j, |xs|, xs[j]);
    TimesAssociates(num, Inverse(den), den);
    TimesOne(num);
    Times(num, Inverse(den))
  }

  lemma BasisAtZeroIsUnique(xs: seq<Byte>, j: nat, l: Byte)
    requires j < |xs| && Distinct(xs) && IsBasisAtZero(xs, j, l)
    ensures l == BasisAtZero(xs, j)
  {
    hide Times, Xor;
    ProductNonZero(xs, j, |xs|);
    TimesCancels(l, BasisAtZero(xs, j), ProductSkipping(xs, j, |xs|, xs[j]));
  }

  ghost function BasesAtZero(xs: seq<Byte>): (ls: seq<Byte>)
    requires Distinct(xs)
    ensures |ls| == |xs|
  {
    seq(|xs|, j requires 0 <= j < |xs| => BasisAtZero(xs, j))
  }

  /** What combining returns: the Lagrange sum at zero over the first `threshold` shares. */
  ghost function Combined(shares: seq<ShamirShare>): (secret: seq<Byte>)
    requires Combinable(shares)
    ensures |secret| == |shares[0].y|
  {
    PointsDistinct(shares);
    seq(|shares[0].y|, i requires 0 <= i < |shares[0].y| =>
      DotProduct(Values(shares, i), BasesAtZero(Points(shares)), shares[0].threshold))
  }

  /** L_j(0) as the program computes it; the division is never by zero. */
  method LagrangeAt(gf: Tables, use: seq<ShamirShare>, j: nat, ghost xs: seq<Byte>) returns (l: Byte)
    requires gf.Valid() && j < |use| == |xs| && Distinct(xs)
    requires forall m | 0 <= m < |use| :: 1 <= use[m].x <= 255 && xs[m] == OfInt(use[m].x)
    ensures l == BasisAtZero(xs, j)
  {
    hide Times, Xor, OfInt, ToInt;
    var num, den := ONE, ONE;
    var m := 0;
    while m < |use|
      invariant 0 <= m <= |use|
      invariant num == ProductSkipping(xs, j, m, ZERO)
      invariant den == ProductSkipping(xs, j, m, xs[j])
    {
      if m != j {
        XorUnit(xs[m]);
        num := gf.GfMul(num, OfInt(use[m].x));
        den := gf.GfMul(den, Xor(OfInt(use[m].x), OfInt(use[j].x)));
      }
      m := m + 1;
    }
    ProductNonZero(xs, j, |xs|);
    l := gf.GfDiv(num, den).value;
    BasisAtZeroIsUnique(xs, j, l);
  }

  /** The validation loop, with its set of indices seen so far. */
  method CheckShares(shares: seq<ShamirShare>) returns (e: Option<Error>)
    ensures e == CombineError(shares)
  {
    if |shares| == 0 { return Some(NoShares); }
    var t, len := shares[0].threshold, |shares[0].y|;
    if |shares| < t { return Some(BelowThreshold); }
    var seen: set<nat> := {};
    var i := 0;
    while i < |shares|
      invariant 0 <= i <= |shares|
      invariant FirstError(shares, 0, {}) == FirstError(shares, i, seen)
    {
      var s := shares[i];
      if s.setId != shares[0].setId { return Some(DifferentSplits); }
      if s.threshold != t { return Some(InconsistentThresholds); }
      if |s.y| != len { return Some(InconsistentLengths); }
      if s.x < 1 || s.x > 255 { return Some(InvalidIndex); }
      if s.x in seen { return Some(DuplicateIndex); }
      seen := seen + {s.x};
      i := i + 1;
    }
    e := None;
  }

  method LagrangeAtZero(gf: Tables, use: seq<ShamirShare>, ghost xs: seq<Byte>) returns (lagrange: seq<Byte>)
    requires gf.Valid() && |use| == |xs| && Distinct(xs)
    requires forall m | 0 <= m < |use| :: 1 <= use[m].x <= 255 && xs[m] == OfInt(use[m].x)
    ensures lagrange == BasesAtZero(xs)
  {
    hide Times, Xor, OfInt, ToInt, IsBasisAtZero, BasisAtZero, ProductSkipping;
    lagrange := [];
    var j := 0;
    while j < |use|
      invariant 0 <= j <= |use|
      invariant |lagrange| == j
      invariant forall k | 0 <= k < j :: lagrange[k] == BasisAtZero(xs, k)
    {
      var l := LagrangeAt(gf, use, j, xs);
      lagrange := lagrange + [l];
      j := j + 1;
    }
  }

  /** Byte i of each share. */
  function ObservedBytes(shares: seq<ShamirShare>, i: nat): (ys: seq<Byte>)
    requires forall k | 0 <= k < |shares| :: i < |shares[k].y|
    ensures |ys| == |shares|
  {
    seq(|shares|, k requires 0 <= k < |shares| => shares[k].y[i])
  }

  method CombineByte(gf: Tables, use: seq<ShamirShare>, lagrange: seq<Byte>, i: nat) returns (b: Byte)
    requires gf.Valid() && |use| == |lagrange| && forall j | 0 <= j < |use| :: i < |use[j].y|
    ensures b == DotProduct(ObservedBytes(use, i), lagrange, |use|)
  {
    hide Times, Xor;
    b := ZERO;
    var j := 0;
    ghost var ys := ObservedBytes(use, i);
    while j < |use|
      invariant 0 <= j <= |use|
      invariant b == DotProduct(ys, lagrange, j)
    {
      b := Xor(b, gf.GfMul(use[j].y[i], lagrange[j]));
      j := j + 1;
    }
  }

  /** shamirCombine; a null `out` stands for the omitted argument. */
  method Combine(gf: Tables, shares: seq<ShamirShare>, out: array?<Byte>)
    returns (r: Result<array<Byte>, Error>)
    requires gf.Valid()
    modifies out
    ensures CombineError(shares).Some? ==> r == Err(CombineError(shares).value)
    ensures CombineError(shares).None? ==>
      if out != null && out.Length != |shares[0].y| then r == Err(OutputLengthMismatch)
      else r.Ok? && (if out == null then fresh(r.value) else r.value == out)
           && Combinable(shares) && r.value[..] == Combined(shares)
    ensures r.Err? ==> out == null || out[..] == old(out[..])
  {
    hide Times, Xor, OfInt, ToInt, DotProduct, CombineError;
    var e := CheckShares(shares);
    CombineErrorMeaning(shares);
    if e.Some? { return Err(e.value); }
    var t, len := shares[0].threshold, |shares[0].y|;
    var use := shares[..t];
    PointsDistinct(shares);
    var lagrange := LagrangeAtZero(gf, use, Points(shares));
    var secret: array<Byte>;
    if out == null {
      secret := new Byte[len];
    } else {
      secret := out;
    }
    if secret.Length != len { return Err(OutputLengthMismatch); }
    var i := 0;
    while i < len
      modifies secret
      invariant 0 <= i <= len
      invariant forall k | 0 <= k < i :: secret[k] == Combined(shares)[k]
    {
      assert Values(shares, i) == ObservedBytes(use, i);
      secret[i] := CombineByte(gf, use, lagrange, i);
      i := i + 1;
    }
    assert secret[..] == Combined(shares);
    r := Ok(secret);
  }

  // ---------- splitting then combining ----------

  /** The shares of a split at the positions `picks`, in that order. */
  function Pick(shares: seq<ShamirShare>, picks: seq<nat>): (s: seq<ShamirShare>)
    requires forall k | 0 <= k < |picks| :: picks[k] < |shares|
    ensures |s| == |picks|
  {
    seq(|picks|, k requires 0 <= k < |picks| => shares[picks[k]])
  }

  /** Any list of at least t distinct shares of one split, in any order, combines to the secret. */
  lemma SplitThenCombine(secret: seq<Byte>, t: nat, n: nat, setId: seq<Byte>, fills: Fills, picks: seq<nat>)
    requires SplitError(secret, t, n).None?
    requires forall k | 0 <= k < |picks| :: picks[k] < n
    requires forall i, j | 0 <= i < j < |picks| :: picks[i] != picks[j]
    requires |picks| >= t
    ensures var s := Pick(SharesOf(secret, t, n, setId, fills), picks);
            CombineError(s).None? && Combinable(s) && Combined(s) == secret
  {
    hide Eval, OfInt, ToInt, DotProduct, IsBasisAtZero;
    var s := Pick(SharesOf(secret, t, n, setId, fills), picks);
    assert Combinable(s);
    CombineErrorMeaning(s);
    PointsDistinct(s);
    var xs, ls := Points(s), BasesAtZero(Points(s));
    forall i | 0 <= i < |secret| ensures Combined(s)[i] == secret[i] {
      var c := Coefficients(secret[i], fills, t, i);
      forall j | 0 <= j < t ensures Values(s, i)[j] == Eval(c, xs[j]) {}
      DotProductRecovers(c, xs, Values(s, i), ls);
    }
  }

  /** What combining returns of any shares that it accepts: the constant terms of the polynomials through
      the first `threshold` of them, whatever the others are. */
  lemma CombinedIsConstantTerm(shares: seq<ShamirShare>, i: nat, c: Poly)
    requires Combinable(shares) && shares[0].threshold > 0 && i < |shares[0].y| && |c| == shares[0].threshold
    requires forall j | 0 <= j < shares[0].threshold :: Eval(c, OfInt(shares[j].x)) == shares[j].y[i]
    ensures Combined(shares)[i] == c[0]
  {
    hide Eval, OfInt, ToInt, DotProduct, IsBasisAtZero;
    PointsDistinct(shares);
    DotProductRecovers(c, Points(shares), Values(shares, i), BasesAtZero(Points(shares)));
  }

  // ---------- secrecy ----------

  /** The values of the polynomial with constant term `secretByte` and the rest `tail`. */
  ghost predicate Explains(secretByte: Byte, tail: seq<Byte>, xs: seq<Byte>, ys: seq<Byte>)
    requires |xs| == |ys|
  {
    forall i | 0 <= i < |xs| :: Eval([secretByte] + tail, xs[i]) == ys[i]
  }

  /** The one fill under which `secretByte` produces the observed bytes. */
  ghost function TheFill(secretByte: Byte, xs: seq<Byte>, ys: seq<Byte>): (tail: seq<Byte>)
    requires |xs| == |ys| && Distinct(xs) && ZERO !in xs
    ensures |tail| == |xs|
  {
    assert Distinct([ZERO] + xs);
    LagrangePoly([ZERO] + xs, [secretByte] + ys, |xs| + 1)[1..]
  }

  /** Perfect secrecy of t - 1 shares: whatever bytes they show, every secret byte is explained by
      exactly one choice of the t - 1 remaining coefficients. */
  lemma EverySecretHasOneFill(secretByte: Byte, xs: seq<Byte>, ys: seq<Byte>, tail: seq<Byte>)
    requires |xs| == |ys| == |tail| && Distinct(xs) && ZERO !in xs
    ensures Explains(secretByte, tail, xs, ys) <==> tail == TheFill(secretByte, xs, ys)
  {
    hide Xor, Times, Eval, LagrangePoly, Weight;
    var zs, vs, c := [ZERO] + xs, [secretByte] + ys, [secretByte] + tail;
    assert Distinct(zs);
    var p := LagrangePoly(zs, vs, |zs|);
    InterpolationIsUnique(zs, vs, c);
    InterpolationIsUnique(zs, vs, p);
    EvalAtZero(c);
    EvalAtZero(p);
    assert Eval(p, zs[0]) == vs[0];
    assert p == [secretByte] + p[1..];
    ShiftPoints(secretByte, c, xs, ys);
  }

  lemma ShiftPoints(v: Byte, c: Poly, xs: seq<Byte>, ys: seq<Byte>)
    requires |xs| == |ys| && Eval(c, ZERO) == v
    ensures (forall i | 0 <= i < |xs| + 1 :: Eval(c, ([ZERO] + xs)[i]) == ([v] + ys)[i])
       <==> (forall i | 0 <= i < |xs| :: Eval(c, xs[i]) == ys[i])
  {
    hide *;
    if forall i | 0 <= i < |xs| + 1 :: Eval(c, ([ZERO] + xs)[i]) == ([v] + ys)[i] {
      forall i | 0 <= i < |xs| ensures Eval(c, xs[i]) == ys[i] {
        assert ([ZERO] + xs)[i + 1] == xs[i] && ([v] + ys)[i + 1] == ys[i];
      }
    }
    if forall i | 0 <= i < |xs| :: Eval(c, xs[i]) == ys[i] {
      ShiftedPoints(v, c, xs, ys);
    }
  }

  lemma ShiftedPoints(v: Byte, c: Poly, xs: seq<Byte>, ys: seq<Byte>)
    requires |xs| == |ys| && Eval(c, ZERO) == v && forall i | 0 <= i < |xs| :: Eval(c, xs[i]) == ys[i]
    ensures forall i | 0 <= i < |xs| + 1 :: Eval(c, ([ZERO] + xs)[i]) == ([v] + ys)[i]
  {
    hide *;
    forall i | 0 <= i < |xs| + 1 ensures Eval(c, ([ZERO] + xs)[i]) == ([v] + ys)[i] {
      if i > 0 {
        assert ([ZERO] + xs)[i] == xs[i - 1] && ([v] + ys)[i] == ys[i - 1];
      }
    }
  }

  lemma EvalAtZero(c: Poly)
    requires c != []
    ensures Eval(c, ZERO) == c[0]
  {
    hide Xor, Times;
    ZeroLaws(Eval(c[1..], ZERO));
    ZeroLaws(c[0]);
  }

  function Tail(fills: Fills, t: nat, i: nat): (tail: seq<Byte>)
    requires t >= 1
    ensures |tail| == t - 1
  {
    seq(t - 1, k requires 0 <= k < t - 1 => fills(i, k + 1))
  }

  function PointsAt(picks: seq<nat>): (xs: seq<Byte>)
    requires forall k | 0 <= k < |picks| :: picks[k] < 255
    ensures |xs| == |picks|
  {
    seq(|picks|, k requires 0 <= k < |picks| => OfInt(picks[k] + 1))
  }

  lemma PointsAtDistinct(picks: seq<nat>)
    requires forall k | 0 <= k < |picks| :: picks[k] < 255
    requires forall i, j | 0 <= i < j < |picks| :: picks[i] != picks[j]
    ensures Distinct(PointsAt(picks)) && ZERO !in PointsAt(picks)
  {
    hide ToInt;
    var xs := PointsAt(picks);
    ToIntOfZero();
    forall k | 0 <= k < |xs| ensures ToInt(xs[k]) == picks[k] + 1 {}
  }

  /** Any t - 1 shares of a split are also shares of every other secret of that length, under
      exactly one choice of its remaining coefficients. */
  lemma SharesBelowThresholdHideTheSecret(
    secret: seq<Byte>, other: seq<Byte>, t: nat, n: nat, setId: seq<Byte>, fills: Fills, g: Fills, picks: seq<nat>)
    requires SplitError(secret, t, n).None? && |other| == |secret| && |picks| == t - 1
    requires forall k | 0 <= k < |picks| :: picks[k] < n
    requires forall i, j | 0 <= i < j < |picks| :: picks[i] != picks[j]
    ensures Distinct(PointsAt(picks)) && ZERO !in PointsAt(picks)
    ensures Pick(SharesOf(other, t, n, setId, g), picks) == Pick(SharesOf(secret, t, n, setId, fills), picks)
       <==> forall i | 0 <= i < |secret| ::
              Tail(g, t, i) == TheFill(other[i], PointsAt(picks),
                                       ObservedBytes(Pick(SharesOf(secret, t, n, setId, fills), picks), i))
  {
    hide Eval, OfInt, ToInt, TheFill, Distinct;
    PointsAtDistinct(picks);
    var seen, alt := Pick(SharesOf(secret, t, n, setId, fills), picks), Pick(SharesOf(other, t, n, setId, g), picks);
    var xs := PointsAt(picks);
    forall i | 0 <= i < |secret|
      ensures ObservedBytes(alt, i) == ObservedBytes(seen, i)
         <==> Tail(g, t, i) == TheFill(other[i], xs, ObservedBytes(seen, i))
    {
      EverySecretHasOneFill(other[i], xs, ObservedBytes(seen, i), Tail(g, t, i));
      ObservedOfOther(other, t, n, setId, g, picks, i);
    }
    SameShares(seen, alt, |secret|);
  }

  /** What is seen of a byte are the values of its polynomial. */
  lemma ObservedOfOther(other: seq<Byte>, t: nat, n: nat, setId: seq<Byte>, g: Fills, picks: seq<nat>, i: nat)
    requires SplitError(other, t, n).None? && |picks| == t - 1 && i < |other|
    requires forall k | 0 <= k < |picks| :: picks[k] < n
    ensures var seen := ObservedBytes(Pick(SharesOf(other, t, n, setId, g), picks), i);
      |seen| == |picks|
      && forall k | 0 <= k < |picks| :: seen[k] == Eval([other[i]] + Tail(g, t, i), PointsAt(picks)[k])
  {
    hide Eval, OfInt, ToInt;
    assert [other[i]] + Tail(g, t, i) == Coefficients(other[i], g, t, i);
  }

  lemma SameShares(a: seq<ShamirShare>, b: seq<ShamirShare>, len: nat)
    requires |a| == |b|
    requires forall k | 0 <= k < |a| :: |a[k].y| == |b[k].y| == len && a[k].(y := []) == b[k].(y := [])
    ensures a == b <==> forall i | 0 <= i < len :: ObservedBytes(b, i) == ObservedBytes(a, i)
  {
    if forall i | 0 <= i < len :: ObservedBytes(b, i) == ObservedBytes(a, i) {
      forall k | 0 <= k < |a| ensures a[k] == b[k] {
        forall i | 0 <= i < len ensures a[k].y[i] == b[k].y[i] {
          assert ObservedBytes(b, i)[k] == ObservedBytes(a, i)[k];
        }
        assert a[k].y == b[k].y;
      }
    }
  }

  // ---------- the wire format ----------

  type Checksum = seq<Byte> -> seq<Byte>

  const CHECK_LENGTH := 16
  const HEADER_LENGTH := 16
  /** "ZWS1": 0x5a, 0x57, 0x53, 0x31. */
  const MAGIC: seq<Byte> := [
    Byte(false, true, false, true, true, false, true, false),
    Byte(true, true, true, false, true, false, true, false),
    Byte(true, true, false, false, true, false, true, false),
    Byte(true, false, false, false, true, true, false, false)]

  ghost predicate Sixteen(check: Checksum) {
    forall b :: |check(b)| == CHECK_LENGTH
  }

  /** A number stored into a byte. */
  function Truncate(n: nat): Byte {
    OfInt(n % 0x100)
  }

  /** magic | setId(8) | x(1) | t(1) | length(2, big endian); a number is stored in a byte modulo 256. */
  function Header(s: ShamirShare): (h: seq<Byte>)
    requires |s.setId| == 8 && |s.y| < 0x10000
    ensures |h| == HEADER_LENGTH
  {
    hide Truncate;
    MAGIC + s.setId
    + [Truncate(s.x), Truncate(s.threshold), Truncate(|s.y| / 0x100), Truncate(|s.y|)]
  }

  function Serialized(s: ShamirShare, check: Checksum): Result<seq<Byte>, Error> {
    if |s.setId| != 8 then Err(SetIdLength)
    else if |s.y| >= 0x10000 then Err(ValueTooLong)
    else Ok(Header(s) + s.y + check(Header(s) + s.y))
  }

  /** Where each field of a serialised share is, and what its checksum covers. */
  predicate HasLayout(b: seq<Byte>, s: ShamirShare, check: Checksum) {
    hide ToInt;
    var n := 16 + |s.y|;
    && |b| >= n && b[..4] == MAGIC && b[4..12] == s.setId && b[16..n] == s.y && b[n..] == check(b[..n])
    && ToInt(b[12]) == s.x % 0x100 && ToInt(b[13]) == s.threshold % 0x100
    && 0x100 * ToInt(b[14]) + ToInt(b[15]) == |s.y|
  }

  /** serializeShare, writing the header field by field into a buffer. */
  method Serialize(s: ShamirShare, check: Checksum) returns (r: Result<seq<Byte>, Error>)
    ensures r == Serialized(s, check)
    ensures r == Err(SetIdLength) <==> |s.setId| != 8
    ensures r == Err(ValueTooLong) <==> |s.setId| == 8 && |s.y| > 0xffff
    ensures r.Ok? ==> HasLayout(r.value, s, check)
  {
    hide Truncate, HasLayout, OfInt;
    if |s.setId| != 8 { return Err(SetIdLength); }
    var head := new Byte[HEADER_LENGTH](_ => ZERO);
    var i := 0;
    while i < 4
      invariant 0 <= i <= 4
      invariant forall k | 0 <= k < i :: head[k] == MAGIC[k]
    {
      head[i] := MAGIC[i];
      i := i + 1;
    }
    i := 0;
    while i < 8
      invariant 0 <= i <= 8
      invariant forall k | 0 <= k < 4 :: head[k] == MAGIC[k]
      invariant forall k | 0 <= k < i :: head[4 + k] == s.setId[k]
    {
      head[4 + i] := s.setId[i];
      i := i + 1;
    }
    head[12] := Truncate(s.x);
    head[13] := Truncate(s.threshold);
    if |s.y| >= 0x10000 { return Err(ValueTooLong); }
    head[14] := Truncate(|s.y| / 0x100);
    head[15] := Truncate(|s.y|);
    assert forall k | 0 <= k < 8 :: head[4 + k] == s.setId[k];
    assert head[4..12] == s.setId;
    assert head[..] == head[..4] + head[4..12] + [head[12], head[13], head[14], head[15]];
    assert head[..4] == MAGIC;
    assert head[..] == Header(s);
    var body := head[..] + s.y;
    r := Ok(body + check(body));
    Layout(s, check);
  }

  function Parse(buf: seq<Byte>, check: Checksum): (r: Result<ShamirShare, Error>) {
    hide ToInt, OfInt;
    if |buf| < HEADER_LENGTH + 1 + CHECK_LENGTH then Err(TooShort)
    else if buf[..4] != MAGIC then Err(BadMagic)
    else
      var yLen := 0x100 * ToInt(buf[14]) + ToInt(buf[15]);
      if |buf| != HEADER_LENGTH + yLen + CHECK_LENGTH then Err(LengthMismatch)
      else if check(buf[..HEADER_LENGTH + yLen]) != buf[HEADER_LENGTH + yLen..] then Err(ChecksumMismatch)
      else Ok(ShamirShare(buf[4..12], ToInt(buf[12]), ToInt(buf[13]), buf[HEADER_LENGTH..HEADER_LENGTH + yLen]))
  }

  lemma HeaderFields(s: ShamirShare, b: seq<Byte>)
    requires |s.setId| == 8 && |s.y| < 0x10000 && HEADER_LENGTH <= |b| && b[..HEADER_LENGTH] == Header(s)
    ensures b[..4] == MAGIC && b[4..12] == s.setId
    ensures b[12] == Truncate(s.x) && b[13] == Truncate(s.threshold)
    ensures b[14] == Truncate(|s.y| / 0x100) && b[15] == Truncate(|s.y|)
  {
    hide Truncate, OfInt;
    var h := Header(s);
    assert forall i | 0 <= i < HEADER_LENGTH :: b[i] == h[i];
    assert h[..4] == MAGIC && h[4..12] == s.setId;
  }

  /** What the header's numbers are read back as. */
  lemma StoredNumbers(s: ShamirShare)
    requires |s.y| < 0x10000
    ensures ToInt(Truncate(s.x)) == s.x % 0x100 && ToInt(Truncate(s.threshold)) == s.threshold % 0x100
    ensures 0x100 * ToInt(Truncate(|s.y| / 0x100)) + ToInt(Truncate(|s.y|)) == |s.y|
  {
    hide ToInt, OfInt;
  }

  lemma Layout(s: ShamirShare, check: Checksum)
    requires Serialized(s, check).Ok?
    ensures HasLayout(Serialized(s, check).value, s, check)
  {
    hide OfInt, ToInt, Header, Truncate;
    var b, n := Serialized(s, check).value, 16 + |s.y|;
    assert b[..HEADER_LENGTH] == Header(s);
    HeaderFields(s, b);
    StoredNumbers(s);
    assert b[..n] == Header(s) + s.y;
  }

  /** A serialised share parses back to itself exactly when it has a value byte and its numbers are bytes. */
  lemma ParseSerialized(s: ShamirShare, check: Checksum)
    requires Sixteen(check) && Serialized(s, check).Ok?
    ensures Parse(Serialized(s, check).value, check) == Ok(s)
       <==> s.y != [] && s.x < 0x100 && s.threshold < 0x100
  {
    hide OfInt, ToInt, Header, Truncate;
    var body := Header(s) + s.y;
    var buf := body + check(body);
    assert buf[..HEADER_LENGTH] == Header(s);
    HeaderFields(s, buf);
    StoredNumbers(s);
    if s.y != [] {
      assert buf[..HEADER_LENGTH + |s.y|] == body;
      assert buf[HEADER_LENGTH + |s.y|..] == check(body);
      assert buf[HEADER_LENGTH..HEADER_LENGTH + |s.y|] == s.y;
    }
  }

  /** Whatever parses is the serialisation of what it parses to. */
  lemma SerializeParsed(buf: seq<Byte>, check: Checksum)
    requires Parse(buf, check).Ok?
    ensures Serialized(Parse(buf, check).value, check) == Ok(buf)
  {
    hide ToInt, OfInt, Header;
    var s := Parse(buf, check).value;
    HeaderOfParsed(buf, s);
    assert buf[..HEADER_LENGTH + |s.y|] == Header(s) + s.y;
    assert buf == buf[..HEADER_LENGTH + |s.y|] + buf[HEADER_LENGTH + |s.y|..];
  }

  lemma HeaderOfParsed(buf: seq<Byte>, s: ShamirShare)
    requires |buf| >= HEADER_LENGTH && buf[..4] == MAGIC && buf[4..12] == s.setId
    requires s.x == ToInt(buf[12]) && s.threshold == ToInt(buf[13])
    requires |s.y| == 0x100 * ToInt(buf[14]) + ToInt(buf[15])
    ensures |s.y| < 0x10000 && |s.setId| == 8 && Header(s) == buf[..HEADER_LENGTH]
  {
    hide ToInt, OfInt;
    OfIntToInt(buf[12]);
    OfIntToInt(buf[13]);
    OfIntToInt(buf[14]);
    OfIntToInt(buf[15]);
    TwoDigits(ToInt(buf[14]), ToInt(buf[15]));
    assert buf[..HEADER_LENGTH] == buf[..4] + buf[4..12] + [buf[12], buf[13], buf[14], buf[15]];
  }

  lemma TwoDigits(hi: Octet, lo: Octet)
    ensures 0x100 * hi + lo < 0x10000
    ensures (0x100 * hi + lo) / 0x100 == hi && (0x100 * hi + lo) % 0x100 == lo
  {}
}
