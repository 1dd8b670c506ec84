/**
 The Merkle tree of section 2.1 of RFC 6962 over entry hashes, its inclusion proofs and their
 verifier, over an arbitrary hash function.

 Binding results say "equal, or here is a collision": the two colliding inputs are among the finitely
 many strings that the two computations in question actually hashed.
 */
module Merkle {
  import opened Bytes
  import opened Wrappers

  type Digest = seq<Byte>
  type Hash = seq<Byte> -> Digest

  const DIGEST_BYTES := 32

  ghost predicate IsHash(h: Hash) {
    forall b :: |h(b)| == DIGEST_BYTES
  }

  /** Two different inputs, one from each set, with the same hash. */
  ghost predicate Collision(h: Hash, a: set<seq<Byte>>, b: set<seq<Byte>>) {
    exists x, y :: x in a && y in b && x != y && h(x) == h(y)
  }

  function LeafInput(entry: Digest): seq<Byte> {
    [ZERO] + entry
  }

  function NodeInput(left: Digest, right: Digest): seq<Byte> {
    [ONE] + left + right
  }

  function LeafHash(h: Hash, entry: Digest): Digest {
    h(LeafInput(entry))
  }

  function NodeHash(h: Hash, left: Digest, right: Digest): Digest {
    h(NodeInput(left, right))
  }

  // ---------- the split point ----------

  function DoubleBelow(n: nat, k: nat): (r: nat)
    requires k > 0
    decreases n - k
  {
    if k * 2 < n then DoubleBelow(n, k * 2) else k
  }

  function SplitPoint(n: nat): nat {
    DoubleBelow(n, 1)
  }

  ghost predicate IsPowerOfTwo(k: nat) {
    exists d: nat :: k == Pow2(d)
  }

  lemma {:induction false} DoubleBelowMeaning(n: nat, k: nat, d: nat)
    requires k == Pow2(d) && k < n
    ensures exists e: nat :: DoubleBelow(n, k) == Pow2(e)
    ensures DoubleBelow(n, k) < n <= 2 * DoubleBelow(n, k)
    decreases n - k
  {
    if k * 2 < n {
      assert Pow2(d + 1) == k * 2;
      DoubleBelowMeaning(n, k * 2, d + 1);
    }
  }

  /** The split point is the largest power of two below n. */
  lemma SplitPointMeaning(n: nat)
    requires n >= 2
    ensures IsPowerOfTwo(SplitPoint(n)) && 1 <= SplitPoint(n) < n <= 2 * SplitPoint(n)
  {
    assert Pow2(0) == 1;
    DoubleBelowMeaning(n, 1, 0);
  }

  method LargestPowerOfTwoBelow(n: nat) returns (k: nat)
    ensures k == SplitPoint(n)
    ensures n >= 2 ==> IsPowerOfTwo(k) && k < n <= 2 * k
  {
    k := 1;
    while k * 2 < n
      invariant k > 0
      invariant DoubleBelow(n, k) == SplitPoint(n)
      decreases n - k
    {
      k := k * 2;
    }
    if n >= 2 {
      SplitPointMeaning(n);
    }
  }

  // ---------- the tree ----------

  function Leaves(h: Hash, entries: seq<Digest>): (l: seq<Digest>)
    ensures |l| == |entries|
  {
    seq(|entries|, i requires 0 <= i < |entries| => LeafHash(h, entries[i]))
  }

  function RootOf(h: Hash, nodes: seq<Digest>): Digest
    requires nodes != []
  {
    if |nodes| == 1 then nodes[0] else
    SplitPointMeaning(|nodes|);
    var k := SplitPoint(|nodes|);
    NodeHash(h, RootOf(h, nodes[..k]), RootOf(h, nodes[k..]))
  }

  function MerkleRoot(h: Hash, entries: seq<Digest>): Digest {
    if entries == [] then h([]) else RootOf(h, Leaves(h, entries))
  }

  /** Section 2.1 of RFC 6962, with the strings that are hashed: nothing, 0x00 and the entry, or 0x01 and the
      two halves, split at the power of two from half the size up to it. */
  lemma RootIsTheTreeHash(h: Hash, entries: seq<Digest>, k: nat)
    requires |entries| >= 2 ==> IsPowerOfTwo(k) && k < |entries| <= 2 * k
    ensures entries == [] ==> MerkleRoot(h, entries) == h([])
    ensures |entries| == 1 ==> MerkleRoot(h, entries) == h([OfInt(0)] + entries[0])
    ensures |entries| >= 2 ==>
      MerkleRoot(h, entries) == h([OfInt(1)] + MerkleRoot(h, entries[..k]) + MerkleRoot(h, entries[k..]))
  {
    hide IsPowerOfTwo, SplitPoint, OfInt, RootOf;
    PrefixBytes();
    if |entries| == 1 {
      OneLeaf(h, entries);
    } else if |entries| >= 2 {
      SplitPointMeaning(|entries|);
      SameSplit(|entries|, k, SplitPoint(|entries|));
      LeavesOfParts(h, entries, k);
      RootUnfolds(h, Leaves(h, entries));
    }
  }

  lemma PrefixBytes()
    ensures OfInt(0) == ZERO && OfInt(1) == ONE
  {
    assert LowBits(0, 8) == Bits(ZERO);
    assert LowBits(1, 8) == Bits(ONE);
  }

  lemma OneLeaf(h: Hash, entries: seq<Digest>)
    requires |entries| == 1
    ensures MerkleRoot(h, entries) == h([ZERO] + entries[0])
  {}

  lemma LeavesOfParts(h: Hash, entries: seq<Digest>, k: nat)
    requires k <= |entries|
    ensures Leaves(h, entries)[..k] == Leaves(h, entries[..k]) && Leaves(h, entries)[k..] == Leaves(h, entries[k..])
  {}

  lemma RootUnfolds(h: Hash, nodes: seq<Digest>)
    requires |nodes| >= 2 && 1 <= SplitPoint(|nodes|) < |nodes|
    ensures var k := SplitPoint(|nodes|); RootOf(h, nodes) == h([ONE] + RootOf(h, nodes[..k]) + RootOf(h, nodes[k..]))
  {
    hide SplitPoint;
  }

  /** There is only one such power of two. */
  lemma SameSplit(n: nat, k: nat, m: nat)
    requires IsPowerOfTwo(k) && k < n <= 2 * k && IsPowerOfTwo(m) && m < n <= 2 * m
    ensures k == m
  {
    var d: nat :| k == Pow2(d);
    var e: nat :| m == Pow2(e);
    if d < e {
      PowerMonotone(d + 1, e);
    } else if e < d {
      PowerMonotone(e + 1, d);
    }
  }

  /** Section 2.1.1: the path of an entry is its path in its half and the root of the other half. */
  lemma ProofIsTheAuditPath(h: Hash, entries: seq<Digest>, index: nat, k: nat)
    requires index < |entries| && (|entries| >= 2 ==> IsPowerOfTwo(k) && k < |entries| <= 2 * k)
    ensures |entries| == 1 ==> ProofFor(h, Leaves(h, entries), index) == []
    ensures |entries| >= 2 && index < k ==>
      ProofFor(h, Leaves(h, entries), index)
      == ProofFor(h, Leaves(h, entries[..k]), index) + [MerkleRoot(h, entries[k..])]
    ensures |entries| >= 2 && index >= k ==>
      ProofFor(h, Leaves(h, entries), index)
      == ProofFor(h, Leaves(h, entries[k..]), index - k) + [MerkleRoot(h, entries[..k])]
  {
    hide IsPowerOfTwo, SplitPoint, RootOf;
    if |entries| >= 2 {
      SplitPointMeaning(|entries|);
      SameSplit(|entries|, k, SplitPoint(|entries|));
      LeavesOfParts(h, entries, k);
      TopOfTree(h, Leaves(h, entries), index);
    }
  }

  /** The root of a non-empty tree as a function of its entries. */
  function Tree(h: Hash, entries: seq<Digest>): Digest
    requires entries != []
  {
    if |entries| == 1 then LeafHash(h, entries[0]) else
    SplitPointMeaning(|entries|);
    var k := SplitPoint(|entries|);
    NodeHash(h, Tree(h, entries[..k]), Tree(h, entries[k..]))
  }

  lemma {:induction false} TreeIsRootOfLeaves(h: Hash, entries: seq<Digest>)
    requires entries != []
    ensures Tree(h, entries) == RootOf(h, Leaves(h, entries))
    decreases |entries|
  {
    if |entries| > 1 {
      SplitPointMeaning(|entries|);
      var k := SplitPoint(|entries|);
      assert Leaves(h, entries)[..k] == Leaves(h, entries[..k]);
      assert Leaves(h, entries)[k..] == Leaves(h, entries[k..]);
      TreeIsRootOfLeaves(h, entries[..k]);
      TreeIsRootOfLeaves(h, entries[k..]);
    }
  }

  lemma TreeLength(h: Hash, entries: seq<Digest>)
    requires IsHash(h) && entries != []
    ensures |Tree(h, entries)| == DIGEST_BYTES
  {}

  /** The strings hashed while computing a root. */
  ghost function Inputs(h: Hash, entries: seq<Digest>): set<seq<Byte>> {
    if entries == [] then {[]}
    else if |entries| == 1 then {LeafInput(entries[0])}
    else
      SplitPointMeaning(|entries|);
      var k := SplitPoint(|entries|);
      {NodeInput(Tree(h, entries[..k]), Tree(h, entries[k..]))} + Inputs(h, entries[..k]) + Inputs(h, entries[k..])
  }

  /** The string whose hash is the root of a non-empty tree. */
  lemma RootInput(h: Hash, entries: seq<Digest>) returns (x: seq<Byte>)
    requires entries != []
    ensures x in Inputs(h, entries) && h(x) == Tree(h, entries) && x != []
    ensures |entries| == 1 ==> x == LeafInput(entries[0]) && x[0] == ZERO
    ensures |entries| > 1 ==> x[0] == ONE && 1 <= SplitPoint(|entries|) < |entries|
    ensures |entries| > 1 ==>
      x == NodeInput(Tree(h, entries[..SplitPoint(|entries|)]), Tree(h, entries[SplitPoint(|entries|)..]))
  {
    if |entries| == 1 {
      x := LeafInput(entries[0]);
    } else {
      SplitPointMeaning(|entries|);
      var k := SplitPoint(|entries|);
      x := NodeInput(Tree(h, entries[..k]), Tree(h, entries[k..]));
    }
  }

  lemma NodeInputInjective(l: Digest, r: Digest, l': Digest, r': Digest)
    requires NodeInput(l, r) == NodeInput(l', r')
    requires |l| == |l'| || |r| == |r'|
    ensures l == l' && r == r'
  {
    var x, y := NodeInput(l, r), NodeInput(l', r');
    assert |x| == 1 + |l| + |r| && |y| == 1 + |l'| + |r'|;
    assert l == x[1..1 + |l|] && l' == y[1..1 + |l'|];
    assert r == x[1 + |l|..] && r' == y[1 + |l'|..];
  }

  lemma CollisionWidens(h: Hash, a: set<seq<Byte>>, b: set<seq<Byte>>, a': set<seq<Byte>>, b': set<seq<Byte>>)
    requires a <= a' && b <= b' && Collision(h, a, b)
    ensures Collision(h, a', b')
  {}

  lemma CollisionFound(h: Hash, x: seq<Byte>, y: seq<Byte>, a: set<seq<Byte>>, b: set<seq<Byte>>)
    requires x in a && y in b && x != y && h(x) == h(y)
    ensures Collision(h, a, b)
  {}

  lemma {:induction false} TreeBinding(h: Hash, a: seq<Digest>, b: seq<Digest>)
    requires IsHash(h) && a != [] && b != [] && Tree(h, a) == Tree(h, b)
    ensures a == b || Collision(h, Inputs(h, a), Inputs(h, b))
    decreases |a|
  {
    hide Collision, NodeInput, LeafInput, Inputs, SplitPoint;
    var x := RootInput(h, a);
    var y := RootInput(h, b);
    if x != y {
      CollisionFound(h, x, y, Inputs(h, a), Inputs(h, b));
    } else if |a| > 1 && |b| > 1 {
      var k, m := SplitPoint(|a|), SplitPoint(|b|);
      TreeLength(h, a[..k]);
      TreeLength(h, b[..m]);
      SplitInputs(h, a);
      SplitInputs(h, b);
      NodeInputInjective(Tree(h, a[..k]), Tree(h, a[k..]), Tree(h, b[..m]), Tree(h, b[m..]));
      TreeBinding(h, a[..k], b[..m]);
      TreeBinding(h, a[k..], b[m..]);
      if Collision(h, Inputs(h, a[..k]), Inputs(h, b[..m])) {
        CollisionWidens(h, Inputs(h, a[..k]), Inputs(h, b[..m]), Inputs(h, a), Inputs(h, b));
      } else if Collision(h, Inputs(h, a[k..]), Inputs(h, b[m..])) {
        CollisionWidens(h, Inputs(h, a[k..]), Inputs(h, b[m..]), Inputs(h, a), Inputs(h, b));
      } else {
        assert a == a[..k] + a[k..] && b == b[..m] + b[m..];
      }
    } else if |a| == 1 && |b| == 1 {
      LeafInputInjective(a[0], b[0]);
    }
  }

  lemma LeafInputInjective(e: Digest, f: Digest)
    requires LeafInput(e) == LeafInput(f)
    ensures e == f
  {
    assert e == LeafInput(e)[1..] && f == LeafInput(f)[1..];
  }

  lemma SplitInputs(h: Hash, entries: seq<Digest>)
    requires |entries| > 1
    ensures 1 <= SplitPoint(|entries|) < |entries|
    ensures Inputs(h, entries[..SplitPoint(|entries|)]) <= Inputs(h, entries)
    ensures Inputs(h, entries[SplitPoint(|entries|)..]) <= Inputs(h, entries)
  {
    SplitPointMeaning(|entries|);
  }

  /** Equal roots come from equal entry lists, whatever their sizes, or a collision is exhibited. */
  lemma RootIsBinding(h: Hash, a: seq<Digest>, b: seq<Digest>)
    requires IsHash(h) && MerkleRoot(h, a) == MerkleRoot(h, b)
    ensures a == b || Collision(h, Inputs(h, a), Inputs(h, b))
  {
    if a != [] { TreeIsRootOfLeaves(h, a); }
    if b != [] { TreeIsRootOfLeaves(h, b); }
    if a != [] && b != [] {
      TreeBinding(h, a, b);
    } else if a != [] {
      var x := RootInput(h, a);
    } else if b != [] {
      var y := RootInput(h, b);
    }
  }

  // ---------- inclusion proofs ----------

  /** Sibling hashes of the leaf at `index`, deepest first. */
  function ProofFor(h: Hash, nodes: seq<Digest>, index: nat): (proof: seq<Digest>)
    requires index < |nodes|
    decreases |nodes|
  {
    if |nodes| == 1 then [] else
    SplitPointMeaning(|nodes|);
    var k := SplitPoint(|nodes|);
    if index < k then ProofFor(h, nodes[..k], index) + [RootOf(h, nodes[k..])]
    else ProofFor(h, nodes[k..], index - k) + [RootOf(h, nodes[..k])]
  }

  class ProofList {
    var items: seq<Digest>

    constructor ()
      ensures items == []
    {
      items := [];
    }

    method Push(d: Digest)
      modifies this
      ensures items == old(items) + [d]
    {
      items := items + [d];
    }
  }

  method Build(h: Hash, nodes: seq<Digest>, index: nat, proof: ProofList)
    requires index < |nodes|
    modifies proof
    ensures proof.items == old(proof.items) + ProofFor(h, nodes, index)
    decreases |nodes|
  {
    if |nodes| == 1 { return; }
    var k := LargestPowerOfTwoBelow(|nodes|);
    if index < k {
      Build(h, nodes[..k], index, proof);
      proof.Push(RootOf(h, nodes[k..]));
    } else {
      Build(h, nodes[k..], index - k, proof);
      proof.Push(RootOf(h, nodes[..k]));
    }
  }

  method InclusionProof(h: Hash, entries: seq<Digest>, index: int) returns (r: Option<seq<Digest>>)
    ensures r == if 0 <= index < |entries| then Some(ProofFor(h, Leaves(h, entries), index)) else None
  {
    if index < 0 || index >= |entries| { return None; }
    var proof := new ProofList();
    Build(h, Leaves(h, entries), index, proof);
    assert proof.items == ProofFor(h, Leaves(h, entries), index);
    r := Some(proof.items);
  }

  function Recompute(h: Hash, hash: Digest, index: nat, n: nat, proof: seq<Digest>, p: int): Option<Digest>
    requires index < n
    decreases n
  {
    if n == 1 then (if p == -1 then Some(hash) else None)
    else if p < 0 || p >= |proof| then None
    else
      SplitPointMeaning(n);
      var k := SplitPoint(n);
      if index < k then
        var left := Recompute(h, hash, index, k, proof, p - 1);
        if left.None? then None else Some(NodeHash(h, left.value, proof[p]))
      else
        var right := Recompute(h, hash, index - k, n - k, proof, p - 1);
        if right.None? then None else Some(NodeHash(h, proof[p], right.value))
  }

  predicate VerifyInclusion(h: Hash, entry: Digest, index: int, size: int, proof: seq<Digest>, root: Digest) {
    if index < 0 || index >= size || size < 1 then false
    else Recompute(h, LeafHash(h, entry), index, size, proof, |proof| - 1) == Some(root)
  }

  /** The strings hashed while recomputing a root from a leaf. */
  ghost function PathInputs(h: Hash, entry: Digest, index: nat, n: nat, proof: seq<Digest>, p: int): set<seq<Byte>>
    requires index < n
    decreases n
  {
    if n == 1 || p < 0 || p >= |proof| then {LeafInput(entry)}
    else
      SplitPointMeaning(n);
      var k := SplitPoint(n);
      if index < k then
        var left := Recompute(h, LeafHash(h, entry), index, k, proof, p - 1);
        PathInputs(h, entry, index, k, proof, p - 1)
        + if left.None? then {} else {NodeInput(left.value, proof[p])}
      else
        var right := Recompute(h, LeafHash(h, entry), index - k, n - k, proof, p - 1);
        PathInputs(h, entry, index - k, n - k, proof, p - 1)
        + if right.None? then {} else {NodeInput(proof[p], right.value)}
  }

  ghost function VerifierInputs(h: Hash, entry: Digest, index: int, size: int, proof: seq<Digest>): set<seq<Byte>>
    requires 0 <= index < size
  {
    PathInputs(h, entry, index, size, proof, |proof| - 1)
  }

  lemma {:induction false} RecomputeLength(h: Hash, entry: Digest, index: nat, n: nat, proof: seq<Digest>, p: int)
    requires IsHash(h) && index < n
    ensures var r := Recompute(h, LeafHash(h, entry), index, n, proof, p); r.Some? ==> |r.value| == DIGEST_BYTES
  {}

  /** The string whose hash is the recomputed root. */
  lemma LastInput(h: Hash, entry: Digest, index: nat, n: nat, proof: seq<Digest>, p: int) returns (x: seq<Byte>)
    requires index < n && Recompute(h, LeafHash(h, entry), index, n, proof, p).Some?
    ensures x in PathInputs(h, entry, index, n, proof, p) && x != []
    ensures h(x) == Recompute(h, LeafHash(h, entry), index, n, proof, p).value
    ensures n == 1 ==> x == LeafInput(entry) && x[0] == ZERO
    ensures n > 1 ==> x[0] == ONE && 0 <= p < |proof|
    ensures n > 1 ==> var k := SplitPoint(n);
      if index < k then x == NodeInput(Recompute(h, LeafHash(h, entry), index, k, proof, p - 1).value, proof[p])
      else x == NodeInput(proof[p], Recompute(h, LeafHash(h, entry), index - k, n - k, proof, p - 1).value)
  {
    if n == 1 {
      x := LeafInput(entry);
    } else {
      SplitPointMeaning(n);
      var k := SplitPoint(n);
      if index < k {
        x := NodeInput(Recompute(h, LeafHash(h, entry), index, k, proof, p - 1).value, proof[p]);
      } else {
        x := NodeInput(proof[p], Recompute(h, LeafHash(h, entry), index - k, n - k, proof, p - 1).value);
      }
    }
  }

  /** A path that recomputes the root of a list leads to one of its entries, and to the one at the
      claimed index when the claimed size is right. */
  lemma {:induction false} PathSound(
    h: Hash, entry: Digest, index: nat, n: nat, proof: seq<Digest>, p: int, entries: seq<Digest>)
    requires IsHash(h) && index < n && entries != []
    requires Recompute(h, LeafHash(h, entry), index, n, proof, p) == Some(Tree(h, entries))
    ensures Collision(h, Inputs(h, entries), PathInputs(h, entry, index, n, proof, p))
         || (entry in entries && (n == |entries| ==> entries[index] == entry))
    decreases n
  {
    hide Collision, NodeInput, LeafInput, Inputs, PathInputs, SplitPoint;
    var path := PathInputs(h, entry, index, n, proof, p);
    var x := RootInput(h, entries);
    var y := LastInput(h, entry, index, n, proof, p);
    if x != y {
      CollisionFound(h, x, y, Inputs(h, entries), path);
    } else if n == 1 && |entries| == 1 {
      LeafInputInjective(entry, entries[0]);
    } else if n > 1 && |entries| > 1 {
      SplitPointMeaning(n);
      SplitInputs(h, entries);
      var k, m := SplitPoint(n), SplitPoint(|entries|);
      var (i, s) := if index < k then (index, k) else (index - k, n - k);
      var part := if index < k then entries[..m] else entries[m..];
      var below := Recompute(h, LeafHash(h, entry), i, s, proof, p - 1);
      RecomputeLength(h, entry, i, s, proof, p - 1);
      TreeLength(h, entries[..m]);
      TreeLength(h, entries[m..]);
      if index < k {
        NodeInputInjective(below.value, proof[p], Tree(h, entries[..m]), Tree(h, entries[m..]));
      } else {
        NodeInputInjective(proof[p], below.value, Tree(h, entries[..m]), Tree(h, entries[m..]));
      }
      PathSound(h, entry, i, s, proof, p - 1, part);
      PathInputsBelow(h, entry, index, n, proof, p);
      if Collision(h, Inputs(h, part), PathInputs(h, entry, i, s, proof, p - 1)) {
        CollisionWidens(h, Inputs(h, part), PathInputs(h, entry, i, s, proof, p - 1), Inputs(h, entries), path);
      }
    }
  }

  lemma PathInputsBelow(h: Hash, entry: Digest, index: nat, n: nat, proof: seq<Digest>, p: int)
    requires index < n && n > 1 && 0 <= p < |proof|
    ensures 1 <= SplitPoint(n) < n
    ensures index < SplitPoint(n) ==>
      PathInputs(h, entry, index, SplitPoint(n), proof, p - 1) <= PathInputs(h, entry, index, n, proof, p)
    ensures index >= SplitPoint(n) ==>
      PathInputs(h, entry, index - SplitPoint(n), n - SplitPoint(n), proof, p - 1)
      <= PathInputs(h, entry, index, n, proof, p)
  {
    SplitPointMeaning(n);
  }

  /** Soundness at any claimed index and size, against the real root of any list. */
  lemma InclusionIsSound(h: Hash, entry: Digest, index: int, size: int, proof: seq<Digest>, entries: seq<Digest>)
    requires IsHash(h) && VerifyInclusion(h, entry, index, size, proof, MerkleRoot(h, entries))
    ensures Collision(h, Inputs(h, entries), VerifierInputs(h, entry, index, size, proof))
         || (entry in entries && (size == |entries| ==> entries[index] == entry))
  {
    if entries == [] {
      var x := LastInput(h, entry, index, size, proof, |proof| - 1);
    } else {
      TreeIsRootOfLeaves(h, entries);
      PathSound(h, entry, index, size, proof, |proof| - 1, entries);
    }
  }

  lemma {:induction false} RecomputeUsesPrefix(h: Hash, hash: Digest, index: nat, n: nat, a: seq<Digest>,
      b: seq<Digest>, p: int)
    requires index < n && -1 <= p < |a| && p < |b| && a[..p + 1] == b[..p + 1]
    ensures Recompute(h, hash, index, n, a, p) == Recompute(h, hash, index, n, b, p)
    decreases n
  {
    if n > 1 && p >= 0 {
      SplitPointMeaning(n);
      var k := SplitPoint(n);
      assert a[p] == a[..p + 1][p] && b[p] == b[..p + 1][p];
      assert a[..p] == a[..p + 1][..p] && b[..p] == b[..p + 1][..p];
      if index < k {
        RecomputeUsesPrefix(h, hash, index, k, a, b, p - 1);
      } else {
        RecomputeUsesPrefix(h, hash, index - k, n - k, a, b, p - 1);
      }
    }
  }

  lemma Extended(h: Hash, hash: Digest, index: nat, n: nat, proof: seq<Digest>, sibling: Digest)
    requires index < n
    ensures Recompute(h, hash, index, n, proof + [sibling], |proof| - 1) ==
      Recompute(h, hash, index, n, proof, |proof| - 1)
  {
    hide Recompute;
    var longer := proof + [sibling];
    assert longer[..|proof|] == proof[..|proof|];
    RecomputeUsesPrefix(h, hash, index, n, proof, longer, |proof| - 1);
  }

  lemma {:induction false} ProofRecomputes(h: Hash, nodes: seq<Digest>, index: nat)
    requires index < |nodes|
    ensures var proof := ProofFor(h, nodes, index);
            Recompute(h, nodes[index], index, |nodes|, proof, |proof| - 1) == Some(RootOf(h, nodes))
    decreases |nodes|
  {
    hide SplitPoint, NodeHash, IsPowerOfTwo, Recompute, RootOf, ProofFor;
    if |nodes| > 1 {
      SplitPointMeaning(|nodes|);
      var k := SplitPoint(|nodes|);
      if index < k {
        var left := nodes[..k];
        ProofRecomputes(h, left, index);
        Extended(h, nodes[index], index, k, ProofFor(h, left, index), RootOf(h, nodes[k..]));
        assert left[index] == nodes[index];
      } else {
        var right := nodes[k..];
        ProofRecomputes(h, right, index - k);
        Extended(h, nodes[index], index - k, |nodes| - k, ProofFor(h, right, index - k), RootOf(h, nodes[..k]));
        assert right[index - k] == nodes[index];
      }
      TopOfTree(h, nodes, index);
      TopOfPath(h, nodes[index], index, |nodes|, ProofFor(h, nodes, index), |ProofFor(h, nodes, index)| - 1);
    } else {
      OneNode(h, nodes);
    }
  }

  lemma OneNode(h: Hash, nodes: seq<Digest>)
    requires |nodes| == 1
    ensures ProofFor(h, nodes, 0) == [] && Recompute(h, nodes[0], 0, 1, [], -1) == Some(RootOf(h, nodes))
  {}

  lemma TopOfTree(h: Hash, nodes: seq<Digest>, index: nat)
    requires index < |nodes| && |nodes| > 1 && 1 <= SplitPoint(|nodes|) < |nodes|
    ensures var k := SplitPoint(|nodes|);
      && RootOf(h, nodes) == NodeHash(h, RootOf(h, nodes[..k]), RootOf(h, nodes[k..]))
      && ProofFor(h, nodes, index) ==
           if index < k then ProofFor(h, nodes[..k], index) + [RootOf(h, nodes[k..])]
           else ProofFor(h, nodes[k..], index - k) + [RootOf(h, nodes[..k])]
  {
    hide SplitPoint, NodeHash, Recompute;
  }

  lemma TopOfPath(h: Hash, hash: Digest, index: nat, n: nat, proof: seq<Digest>, p: nat)
    requires index < n && n > 1 && p < |proof| && 1 <= SplitPoint(n) < n
    ensures var k := SplitPoint(n);
      Recompute(h, hash, index, n, proof, p) ==
        if index < k then
          var left := Recompute(h, hash, index, k, proof, p - 1);
          if left.None? then None else Some(NodeHash(h, left.value, proof[p]))
        else
          var right := Recompute(h, hash, index - k, n - k, proof, p - 1);
          if right.None? then None else Some(NodeHash(h, proof[p], right.value))
  {
    hide SplitPoint, NodeHash;
  }

  /** The generated proof verifies, for every list and every index. */
  lemma InclusionIsComplete(h: Hash, entries: seq<Digest>, index: nat)
    requires index < |entries|
    ensures VerifyInclusion(h, entries[index], index, |entries|, ProofFor(h, Leaves(h, entries), index),
                            MerkleRoot(h, entries))
  {
    ProofRecomputes(h, Leaves(h, entries), index);
  }

  lemma {:induction false} ProofLengthPower(h: Hash, nodes: seq<Digest>, index: nat, d: nat)
    requires index < |nodes| <= Pow2(d)
    ensures |ProofFor(h, nodes, index)| <= d
    decreases |nodes|
  {
    if |nodes| > 1 {
      SplitPointMeaning(|nodes|);
      var k := SplitPoint(|nodes|);
      var e: nat :| k == Pow2(e);
      if e >= d {
        PowerMonotone(d, e);
        assert false;
      }
      PowerMonotone(e, d - 1);
      if index < k {
        ProofLengthPower(h, nodes[..k], index, d - 1);
      } else {
        ProofLengthPower(h, nodes[k..], index - k, d - 1);
      }
    }
  }

  lemma {:induction false} PowerMonotone(i: nat, j: nat)
    requires i <= j
    ensures Pow2(i) <= Pow2(j)
    decreases j
  {
    if i < j {
      PowerMonotone(i, j - 1);
    }
  }

  /** Two accepted paths from the same leaf, index and size to the same root are the same path. */
  lemma {:induction false} PathUnique(
    h: Hash, entry: Digest, index: nat, n: nat, a: seq<Digest>, p: int, b: seq<Digest>, q: int)
    requires IsHash(h) && index < n && -1 <= p < |a| && -1 <= q < |b|
    requires Recompute(h, LeafHash(h, entry), index, n, a, p).Some?
    requires Recompute(h, LeafHash(h, entry), index, n, a, p) == Recompute(h, LeafHash(h, entry), index, n, b, q)
    ensures Collision(h, PathInputs(h, entry, index, n, a, p), PathInputs(h, entry, index, n, b, q))
         || a[..p + 1] == b[..q + 1]
    decreases n
  {
    hide Collision, NodeInput, LeafInput, PathInputs, SplitPoint;
    var pa, pb := PathInputs(h, entry, index, n, a, p), PathInputs(h, entry, index, n, b, q);
    var x := LastInput(h, entry, index, n, a, p);
    var y := LastInput(h, entry, index, n, b, q);
    if x != y {
      CollisionFound(h, x, y, pa, pb);
    } else if n > 1 {
      SplitPointMeaning(n);
      var k := SplitPoint(n);
      var (i, s) := if index < k then (index, k) else (index - k, n - k);
      var u := Recompute(h, LeafHash(h, entry), i, s, a, p - 1).value;
      var v := Recompute(h, LeafHash(h, entry), i, s, b, q - 1).value;
      RecomputeLength(h, entry, i, s, a, p - 1);
      RecomputeLength(h, entry, i, s, b, q - 1);
      if index < k {
        NodeInputInjective(u, a[p], v, b[q]);
      } else {
        NodeInputInjective(a[p], u, b[q], v);
      }
      PathUnique(h, entry, i, s, a, p - 1, b, q - 1);
      PathInputsBelow(h, entry, index, n, a, p);
      PathInputsBelow(h, entry, index, n, b, q);
      var ia, ib := PathInputs(h, entry, i, s, a, p - 1), PathInputs(h, entry, i, s, b, q - 1);
      if Collision(h, ia, ib) {
        CollisionWidens(h, ia, ib, pa, pb);
      } else {
        assert a[..p + 1] == a[..p] + [a[p]] && b[..q + 1] == b[..q] + [b[q]];
      }
    }
  }

  /** Canonicity: no second proof for the same leaf, index, size and root. */
  lemma InclusionIsCanonical(h: Hash, entry: Digest, index: int, size: int, a: seq<Digest>, b: seq<Digest>,
      root: Digest)
    requires IsHash(h)
    requires VerifyInclusion(h, entry, index, size, a, root) && VerifyInclusion(h, entry, index, size, b, root)
    ensures a == b
         || Collision(h, VerifierInputs(h, entry, index, size, a), VerifierInputs(h, entry, index, size, b))
  {
    PathUnique(h, entry, index, size, a, |a| - 1, b, |b| - 1);
    assert a[..|a|] == a && b[..|b|] == b;
  }

  /** The length of a proof is at most the ceiling of the base-2 logarithm of the size. */
  lemma ProofIsShort(h: Hash, entries: seq<Digest>, index: nat, d: nat)
    requires index < |entries| <= Pow2(d)
    ensures |ProofFor(h, Leaves(h, entries), index)| <= d
  {
    ProofLengthPower(h, Leaves(h, entries), index, d);
  }
}
