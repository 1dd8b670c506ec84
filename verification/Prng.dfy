/**
 The deterministic generator behind paper assembly: a buffered counter-mode stream that refines a pure
 function of the position, exact uniformity of bounded draws, and shuffling and sampling as bijections
 between vectors of draws and their results.
 */
module Prng {
  import opened Bytes
  import opened Wrappers

  /** Block k is the 64-byte keyed hash of the counter value k under the seed. */
  type Blocks = nat -> seq<Octet>

  const BLOCK := 64
  const WORDS := 0x1_0000_0000

  ghost predicate IsBlocks(block: Blocks) {
    forall k :: |block(k)| == BLOCK
  }

  function StreamByte(block: Blocks, k: nat): Octet
    requires IsBlocks(block)
  {
    block(k / BLOCK)[k % BLOCK]
  }

  /** Four bytes, most significant first. */
  function Word(block: Blocks, k: nat): (w: nat)
    requires IsBlocks(block)
    ensures w < WORDS
  {
    StreamByte(block, k) * 0x100_0000 + StreamByte(block, k + 1) * 0x1_0000 + StreamByte(block, k + 2) * 0x100
    + StreamByte(block, k + 3)
  }

  // ---------- bounded draws ----------

  function Limit(n: nat): nat
    requires n > 0
  {
    WORDS / n * n
  }

  function Residue(word: nat, n: nat): (r: nat)
    requires n > 0
    ensures r < n
  {
    word % n
  }

  predicate Accepted(n: nat, word: nat)
    requires n > 0
  {
    word < Limit(n)
  }

  /** The m-th word from position k is the first that is accepted. */
  predicate FirstAccepted(block: Blocks, k: nat, n: nat, m: nat)
    requires IsBlocks(block) && n > 0
  {
    Accepted(n, Word(block, k + 4 * m)) && forall i: nat | i < m :: !Accepted(n, Word(block, k + 4 * i))
  }

  /** None of the first m words from position k is accepted. */
  ghost predicate Rejected(block: Blocks, k: nat, n: nat, m: nat)
    requires IsBlocks(block) && n > 0
  {
    forall i: nat | i < m :: !Accepted(n, Word(block, k + 4 * i))
  }

  ghost predicate Fetched(block: Blocks, k: nat, n: nat, j: nat, end: nat)
    requires IsBlocks(block) && n > 0
  {
    && end >= k + 4 && (end - k) % 4 == 0
    && FirstAccepted(block, k, n, (end - k) / 4 - 1) && j == Residue(Word(block, end - 4), n)
  }

  /** `nextBelow(n)` at position k returns j and stops at position end. */
  ghost predicate Draw(block: Blocks, k: nat, n: nat, j: nat, end: nat)
    requires IsBlocks(block)
  {
    && n > 0
    && (n == 1 ==> j == 0 && end == k)
    && (n > 1 ==> Fetched(block, k, n, j, end))
  }

  /** Draw after draw with the given bounds. */
  ghost predicate Draws(block: Blocks, k: nat, bounds: seq<nat>, js: seq<nat>, end: nat)
    requires IsBlocks(block)
    decreases |bounds|
  {
    && |js| == |bounds|
    && (bounds == [] ==> end == k)
    && (bounds != [] ==> exists mid: nat ::
      Draw(block, k, bounds[0], js[0], mid) && Draws(block, mid, bounds[1..], js[1..], end))
  }

  /** After the draws js the next one has rejected as many words as the caller has patience for. */
  ghost predicate Stuck(block: Blocks, k: nat, bounds: seq<nat>, js: seq<nat>, patience: nat, end: nat)
    requires IsBlocks(block)
  {
    |js| < |bounds| && bounds[|js|] > 1
    && exists mid: nat ::
         Draws(block, k, bounds[..|js|], js, mid) && Rejected(block, mid, bounds[|js|], patience)
           && end == mid + 4 * patience
  }

  datatype StreamError = NotPositive | PoolTooSmall | OutOfPatience

  lemma FirstIsUnique(block: Blocks, k: nat, n: nat, p: nat, q: nat)
    requires IsBlocks(block) && n > 0 && FirstAccepted(block, k, n, p) && FirstAccepted(block, k, n, q)
    ensures p == q
  {
    hide Accepted, Word;
    assert !(p < q) && !(q < p);
  }

  lemma SameEnd(k: nat, d: nat, e: nat, p: int)
    requires d >= k && e >= k && (d - k) % 4 == 0 && (e - k) % 4 == 0 && (d - k) / 4 - 1 == p == (e - k) / 4 - 1
    ensures d == e
  {}

  lemma DrawIsDetermined(block: Blocks, k: nat, n: nat, i: nat, d: nat, j: nat, e: nat)
    requires IsBlocks(block) && Draw(block, k, n, i, d) && Draw(block, k, n, j, e)
    ensures i == j && d == e
  {
    hide FirstAccepted, Word, Residue;
    if n > 1 {
      var p, q := (d - k) / 4 - 1, (e - k) / 4 - 1;
      FirstIsUnique(block, k, n, p, q);
      SameEnd(k, d, e, p);
    }
  }

  /** The draws depend on nothing but the seed and the position. */
  lemma {:induction false} DrawsAreDetermined(block: Blocks, k: nat, bounds: seq<nat>, a: seq<nat>, d: nat,
      b: seq<nat>, e: nat)
    requires IsBlocks(block) && Draws(block, k, bounds, a, d) && Draws(block, k, bounds, b, e)
    ensures a == b && d == e
    decreases |bounds|
  {
    hide Draw;
    if bounds != [] {
      var m: nat :| Draw(block, k, bounds[0], a[0], m) && Draws(block, m, bounds[1..], a[1..], d);
      var l: nat :| Draw(block, k, bounds[0], b[0], l) && Draws(block, l, bounds[1..], b[1..], e);
      DrawIsDetermined(block, k, bounds[0], a[0], m, b[0], l);
      DrawsAreDetermined(block, m, bounds[1..], a[1..], d, b[1..], e);
      assert a == [a[0]] + a[1..] && b == [b[0]] + b[1..];
    }
  }

  lemma {:induction false} DrawsExtend(block: Blocks, k: nat, bounds: seq<nat>, js: seq<nat>, mid: nat, n: nat, j: nat,
      end: nat)
    requires IsBlocks(block) && Draws(block, k, bounds, js, mid) && Draw(block, mid, n, j, end)
    ensures Draws(block, k, bounds + [n], js + [j], end)
    decreases |bounds|
  {
    hide Draw;
    var ns, ds := bounds + [n], js + [j];
    if bounds == [] {
      assert ns[1..] == [] && ds[1..] == [];
      assert Draws(block, end, [], [], end);
    } else {
      var m: nat :| Draw(block, k, bounds[0], js[0], m) && Draws(block, m, bounds[1..], js[1..], mid);
      DrawsExtend(block, m, bounds[1..], js[1..], mid, n, j, end);
      assert ns[1..] == bounds[1..] + [n] && ds[1..] == js[1..] + [j];
    }
  }

  /** The accepted words with residue r. */
  function WordsWithResidue(n: nat, r: nat): set<nat>
    requires n > 0
  {
    set w: nat | w < WORDS && Accepted(n, w) && Residue(w, n) == r
  }

  function Multiples(n: nat, r: nat, q: nat): set<nat>
    requires n > 0
  {
    set w: nat | w < q * n && w % n == r
  }

  lemma {:induction false} CountMultiples(n: nat, r: nat, q: nat)
    requires r < n
    ensures |Multiples(n, r, q)| == q
  {
    if q == 0 {
      assert Multiples(n, r, 0) == {};
    } else {
      CountMultiples(n, r, q - 1);
      NextMultiple(n, r, q);
      assert Multiples(n, r, q) == Multiples(n, r, q - 1) + {(q - 1) * n + r};
    }
  }

  lemma NextMultiple(n: nat, r: nat, q: nat)
    requires r < n && q > 0
    ensures forall w: nat :: w in Multiples(n, r, q) <==> w in Multiples(n, r, q - 1) || w == (q - 1) * n + r
    ensures (q - 1) * n + r !in Multiples(n, r, q - 1)
  {
    var last := (q - 1) * n;
    assert q * n == last + n;
    ResidueOf(q - 1, n, r);
    forall w: nat ensures w in Multiples(n, r, q) <==> w in Multiples(n, r, q - 1) || w == last + r {
      if last <= w < last + n {
        ResidueOf(q - 1, n, w - last);
      }
    }
  }

  lemma {:induction false} ResidueOf(q: nat, n: nat, r: nat)
    requires r < n
    ensures (q * n + r) % n == r
  {
    if q > 0 {
      ResidueOf(q - 1, n, r);
      assert q * n + r == (q - 1) * n + r + n;
      StepResidue((q - 1) * n + r, n);
    }
  }

  lemma StepResidue(x: nat, n: nat)
    requires n > 0
    ensures (x + n) % n == x % n
  {
    var q, r := x / n, x % n;
    assert x + n == n * (q + 1) + r;
    DivisionIsUnique(x + n, n, q + 1, r);
  }

  lemma DivisionIsUnique(x: nat, n: nat, q: nat, r: nat)
    requires r < n && x == n * q + r
    ensures x % n == r
  {
    var p, s := x / n, x % n;
    assert x == n * p + s;
    Monotone(n, p + 1, q);
    Monotone(n, q + 1, p);
  }

  lemma Monotone(n: nat, a: nat, b: nat)
    ensures a <= b ==> n * a <= n * b
  {
    if a <= b {
      assert n * b == n * a + n * (b - a);
    }
  }

  /** Every residue comes from the same number of accepted words, and more than half of all words are
      accepted. */
  lemma BoundedDrawsAreUniform(n: nat, r: nat)
    requires 1 < n <= WORDS && r < n
    ensures |WordsWithResidue(n, r)| == WORDS / n
    ensures 2 * Limit(n) > WORDS >= Limit(n)
  {
    var q := WORDS / n;
    CountMultiples(n, r, q);
    assert q * n <= WORDS < q * n + n;
    Monotone(n, 1, q);
    assert q * n == n * q;
    assert WordsWithResidue(n, r) == Multiples(n, r, q);
  }

  /** Beyond 2^32 nothing is accepted. */
  lemma NothingIsAccepted(n: nat, word: nat)
    requires n > WORDS
    ensures !Accepted(n, word)
  {}

  // ---------- the stream ----------

  class DeterministicStream {
    const block: Blocks
    var counter: nat
    var pool: seq<Octet>
    var offset: nat
    /** How many bytes have been drawn. */
    ghost var drawn: nat

    ghost predicate Valid()
      reads this
    {
      && IsBlocks(block) && offset <= |pool|
      && (counter == 0 ==> pool == [] && drawn == 0)
      && (counter > 0 ==> pool == block(counter - 1) && drawn == BLOCK * (counter - 1) + offset)
    }

    constructor (block: Blocks)
      requires IsBlocks(block)
      ensures Valid() && this.block == block && drawn == 0
    {
      this.block := block;
      counter, pool, offset, drawn := 0, [], 0, 0;
    }

    lemma ItsBlocks()
      requires Valid()
      ensures IsBlocks(block)
    {}

    method Refill()
      requires Valid() && offset >= |pool|
      modifies this
      ensures Valid() && drawn == old(drawn) && offset == 0 && |pool| == BLOCK
    {
      pool := block(counter);
      counter := counter + 1;
      offset := 0;
    }

    /** The k-th byte drawn is byte k mod 64 of block k div 64. */
    method NextByte() returns (b: Octet)
      requires Valid()
      modifies this
      ensures Valid() && b == StreamByte(block, old(drawn)) && drawn == old(drawn) + 1
      ensures b == block(old(drawn) / 64)[old(drawn) % 64]
    {
      if offset >= |pool| {
        Refill();
      }
      assert drawn / BLOCK == counter - 1 && drawn % BLOCK == offset;
      b := pool[offset];
      offset, drawn := offset + 1, drawn + 1;
    }

    /** Shifts left in a signed 32-bit word four times and drops the sign at the end. */
    method NextUint32() returns (w: nat)
      requires Valid()
      modifies this
      ensures Valid() && w == Word(block, old(drawn)) && drawn == old(drawn) + 4
      ensures var k := old(drawn); w == 0x100_0000 * StreamByte(block, k) + 0x1_0000 * StreamByte(block, k + 1)
                                        + 0x100 * StreamByte(block, k + 2) + StreamByte(block, k + 3)
    {
      hide Valid, Signed32, StreamByte, Word, IsBlocks;
      ItsBlocks();
      var v := 0;
      ghost var k := drawn;
      for i := 0 to 4
        invariant Valid() && drawn == k + i && v % WORDS == FirstBytes(block, k, i) % WORDS
      {
        var b := NextByte();
        ShiftedIn(v, FirstBytes(block, k, i), b);
        v := Signed32(v * 0x100) + b;
      }
      FourBytes(block, k);
      WordOfBytes(block, k);
      w := v % WORDS;
    }

    /** Draws words until one is accepted.  The loop has no bound; a caller whose patience ends after that
        many words sees that none of them was accepted. */
    method NextBelow(n: int, patience: nat) returns (r: Result<nat, StreamError>)
      requires Valid()
      modifies this
      ensures Valid()
      ensures r == Err(NotPositive) <==> n <= 0
      ensures r == Err(NotPositive) ==> drawn == old(drawn)
      ensures r.Ok? ==> r.value < n && Draw(block, old(drawn), n, r.value, drawn) && drawn <= old(drawn) + 4 * patience
      ensures r.Ok? && n == 1 ==> r.value == 0 && drawn == old(drawn)
      ensures r.Ok? && n > 1 ==> TakesFirst(block, old(drawn), n, r.value, drawn)
      ensures r.Err? && n > 0 ==> r.error == OutOfPatience && n > 1 && Rejected(block, old(drawn), n, patience)
      ensures r.Err? && n > 0 ==> drawn == old(drawn) + 4 * patience
    {
      hide *;
      ItsBlocks();
      if n <= 0 {
        return Err(NotPositive);
      }
      if n == 1 {
        NoDraw(block, drawn);
        return Ok(0);
      }
      ghost var k := drawn;
      NothingTried(block, k, n);
      var limit := Limit(n);
      for tried := 0 to patience
        invariant Valid() && drawn == k + 4 * tried && Rejected(block, k, n, tried)
      {
        var v := NextUint32();
        AcceptedMeans(n, v);
        if v < limit {
          Fetch(block, k, n, tried);
          FirstIsTaken(block, k, n, tried);
          return Ok(Residue(v, n));
        }
        RejectOne(block, k, n, tried);
      }
      r := Err(OutOfPatience);
    }

    static method Exchange<T>(a: array<T>, i: nat, j: nat)
      requires i < a.Length && j < a.Length
      modifies a
      ensures a[..] == Swap(old(a[..]), i, j)
    {
      a[i], a[j] := a[j], a[i];
    }

    static method Copy<T>(items: seq<T>) returns (a: array<T>)
      ensures fresh(a) && a.Length == |items| && a[..] == items
    {
      a := new T[|items|](i requires 0 <= i < |items| => items[i]);
    }

    /** Fisher-Yates on a copy: the result depends on the draws alone. */
    method Shuffle<T>(items: seq<T>, patience: nat) returns (result: Result<seq<T>, StreamError>, ghost js: seq<nat>)
      requires Valid()
      modifies this
      ensures Valid()
      ensures result.Ok? ==>
        |js| == |ShuffleBounds(|items|)| && DrawVector(|items|, js) && result.value == Shuffled(items, js)
      ensures result.Ok? ==> Draws(block, old(drawn), ShuffleBounds(|items|), js, drawn)
      ensures result.Err? ==>
        result.error == OutOfPatience && Stuck(block, old(drawn), ShuffleBounds(|items|), js, patience, drawn)
    {
      hide *;
      ItsBlocks();
      var n := |items|;
      var out := Copy(items);
      ghost var k := drawn;
      ShuffleStart(block, items, k);
      js := [];
      var i := n - 1;
      while i > 0
        invariant Valid() && i < n && (n > 0 ==> i >= 0)
        invariant fresh(out) && out.Length == n
        invariant |js| == if n == 0 then 0 else n - 1 - i
        invariant Shuffling(block, items, k, js, drawn, out[..])
      {
        ghost var before := drawn;
        var r := NextBelow(i + 1, patience);
        if r.Err? {
          ShuffleStuck(block, items, k, js, before, out[..], patience);
          return Err(r.error), js;
        }
        ShuffleStep(block, items, k, js, before, r.value, drawn, out[..]);
        Exchange(out, i, r.value);
        js := js + [r.value];
        i := i - 1;
      }
      ShuffleEnd(block, items, k, js, drawn, out[..]);
      result := Ok(out[..]);
    }

    /** Draws k items one after another from a shrinking pool. */
    method Sample<T>(items: seq<T>, k: int, patience: nat)
        returns (result: Result<seq<T>, StreamError>, ghost js: seq<nat>)
      requires Valid()
      modifies this
      ensures Valid()
      ensures result == Err(PoolTooSmall) <==> k > |items|
      ensures result == Err(PoolTooSmall) ==> drawn == old(drawn)
      ensures result.Ok? ==>
        |js| == (if k < 0 then 0 else k) && DrawVector(|items|, js) && result.value == Selection(items, js).out
      ensures result.Ok? ==> Draws(block, old(drawn), SampleBounds(|items|, |js|), js, drawn)
      ensures result.Err? && k <= |items| ==>
                result.error == OutOfPatience && k > 0
                  && Stuck(block, old(drawn), SampleBounds(|items|, k), js, patience, drawn)
    {
      hide *;
      ItsBlocks();
      js := [];
      if k > |items| {
        return Err(PoolTooSmall), js;
      }
      var pool := items;
      var out: seq<T> := [];
      ghost var at := drawn;
      SampleStart(block, items, at);
      var i := 0;
      while i < k
        invariant 0 <= i && (if k < 0 then i == 0 else i <= k) && |js| == i && |js| <= |items|
        invariant |pool| == |items| - i
        invariant Valid()
        invariant Sampling(block, items, at, js, drawn, Picked(out, pool))
      {
        ghost var before := drawn;
        var r := NextBelow(|pool|, patience);
        if r.Err? {
          SampleStuck(block, items, at, js, before, Picked(out, pool), k, patience);
          return Err(r.error), js;
        }
        var j := r.value;
        SampleStep(block, items, at, js, before, j, drawn, Picked(out, pool));
        out := out + [pool[j]];
        pool := pool[..j] + pool[j + 1..];
        js := js + [j];
        i := i + 1;
      }
      SampleEnd(block, items, at, js, drawn, Picked(out, pool));
      result := Ok(out);
    }
  }

  /** ToInt32. */
  function Signed32(n: int): int {
    var m := n % WORDS;
    if m < WORDS / 2 then m else m - WORDS
  }

  /** The first i bytes from position k as a number. */
  function FirstBytes(block: Blocks, k: nat, i: nat): nat
    requires IsBlocks(block)
  {
    if i == 0 then 0 else FirstBytes(block, k, i - 1) * 0x100 + StreamByte(block, k + i - 1)
  }

  lemma ShiftedIn(v: int, n: nat, b: Octet)
    requires v % WORDS == n % WORDS
    ensures (Signed32(v * 0x100) + b) % WORDS == (n * 0x100 + b) % WORDS
  {
    var x := v * 0x100;
    var u := if x % WORDS < WORDS / 2 then x / WORDS else x / WORDS + 1;
    assert Signed32(x) == x - WORDS * u;
    var t := (v / WORDS - n / WORDS) * 0x100 - u;
    assert x == n * 0x100 + WORDS * ((v / WORDS - n / WORDS) * 0x100);
    WholeTurns(n * 0x100 + b, t);
  }

  lemma WholeTurns(a: int, t: int)
    ensures (a + WORDS * t) % WORDS == a % WORDS
  {}

  lemma WordOfBytes(block: Blocks, k: nat)
    requires IsBlocks(block)
    ensures Word(block, k) == 0x100_0000 * StreamByte(block, k) + 0x1_0000 * StreamByte(block, k + 1)
                              + 0x100 * StreamByte(block, k + 2) + StreamByte(block, k + 3)
  {
    hide StreamByte;
  }

  lemma FourBytes(block: Blocks, k: nat)
    requires IsBlocks(block)
    ensures FirstBytes(block, k, 4) % WORDS == Word(block, k)
  {
    hide StreamByte;
    assert FirstBytes(block, k, 1) == StreamByte(block, k);
    assert FirstBytes(block, k, 2) == StreamByte(block, k) * 0x100 + StreamByte(block, k + 1);
    assert FirstBytes(block, k, 3) ==
      (StreamByte(block, k) * 0x100 + StreamByte(block, k + 1)) * 0x100 + StreamByte(block, k + 2);
    assert FirstBytes(block, k, 4) == Word(block, k);
  }

  lemma NothingTried(block: Blocks, k: nat, n: nat)
    requires IsBlocks(block) && n > 0
    ensures Rejected(block, k, n, 0)
  {}

  lemma NoDraw(block: Blocks, k: nat)
    requires IsBlocks(block)
    ensures Draw(block, k, 1, 0, k)
  {}

  lemma RejectOne(block: Blocks, k: nat, n: nat, tried: nat)
    requires IsBlocks(block) && n > 0 && Rejected(block, k, n, tried) && !Accepted(n, Word(block, k + 4 * tried))
    ensures Rejected(block, k, n, tried + 1)
  {
    hide Accepted, Word;
  }

  lemma Fetch(block: Blocks, k: nat, n: nat, m: nat)
    requires IsBlocks(block) && n > 1 && Rejected(block, k, n, m) && Accepted(n, Word(block, k + 4 * m))
    ensures Draw(block, k, n, Residue(Word(block, k + 4 * m), n), k + 4 * (m + 1))
  {
    hide Accepted, Word;
    var end := k + 4 * (m + 1);
    assert (end - k) / 4 - 1 == m && end - 4 == k + 4 * m;
  }

  /** The words from position k on that are not below the largest multiple of n up to 2^32 are skipped, and the
      first other one gives its remainder. */
  ghost predicate TakesFirst(block: Blocks, k: nat, n: nat, r: nat, end: nat)
    requires IsBlocks(block) && n > 0
  {
    var limit := 0x1_0000_0000 / n * n;
    end >= k + 4 && (end - k) % 4 == 0 && Word(block, end - 4) < limit && r == Word(block, end - 4) % n
    && forall i: nat | k + 4 * i < end - 4 :: Word(block, k + 4 * i) >= limit
  }

  lemma FirstIsTaken(block: Blocks, k: nat, n: nat, m: nat)
    requires IsBlocks(block) && n > 1 && Rejected(block, k, n, m) && Accepted(n, Word(block, k + 4 * m))
    ensures TakesFirst(block, k, n, Residue(Word(block, k + 4 * m), n), k + 4 * (m + 1))
  {
    hide Word;
    assert k + 4 * (m + 1) - 4 == k + 4 * m;
    forall i: nat | k + 4 * i < k + 4 * m ensures Word(block, k + 4 * i) >= 0x1_0000_0000 / n * n {
      assert !Accepted(n, Word(block, k + 4 * i));
    }
  }

  lemma AcceptedMeans(n: nat, word: nat)
    requires n > 0
    ensures Accepted(n, word) <==> word < Limit(n)
  {}

  // ---------- shuffling ----------

  /** Draw t picks one of the first n - t positions. */
  predicate DrawVector(n: nat, js: seq<nat>) {
    |js| <= n && forall t | 0 <= t < |js| :: js[t] < n - t
  }

  function ShuffleBounds(n: nat): (b: seq<nat>)
    ensures |b| == if n == 0 then 0 else n - 1
  {
    seq(if n == 0 then 0 else n - 1, t requires 0 <= t < n => n - t)
  }

  function SampleBounds(n: nat, k: nat): (b: seq<nat>)
    requires k <= n
    ensures |b| == k
  {
    seq(k, t requires 0 <= t < n => n - t)
  }

  function Swap<T>(s: seq<T>, i: nat, j: nat): (r: seq<T>)
    requires i < |s| && j < |s|
    ensures |r| == |s|
  {
    s[i := s[j]][j := s[i]]
  }

  /** The list after the draws js: draw t swaps position n - 1 - t. */
  function Shuffled<T>(s: seq<T>, js: seq<nat>): (r: seq<T>)
    requires DrawVector(|s|, js)
    ensures |r| == |s|
  {
    if js == [] then s
    else
      var t := |js| - 1;
      Swap(Shuffled(s, js[..t]), |s| - 1 - t, js[t])
  }

  lemma {:induction false} ShuffledStep<T>(s: seq<T>, js: seq<nat>, j: nat)
    requires DrawVector(|s|, js) && |js| < |s| && j < |s| - |js|
    ensures DrawVector(|s|, js + [j])
    ensures Shuffled(s, js + [j]) == Swap(Shuffled(s, js), |s| - 1 - |js|, j)
  {
    hide Swap, DrawVector, Shuffled;
    DrawVectorStep(|s|, js, j);
    LastSwap(s, js + [j], js, j);
  }

  lemma {:induction false} LastSwap<T>(s: seq<T>, all: seq<nat>, js: seq<nat>, j: nat)
    requires DrawVector(|s|, all) && all == js + [j] && DrawVector(|s|, js) && |js| < |s| && j < |s| - |js|
    ensures Shuffled(s, all) == Swap(Shuffled(s, js), |s| - 1 - |js|, j)
  {
    hide Swap, DrawVector, Shuffled;
    DropLast(js, j);
    ShuffledUnfolds(s, all, |js|);
  }

  lemma DropLast(js: seq<nat>, j: nat)
    ensures (js + [j])[..|js|] == js && (js + [j])[|js|] == j
  {}

  lemma {:induction false} ShuffledUnfolds<T>(s: seq<T>, all: seq<nat>, t: nat)
    requires DrawVector(|s|, all) && |all| == t + 1 && t < |s| && all[t] < |s| && DrawVector(|s|, all[..t])
    ensures Shuffled(s, all) == Swap(Shuffled(s, all[..t]), |s| - 1 - t, all[t])
  {
    hide Swap, DrawVector;
  }

  lemma {:induction false} DrawVectorStep(n: nat, js: seq<nat>, j: nat)
    requires DrawVector(n, js) && |js| < n && j < n - |js|
    ensures DrawVector(n, js + [j])
  {}

  lemma SwapIsPermutation<T>(s: seq<T>, i: nat, j: nat)
    requires i < |s| && j < |s|
    ensures multiset(Swap(s, i, j)) == multiset(s)
  {}

  ghost predicate IsPermutation<T>(p: seq<T>, s: seq<T>) {
    multiset(p) == multiset(s)
  }

  /** Shuffling permutes. */
  lemma {:induction false} ShuffledIsPermutation<T>(s: seq<T>, js: seq<nat>)
    requires DrawVector(|s|, js)
    ensures multiset(Shuffled(s, js)) == multiset(s)
  {
    hide Swap;
    if js != [] {
      var t := |js| - 1;
      ShuffledIsPermutation(s, js[..t]);
      SwapIsPermutation(Shuffled(s, js[..t]), |s| - 1 - t, js[t]);
    }
  }

  ghost predicate Distinct<T(!new)>(s: seq<T>) {
    forall i, j | 0 <= i < j < |s| :: s[i] != s[j]
  }

  lemma {:induction false} ShuffledDistinct<T(!new)>(s: seq<T>, js: seq<nat>)
    requires DrawVector(|s|, js) && Distinct(s)
    ensures Distinct(Shuffled(s, js))
  {
    if js != [] {
      ShuffledDistinct(s, js[..|js| - 1]);
    }
  }

  /** Position n - 1 - u is settled by draw u. */
  lemma {:induction false} Settled<T>(s: seq<T>, js: seq<nat>, u: nat)
    requires DrawVector(|s|, js) && u < |js|
    ensures Shuffled(s, js)[|s| - 1 - u] == Shuffled(s, js[..u])[js[u]]
    decreases |js|
  {
    var t := |js| - 1;
    if u < t {
      Settled(s, js[..t], u);
      assert js[..t][..u] == js[..u];
    }
  }

  /** Different draws give different permutations. */
  lemma {:induction false} ShuffleIsInjective<T(!new)>(s: seq<T>, a: seq<nat>, b: seq<nat>, u: nat)
    requires DrawVector(|s|, a) && DrawVector(|s|, b) && |a| == |b| && Distinct(s)
    requires Shuffled(s, a) == Shuffled(s, b) && u <= |a|
    ensures a[..u] == b[..u]
    decreases u
  {
    hide Shuffled;
    if u > 0 {
      ShuffleIsInjective(s, a, b, u - 1);
      Settled(s, a, u - 1);
      Settled(s, b, u - 1);
      ShuffledDistinct(s, a[..u - 1]);
    }
  }

  /** The draws that put the last u elements of p in place. */
  lemma {:induction false} DrawsToward<T(!new)>(s: seq<T>, p: seq<T>, u: nat) returns (js: seq<nat>)
    requires multiset(s) == multiset(p) && u <= |s|
    ensures |s| == |p| && |js| == u && DrawVector(|s|, js) && Shuffled(s, js)[|s| - u..] == p[|s| - u..]
    decreases u
  {
    hide Swap, Shuffled;
    assert |s| == |multiset(s)| == |multiset(p)| == |p|;
    if u == 0 {
      js := [];
    } else {
      var a := DrawsToward(s, p, u - 1);
      var i := |s| - u;
      var m := Shuffled(s, a);
      ShuffledIsPermutation(s, a);
      var j := Remaining(m, p, i);
      ShuffledStep(s, a, j);
      js := a + [j];
      PutInPlace(m, p, i, j);
    }
  }

  lemma PutInPlace<T>(m: seq<T>, p: seq<T>, i: nat, j: nat)
    requires j <= i < |m| == |p| && m[j] == p[i] && m[i + 1..] == p[i + 1..]
    ensures Swap(m, i, j)[i..] == p[i..]
  {
    forall k | i < k < |m| ensures m[k] == p[k] {
      assert m[k] == m[i + 1..][k - i - 1] && p[k] == p[i + 1..][k - i - 1];
    }
  }

  lemma SameRest<T>(a: multiset<T>, b: multiset<T>, c: multiset<T>)
    requires a + c == b + c
    ensures a == b
  {
    assert a == (a + c) - c && b == (b + c) - c;
  }

  /** With everything after position i in place, what belongs at i is at or before it. */
  lemma Remaining<T(!new)>(m: seq<T>, p: seq<T>, i: nat) returns (j: nat)
    requires |m| == |p| && i < |m| && multiset(m) == multiset(p) && m[i + 1..] == p[i + 1..]
    ensures j <= i && m[j] == p[i]
  {
    assert m == m[..i + 1] + m[i + 1..] && p == p[..i + 1] + p[i + 1..];
    assert multiset(m) == multiset(m[..i + 1]) + multiset(m[i + 1..]);
    assert multiset(p) == multiset(p[..i + 1]) + multiset(p[i + 1..]);
    SameRest(multiset(m[..i + 1]), multiset(p[..i + 1]), multiset(m[i + 1..]));
    assert p[..i + 1][i] == p[i];
    assert p[i] in multiset(p[..i + 1]);
    assert p[i] in m[..i + 1];
    j :| 0 <= j < |m[..i + 1]| && m[..i + 1][j] == p[i];
  }

  /** Vectors of draws and permutations of a list without repetitions correspond one to one. */
  lemma ShuffleIsABijection<T(!new)>(s: seq<T>)
    requires s != [] && Distinct(s)
    ensures forall js | DrawVector(|s|, js) && |js| == |s| - 1 :: IsPermutation(Shuffled(s, js), s)
    ensures forall p | IsPermutation(p, s) :: exists js :: Reaches(s, js, p)
    ensures forall p, a, b | Reaches(s, a, p) && Reaches(s, b, p) :: a == b
  {
    hide Shuffled, Distinct;
    forall js | DrawVector(|s|, js) && |js| == |s| - 1 ensures IsPermutation(Shuffled(s, js), s) {
      ShuffledIsPermutation(s, js);
    }
    forall p | IsPermutation(p, s) ensures exists js :: Reaches(s, js, p) {
      var js := DrawsToward(s, p, |s| - 1);
      LastIsForced(s, js, p);
      assert Reaches(s, js, p);
    }
    forall p, a, b | Reaches(s, a, p) && Reaches(s, b, p) ensures a == b {
      ShuffleIsInjective(s, a, b, |a|);
      assert a[..|a|] == a && b[..|b|] == b;
    }
  }

  ghost predicate Reaches<T>(s: seq<T>, js: seq<nat>, p: seq<T>) {
    s != [] && DrawVector(|s|, js) && |js| == |s| - 1 && Shuffled(s, js) == p
  }

  lemma LastIsForced<T(!new)>(s: seq<T>, js: seq<nat>, p: seq<T>)
    requires s != [] && multiset(p) == multiset(s) && |p| == |s| && DrawVector(|s|, js) && |js| == |s| - 1
    requires Shuffled(s, js)[1..] == p[1..]
    ensures Shuffled(s, js) == p
  {
    hide Shuffled;
    var m := Shuffled(s, js);
    ShuffledIsPermutation(s, js);
    var j := Remaining(m, p, 0);
    assert m == [m[0]] + m[1..] && p == [p[0]] + p[1..];
  }

  // ---------- what the loops keep ----------

  /** The list so far is the result of the draws so far, which are the first that a shuffle makes. */
  ghost predicate Shuffling<T>(block: Blocks, items: seq<T>, k: nat, js: seq<nat>, at: nat, out: seq<T>) {
    && IsBlocks(block) && DrawVector(|items|, js) && |js| <= |ShuffleBounds(|items|)| && out == Shuffled(items, js)
    && Draws(block, k, ShuffleBounds(|items|)[..|js|], js, at)
  }

  lemma ShuffleStart<T>(block: Blocks, items: seq<T>, k: nat)
    requires IsBlocks(block)
    ensures Shuffling(block, items, k, [], k, items)
  {}

  lemma ShuffleStep<T>(block: Blocks, items: seq<T>, k: nat, js: seq<nat>, at: nat, j: nat, end: nat, out: seq<T>)
    requires Shuffling(block, items, k, js, at, out) && |js| < |ShuffleBounds(|items|)|
    requires j < |items| - |js| && IsBlocks(block) && Draw(block, at, |items| - |js|, j, end)
    ensures |out| == |items| && Shuffling(block, items, k, js + [j], end, Swap(out, |items| - 1 - |js|, j))
  {
    hide Draw, Draws, Swap;
    var bounds := ShuffleBounds(|items|);
    DrawsExtend(block, k, bounds[..|js|], js, at, |items| - |js|, j, end);
    assert bounds[..|js|] + [|items| - |js|] == bounds[..|js| + 1];
    ShuffledStep(items, js, j);
  }

  lemma ShuffleStuck<T>(block: Blocks, items: seq<T>, k: nat, js: seq<nat>, at: nat, out: seq<T>, patience: nat)
    requires Shuffling(block, items, k, js, at, out) && |js| < |ShuffleBounds(|items|)|
    requires IsBlocks(block) && Rejected(block, at, |items| - |js|, patience)
    ensures Stuck(block, k, ShuffleBounds(|items|), js, patience, at + 4 * patience)
  {
    hide Draws, Rejected, Shuffled;
  }

  lemma ShuffleEnd<T>(block: Blocks, items: seq<T>, k: nat, js: seq<nat>, at: nat, out: seq<T>)
    requires Shuffling(block, items, k, js, at, out) && |js| == |ShuffleBounds(|items|)|
    ensures IsBlocks(block) && DrawVector(|items|, js) && out == Shuffled(items, js)
    ensures Draws(block, k, ShuffleBounds(|items|), js, at)
  {
    assert ShuffleBounds(|items|)[..|js|] == ShuffleBounds(|items|);
  }

  ghost predicate Sampling<T>(block: Blocks, items: seq<T>, k: nat, js: seq<nat>, at: nat, picked: Picked<T>) {
    && IsBlocks(block) && DrawVector(|items|, js) && |js| <= |items| && picked == Selection(items, js)
    && Draws(block, k, SampleBounds(|items|, |js|), js, at)
  }

  lemma SampleStart<T>(block: Blocks, items: seq<T>, k: nat)
    requires IsBlocks(block)
    ensures Sampling(block, items, k, [], k, Picked([], items))
  {}

  lemma SampleStep<T>(block: Blocks, items: seq<T>, k: nat, js: seq<nat>, at: nat, j: nat, end: nat, p: Picked<T>)
    requires Sampling(block, items, k, js, at, p) && |js| < |items|
    requires j < |p.pool| && IsBlocks(block) && Draw(block, at, |p.pool|, j, end)
    ensures Sampling(block, items, k, js + [j], end, Picked(p.out + [p.pool[j]], p.pool[..j] + p.pool[j + 1..]))
  {
    hide Draw, Draws;
    DrawsExtend(block, k, SampleBounds(|items|, |js|), js, at, |p.pool|, j, end);
    assert SampleBounds(|items|, |js|) + [|p.pool|] == SampleBounds(|items|, |js| + 1);
    SelectionStep(items, js, j);
  }

  lemma SampleStuck<T>(block: Blocks, items: seq<T>, k: nat, js: seq<nat>, at: nat, p: Picked<T>, wanted: nat,
      patience: nat)
    requires Sampling(block, items, k, js, at, p) && |js| < wanted <= |items| && |items| - |js| > 1
    requires IsBlocks(block) && Rejected(block, at, |items| - |js|, patience)
    ensures Stuck(block, k, SampleBounds(|items|, wanted), js, patience, at + 4 * patience)
  {
    hide Draws, Rejected, Selection;
    assert SampleBounds(|items|, wanted)[..|js|] == SampleBounds(|items|, |js|);
  }

  lemma SampleEnd<T>(block: Blocks, items: seq<T>, k: nat, js: seq<nat>, at: nat, p: Picked<T>)
    requires Sampling(block, items, k, js, at, p)
    ensures |p.out| == |js| <= |items| && |p.pool| == |items| - |js|
    ensures IsBlocks(block) && DrawVector(|items|, js) && p == Selection(items, js)
    ensures Draws(block, k, SampleBounds(|items|, |js|), js, at)
  {}

  // ---------- sampling ----------

  datatype Picked<T> = Picked(out: seq<T>, pool: seq<T>)

  function Without<T>(s: seq<T>, j: nat): seq<T>
    requires j < |s|
  {
    s[..j] + s[j + 1..]
  }

  function Selection<T>(s: seq<T>, js: seq<nat>): (r: Picked<T>)
    requires DrawVector(|s|, js)
    ensures |r.out| == |js| && |r.pool| == |s| - |js|
  {
    if js == [] then Picked([], s)
    else
      var before := Selection(s, js[..|js| - 1]);
      var j := js[|js| - 1];
      Picked(before.out + [before.pool[j]], Without(before.pool, j))
  }

  lemma {:induction false} SelectionStep<T>(s: seq<T>, js: seq<nat>, j: nat)
    requires DrawVector(|s|, js) && j < |s| - |js|
    ensures DrawVector(|s|, js + [j])
    ensures var r := Selection(s, js); Selection(s, js + [j]) == Picked(r.out + [r.pool[j]], Without(r.pool, j))
  {
    hide DrawVector, Selection;
    DrawVectorStep(|s|, js, j);
    LastPick(s, js + [j], js, j);
  }

  lemma {:induction false} LastPick<T>(s: seq<T>, all: seq<nat>, js: seq<nat>, j: nat)
    requires DrawVector(|s|, all) && all == js + [j] && DrawVector(|s|, js) && j < |s| - |js|
    ensures var r := Selection(s, js); Selection(s, all) == Picked(r.out + [r.pool[j]], Without(r.pool, j))
  {
    hide DrawVector, Selection;
    DropLast(js, j);
    SelectionUnfolds(s, all, |js|);
  }

  lemma {:induction false} SelectionUnfolds<T>(s: seq<T>, all: seq<nat>, t: nat)
    requires DrawVector(|s|, all) && |all| == t + 1 && DrawVector(|s|, all[..t]) && t <= |s| && all[t] < |s| - t
    ensures var r := Selection(s, all[..t]);
      Selection(s, all) == Picked(r.out + [r.pool[all[t]]], Without(r.pool, all[t]))
  {
    hide DrawVector;
  }

  /** What is selected and what is left over are together what there was. */
  lemma {:induction false} SelectionConserves<T>(s: seq<T>, js: seq<nat>)
    requires DrawVector(|s|, js)
    ensures multiset(Selection(s, js).out) + multiset(Selection(s, js).pool) == multiset(s)
  {
    if js != [] {
      var before, j := Selection(s, js[..|js| - 1]), js[|js| - 1];
      SelectionConserves(s, js[..|js| - 1]);
      assert before.pool == before.pool[..j] + [before.pool[j]] + before.pool[j + 1..];
    }
  }

  lemma {:induction false} PoolDistinct<T(!new)>(s: seq<T>, js: seq<nat>)
    requires DrawVector(|s|, js) && Distinct(s)
    ensures Distinct(Selection(s, js).pool)
  {
    if js != [] {
      PoolDistinct(s, js[..|js| - 1]);
    }
  }

  lemma {:induction false} Chosen<T>(s: seq<T>, js: seq<nat>, u: nat)
    requires DrawVector(|s|, js) && u < |js|
    ensures Selection(s, js).out[u] == Selection(s, js[..u]).pool[js[u]]
    decreases |js|
  {
    var t := |js| - 1;
    if u < t {
      Chosen(s, js[..t], u);
      assert js[..t][..u] == js[..u];
    }
  }

  lemma {:induction false} SampleIsInjective<T(!new)>(s: seq<T>, a: seq<nat>, b: seq<nat>, u: nat)
    requires DrawVector(|s|, a) && DrawVector(|s|, b) && |a| == |b| && Distinct(s)
    requires Selection(s, a).out == Selection(s, b).out && u <= |a|
    ensures a[..u] == b[..u]
    decreases u
  {
    hide Selection;
    if u > 0 {
      SampleIsInjective(s, a, b, u - 1);
      Chosen(s, a, u - 1);
      Chosen(s, b, u - 1);
      PoolDistinct(s, a[..u - 1]);
    }
  }

  lemma StillThere<T>(all: multiset<T>, r: Picked<T>, x: T) returns (j: nat)
    requires multiset(r.out) + multiset(r.pool) == all && multiset(r.out + [x]) <= all
    ensures j < |r.pool| && r.pool[j] == x
  {
    assert multiset(r.out + [x])[x] == multiset(r.out)[x] + 1;
    assert x in multiset(r.pool);
    j :| 0 <= j < |r.pool| && r.pool[j] == x;
  }

  /** The draws that select a given list. */
  lemma {:induction false} DrawsFor<T(!new)>(s: seq<T>, wanted: seq<T>) returns (js: seq<nat>)
    requires multiset(wanted) <= multiset(s)
    ensures DrawVector(|s|, js) && |js| == |wanted| && Selection(s, js).out == wanted
    decreases |wanted|
  {
    if wanted == [] {
      js := [];
    } else {
      hide Selection;
      var n := |wanted| - 1;
      assert wanted == wanted[..n] + [wanted[n]];
      var a := DrawsFor(s, wanted[..n]);
      var r := Selection(s, a);
      SelectionConserves(s, a);
      var j := StillThere(multiset(s), r, wanted[n]);
      SelectionStep(s, a, j);
      js := a + [j];
    }
  }

  ghost predicate Selects<T>(s: seq<T>, js: seq<nat>, wanted: seq<T>) {
    DrawVector(|s|, js) && |js| == |wanted| && Selection(s, js).out == wanted
  }

  /** Vectors of k draws and ordered k-selections from a list without repetitions correspond one to one. */
  lemma SampleIsABijection<T(!new)>(s: seq<T>)
    requires Distinct(s)
    ensures forall js | DrawVector(|s|, js) :: multiset(Selection(s, js).out) <= multiset(s)
    ensures forall wanted | multiset(wanted) <= multiset(s) :: exists js :: Selects(s, js, wanted)
    ensures forall wanted, a, b | Selects(s, a, wanted) && Selects(s, b, wanted) :: a == b
  {
    hide Selection, Distinct;
    forall js | DrawVector(|s|, js) ensures multiset(Selection(s, js).out) <= multiset(s) {
      SelectionConserves(s, js);
    }
    forall wanted | multiset(wanted) <= multiset(s) ensures exists js :: Selects(s, js, wanted) {
      var js := DrawsFor(s, wanted);
      assert Selects(s, js, wanted);
    }
    forall wanted, a, b | Selects(s, a, wanted) && Selects(s, b, wanted) ensures a == b {
      SampleIsInjective(s, a, b, |a|);
      assert a[..|a|] == a && b[..|b|] == b;
    }
  }
}
