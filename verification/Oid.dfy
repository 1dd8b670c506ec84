/**
 Object identifiers: dotted text to DER content and back.

 Turning the text of an arc into a number and showing a number are parameters, because both go through
 doubles; an arc of arbitrary input is collected exactly and rounded only when it is shown.
 */
module Oids {
  import opened Bytes
  import opened Wrappers
  import opened Canonical
  import opened Splitting
  import opened Der

  const DOT: CodeUnit := 0x2e

  function High(n: nat): (b: Octets)
    ensures forall i | 0 <= i < |b| :: b[i] >= 0x80
    ensures n > 0 ==> b != [] && b[0] > 0x80
  {
    if n == 0 then [] else High(n / 128) + [0x80 + n % 128]
  }

  /** One arc, seven bits a byte, the high bit on all but the last. */
  function ArcOctets(n: nat): Octets {
    High(n / 128) + [n % 128]
  }

  function ArcsOctets(arcs: seq<nat>): Octets {
    if arcs == [] then [] else ArcOctets(arcs[0]) + ArcsOctets(arcs[1..])
  }

  /** The first complaint; `number` is `Number` followed by the test for a safe natural number. */
  function OidError(number: Text -> Option<nat>, text: Text): Option<DerError> {
    var parts := Split(text, DOT);
    if exists i | 0 <= i < |parts| :: number(parts[i]).None? then Some(BadArc)
    else if |parts| < 2 then Some(TooFewArcs)
    else if number(parts[0]).value > 2 || (number(parts[0]).value < 2 && number(parts[1]).value >= 40) then
      Some(InvalidPrefix)
    else None
  }

  /** The arcs that an accepted text names. */
  function Arcs(number: Text -> Option<nat>, text: Text): (arcs: seq<nat>)
    requires forall i | 0 <= i < |Split(text, DOT)| :: number(Split(text, DOT)[i]).Some?
    ensures |arcs| == |Split(text, DOT)|
  {
    var parts := Split(text, DOT);
    seq(|parts|, i requires 0 <= i < |parts| => number(parts[i]).value)
  }

  /** The double nearest to n, which is at most 2^54: beyond 2^53 only even numbers are doubles, and a tie
      goes to the multiple of four. */
  function Nearest(n: nat): nat {
    if n <= MAX_SAFE || n % 2 == 0 then n else if n % 4 == 1 then n - 1 else n + 1
  }

  /** The first two arcs share a byte, which `Buffer.from` truncates to eight bits. */
  function OidContent(arcs: seq<nat>): Octets
    requires |arcs| >= 2
  {
    [Nearest(arcs[0] * 40 + arcs[1]) % 0x100] + ArcsOctets(arcs[2..])
  }

  predicate AllNumbers(number: Text -> Option<nat>, parts: seq<Text>) {
    forall i | 0 <= i < |parts| :: number(parts[i]).Some?
  }

  predicate GoodPrefix(first: nat, second: nat) {
    first == 2 || (first <= 1 && second <= 39)
  }

  method DerOid(number: Text -> Option<nat>, text: Text) returns (r: Result<Octets, DerError>)
    ensures r.Err? ==> OidError(number, text) == Some(r.error)
    ensures r.Ok? ==> OidError(number, text).None? && r.value == Encode(Primitive(OID, OidContent(Arcs(number, text))))
    ensures var parts := Split(text, DOT); var good := AllNumbers(number, parts);
      && (r == Err(BadArc) <==> !good)
      && (r == Err(TooFewArcs) <==> good && |parts| < 2)
      && (r == Err(InvalidPrefix) <==>
        good && |parts| >= 2 && !GoodPrefix(number(parts[0]).value, number(parts[1]).value))
      && (r.Ok? <==> good && |parts| >= 2 && GoodPrefix(number(parts[0]).value, number(parts[1]).value))
  {
    hide ArcOctets, DerEncode, Split;
    var parts := Split(text, DOT);
    var arcs: seq<nat> := [];
    for i := 0 to |parts|
      invariant |arcs| == i && forall j | 0 <= j < i :: number(parts[j]) == Some(arcs[j])
    {
      if number(parts[i]).None? {
        return Err(BadArc);
      }
      arcs := arcs + [number(parts[i]).value];
    }
    if |arcs| < 2 {
      return Err(TooFewArcs);
    }
    var first, second := arcs[0], arcs[1];
    if first > 2 || (first < 2 && second >= 40) {
      return Err(InvalidPrefix);
    }
    assert arcs == Arcs(number, text);
    var bytes: Octets := [Nearest(first * 40 + second) % 0x100];
    ghost var lead := bytes;
    for i := 2 to |arcs|
      invariant bytes + ArcsOctets(arcs[i..]) == lead + ArcsOctets(arcs[2..])
    {
      var chunk := EncodeArc(arcs[i]);
      assert arcs[i..][1..] == arcs[i + 1..];
      assert bytes + (chunk + ArcsOctets(arcs[i + 1..])) == bytes + chunk + ArcsOctets(arcs[i + 1..]);
      bytes := bytes + chunk;
    }
    assert bytes + [] == bytes;
    return Ok(DerEncode(OID, bytes));
  }

  lemma HighStep(n: nat, chunk: Octets)
    requires n > 0
    ensures High(n) + chunk == High(n / 128) + ([0x80 + n % 128] + chunk)
  {
    hide High;
    HighUnfolds(n);
    Regrouped(High(n / 128), [0x80 + n % 128], chunk);
  }

  lemma HighUnfolds(n: nat)
    requires n > 0
    ensures High(n) == High(n / 128) + [0x80 + n % 128]
  {}

  method EncodeArc(arc: nat) returns (chunk: Octets)
    ensures chunk == ArcOctets(arc)
  {
    if arc == 0 {
      return [0];
    }
    hide High;
    chunk := [];
    var n := arc;
    while n > 0
      invariant n >= 0
      invariant chunk == [] ==> n == arc
      invariant chunk != [] ==> High(n) + chunk == ArcOctets(arc)
    {
      if chunk == [] {
        assert [n % 128] + chunk == [n % 128];
      } else {
        HighStep(n, chunk);
      }
      chunk := [n % 128 + if chunk != [] then 0x80 else 0] + chunk;
      n := n / 128;
    }
    assert High(0) + chunk == chunk;
  }

  /** The arcs read from b when `acc` has been collected of the first. */
  function ReadArcs(b: Octets, acc: nat): Result<seq<nat>, DerError> {
    if b == [] then if acc != 0 then Err(EndsMidArc) else Ok([])
    else
      var a := acc * 128 + b[0] % 128;
      if b[0] < 0x80 then
        var rest := ReadArcs(b[1..], 0);
        if rest.Err? then rest else Ok([a] + rest.value)
      else ReadArcs(b[1..], a)
  }

  /** The arcs of a node, before they are shown. */
  function ReadOid(node: Node): Result<seq<nat>, DerError> {
    if node.tag != OID then Err(UnexpectedTag)
    else if node.value == [] then Err(EmptyOid)
    else
      var rest := ReadArcs(node.value[1..], 0);
      if rest.Err? then rest else Ok([node.value[0] / 40, node.value[0] % 40] + rest.value)
  }

  /** The text that is read: the arcs shown and joined with dots.  `show(n)` is the text of the double that
      collecting the exact value n ends in. */
  function OidText(show: nat -> Text, node: Node): Result<Text, DerError> {
    var arcs := ReadOid(node);
    if arcs.Err? then Err(arcs.error) else Ok(Dotted(show, arcs.value))
  }

  function Dotted(show: nat -> Text, arcs: seq<nat>): Text {
    Join(Shown(show, arcs), DOT)
  }

  function Shown(show: nat -> Text, arcs: seq<nat>): (parts: seq<Text>)
    ensures |parts| == |arcs|
  {
    seq(|arcs|, i requires 0 <= i < |arcs| => show(arcs[i]))
  }

  function Joined(arcs: seq<nat>, r: Result<seq<nat>, DerError>): Result<seq<nat>, DerError> {
    if r.Err? then r else Ok(arcs + r.value)
  }

  method DecodeOid(show: nat -> Text, node: Node) returns (r: Result<Text, DerError>)
    ensures r == OidText(show, node)
    ensures r == Err(UnexpectedTag) <==> node.tag != 6
    ensures r == Err(EmptyOid) <==> node.tag == 6 && node.value == []
  {
    if node.tag != OID {
      return Err(UnexpectedTag);
    }
    var b := node.value;
    if |b| == 0 {
      return Err(EmptyOid);
    }
    var arcs: seq<nat> := [b[0] / 40, b[0] % 40];
    var acc: nat := 0;
    for i := 1 to |b|
      invariant Joined(arcs, ReadArcs(b[i..], acc)) == ReadOid(node)
    {
      assert b[i..][1..] == b[i + 1..];
      acc := acc * 128 + b[i] % 128;
      if b[i] < 0x80 {
        JoinOne(arcs, acc, ReadArcs(b[i + 1..], 0));
        arcs := arcs + [acc];
        acc := 0;
      }
    }
    if acc != 0 {
      return Err(EndsMidArc);
    }
    assert arcs + [] == arcs;
    return Ok(Dotted(show, arcs));
  }

  lemma JoinOne(arcs: seq<nat>, a: nat, r: Result<seq<nat>, DerError>)
    ensures Joined(arcs + [a], r) == Joined(arcs, Joined([a], r))
  {
    if r.Ok? {
      assert arcs + [a] + r.value == arcs + ([a] + r.value);
    }
  }

  lemma {:induction false} ReadHigh(n: nat, b: Octets)
    ensures ReadArcs(High(n) + b, 0) == ReadArcs(b, n)
  {
    if n == 0 {
      assert High(0) + b == b;
    } else {
      var x: Octet := 0x80 + n % 128;
      assert High(n) + b == High(n / 128) + ([x] + b);
      ReadHigh(n / 128, [x] + b);
      assert ([x] + b)[1..] == b;
      assert n / 128 * 128 + n % 128 == n;
    }
  }

  lemma {:induction false} ReadWrittenArcs(arcs: seq<nat>)
    ensures ReadArcs(ArcsOctets(arcs), 0) == Ok(arcs)
  {
    hide High;
    if arcs != [] {
      var n, rest := arcs[0], ArcsOctets(arcs[1..]);
      var b := [n % 128] + rest;
      assert ArcsOctets(arcs) == High(n / 128) + b;
      ReadHigh(n / 128, b);
      assert b[1..] == rest;
      ReadWrittenArcs(arcs[1..]);
      assert [arcs[0]] + arcs[1..] == arcs;
    }
  }

  // ---------- round trip ----------

  /** Numbers are safe and decimal text is the number that it says. */
  ghost predicate Numbers(number: Text -> Option<nat>) {
    && (forall t | number(t).Some? :: number(t).value <= MAX_SAFE)
    && forall n: nat | n <= MAX_SAFE :: number(Decimal(n)) == Some(n)
  }

  /** Safe numbers are shown in decimal. */
  ghost predicate Shows(show: nat -> Text) {
    forall n: nat | n <= MAX_SAFE :: show(n) == Decimal(n)
  }

  /** Reading and showing plain decimal text meets both assumptions. */
  function PlainNumber(t: Text): Option<nat> {
    if (forall i | 0 <= i < |t| :: IsDigit(t[i])) && Canonical.Horner(t, 0) <= MAX_SAFE then
      Some(Canonical.Horner(t, 0))
    else None
  }

  lemma PlainTextWorks()
    ensures Numbers(PlainNumber) && Shows(Decimal)
  {
    hide Decimal, Canonical.Horner;
    forall n: nat | n <= MAX_SAFE ensures PlainNumber(Decimal(n)) == Some(n) {
      HornerDecimal(n);
    }
  }

  /** The arcs that come back: all but the first two always, those exactly when the second is below 40. */
  lemma ArcsComeBack(arcs: seq<nat>, start: nat)
    requires |arcs| >= 2 && arcs[0] <= 2 && (arcs[0] == 2 || arcs[1] < 40)
    ensures var b := OidContent(arcs)[0];
      ReadOid(NodeOf(Primitive(OID, OidContent(arcs)), start)) == Ok([b / 40, b % 40] + arcs[2..])
    ensures var b := OidContent(arcs)[0]; [b / 40, b % 40] + arcs[2..] == arcs <==> arcs[1] < 40
  {
    hide ReadArcs, ArcsOctets, DerEncode;
    var b := OidContent(arcs)[0];
    ReadWrittenArcs(arcs[2..]);
    assert OidContent(arcs)[1..] == ArcsOctets(arcs[2..]);
    assert b % 40 < 40;
    assert [arcs[0], arcs[1]] + arcs[2..] == arcs;
    if arcs[1] < 40 {
      assert b == arcs[0] * 40 + arcs[1];
    } else {
      assert ([b / 40, b % 40] + arcs[2..])[1] == b % 40;
    }
  }

  lemma SplitDotted(show: nat -> Text, arcs: seq<nat>)
    requires Shows(show) && arcs != [] && forall i | 0 <= i < |arcs| :: arcs[i] <= MAX_SAFE
    ensures Split(Dotted(show, arcs), DOT) == Shown(show, arcs)
  {
    hide Decimal, Split, Join;
    SplitJoin(Shown(show, arcs), DOT);
  }

  /** An accepted identifier survives the trip exactly when its second arc is below 40 and its text is the
      plain decimal one. */
  lemma OidRoundTrip(number: Text -> Option<nat>, show: nat -> Text, text: Text, start: nat)
    requires Numbers(number) && Shows(show) && OidError(number, text).None?
    ensures var arcs := Arcs(number, text);
      OidText(show, NodeOf(Primitive(OID, OidContent(arcs)), start)) == Ok(text) <==>
        arcs[1] < 40 && text == Dotted(Decimal, arcs)
  {
    hide ReadArcs, ArcsOctets, DerEncode, Split, Join, Decimal, ReadOid, NodeOf, Nearest;
    var arcs := Arcs(number, text);
    ArcsComeBack(arcs, start);
    var b := OidContent(arcs)[0];
    var back := [b / 40, b % 40] + arcs[2..];
    assert forall i | 0 <= i < |arcs| :: arcs[i] == number(Split(text, DOT)[i]).value;
    assert forall i | 0 <= i < |back| :: back[i] <= MAX_SAFE;
    assert Shown(show, back) == Shown(Decimal, back);
    if text == Dotted(show, back) {
      SplitDotted(show, back);
      assert forall i | 0 <= i < |arcs| :: Split(text, DOT)[i] == Decimal(back[i]);
      assert arcs == back;
    }
  }

  /** "2.48" is accepted and read back as "3.8". */
  lemma SecondArcOf48(number: Text -> Option<nat>, show: nat -> Text, start: nat)
    requires Numbers(number) && Shows(show)
    ensures var text := Dotted(Decimal, [2, 48]);
      && OidError(number, text).None? && Arcs(number, text) == [2, 48]
      && OidText(show, NodeOf(Primitive(OID, OidContent([2, 48])), start)) == Ok(Dotted(Decimal, [3, 8]))
  {
    hide DerEncode, Split, Join, Decimal, ReadOid, NodeOf;
    SplitDotted(Decimal, [2, 48]);
    ArcsComeBack([2, 48], start);
    assert OidContent([2, 48])[0] == 128;
    assert [3, 8] + [2, 48][2..] == [3, 8];
    assert Shown(show, [3, 8]) == Shown(Decimal, [3, 8]);
  }
}
