/**
 The DER encoder and decoder (X.690): lengths, integers and trees of values.

 The bit operations are written as arithmetic on octets: `b & 0x1f` is `b % 32`, `b & 0x20` is bit five,
 `b & 0x7f` is `b % 128`, `b & 0x80` is `b >= 128`, and `n >>>= 8` is the quotient of n modulo 2^32.
 */
module Der {
  import opened Bytes
  import opened Wrappers

  type Octets = seq<Octet>

  const WORD := 0x1_0000_0000
  const MAX_SAFE := 0x1f_ffff_ffff_ffff

  const INTEGER: Octet := 0x02
  const OID: Octet := 0x06

  datatype DerError =
    | NegativeLength | LengthTooLarge | UnsupportedInteger | BadArc | TooFewArcs | InvalidPrefix
    | NoTagByte | MultiByteTag | NoLengthByte | IndefiniteLength | LengthOverFourBytes | TruncatedLength
    | TruncatedValue | UnexpectedTag | EmptyOid | EndsMidArc | IntegerTooLarge

  // ---------- base 256 ----------

  /** Big-endian digits without leading zeros. */
  function Big(n: nat): (b: Octets)
    ensures n == 0 <==> b == []
    ensures n > 0 ==> b[0] > 0
  {
    if n == 0 then [] else Big(n / 256) + [n % 256]
  }

  function Horner(b: Octets, acc: nat): nat {
    if b == [] then acc else Horner(b[1..], acc * 256 + b[0])
  }

  lemma {:induction false} HornerLast(b: Octets, x: Octet, acc: nat)
    ensures Horner(b + [x], acc) == Horner(b, acc) * 256 + x
  {
    if b == [] {
      assert (b + [x])[1..] == [];
    } else {
      assert (b + [x])[1..] == b[1..] + [x];
      HornerLast(b[1..], x, acc * 256 + b[0]);
    }
  }

  lemma {:induction false} HornerBig(n: nat)
    ensures Horner(Big(n), 0) == n
  {
    if n > 0 {
      HornerBig(n / 256);
      HornerLast(Big(n / 256), n % 256, 0);
    }
  }

  function Power256(k: nat): (p: nat)
    ensures p > 0
  {
    if k == 0 then 1 else 256 * Power256(k - 1)
  }

  /** How many digits a number has. */
  lemma {:induction false} BigLength(n: nat, k: nat)
    ensures |Big(n)| <= k <==> n < Power256(k)
  {
    if k > 0 && n > 0 {
      BigLength(n / 256, k - 1);
    }
  }

  // ---------- lengths ----------

  /** The digits that the loop collects: the shift keeps only 32 bits. */
  function LengthDigits(len: nat): (b: Octets)
    requires len > 0
    ensures 1 <= |b| <= 4
  {
    var n := (len % WORD) / 256;
    BigLength(n, 3);
    assert Power256(3) == 0x100_0000;
    Big(n) + [len % 256]
  }

  function LengthOctets(len: nat): (b: Octets)
    ensures 1 <= |b| <= 5
  {
    if len < 0x80 then [len] else [0x80 + |LengthDigits(len)|] + LengthDigits(len)
  }

  lemma LengthStart(len: nat)
    requires len > 0
    ensures (len % WORD) / 256 < 0x100_0000 && LengthDigits(len) == Big((len % WORD) / 256) + [len % 256]
  {}

  lemma BigStep(n: nat, bytes: Octets)
    requires n > 0
    ensures Big(n) + bytes == Big(n / 256) + ([n % 256] + bytes)
  {
    hide Big;
    BigUnfolds(n);
    Regrouped(Big(n / 256), [n % 256], bytes);
  }

  lemma BigUnfolds(n: nat)
    requires n > 0
    ensures Big(n) == Big(n / 256) + [n % 256]
  {}

  lemma Regrouped(a: Octets, b: Octets, c: Octets)
    ensures a + b + c == a + (b + c)
  {}

  method EncodeLength(len: int) returns (r: Result<Octets, DerError>)
    ensures len < 0 ==> r == Err(NegativeLength)
    ensures len >= 0 ==> r == Ok(LengthOctets(len))
  {
    if len < 0 {
      return Err(NegativeLength);
    }
    if len < 0x80 {
      return Ok([len]);
    }
    hide Big, LengthDigits;
    var bytes: Octets := [];
    var n := len;
    while n > 0
      invariant n >= 0
      invariant bytes == [] ==> n == len
      invariant bytes != [] ==> n < 0x100_0000 && Big(n) + bytes == LengthDigits(len)
      decreases n
    {
      if bytes == [] {
        LengthStart(len);
        assert [n % 256] + bytes == [n % 256];
      } else {
        BigStep(n, bytes);
        assert n % WORD == n;
      }
      bytes := [n % 256] + bytes;
      n := (n % WORD) / 256;
    }
    assert Big(0) + bytes == bytes;
    if |bytes| > 4 {
      return Err(LengthTooLarge);
    }
    r := Ok([0x80 + |bytes|] + bytes);
  }

  datatype Length = Length(len: nat, next: nat)

  /** Reads a length at offset p. */
  function ReadLength(buf: Octets, p: nat): (r: Result<Length, DerError>)
    ensures r.Ok? ==> p < r.value.next <= |buf|
  {
    if p >= |buf| then Err(NoLengthByte)
    else if buf[p] < 0x80 then Ok(Length(buf[p], p + 1))
    else
      var n := buf[p] % 128;
      if n == 0 then Err(IndefiniteLength)
      else if n > 4 then Err(LengthOverFourBytes)
      else if p + 1 + n > |buf| then Err(TruncatedLength)
      else Ok(Length(Horner(buf[p + 1..p + 1 + n], 0), p + 1 + n))
  }

  lemma LengthDigitsMeaning(len: nat)
    requires len > 0
    ensures Horner(LengthDigits(len), 0) == len % WORD
  {
    hide Horner, Big, LengthDigits;
    var n := (len % WORD) / 256;
    LengthStart(len);
    HornerBig(n);
    HornerLast(Big(n), len % 256, 0);
    LowByte(len);
  }

  lemma LowByte(len: nat)
    ensures (len % WORD) / 256 * 256 + len % 256 == len % WORD
  {
    assert len == len / WORD * WORD + len % WORD;
  }

  /** A written length is read back modulo 2^32. */
  lemma LengthIsReadBack(pre: Octets, len: nat, post: Octets)
    ensures ReadLength(pre + LengthOctets(len) + post, |pre|) == Ok(Length(len % WORD, |pre| + |LengthOctets(len)|))
  {
    hide Horner, LengthDigits;
    var buf, p := pre + LengthOctets(len) + post, |pre|;
    if len >= 0x80 {
      var d := LengthDigits(len);
      LengthDigitsMeaning(len);
      assert buf[p] == 0x80 + |d|;
      assert buf[p + 1..p + 1 + |d|] == d;
    }
  }

  /** So it survives exactly when it is below 2^32. */
  lemma LengthRoundTrip(len: nat)
    ensures ReadLength(LengthOctets(len), 0) == Ok(Length(len, |LengthOctets(len)|)) <==> len < WORD
  {
    hide ReadLength, LengthOctets;
    LengthIsReadBack([], len, []);
    assert [] + LengthOctets(len) + [] == LengthOctets(len);
  }

  // ---------- values ----------

  function DerEncode(tag: Octet, content: Octets): (b: Octets)
    ensures |b| == 1 + |LengthOctets(|content|)| + |content|
  {
    [tag] + LengthOctets(|content|) + content
  }

  /** A decoded value; `children` is present exactly for constructed tags. */
  datatype Node = Node(tag: Octet, start: nat, end: nat, value: Octets, raw: Octets, children: Children)
  datatype Children = NoChildren | Nodes(nodes: seq<Node>)

  predicate IsConstructed(tag: Octet) {
    (tag / 32) % 2 == 1
  }

  predicate IsShortTag(tag: Octet) {
    tag % 32 != 31
  }

  function DerDecode(buf: Octets, offset: nat): (r: Result<Node, DerError>)
    ensures r.Ok? ==> offset + 2 <= r.value.end <= |buf|
    decreases |buf|, if offset <= |buf| then |buf| - offset else 0, 0
  {
    if offset >= |buf| then Err(NoTagByte)
    else if !IsShortTag(buf[offset]) then Err(MultiByteTag)
    else
      var tag := buf[offset];
      var l := ReadLength(buf, offset + 1);
      if l.Err? then Err(l.error)
      else
        var p, end := l.value.next, l.value.next + l.value.len;
        if end > |buf| then Err(TruncatedValue)
        else
          var value := buf[p..end];
          if !IsConstructed(tag) then Ok(Node(tag, offset, end, value, buf[offset..end], NoChildren))
          else
            var children := DerDecodeFrom(value, 0);
            if children.Err? then Err(children.error)
            else Ok(Node(tag, offset, end, value, buf[offset..end], Nodes(children.value)))
  }

  /** The values from `offset` to the end of the buffer. */
  function DerDecodeFrom(buf: Octets, offset: nat): (r: Result<seq<Node>, DerError>)
    decreases |buf|, if offset <= |buf| then |buf| - offset else 0, 1
  {
    if offset >= |buf| then Ok([])
    else
      var node := DerDecode(buf, offset);
      if node.Err? then Err(node.error)
      else
        var rest := DerDecodeFrom(buf, node.value.end);
        if rest.Err? then rest else Ok([node.value] + rest.value)
  }

  method Decode(buf: Octets, offset: nat) returns (r: Result<Node, DerError>)
    ensures r == DerDecode(buf, offset)
    ensures offset >= |buf| ==> r == Err(NoTagByte)
    ensures offset < |buf| && buf[offset] % 32 == 31 ==> r == Err(MultiByteTag)
    ensures r.Ok? ==> offset < |buf| && buf[offset] % 32 != 31 && r.value.tag == buf[offset] && r.value.start == offset
    ensures r.Ok? ==> offset < r.value.end <= |buf| && r.value.raw == buf[offset..r.value.end]
    ensures r.Ok? ==> (r.value.children.Nodes? <==> buf[offset] / 32 % 2 == 1)
    ensures r.Ok? ==> Spans(buf, offset + 1, r.value.value, r.value.end)
    ensures offset < |buf| && buf[offset] % 32 != 31 && buf[offset] / 32 % 2 == 0 ==>
      (r.Ok? <==> Fits(buf, offset + 1))
    decreases |buf|, 0
  {
    OnlySpan(buf, offset + 1);
    if offset >= |buf| {
      return Err(NoTagByte);
    }
    var tag := buf[offset];
    if !IsShortTag(tag) {
      return Err(MultiByteTag);
    }
    var l := DecodeLength(buf, offset + 1);
    if l.Err? {
      return Err(l.error);
    }
    var p, end := l.value.next, l.value.next + l.value.len;
    if end > |buf| {
      return Err(TruncatedValue);
    }
    var value := buf[p..end];
    var node := Node(tag, offset, end, value, buf[offset..end], NoChildren);
    if IsConstructed(tag) {
      var children := DecodeSeq(value);
      if children.Err? {
        return Err(children.error);
      }
      node := node.(children := Nodes(children.value));
    }
    return Ok(node);
  }

  /** The length at p announces exactly the bytes `v`, which end at `end`. */
  ghost predicate Spans(buf: Octets, p: nat, v: Octets, end: nat) {
    ReadLength(buf, p).Ok?
    && var l := ReadLength(buf, p).value;
    end == l.next + l.len && end <= |buf| && v == buf[l.next..end]
  }

  /** There are as many bytes as the length announces. */
  ghost predicate Fits(buf: Octets, p: nat) {
    exists v, end: nat :: Spans(buf, p, v, end)
  }

  lemma OnlySpan(buf: Octets, p: nat)
    ensures Fits(buf, p) <==>
              ReadLength(buf, p).Ok? && ReadLength(buf, p).value.next + ReadLength(buf, p).value.len <= |buf|
  {
    hide ReadLength;
    if ReadLength(buf, p).Ok? && ReadLength(buf, p).value.next + ReadLength(buf, p).value.len <= |buf| {
      var l := ReadLength(buf, p).value;
      assert Spans(buf, p, buf[l.next..l.next + l.len], l.next + l.len);
    }
  }

  method DecodeLength(buf: Octets, p: nat) returns (r: Result<Length, DerError>)
    ensures r == ReadLength(buf, p)
    ensures r == Err(NoLengthByte) <==> p >= |buf|
    ensures r == Err(IndefiniteLength) <==> p < |buf| && buf[p] == 0x80
    ensures r == Err(LengthOverFourBytes) <==> p < |buf| && buf[p] > 0x84
    ensures r == Err(TruncatedLength) <==> p < |buf| && 0x80 < buf[p] <= 0x84 && p + 1 + (buf[p] - 0x80) > |buf|
    ensures r.Ok? <==> p < |buf| && (buf[p] < 0x80 || (0x80 < buf[p] <= 0x84 && p + 1 + (buf[p] - 0x80) <= |buf|))
    ensures r.Ok? && buf[p] < 0x80 ==> r.value == Length(buf[p], p + 1)
    ensures r.Ok? && buf[p] == 0x81 ==> r.value == Length(buf[p + 1], p + 2)
    ensures r.Ok? && buf[p] == 0x82 ==> r.value == Length(TwoDigits(buf[p + 1], buf[p + 2]), p + 3)
    ensures r.Ok? && buf[p] >= 0x83 ==> r.value.next == p + 1 + (buf[p] - 0x80)
  {
    if p >= |buf| {
      return Err(NoLengthByte);
    }
    var first := buf[p];
    if first < 0x80 {
      return Ok(Length(first, p + 1));
    }
    var n := first % 128;
    if n == 0 {
      return Err(IndefiniteLength);
    }
    if n > 4 {
      return Err(LengthOverFourBytes);
    }
    if p + 1 + n > |buf| {
      return Err(TruncatedLength);
    }
    var len: nat := 0;
    for i := 0 to n
      invariant Horner(buf[p + 1 + i..p + 1 + n], len) == Horner(buf[p + 1..p + 1 + n], 0)
    {
      assert buf[p + 1 + i..p + 1 + n][1..] == buf[p + 1 + (i + 1)..p + 1 + n];
      len := len * 256 + buf[p + 1 + i];
    }
    if n <= 2 {
      SmallHorner(buf[p + 1..p + 1 + n]);
    }
    return Ok(Length(len, p + 1 + n));
  }

  function TwoDigits(high: Octet, low: Octet): nat {
    var n: nat := high;
    n * 0x100 + low
  }

  lemma SmallHorner(b: Octets)
    requires |b| == 1 || |b| == 2
    ensures |b| == 1 ==> Horner(b, 0) == b[0]
    ensures |b| == 2 ==> Horner(b, 0) == TwoDigits(b[0], b[1])
  {
    if |b| == 2 {
      var first: nat := b[0];
      assert Horner(b, 0) == Horner(b[1..], first);
      assert b[1..][1..] == [];
      assert Horner(b[1..], first) == first * 256 + b[1];
    } else {
      assert b[1..] == [];
    }
  }

  method DecodeSeq(buf: Octets) returns (r: Result<seq<Node>, DerError>)
    ensures r == DerDecodeFrom(buf, 0)
    decreases |buf|, 1
  {
    var out: seq<Node> := [];
    var offset := 0;
    PrependNothing(DerDecodeFrom(buf, 0));
    while offset < |buf|
      invariant offset >= 0
      invariant DerDecodeFrom(buf, 0) == Prepended(out, DerDecodeFrom(buf, offset))
      decreases |buf| - offset
    {
      var node := Decode(buf, offset);
      if node.Err? {
        return Err(node.error);
      }
      PrependOne(out, node.value, DerDecodeFrom(buf, node.value.end));
      out := out + [node.value];
      offset := node.value.end;
    }
    assert out + [] == out;
    return Ok(out);
  }

  lemma PrependNothing(r: Result<seq<Node>, DerError>)
    ensures Prepended([], r) == r
  {
    if r.Ok? {
      assert [] + r.value == r.value;
    }
  }

  lemma PrependOne(out: seq<Node>, node: Node, r: Result<seq<Node>, DerError>)
    ensures Prepended(out + [node], r) == Prepended(out, Prepended([node], r))
  {
    if r.Ok? {
      assert out + [node] + r.value == out + ([node] + r.value);
    }
  }

  function Prepended(out: seq<Node>, r: Result<seq<Node>, DerError>): Result<seq<Node>, DerError> {
    if r.Err? then r else Ok(out + r.value)
  }

  // ---------- trees ----------

  /** What a caller builds with the encoders. */
  datatype Tree = Primitive(tag: Octet, content: Octets) | Constructed(tag: Octet, items: seq<Tree>)

  function Content(t: Tree): Octets
    decreases t, 0
  {
    match t
    case Primitive(_, content) => content
    case Constructed(_, items) => EncodeAll(items)
  }

  function Encode(t: Tree): Octets
    decreases t, 1
  {
    DerEncode(t.tag, Content(t))
  }

  function EncodeAll(items: seq<Tree>): Octets
    decreases items, 0
  {
    if items == [] then [] else Encode(items[0]) + EncodeAll(items[1..])
  }

  /** The tree with the positions of its parts, starting at `start`. */
  function NodeOf(t: Tree, start: nat): (n: Node)
    ensures n.end == start + |Encode(t)|
    decreases t, 1
  {
    Node(t.tag, start, start + |Encode(t)|, Content(t), Encode(t),
         if t.Primitive? then NoChildren else Nodes(NodesOf(t.items, 0)))
  }

  function NodesOf(items: seq<Tree>, start: nat): (ns: seq<Node>)
    ensures |ns| == |items|
    decreases items, 0
  {
    if items == [] then [] else [NodeOf(items[0], start)] + NodesOf(items[1..], start + |Encode(items[0])|)
  }

  /** Single-byte tags that tell containers from values, and contents below 4 GiB. */
  predicate Encodable(t: Tree)
    decreases t, 0
  {
    && IsShortTag(t.tag) && (IsConstructed(t.tag) <==> t.Constructed?) && |Content(t)| < WORD
    && (t.Constructed? ==> AllEncodable(t.items))
  }

  predicate AllEncodable(items: seq<Tree>)
    decreases items, 0
  {
    items == [] || (Encodable(items[0]) && AllEncodable(items[1..]))
  }

  /** The header of an encoded value, wherever it stands. */
  lemma HeaderIsReadBack(pre: Octets, tag: Octet, content: Octets, post: Octets)
    ensures var buf := pre + DerEncode(tag, content) + post;
      && buf[|pre|] == tag
      && ReadLength(buf, |pre| + 1) == Ok(Length(|content| % WORD, |pre| + 1 + |LengthOctets(|content|)|))
  {
    hide ReadLength, LengthOctets;
    var l := LengthOctets(|content|);
    var buf := pre + DerEncode(tag, content) + post;
    assert (pre + [tag]) + l + (content + post) == buf;
    LengthIsReadBack(pre + [tag], |content|, content + post);
  }

  lemma EncodedParts(pre: Octets, tag: Octet, content: Octets, post: Octets)
    ensures var buf := pre + DerEncode(tag, content) + post; var p := |pre| + 1 + |LengthOctets(|content|)|;
      && p + |content| == |pre| + |DerEncode(tag, content)| <= |buf|
      && buf[p..p + |content|] == content && buf[|pre|..p + |content|] == DerEncode(tag, content)
  {
    hide LengthOctets;
    var l := LengthOctets(|content|);
    var buf := pre + DerEncode(tag, content) + post;
    assert buf == (pre + [tag] + l) + content + post;
  }

  /** Decoding gives a tree back exactly when its tags and lengths fit the format. */
  lemma {:induction false} DecodeEncoded(t: Tree, pre: Octets, post: Octets)
    ensures DerDecode(pre + Encode(t) + post, |pre|) == Ok(NodeOf(t, |pre|)) <==> Encodable(t)
    decreases t, 1
  {
    hide ReadLength, LengthOctets, IsShortTag, IsConstructed, EncodeAll, NodesOf, AllEncodable, DerDecodeFrom;
    var content := Content(t);
    var buf := pre + Encode(t) + post;
    HeaderIsReadBack(pre, t.tag, content, post);
    EncodedParts(pre, t.tag, content, post);
    if |content| >= WORD {
      assert |content| % WORD < |content|;
    } else {
      assert |content| % WORD == |content|;
      if t.Constructed? {
        DecodeAllEncoded(t.items, []);
        assert [] + EncodeAll(t.items) == content;
      }
    }
  }

  lemma {:induction false} DecodeAllEncoded(items: seq<Tree>, pre: Octets)
    ensures DerDecodeFrom(pre + EncodeAll(items), |pre|) == Ok(NodesOf(items, |pre|)) <==> AllEncodable(items)
    decreases items, 0
  {
    hide DerDecode, Encodable, NodeOf, DerEncode, Encode;
    if items != [] {
      var head, rest := Encode(items[0]), EncodeAll(items[1..]);
      var buf := pre + EncodeAll(items);
      assert buf == pre + head + rest == (pre + head) + rest;
      assert |head| > 0 by { EncodedLength(items[0]); }
      DecodeEncoded(items[0], pre, rest);
      DecodeAllEncoded(items[1..], pre + head);
      var first, all := DerDecode(buf, |pre|), DerDecodeFrom(buf, |pre|);
      var expected := NodesOf(items, |pre|);
      assert expected[0] == NodeOf(items[0], |pre|) && expected[1..] == NodesOf(items[1..], |pre| + |head|);
      if all == Ok(expected) {
        assert all.value[0] == first.value && all.value[1..] == DerDecodeFrom(buf, first.value.end).value;
      }
    }
  }

  lemma EncodedLength(t: Tree)
    ensures |Encode(t)| >= 2
  {}

  /** A node and, inside a container, its children cover exactly the bytes they were read from. */
  predicate Tiles(node: Node, buf: Octets)
    decreases node, 1
  {
    && node.start + 2 <= node.end <= |buf| && node.raw == buf[node.start..node.end] && node.tag == buf[node.start]
    && |node.value| <= |node.raw| - 2 && node.value == node.raw[|node.raw| - |node.value|..]
    && (node.children.Nodes? <==> IsConstructed(node.tag))
    && (node.children.Nodes? ==> TileFrom(node.children.nodes, node.value, 0))
  }

  predicate TileFrom(nodes: seq<Node>, buf: Octets, offset: nat)
    decreases nodes, 0
  {
    if nodes == [] then offset == |buf|
    else nodes[0].start == offset && Tiles(nodes[0], buf) && TileFrom(nodes[1..], buf, nodes[0].end)
  }

  /** On every byte string the decoder stops, and what it returns tiles its input. */
  lemma {:induction false} DecodedTiles(buf: Octets, offset: nat)
    requires DerDecode(buf, offset).Ok?
    ensures DerDecode(buf, offset).value.start == offset && Tiles(DerDecode(buf, offset).value, buf)
    decreases |buf|, if offset <= |buf| then |buf| - offset else 0, 0
  {
    hide ReadLength, IsConstructed, IsShortTag, DerDecodeFrom, TileFrom;
    var node := DerDecode(buf, offset).value;
    assert node.value == node.raw[|node.raw| - |node.value|..];
    if IsConstructed(node.tag) {
      SequenceTiles(node.value, 0);
    }
  }

  lemma {:induction false} SequenceTiles(buf: Octets, offset: nat)
    requires offset <= |buf| && DerDecodeFrom(buf, offset).Ok?
    ensures TileFrom(DerDecodeFrom(buf, offset).value, buf, offset)
    decreases |buf|, |buf| - offset, 1
  {
    hide DerDecode, Tiles;
    if offset < |buf| {
      DecodedTiles(buf, offset);
      SequenceTiles(buf, DerDecode(buf, offset).value.end);
    }
  }

  // ---------- integers ----------

  /** A leading zero keeps the number positive. */
  function Padded(b: Octets): (p: Octets) {
    if b != [] && b[0] >= 0x80 then [0] + b else b
  }

  function IntegerContent(value: nat): Octets {
    if value == 0 then [0] else Padded(Big(value))
  }

  method DerInteger(value: int) returns (r: Result<Octets, DerError>)
    ensures 0 <= value <= MAX_SAFE ==> r == Ok(Encode(Primitive(INTEGER, IntegerContent(value))))
    ensures !(0 <= value <= MAX_SAFE) ==> r == Err(UnsupportedInteger)
  {
    if value > MAX_SAFE || value < 0 {
      return Err(UnsupportedInteger);
    }
    if value == 0 {
      return Ok(DerEncode(INTEGER, [0]));
    }
    var bytes: Octets := [];
    var n := value;
    assert Big(value) + bytes == Big(value);
    while n > 0
      invariant n >= 0 && Big(n) + bytes == Big(value)
    {
      BigStep(n, bytes);
      bytes := [n % 256] + bytes;
      n := n / 256;
    }
    assert Big(0) + bytes == bytes;
    if bytes[0] >= 0x80 {
      bytes := [0] + bytes;
    }
    return Ok(DerEncode(INTEGER, bytes));
  }

  method DerIntegerOfBytes(value: Octets) returns (r: Octets)
    ensures r == Encode(Primitive(INTEGER, Padded(value)))
  {
    var needsPad := value != [] && value[0] >= 0x80;
    r := DerEncode(INTEGER, if needsPad then [0] + value else value);
  }

  function ReadInteger(node: Node): Result<nat, DerError> {
    if node.tag != INTEGER then Err(UnexpectedTag)
    else if |node.value| > 6 then Err(IntegerTooLarge)
    else Ok(Horner(node.value, 0))
  }

  method DecodeInteger(node: Node) returns (r: Result<nat, DerError>)
    ensures r == ReadInteger(node)
    ensures r == Err(UnexpectedTag) <==> node.tag != 2
    ensures r == Err(IntegerTooLarge) <==> node.tag == 2 && |node.value| > 6
    ensures r.Ok? <==> node.tag == 2 && |node.value| <= 6
  {
    if node.tag != INTEGER {
      return Err(UnexpectedTag);
    }
    if |node.value| > 6 {
      return Err(IntegerTooLarge);
    }
    var n: nat := 0;
    for i := 0 to |node.value|
      invariant Horner(node.value[i..], n) == Horner(node.value, 0)
    {
      assert node.value[i..][1..] == node.value[i + 1..];
      n := n * 256 + node.value[i];
    }
    return Ok(n);
  }

  lemma PaddedMeaning(b: Octets)
    ensures Horner(Padded(b), 0) == Horner(b, 0)
  {
    if b != [] && b[0] >= 0x80 {
      assert ([0] + b)[1..] == b;
    }
  }

  /** The first digit is in the upper half exactly when twice the number needs another digit. */
  lemma {:induction false} FirstDigit(n: nat, k: nat)
    requires n > 0 && |Big(n)| == k
    ensures k > 0 && (Big(n)[0] >= 0x80 <==> 2 * n >= Power256(k))
  {
    hide Big, Power256;
    BigUnfolds(n);
    FewDigits(n);
    PowerUnfolds(k);
    if k > 1 {
      FirstDigit(n / 256, k - 1);
      PowerUnfolds(k - 1);
      HalfOfMore(n, Power256(k - 1));
    }
  }

  lemma FewDigits(n: nat)
    requires n > 0
    ensures Big(n / 256) == [] <==> n < 256
  {}

  lemma PowerUnfolds(k: nat)
    requires k > 0
    ensures Power256(k) == 256 * Power256(k - 1) && (k == 1 ==> Power256(k) == 256)
  {}

  lemma HalfOfMore(n: nat, p: nat)
    requires p % 2 == 0
    ensures 2 * (n / 256) >= p <==> 2 * n >= 256 * p
  {}

  /** The content of an integer has at most six bytes exactly when the value is below 2^47. */
  lemma ContentLength(value: nat)
    ensures |IntegerContent(value)| <= 6 <==> value < 0x8000_0000_0000
  {
    assert Power256(6) == 0x1_0000_0000_0000;
    assert Power256(5) == 0x100_0000_0000;
    if value > 0 {
      BigLength(value, 6);
      BigLength(value, 5);
      FirstDigit(value, |Big(value)|);
    }
  }

  /** An integer survives the trip exactly when it is below 2^47; otherwise the decoder refuses it. */
  lemma IntegerRoundTrip(value: nat, start: nat)
    requires value <= MAX_SAFE
    ensures var r := ReadInteger(NodeOf(Primitive(INTEGER, IntegerContent(value)), start));
      && (r == Ok(value) <==> value < 0x8000_0000_0000)
      && (value >= 0x8000_0000_0000 ==> r == Err(IntegerTooLarge))
  {
    ContentLength(value);
    if value == 0 {
      assert Horner([0], 0) == Horner([], 0);
    } else {
      HornerBig(value);
      PaddedMeaning(Big(value));
    }
  }

  /** A number given as bytes, such as a nonce, is read back unless it needs more than six bytes. */
  lemma IntegerBytesRoundTrip(b: Octets, start: nat)
    ensures ReadInteger(NodeOf(Primitive(INTEGER, Padded(b)), start)) == Ok(Horner(b, 0)) <==>
            |b| + (if b != [] && b[0] >= 0x80 then 1 else 0) <= 6
  {
    PaddedMeaning(b);
  }

  // ---------- inputs that do not survive ----------

  /** A content of 4 GiB announces an empty one. */
  lemma FourGibibytesAnnounceNothing()
    ensures LengthOctets(WORD) == [0x81, 0x00] && ReadLength([0x81, 0x00], 0) == Ok(Length(0, 2))
  {
    assert LengthDigits(WORD) == [0];
    assert [0x81, 0x00][1..2] == [0];
    assert Horner([0], 0) == 0 by { assert [0][1..] == []; }
  }

  /** 2^47 needs seven bytes, one more than the decoder reads. */
  lemma TwoToThe47IsRefused(start: nat)
    ensures ReadInteger(NodeOf(Primitive(INTEGER, IntegerContent(0x8000_0000_0000)), start)) == Err(IntegerTooLarge)
  {
    hide IntegerContent, ReadInteger, NodeOf;
    IntegerRoundTrip(0x8000_0000_0000, start);
  }
}
