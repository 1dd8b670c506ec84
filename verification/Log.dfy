/**
 Records of the transparency log, what their hashes and signatures commit to, and hexadecimal.

 Hashing and signature verification are parameters: `entryDigest` is the domain-separated hash of a
 commitment text, `tree` the hash of the Merkle tree, `verify` the verification of a signature
 (domain, text, signature, public key).
 */
module Log {
  import opened Bytes
  import opened Wrappers
  import opened Canonical
  import opened Merkle

  datatype Domain = EntryDomain | CheckpointDomain

  datatype LogCrypto = LogCrypto(
    entryDigest: Text -> Digest,
    tree: Hash,
    verify: (Domain, Text, Text, Text) -> bool)

  ghost predicate ValidCrypto(c: LogCrypto) {
    IsHash(c.tree) && forall t :: |c.entryDigest(t)| == DIGEST_BYTES
  }

  datatype LogEntry = LogEntry(
    seqNo: int, ts: int, kind: Text, actor: Text, payload: Value, prevHash: Text,
    hash: Text, signature: Text, signerPublicKey: Text)

  datatype Anchor = Anchor(
    backend: Text, tsa: Text, url: Text, token: Text, genTime: int, imprint: Text, hashAlgorithm: Text)

  datatype Checkpoint = Checkpoint(
    size: int, root: Text, headHash: Text, ts: int, signature: Text, signerPublicKey: Text, anchors: seq<Anchor>)

  /** What an operator publishes: the log, its checkpoints and the keys it says its actors sign with. */
  datatype Bundle = Bundle(
    version: int, examId: Text, entries: seq<LogEntry>, checkpoints: seq<Checkpoint>, signers: seq<Field<Text>>)

  /** An object of the language, read as a finite map. */
  function AsMap(fs: seq<Field<Text>>): map<Text, Text> {
    if fs == [] then map[] else AsMap(fs[1..])[fs[0].key := fs[0].value]
  }

  /** Assigns a property: a new key goes to the end. */
  function SetField(fs: seq<Field<Text>>, key: Text, value: Text): seq<Field<Text>> {
    if fs == [] then [Field(key, value)]
    else if fs[0].key == key then [Field(key, value)] + fs[1..]
    else [fs[0]] + SetField(fs[1..], key, value)
  }

  // ---------- hexadecimal ----------

  function Hex(bytes: seq<Byte>): (t: Text)
    ensures |t| == 2 * |bytes|
  {
    if bytes == [] then []
    else [HexDigit(ToInt(bytes[0]) / 16), HexDigit(ToInt(bytes[0]) % 16)] + Hex(bytes[1..])
  }

  function HexNibble(u: CodeUnit): Option<nat> {
    if 0x41 <= u <= 0x46 then Some(u - 0x41 + 10) else HexValue(u)
  }

  /** Decodes pairs of digits and stops at the first pair that is not one. */
  function FromHex(t: Text): seq<Byte> {
    if |t| < 2 || HexNibble(t[0]).None? || HexNibble(t[1]).None? then []
    else
      var n := 16 * HexNibble(t[0]).value + HexNibble(t[1]).value;
      assert HexNibble(t[0]).value < 16 && HexNibble(t[1]).value < 16;
      [OfInt(n)] + FromHex(t[2..])
  }

  lemma {:induction false} FromHexHex(bytes: seq<Byte>)
    ensures FromHex(Hex(bytes)) == bytes
  {
    hide ToInt, OfInt;
    if bytes != [] {
      var t, n := Hex(bytes), ToInt(bytes[0]);
      assert t[2..] == Hex(bytes[1..]);
      HexNibbleDigit(n / 16);
      HexNibbleDigit(n % 16);
      assert 16 * (n / 16) + n % 16 == n;
      OfIntToInt(bytes[0]);
      FromHexHex(bytes[1..]);
      assert [bytes[0]] + bytes[1..] == bytes;
    }
  }

  lemma HexNibbleDigit(n: nat)
    requires n < 16
    ensures HexNibble(HexDigit(n)) == Some(n)
  {}

  lemma HexInjective(a: seq<Byte>, b: seq<Byte>)
    requires Hex(a) == Hex(b)
    ensures a == b
  {
    FromHexHex(a);
    FromHexHex(b);
  }

  // ---------- commitments ----------

  function Repeat(u: CodeUnit, n: nat): (t: Text)
    ensures |t| == n
  {
    if n == 0 then [] else [u] + Repeat(u, n - 1)
  }

  const ZERO_HASH: Text := Repeat(0x30, 64)

  /** "seq", "ts", "type", "actor", "payload", "prevHash", "size", "root", "headHash" */
  const SEQ_KEY: Text := [0x73, 0x65, 0x71]
  const TS_KEY: Text := [0x74, 0x73]
  const TYPE_KEY: Text := [0x74, 0x79, 0x70, 0x65]
  const ACTOR_KEY: Text := [0x61, 0x63, 0x74, 0x6f, 0x72]
  const PAYLOAD_KEY: Text := [0x70, 0x61, 0x79, 0x6c, 0x6f, 0x61, 0x64]
  const PREV_HASH_KEY: Text := [0x70, 0x72, 0x65, 0x76, 0x48, 0x61, 0x73, 0x68]
  const SIZE_KEY: Text := [0x73, 0x69, 0x7a, 0x65]
  const ROOT_KEY: Text := [0x72, 0x6f, 0x6f, 0x74]
  const HEAD_HASH_KEY: Text := [0x68, 0x65, 0x61, 0x64, 0x48, 0x61, 0x73, 0x68]

  /** bodyOf: everything but the hash, the signature and the key. */
  function BodyOf(e: LogEntry): Value {
    Object([
      Field(SEQ_KEY, Number(Whole(e.seqNo))), Field(TS_KEY, Number(Whole(e.ts))), Field(TYPE_KEY, String(e.kind)),
      Field(ACTOR_KEY, String(e.actor)), Field(PAYLOAD_KEY, e.payload), Field(PREV_HASH_KEY, String(e.prevHash))])
  }

  function CheckpointBody(cp: Checkpoint): Value {
    Object([
      Field(SIZE_KEY, Number(Whole(cp.size))), Field(ROOT_KEY, String(cp.root)),
      Field(HEAD_HASH_KEY, String(cp.headHash)), Field(TS_KEY, Number(Whole(cp.ts)))])
  }

  predicate Committable(e: LogEntry) {
    Accepts(BodyOf(e))
  }

  function Commitment(e: LogEntry): Text
    requires Committable(e)
  {
    Print(BodyOf(e))
  }

  /** The entry says the same as `f` in every field that the hash covers. */
  ghost predicate SameBody(e: LogEntry, f: LogEntry)
    requires Committable(e) && Committable(f)
  {
    MeaningOf(BodyOf(e)) == MeaningOf(BodyOf(f))
  }

  lemma BodyIsProper(e: LogEntry)
    ensures Proper(BodyOf(e)) <==> Proper(e.payload)
  {
    var props := BodyOf(e).props;
    assert props[4].value == e.payload;
    BodyKeys(e);
    if Proper(e.payload) {
      forall p | p in props ensures Proper(p.value) {}
    } else {
      assert props[4] in props;
    }
  }

  /** Equal commitments come from equal bodies. */
  lemma CommitmentIsBinding(e: LogEntry, f: LogEntry)
    requires Committable(e) && Committable(f) && Proper(e.payload) && Proper(f.payload)
    ensures Commitment(e) == Commitment(f) <==> SameBody(e, f)
  {
    hide Print, MeaningOf, Accepts, Proper;
    BodyIsProper(e);
    BodyIsProper(f);
    CanonicalTextIsTheMeaning(BodyOf(e), BodyOf(f));
  }

  lemma SameBodyFields(e: LogEntry, f: LogEntry)
    requires Committable(e) && Committable(f) && SameBody(e, f)
    ensures e.seqNo == f.seqNo && e.ts == f.ts && e.kind == f.kind && e.actor == f.actor && e.prevHash == f.prevHash
    ensures Accepts(e.payload) && Accepts(f.payload) && MeaningOf(e.payload) == MeaningOf(f.payload)
  {
    BodyFields(e);
    BodyFields(f);
  }

  lemma BodyFields(e: LogEntry)
    requires Committable(e)
    ensures Accepts(e.payload)
    ensures var m := MeaningOf(BodyOf(e)).fields;
      && SEQ_KEY in m && m[SEQ_KEY] == IntMeaning(e.seqNo)
      && TS_KEY in m && m[TS_KEY] == IntMeaning(e.ts)
      && TYPE_KEY in m && m[TYPE_KEY] == TextMeaning(e.kind)
      && ACTOR_KEY in m && m[ACTOR_KEY] == TextMeaning(e.actor)
      && PAYLOAD_KEY in m && m[PAYLOAD_KEY] == MeaningOf(e.payload)
      && PREV_HASH_KEY in m && m[PREV_HASH_KEY] == TextMeaning(e.prevHash)
  {
    hide Accepts, MapOf;
    BodyField(e, 0);
    BodyField(e, 1);
    BodyField(e, 2);
    BodyField(e, 3);
    BodyField(e, 4);
    BodyField(e, 5);
  }

  lemma BodyField(e: LogEntry, i: nat)
    requires Committable(e) && i < 6
    ensures var p := BodyOf(e).props[i]; var m := MeaningOf(BodyOf(e));
      Accepts(p.value) && m.MapMeaning? && p.key in m.fields && m.fields[p.key] == MeaningOf(p.value)
  {
    hide Proper;
    var ps := BodyOf(e).props;
    BodyKeys(e);
    assert ps[i] in ps;
    MapOfMeaning(ps, BodyOf(e));
  }

  lemma BodyKeys(e: LogEntry)
    ensures DistinctKeys(BodyOf(e).props)
  {
    var ps := BodyOf(e).props;
    assert |ps[0].key| == 3 && |ps[1].key| == 2 && |ps[2].key| == 4;
    assert |ps[3].key| == 5 && |ps[4].key| == 7 && |ps[5].key| == 8;
  }

  // ---------- the texts that are hashed and signed ----------

  /** A property whose key needs no escaping. */
  function Property(key: Text, value: Text): Text {
    [QUOTE] + key + [QUOTE, COLON] + value
  }

  function Braced(properties: seq<Text>): Text {
    [LEFT_BRACE] + Join(properties, COMMA) + [RIGHT_BRACE]
  }

  predicate Plain(key: Text) {
    forall i | 0 <= i < |key| :: key[i] >= 0x20 && key[i] != QUOTE && key[i] != BACKSLASH
  }

  lemma {:induction false} PlainKey(key: Text)
    requires Plain(key)
    ensures EscapeAll(key) == key
  {
    if key != [] {
      PlainKey(key[1..]);
      assert [key[0]] + key[1..] == key;
    }
  }

  lemma PlainKeys()
    ensures Plain(SEQ_KEY) && Plain(TS_KEY) && Plain(TYPE_KEY) && Plain(ACTOR_KEY) && Plain(PAYLOAD_KEY)
    ensures Plain(PREV_HASH_KEY) && Plain(SIZE_KEY) && Plain(ROOT_KEY) && Plain(HEAD_HASH_KEY)
  {}

  lemma NumberText(n: int)
    requires Accepts(Number(Whole(n)))
    ensures Print(Number(Whole(n))) == PrintInt(n)
  {}

  lemma StringText(t: Text)
    ensures Accepts(String(t)) && Print(String(t)) == Quoted(t)
  {}

  lemma PropertyText(p: Field<Value>)
    requires Accepts(p.value) && Plain(p.key)
    ensures PrintField(p) == Property(p.key, Print(p.value))
  {
    hide Print, EscapeAll;
    PlainKey(p.key);
  }

  /** The text of an entry: exactly these six properties, in this order. */
  lemma CommitmentText(e: LogEntry)
    requires Committable(e)
    ensures Commitment(e) == Braced([
      Property(ACTOR_KEY, Quoted(e.actor)), Property(PAYLOAD_KEY, PayloadText(e)),
      Property(PREV_HASH_KEY, Quoted(e.prevHash)), Property(SEQ_KEY, PrintInt(e.seqNo)),
      Property(TS_KEY, PrintInt(e.ts)), Property(TYPE_KEY, Quoted(e.kind))])
  {
    hide Print, Quoted, PrintInt, PrintField, Accepts, Property, Sort, PrintFields, Plain, Join, DistinctKeys, Ordered;
    var v, ps := BodyOf(e), BodyOf(e).props;
    var r := [ps[3], ps[4], ps[5], ps[0], ps[1], ps[2]];
    BodyKeys(e);
    BodyInOrder(e, r);
    SortIs(ps, r);
    ObjectText(v);
    BodyTexts(e);
    JoinFields(r, v, [PrintField(r[0]), PrintField(r[1]), PrintField(r[2]), PrintField(r[3]), PrintField(r[4]),
      PrintField(r[5])]);
  }

  function PayloadText(e: LogEntry): Text
    requires Committable(e)
  {
    BodyFields(e);
    Print(e.payload)
  }

  lemma BodyInOrder(e: LogEntry, r: seq<Field<Value>>)
    requires var ps := BodyOf(e).props; r == [ps[3], ps[4], ps[5], ps[0], ps[1], ps[2]]
    ensures Ordered(r) && forall f :: f in r <==> f in BodyOf(e).props
  {
    hide Less;
    var ps := BodyOf(e).props;
    FirstUnits(ACTOR_KEY, PAYLOAD_KEY);
    SecondUnits(PAYLOAD_KEY, PREV_HASH_KEY);
    FirstUnits(PREV_HASH_KEY, SEQ_KEY);
    FirstUnits(SEQ_KEY, TS_KEY);
    SecondUnits(TS_KEY, TYPE_KEY);
    AdjacentOrder(r);
  }

  lemma FirstUnits(a: Text, b: Text)
    requires a != [] && b != [] && a[0] < b[0]
    ensures Less(a, b)
  {}

  lemma SecondUnits(a: Text, b: Text)
    requires |a| > 1 && |b| > 1 && a[0] == b[0] && a[1] < b[1]
    ensures Less(a, b)
  {
    assert Less(a[1..], b[1..]);
  }

  lemma {:induction false} AdjacentOrder(r: seq<Field<Value>>)
    requires forall i | 0 <= i < |r| - 1 :: Less(r[i].key, r[i + 1].key)
    ensures Ordered(r)
  {
    hide Less;
    if r != [] {
      var init := r[..|r| - 1];
      assert forall i | 0 <= i < |init| - 1 :: Less(init[i].key, init[i + 1].key) by {
        forall i | 0 <= i < |init| - 1 ensures Less(init[i].key, init[i + 1].key) {
          assert init[i] == r[i] && init[i + 1] == r[i + 1];
        }
      }
      AdjacentOrder(init);
      forall i, j | 0 <= i < j < |r| ensures Less(r[i].key, r[j].key) {
        if j < |init| {
          assert Less(init[i].key, init[j].key);
        } else if i < j - 1 {
          assert Less(init[i].key, init[j - 1].key);
          assert Less(r[j - 1].key, r[j - 1 + 1].key);
          LessTransitive(r[i].key, r[j - 1].key, r[j].key);
        } else {
          assert Less(r[i].key, r[i + 1].key);
        }
      }
    }
  }

  lemma BodyTexts(e: LogEntry)
    requires Committable(e)
    ensures forall i | 0 <= i < 6 :: Accepts(BodyOf(e).props[i].value)
    ensures var ps := BodyOf(e).props;
      && PrintField(ps[0]) == Property(SEQ_KEY, PrintInt(e.seqNo))
        && PrintField(ps[1]) == Property(TS_KEY, PrintInt(e.ts))
      && PrintField(ps[2]) == Property(TYPE_KEY, Quoted(e.kind))
        && PrintField(ps[3]) == Property(ACTOR_KEY, Quoted(e.actor))
      && PrintField(ps[4]) == Property(PAYLOAD_KEY, PayloadText(e))
      && PrintField(ps[5]) == Property(PREV_HASH_KEY, Quoted(e.prevHash))
  {
    hide PrintField, Property, Quoted, PrintInt, Print, Plain;
    PlainKeys();
    var ps := BodyOf(e).props;
    forall i | 0 <= i < 6 ensures Accepts(ps[i].value) {
      assert ps[i] in ps;
    }
    NumberText(e.seqNo);
    NumberText(e.ts);
    StringText(e.kind);
    StringText(e.actor);
    StringText(e.prevHash);
    PropertyText(ps[0]);
    PropertyText(ps[1]);
    PropertyText(ps[2]);
    PropertyText(ps[3]);
    PropertyText(ps[4]);
    PropertyText(ps[5]);
  }

  /** The text of a checkpoint: exactly these four properties, in this order. */
  lemma CheckpointText(cp: Checkpoint)
    requires Accepts(CheckpointBody(cp))
    ensures Print(CheckpointBody(cp)) == Braced([
      Property(HEAD_HASH_KEY, Quoted(cp.headHash)), Property(ROOT_KEY, Quoted(cp.root)),
      Property(SIZE_KEY, PrintInt(cp.size)), Property(TS_KEY, PrintInt(cp.ts))])
  {
    hide Print, Quoted, PrintInt, PrintField, Accepts, Property, Sort, PrintFields, Less, Plain, Join;
    var v, ps := CheckpointBody(cp), CheckpointBody(cp).props;
    var r := [ps[2], ps[1], ps[0], ps[3]];
    FirstUnits(HEAD_HASH_KEY, ROOT_KEY);
    FirstUnits(ROOT_KEY, SIZE_KEY);
    FirstUnits(SIZE_KEY, TS_KEY);
    AdjacentOrder(r);
    assert |ps[0].key| == |ps[1].key| == 4 && ps[0].key[0] != ps[1].key[0] && |ps[2].key| == 8 && |ps[3].key| == 2;
    SortIs(ps, r);
    ObjectText(v);
    CheckpointTexts(cp);
    JoinFields(r, v, [PrintField(r[0]), PrintField(r[1]), PrintField(r[2]), PrintField(r[3])]);
  }

  lemma CheckpointTexts(cp: Checkpoint)
    requires Accepts(CheckpointBody(cp))
    ensures forall i | 0 <= i < 4 :: Accepts(CheckpointBody(cp).props[i].value)
    ensures var ps := CheckpointBody(cp).props;
      && PrintField(ps[0]) == Property(SIZE_KEY, PrintInt(cp.size))
        && PrintField(ps[1]) == Property(ROOT_KEY, Quoted(cp.root))
      && PrintField(ps[2]) == Property(HEAD_HASH_KEY, Quoted(cp.headHash))
      && PrintField(ps[3]) == Property(TS_KEY, PrintInt(cp.ts))
  {
    hide PrintField, Property, Quoted, PrintInt, Print, Plain;
    PlainKeys();
    var ps := CheckpointBody(cp).props;
    forall i | 0 <= i < 4 ensures Accepts(ps[i].value) {
      assert ps[i] in ps;
    }
    NumberText(cp.size);
    NumberText(cp.ts);
    StringText(cp.root);
    StringText(cp.headHash);
    PropertyText(ps[0]);
    PropertyText(ps[1]);
    PropertyText(ps[2]);
    PropertyText(ps[3]);
  }

  // ---------- checks of one record ----------

  predicate EntrySignature(k: LogCrypto, e: LogEntry)
    requires Committable(e)
  {
    k.verify(EntryDomain, Commitment(e), e.signature, e.signerPublicKey)
  }

  predicate VerifyEntrySelf(k: LogCrypto, e: LogEntry)
    requires Committable(e)
  {
    e.hash == Hex(k.entryDigest(Commitment(e))) && EntrySignature(k, e)
  }

  /** Verification throws when the body has no canonical text. */
  predicate CheckpointSignature(k: LogCrypto, cp: Checkpoint) {
    Accepts(CheckpointBody(cp))
    && k.verify(CheckpointDomain, Print(CheckpointBody(cp)), cp.signature, cp.signerPublicKey)
  }

  /** The hashes of the rows, decoded from hexadecimal. */
  function Digests(rows: seq<LogEntry>): (d: seq<Digest>)
    ensures |d| == |rows|
  {
    seq(|rows|, i requires 0 <= i < |rows| => FromHex(rows[i].hash))
  }
}
