/** Small inputs with their outputs spelled out, which fix the formats down to the last byte. */
module KnownAnswers {
  import opened Bytes
  import opened Wrappers
  import opened Canonical
  import Der
  import Oids
  import Prng
  import Product

  // ---------- canonical JSON ----------

  const LOWER_A: CodeUnit := 0x61
  const LOWER_B: CodeUnit := 0x62
  const UPPER_B: CodeUnit := 0x42

  /** {"b": [-12, true, null], "B": {}, "a": "\u001f\"\\\n" followed by U+00E9} */
  const SAMPLE: Value := Object([
    Field([LOWER_B], Array([Number(Whole(-12)), Bool(true), Null])), Field([UPPER_B], Object([])),
    Field([LOWER_A], String([0x1f, 0x22, 0x5c, 0x0a, 0xe9]))])

  /** {"B":{},"a":"\u001f\"\\\n...","b":[-12,true,null]} */
  const SAMPLE_TEXT: Text :=
    [0x7b]
    + [0x22, 0x42, 0x22, 0x3a, 0x7b, 0x7d]
    + [0x2c]
    + ([0x22, 0x61, 0x22, 0x3a, 0x22, 0x5c, 0x75, 0x30, 0x30, 0x31, 0x66, 0x5c, 0x22, 0x5c, 0x5c, 0x5c, 0x6e, 0xe9,
      0x22]
       + [0x2c]
       + [0x22, 0x62, 0x22, 0x3a, 0x5b, 0x2d, 0x31, 0x32, 0x2c, 0x74, 0x72, 0x75, 0x65, 0x2c, 0x6e, 0x75, 0x6c, 0x6c,
         0x5d])
    + [0x7d]

  lemma SampleParts()
    ensures Accepts(SAMPLE.props[0].value) && Accepts(SAMPLE.props[1].value) && Accepts(SAMPLE.props[2].value)
    ensures Accepts(SAMPLE) && Accepts(Object([]))
  {
    var items := SAMPLE.props[0].value.items;
    assert forall i | 0 <= i < |items| :: Accepts(items[i]);
  }

  lemma TextOfEmpty()
    ensures Accepts(Object([])) && Print(Object([])) == [0x7b, 0x7d]
  {
    assert Sort<Value>([]) == [];
  }

  lemma EscapeStep(u: CodeUnit, s: Text)
    ensures EscapeAll([u] + s) == Escape(u) + EscapeAll(s)
  {
    assert ([u] + s)[1..] == s;
  }

  lemma NothingToEscape()
    ensures EscapeAll([]) == []
  {}

  lemma Escapes()
    ensures Escape(0x1f) == [0x5c, 0x75, 0x30, 0x30, 0x31, 0x66] && Escape(0x22) == [0x5c, 0x22]
    ensures Escape(0x5c) == [0x5c, 0x5c] && Escape(0x0a) == [0x5c, 0x6e] && Escape(0xe9) == [0xe9]
  {}

  lemma TextOfString()
    ensures Print(String([0x1f, 0x22, 0x5c, 0x0a, 0xe9]))
      == [0x22, 0x5c, 0x75, 0x30, 0x30, 0x31, 0x66, 0x5c, 0x22, 0x5c, 0x5c, 0x5c, 0x6e, 0xe9, 0x22]
  {
    hide EscapeAll, Escape;
    Escapes();
    NothingToEscape();
    EscapeStep(0xe9, []);
    EscapeStep(0x0a, [0xe9]);
    EscapeStep(0x5c, [0x0a, 0xe9]);
    EscapeStep(0x22, [0x5c, 0x0a, 0xe9]);
    EscapeStep(0x1f, [0x22, 0x5c, 0x0a, 0xe9]);
    assert [0xe9] + [] == [0xe9] && [0x0a] + [0xe9] == [0x0a, 0xe9];
    assert [0x5c] + [0x0a, 0xe9] == [0x5c, 0x0a, 0xe9] && [0x22] + [0x5c, 0x0a, 0xe9] == [0x22, 0x5c, 0x0a, 0xe9];
    assert [0x1f] + [0x22, 0x5c, 0x0a, 0xe9] == [0x1f, 0x22, 0x5c, 0x0a, 0xe9];
  }

  lemma TextOfArray()
    ensures Accepts(Array([Number(Whole(-12)), Bool(true), Null]))
    ensures Print(Array([Number(Whole(-12)), Bool(true), Null]))
      == [0x5b, 0x2d, 0x31, 0x32, 0x2c, 0x74, 0x72, 0x75, 0x65, 0x2c, 0x6e, 0x75, 0x6c, 0x6c, 0x5d]
  {
    hide Print, PrintItems;
    var items := [Number(Whole(-12)), Bool(true), Null];
    assert forall i | 0 <= i < |items| :: Accepts(items[i]);
    SmallTexts();
    ArrayText(items);
    JoinItems(items, [Print(items[0]), Print(items[1]), Print(items[2])]);
    ThreeParts(Print(items[0]), Print(items[1]), Print(items[2]));
  }

  lemma SmallTexts()
    ensures Print(Number(Whole(-12))) == [0x2d, 0x31, 0x32]
    ensures Print(Bool(true)) == [0x74, 0x72, 0x75, 0x65] && Print(Null) == [0x6e, 0x75, 0x6c, 0x6c]
  {
    assert Decimal(1) == [0x31];
  }

  lemma ArrayText(items: seq<Value>)
    requires forall i | 0 <= i < |items| :: Accepts(items[i])
    ensures Accepts(Array(items)) && Print(Array(items)) == [LEFT_BRACKET] + PrintItems(items) + [RIGHT_BRACKET]
  {
    hide PrintItems;
  }

  lemma SampleInOrder()
    ensures Sort(SAMPLE.props) == [SAMPLE.props[1], SAMPLE.props[2], SAMPLE.props[0]]
  {
    var ps := SAMPLE.props;
    var r := [ps[1], ps[2], ps[0]];
    assert Less(ps[1].key, ps[2].key) && Less(ps[2].key, ps[0].key) && Less(ps[1].key, ps[0].key);
    SortIs(ps, r);
  }

  /** Keys by code unit, no white space, short escapes before \u escapes, everything else as it is. */
  lemma SampleIsPrinted()
    ensures Accepts(SAMPLE) && Print(SAMPLE) == SAMPLE_TEXT
  {
    hide Print, PrintFields, Sort, Accepts, PrintField, Join;
    SampleParts();
    SampleInOrder();
    var ps, r := SAMPLE.props, Sort(SAMPLE.props);
    ObjectText(SAMPLE);
    SampleFields();
    var x, y, z := PrintField(ps[1]), PrintField(ps[2]), PrintField(ps[0]);
    JoinFields(r, SAMPLE, [x, y, z]);
    ThreeParts(x, y, z);
    Regroup(x, y + [COMMA] + z);
  }

  lemma SampleFields()
    ensures Accepts(SAMPLE.props[0].value) && Accepts(SAMPLE.props[1].value) && Accepts(SAMPLE.props[2].value)
    ensures PrintField(SAMPLE.props[1]) == [0x22, 0x42, 0x22, 0x3a, 0x7b, 0x7d]
    ensures PrintField(SAMPLE.props[2]) == [
      0x22, 0x61, 0x22, 0x3a, 0x22, 0x5c, 0x75, 0x30, 0x30, 0x31, 0x66, 0x5c, 0x22, 0x5c, 0x5c, 0x5c, 0x6e, 0xe9, 0x22]
    ensures PrintField(SAMPLE.props[0]) == [
      0x22, 0x62, 0x22, 0x3a, 0x5b, 0x2d, 0x31, 0x32, 0x2c, 0x74, 0x72, 0x75, 0x65, 0x2c, 0x6e, 0x75, 0x6c, 0x6c, 0x5d]
  {
    hide Print, Accepts, PrintField;
    SampleParts();
    FieldOf(SAMPLE.props[0]);
    FieldOf(SAMPLE.props[1]);
    FieldOf(SAMPLE.props[2]);
    TextOfEmpty();
    TextOfString();
    TextOfArray();
  }

  lemma Regroup(x: Text, rest: Text)
    ensures [LEFT_BRACE] + (x + [COMMA] + rest) + [RIGHT_BRACE] == [LEFT_BRACE] + x + [COMMA] + rest + [RIGHT_BRACE]
  {}

  lemma ThreeParts(a: Text, b: Text, c: Text)
    ensures Join([a, b, c], COMMA) == a + [COMMA] + (b + [COMMA] + c)
  {
    assert [a, b, c][1..] == [b, c] && [b, c][1..] == [c];
    assert Join([c], COMMA) == c;
    assert Join([b, c], COMMA) == b + [COMMA] + c;
  }

  lemma FieldOf(p: Field<Value>)
    requires Accepts(p.value) && |p.key| == 1 && p.key[0] >= 0x20 && p.key[0] != QUOTE && p.key[0] != BACKSLASH
    ensures PrintField(p) == [0x22, p.key[0], 0x22, 0x3a] + Print(p.value)
  {
    hide Print, Accepts;
    assert p.key[1..] == [];
    assert EscapeAll(p.key) == [p.key[0]];
  }

  // ---------- DER ----------

  /** INTEGER 128 is 02 02 00 80. */
  lemma IntegerOf128()
    ensures Der.Encode(Der.Primitive(Der.INTEGER, Der.IntegerContent(128))) == [0x02, 0x02, 0x00, 0x80]
  {
    assert Der.Big(0) == [];
    assert Der.Big(128) == [0x80];
    assert Der.LengthOctets(2) == [2];
  }

  /** Lengths of 127, 200 and 1000 are 7f, 81 c8 and 82 03 e8. */
  lemma Lengths()
    ensures Der.LengthOctets(127) == [0x7f] && Der.LengthOctets(200) == [0x81, 0xc8]
    ensures Der.LengthOctets(1000) == [0x82, 0x03, 0xe8]
  {
    hide Der.Big;
    Der.LengthStart(200);
    Der.LengthStart(1000);
    NoDigits();
    Der.BigUnfolds(3);
  }

  lemma NoDigits()
    ensures Der.Big(0) == []
  {}

  /** 1.2.840.113549 is 06 06 2a 86 48 86 f7 0d. */
  lemma OidOfRsa()
    ensures Der.Encode(Der.Primitive(Der.OID, Oids.OidContent([1, 2, 840, 113549])))
      == [0x06, 0x06, 0x2a, 0x86, 0x48, 0x86, 0xf7, 0x0d]
  {
    hide Oids.High;
    var arcs: seq<nat> := [1, 2, 840, 113549];
    NoSevens();
    Oids.HighUnfolds(6);
    Oids.HighUnfolds(887);
    assert Oids.ArcOctets(840) == [0x86, 0x48];
    assert Oids.ArcOctets(113549) == [0x86, 0xf7, 0x0d];
    assert arcs[2..][1..] == [113549] && arcs[2..][1..][1..] == [];
    assert Oids.ArcsOctets(arcs[2..][1..]) == [0x86, 0xf7, 0x0d];
    assert Oids.ArcsOctets(arcs[2..]) == [0x86, 0x48, 0x86, 0xf7, 0x0d];
    assert Der.LengthOctets(6) == [6];
  }

  lemma NoSevens()
    ensures Oids.High(0) == []
  {}

  // ---------- the generator ----------

  /** Shuffling a, b, c with draws 0 and 1 exchanges a and c, then leaves the middle. */
  lemma ShuffledThree<T>(a: T, b: T, c: T)
    ensures Prng.DrawVector(3, [0, 1]) && Prng.Shuffled([a, b, c], [0, 1]) == [c, b, a]
    ensures Prng.DrawVector(3, [1, 0]) && Prng.Shuffled([a, b, c], [1, 0]) == [c, a, b]
  {
    assert [0, 1][..1] == [0] && [1, 0][..1] == [1];
    assert [0][..0] == [] && [1][..0] == [];
    assert Prng.Shuffled([a, b, c], [0]) == [c, b, a];
    assert Prng.Shuffled([a, b, c], [1]) == [a, c, b];
  }

  /** Drawing 1 and then 1 from a, b, c picks b, then c, and leaves a. */
  lemma SampledTwo<T>(a: T, b: T, c: T)
    ensures Prng.DrawVector(3, [1, 1]) && Prng.Selection([a, b, c], [1, 1]) == Prng.Picked([b, c], [a])
  {
    assert [1, 1][..1] == [1] && [1][..0] == [];
    assert Prng.Selection([a, b, c], [1]) == Prng.Picked([b], [a, c]);
  }

  // ---------- the field ----------

  /** 0x57 times 0x83 is 0xc1, as in section 4.2 of FIPS 197. */
  lemma ProductOfFips197()
    ensures Product.Times(
      Byte(true, true, true, false, true, false, true, false),
        Byte(true, true, false, false, false, false, false, true))
      == Byte(true, false, false, false, false, false, true, true)
  {}
}
