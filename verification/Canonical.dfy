/**
 Canonical JSON text.

 A text is a sequence of UTF-16 code units, so that lone surrogates and the default string order of
 the program are represented exactly.  The partner of the printer is a reader of canonical text that
 returns the value's meaning, with objects as finite maps.
 */
module Canonical {
  import opened Wrappers

  type CodeUnit = n: int | 0 <= n < 0x10000
  type Text = seq<CodeUnit>

  const QUOTE: CodeUnit := 0x22
  const COMMA: CodeUnit := 0x2c
  const MINUS: CodeUnit := 0x2d
  const DIGIT_ZERO: CodeUnit := 0x30
  const COLON: CodeUnit := 0x3a
  const LEFT_BRACKET: CodeUnit := 0x5b
  const BACKSLASH: CodeUnit := 0x5c
  const RIGHT_BRACKET: CodeUnit := 0x5d
  const LOWER_U: CodeUnit := 0x75
  const LEFT_BRACE: CodeUnit := 0x7b
  const RIGHT_BRACE: CodeUnit := 0x7d
  const NULL_TEXT: Text := [0x6e, 0x75, 0x6c, 0x6c]
  const TRUE_TEXT: Text := [0x74, 0x72, 0x75, 0x65]
  const FALSE_TEXT: Text := [0x66, 0x61, 0x6c, 0x73, 0x65]

  const MAX_SAFE_INTEGER := 0x1f_ffff_ffff_ffff

  datatype Num = Whole(n: int) | MinusZero | Fractional | NonFinite

  datatype Field<T> = Field(key: Text, value: T)

  /** A program value given to the encoder; an object lists its properties in insertion order. */
  datatype Value =
    | Null
    | Bool(b: bool)
    | Number(num: Num)
    | String(s: Text)
    | Array(items: seq<Value>)
    | Object(props: seq<Field<Value>>)
    | Undefined
    | BigInt
    | FunctionOrSymbol
    | Binary

  datatype CanonicalError =
    | NonFiniteNumber | NonIntegerNumber | UnsafeInteger | UndefinedValue | BigIntValue
    | NotRepresentable | BinaryValue | UndefinedProperty

  /** What a value says: minus zero is zero, and an object is a finite map.  `OtherMeaning` stands for
      the parsed values that no canonical text has, such as fractions. */
  datatype Meaning =
    | NullMeaning
    | BoolMeaning(b: bool)
    | IntMeaning(n: int)
    | TextMeaning(s: Text)
    | ListMeaning(items: seq<Meaning>)
    | MapMeaning(fields: map<Text, Meaning>)
    | OtherMeaning(text: Text)

  // ---------- the order of keys ----------

  predicate Less(a: Text, b: Text) {
    b != [] && (a == [] || a[0] < b[0] || (a[0] == b[0] && Less(a[1..], b[1..])))
  }

  lemma {:induction false} LessTrichotomy(a: Text, b: Text)
    ensures Less(a, b) || a == b || Less(b, a)
    ensures !(Less(a, b) && Less(b, a)) && !Less(a, a)
  {
    if a != [] && b != [] && a[0] == b[0] {
      LessTrichotomy(a[1..], b[1..]);
      LessTrichotomy(a[1..], a[1..]);
      assert a == [a[0]] + a[1..] && b == [b[0]] + b[1..];
    } else if a != [] {
      LessTrichotomy(a[1..], a[1..]);
    }
  }

  /** The order compares code units at the first difference, and a proper prefix comes first. */
  lemma {:induction false} LessMeaning(a: Text, b: Text)
    ensures Less(a, b) <==> exists i: nat :: ComesFirst(a, b, i)
  {
    hide FirstDifference;
    if a != [] && b != [] && a[0] == b[0] {
      NotAtFirst(a, b);
      LessMeaning(a[1..], b[1..]);
      if Less(a, b) {
        var i: nat :| ComesFirst(a[1..], b[1..], i);
        LaterDifference(a, b, i);
        assert ComesFirst(a, b, i + 1);
      }
      if i: nat :| ComesFirst(a, b, i) {
        LaterDifference(a, b, i - 1);
        assert ComesFirst(a[1..], b[1..], i - 1);
      }
    } else {
      OnlyAtFirst(a, b);
      assert Less(a, b) <==> ComesFirst(a, b, 0);
    }
  }

  lemma LaterDifference(a: Text, b: Text, i: nat)
    requires a != [] && b != [] && a[0] == b[0]
    ensures FirstDifference(a, b, i + 1) <==> FirstDifference(a[1..], b[1..], i)
  {
    if FirstDifference(a, b, i + 1) {
      forall j | 0 <= j < i ensures a[1..][j] == b[1..][j] {
        assert a[j + 1] == b[j + 1];
      }
    }
    if FirstDifference(a[1..], b[1..], i) {
      forall j | 0 <= j < i + 1 ensures a[j] == b[j] {
        assert j > 0 ==> a[1..][j - 1] == b[1..][j - 1];
      }
    }
  }

  lemma NotAtFirst(a: Text, b: Text)
    requires a != [] && b != [] && a[0] == b[0]
    ensures !FirstDifference(a, b, 0)
  {}

  lemma OnlyAtFirst(a: Text, b: Text)
    requires a == [] || b == [] || a[0] != b[0]
    ensures FirstDifference(a, b, 0) <==> b != []
    ensures forall i: nat :: FirstDifference(a, b, i) ==> i == 0 && i < |b|
  {}

  ghost predicate ComesFirst(a: Text, b: Text, i: nat) {
    i < |b| && FirstDifference(a, b, i) && (i >= |a| || a[i] < b[i])
  }

  ghost predicate FirstDifference(a: Text, b: Text, i: nat) {
    i <= |a| && i < |b| && (forall j | 0 <= j < i :: a[j] == b[j]) && (i < |a| ==> a[i] != b[i])
  }

  lemma {:induction false} LessTransitive(a: Text, b: Text, c: Text)
    requires Less(a, b) && Less(b, c)
    ensures Less(a, c)
  {
    if a != [] && a[0] == b[0] == c[0] {
      LessTransitive(a[1..], b[1..], c[1..]);
    }
  }

  ghost predicate DistinctKeys<T>(fs: seq<Field<T>>) {
    forall i, j | 0 <= i < j < |fs| :: fs[i].key != fs[j].key
  }

  ghost predicate Ordered<T>(fs: seq<Field<T>>) {
    forall i, j | 0 <= i < j < |fs| :: Less(fs[i].key, fs[j].key)
  }

  function Insert<T(!new)>(f: Field<T>, fs: seq<Field<T>>): (r: seq<Field<T>>)
    ensures forall g :: g in r <==> g == f || g in fs
    ensures |r| == |fs| + 1
  {
    if fs == [] || Less(f.key, fs[0].key) then [f] + fs else [fs[0]] + Insert(f, fs[1..])
  }

  /** The properties in the order of their keys by code units. */
  function Sort<T(!new)>(fs: seq<Field<T>>): (r: seq<Field<T>>)
    ensures forall g :: g in r <==> g in fs
    ensures |r| == |fs|
  {
    if fs == [] then [] else Insert(fs[0], Sort(fs[1..]))
  }

  lemma {:induction false} InsertOrdered<T(!new)>(f: Field<T>, fs: seq<Field<T>>)
    requires Ordered(fs) && forall i | 0 <= i < |fs| :: fs[i].key != f.key
    ensures Ordered(Insert(f, fs))
  {
    var r := Insert(f, fs);
    if fs == [] {
    } else if Less(f.key, fs[0].key) {
      forall i, j | 0 <= i < j < |r| ensures Less(r[i].key, r[j].key) {
        if i == 0 && j > 1 {
          LessTransitive(f.key, fs[0].key, fs[j - 1].key);
        }
      }
    } else {
      LessTrichotomy(f.key, fs[0].key);
      InsertOrdered(f, fs[1..]);
      forall i, j | 0 <= i < j < |r| ensures Less(r[i].key, r[j].key) {
        if i == 0 {
          assert r[j] in Insert(f, fs[1..]);
          assert r[j] == f || r[j] in fs[1..];
        }
      }
    }
  }

  lemma {:induction false} SortOrdered<T(!new)>(fs: seq<Field<T>>)
    requires DistinctKeys(fs)
    ensures Ordered(Sort(fs))
  {
    if fs != [] {
      SortOrdered(fs[1..]);
      forall i | 0 <= i < |Sort(fs[1..])| ensures Sort(fs[1..])[i].key != fs[0].key {
        assert Sort(fs[1..])[i] in fs[1..];
      }
      InsertOrdered(fs[0], Sort(fs[1..]));
    }
  }

  /** Fields in order are what sorting any arrangement of them gives. */
  lemma SortIs<T(!new)>(fs: seq<Field<T>>, r: seq<Field<T>>)
    requires DistinctKeys(fs) && Ordered(r) && |r| == |fs| && forall f :: f in r <==> f in fs
    ensures Sort(fs) == r
  {
    hide Sort, Ordered;
    SortOrdered(fs);
    OrderedIsUnique(Sort(fs), r);
  }

  lemma {:induction false} OrderedIsUnique<T(!new)>(a: seq<Field<T>>, b: seq<Field<T>>)
    requires Ordered(a) && Ordered(b) && |a| == |b| && forall f :: f in a <==> f in b
    ensures a == b
  {
    hide Less;
    if a != [] {
      FirstIsLeast(a, b);
      FirstIsLeast(b, a);
      if a[0] != b[0] {
        LessTrichotomy(a[0].key, b[0].key);
        assert false;
      }
      forall f ensures f in a[1..] <==> f in b[1..] {
        RestHolds(a, f);
        RestHolds(b, f);
      }
      OrderedIsUnique(a[1..], b[1..]);
    }
  }

  lemma FirstIsLeast<T(!new)>(a: seq<Field<T>>, b: seq<Field<T>>)
    requires Ordered(a) && a != [] && b != [] && b[0] in a
    ensures a[0] == b[0] || Less(a[0].key, b[0].key)
  {
    hide Less;
  }

  lemma RestHolds<T(!new)>(a: seq<Field<T>>, f: Field<T>)
    requires Ordered(a) && a != []
    ensures f in a[1..] <==> f in a && f != a[0]
  {
    hide Less;
    if f == a[0] && f in a[1..] {
      LessTrichotomy(f.key, f.key);
      assert false;
    }
  }

  // ---------- printing ----------

  function HexDigit(n: nat): CodeUnit
    requires n < 16
  {
    if n < 10 then 0x30 + n else 0x61 + (n - 10)
  }

  /** The JSON escape of one code unit. */
  function Escape(u: CodeUnit): (t: Text)
    ensures t != []
  {
    if u == QUOTE then [BACKSLASH, QUOTE]
    else if u == BACKSLASH then [BACKSLASH, BACKSLASH]
    else if u == 0x08 then [BACKSLASH, 0x62]
    else if u == 0x0c then [BACKSLASH, 0x66]
    else if u == 0x0a then [BACKSLASH, 0x6e]
    else if u == 0x0d then [BACKSLASH, 0x72]
    else if u == 0x09 then [BACKSLASH, 0x74]
    else if u < 0x20 then [BACKSLASH, LOWER_U, 0x30, 0x30, HexDigit(u / 16), HexDigit(u % 16)]
    else [u]
  }

  function EscapeAll(s: Text): Text {
    if s == [] then [] else Escape(s[0]) + EscapeAll(s[1..])
  }

  function Quoted(s: Text): Text {
    [QUOTE] + EscapeAll(s) + [QUOTE]
  }

  /** String(n) for a natural number. */
  function Decimal(n: nat): (t: Text)
    ensures t != [] && forall i | 0 <= i < |t| :: DIGIT_ZERO <= t[i] <= DIGIT_ZERO + 9
  {
    if n < 10 then [DIGIT_ZERO + n] else Decimal(n / 10) + [DIGIT_ZERO + n % 10]
  }

  function PrintInt(n: int): Text {
    if n < 0 then [MINUS] + Decimal(-n) else Decimal(n)
  }

  /** The values the encoder accepts. */
  predicate Accepts(v: Value) {
    match v
    case Null => true
    case Bool(_) => true
    case Number(Whole(n)) => -MAX_SAFE_INTEGER <= n <= MAX_SAFE_INTEGER
    case Number(num) => num == MinusZero
    case String(_) => true
    case Array(items) => forall i | 0 <= i < |items| :: Accepts(items[i])
    case Object(props) => forall p | p in props :: Accepts(p.value)
    case _ => false
  }

  /** No object has two properties with one key: true of every program value. */
  ghost predicate Proper(v: Value) {
    match v
    case Array(items) => forall i | 0 <= i < |items| :: Proper(items[i])
    case Object(props) => DistinctKeys(props) && forall p | p in props :: Proper(p.value)
    case _ => true
  }

  function Print(v: Value): Text
    requires Accepts(v)
    decreases v, 0
  {
    match v
    case Null => NULL_TEXT
    case Bool(b) => if b then TRUE_TEXT else FALSE_TEXT
    case Number(Whole(n)) => PrintInt(n)
    case Number(_) => [DIGIT_ZERO]
    case String(s) => Quoted(s)
    case Array(items) => [LEFT_BRACKET] + PrintItems(items) + [RIGHT_BRACKET]
    case Object(props) => [LEFT_BRACE] + PrintFields(Sort(props), v) + [RIGHT_BRACE]
  }

  function PrintItems(items: seq<Value>): Text
    requires forall i | 0 <= i < |items| :: Accepts(items[i])
    decreases items, 0
  {
    if items == [] then []
    else if |items| == 1 then Print(items[0])
    else Print(items[0]) + [COMMA] + PrintItems(items[1..])
  }

  function PrintField(p: Field<Value>): Text
    requires Accepts(p.value)
    decreases p, 1
  {
    Quoted(p.key) + [COLON] + Print(p.value)
  }

  /** The fields `ps` of the object `owner`. */
  function PrintFields(ps: seq<Field<Value>>, owner: Value): Text
    requires owner.Object? && forall i | 0 <= i < |ps| :: ps[i] in owner.props && Accepts(ps[i].value)
    decreases owner, 0, |ps|
  {
    if ps == [] then []
    else if |ps| == 1 then PrintField(ps[0])
    else PrintField(ps[0]) + [COMMA] + PrintFields(ps[1..], owner)
  }

  /** The first complaint, in evaluation order. */
  function ErrorOf(v: Value): Option<CanonicalError>
    decreases v, 0
  {
    match v
    case Number(Whole(n)) => if -MAX_SAFE_INTEGER <= n <= MAX_SAFE_INTEGER then None else Some(UnsafeInteger)
    case Number(Fractional) => Some(NonIntegerNumber)
    case Number(NonFinite) => Some(NonFiniteNumber)
    case Array(items) => ErrorOfItems(items)
    case Object(props) => ErrorOfFields(Sort(props), v)
    case Undefined => Some(UndefinedValue)
    case BigInt => Some(BigIntValue)
    case FunctionOrSymbol => Some(NotRepresentable)
    case Binary => Some(BinaryValue)
    case _ => None
  }

  function ErrorOfItems(items: seq<Value>): Option<CanonicalError>
    decreases items, 0
  {
    if items == [] then None
    else if ErrorOf(items[0]).Some? then ErrorOf(items[0])
    else ErrorOfItems(items[1..])
  }

  function ErrorOfFields(ps: seq<Field<Value>>, owner: Value): Option<CanonicalError>
    requires owner.Object? && forall i | 0 <= i < |ps| :: ps[i] in owner.props
    decreases owner, 0, |ps|
  {
    if ps == [] then None
    else if ps[0].value == Undefined then Some(UndefinedProperty)
    else if ErrorOf(ps[0].value).Some? then ErrorOf(ps[0].value)
    else ErrorOfFields(ps[1..], owner)
  }

  lemma {:induction false} ErrorOfMeaning(v: Value)
    ensures ErrorOf(v).None? <==> Accepts(v)
    decreases v, 0
  {
    match v
    case Array(items) => ErrorOfItemsMeaning(items);
    case Object(props) =>
      ErrorOfFieldsMeaning(Sort(props), v);
      assert Accepts(v) <==> forall p | p in Sort(props) :: Accepts(p.value);
    case _ =>
  }

  lemma {:induction false} ErrorOfItemsMeaning(items: seq<Value>)
    ensures ErrorOfItems(items).None? <==> forall i | 0 <= i < |items| :: Accepts(items[i])
    decreases items, 0
  {
    if items != [] {
      ErrorOfMeaning(items[0]);
      ErrorOfItemsMeaning(items[1..]);
      assert (forall i | 0 <= i < |items| :: Accepts(items[i]))
        <==> Accepts(items[0]) && forall i | 0 <= i < |items[1..]| :: Accepts(items[1..][i]) by {
        if Accepts(items[0]) && forall i | 0 <= i < |items[1..]| :: Accepts(items[1..][i]) {
          forall i | 0 <= i < |items| ensures Accepts(items[i]) {
            assert i > 0 ==> items[i] == items[1..][i - 1];
          }
        }
      }
    }
  }

  lemma {:induction false} ErrorOfFieldsMeaning(ps: seq<Field<Value>>, owner: Value)
    requires owner.Object? && forall i | 0 <= i < |ps| :: ps[i] in owner.props
    ensures ErrorOfFields(ps, owner).None? <==> forall p | p in ps :: Accepts(p.value)
    decreases owner, 0, |ps|
  {
    if ps != [] {
      ErrorOfMeaning(ps[0].value);
      ErrorOfFieldsMeaning(ps[1..], owner);
      assert forall p :: p in ps <==> p == ps[0] || p in ps[1..];
    }
  }

  /** The complaint is about the first offending part: of a list the first item, of an object the one whose key
      comes first. */
  ghost predicate Blames(v: Value, e: CanonicalError) {
    match v
    case Number(Whole(n)) => e == UnsafeInteger && !(-0x1f_ffff_ffff_ffff <= n <= 0x1f_ffff_ffff_ffff)
    case Number(Fractional) => e == NonIntegerNumber
    case Number(NonFinite) => e == NonFiniteNumber
    case Undefined => e == UndefinedValue
    case BigInt => e == BigIntValue
    case FunctionOrSymbol => e == NotRepresentable
    case Binary => e == BinaryValue
    case Array(items) =>
      exists i | 0 <= i < |items| :: Blames(items[i], e) && forall j | 0 <= j < i :: Accepts(items[j])
    case Object(props) =>
      exists p | p in props ::
        (if p.value == Undefined then e == UndefinedProperty else Blames(p.value, e))
        && forall q | q in props && Less(q.key, p.key) :: Accepts(q.value)
    case _ => false
  }

  lemma {:induction false} ErrorIsBlame(v: Value)
    requires Proper(v) && ErrorOf(v).Some?
    ensures Blames(v, ErrorOf(v).value)
    decreases v, 0
  {
    match v
    case Array(items) => ItemIsBlamed(items, 0, v);
    case Object(props) =>
      SortOrdered(props);
      FieldIsBlamed(Sort(props), 0, v);
    case _ =>
  }

  lemma {:induction false} ItemIsBlamed(items: seq<Value>, i: nat, owner: Value)
    requires owner.Array? && owner.items == items && Proper(owner) && i <= |items|
    requires ErrorOfItems(items[i..]).Some? && forall j | 0 <= j < i :: Accepts(items[j])
    ensures Blames(owner, ErrorOfItems(items[i..]).value)
    decreases owner, 0, |items| - i
  {
    assert items[i..][1..] == items[i + 1..] && items[i..][0] == items[i];
    ErrorOfMeaning(items[i]);
    if ErrorOf(items[i]).Some? {
      ErrorIsBlame(items[i]);
    } else {
      ItemIsBlamed(items, i + 1, owner);
    }
  }

  lemma {:induction false} FieldIsBlamed(ps: seq<Field<Value>>, i: nat, owner: Value)
    requires owner.Object? && ps == Sort(owner.props) && Proper(owner) && Ordered(ps) && i <= |ps|
    requires ErrorOfFields(ps[i..], owner).Some? && forall j | 0 <= j < i :: Accepts(ps[j].value)
    ensures Blames(owner, ErrorOfFields(ps[i..], owner).value)
    decreases owner, 0, |ps| - i
  {
    assert ps[i..][1..] == ps[i + 1..] && ps[i..][0] == ps[i];
    ErrorOfMeaning(ps[i].value);
    if ps[i].value == Undefined || ErrorOf(ps[i].value).Some? {
      SmallerAreAccepted(ps, i, owner);
      if ps[i].value != Undefined {
        ErrorIsBlame(ps[i].value);
      }
    } else {
      FieldIsBlamed(ps, i + 1, owner);
    }
  }

  lemma SmallerAreAccepted(ps: seq<Field<Value>>, i: nat, owner: Value)
    requires owner.Object? && ps == Sort(owner.props) && Ordered(ps) && i < |ps|
      && forall j | 0 <= j < i :: Accepts(ps[j].value)
    ensures ps[i] in owner.props && forall q | q in owner.props && Less(q.key, ps[i].key) :: Accepts(q.value)
  {
    hide Sort, Accepts, Less;
    forall q | q in owner.props && Less(q.key, ps[i].key) ensures Accepts(q.value) {
      assert q in ps;
      var j :| 0 <= j < |ps| && ps[j] == q;
      LessTrichotomy(q.key, ps[i].key);
    }
  }

  // ---------- the program's encoder ----------

  method EscapeString(s: Text) returns (out: Text)
    ensures out == Quoted(s)
  {
    out := [QUOTE];
    var i := 0;
    while i < |s|
      invariant 0 <= i <= |s|
      invariant out + EscapeAll(s[i..]) == [QUOTE] + EscapeAll(s)
    {
      assert s[i..][1..] == s[i + 1..];
      out := out + Escape(s[i]);
      i := i + 1;
    }
    out := out + [QUOTE];
  }

  /** canonicalize. */
  method Canonicalize(v: Value) returns (r: Result<Text, CanonicalError>)
    ensures Accepts(v) ==> r == Ok(Print(v))
    ensures !Accepts(v) ==> r.Err? && ErrorOf(v) == Some(r.error)
    decreases v, 0
  {
    ErrorOfMeaning(v);
    match v {
      case Null => r := Ok(NULL_TEXT);
      case Bool(b) => r := Ok(if b then TRUE_TEXT else FALSE_TEXT);
      case Number(NonFinite) => r := Err(NonFiniteNumber);
      case Number(Fractional) => r := Err(NonIntegerNumber);
      case Number(Whole(n)) =>
        if n < -MAX_SAFE_INTEGER || n > MAX_SAFE_INTEGER { return Err(UnsafeInteger); }
        r := Ok(PrintInt(n));
      case Number(MinusZero) => r := Ok([DIGIT_ZERO]);
      case String(s) =>
        var q := EscapeString(s);
        r := Ok(q);
      case Undefined => r := Err(UndefinedValue);
      case BigInt => r := Err(BigIntValue);
      case FunctionOrSymbol => r := Err(NotRepresentable);
      case Binary => r := Err(BinaryValue);
      case Array(items) =>
        var parts := CanonicalizeItems(items);
        ErrorOfItemsMeaning(items);
        r := if parts.Err? then Err(parts.error) else Ok([LEFT_BRACKET] + parts.value + [RIGHT_BRACKET]);
      case Object(props) =>
        var sorted := Sort(props);
        var parts := CanonicalizeFields(sorted, v);
        ErrorOfFieldsMeaning(sorted, v);
        r := if parts.Err? then Err(parts.error) else Ok([LEFT_BRACE] + parts.value + [RIGHT_BRACE]);
    }
  }

  function Join(parts: seq<Text>, separator: CodeUnit): Text {
    if parts == [] then []
    else if |parts| == 1 then parts[0]
    else parts[0] + [separator] + Join(parts[1..], separator)
  }

  method CanonicalizeItems(items: seq<Value>) returns (r: Result<Text, CanonicalError>)
    ensures r.Err? ==> ErrorOfItems(items) == Some(r.error)
    ensures r.Ok? ==> ErrorOfItems(items).None? && (forall i | 0 <= i < |items| :: Accepts(items[i]))
                      && r.value == PrintItems(items)
    decreases items, 0
  {
    var parts: seq<Text> := [];
    var i := 0;
    while i < |items|
      invariant 0 <= i <= |items| && |parts| == i
      invariant ErrorOfItems(items) == ErrorOfItems(items[i..])
      invariant forall k | 0 <= k < i :: Accepts(items[k]) && parts[k] == Print(items[k])
    {
      assert items[i..][1..] == items[i + 1..];
      ErrorOfMeaning(items[i]);
      var part := Canonicalize(items[i]);
      if part.Err? { return Err(part.error); }
      parts := parts + [part.value];
      i := i + 1;
    }
    JoinItems(items, parts);
    r := Ok(Join(parts, COMMA));
  }

  lemma {:induction false} JoinItems(items: seq<Value>, parts: seq<Text>)
    requires |parts| == |items|
    requires forall k | 0 <= k < |items| :: Accepts(items[k]) && parts[k] == Print(items[k])
    ensures Join(parts, COMMA) == PrintItems(items)
  {
    if |items| > 1 {
      JoinItems(items[1..], parts[1..]);
    }
  }

  method CanonicalizeFields(ps: seq<Field<Value>>, owner: Value) returns (r: Result<Text, CanonicalError>)
    requires owner.Object? && forall i | 0 <= i < |ps| :: ps[i] in owner.props
    ensures r.Err? ==> ErrorOfFields(ps, owner) == Some(r.error)
    ensures r.Ok? ==> ErrorOfFields(ps, owner).None? && (forall i | 0 <= i < |ps| :: Accepts(ps[i].value))
                      && r.value == PrintFields(ps, owner)
    decreases owner, 0, |ps|
  {
    var parts: seq<Text> := [];
    var i := 0;
    while i < |ps|
      invariant 0 <= i <= |ps| && |parts| == i
      invariant ErrorOfFields(ps, owner) == ErrorOfFields(ps[i..], owner)
      invariant forall k | 0 <= k < i :: Accepts(ps[k].value) && parts[k] == PrintField(ps[k])
    {
      assert ps[i..][1..] == ps[i + 1..];
      if ps[i].value == Undefined { return Err(UndefinedProperty); }
      ErrorOfMeaning(ps[i].value);
      var key := EscapeString(ps[i].key);
      var part := Canonicalize(ps[i].value);
      if part.Err? { return Err(part.error); }
      parts := parts + [key + [COLON] + part.value];
      i := i + 1;
    }
    JoinFields(ps, owner, parts);
    r := Ok(Join(parts, COMMA));
  }

  lemma {:induction false} JoinFields(ps: seq<Field<Value>>, owner: Value, parts: seq<Text>)
    requires |parts| == |ps| && owner.Object?
    requires forall k | 0 <= k < |ps| ::
      ps[k] in owner.props && Accepts(ps[k].value) && parts[k] == PrintField(ps[k])
    ensures Join(parts, COMMA) == PrintFields(ps, owner)
    decreases |ps|
  {
    if |ps| > 1 {
      JoinFields(ps[1..], owner, parts[1..]);
    }
  }

  // ---------- meaning ----------

  function MeaningOf(v: Value): Meaning
    requires Accepts(v)
    decreases v, 0
  {
    match v
    case Null => NullMeaning
    case Bool(b) => BoolMeaning(b)
    case Number(Whole(n)) => IntMeaning(n)
    case Number(_) => IntMeaning(0)
    case String(s) => TextMeaning(s)
    case Array(items) => ListMeaning(seq(|items|, i requires 0 <= i < |items| => MeaningOf(items[i])))
    case Object(props) => MapMeaning(MapOf(props, v))
  }

  /** The fields `ps` of the object `owner` as a finite map. */
  function MapOf(ps: seq<Field<Value>>, owner: Value): map<Text, Meaning>
    requires owner.Object? && forall i | 0 <= i < |ps| :: ps[i] in owner.props && Accepts(ps[i].value)
    decreases owner, 0, |ps|
  {
    if ps == [] then map[] else MapOf(ps[1..], owner)[ps[0].key := MeaningOf(ps[0].value)]
  }

  lemma {:induction false} MapOfMeaning(ps: seq<Field<Value>>, owner: Value)
    requires owner.Object? && forall i | 0 <= i < |ps| :: ps[i] in owner.props && Accepts(ps[i].value)
    requires DistinctKeys(ps)
    ensures forall p | p in ps :: p.key in MapOf(ps, owner) && MapOf(ps, owner)[p.key] == MeaningOf(p.value)
    ensures forall k | k in MapOf(ps, owner) :: exists p :: p in ps && p.key == k
    decreases |ps|
  {
    if ps != [] {
      MapOfMeaning(ps[1..], owner);
      forall p | p in ps
        ensures p.key in MapOf(ps, owner) && MapOf(ps, owner)[p.key] == MeaningOf(p.value)
      {
        if p != ps[0] {
          assert p in ps[1..];
          var i :| 0 <= i < |ps[1..]| && ps[1..][i] == p;
          assert ps[i + 1] == p;
        }
      }
      forall k | k in MapOf(ps, owner) ensures exists p :: p in ps && p.key == k {
        if k == ps[0].key {
          assert ps[0] in ps;
        }
      }
    }
  }

  lemma OrderedIsDistinct<T>(fs: seq<Field<T>>)
    requires Ordered(fs)
    ensures DistinctKeys(fs)
  {
    forall i, j | 0 <= i < j < |fs| ensures fs[i].key != fs[j].key {
      LessTrichotomy(fs[i].key, fs[j].key);
    }
  }

  lemma MapOfSorted(props: seq<Field<Value>>, owner: Value)
    requires owner.Object? && owner.props == props && Accepts(owner) && DistinctKeys(props)
    ensures MapOf(Sort(props), owner) == MapOf(props, owner)
  {
    hide MeaningOf, MapOf, Sort, Less;
    SortOrdered(props);
    OrderedIsDistinct(Sort(props));
    var a, b := MapOf(Sort(props), owner), MapOf(props, owner);
    MapOfMeaning(props, owner);
    MapOfMeaning(Sort(props), owner);
    assert a.Keys == b.Keys;
    forall k | k in a ensures a[k] == b[k] {
      var p :| p in props && p.key == k;
      assert p in Sort(props);
    }
  }

  // ---------- insertion order does not show ----------

  /** Values with the same meaning print the same text. */
  lemma {:induction false} SameMeaningSameText(v: Value, w: Value)
    requires Proper(v) && Proper(w) && Accepts(v) && Accepts(w) && MeaningOf(v) == MeaningOf(w)
    ensures Print(v) == Print(w)
    decreases v, 0
  {
    match v
    case Array(items) =>
      assert |MeaningOf(v).items| == |items| && |MeaningOf(w).items| == |w.items|;
      SameItems(items, w.items);
    case Object(props) =>
      MapOfSorted(props, v);
      MapOfSorted(w.props, w);
      SortOrdered(props);
      SortOrdered(w.props);
      SameFields(Sort(props), v, Sort(w.props), w);
    case _ =>
  }

  lemma {:induction false} SameItems(a: seq<Value>, b: seq<Value>)
    requires |a| == |b|
    requires forall i | 0 <= i < |a| :: Proper(a[i]) && Proper(b[i]) && Accepts(a[i]) && Accepts(b[i])
    requires Accepts(Array(a)) && Accepts(Array(b)) && MeaningOf(Array(a)) == MeaningOf(Array(b))
    ensures PrintItems(a) == PrintItems(b)
    decreases a, 0
  {
    if a != [] {
      var s, t := MeaningOf(Array(a)).items, MeaningOf(Array(b)).items;
      assert s[0] == t[0];
      SameMeaningSameText(a[0], b[0]);
      forall i | 0 <= i < |a[1..]| ensures MeaningOf(a[1..][i]) == MeaningOf(b[1..][i]) {
        assert s[i + 1] == t[i + 1];
      }
      SameItems(a[1..], b[1..]);
    }
  }

  lemma {:induction false} SameFields(a: seq<Field<Value>>, v: Value, b: seq<Field<Value>>, w: Value)
    requires v.Object? && w.Object? && Ordered(a) && Ordered(b)
    requires forall i | 0 <= i < |a| :: a[i] in v.props && Accepts(a[i].value) && Proper(a[i].value)
    requires forall i | 0 <= i < |b| :: b[i] in w.props && Accepts(b[i].value) && Proper(b[i].value)
    requires MapOf(a, v) == MapOf(b, w)
    ensures PrintFields(a, v) == PrintFields(b, w)
    decreases v, 0, |a|
  {
    hide Print, MeaningOf, Less, PrintField, PrintFields, MapOf;
    SameKeys(a, v, b, w);
    FieldsText(a, v);
    FieldsText(b, w);
    if a != [] {
      LeastKey(a, v, b, w);
      HeadMeaning(a, v);
      HeadMeaning(b, w);
      SameMeaningSameText(a[0].value, b[0].value);
      assert PrintField(a[0]) == PrintField(b[0]) by { SameField(a[0], b[0]); }
      OrderedIsDistinct(a);
      OrderedIsDistinct(b);
      RestOfMap(a, v);
      RestOfMap(b, w);
      assert Ordered(a[1..]) && Ordered(b[1..]);
      SameFields(a[1..], v, b[1..], w);
      SameKeys(a[1..], v, b[1..], w);
    }
  }

  lemma FieldsText(ps: seq<Field<Value>>, owner: Value)
    requires owner.Object? && forall i | 0 <= i < |ps| :: ps[i] in owner.props && Accepts(ps[i].value)
    ensures PrintFields(ps, owner) ==
      if ps == [] then []
      else PrintField(ps[0]) + if ps[1..] == [] then [] else [COMMA] + PrintFields(ps[1..], owner)
  {
    hide PrintField;
  }

  lemma RestOfMap(ps: seq<Field<Value>>, owner: Value)
    requires owner.Object? && ps != [] && DistinctKeys(ps)
    requires forall i | 0 <= i < |ps| :: ps[i] in owner.props && Accepts(ps[i].value)
    ensures MapOf(ps[1..], owner) == MapOf(ps, owner) - {ps[0].key}
  {
    hide MeaningOf;
    NotLater(ps, owner);
  }

  lemma SameField(p: Field<Value>, q: Field<Value>)
    requires Accepts(p.value) && Accepts(q.value) && p.key == q.key && Print(p.value) == Print(q.value)
    ensures PrintField(p) == PrintField(q)
  {}

  lemma HeadMeaning(a: seq<Field<Value>>, v: Value)
    requires v.Object? && a != [] && forall i | 0 <= i < |a| :: a[i] in v.props && Accepts(a[i].value)
    ensures a[0].key in MapOf(a, v) && MapOf(a, v)[a[0].key] == MeaningOf(a[0].value)
  {}

  lemma SameKeys(a: seq<Field<Value>>, v: Value, b: seq<Field<Value>>, w: Value)
    requires v.Object? && w.Object?
    requires forall i | 0 <= i < |a| :: a[i] in v.props && Accepts(a[i].value)
    requires forall i | 0 <= i < |b| :: b[i] in w.props && Accepts(b[i].value)
    requires MapOf(a, v) == MapOf(b, w)
    ensures a == [] <==> b == []
  {
    if a != [] { HeadMeaning(a, v); }
    if b != [] { HeadMeaning(b, w); }
  }

  lemma NotLater(a: seq<Field<Value>>, v: Value)
    requires v.Object? && a != [] && DistinctKeys(a)
    requires forall i | 0 <= i < |a| :: a[i] in v.props && Accepts(a[i].value)
    ensures a[0].key !in MapOf(a[1..], v)
  {
    MapOfMeaning(a[1..], v);
    forall p | p in a[1..] ensures p.key != a[0].key {
      var i :| 0 <= i < |a[1..]| && a[1..][i] == p;
      assert a[i + 1] == p;
    }
  }

  lemma LeastKey(a: seq<Field<Value>>, v: Value, b: seq<Field<Value>>, w: Value)
    requires v.Object? && w.Object? && Ordered(a) && Ordered(b) && a != [] && b != []
    requires forall i | 0 <= i < |a| :: a[i] in v.props && Accepts(a[i].value)
    requires forall i | 0 <= i < |b| :: b[i] in w.props && Accepts(b[i].value)
    requires MapOf(a, v) == MapOf(b, w)
    ensures a[0].key == b[0].key
  {
    OrderedIsDistinct(a);
    OrderedIsDistinct(b);
    MapOfMeaning(a, v);
    MapOfMeaning(b, w);
    assert a[0] in a && b[0] in b;
    var p :| p in b && p.key == a[0].key;
    var q :| q in a && q.key == b[0].key;
    var i :| 0 <= i < |b| && b[i] == p;
    var j :| 0 <= j < |a| && a[j] == q;
    if i > 0 && j > 0 {
      assert Less(b[0].key, b[i].key) && Less(a[0].key, a[j].key);
      LessTrichotomy(a[0].key, b[0].key);
      assert false;
    }
  }

  // ---------- a reader of canonical text ----------

  datatype Parsed<T> = Fail | Read(value: T, rest: Text)

  function HexValue(u: CodeUnit): Option<nat> {
    if 0x30 <= u <= 0x39 then Some(u - 0x30)
    else if 0x61 <= u <= 0x66 then Some(u - 0x61 + 10)
    else None
  }

  function Unescape(u: CodeUnit): Option<CodeUnit> {
    if u == QUOTE || u == BACKSLASH then Some(u)
    else if u == 0x62 then Some(0x08)
    else if u == 0x66 then Some(0x0c)
    else if u == 0x6e then Some(0x0a)
    else if u == 0x72 then Some(0x0d)
    else if u == 0x74 then Some(0x09)
    else None
  }

  /** Reads string characters up to and including the closing quote. */
  function ReadString(t: Text): (r: Parsed<Text>)
    ensures r.Read? ==> |r.rest| < |t|
  {
    if t == [] then Fail
    else if t[0] == QUOTE then Read([], t[1..])
    else if t[0] == BACKSLASH then
      if |t| < 2 then Fail
      else if t[1] == LOWER_U then
        if |t| < 6 || HexValue(t[4]).None? || HexValue(t[5]).None? then Fail
        else Prefixed([16 * HexValue(t[4]).value + HexValue(t[5]).value], ReadString(t[6..]))
      else if Unescape(t[1]).None? then Fail
      else Prefixed([Unescape(t[1]).value], ReadString(t[2..]))
    else Prefixed([t[0]], ReadString(t[1..]))
  }

  function Prefixed(s: Text, r: Parsed<Text>): Parsed<Text> {
    if r.Fail? then Fail else Read(s + r.value, r.rest)
  }

  predicate IsDigit(u: CodeUnit) {
    DIGIT_ZERO <= u <= DIGIT_ZERO + 9
  }

  function ReadDigits(t: Text, acc: nat): (r: Parsed<nat>)
    ensures r.Read? && |r.rest| <= |t|
    ensures t != [] && IsDigit(t[0]) ==> |r.rest| < |t|
  {
    if t == [] || !IsDigit(t[0]) then Read(acc, t) else ReadDigits(t[1..], 10 * acc + (t[0] - DIGIT_ZERO))
  }

  function ReadValue(t: Text): (r: Parsed<Meaning>)
    ensures r.Read? ==> |r.rest| < |t|
    decreases |t|, 1
  {
    if t == [] then Fail
    else if t[0] == QUOTE then
      var s := ReadString(t[1..]);
      if s.Fail? then Fail else Read(TextMeaning(s.value), s.rest)
    else if t[0] == MINUS then
      if |t| < 2 || !IsDigit(t[1]) then Fail else
      var d := ReadDigits(t[1..], 0);
      Read(IntMeaning(0 - d.value), d.rest)
    else if IsDigit(t[0]) then
      var d := ReadDigits(t, 0);
      Read(IntMeaning(d.value), d.rest)
    else if t[0] == LEFT_BRACKET then
      if |t| > 1 && t[1] == RIGHT_BRACKET then Read(ListMeaning([]), t[2..])
      else
        var l := ReadItems(t[1..]);
        if l.Fail? then Fail else Read(ListMeaning(l.value), l.rest)
    else if t[0] == LEFT_BRACE then
      if |t| > 1 && t[1] == RIGHT_BRACE then Read(MapMeaning(map[]), t[2..])
      else
        var m := ReadFields(t[1..]);
        if m.Fail? then Fail else Read(MapMeaning(m.value), m.rest)
    else if NULL_TEXT <= t then Read(NullMeaning, t[4..])
    else if TRUE_TEXT <= t then Read(BoolMeaning(true), t[4..])
    else if FALSE_TEXT <= t then Read(BoolMeaning(false), t[5..])
    else Fail
  }

  /** Reads one or more list items and the closing bracket. */
  function ReadItems(t: Text): (r: Parsed<seq<Meaning>>)
    ensures r.Read? ==> |r.rest| < |t|
    decreases |t|, 2
  {
    var v := ReadValue(t);
    if v.Fail? || v.rest == [] then Fail
    else if v.rest[0] == RIGHT_BRACKET then Read([v.value], v.rest[1..])
    else if v.rest[0] == COMMA then
      var more := ReadItems(v.rest[1..]);
      if more.Fail? then Fail else Read([v.value] + more.value, more.rest)
    else Fail
  }

  /** Reads one or more fields and the closing brace. */
  function ReadFields(t: Text): (r: Parsed<map<Text, Meaning>>)
    ensures r.Read? ==> |r.rest| < |t|
    decreases |t|, 2
  {
    if t == [] || t[0] != QUOTE then Fail else
    var k := ReadString(t[1..]);
    if k.Fail? || k.rest == [] || k.rest[0] != COLON then Fail else
    var v := ReadValue(k.rest[1..]);
    if v.Fail? || v.rest == [] then Fail
    else if v.rest[0] == RIGHT_BRACE then Read(map[k.value := v.value], v.rest[1..])
    else if v.rest[0] == COMMA then
      var more := ReadFields(v.rest[1..]);
      if more.Fail? then Fail else Read(more.value[k.value := v.value], more.rest)
    else Fail
  }

  // ---------- reading inverts printing ----------

  lemma ReadEscaped(u: CodeUnit, t: Text)
    ensures ReadString(Escape(u) + t) == Prefixed([u], ReadString(t))
  {
    var e := Escape(u) + t;
    if u == QUOTE || u == BACKSLASH || u == 0x08 || u == 0x0c || u == 0x0a || u == 0x0d || u == 0x09 {
      assert e[0] == BACKSLASH && e[2..] == t;
    } else if u < 0x20 {
      assert e[6..] == t && e[4] == HexDigit(u / 16) && e[5] == HexDigit(u % 16);
    } else {
      assert e[1..] == t;
    }
  }

  lemma {:induction false} ReadQuoted(s: Text, r: Text)
    ensures ReadString(EscapeAll(s) + [QUOTE] + r) == Read(s, r)
  {
    if s == [] {
      assert [QUOTE] + r == EscapeAll(s) + [QUOTE] + r;
      assert ([QUOTE] + r)[1..] == r;
    } else {
      var t := EscapeAll(s[1..]) + [QUOTE] + r;
      assert EscapeAll(s) + [QUOTE] + r == Escape(s[0]) + t;
      ReadEscaped(s[0], t);
      ReadQuoted(s[1..], r);
      assert [s[0]] + s[1..] == s;
    }
  }

  /** What may follow a value in canonical text. */
  predicate Follows(r: Text) {
    r == [] || r[0] == COMMA || r[0] == RIGHT_BRACKET || r[0] == RIGHT_BRACE
  }

  function Horner(ds: Text, acc: nat): nat
    requires forall i | 0 <= i < |ds| :: IsDigit(ds[i])
  {
    if ds == [] then acc else
    assert IsDigit(ds[0]);
    Horner(ds[1..], 10 * acc + (ds[0] - DIGIT_ZERO))
  }

  lemma {:induction false} ReadDigitsHorner(ds: Text, acc: nat, r: Text)
    requires (forall i | 0 <= i < |ds| :: IsDigit(ds[i])) && Follows(r)
    ensures ReadDigits(ds + r, acc) == Read(Horner(ds, acc), r)
  {
    if ds == [] {
      assert ds + r == r;
    } else {
      assert (ds + r)[1..] == ds[1..] + r;
      ReadDigitsHorner(ds[1..], 10 * acc + (ds[0] - DIGIT_ZERO), r);
    }
  }

  lemma {:induction false} HornerLast(ds: Text, d: CodeUnit, acc: nat)
    requires (forall i | 0 <= i < |ds| :: IsDigit(ds[i])) && IsDigit(d)
    ensures Horner(ds + [d], acc) == 10 * Horner(ds, acc) + (d - DIGIT_ZERO)
  {
    if ds == [] {
      assert (ds + [d])[1..] == [];
    } else {
      assert (ds + [d])[1..] == ds[1..] + [d];
      HornerLast(ds[1..], d, 10 * acc + (ds[0] - DIGIT_ZERO));
    }
  }

  lemma {:induction false} HornerDecimal(n: nat)
    ensures Horner(Decimal(n), 0) == n
  {
    if n >= 10 {
      HornerDecimal(n / 10);
      HornerLast(Decimal(n / 10), DIGIT_ZERO + n % 10, 0);
    }
  }

  lemma DigitsFirst(t: Text)
    requires t != [] && IsDigit(t[0])
    ensures ReadValue(t) == var d := ReadDigits(t, 0); Read(IntMeaning(d.value), d.rest)
  {
    hide ReadDigits, ReadItems, ReadFields, ReadString;
  }

  lemma MinusFirst(t: Text)
    requires |t| > 1 && t[0] == MINUS && IsDigit(t[1])
    ensures ReadValue(t) == var d := ReadDigits(t[1..], 0); Read(IntMeaning(0 - d.value), d.rest)
  {
    hide ReadDigits, ReadItems, ReadFields, ReadString;
  }

  lemma ReadInt(n: int, r: Text)
    requires Follows(r)
    ensures ReadValue(PrintInt(n) + r) == Read(IntMeaning(n), r)
  {
    hide *;
    if n < 0 {
      var ds := Decimal(-n);
      SignAndDigits(n);
      assert ([MINUS] + ds + r)[1..] == ds + r;
      MinusFirst([MINUS] + ds + r);
      ReadNatural(-n, r);
    } else {
      SignAndDigits(n);
      DigitsFirst(Decimal(n) + r);
      ReadNatural(n, r);
    }
  }

  lemma SignAndDigits(n: int)
    ensures n < 0 ==> PrintInt(n) == [MINUS] + Decimal(-n) && IsDigit(Decimal(-n)[0])
    ensures n >= 0 ==> PrintInt(n) == Decimal(n) && IsDigit(Decimal(n)[0])
  {
    hide Decimal;
  }

  lemma ReadNatural(m: nat, r: Text)
    requires Follows(r)
    ensures ReadDigits(Decimal(m) + r, 0) == Read(m, r)
  {
    hide ReadDigits, Decimal, Horner;
    HornerDecimal(m);
    ReadDigitsHorner(Decimal(m), 0, r);
  }

  lemma ReadConstant(v: Value, r: Text)
    requires v.Null? || v.Bool? || v == Number(MinusZero)
    requires Follows(r)
    ensures ReadValue(Print(v) + r) == Read(MeaningOf(v), r)
  {
    var t := Print(v) + r;
    match v
    case Null => assert t[4..] == r;
    case Bool(b) => assert if b then t[4..] == r else t[5..] == r;
    case Number(_) =>
      assert PrintInt(0) == [DIGIT_ZERO];
      ReadInt(0, r);
  }

  lemma ReadBracket(t: Text)
    requires |t| > 1 && t[0] == LEFT_BRACKET && t[1] != RIGHT_BRACKET && ReadItems(t[1..]).Read?
    ensures ReadValue(t) == Read(ListMeaning(ReadItems(t[1..]).value), ReadItems(t[1..]).rest)
  {
    hide ReadItems;
  }

  lemma ReadBrace(t: Text)
    requires |t| > 1 && t[0] == LEFT_BRACE && t[1] != RIGHT_BRACE && ReadFields(t[1..]).Read?
    ensures ReadValue(t) == Read(MapMeaning(ReadFields(t[1..]).value), ReadFields(t[1..]).rest)
  {
    hide ReadFields;
  }

  /** Reading the text of a value, followed by anything that may follow it, gives back its meaning. */
  lemma {:induction false} ReadPrinted(v: Value, r: Text)
    requires Proper(v) && Accepts(v) && Follows(r)
    ensures ReadValue(Print(v) + r) == Read(MeaningOf(v), r)
    decreases v, 1
  {
    hide ReadValue, Print, MeaningOf;
    match v
    case Null => ReadConstant(v, r);
    case Bool(b) => ReadConstant(v, r);
    case Number(Whole(n)) => ReadNumber(v, r);
    case Number(MinusZero) => ReadConstant(v, r);
    case String(s) => ReadText(v, r);
    case Array(items) => ReadArray(v, r);
    case Object(props) => ReadObject(v, r);
  }

  lemma ReadNumber(v: Value, r: Text)
    requires v.Number? && v.num.Whole? && Accepts(v) && Follows(r)
    ensures ReadValue(Print(v) + r) == Read(MeaningOf(v), r)
  {
    ReadInt(v.num.n, r);
  }

  lemma ReadText(v: Value, r: Text)
    requires v.String?
    ensures ReadValue(Print(v) + r) == Read(MeaningOf(v), r)
  {
    hide ReadString, EscapeAll;
    assert (Print(v) + r)[1..] == EscapeAll(v.s) + [QUOTE] + r;
    ReadQuoted(v.s, r);
  }

  lemma {:induction false} ReadArray(v: Value, r: Text)
    requires v.Array? && Proper(v) && Accepts(v) && Follows(r)
    ensures ReadValue(Print(v) + r) == Read(MeaningOf(v), r)
    decreases v, 0
  {
    hide ReadItems, PrintItems;
    var t := Print(v) + r;
    if v.items == [] {
      EmptyArray();
      assert t == [LEFT_BRACKET, RIGHT_BRACKET] + r;
      assert t[2..] == r;
      assert MeaningOf(v).items == [];
    } else {
      assert t[1..] == PrintItems(v.items) + [RIGHT_BRACKET] + r;
      ReadPrintedItems(v.items, r);
      ItemsStart(v.items);
      ReadBracket(t);
    }
  }

  lemma EmptyArray()
    ensures PrintItems([]) == []
  {}

  lemma ItemsStart(items: seq<Value>)
    requires items != [] && forall i | 0 <= i < |items| :: Accepts(items[i])
    ensures PrintItems(items) != [] && PrintItems(items)[0] != RIGHT_BRACKET
  {
    hide Print;
    PrintedStart(items[0]);
  }

  lemma {:induction false} ReadObject(v: Value, r: Text)
    requires v.Object? && Proper(v) && Accepts(v) && Follows(r)
    ensures ReadValue(Print(v) + r) == Read(MeaningOf(v), r)
    decreases v, 0
  {
    hide ReadValue, ReadFields, MapOf, Sort, Print, PrintFields, MeaningOf;
    var t := Print(v) + r;
    ObjectText(v);
    MapOfSorted(v.props, v);
    if v.props == [] {
      EmptyObject(v);
      assert t == [LEFT_BRACE, RIGHT_BRACE] + r;
      ReadNoFields(r);
    } else {
      var ps := Sort(v.props);
      assert t[1..] == PrintFields(ps, v) + [RIGHT_BRACE] + r;
      FieldsStart(ps, v);
      ReadPrintedFields(ps, v, r);
      ReadBrace(t);
    }
  }

  lemma ObjectText(v: Value)
    requires v.Object? && Accepts(v)
    ensures Print(v) == [LEFT_BRACE] + PrintFields(Sort(v.props), v) + [RIGHT_BRACE]
    ensures MeaningOf(v) == MapMeaning(MapOf(v.props, v))
  {}

  lemma FieldsStart(ps: seq<Field<Value>>, owner: Value)
    requires owner.Object? && ps != [] && forall i | 0 <= i < |ps| :: ps[i] in owner.props && Accepts(ps[i].value)
    ensures PrintFields(ps, owner) != [] && PrintFields(ps, owner)[0] == QUOTE
  {
    hide Print, Accepts;
  }

  lemma ReadNoFields(r: Text)
    ensures ReadValue([LEFT_BRACE, RIGHT_BRACE] + r) == Read(MapMeaning(map[]), r)
  {
    hide ReadFields, ReadItems, ReadDigits, ReadString;
    assert ([LEFT_BRACE, RIGHT_BRACE] + r)[2..] == r;
  }

  lemma EmptyObject(v: Value)
    requires v.Object? && v.props == []
    ensures PrintFields(Sort(v.props), v) == [] && MapOf(v.props, v) == map[]
  {}

  /** No printed value starts with a closing bracket. */
  lemma PrintedStart(v: Value)
    requires Accepts(v)
    ensures Print(v) != [] && Print(v)[0] != RIGHT_BRACKET
  {}

  lemma {:induction false} ReadPrintedItems(items: seq<Value>, r: Text)
    requires items != [] && Follows(r)
    requires forall i | 0 <= i < |items| :: Proper(items[i]) && Accepts(items[i])
    ensures ReadItems(PrintItems(items) + [RIGHT_BRACKET] + r) == Read(MeaningOf(Array(items)).items, r)
    decreases items, 0
  {
    hide ReadValue, Print, MeaningOf;
    var t := PrintItems(items) + [RIGHT_BRACKET] + r;
    ItemMeanings(items);
    if |items| == 1 {
      var rest := [RIGHT_BRACKET] + r;
      assert t == Print(items[0]) + rest;
      ReadPrinted(items[0], rest);
      assert rest[1..] == r;
    } else {
      var more := PrintItems(items[1..]) + [RIGHT_BRACKET] + r;
      var rest := [COMMA] + more;
      assert t == Print(items[0]) + rest;
      ReadPrinted(items[0], rest);
      assert rest[1..] == more;
      ReadPrintedItems(items[1..], r);
    }
  }

  lemma ItemMeanings(items: seq<Value>)
    requires items != [] && forall i | 0 <= i < |items| :: Accepts(items[i])
    ensures Accepts(Array(items)) && Accepts(Array(items[1..]))
    ensures MeaningOf(Array(items)).ListMeaning? && MeaningOf(Array(items[1..])).ListMeaning?
    ensures MeaningOf(Array(items)).items == [MeaningOf(items[0])] + MeaningOf(Array(items[1..])).items
    ensures |items| == 1 ==> MeaningOf(Array(items)).items == [MeaningOf(items[0])]
  {}

  lemma {:induction false} ReadPrintedFields(ps: seq<Field<Value>>, owner: Value, r: Text)
    requires ps != [] && Follows(r) && owner.Object?
    requires forall i | 0 <= i < |ps| :: ps[i] in owner.props && Proper(ps[i].value) && Accepts(ps[i].value)
    ensures ReadFields(PrintFields(ps, owner) + [RIGHT_BRACE] + r) == Read(MapOf(ps, owner), r)
    decreases owner, 0, |ps|
  {
    hide ReadValue, ReadString, Print, EscapeAll, MeaningOf;
    var t := PrintFields(ps, owner) + [RIGHT_BRACE] + r;
    var p := ps[0];
    var more := if |ps| == 1 then r else PrintFields(ps[1..], owner) + [RIGHT_BRACE] + r;
    var rest := (if |ps| == 1 then [RIGHT_BRACE] else [COMMA]) + more;
    assert rest[1..] == more;
    assert t == PrintField(p) + rest;
    ReadPrinted(p.value, rest);
    ReadKey(p, rest);
    if |ps| == 1 {
      assert MapOf(ps[1..], owner) == map[];
    } else {
      ReadPrintedFields(ps[1..], owner, r);
    }
  }

  lemma ReadKey(p: Field<Value>, rest: Text)
    requires Accepts(p.value)
    ensures var t := PrintField(p) + rest;
      && t[0] == QUOTE
      && ReadString(t[1..]) == Read(p.key, [COLON] + (Print(p.value) + rest))
      && ([COLON] + (Print(p.value) + rest))[1..] == Print(p.value) + rest
  {
    hide ReadString, Print, EscapeAll;
    var afterKey := [COLON] + (Print(p.value) + rest);
    assert (PrintField(p) + rest)[1..] == EscapeAll(p.key) + [QUOTE] + afterKey;
    ReadQuoted(p.key, afterKey);
  }

  /** The canonical text determines the value and is determined by it, objects read as finite maps. */
  lemma CanonicalTextIsTheMeaning(v: Value, w: Value)
    requires Proper(v) && Proper(w) && Accepts(v) && Accepts(w)
    ensures Print(v) == Print(w) <==> MeaningOf(v) == MeaningOf(w)
  {
    ReadPrinted(v, []);
    ReadPrinted(w, []);
    assert Print(v) + [] == Print(v) && Print(w) + [] == Print(w);
    if MeaningOf(v) == MeaningOf(w) {
      SameMeaningSameText(v, w);
    }
  }
}
