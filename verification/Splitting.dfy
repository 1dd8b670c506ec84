/** `split` with a separator of one code unit, the inverse of `join`. */
module Splitting {
  import opened Canonical

  function Split(t: Text, separator: CodeUnit): (parts: seq<Text>)
    ensures |parts| > 0
  {
    if t == [] then [[]]
    else
      var rest := Split(t[1..], separator);
      if t[0] == separator then [[]] + rest else [[t[0]] + rest[0]] + rest[1..]
  }

  predicate Without(part: Text, separator: CodeUnit) {
    forall i | 0 <= i < |part| :: part[i] != separator
  }

  /** The first part ends at the first separator. */
  lemma {:induction false} SplitFirst(part: Text, t: Text, separator: CodeUnit)
    requires Without(part, separator)
    ensures Split(part + [separator] + t, separator) == [part] + Split(t, separator)
  {
    var s := part + [separator] + t;
    if part == [] {
      assert s[1..] == t;
    } else {
      assert s[1..] == part[1..] + [separator] + t;
      SplitFirst(part[1..], t, separator);
      assert [part[0]] + part[1..] == part;
    }
  }

  lemma {:induction false} SplitOne(part: Text, separator: CodeUnit)
    requires Without(part, separator)
    ensures Split(part, separator) == [part]
  {
    if part != [] {
      SplitOne(part[1..], separator);
      assert [part[0]] + part[1..] == part;
    }
  }

  lemma {:induction false} SplitJoin(parts: seq<Text>, separator: CodeUnit)
    requires parts != [] && forall i | 0 <= i < |parts| :: Without(parts[i], separator)
    ensures Split(Join(parts, separator), separator) == parts
  {
    hide Split, Without;
    if |parts| == 1 {
      SplitOne(parts[0], separator);
    } else {
      SplitJoin(parts[1..], separator);
      SplitFirst(parts[0], Join(parts[1..], separator), separator);
    }
  }
}
