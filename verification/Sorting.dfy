/** The language's stable sort by an integer key. */
module Sorting {
  ghost predicate SortedBy<T(!new)>(key: T -> int, s: seq<T>) {
    forall i, j | 0 <= i < j < |s| :: key(s[i]) <= key(s[j])
  }

  /** Inserts after every element whose key is not greater. */
  function InsertBy<T>(key: T -> int, x: T, s: seq<T>): (r: seq<T>)
    ensures |r| == |s| + 1
  {
    if s == [] || key(s[|s| - 1]) <= key(x) then s + [x]
    else InsertBy(key, x, s[..|s| - 1]) + [s[|s| - 1]]
  }

  function SortBy<T>(key: T -> int, s: seq<T>): (r: seq<T>)
    ensures |r| == |s|
  {
    if s == [] then [] else InsertBy(key, s[|s| - 1], SortBy(key, s[..|s| - 1]))
  }

  lemma {:induction false} InsertBySorted<T(!new)>(key: T -> int, x: T, s: seq<T>)
    requires SortedBy(key, s)
    ensures SortedBy(key, InsertBy(key, x, s)) && multiset(InsertBy(key, x, s)) == multiset(s) + multiset{x}
  {
    hide SortedBy;
    if s == [] || key(s[|s| - 1]) <= key(x) {
      SortedAppend(key, s, x);
    } else {
      var init, last := s[..|s| - 1], s[|s| - 1];
      SortedInit(key, s);
      InsertBySorted(key, x, init);
      SortedPush(key, InsertBy(key, x, init), x, init, last);
      assert s == init + [last];
    }
  }

  lemma SortedAppend<T(!new)>(key: T -> int, s: seq<T>, x: T)
    requires SortedBy(key, s) && (s == [] || key(s[|s| - 1]) <= key(x))
    ensures SortedBy(key, s + [x])
  {}

  lemma SortedInit<T(!new)>(key: T -> int, s: seq<T>)
    requires SortedBy(key, s) && s != []
    ensures var init := s[..|s| - 1];
      SortedBy(key, init) && forall i | 0 <= i < |init| :: key(init[i]) <= key(s[|s| - 1])
  {}

  lemma SortedPush<T(!new)>(key: T -> int, r: seq<T>, x: T, init: seq<T>, last: T)
    requires SortedBy(key, r) && multiset(r) == multiset(init) + multiset{x}
    requires key(x) <= key(last) && forall i | 0 <= i < |init| :: key(init[i]) <= key(last)
    ensures SortedBy(key, r + [last])
  {
    forall i | 0 <= i < |r| ensures key(r[i]) <= key(last) {
      assert r[i] in multiset(r);
      assert r[i] == x || r[i] in init;
    }
  }

  /** The result is the input in order of its keys. */
  lemma {:induction false} SortByMeaning<T(!new)>(key: T -> int, s: seq<T>)
    ensures SortedBy(key, SortBy(key, s)) && multiset(SortBy(key, s)) == multiset(s)
  {
    if s != [] {
      SortByMeaning(key, s[..|s| - 1]);
      InsertBySorted(key, s[|s| - 1], SortBy(key, s[..|s| - 1]));
      assert s == s[..|s| - 1] + [s[|s| - 1]];
    }
  }

  lemma {:induction false} SortedIsFixed<T(!new)>(key: T -> int, s: seq<T>)
    requires SortedBy(key, s)
    ensures SortBy(key, s) == s
  {
    if s != [] {
      SortedIsFixed(key, s[..|s| - 1]);
      assert s == s[..|s| - 1] + [s[|s| - 1]];
      assert |s| > 1 ==> key(s[..|s| - 1][|s| - 2]) <= key(s[|s| - 1]);
    }
  }
}
