/** Keyed tables: the greatest key of a non-empty table. */
module Tables {
  lemma Member<T>(keys: set<T>) returns (k: T)
    requires keys != {}
    ensures k in keys
  {
    k :| k in keys;
  }

  lemma {:induction false} GreatestExists(keys: set<int>)
    requires keys != {}
    ensures exists m :: m in keys && forall k | k in keys :: k <= m
    decreases |keys|
  {
    var k := Member(keys);
    var rest := keys - {k};
    if rest == {} {
      assert keys == {k};
    } else {
      GreatestExists(rest);
      var m :| m in rest && forall j | j in rest :: j <= m;
      var best := if m < k then k else m;
      assert forall j | j in keys :: j == k || j in rest;
      assert best in keys && forall j | j in keys :: j <= best;
    }
  }

  /** The greatest key: the row that `ORDER BY seq DESC LIMIT 1` selects. */
  ghost function Greatest(keys: set<int>): (m: int)
    requires keys != {}
    ensures m in keys && forall k | k in keys :: k <= m
  {
    GreatestExists(keys);
    var m :| m in keys && forall k | k in keys :: k <= m;
    m
  }
}
