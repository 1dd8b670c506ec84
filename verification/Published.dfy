/** From the file to the verdict: an auditor verifies what a published file parses to. */
module Published {
  import opened Wrappers
  import opened Canonical
  import opened Log
  import opened LogVerify
  import opened Sorting
  import opened Tables
  import E = Evidence
  import S = LogStore
  import H = HonestLog

  // ---------- the contents of a file decide the report ----------

  lemma SameBodyText(e: LogEntry, f: LogEntry)
    requires E.SameEntry(e, f) && Proper(e.payload) && Proper(f.payload)
    ensures Committable(e) <==> Committable(f)
    ensures Committable(e) ==> Commitment(e) == Commitment(f)
  {
    hide Print, MeaningOf, Proper;
    BodyAccepts(e);
    BodyAccepts(f);
    if Committable(e) {
      BodiesMeanTheSame(e, f);
      CommitmentIsBinding(e, f);
    }
  }

  /** A body is accepted when its numbers are safe and its payload is accepted. */
  lemma BodyAccepts(e: LogEntry)
    ensures Committable(e) <==> Accepts(Number(Whole(e.seqNo))) && Accepts(Number(Whole(e.ts))) && Accepts(e.payload)
  {
    var ps := BodyOf(e).props;
    assert ps[0] in ps && ps[1] in ps && ps[4] in ps;
    if Accepts(ps[0].value) && Accepts(ps[1].value) && Accepts(e.payload) {
      forall p | p in ps ensures Accepts(p.value) {}
    }
  }

  lemma BodiesMeanTheSame(e: LogEntry, f: LogEntry)
    requires E.SameEntry(e, f) && Committable(e) && Committable(f)
    ensures SameBody(e, f)
  {
    hide Accepts, MeaningOf;
    var v, w := BodyOf(e), BodyOf(f);
    E.ObjectMeans(v);
    E.ObjectMeans(w);
    forall i | 0 <= i < 6 ensures v.props[i].key == w.props[i].key
      && MeaningOf(v.props[i].value) == MeaningOf(w.props[i].value) {}
    E.SameProperties(v.props, v, w.props, w);
  }

  /** Entry by entry the same, up to the key order of payloads. */
  ghost predicate SameEntries(a: seq<LogEntry>, b: seq<LogEntry>) {
    |a| == |b| && forall i | 0 <= i < |a| :: E.SameEntry(a[i], b[i]) && Proper(a[i].payload) && Proper(b[i].payload)
  }

  lemma SameWalk(a: seq<LogEntry>, b: seq<LogEntry>)
    requires SameEntries(a, b)
    ensures AllCommittable(a) <==> AllCommittable(b)
    ensures RegressionsShow(a) <==> RegressionsShow(b)
    ensures Digests(a) == Digests(b)
  {
    hide Committable, FromHex, Proper, Accepts;
    forall i | 0 <= i < |a|
      ensures Committable(a[i]) <==> Committable(b[i])
      ensures RegressionShows(Before(a, i), a[i]) <==> RegressionShows(Before(b, i), b[i])
    {
      SameBodyText(a[i], b[i]);
    }
  }

  lemma SameEntryFindings(k: LogCrypto, a: seq<LogEntry>, b: seq<LogEntry>, i: nat, trusted: Option<map<Text, Text>>)
    requires SameEntries(a, b) && i < |a| && Committable(a[i]) && Committable(b[i])
    ensures EntryFindings(k, Before(a, i), i, a[i], trusted) == EntryFindings(k, Before(b, i), i, b[i], trusted)
  {
    hide Committable, Commitment, Proper, Accepts, Repeat, Hex, When;
    SameBodyText(a[i], b[i]);
    assert VerifyEntrySelf(k, a[i]) <==> VerifyEntrySelf(k, b[i]);
  }

  lemma {:induction false} SameChainFindings(k: LogCrypto, a: seq<LogEntry>, b: seq<LogEntry>,
      trusted: Option<map<Text, Text>>, n: nat)
    requires SameEntries(a, b) && AllCommittable(a) && AllCommittable(b) && n <= |a|
    ensures ChainFindings(k, a, trusted, n) == ChainFindings(k, b, trusted, n)
  {
    hide SameEntries, EntryFindings, Committable, Before;
    if n > 0 {
      SameLength(a, b);
      SameChainFindings(k, a, b, trusted, n - 1);
      SameEntryFindings(k, a, b, n - 1, trusted);
    }
  }

  lemma SameCheckpointFinding(k: LogCrypto, a: seq<LogEntry>, b: seq<LogEntry>, cp: Checkpoint, opts: Options)
    requires SameEntries(a, b)
    ensures OneCheckpoint(k, a, cp, opts) == OneCheckpoint(k, b, cp, opts)
  {
    hide CheckpointSignature, UntrustedKey, Tsas, Digests, Proper, Accepts, Hex, When, Covered;
    SameWalk(a, b);
  }

  lemma {:induction false} SameEachCheckpoint(k: LogCrypto, a: seq<LogEntry>, b: seq<LogEntry>, cps: seq<Checkpoint>,
      opts: Options, n: nat)
    requires SameEntries(a, b) && n <= |cps|
    ensures EachCheckpoint(k, a, cps, opts, n) == EachCheckpoint(k, b, cps, opts, n)
  {
    hide SameEntries, OneCheckpoint;
    if n > 0 {
      SameEachCheckpoint(k, a, b, cps, opts, n - 1);
      SameCheckpointFinding(k, a, b, cps[n - 1], opts);
    }
  }

  lemma SameParts(a: Bundle, b: Bundle)
    requires E.Serializable(a) && E.Serializable(b) && E.ProperBundle(a) && E.ProperBundle(b) && E.View(a) == E.View(b)
    ensures var x, y := E.AsParsed(a), E.AsParsed(b);
      SameEntries(x.entries, y.entries) && x.checkpoints == y.checkpoints && AsMap(x.signers) == AsMap(y.signers)
  {
    hide E.Serializable, E.View, E.SameEntry, E.ByPosition, BySize, AsMap, Proper;
    E.SameViewSameBundle(a, b);
    E.SortedPayloads(a.entries);
    E.SortedPayloads(b.entries);
  }

  /** Whatever two parsed bundles say the same, down to the last finding and the exception, is reported of
      both: the key order of payloads and signers does not matter. */
  lemma ContentsDecideTheReport(k: LogCrypto, a: Bundle, b: Bundle, opts: Options)
    requires E.Serializable(a) && E.Serializable(b) && E.ProperBundle(a) && E.ProperBundle(b) && E.View(a) == E.View(b)
    ensures Report(k, E.AsParsed(a), opts) == Report(k, E.AsParsed(b), opts)
  {
    hide E.Serializable, E.View, E.ProperBundle, E.ByPosition, AsMap, SameEntries, AllCommittable, RegressionsShow,
      BodiesAccepted, ChainFindings, EachCheckpoint, Consistency, BySize, NoFatal;
    SameParts(a, b);
    var x, y := E.AsParsed(a), E.AsParsed(b);
    var eff := Effective(x, opts);
    SameWalk(x.entries, y.entries);
    SameEachCheckpoint(k, x.entries, y.entries, x.checkpoints, eff, |x.checkpoints|);
    if Verifiable(x) {
      SameLength(x.entries, y.entries);
      SameChainFindings(k, x.entries, y.entries, eff.trusted, |x.entries|);
    }
  }

  lemma SameLength(a: seq<LogEntry>, b: seq<LogEntry>)
    requires SameEntries(a, b)
    ensures |a| == |b|
  {}

  // ---------- the file of an honest log ----------

  lemma {:induction false} RowsAreSorted<T(!new)>(key: T -> int, t: map<int, T>)
    requires forall n | n in t :: key(t[n]) == n
    ensures SortedBy(key, S.Rows(t))
    decreases |t|
  {
    if t.Keys != {} {
      var m := Greatest(t.Keys);
      var u := t - {m};
      assert u.Keys == t.Keys - {m};
      RowsAreSorted(key, u);
      forall i | 0 <= i < |u| ensures key(S.Rows(u)[i]) <= m {
        H.RowIsStored(u, S.Rows(u)[i]);
      }
    }
  }

  lemma ExportInFileOrder(c: S.Config, s: S.State, examId: Text)
    requires S.Inv(c, s)
    ensures E.AsParsed(H.Evidence(c, s, examId)) == H.Evidence(c, s, examId)
  {
    hide S.GoodEntry, S.PrevHash, S.GoodPending, S.GoodFinished, S.GoodCheckpoint, CheckpointSignature, S.Rows, SortBy,
      SortedBy;
    assert forall n | n in s.entries :: S.Linked(c, s.entries, n);
    RowsAreSorted(E.SeqOf, s.entries);
    SortedIsFixed(E.SeqOf, S.Rows(s.entries));
    RowsAreSorted(SizeOf, s.checkpoints);
    SortedIsFixed(SizeOf, S.Rows(s.checkpoints));
  }

  /** The auditor reads the published file of a log in any state that its calls can reach, with any parser
      that reads canonical text back.  The parsed bundle says what was exported, and whatever bundle says
      that, its verification reports a clean log, or throws exactly where a time goes back beyond the dates. */
  lemma HonestFilesVerify(parse: E.Parser, c: S.Config, steps: seq<S.Step>, examId: Text, opts: Options, parsed: Bundle)
    requires H.Trusts(c, opts) && E.Inverts(parse)
    requires var b := H.Evidence(c, S.Run(c, S.EMPTY, steps), examId); E.Serializable(b) && E.ProperBundle(b)
    requires E.Serializable(parsed) && E.ProperBundle(parsed) && E.AsParsed(parsed) == parsed
    requires var b := H.Evidence(c, S.Run(c, S.EMPTY, steps), examId);
      E.Parse(parse, E.Serialized(b)) == Ok(E.View(parsed))
    ensures var b := H.Evidence(c, S.Run(c, S.EMPTY, steps), examId); var report := Report(c.crypto, parsed, opts);
      && report == Report(c.crypto, b, opts)
      && (report.Some? <==> RegressionsShow(parsed.entries)) && (report.Some? ==> report.value.0)
  {
    hide S.Run, S.Inv, H.Evidence, E.Serializable, E.ProperBundle, E.AsParsed, E.Parse, E.Serialized, E.View, E.Inverts,
      Report, RegressionsShow, CleanBundle;
    var s := S.Run(c, S.EMPTY, steps);
    var b := H.Evidence(c, s, examId);
    S.ReachableInv(c, steps);
    ExportInFileOrder(c, s, examId);
    E.ParseSerialized(parse, b);
    ContentsDecideTheReport(c.crypto, b, parsed, opts);
    H.HonestLogsVerify(c, steps, examId, opts);
    SameParts(b, parsed);
    SameWalk(b.entries, parsed.entries);
  }

  // ---------- which honest logs have a file ----------

  ghost predicate SafeTimes(anchors: seq<Anchor>) {
    forall a | a in anchors :: -MAX_SAFE_INTEGER <= a.genTime <= MAX_SAFE_INTEGER
  }

  lemma ArrayAccepted(vs: seq<Value>)
    ensures Accepts(Array(vs)) <==> forall i | 0 <= i < |vs| :: Accepts(vs[i])
  {}

  lemma AnchorsAccepted(anchors: seq<Anchor>)
    ensures Accepts(Array(E.AnchorValues(anchors))) <==> SafeTimes(anchors)
  {
    hide Accepts, E.AnchorValue;
    var vs := E.AnchorValues(anchors);
    ArrayAccepted(vs);
    forall i | 0 <= i < |anchors| ensures Accepts(vs[i]) <==>
      -MAX_SAFE_INTEGER <= anchors[i].genTime <= MAX_SAFE_INTEGER {
      AnchorAccepted(anchors[i]);
    }
    if Accepts(Array(vs)) {
      forall a | a in anchors ensures -MAX_SAFE_INTEGER <= a.genTime <= MAX_SAFE_INTEGER {
        var i :| 0 <= i < |anchors| && anchors[i] == a;
        assert Accepts(vs[i]);
      }
    }
  }

  lemma AnchorAccepted(a: Anchor)
    ensures Accepts(E.AnchorValue(a)) <==> -MAX_SAFE_INTEGER <= a.genTime <= MAX_SAFE_INTEGER
  {
    var ps := E.AnchorValue(a).props;
    assert ps[4] in ps;
    if Accepts(ps[4].value) {
      forall p | p in ps ensures Accepts(p.value) {}
    }
  }

  lemma EntryAccepted(e: LogEntry)
    ensures Accepts(E.EntryValue(e)) <==> Committable(e)
  {
    hide Committable;
    BodyAccepts(e);
    var ps := E.EntryValue(e).props;
    assert ps[1] in ps && ps[2] in ps && ps[5] in ps;
    if Committable(e) {
      forall p | p in ps ensures Accepts(p.value) {}
    }
  }

  lemma CheckpointAccepted(cp: Checkpoint)
    requires Accepts(CheckpointBody(cp))
    ensures Accepts(E.CheckpointValue(cp)) <==> SafeTimes(cp.anchors)
  {
    hide E.AnchorValues;
    AnchorsAccepted(cp.anchors);
    var ps, qs := E.CheckpointValue(cp).props, CheckpointBody(cp).props;
    assert ps[7] in ps && qs[0] in qs && qs[3] in qs;
    if SafeTimes(cp.anchors) {
      forall p | p in ps ensures Accepts(p.value) {}
    }
  }

  lemma HeaderAccepted(b: Bundle)
    ensures Accepts(E.HeaderValue(b)) <==> |b.entries| <= MAX_SAFE_INTEGER && |b.checkpoints| <= MAX_SAFE_INTEGER
  {
    var ps := E.HeaderValue(b).props;
    assert ps[5] in ps && ps[6] in ps;
    var signers := E.SignerProps(b.signers);
    assert Accepts(Object(signers)) by { forall p | p in signers ensures Accepts(p.value) {} }
    if Accepts(ps[5].value) && Accepts(ps[6].value) {
      forall p | p in ps ensures Accepts(p.value) {}
    }
  }

  lemma StoredEntryIsCommittable(c: S.Config, s: S.State, e: LogEntry)
    requires S.Inv(c, s) && e in S.Rows(s.entries)
    ensures Committable(e)
  {
    hide Committable, S.PrevHash, S.GoodPending, S.GoodFinished, S.GoodCheckpoint, CheckpointSignature, S.Rows;
    H.RowIsStored(s.entries, e);
    var n :| n in s.entries && s.entries[n] == e;
    assert S.Linked(c, s.entries, n);
  }

  /** A log in a reachable state has a file exactly when its counts and the times of its anchors are safe
      numbers. */
  lemma ExportIsSerializable(c: S.Config, s: S.State, examId: Text)
    requires S.Inv(c, s)
    ensures E.Serializable(H.Evidence(c, s, examId)) <==>
              |s.entries| <= MAX_SAFE_INTEGER && |s.checkpoints| <= MAX_SAFE_INTEGER
              && forall cp | cp in S.Rows(s.checkpoints) :: SafeTimes(cp.anchors)
  {
    hide S.Inv, Accepts, E.Serializable, E.HeaderValue, E.EntryValue, E.CheckpointValue, SafeTimes, Committable,
      CheckpointBody, E.ByPosition, BySize, S.Rows;
    var b := H.Evidence(c, s, examId);
    ExportInFileOrder(c, s, examId);
    E.AcceptedParts(b);
    HeaderAccepted(b);
    assert [E.HeaderValue(b)][0] == E.HeaderValue(b);
    var es, cs := E.EntryValues(b.entries), E.CheckpointValues(b.checkpoints);
    forall i | 0 <= i < |es| ensures Accepts(es[i]) {
      StoredEntryIsCommittable(c, s, b.entries[i]);
      EntryAccepted(b.entries[i]);
    }
    forall i | 0 <= i < |cs| ensures Accepts(cs[i]) <==> SafeTimes(b.checkpoints[i].anchors) {
      StoredCheckpointIsAccepted(c, s, b.checkpoints[i]);
      CheckpointAccepted(b.checkpoints[i]);
    }
    assert (forall cp | cp in b.checkpoints :: SafeTimes(cp.anchors))
      <==> (forall i | 0 <= i < |b.checkpoints| :: SafeTimes(b.checkpoints[i].anchors));
    assert E.ByPosition(b.entries) == b.entries && BySize(b.checkpoints) == b.checkpoints;
  }

  lemma StoredCheckpointIsAccepted(c: S.Config, s: S.State, cp: Checkpoint)
    requires S.Inv(c, s) && cp in S.Rows(s.checkpoints)
    ensures Accepts(CheckpointBody(cp))
  {
    hide Accepts, CheckpointBody, S.Inv;
    H.StoredCheckpoint(c, s, cp);
  }
}
