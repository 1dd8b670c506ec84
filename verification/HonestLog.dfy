/** A log that only its own process wrote is never accused, whatever the interleaving of its calls. */
module HonestLog {
  import opened Wrappers
  import opened Canonical
  import opened Merkle
  import opened Log
  import opened LogStore
  import opened LogVerify
  import opened Tables

  /** The bundle of `evidence`: one actor signs, and no actor is named while the log is empty. */
  ghost function Evidence(c: Config, s: State, examId: Text): Bundle {
    Bundle(1, examId, Rows(s.entries), Rows(s.checkpoints),
           if s.entries == map[] then [] else [Field(c.actor, c.publicKey)])
  }

  /** The auditor names no keys, or names the right key for the actor. */
  ghost predicate Trusts(c: Config, opts: Options) {
    opts.minAnchors <= 0
    && (opts.trusted.Some? ==> c.actor in opts.trusted.value && opts.trusted.value[c.actor] == c.publicKey)
  }

  lemma {:induction false} RowIsStored<T>(t: map<int, T>, v: T)
    requires v in Rows(t)
    ensures exists n :: n in t && t[n] == v
    decreases |t|
  {
    if t.Keys != {} {
      var m := Greatest(t.Keys);
      var u := t - {m};
      assert u.Keys == t.Keys - {m};
      if v in Rows(u) {
        RowIsStored(u, v);
        var n :| n in u && u[n] == v;
        assert n in t && t[n] == v;
      } else {
        assert m in t && t[m] == v;
      }
    }
  }

  lemma HonestEntry(c: Config, t: Entries, i: nat, trusted: Option<map<Text, Text>>)
    requires Dense(t) && i < |t| && Linked(c, t, i)
    requires trusted.Some? ==> c.actor in trusted.value && trusted.value[c.actor] == c.publicKey
    ensures CleanEntry(c.crypto, Prefix(t, |t|), i, trusted)
  {
    hide Committable, Commitment, Repeat, EntrySignature, Hex, Dense;
    var rows := Prefix(t, |t|);
    assert rows[i] == t[i];
    if i > 0 {
      assert rows[i - 1] == t[i - 1];
    }
  }

  lemma HonestChain(c: Config, t: Entries, trusted: Option<map<Text, Text>>)
    requires Chain(c, t)
    requires t == map[] || (trusted.Some? ==> c.actor in trusted.value && trusted.value[c.actor] == c.publicKey)
    ensures CleanChain(c.crypto, Rows(t), trusted)
  {
    hide CleanEntry, Linked, Rows, Prefix;
    DenseRows(t);
    forall i: nat | i < |Rows(t)| ensures CleanEntry(c.crypto, Rows(t), i, trusted) {
      assert i in t;
      assert Linked(c, t, i);
      HonestEntry(c, t, i, trusted);
    }
  }

  lemma HonestCheckpoint(c: Config, t: Entries, cp: Checkpoint, opts: Options)
    requires Chain(c, t) && GoodCheckpoint(c, t, cp) && CheckpointSignature(c.crypto, cp)
    requires Trusts(c, opts)
    ensures CleanCheckpoint(c.crypto, Rows(t), cp, opts)
  {
    hide CheckpointSignature, AllLinked, Rows, MerkleRoot, Hex, FromHex, Tsas, Repeat, PrevHash;
    DenseRows(t);
    var rows := Prefix(t, |t|);
    assert Covered(rows, cp.size) == Prefix(t, cp.size);
    CoveredIsPrefix(rows, cp.size);
    assert rows[cp.size - 1] == t[cp.size - 1];
    if opts.trusted.Some? {
      assert c.actor in opts.trusted.value;
      assert opts.trusted.value[c.actor] in opts.trusted.value.Values;
    }
  }

  lemma StoredCheckpointsDiffer(c: Config, s: State)
    requires Inv(c, s)
    ensures NoFork(Rows(s.checkpoints))
  {
    hide Chain, GoodPending, GoodFinished, GoodCheckpoint, CheckpointSignature, Rows;
    var cps := Rows(s.checkpoints);
    forall a, b | a in cps && b in cps && a.size == b.size ensures a.root == b.root {
      RowIsStored(s.checkpoints, a);
      RowIsStored(s.checkpoints, b);
      var m :| m in s.checkpoints && s.checkpoints[m] == a;
      var n :| n in s.checkpoints && s.checkpoints[n] == b;
    }
  }

  lemma StoredCheckpoint(c: Config, s: State, cp: Checkpoint)
    requires Inv(c, s) && cp in Rows(s.checkpoints)
    ensures GoodCheckpoint(c, s.entries, cp) && CheckpointSignature(c.crypto, cp)
  {
    hide Chain, GoodPending, GoodFinished, GoodCheckpoint, CheckpointSignature, Rows;
    RowIsStored(s.checkpoints, cp);
  }

  lemma HonestBundle(c: Config, s: State, examId: Text, opts: Options)
    requires Inv(c, s) && Trusts(c, opts)
    ensures CleanBundle(c.crypto, Evidence(c, s, examId), opts)
  {
    hide GoodPending, GoodFinished, GoodCheckpoint, CheckpointSignature, Rows, Chain, CleanChain, CleanCheckpoint,
      NoFork;
    var bundle := Evidence(c, s, examId);
    var eff := Effective(bundle, opts);
    assert Chain(c, s.entries);
    HonestChain(c, s.entries, eff.trusted);
    forall cp | cp in bundle.checkpoints ensures CleanCheckpoint(c.crypto, bundle.entries, cp, eff) {
      StoredCheckpoint(c, s, cp);
      assert s.entries != map[] by { CheckpointsNeedEntries(c, s.entries, cp); }
      HonestCheckpoint(c, s.entries, cp, eff);
    }
    StoredCheckpointsDiffer(c, s);
  }

  lemma CheckpointsNeedEntries(c: Config, t: Entries, cp: Checkpoint)
    requires GoodCheckpoint(c, t, cp)
    ensures t != map[]
  {}

  /** In every state that interleaved appends, checkpoints and anchor attachments can reach, the
      exported evidence is clean, and its verification reports so exactly when every time that goes
      back does so between dates; otherwise it throws. */
  lemma HonestLogsVerify(c: Config, steps: seq<Step>, examId: Text, opts: Options)
    requires Trusts(c, opts)
    ensures var bundle := Evidence(c, Run(c, EMPTY, steps), examId); var report := Report(c.crypto, bundle, opts);
            && CleanBundle(c.crypto, bundle, opts)
            && (report.Some? <==> RegressionsShow(bundle.entries))
            && (report.Some? ==> report.value.0)
  {
    hide Inv, Run, CleanBundle, RegressionsShow, Evidence, Report, Verifiable;
    ReachableInv(c, steps);
    var s := Run(c, EMPTY, steps);
    var bundle := Evidence(c, s, examId);
    HonestBundle(c, s, examId, opts);
    CleanBundleIsVerifiable(c.crypto, bundle, opts);
    if Verifiable(bundle) {
      ReportMeaning(c.crypto, bundle, opts);
    } else {
      NoReport(c.crypto, bundle, opts);
    }
  }

  lemma NoReport(k: LogCrypto, bundle: Bundle, opts: Options)
    requires !Verifiable(bundle)
    ensures Report(k, bundle, opts).None?
  {}

  // ---------- an honest log that verification throws on ----------

  /** An append that nobody interrupts. */
  function Alone(w: nat, request: Request, signature: Text): seq<Step> {
    [ReadHead(w, request), SignEntry(w, signature), InsertEntry(w)]
  }

  function Empty(kind: Text, ts: int): Request {
    Request(kind, Object([]), ts)
  }

  const AFTER_EVERY_DATE := 9_000_000_000_000_000

  lemma EmptyIsCommittable(c: Config, kind: Text, ts: int, n: int, prevHash: Text)
    requires -MAX_SAFE_INTEGER <= ts <= MAX_SAFE_INTEGER && -MAX_SAFE_INTEGER <= n <= MAX_SAFE_INTEGER
    ensures Committable(Draft(c, Empty(kind, ts), n, prevHash))
  {
    var body := BodyOf(Draft(c, Empty(kind, ts), n, prevHash));
    forall p | p in body.props ensures Accepts(p.value) {}
  }

  lemma AppendsAlone(c: Config, s: State, w: nat, request: Request, signature: Text)
    requires w !in s.pending && w !in s.finished
    requires var d := Draft(c, request, NextSeq(s.entries), HeadHash(s.entries));
      && Committable(d) && Committable(Signed(c, d, signature)) && EntrySignature(c.crypto, Signed(c, d, signature))
      && MayInsert(s.entries, Signed(c, d, signature))
    ensures var e := Signed(c, Draft(c, request, NextSeq(s.entries), HeadHash(s.entries)), signature);
      var t := Run(c, s, Alone(w, request, signature));
      && t.entries == s.entries[e.seqNo := e] && t.pending == s.pending && t.finished == s.finished[w := Some(e.seqNo)]
  {
    hide Committable, EntrySignature, NextSeq, HeadHash, MayInsert, Commitment, Hex;
    var steps := Alone(w, request, signature);
    var x := Apply(c, s, steps[0]);
    var y := Apply(c, x, steps[1]);
    assert Run(c, s, steps) == Run(c, x, steps[1..]);
    assert Run(c, x, steps[1..]) == Run(c, y, steps[2..]) by { assert steps[1..][1..] == steps[2..]; }
    assert Run(c, y, steps[2..]) == Run(c, Apply(c, y, steps[2]), []) by { assert steps[2..][1..] == []; }
  }

  function First(c: Config, kind: Text, signature: Text): (e: LogEntry)
    ensures Committable(e)
  {
    var d := Draft(c, Empty(kind, AFTER_EVERY_DATE), 0, ZERO_HASH);
    EmptyIsCommittable(c, kind, AFTER_EVERY_DATE, 0, ZERO_HASH);
    SignedKeepsBody(c, d, signature);
    Signed(c, d, signature)
  }

  function Second(c: Config, kind: Text, prevHash: Text, signature: Text): (e: LogEntry)
    ensures Committable(e)
  {
    var d := Draft(c, Empty(kind, 0), 1, prevHash);
    EmptyIsCommittable(c, kind, 0, 1, prevHash);
    SignedKeepsBody(c, d, signature);
    Signed(c, d, signature)
  }

  lemma NothingStored(e: LogEntry)
    ensures NextSeq(map[]) == 0 && HeadHash(map[]) == ZERO_HASH && MayInsert(map[], e)
  {}

  lemma OneStored(e: LogEntry, f: LogEntry)
    requires e.seqNo == 0 && f.seqNo == 1 && e.hash != f.hash
    ensures NextSeq(map[0 := e]) == 1 && HeadHash(map[0 := e]) == e.hash && MayInsert(map[0 := e], f)
  {
    hide Repeat;
    var t: Entries := map[0 := e];
    assert t.Keys == {0};
    assert Dense(t);
    DenseHead(t);
  }

  lemma TwoRows(t: Entries, e: LogEntry, f: LogEntry)
    requires t == map[0 := e][1 := f]
    ensures Rows(t) == [e, f]
  {
    hide Rows;
    assert t.Keys == {0, 1};
    assert |t| == |t.Keys| == 2;
    assert Dense(t);
    DenseRows(t);
    assert Prefix(t, 2) == [e, f];
  }

  /** An entry after the last date and then one from 1970, both properly signed, make an honest log whose
      evidence is clean and whose verification throws. */
  lemma HonestLogWithoutReport(c: Config, kind: Text, a: Text, b: Text, examId: Text, opts: Options)
    requires Trusts(c, opts)
    requires EntrySignature(c.crypto, First(c, kind, a))
      && EntrySignature(c.crypto, Second(c, kind, First(c, kind, a).hash, b))
    requires First(c, kind, a).hash != Second(c, kind, First(c, kind, a).hash, b).hash
    ensures var steps := Alone(0, Empty(kind, AFTER_EVERY_DATE), a) + Alone(1, Empty(kind, 0), b);
      var bundle := Evidence(c, Run(c, EMPTY, steps), examId);
      && bundle.entries == [First(c, kind, a), Second(c, kind, First(c, kind, a).hash, b)]
      && CleanBundle(c.crypto, bundle, opts) && Report(c.crypto, bundle, opts).None?
  {
    hide Committable, EntrySignature, NextSeq, HeadHash, MayInsert, Commitment, Hex, Apply, Report, CleanBundle, Run;
    var x, y := Alone(0, Empty(kind, AFTER_EVERY_DATE), a), Alone(1, Empty(kind, 0), b);
    var first, second := First(c, kind, a), Second(c, kind, First(c, kind, a).hash, b);
    NothingStored(first);
    EmptyIsCommittable(c, kind, AFTER_EVERY_DATE, 0, ZERO_HASH);
    AppendsAlone(c, EMPTY, 0, Empty(kind, AFTER_EVERY_DATE), a);
    var s := Run(c, EMPTY, x);
    assert s.entries == map[0 := first];
    OneStored(first, second);
    EmptyIsCommittable(c, kind, 0, 1, first.hash);
    AppendsAlone(c, s, 1, Empty(kind, 0), b);
    RunAppend(c, EMPTY, x, y);
    var t := Run(c, EMPTY, x + y);
    assert t.entries == map[0 := first][1 := second];
    TwoRows(t.entries, first, second);
    HonestLogsVerify(c, x + y, examId, opts);
    var bundle := Evidence(c, t, examId);
    assert !RegressionShows(Before(bundle.entries, 1), bundle.entries[1]);
  }
}
