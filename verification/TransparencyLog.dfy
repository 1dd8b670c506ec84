/**
 The log as the object that the services hold: two tables, and methods that run from one await to
 the next.  Each method is a step, or two, of the state machine of the log.
 */
module TransparencyLogs {
  import opened Wrappers
  import opened Canonical
  import opened Merkle
  import opened Log
  import opened LogStore
  import opened LogVerify
  import opened HonestLog
  import opened Tables

  /** The entry says what was asked for, in this log's name, and comes next. */
  ghost predicate IsNext(e: LogEntry, r: Request, c: Config, t: Entries) {
    && e.kind == r.kind && e.ts == r.ts && e.payload == r.payload
    && e.actor == c.actor && e.signerPublicKey == c.publicKey && e.seqNo == |t| && e.prevHash == HeadHash(t)
  }

  class TransparencyLog {
    const config: Config
    var entries: Entries
    var checkpoints: map<int, Checkpoint>
    /** The tables with the local variables of the calls that are waiting. */
    ghost var calls: State

    ghost predicate Valid()
      reads this
    {
      calls.entries == entries && calls.checkpoints == checkpoints && Inv(config, calls)
    }

    constructor (config: Config)
      ensures Valid() && this.config == config && calls == EMPTY
    {
      this.config := config;
      entries, checkpoints, calls := map[], map[], EMPTY;
    }

    /** The next sequence number and the hash that the next entry has to follow. */
    method ReadHead() returns (seqNo: int, prevHash: Text)
      ensures seqNo == NextSeq(entries) && prevHash == HeadHash(entries)
    {
      hide Repeat;
      if |entries.Keys| == 0 {
        return 0, ZERO_HASH;
      }
      var last := Last(entries.Keys);
      return last + 1, entries[last].hash;
    }

    /** `append` up to its await: the draft that is signed, or nothing when it has no canonical text. */
    method BeginAppend(w: nat, request: Request) returns (draft: Option<LogEntry>)
      requires Valid() && w !in calls.pending && w !in calls.finished
      modifies this`calls
      ensures Valid() && calls == Apply(config, old(calls), LogStore.Step.ReadHead(w, request))
      ensures draft.Some? <==> w in calls.pending
      ensures draft.Some? ==> calls.pending[w] == HeadRead(draft.value) && IsNext(draft.value, request, config, entries)
    {
      hide Inv, Committable, NextSeq, HeadHash;
      ApplyKeepsInv(config, calls, LogStore.Step.ReadHead(w, request));
      HeadOfLog(config, calls);
      var seqNo, prevHash := ReadHead();
      var d := Draft(config, request, seqNo, prevHash);
      draft := if Committable(d) then Some(d) else None;
      calls := Apply(config, calls, LogStore.Step.ReadHead(w, request));
    }

    /** `append` after its await: the signature has come and the row is inserted, or the insert fails. */
    method FinishAppend(w: nat, draft: LogEntry, signature: Text) returns (r: Option<LogEntry>)
      requires Valid() && w in calls.pending && calls.pending[w] == HeadRead(draft) && Committable(draft)
      requires Committable(Signed(config, draft, signature))
        && EntrySignature(config.crypto, Signed(config, draft, signature))
      modifies this`entries, this`calls
      ensures Valid()
      ensures calls == Apply(config, Apply(config, old(calls), SignEntry(w, signature)), InsertEntry(w))
      ensures r.Some? <==> MayInsert(old(entries), Signed(config, draft, signature))
      ensures r.Some? ==>
        r.value == Signed(config, draft, signature) && entries == old(entries)[|old(entries)| := r.value]
      ensures r.Some? ==>
        Genuine(config.crypto, r.value) && r.value == draft.(hash := r.value.hash, signature := signature)
      ensures r.None? ==> entries == old(entries)
    {
      hide Inv, Committable, Signed, EntrySignature, Genuine;
      var e := Signed(config, draft, signature);
      ApplyKeepsInv(config, calls, SignEntry(w, signature));
      var signed := Apply(config, calls, SignEntry(w, signature));
      ApplyKeepsInv(config, signed, InsertEntry(w));
      InsertedAtTheEnd(config, signed, w);
      var isNew := IsNew(e);
      if isNew {
        entries := entries[e.seqNo := e];
        r := Some(e);
        SignedIsGenuine(config, draft, signature);
      } else {
        r := None;
      }
      calls := Apply(config, signed, InsertEntry(w));
    }

    /** The primary key on `seq` and the uniqueness of `hash`. */
    method IsNew(e: LogEntry) returns (b: bool)
      ensures b <==> MayInsert(entries, e)
    {
      if e.seqNo in entries {
        return false;
      }
      var rest := entries.Keys;
      while |rest| > 0
        invariant rest <= entries.Keys
        invariant forall k | k in entries && k !in rest :: entries[k].hash != e.hash
      {
        var k := Last(rest);
        if entries[k].hash == e.hash {
          return false;
        }
        rest := rest - {k};
      }
      return true;
    }

    /** `createCheckpoint` up to its await: the root and the head of the whole log. */
    method BeginCheckpoint(w: nat, ts: int) returns (draft: Option<Checkpoint>)
      requires Valid() && w !in calls.pending && w !in calls.finished
      modifies this`calls
      ensures Valid() && calls == Apply(config, old(calls), ReadHashes(w, ts))
      ensures draft.Some? <==> w in calls.pending
      ensures draft.Some? ==> calls.pending[w] == HashesRead(draft.value)
      ensures draft.Some? ==> GoodCheckpoint(config, entries, draft.value) && draft.value.size == |entries|
      ensures draft.Some? ==> draft.value.ts == ts && draft.value.anchors == []
    {
      hide Inv, Accepts, Digests, MerkleRoot, Hex, GoodCheckpoint, Rows;
      ApplyKeepsInv(config, calls, ReadHashes(w, ts));
      var rows := RowsInOrder(entries);
      var hashes := Digests(rows);
      if |hashes| == 0 {
        assert entries.Keys == {};
        draft := None;
      } else {
        assert entries.Keys != {};
        WholeLog(config, calls, ts);
        var cp := Checkpoint(|hashes|, Hex(MerkleRoot(config.crypto.tree, hashes)), Hex(hashes[|hashes| - 1]), ts, [],
                             config.publicKey, []);
        draft := if Accepts(CheckpointBody(cp)) then Some(cp) else None;
      }
      calls := Apply(config, calls, ReadHashes(w, ts));
    }

    /** `createCheckpoint` after its await: the signature has come, and the checkpoint is stored unless
        that size has one already. */
    method FinishCheckpoint(w: nat, draft: Checkpoint, signature: Text) returns (stored: Checkpoint)
      requires Valid() && w in calls.pending && calls.pending[w] == HashesRead(draft)
      requires CheckpointSignature(config.crypto, draft.(signature := signature))
      modifies this`checkpoints, this`calls
      ensures Valid()
      ensures calls == Apply(config, Apply(config, old(calls), SignCheckpoint(w, signature)), InsertCheckpoint(w))
      ensures draft.size in checkpoints && checkpoints[draft.size] == stored
      ensures draft.size in old(checkpoints) ==> checkpoints == old(checkpoints)
      ensures draft.size !in old(checkpoints) ==>
                stored == draft.(signature := signature) && checkpoints == old(checkpoints)[draft.size := stored]
    {
      hide Inv, CheckpointSignature;
      var cp := draft.(signature := signature);
      ApplyKeepsInv(config, calls, SignCheckpoint(w, signature));
      var signed := Apply(config, calls, SignCheckpoint(w, signature));
      ApplyKeepsInv(config, signed, InsertCheckpoint(w));
      if cp.size !in checkpoints {
        checkpoints := checkpoints[cp.size := cp];
      }
      stored := checkpoints[cp.size];
      calls := Apply(config, signed, InsertCheckpoint(w));
    }

    /** Anchors only accumulate, and only on the root that they imprint. */
    method AttachAnchors(size: int, anchors: seq<Anchor>) returns (r: Option<Checkpoint>)
      requires Valid()
      modifies this`checkpoints, this`calls
      ensures Valid() && calls == Apply(config, old(calls), LogStore.Step.AttachAnchors(size, anchors))
      ensures r.Some? <==>
        size in old(checkpoints) && forall i | 0 <= i < |anchors| :: anchors[i].imprint == old(checkpoints)[size].root
      ensures r.None? ==> checkpoints == old(checkpoints)
      ensures r.Some? ==> r.value == old(checkpoints)[size].(anchors := old(checkpoints)[size].anchors + anchors)
      ensures r.Some? ==> checkpoints == old(checkpoints)[size := r.value]
    {
      hide Inv;
      ghost var step := LogStore.Step.AttachAnchors(size, anchors);
      ApplyKeepsInv(config, calls, step);
      ghost var after := Apply(config, calls, step);
      if size !in checkpoints {
        return None;
      }
      var cp := checkpoints[size];
      for i := 0 to |anchors|
        invariant forall j | 0 <= j < i :: anchors[j].imprint == cp.root
      {
        if anchors[i].imprint != cp.root {
          return None;
        }
      }
      var merged := cp.(anchors := cp.anchors + anchors);
      checkpoints := checkpoints[size := merged];
      calls := after;
      return Some(merged);
    }

    /** The exported evidence of an honest log, which is always clean. */
    method ExportEvidence(examId: Text) returns (bundle: Bundle)
      requires Valid()
      ensures bundle == Evidence(config, calls, examId)
      ensures forall opts | Trusts(config, opts) :: CleanBundle(config.crypto, bundle, opts)
      ensures IsExport(bundle, config, entries, checkpoints, examId)
    {
      hide Inv, Trusts, CleanBundle, Rows, IsExport;
      ExportIsTheTables(config, calls, examId);
      var rows := RowsInOrder(entries);
      var cps := RowsInOrder(checkpoints);
      var signers: seq<Field<Text>> := [];
      SignedByTheActor(config, calls);
      for i := 0 to |rows|
        invariant signers == if i == 0 then [] else [Field(config.actor, config.publicKey)]
      {
        assert rows[i].actor == config.actor && rows[i].signerPublicKey == config.publicKey;
        signers := SetField(signers, rows[i].actor, rows[i].signerPublicKey);
      }
      assert entries == map[] <==> rows == [];
      bundle := Bundle(1, examId, rows, cps, signers);
      forall opts | Trusts(config, opts) ensures CleanBundle(config.crypto, bundle, opts) {
        HonestBundle(config, calls, examId, opts);
      }
    }
  }

  /** The bundle has the entries by position, the checkpoints by size and the key of whoever wrote entries. */
  ghost predicate IsExport(b: Bundle, c: Config, t: Entries, cps: map<int, Checkpoint>, examId: Text) {
    && b.version == 1 && b.examId == examId
    && |b.entries| == |t| && (forall i | 0 <= i < |t| :: i in t && b.entries[i] == t[i])
    && |b.checkpoints| == |cps| && (forall cp | cp in b.checkpoints :: cp.size in cps && cps[cp.size] == cp)
    && (forall n | n in cps :: cps[n] in b.checkpoints)
    && (forall i, j | 0 <= i < j < |b.checkpoints| :: b.checkpoints[i].size <= b.checkpoints[j].size)
    && AsMap(b.signers) == if t == map[] then map[] else map[c.actor := c.publicKey]
  }

  lemma ExportIsTheTables(c: Config, s: State, examId: Text)
    requires Inv(c, s)
    ensures IsExport(Evidence(c, s, examId), c, s.entries, s.checkpoints, examId)
  {
    hide AllLinked, GoodPending, GoodFinished, GoodCheckpoint, CheckpointSignature, Rows;
    DenseRows(s.entries);
    var cps := Rows(s.checkpoints);
    forall cp | cp in cps ensures cp.size in s.checkpoints && s.checkpoints[cp.size] == cp {
      RowIsStored(s.checkpoints, cp);
    }
    forall n | n in s.checkpoints ensures s.checkpoints[n] in cps {
      StoredIsRow(s.checkpoints, n);
    }
    RowsBySize(s.checkpoints);
    OneSigner(c);
    assert Dense(s.entries);
    forall i | 0 <= i < |s.entries| ensures i in s.entries && Rows(s.entries)[i] == s.entries[i] {}
  }

  lemma OneSigner(c: Config)
    ensures AsMap([]) == map[] && AsMap([Field(c.actor, c.publicKey)]) == map[c.actor := c.publicKey]
  {
    assert [Field(c.actor, c.publicKey)][1..] == [];
  }

  lemma {:induction false} StoredIsRow<T>(t: map<int, T>, n: int)
    requires n in t
    ensures t[n] in Rows(t)
    decreases |t|
  {
    var m := Greatest(t.Keys);
    LastRow(t, m);
    if n != m {
      StoredIsRow(t - {m}, n);
      assert (t - {m})[n] == t[n];
    }
  }

  lemma {:induction false} RowsBySize(t: map<int, Checkpoint>)
    requires forall n | n in t :: t[n].size == n
    ensures forall i, j | 0 <= i < j < |Rows(t)| :: Rows(t)[i].size <= Rows(t)[j].size
    decreases |t|
  {
    if t.Keys == {} {
      assert t == map[];
      NoRows(t);
    } else {
      var m := Greatest(t.Keys);
      LastRow(t, m);
      RowsBySize(t - {m});
      forall i | 0 <= i < |t - {m}| ensures Rows(t - {m})[i].size <= m {
        RowIsStored(t - {m}, Rows(t - {m})[i]);
      }
    }
  }

  lemma InsertedAtTheEnd(c: Config, s: State, w: nat)
    requires Inv(c, s)
    ensures w in s.pending && s.pending[w].EntrySigned? && MayInsert(s.entries, s.pending[w].entry) ==>
              s.pending[w].entry.seqNo == |s.entries|
  {
    hide GoodEntry, Committable, AllLinked, PrevHash, GoodCheckpoint;
    if w in s.pending && s.pending[w].EntrySigned? && MayInsert(s.entries, s.pending[w].entry) {
      assert GoodPending(c, s.entries, s.pending[w]);
    }
  }

  lemma SignedIsGenuine(c: Config, draft: LogEntry, signature: Text)
    requires Committable(draft) && Committable(Signed(c, draft, signature))
    requires EntrySignature(c.crypto, Signed(c, draft, signature))
    ensures Genuine(c.crypto, Signed(c, draft, signature))
    ensures var e := Signed(c, draft, signature); e == draft.(hash := e.hash, signature := signature)
  {
    hide Hex;
    SignedKeepsBody(c, draft, signature);
  }

  lemma HeadOfLog(c: Config, s: State)
    requires Inv(c, s)
    ensures NextSeq(s.entries) == |s.entries|
  {
    hide AllLinked, GoodPending, GoodFinished, GoodCheckpoint, NextSeq, HeadHash, PrevHash, Repeat;
    DenseHead(s.entries);
  }

  lemma WholeLog(c: Config, s: State, ts: int)
    requires Inv(c, s) && s.entries.Keys != {}
    ensures |Rows(s.entries)| > 0 && GoodCheckpoint(c, s.entries, CheckpointDraft(c, Rows(s.entries), ts))
  {
    hide Chain, GoodPending, GoodFinished, GoodCheckpoint, CheckpointDraft, Rows, CheckpointSignature;
    DraftOfChain(c, s.entries, ts);
  }

  lemma SignedByTheActor(c: Config, s: State)
    requires Inv(c, s)
    ensures forall i | 0 <= i < |s.entries| ::
      Rows(s.entries)[i].actor == c.actor && Rows(s.entries)[i].signerPublicKey == c.publicKey
  {
    hide Committable, GoodPending, GoodFinished, GoodCheckpoint, Repeat, Rows, EntrySignature, PrevHash;
    DenseRows(s.entries);
    forall i | 0 <= i < |s.entries|
      ensures Rows(s.entries)[i].actor == c.actor && Rows(s.entries)[i].signerPublicKey == c.publicKey {
      assert Linked(c, s.entries, i);
    }
  }

  /** `ORDER BY ... DESC LIMIT 1`. */
  method Last(keys: set<int>) returns (m: int)
    requires |keys| > 0
    ensures m == Greatest(keys)
  {
    ghost var some := Member(keys);
    var k :| k in keys;
    m := k;
    var rest := keys - {k};
    while |rest| > 0
      invariant m in keys && rest <= keys
      invariant forall j | j in keys && j !in rest :: j <= m
    {
      var j :| j in rest;
      m := if m < j then j else m;
      rest := rest - {j};
    }
  }

  lemma LastRow<T>(t: map<int, T>, m: int)
    requires t.Keys != {} && m == Greatest(t.Keys)
    ensures Rows(t) == Rows(t - {m}) + [t[m]] && |t - {m}| < |t|
  {
    assert (t - {m}).Keys == t.Keys - {m};
  }

  /** `SELECT * ... ORDER BY` the primary key. */
  method RowsInOrder<T(0)>(t: map<int, T>) returns (rows: seq<T>)
    ensures rows == Rows(t)
  {
    hide Rows;
    rows := [];
    var rest := t;
    while |rest.Keys| > 0
      invariant rest.Keys <= t.Keys && forall k | k in rest :: rest[k] == t[k]
      invariant Rows(t) == Rows(rest) + rows
      decreases |rest|
    {
      var m := Last(rest.Keys);
      LastRow(rest, m);
      rows := [rest[m]] + rows;
      rest := rest - {m};
    }
    assert rest == map[];
    NoRows(rest);
  }

  lemma NoRows<T>(t: map<int, T>)
    requires t == map[]
    ensures Rows(t) == []
  {}
}
