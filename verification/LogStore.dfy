/**
 The append-only log under concurrent use.

 `append` reads the head, waits for a signature and only then inserts; `createCheckpoint` does the
 same with the hashes.  Any number of calls may be between those points, so each is three steps of a
 state machine.  Nothing is reserved in between: the primary key on `seq` is what makes it safe.
 */
module LogStore {
  import opened Bytes
  import opened Wrappers
  import opened Canonical
  import opened Merkle
  import opened Log
  import opened Tables

  type Entries = map<int, LogEntry>

  /** One log: its actor, its signing key and the cryptography. */
  datatype Config = Config(actor: Text, publicKey: Text, crypto: LogCrypto)

  datatype Request = Request(kind: Text, payload: Value, ts: int)

  datatype Pending =
    | HeadRead(draft: LogEntry)
    | EntrySigned(entry: LogEntry)
    | HashesRead(unsigned: Checkpoint)
    | CheckpointSigned(checkpoint: Checkpoint)

  /** The tables, the calls under way, and for each finished append the seq it inserted, if any. */
  datatype State = State(
    entries: Entries,
    checkpoints: map<int, Checkpoint>,
    pending: map<nat, Pending>,
    finished: map<nat, Option<int>>)

  datatype Step =
    | ReadHead(w: nat, request: Request)
    | SignEntry(w: nat, signature: Text)
    | InsertEntry(w: nat)
    | ReadHashes(w: nat, ts: int)
    | SignCheckpoint(w: nat, signature: Text)
    | InsertCheckpoint(w: nat)
    | AttachAnchors(size: int, anchors: seq<Anchor>)

  // ---------- the tables ----------

  ghost function NextSeq(t: Entries): int {
    if t.Keys == {} then 0 else Greatest(t.Keys) + 1
  }

  ghost function HeadHash(t: Entries): Text {
    if t.Keys == {} then ZERO_HASH else t[Greatest(t.Keys)].hash
  }

  /** The rows in order of their keys. */
  ghost function Rows<T>(t: map<int, T>): (rows: seq<T>)
    ensures |rows| == |t|
    decreases |t|
  {
    if t.Keys == {} then [] else
    var m := Greatest(t.Keys);
    assert (t - {m}).Keys == t.Keys - {m};
    Rows(t - {m}) + [t[m]]
  }

  /** INSERT with `seq` as primary key and `hash` unique. */
  ghost predicate MayInsert(t: Entries, e: LogEntry) {
    e.seqNo !in t && forall k | k in t :: t[k].hash != e.hash
  }

  // ---------- what the calls build ----------

  function Draft(c: Config, request: Request, seqNo: int, prevHash: Text): LogEntry {
    LogEntry(seqNo, request.ts, request.kind, c.actor, request.payload, prevHash, [], [], c.publicKey)
  }

  function Signed(c: Config, draft: LogEntry, signature: Text): LogEntry
    requires Committable(draft)
  {
    draft.(hash := Hex(c.crypto.entryDigest(Commitment(draft))), signature := signature)
  }

  ghost function CheckpointDraft(c: Config, rows: seq<LogEntry>, ts: int): Checkpoint
    requires rows != []
  {
    var d := Digests(rows);
    Checkpoint(|rows|, Hex(MerkleRoot(c.crypto.tree, d)), Hex(d[|d| - 1]), ts, [], c.publicKey, [])
  }

  predicate Imprinted(anchors: seq<Anchor>, root: Text) {
    forall i | 0 <= i < |anchors| :: anchors[i].imprint == root
  }

  // ---------- the steps ----------

  /** A step that is not enabled changes nothing.  The key provider signs correctly. */
  ghost function Apply(c: Config, s: State, step: Step): State {
    match step
    case ReadHead(w, request) =>
      if w in s.pending || w in s.finished then s else
      var draft := Draft(c, request, NextSeq(s.entries), HeadHash(s.entries));
      if Committable(draft) then s.(pending := s.pending[w := HeadRead(draft)])
      else s.(finished := s.finished[w := None])
    case SignEntry(w, signature) =>
      if w !in s.pending || !s.pending[w].HeadRead? || !Committable(s.pending[w].draft) then s else
      var e := Signed(c, s.pending[w].draft, signature);
      if Committable(e) && EntrySignature(c.crypto, e) then s.(pending := s.pending[w := EntrySigned(e)]) else s
    case InsertEntry(w) =>
      if w !in s.pending || !s.pending[w].EntrySigned? then s else
      var e := s.pending[w].entry;
      if MayInsert(s.entries, e) then
        State(s.entries[e.seqNo := e], s.checkpoints, s.pending - {w}, s.finished[w := Some(e.seqNo)])
      else s.(pending := s.pending - {w}, finished := s.finished[w := None])
    case ReadHashes(w, ts) =>
      if w in s.pending || w in s.finished then s
      else if s.entries.Keys == {} then s.(finished := s.finished[w := None])
      else
        var cp := CheckpointDraft(c, Rows(s.entries), ts);
        if Accepts(CheckpointBody(cp)) then s.(pending := s.pending[w := HashesRead(cp)])
        else s.(finished := s.finished[w := None])
    case SignCheckpoint(w, signature) =>
      if w !in s.pending || !s.pending[w].HashesRead? then s else
      var cp := s.pending[w].unsigned.(signature := signature);
      if CheckpointSignature(c.crypto, cp) then s.(pending := s.pending[w := CheckpointSigned(cp)]) else s
    case InsertCheckpoint(w) =>
      if w !in s.pending || !s.pending[w].CheckpointSigned? then s else
      var cp := s.pending[w].checkpoint;
      State(s.entries, if cp.size in s.checkpoints then s.checkpoints else s.checkpoints[cp.size := cp],
            s.pending - {w}, s.finished[w := None])
    case AttachAnchors(size, anchors) =>
      if size !in s.checkpoints || !Imprinted(anchors, s.checkpoints[size].root) then s
      else
        var cp := s.checkpoints[size];
        s.(checkpoints := s.checkpoints[size := cp.(anchors := cp.anchors + anchors)])
  }

  ghost function Run(c: Config, s: State, steps: seq<Step>): State
    decreases |steps|
  {
    if steps == [] then s else Run(c, Apply(c, s, steps[0]), steps[1..])
  }

  lemma {:induction false} RunAppend(c: Config, s: State, a: seq<Step>, b: seq<Step>)
    ensures Run(c, s, a + b) == Run(c, Run(c, s, a), b)
    decreases |a|
  {
    hide Apply;
    if a == [] {
      assert a + b == b;
    } else {
      assert (a + b)[0] == a[0] && (a + b)[1..] == a[1..] + b;
      RunAppend(c, Apply(c, s, a[0]), a[1..], b);
    }
  }

  const EMPTY := State(map[], map[], map[], map[])

  // ---------- the invariant ----------

  function PrevHash(t: Entries, i: int): Text
    requires i > 0 ==> i - 1 in t
  {
    if i <= 0 then ZERO_HASH else t[i - 1].hash
  }

  ghost predicate Dense(t: Entries) {
    forall i :: i in t <==> 0 <= i < |t|
  }

  ghost predicate GoodEntry(c: Config, e: LogEntry) {
    && e.actor == c.actor && e.signerPublicKey == c.publicKey && Committable(e)
    && e.hash == Hex(c.crypto.entryDigest(Commitment(e))) && EntrySignature(c.crypto, e)
  }

  /** Row i is at its place, follows row i - 1 and is properly signed. */
  ghost predicate Linked(c: Config, t: Entries, i: int) {
    i in t && (i > 0 ==> i - 1 in t) && t[i].seqNo == i && t[i].prevHash == PrevHash(t, i) && GoodEntry(c, t[i])
  }

  ghost predicate AllLinked(c: Config, t: Entries) {
    forall i | i in t :: Linked(c, t, i)
  }

  /** A dense chain from the zero hash, every entry signed, no hash twice. */
  ghost predicate Chain(c: Config, t: Entries) {
    && Dense(t)
    && AllLinked(c, t)
    && forall i, j | i in t && j in t && t[i].hash == t[j].hash :: i == j
  }

  ghost function Prefix(t: Entries, n: nat): (rows: seq<LogEntry>)
    requires Dense(t) && n <= |t|
    ensures |rows| == n
  {
    seq(n, i requires 0 <= i < n => t[i])
  }

  /** The checkpoint states the root and head of its prefix of the log, under a valid signature. */
  ghost predicate GoodCheckpoint(c: Config, t: Entries, cp: Checkpoint) {
    && Dense(t) && 1 <= cp.size <= |t| && cp.signerPublicKey == c.publicKey
    && cp.root == Hex(MerkleRoot(c.crypto.tree, Digests(Prefix(t, cp.size))))
    && cp.headHash == t[cp.size - 1].hash
  }

  /** The head that was read is still a prefix of the log. */
  ghost predicate GoodDraft(c: Config, t: Entries, e: LogEntry) {
    && Dense(t) && 0 <= e.seqNo <= |t| && e.prevHash == PrevHash(t, e.seqNo)
    && e.actor == c.actor && e.signerPublicKey == c.publicKey && Committable(e)
  }

  ghost predicate GoodPending(c: Config, t: Entries, p: Pending) {
    match p
    case HeadRead(e) => GoodDraft(c, t, e)
    case EntrySigned(e) => GoodDraft(c, t, e) && GoodEntry(c, e)
    case HashesRead(cp) => GoodCheckpoint(c, t, cp)
    case CheckpointSigned(cp) => GoodCheckpoint(c, t, cp) && CheckpointSignature(c.crypto, cp)
  }

  /** Finished appends inserted different entries, all of them in the log. */
  ghost predicate GoodFinished(s: State) {
    && (forall w | w in s.finished && s.finished[w].Some? :: s.finished[w].value in s.entries)
    && (forall v, w | v in s.finished && w in s.finished && s.finished[v].Some?
      && s.finished[v] == s.finished[w] :: v == w)
    && s.pending.Keys !! s.finished.Keys
  }

  ghost predicate Inv(c: Config, s: State) {
    && Chain(c, s.entries)
    && (forall w | w in s.pending :: GoodPending(c, s.entries, s.pending[w]))
    && (forall n | n in s.checkpoints ::
         s.checkpoints[n].size == n && GoodCheckpoint(c, s.entries, s.checkpoints[n])
         && CheckpointSignature(c.crypto, s.checkpoints[n]))
    && GoodFinished(s)
  }

  /** The log only grows. */
  ghost predicate Extends(t: Entries, u: Entries) {
    |t| <= |u| && forall i | i in t :: i in u && u[i] == t[i]
  }

  lemma DenseHead(t: Entries)
    requires Dense(t)
    ensures NextSeq(t) == |t| && HeadHash(t) == PrevHash(t, |t|)
  {
    hide Repeat;
    if t.Keys != {} {
      assert |t.Keys| == |t|;
      assert |t| - 1 in t;
    }
  }

  lemma {:induction false} DenseRows(t: Entries)
    requires Dense(t)
    ensures Rows(t) == Prefix(t, |t|)
    decreases |t|
  {
    if t != map[] {
      DenseHead(t);
      var m := Greatest(t.Keys);
      var u := t - {m};
      assert u.Keys == t.Keys - {m};
      assert |u| == |t| - 1;
      assert m == |t| - 1;
      DenseRows(u);
      assert Prefix(t, |t|) == Prefix(u, |u|) + [t[m]];
    }
  }

  lemma AddKey<V>(t: map<int, V>, k: int, v: V)
    requires k !in t
    ensures |t[k := v]| == |t| + 1
  {
    var u := t[k := v];
    assert u.Keys == t.Keys + {k};
    assert |u.Keys| == |t.Keys| + 1;
  }

  lemma DenseExtends(t: Entries, e: LogEntry)
    requires Dense(t) && e.seqNo == |t|
    ensures Dense(t[e.seqNo := e]) && |t[e.seqNo := e]| == |t| + 1 && Extends(t, t[e.seqNo := e])
  {
    assert e.seqNo !in t;
    AddKey(t, e.seqNo, e);
  }

  lemma InsertExtends(c: Config, t: Entries, e: LogEntry)
    requires Chain(c, t) && GoodDraft(c, t, e) && GoodEntry(c, e) && MayInsert(t, e)
    ensures e.seqNo == |t|
    ensures Chain(c, t[e.seqNo := e]) && Extends(t, t[e.seqNo := e])
  {
    hide GoodEntry, Linked, AllLinked, Committable, PrevHash;
    assert e.seqNo == |t|;
    DenseExtends(t, e);
    LinksExtend(c, t, e);
    HashesStayUnique(t, e);
  }

  lemma LinksExtend(c: Config, t: Entries, e: LogEntry)
    requires Dense(t) && e.seqNo == |t| && e.prevHash == PrevHash(t, |t|) && GoodEntry(c, e)
    requires AllLinked(c, t)
    ensures AllLinked(c, t[e.seqNo := e])
  {
    hide GoodEntry, PrevHash, Linked;
    var u := t[e.seqNo := e];
    forall i | i in u ensures Linked(c, u, i) {
      LinkKept(c, t, e, i);
    }
  }

  lemma LinkKept(c: Config, t: Entries, e: LogEntry, i: int)
    requires Dense(t) && e.seqNo == |t| && e.prevHash == PrevHash(t, |t|) && GoodEntry(c, e)
    requires i in t ==> Linked(c, t, i)
    requires i in t || i == |t|
    ensures Linked(c, t[e.seqNo := e], i)
  {
    hide GoodEntry, Repeat;
    if i > 0 {
      PredecessorIn(t, e.seqNo, i);
    }
  }

  lemma HashesStayUnique(t: Entries, e: LogEntry)
    requires MayInsert(t, e) && forall i, j | i in t && j in t && t[i].hash == t[j].hash :: i == j
    ensures var u := t[e.seqNo := e]; forall i, j | i in u && j in u && u[i].hash == u[j].hash :: i == j
  {}

  lemma PredecessorIn(t: Entries, n: int, i: int)
    requires Dense(t) && n == |t| && (i in t || i == n) && i > 0
    ensures i - 1 in t
  {}

  lemma PendingSurvives(c: Config, t: Entries, u: Entries, p: Pending)
    requires Dense(t) && Dense(u) && Extends(t, u) && GoodPending(c, t, p)
    ensures GoodPending(c, u, p)
  {
    hide GoodEntry, Committable, CheckpointSignature;
    match p
    case HeadRead(e) => assert e.seqNo > 0 ==> e.seqNo - 1 in t;
    case EntrySigned(e) => assert e.seqNo > 0 ==> e.seqNo - 1 in t;
    case HashesRead(cp) => CheckpointSurvives(c, t, u, cp);
    case CheckpointSigned(cp) => CheckpointSurvives(c, t, u, cp);
  }

  /** A correct checkpoint stays correct however the log grows. */
  lemma CheckpointSurvives(c: Config, t: Entries, u: Entries, cp: Checkpoint)
    requires Dense(t) && Dense(u) && Extends(t, u) && GoodCheckpoint(c, t, cp)
    ensures GoodCheckpoint(c, u, cp)
  {
    assert Prefix(t, cp.size) == Prefix(u, cp.size);
    assert cp.size - 1 in t;
  }

  lemma HeadDigest(c: Config, rows: seq<LogEntry>, i: nat)
    requires i < |rows| && GoodEntry(c, rows[i])
    ensures Hex(Digests(rows)[i]) == rows[i].hash
  {
    hide Hex, FromHex, Commitment, Committable, EntrySignature;
    FromHexHex(c.crypto.entryDigest(Commitment(rows[i])));
  }

  lemma NonEmptyDense(t: Entries)
    requires Dense(t) && t.Keys != {}
    ensures |t| > 0 && |t| - 1 in t
  {
    var k := Member(t.Keys);
    assert 0 <= k < |t|;
  }

  lemma DraftOfChain(c: Config, t: Entries, ts: int)
    requires Chain(c, t) && t.Keys != {}
    ensures |Rows(t)| > 0 && GoodCheckpoint(c, t, CheckpointDraft(c, Rows(t), ts))
  {
    hide Hex, FromHex, Repeat, MerkleRoot, GoodEntry, Rows, Digests, PrevHash, Dense;
    NonEmptyDense(t);
    DenseRows(t);
    var n := |t|;
    var rows := Prefix(t, n);
    assert rows[n - 1] == t[n - 1];
    assert GoodEntry(c, t[n - 1]);
    HeadDigest(c, rows, n - 1);
    var cp := CheckpointDraft(c, rows, ts);
    assert cp.headHash == t[cp.size - 1].hash;
  }

  // ---------- each step keeps the invariant ----------

  lemma SetPending(c: Config, s: State, w: nat, p: Pending)
    requires Inv(c, s) && w !in s.finished && GoodPending(c, s.entries, p)
    ensures Inv(c, s.(pending := s.pending[w := p]))
  {
    hide Chain, GoodPending, GoodCheckpoint, CheckpointSignature;
  }

  lemma Finish(c: Config, s: State, w: nat)
    requires Inv(c, s) && w !in s.finished
    ensures Inv(c, s.(pending := s.pending - {w}, finished := s.finished[w := None]))
  {
    hide Chain, GoodPending, GoodCheckpoint, CheckpointSignature;
  }

  lemma SignedKeepsBody(c: Config, draft: LogEntry, signature: Text)
    requires Committable(draft)
    ensures Committable(Signed(c, draft, signature))
    ensures Commitment(Signed(c, draft, signature)) == Commitment(draft)
  {
    assert BodyOf(Signed(c, draft, signature)) == BodyOf(draft);
  }

  lemma HeadDraft(c: Config, t: Entries, request: Request)
    requires Chain(c, t) && Committable(Draft(c, request, NextSeq(t), HeadHash(t)))
    ensures GoodPending(c, t, HeadRead(Draft(c, request, NextSeq(t), HeadHash(t))))
  {
    hide Committable, GoodEntry, Repeat, PrevHash, HeadHash, NextSeq;
    DenseHead(t);
  }

  lemma KeepReadHead(c: Config, s: State, w: nat, request: Request)
    requires Inv(c, s)
    ensures Inv(c, Apply(c, s, ReadHead(w, request)))
    ensures Apply(c, s, ReadHead(w, request)).entries == s.entries
  {
    hide Committable, Chain, GoodPending, GoodDraft, GoodCheckpoint, CheckpointSignature, HeadHash, NextSeq;
    if w !in s.pending && w !in s.finished {
      var draft := Draft(c, request, NextSeq(s.entries), HeadHash(s.entries));
      if Committable(draft) {
        HeadDraft(c, s.entries, request);
        SetPending(c, s, w, HeadRead(draft));
      } else {
        Finish(c, s, w);
        assert s.pending - {w} == s.pending;
      }
    }
  }

  lemma KeepSignEntry(c: Config, s: State, w: nat, signature: Text)
    requires Inv(c, s)
    ensures Inv(c, Apply(c, s, SignEntry(w, signature)))
    ensures Apply(c, s, SignEntry(w, signature)).entries == s.entries
  {
    hide Committable, Commitment, GoodCheckpoint, CheckpointSignature, Repeat, PrevHash, Chain, Hex;
    if w in s.pending && s.pending[w].HeadRead? && Committable(s.pending[w].draft) {
      var draft := s.pending[w].draft;
      var e := Signed(c, draft, signature);
      assert GoodPending(c, s.entries, s.pending[w]);
      SignedKeepsBody(c, draft, signature);
      if EntrySignature(c.crypto, e) {
        assert GoodPending(c, s.entries, EntrySigned(e));
        SetPending(c, s, w, EntrySigned(e));
      }
    }
  }

  lemma KeepInsertEntry(c: Config, s: State, w: nat)
    requires Inv(c, s)
    ensures Inv(c, Apply(c, s, InsertEntry(w)))
    ensures Extends(s.entries, Apply(c, s, InsertEntry(w)).entries)
  {
    hide GoodEntry, GoodDraft, GoodCheckpoint, CheckpointSignature, Repeat, PrevHash, Commitment;
    if w in s.pending && s.pending[w].EntrySigned? {
      var e := s.pending[w].entry;
      assert GoodPending(c, s.entries, s.pending[w]);
      if MayInsert(s.entries, e) {
        InsertExtends(c, s.entries, e);
        GrownState(c, s, w, e);
      } else {
        Finish(c, s, w);
      }
    }
  }

  lemma GrownState(c: Config, s: State, w: nat, e: LogEntry)
    requires Inv(c, s) && w in s.pending && e.seqNo !in s.entries
    requires Chain(c, s.entries[e.seqNo := e]) && Extends(s.entries, s.entries[e.seqNo := e])
    ensures Inv(c, State(s.entries[e.seqNo := e], s.checkpoints, s.pending - {w}, s.finished[w := Some(e.seqNo)]))
  {
    hide GoodEntry, GoodPending, GoodCheckpoint, CheckpointSignature, PrevHash, Dense, AllLinked, GoodFinished;
    var u := s.entries[e.seqNo := e];
    assert GoodFinished(State(u, s.checkpoints, s.pending - {w}, s.finished[w := Some(e.seqNo)])) by {
      FinishedGrows(s, w, e);
    }
    forall v | v in s.pending ensures GoodPending(c, u, s.pending[v]) {
      PendingSurvives(c, s.entries, u, s.pending[v]);
    }
    forall n | n in s.checkpoints ensures GoodCheckpoint(c, u, s.checkpoints[n]) {
      CheckpointSurvives(c, s.entries, u, s.checkpoints[n]);
    }
  }

  lemma FinishedGrows(s: State, w: nat, e: LogEntry)
    requires GoodFinished(s) && w in s.pending && e.seqNo !in s.entries
    ensures GoodFinished(State(s.entries[e.seqNo := e], s.checkpoints, s.pending - {w}, s.finished[w := Some(e.seqNo)]))
  {}

  lemma KeepReadHashes(c: Config, s: State, w: nat, ts: int)
    requires Inv(c, s)
    ensures Inv(c, Apply(c, s, ReadHashes(w, ts))) && Apply(c, s, ReadHashes(w, ts)).entries == s.entries
  {
    hide Chain, GoodCheckpoint, CheckpointSignature, CheckpointDraft, Rows, Accepts;
    if w !in s.pending && w !in s.finished {
      assert s.pending - {w} == s.pending;
      if s.entries.Keys != {} {
        DraftOfChain(c, s.entries, ts);
        var cp := CheckpointDraft(c, Rows(s.entries), ts);
        SetPending(c, s, w, HashesRead(cp));
      }
      Finish(c, s, w);
    }
  }

  /** What a checkpoint says about the log does not depend on its signature, time or anchors. */
  lemma Unaffected(c: Config, t: Entries, cp: Checkpoint, other: Checkpoint)
    requires GoodCheckpoint(c, t, cp)
    requires other == cp.(signature := other.signature, ts := other.ts, anchors := other.anchors)
    ensures GoodCheckpoint(c, t, other)
  {
    hide Digests, MerkleRoot, Hex;
  }

  lemma KeepSignCheckpoint(c: Config, s: State, w: nat, signature: Text)
    requires Inv(c, s)
    ensures Inv(c, Apply(c, s, SignCheckpoint(w, signature)))
    ensures Apply(c, s, SignCheckpoint(w, signature)).entries == s.entries
  {
    hide Chain, CheckpointSignature, GoodCheckpoint;
    if w in s.pending && s.pending[w].HashesRead? {
      assert GoodPending(c, s.entries, s.pending[w]);
      var cp := s.pending[w].unsigned.(signature := signature);
      Unaffected(c, s.entries, s.pending[w].unsigned, cp);
      if CheckpointSignature(c.crypto, cp) {
        SetPending(c, s, w, CheckpointSigned(cp));
      }
    }
  }

  lemma KeepInsertCheckpoint(c: Config, s: State, w: nat)
    requires Inv(c, s)
    ensures Inv(c, Apply(c, s, InsertCheckpoint(w))) && Apply(c, s, InsertCheckpoint(w)).entries == s.entries
  {
    hide Chain, CheckpointSignature, GoodCheckpoint;
    if w in s.pending && s.pending[w].CheckpointSigned? {
      var cp := s.pending[w].checkpoint;
      assert GoodPending(c, s.entries, s.pending[w]);
      if cp.size !in s.checkpoints {
        StoreCheckpoint(c, s, cp.size, cp);
        Finish(c, s.(checkpoints := s.checkpoints[cp.size := cp]), w);
      } else {
        Finish(c, s, w);
      }
    }
  }

  lemma StoreCheckpoint(c: Config, s: State, size: int, cp: Checkpoint)
    requires Inv(c, s) && cp.size == size && GoodCheckpoint(c, s.entries, cp) && CheckpointSignature(c.crypto, cp)
    ensures Inv(c, s.(checkpoints := s.checkpoints[size := cp]))
  {
    hide Chain, CheckpointSignature, GoodCheckpoint, GoodPending;
  }

  lemma KeepAttachAnchors(c: Config, s: State, size: int, anchors: seq<Anchor>)
    requires Inv(c, s)
    ensures Inv(c, Apply(c, s, AttachAnchors(size, anchors)))
    ensures Apply(c, s, AttachAnchors(size, anchors)).entries == s.entries
  {
    hide Chain, Print, Accepts, GoodCheckpoint;
    if size in s.checkpoints && Imprinted(anchors, s.checkpoints[size].root) {
      var cp := s.checkpoints[size].(anchors := s.checkpoints[size].anchors + anchors);
      assert CheckpointBody(cp) == CheckpointBody(s.checkpoints[size]);
      Unaffected(c, s.entries, s.checkpoints[size], cp);
      StoreCheckpoint(c, s, size, cp);
    }
  }

  lemma ApplyKeepsInv(c: Config, s: State, step: Step)
    requires Inv(c, s)
    ensures Inv(c, Apply(c, s, step)) && Extends(s.entries, Apply(c, s, step).entries)
  {
    hide Inv, Apply;
    match step
    case ReadHead(w, request) => KeepReadHead(c, s, w, request);
    case SignEntry(w, signature) => KeepSignEntry(c, s, w, signature);
    case InsertEntry(w) => KeepInsertEntry(c, s, w);
    case ReadHashes(w, ts) => KeepReadHashes(c, s, w, ts);
    case SignCheckpoint(w, signature) => KeepSignCheckpoint(c, s, w, signature);
    case InsertCheckpoint(w) => KeepInsertCheckpoint(c, s, w);
    case AttachAnchors(size, anchors) => KeepAttachAnchors(c, s, size, anchors);
  }

  // ---------- theorems over every run ----------

  lemma {:induction false} RunKeepsInv(c: Config, s: State, steps: seq<Step>)
    requires Inv(c, s)
    ensures Inv(c, Run(c, s, steps)) && Extends(s.entries, Run(c, s, steps).entries)
    decreases |steps|
  {
    hide Inv, Apply;
    if steps != [] {
      ApplyKeepsInv(c, s, steps[0]);
      RunKeepsInv(c, Apply(c, s, steps[0]), steps[1..]);
    }
  }

  lemma ReachableInv(c: Config, steps: seq<Step>)
    ensures Inv(c, Run(c, EMPTY, steps))
  {
    hide Apply;
    RunKeepsInv(c, EMPTY, steps);
  }

  /** Under every interleaving the table is a dense signed chain from the zero hash, finished appends
      inserted different rows of it, and every stored checkpoint is signed and correct for its prefix. */
  lemma EveryRunIsAChain(c: Config, steps: seq<Step>)
    ensures var s := Run(c, EMPTY, steps);
      && Chain(c, s.entries)
      && (forall w | w in s.finished && s.finished[w].Some? :: s.finished[w].value in s.entries)
      && (forall v, w | v in s.finished && w in s.finished && s.finished[v].Some?
        && s.finished[v] == s.finished[w] :: v == w)
      && (forall n | n in s.checkpoints ::
           s.checkpoints[n].size == n && GoodCheckpoint(c, s.entries, s.checkpoints[n])
           && CheckpointSignature(c.crypto, s.checkpoints[n]))
  {
    hide Run, Chain, GoodCheckpoint, CheckpointSignature, GoodPending;
    ReachableInv(c, steps);
  }

  // ---------- where entries and checkpoints come from ----------

  ghost predicate Carries(e: LogEntry, r: Request) {
    e.kind == r.kind && e.ts == r.ts && e.payload == r.payload
  }

  /** Some call of writer w asked for what the entry says. */
  ghost predicate Asked(steps: seq<Step>, w: nat, e: LogEntry) {
    exists j :: 0 <= j < |steps| && steps[j].ReadHead? && steps[j].w == w && Carries(e, steps[j].request)
  }

  ghost predicate AskedCheckpoint(steps: seq<Step>, w: nat, cp: Checkpoint) {
    exists j :: 0 <= j < |steps| && steps[j] == ReadHashes(w, cp.ts)
  }

  ghost predicate AskedPending(steps: seq<Step>, w: nat, p: Pending) {
    match p
    case HeadRead(e) => Asked(steps, w, e)
    case EntrySigned(e) => Asked(steps, w, e)
    case HashesRead(cp) => AskedCheckpoint(steps, w, cp)
    case CheckpointSigned(cp) => AskedCheckpoint(steps, w, cp)
  }

  /** The call that inserted the entry asked for it. */
  ghost predicate InsertedBy(steps: seq<Step>, s: State, i: int, w: nat)
    requires i in s.entries
  {
    w in s.finished && s.finished[w] == Some(i) && Asked(steps, w, s.entries[i])
  }

  ghost predicate Origins(s: State, steps: seq<Step>) {
    && (forall w | w in s.pending :: AskedPending(steps, w, s.pending[w]))
    && (forall i | i in s.entries :: exists w :: InsertedBy(steps, s, i, w))
    && forall n | n in s.checkpoints :: exists w :: AskedCheckpoint(steps, w, s.checkpoints[n])
  }

  lemma StillAsked(steps: seq<Step>, step: Step, w: nat)
    ensures forall e | Asked(steps, w, e) :: Asked(steps + [step], w, e)
    ensures forall cp | AskedCheckpoint(steps, w, cp) :: AskedCheckpoint(steps + [step], w, cp)
    ensures forall p | AskedPending(steps, w, p) :: AskedPending(steps + [step], w, p)
  {
    var more := steps + [step];
    assert forall j | 0 <= j < |steps| :: more[j] == steps[j];
    forall e | Asked(steps, w, e) ensures Asked(more, w, e) {
      var j :| 0 <= j < |steps| && steps[j].ReadHead? && steps[j].w == w && Carries(e, steps[j].request);
      assert more[j] == steps[j];
    }
    forall cp | AskedCheckpoint(steps, w, cp) ensures AskedCheckpoint(more, w, cp) {
      var j :| 0 <= j < |steps| && steps[j] == ReadHashes(w, cp.ts);
      assert more[j] == steps[j];
    }
  }

  lemma JustAsked(c: Config, steps: seq<Step>, w: nat, request: Request, n: int, hash: Text)
    ensures Asked(steps + [ReadHead(w, request)], w, Draft(c, request, n, hash))
  {
    var more := steps + [ReadHead(w, request)];
    assert more[|steps|] == ReadHead(w, request);
  }

  lemma JustAskedCheckpoint(c: Config, steps: seq<Step>, w: nat, rows: seq<LogEntry>, ts: int)
    requires rows != []
    ensures AskedCheckpoint(steps + [ReadHashes(w, ts)], w, CheckpointDraft(c, rows, ts))
  {
    hide Hex, MerkleRoot, Digests;
    var more := steps + [ReadHashes(w, ts)];
    assert more[|steps|] == ReadHashes(w, ts);
  }

  /** Only pending calls change: those that are new were asked for. */
  lemma OriginsStay(s: State, t: State, steps: seq<Step>, step: Step)
    requires Origins(s, steps) && t.entries == s.entries && t.checkpoints == s.checkpoints
    requires forall w | w in s.finished :: w in t.finished && t.finished[w] == s.finished[w]
    requires forall w | w in t.pending ::
      (w in s.pending && t.pending[w] == s.pending[w]) || AskedPending(steps + [step], w, t.pending[w])
    ensures Origins(t, steps + [step])
  {
    hide Asked, AskedCheckpoint, AskedPending;
    var more := steps + [step];
    forall w | w in t.pending ensures AskedPending(more, w, t.pending[w]) {
      StillAsked(steps, step, w);
    }
    forall i | i in t.entries ensures exists w :: InsertedBy(more, t, i, w) {
      var w :| InsertedBy(steps, s, i, w);
      StillAsked(steps, step, w);
      assert InsertedBy(more, t, i, w);
    }
    forall n | n in t.checkpoints ensures exists w :: AskedCheckpoint(more, w, t.checkpoints[n]) {
      var w :| AskedCheckpoint(steps, w, s.checkpoints[n]);
      StillAsked(steps, step, w);
    }
  }

  lemma InsertKeepsOrigins(c: Config, s: State, steps: seq<Step>, w: nat)
    requires Inv(c, s) && Origins(s, steps) && w in s.pending && s.pending[w].EntrySigned?
    ensures Origins(Apply(c, s, InsertEntry(w)), steps + [InsertEntry(w)])
  {
    hide Chain, GoodPending, GoodCheckpoint, CheckpointSignature, Asked, AskedCheckpoint;
    var t, more, e := Apply(c, s, InsertEntry(w)), steps + [InsertEntry(w)], s.pending[w].entry;
    if MayInsert(s.entries, e) {
      forall v | v in t.pending ensures AskedPending(more, v, t.pending[v]) {
        StillAsked(steps, InsertEntry(w), v);
      }
      forall i | i in t.entries ensures exists v :: InsertedBy(more, t, i, v) {
        if i == e.seqNo {
          StillAsked(steps, InsertEntry(w), w);
          assert AskedPending(steps, w, s.pending[w]);
          assert InsertedBy(more, t, i, w);
        } else {
          var v :| InsertedBy(steps, s, i, v);
          StillAsked(steps, InsertEntry(w), v);
          assert InsertedBy(more, t, i, v);
        }
      }
      forall n | n in t.checkpoints ensures exists v :: AskedCheckpoint(more, v, t.checkpoints[n]) {
        var v :| AskedCheckpoint(steps, v, s.checkpoints[n]);
        StillAsked(steps, InsertEntry(w), v);
      }
    } else {
      OriginsStay(s, t, steps, InsertEntry(w));
    }
  }

  /** A stored checkpoint is the old one, with more anchors perhaps, or one that was asked for. */
  lemma CheckpointsKeepOrigins(s: State, t: State, steps: seq<Step>, step: Step)
    requires Origins(s, steps) && t.entries == s.entries
    requires forall w | w in s.finished :: w in t.finished && t.finished[w] == s.finished[w]
    requires forall w | w in t.pending :: w in s.pending && t.pending[w] == s.pending[w]
    requires forall n | n in t.checkpoints ::
      || (n in s.checkpoints && t.checkpoints[n].ts == s.checkpoints[n].ts)
      || exists w :: AskedCheckpoint(steps, w, t.checkpoints[n])
    ensures Origins(t, steps + [step])
  {
    hide Asked, AskedPending;
    var more := steps + [step];
    forall w | w in t.pending ensures AskedPending(more, w, t.pending[w]) {
      StillAsked(steps, step, w);
    }
    forall i | i in t.entries ensures exists w :: InsertedBy(more, t, i, w) {
      var w :| InsertedBy(steps, s, i, w);
      StillAsked(steps, step, w);
      assert InsertedBy(more, t, i, w);
    }
    forall n | n in t.checkpoints ensures exists w :: AskedCheckpoint(more, w, t.checkpoints[n]) {
      if n in s.checkpoints && t.checkpoints[n].ts == s.checkpoints[n].ts {
        var w :| AskedCheckpoint(steps, w, s.checkpoints[n]);
        assert AskedCheckpoint(steps, w, t.checkpoints[n]);
        StillAsked(steps, step, w);
      } else {
        var w :| AskedCheckpoint(steps, w, t.checkpoints[n]);
        StillAsked(steps, step, w);
      }
    }
  }

  lemma ReadingKeepsOrigins(c: Config, s: State, steps: seq<Step>, step: Step)
    requires Inv(c, s) && Origins(s, steps) && (step.ReadHead? || step.ReadHashes?)
    ensures Origins(Apply(c, s, step), steps + [step])
  {
    hide Inv, Asked, AskedCheckpoint, Committable, CheckpointDraft, Rows, NextSeq, HeadHash, Draft, Accepts, Origins;
    if step.ReadHead? {
      JustAsked(c, steps, step.w, step.request, NextSeq(s.entries), HeadHash(s.entries));
    } else if s.entries.Keys != {} {
      assert |s.entries.Keys| == |s.entries| > 0;
      JustAskedCheckpoint(c, steps, step.w, Rows(s.entries), step.ts);
    }
    OriginsStay(s, Apply(c, s, step), steps, step);
  }

  lemma SigningKeepsOrigins(c: Config, s: State, steps: seq<Step>, step: Step)
    requires Inv(c, s) && Origins(s, steps) && (step.SignEntry? || step.SignCheckpoint?)
    ensures Origins(Apply(c, s, step), steps + [step])
  {
    hide Chain, GoodPending, GoodCheckpoint, CheckpointSignature, Committable, EntrySignature, Commitment, Hex,
      GoodFinished;
    StillAsked(steps, step, step.w);
    if step.w in s.pending {
      assert AskedPending(steps, step.w, s.pending[step.w]);
    }
    OriginsStay(s, Apply(c, s, step), steps, step);
  }

  lemma StepKeepsOrigins(c: Config, s: State, steps: seq<Step>, step: Step)
    requires Inv(c, s) && Origins(s, steps)
    ensures Origins(Apply(c, s, step), steps + [step])
  {
    hide Chain, GoodPending, GoodCheckpoint, CheckpointSignature, Asked, AskedCheckpoint, MayInsert, Imprinted,
      Commitment, Committable, CheckpointDraft, Rows;
    match step
    case ReadHead(_, _) => ReadingKeepsOrigins(c, s, steps, step);
    case ReadHashes(_, _) => ReadingKeepsOrigins(c, s, steps, step);
    case SignEntry(_, _) => SigningKeepsOrigins(c, s, steps, step);
    case SignCheckpoint(_, _) => SigningKeepsOrigins(c, s, steps, step);
    case InsertEntry(w) =>
      if w in s.pending && s.pending[w].EntrySigned? {
        InsertKeepsOrigins(c, s, steps, w);
      } else {
        OriginsStay(s, s, steps, step);
      }
    case InsertCheckpoint(w) =>
      if w in s.pending {
        assert AskedPending(steps, w, s.pending[w]);
      }
      CheckpointsKeepOrigins(s, Apply(c, s, step), steps, step);
    case AttachAnchors(_, _) => CheckpointsKeepOrigins(s, Apply(c, s, step), steps, step);
  }

  lemma {:induction false} RunHasOrigins(c: Config, steps: seq<Step>)
    ensures Origins(Run(c, EMPTY, steps), steps)
    decreases |steps|
  {
    hide Origins, Apply, Inv;
    if steps == [] {
      NothingToAsk(c);
    } else {
      var init, last := steps[..|steps| - 1], steps[|steps| - 1];
      RunHasOrigins(c, init);
      ReachableInv(c, init);
      StepKeepsOrigins(c, Run(c, EMPTY, init), init, last);
      assert steps == init + [last];
      RunAppend(c, EMPTY, init, [last]);
      RunOneStep(c, Run(c, EMPTY, init), last);
    }
  }

  lemma RunOneStep(c: Config, s: State, step: Step)
    ensures Run(c, s, [step]) == Apply(c, s, step)
  {
    hide Apply;
    assert [step][1..] == [];
  }

  lemma NothingToAsk(c: Config)
    ensures Origins(Run(c, EMPTY, []), [])
  {}

  /** In every run, every entry was inserted by a call that asked for exactly its type, time and payload. */
  lemma EveryEntryWasAskedFor(c: Config, steps: seq<Step>, i: int)
    requires i in Run(c, EMPTY, steps).entries
    ensures var s := Run(c, EMPTY, steps); exists w, j ::
      && w in s.finished && s.finished[w] == Some(i) && 0 <= j < |steps| && steps[j].ReadHead? && steps[j].w == w
      && s.entries[i].kind == steps[j].request.kind && s.entries[i].ts == steps[j].request.ts
      && s.entries[i].payload == steps[j].request.payload
  {
    hide Run;
    RunHasOrigins(c, steps);
    var s := Run(c, EMPTY, steps);
    var w :| InsertedBy(steps, s, i, w);
    var j :| 0 <= j < |steps| && steps[j].ReadHead? && steps[j].w == w && Carries(s.entries[i], steps[j].request);
  }

  /** And every stored checkpoint has the time that some call gave it. */
  lemma EveryCheckpointWasAskedFor(c: Config, steps: seq<Step>, n: int)
    requires n in Run(c, EMPTY, steps).checkpoints
    ensures exists w, j :: 0 <= j < |steps| && steps[j] == ReadHashes(w, Run(c, EMPTY, steps).checkpoints[n].ts)
  {
    hide Run;
    RunHasOrigins(c, steps);
    var w :| AskedCheckpoint(steps, w, Run(c, EMPTY, steps).checkpoints[n]);
  }

  /** Whatever happens later, an entry stays and a stored checkpoint stays correct for its prefix. */
  lemma HistoryIsPermanent(c: Config, steps: seq<Step>, more: seq<Step>)
    ensures var s := Run(c, EMPTY, steps);
            var t := Run(c, s, more);
            && (forall i | i in s.entries :: i in t.entries && t.entries[i] == s.entries[i])
            && (forall n | n in s.checkpoints :: GoodCheckpoint(c, t.entries, s.checkpoints[n]))
  {
    hide Apply;
    RunKeepsInv(c, EMPTY, steps);
    var s := Run(c, EMPTY, steps);
    RunKeepsInv(c, s, more);
    var t := Run(c, s, more);
    forall n | n in s.checkpoints ensures GoodCheckpoint(c, t.entries, s.checkpoints[n]) {
      CheckpointSurvives(c, s.entries, t.entries, s.checkpoints[n]);
    }
  }

  /** A signed entry is inserted exactly when the head it read is still the head and its hash is new. */
  lemma InsertSucceedsIffHeadUnmoved(c: Config, s: State, w: nat)
    requires Inv(c, s) && w in s.pending && s.pending[w].EntrySigned?
    ensures var e := s.pending[w].entry; var r := Apply(c, s, InsertEntry(w));
            && w !in r.pending && w in r.finished
            && (r.finished[w] == Some(e.seqNo) <==>
                 e.seqNo == NextSeq(s.entries) && forall k | k in s.entries :: s.entries[k].hash != e.hash)
            && (r.finished[w].None? ==> r.entries == s.entries)
  {
    hide GoodEntry, Committable, GoodCheckpoint, CheckpointSignature, Repeat, PrevHash, HeadHash, NextSeq, AllLinked,
      GoodFinished;
    assert GoodPending(c, s.entries, s.pending[w]);
    DenseHead(s.entries);
  }

  /** An append under way that has read position n, whether or not its signature has come. */
  ghost predicate Appending(s: State, w: nat, n: int) {
    && w in s.pending
    && (s.pending[w].HeadRead? ==> s.pending[w].draft.seqNo == n)
    && (s.pending[w].EntrySigned? ==> s.pending[w].entry.seqNo == n)
    && (s.pending[w].HeadRead? || s.pending[w].EntrySigned?)
  }

  ghost predicate Inserted(s: State, w: nat) {
    w in s.finished && s.finished[w].Some?
  }

  /** Where such an append can end. */
  ghost predicate AppendingOrDone(s: State, w: nat, n: int) {
    Appending(s, w, n) || (w in s.finished && w !in s.pending && (Inserted(s, w) ==> s.finished[w].value == n))
  }

  lemma StaysAppendingOrDone(c: Config, s: State, w: nat, n: int, step: Step)
    requires AppendingOrDone(s, w, n)
    ensures AppendingOrDone(Apply(c, s, step), w, n)
  {
    hide Committable, CheckpointDraft, Rows, CheckpointSignature, EntrySignature, HeadHash, NextSeq, Commitment, Hex,
      MayInsert, Accepts;
  }

  lemma {:induction false} RunsToTheEnd(c: Config, s: State, w: nat, n: int, steps: seq<Step>)
    requires AppendingOrDone(s, w, n)
    ensures AppendingOrDone(Run(c, s, steps), w, n)
    decreases |steps|
  {
    hide AppendingOrDone, Apply;
    if steps != [] {
      StaysAppendingOrDone(c, s, w, n, steps[0]);
      RunsToTheEnd(c, Apply(c, s, steps[0]), w, n, steps[1..]);
    }
  }

  /** Of two writers that read the same head, at most one ever inserts, whatever else happens; once one
      has, the insert of the other changes nothing in the log and fails. */
  lemma OneWriterWins(c: Config, s: State, v: nat, w: nat, n: int, steps: seq<Step>)
    requires Inv(c, s) && v != w && Appending(s, v, n) && Appending(s, w, n)
    ensures var u := Run(c, s, steps); var r := Apply(c, u, InsertEntry(w));
      && !(Inserted(u, v) && Inserted(u, w))
      && (Inserted(u, v) ==> !Inserted(r, w) && r.entries == u.entries)
  {
    hide Apply, Chain, GoodPending, GoodCheckpoint, CheckpointSignature;
    var u := Run(c, s, steps);
    RunKeepsInv(c, s, steps);
    RunsToTheEnd(c, s, v, n, steps);
    RunsToTheEnd(c, s, w, n, steps);
    if Inserted(u, v) {
      InsertFails(c, u, w, n);
    }
  }

  lemma InsertFails(c: Config, s: State, w: nat, n: int)
    requires AppendingOrDone(s, w, n) && n in s.entries && !Inserted(s, w)
    ensures var r := Apply(c, s, InsertEntry(w)); r.entries == s.entries && !Inserted(r, w)
  {}

  /** No two entries follow the same entry. */
  lemma NoTwoSuccessors(c: Config, steps: seq<Step>, i: int, j: int)
    requires var t := Run(c, EMPTY, steps).entries; i in t && j in t && i > 0 && j > 0 && t[i].prevHash == t[j].prevHash
    ensures i == j
  {
    hide Apply, GoodEntry, GoodFinished, GoodPending, GoodCheckpoint;
    ReachableInv(c, steps);
    var t := Run(c, EMPTY, steps).entries;
    assert Dense(t);
    assert i - 1 in t && j - 1 in t;
  }
}
