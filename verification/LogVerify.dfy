/**
 Independent verification of a published log: what its findings mean, that a history cannot be
 changed under the same head or the same checkpoint, and that an honest log is never accused.
 */
module LogVerify {
  import opened Bytes
  import opened Wrappers
  import opened Canonical
  import opened Merkle
  import opened Log
  import opened Sorting
  import opened Dates

  datatype Severity = Fatal | Warning

  datatype Code =
    | SeqDiscontinuity | EntryInvalid | ChainRootInvalid | ChainBroken | TimestampRegression
    | SignerUnknown | SignerUntrusted
    | CheckpointInvalid | CheckpointOverrun | CheckpointRootMismatch | CheckpointHeadMismatch
    | CheckpointSignerUntrusted | CheckpointUnderAnchored | CheckpointFork | CheckpointTimeRegression
    | EvidenceVersion

  datatype Finding = Finding(severity: Severity, code: Code, at: int)

  datatype Options = Options(trusted: Option<map<Text, Text>>, minAnchors: int)

  function When(b: bool, f: Finding): seq<Finding> {
    if b then [f] else []
  }

  ghost predicate NoFatal(fs: seq<Finding>) {
    forall f | f in fs :: f.severity != Fatal
  }

  lemma NoFatalConcat(a: seq<Finding>, b: seq<Finding>)
    ensures NoFatal(a + b) <==> NoFatal(a) && NoFatal(b)
  {
    assert forall f :: f in a + b <==> f in a || f in b;
  }

  lemma NothingFound()
    ensures NoFatal([])
  {}

  lemma NoFatalWhen(b: bool, f: Finding)
    ensures NoFatal(When(b, f)) <==> (b ==> f.severity != Fatal)
  {
    assert b ==> f in When(b, f);
  }

  // ---------- the chain ----------

  function SignerFindings(e: LogEntry, trusted: Option<map<Text, Text>>): seq<Finding> {
    if trusted.None? then []
    else if e.actor !in trusted.value then [Finding(Fatal, SignerUnknown, e.seqNo)]
    else When(trusted.value[e.actor] != e.signerPublicKey, Finding(Fatal, SignerUntrusted, e.seqNo))
  }

  function LinkFindings(prev: Option<LogEntry>, e: LogEntry): seq<Finding> {
    match prev
    case None => When(e.prevHash != ZERO_HASH, Finding(Fatal, ChainRootInvalid, e.seqNo))
    case Some(p) => When(e.prevHash != p.hash, Finding(Fatal, ChainBroken, e.seqNo))
  }

  function EntryFindings(k: LogCrypto, prev: Option<LogEntry>, i: nat, e: LogEntry,
      trusted: Option<map<Text, Text>>): seq<Finding>
    requires Committable(e)
  {
    When(e.seqNo != i, Finding(Fatal, SeqDiscontinuity, e.seqNo))
    + When(!VerifyEntrySelf(k, e), Finding(Fatal, EntryInvalid, e.seqNo))
    + LinkFindings(prev, e)
    + When(prev.Some? && e.ts < prev.value.ts, Finding(Warning, TimestampRegression, e.seqNo))
    + SignerFindings(e, trusted)
  }

  predicate AllCommittable(entries: seq<LogEntry>) {
    forall i | 0 <= i < |entries| :: Committable(entries[i])
  }

  /** The message of a regression shows both times. */
  predicate RegressionShows(prev: Option<LogEntry>, e: LogEntry) {
    prev.Some? && e.ts < prev.value.ts ==> IsDate(e.ts) && IsDate(prev.value.ts)
  }

  /** Wherever the time goes back, both times are dates. */
  predicate RegressionsShow(entries: seq<LogEntry>) {
    forall i | 0 <= i < |entries| :: RegressionShows(Before(entries, i), entries[i])
  }

  function Before(entries: seq<LogEntry>, i: nat): Option<LogEntry>
    requires i <= |entries|
  {
    if i == 0 then None else Some(entries[i - 1])
  }

  function ChainFindings(k: LogCrypto, entries: seq<LogEntry>, trusted: Option<map<Text, Text>>, n: nat): seq<Finding>
    requires AllCommittable(entries) && n <= |entries|
  {
    if n == 0 then [] else
    ChainFindings(k, entries, trusted, n - 1)
    + EntryFindings(k, Before(entries, n - 1), n - 1, entries[n - 1], trusted)
  }

  method VerifyChain(k: LogCrypto, entries: seq<LogEntry>, trusted: Option<map<Text, Text>>)
      returns (r: Option<seq<Finding>>)
    ensures r.Some? <==> AllCommittable(entries) && RegressionsShow(entries)
    ensures r.Some? ==> r.value == ChainFindings(k, entries, trusted, |entries|)
    ensures r.Some? ==> (NoFatal(r.value) <==> CleanChain(k, entries, trusted))
    ensures r.Some? ==> (NoFatal(r.value) <==> forall i: nat | i < |entries| ::
      InPlace(entries, i) && Genuine(k, entries[i]) && TrustedSigner(entries[i], trusted))
  {
    hide Committable, VerifyEntrySelf, NoFatal, CleanEntry, EntryFindings, Repeat, RegressionShows, InPlace, Genuine;
    var findings: seq<Finding> := [];
    var prev: Option<LogEntry> := None;
    var i := 0;
    while i < |entries|
      invariant 0 <= i <= |entries| && prev == Before(entries, i)
      invariant forall j | 0 <= j < i :: Committable(entries[j]) && RegressionShows(Before(entries, j), entries[j])
      invariant AllCommittable(entries) ==> findings == ChainFindings(k, entries, trusted, i)
    {
      if !Committable(entries[i]) {
        return None;
      }
      var found := VerifyEntry(k, prev, i, entries[i], trusted);
      if found.None? {
        return None;
      }
      findings := findings + found.value;
      prev := Some(entries[i]);
      i := i + 1;
    }
    ChainFindingsMeaning(k, entries, trusted, |entries|);
    CleanChainMeaning(k, entries, trusted);
    r := Some(findings);
  }

  /** The body of the loop over the entries. */
  method VerifyEntry(k: LogCrypto, prev: Option<LogEntry>, i: nat, e: LogEntry, trusted: Option<map<Text, Text>>)
    returns (r: Option<seq<Finding>>)
    requires Committable(e)
    ensures r.Some? <==> RegressionShows(prev, e)
    ensures r.Some? ==> r.value == EntryFindings(k, prev, i, e, trusted)
  {
    hide Committable, VerifyEntrySelf, Repeat, LinkFindings, SignerFindings, IsDate;
    var findings: seq<Finding> := [];
    if e.seqNo != i {
      findings := findings + [Finding(Fatal, SeqDiscontinuity, e.seqNo)];
    }
    if !VerifyEntrySelf(k, e) {
      findings := findings + [Finding(Fatal, EntryInvalid, e.seqNo)];
    }
    findings := findings + LinkFindings(prev, e);
    if prev.Some? && e.ts < prev.value.ts {
      if !IsDate(e.ts) || !IsDate(prev.value.ts) {
        return None;
      }
      findings := findings + [Finding(Warning, TimestampRegression, e.seqNo)];
    }
    r := Some(findings + SignerFindings(e, trusted));
  }

  ghost predicate TrustedSigner(e: LogEntry, trusted: Option<map<Text, Text>>) {
    trusted.Some? ==> e.actor in trusted.value && trusted.value[e.actor] == e.signerPublicKey
  }

  /** Entry i is at its place, is what its hash and signature say and follows entry i - 1. */
  ghost predicate CleanEntry(k: LogCrypto, entries: seq<LogEntry>, i: nat, trusted: Option<map<Text, Text>>)
    requires i < |entries|
  {
    var e := entries[i];
    && e.seqNo == i && Committable(e) && VerifyEntrySelf(k, e)
    && e.prevHash == (if i == 0 then ZERO_HASH else entries[i - 1].hash)
    && TrustedSigner(e, trusted)
  }

  /** The entry's text has the entry's hash, and its signature is one of that text under the entry's key. */
  ghost predicate Genuine(k: LogCrypto, e: LogEntry) {
    && Accepts(BodyOf(e)) && e.hash == Hex(k.entryDigest(Print(BodyOf(e))))
    && k.verify(EntryDomain, Print(BodyOf(e)), e.signature, e.signerPublicKey)
  }

  /** Entry i says that it is entry i, after the one that is there. */
  ghost predicate InPlace(entries: seq<LogEntry>, i: nat)
    requires i < |entries|
  {
    entries[i].seqNo == i && entries[i].prevHash == if i == 0 then ZERO_HASH else entries[i - 1].hash
  }

  lemma CleanEntryMeaning(k: LogCrypto, entries: seq<LogEntry>, i: nat, trusted: Option<map<Text, Text>>)
    requires i < |entries|
    ensures CleanEntry(k, entries, i, trusted) <==>
              InPlace(entries, i) && Genuine(k, entries[i]) && TrustedSigner(entries[i], trusted)
  {
    hide Accepts, Print, BodyOf, Hex, Repeat, TrustedSigner;
  }

  lemma CleanChainMeaning(k: LogCrypto, entries: seq<LogEntry>, trusted: Option<map<Text, Text>>)
    ensures CleanChain(k, entries, trusted) <==> forall i: nat | i < |entries| ::
              InPlace(entries, i) && Genuine(k, entries[i]) && TrustedSigner(entries[i], trusted)
  {
    hide CleanEntry, InPlace, Genuine, TrustedSigner;
    forall i: nat | i < |entries|
      ensures CleanEntry(k, entries, i, trusted) <==>
                InPlace(entries, i) && Genuine(k, entries[i]) && TrustedSigner(entries[i], trusted)
    {
      CleanEntryMeaning(k, entries, i, trusted);
    }
  }

  /** Which findings an entry gets: each of them exactly for its own reason, and no others. */
  lemma FindingsOfEntry(k: LogCrypto, entries: seq<LogEntry>, i: nat, trusted: Option<map<Text, Text>>)
    requires i < |entries| && Accepts(BodyOf(entries[i]))
    ensures var e := entries[i]; var fs := EntryFindings(k, Before(entries, i), i, e, trusted);
      && (Finding(Fatal, SeqDiscontinuity, e.seqNo) in fs <==> e.seqNo != i)
      && (Finding(Fatal, EntryInvalid, e.seqNo) in fs <==> !Genuine(k, e))
      && (Finding(Fatal, ChainRootInvalid, e.seqNo) in fs <==> i == 0 && e.prevHash != ZERO_HASH)
      && (Finding(Fatal, ChainBroken, e.seqNo) in fs <==> i > 0 && e.prevHash != entries[i - 1].hash)
      && (Finding(Warning, TimestampRegression, e.seqNo) in fs <==> i > 0 && e.ts < entries[i - 1].ts)
      && (Finding(Fatal, SignerUnknown, e.seqNo) in fs <==> trusted.Some? && e.actor !in trusted.value)
      && (Finding(Fatal, SignerUntrusted, e.seqNo) in fs <==>
            trusted.Some? && e.actor in trusted.value && trusted.value[e.actor] != e.signerPublicKey)
    ensures forall f | f in EntryFindings(k, Before(entries, i), i, entries[i], trusted) ::
      f.at == entries[i].seqNo && EntryCode(f)
  {
    hide Accepts, Print, BodyOf, Hex, Repeat, EntryFindings, LinkFindings, SignerFindings, Genuine;
    var e := entries[i];
    assert VerifyEntrySelf(k, e) <==> Genuine(k, e) by { SelfIsGenuine(k, e); }
    MembersOfEntry(k, Before(entries, i), i, e, trusted);
    MembersOfLink(Before(entries, i), e);
    MembersOfSigner(e, trusted);
  }

  lemma SelfIsGenuine(k: LogCrypto, e: LogEntry)
    requires Committable(e)
    ensures VerifyEntrySelf(k, e) <==> Genuine(k, e)
  {
    hide Accepts, Print, BodyOf, Hex;
  }

  lemma MembersOfEntry(k: LogCrypto, prev: Option<LogEntry>, i: nat, e: LogEntry, trusted: Option<map<Text, Text>>)
    requires Committable(e)
    ensures forall f :: f in EntryFindings(k, prev, i, e, trusted) <==>
      || (e.seqNo != i && f == Finding(Fatal, SeqDiscontinuity, e.seqNo))
      || (!VerifyEntrySelf(k, e) && f == Finding(Fatal, EntryInvalid, e.seqNo))
      || f in LinkFindings(prev, e)
      || (prev.Some? && e.ts < prev.value.ts && f == Finding(Warning, TimestampRegression, e.seqNo))
      || f in SignerFindings(e, trusted)
  {
    hide Committable, VerifyEntrySelf, LinkFindings, SignerFindings, When;
    WhenMembers();
  }

  lemma MembersOfLink(prev: Option<LogEntry>, e: LogEntry)
    ensures forall f :: f in LinkFindings(prev, e) <==>
      || (prev.None? && e.prevHash != ZERO_HASH && f == Finding(Fatal, ChainRootInvalid, e.seqNo))
      || (prev.Some? && e.prevHash != prev.value.hash && f == Finding(Fatal, ChainBroken, e.seqNo))
  {
    hide When, Repeat;
    WhenMembers();
  }

  lemma MembersOfSigner(e: LogEntry, trusted: Option<map<Text, Text>>)
    ensures forall f :: f in SignerFindings(e, trusted) <==>
      || (trusted.Some? && e.actor !in trusted.value && f == Finding(Fatal, SignerUnknown, e.seqNo))
      || (trusted.Some? && e.actor in trusted.value && trusted.value[e.actor] != e.signerPublicKey
          && f == Finding(Fatal, SignerUntrusted, e.seqNo))
  {
    hide When;
    WhenMembers();
  }

  predicate EntryCode(f: Finding) {
    match f.code
    case SeqDiscontinuity => f.severity == Fatal
    case EntryInvalid => f.severity == Fatal
    case ChainRootInvalid => f.severity == Fatal
    case ChainBroken => f.severity == Fatal
    case TimestampRegression => f.severity == Warning
    case SignerUnknown => f.severity == Fatal
    case SignerUntrusted => f.severity == Fatal
    case _ => false
  }

  lemma WhenMembers()
    ensures forall b, f, g :: g in When(b, f) <==> b && g == f
  {}

  /** The findings of a chain are those of its entries. */
  lemma {:induction false} FindingsOfChain(k: LogCrypto, entries: seq<LogEntry>, trusted: Option<map<Text, Text>>,
      n: nat, f: Finding)
    requires AllCommittable(entries) && n <= |entries|
    ensures f in ChainFindings(k, entries, trusted, n) <==>
              exists i: nat :: i < n && f in EntryFindings(k, Before(entries, i), i, entries[i], trusted)
  {
    hide EntryFindings, Committable, Before;
    if n > 0 {
      FindingsOfChain(k, entries, trusted, n - 1, f);
    }
  }

  ghost predicate CleanChain(k: LogCrypto, entries: seq<LogEntry>, trusted: Option<map<Text, Text>>) {
    forall i: nat | i < |entries| :: CleanEntry(k, entries, i, trusted)
  }

  lemma EntryFindingsMeaning(k: LogCrypto, entries: seq<LogEntry>, i: nat, trusted: Option<map<Text, Text>>)
    requires i < |entries| && Committable(entries[i])
    ensures var fs := EntryFindings(k, Before(entries, i), i, entries[i], trusted);
      NoFatal(fs) <==> CleanEntry(k, entries, i, trusted)
  {
    hide VerifyEntrySelf, Committable, Repeat, NoFatal, When;
    var e, prev := entries[i], Before(entries, i);
    var a := When(e.seqNo != i, Finding(Fatal, SeqDiscontinuity, e.seqNo));
    var b := When(!VerifyEntrySelf(k, e), Finding(Fatal, EntryInvalid, e.seqNo));
    var c := LinkFindings(prev, e);
    var d := When(prev.Some? && e.ts < prev.value.ts, Finding(Warning, TimestampRegression, e.seqNo));
    var f := SignerFindings(e, trusted);
    NoFatalWhen(e.seqNo != i, Finding(Fatal, SeqDiscontinuity, e.seqNo));
    NoFatalWhen(!VerifyEntrySelf(k, e), Finding(Fatal, EntryInvalid, e.seqNo));
    NoFatalWhen(prev.Some? && e.ts < prev.value.ts, Finding(Warning, TimestampRegression, e.seqNo));
    LinkMeaning(prev, e);
    SignerMeaning(e, trusted);
    NoFatalConcat(a, b);
    NoFatalConcat(a + b, c);
    NoFatalConcat(a + b + c, d);
    NoFatalConcat(a + b + c + d, f);
  }

  lemma LinkMeaning(prev: Option<LogEntry>, e: LogEntry)
    ensures NoFatal(LinkFindings(prev, e)) <==> e.prevHash == (if prev.None? then ZERO_HASH else prev.value.hash)
  {
    hide Repeat;
    match prev
    case None => NoFatalWhen(e.prevHash != ZERO_HASH, Finding(Fatal, ChainRootInvalid, e.seqNo));
    case Some(p) => NoFatalWhen(e.prevHash != p.hash, Finding(Fatal, ChainBroken, e.seqNo));
  }

  lemma SignerMeaning(e: LogEntry, trusted: Option<map<Text, Text>>)
    ensures NoFatal(SignerFindings(e, trusted)) <==> TrustedSigner(e, trusted)
  {
    if trusted.Some? {
      if e.actor in trusted.value {
        NoFatalWhen(trusted.value[e.actor] != e.signerPublicKey, Finding(Fatal, SignerUntrusted, e.seqNo));
      } else {
        assert Finding(Fatal, SignerUnknown, e.seqNo) in SignerFindings(e, trusted);
      }
    }
  }

  lemma {:induction false} ChainFindingsMeaning(k: LogCrypto, entries: seq<LogEntry>, trusted: Option<map<Text, Text>>,
      n: nat)
    requires AllCommittable(entries) && n <= |entries|
    ensures NoFatal(ChainFindings(k, entries, trusted, n)) <==>
      forall i: nat | i < n :: CleanEntry(k, entries, i, trusted)
  {
    hide EntryFindings, CleanEntry, NoFatal, Committable, Before;
    if n == 0 {
      NothingFound();
    } else {
      ChainFindingsMeaning(k, entries, trusted, n - 1);
      EntryFindingsMeaning(k, entries, n - 1, trusted);
      NoFatalConcat(ChainFindings(k, entries, trusted, n - 1),
        EntryFindings(k, Before(entries, n - 1), n - 1, entries[n - 1], trusted));
    }
  }

  // ---------- tamper evidence ----------

  /** Two different commitment texts, one from each list, with the same entry hash. */
  ghost predicate EntryCollision(k: LogCrypto, a: seq<LogEntry>, b: seq<LogEntry>) {
    exists i, j :: CollidingEntries(k, a, b, i, j)
  }

  ghost predicate CollidingEntries(k: LogCrypto, a: seq<LogEntry>, b: seq<LogEntry>, i: int, j: int) {
    && 0 <= i < |a| && 0 <= j < |b| && Committable(a[i]) && Committable(b[j])
    && Commitment(a[i]) != Commitment(b[j])
    && k.entryDigest(Commitment(a[i])) == k.entryDigest(Commitment(b[j]))
  }

  /** Payloads are objects of the language: no key twice. */
  ghost predicate ProperPayloads(entries: seq<LogEntry>) {
    forall e | e in entries :: Proper(e.payload)
  }

  ghost predicate SameBodies(a: seq<LogEntry>, b: seq<LogEntry>)
  {
    |a| == |b| && forall i | 0 <= i < |a| :: Committable(a[i]) && Committable(b[i]) && SameBody(a[i], b[i])
  }

  lemma EqualHashes(k: LogCrypto, a: seq<LogEntry>, b: seq<LogEntry>, i: nat, j: nat)
    requires i < |a| && j < |b| && Committable(a[i]) && Committable(b[j])
    requires VerifyEntrySelf(k, a[i]) && VerifyEntrySelf(k, b[j])
    requires Proper(a[i].payload) && Proper(b[j].payload)
    requires FromHex(a[i].hash) == FromHex(b[j].hash)
    ensures SameBody(a[i], b[j]) || EntryCollision(k, a, b)
  {
    hide Committable, Commitment, EntrySignature, SameBody, Hex, FromHex, Proper;
    FromHexHex(k.entryDigest(Commitment(a[i])));
    FromHexHex(k.entryDigest(Commitment(b[j])));
    if Commitment(a[i]) == Commitment(b[j]) {
      CommitmentIsBinding(a[i], b[j]);
    } else {
      assert CollidingEntries(k, a, b, i, j);
    }
  }

  /** Two clean chains that agree on one hash agree on everything up to it. */
  lemma {:induction false} SamePast(k: LogCrypto, a: seq<LogEntry>, b: seq<LogEntry>, n: nat,
      s: Option<map<Text, Text>>, t: Option<map<Text, Text>>)
    requires CleanChain(k, a, s) && CleanChain(k, b, t) && ProperPayloads(a) && ProperPayloads(b)
    requires n < |a| && n < |b| && a[n].hash == b[n].hash
    ensures SameBodies(a[..n + 1], b[..n + 1]) || EntryCollision(k, a, b)
  {
    hide Committable, SameBody, EntryCollision, Proper, VerifyEntrySelf, TrustedSigner, Repeat, CleanChain, SameBodies;
    SamePredecessor(k, a, b, n, s, t);
    if !EntryCollision(k, a, b) {
      if n > 0 {
        SamePast(k, a, b, n - 1, s, t);
      } else {
        NothingBefore(a, b);
      }
      OneMoreBody(a, b, n);
    }
  }

  lemma NothingBefore(a: seq<LogEntry>, b: seq<LogEntry>)
    ensures SameBodies(a[..0], b[..0])
  {}

  lemma OneMoreBody(a: seq<LogEntry>, b: seq<LogEntry>, n: nat)
    requires n < |a| && n < |b| && SameBodies(a[..n], b[..n])
    requires Committable(a[n]) && Committable(b[n]) && SameBody(a[n], b[n])
    ensures SameBodies(a[..n + 1], b[..n + 1])
  {
    hide Committable, SameBody;
    forall i | 0 <= i <= n ensures Committable(a[i]) && Committable(b[i]) && SameBody(a[i], b[i]) {
      if i < n {
        assert a[..n][i] == a[i] && b[..n][i] == b[i];
      }
    }
  }

  /** Equal hashes at n mean equal bodies at n, and so equal hashes before it. */
  lemma SamePredecessor(k: LogCrypto, a: seq<LogEntry>, b: seq<LogEntry>, n: nat,
      s: Option<map<Text, Text>>, t: Option<map<Text, Text>>)
    requires CleanChain(k, a, s) && CleanChain(k, b, t) && ProperPayloads(a) && ProperPayloads(b)
    requires n < |a| && n < |b| && a[n].hash == b[n].hash
    ensures EntryCollision(k, a, b) || (Committable(a[n]) && Committable(b[n]) && SameBody(a[n], b[n]))
    ensures EntryCollision(k, a, b) || n == 0 || a[n - 1].hash == b[n - 1].hash
  {
    hide Committable, SameBody, EntryCollision, Proper, VerifyEntrySelf, TrustedSigner, Repeat;
    assert CleanEntry(k, a, n, s) && CleanEntry(k, b, n, t);
    EqualHashes(k, a, b, n, n);
    if !EntryCollision(k, a, b) {
      SameBodyFields(a[n], b[n]);
    }
  }

  /** Two histories that verify and end in the same hash are the same history. */
  lemma SameHeadSameHistory(k: LogCrypto, a: seq<LogEntry>, b: seq<LogEntry>,
      s: Option<map<Text, Text>>, t: Option<map<Text, Text>>)
    requires CleanChain(k, a, s) && CleanChain(k, b, t) && ProperPayloads(a) && ProperPayloads(b)
    requires a != [] && b != [] && a[|a| - 1].hash == b[|b| - 1].hash
    ensures SameBodies(a, b) || EntryCollision(k, a, b)
  {
    hide Committable, SameBody, EntryCollision, Proper, VerifyEntrySelf, TrustedSigner, Repeat;
    var i, j := |a| - 1, |b| - 1;
    assert CleanEntry(k, a, i, s) && CleanEntry(k, b, j, t);
    EqualHashes(k, a, b, i, j);
    if !EntryCollision(k, a, b) {
      SameBodyFields(a[i], b[j]);
      SamePast(k, a, b, i, s, t);
      assert a[..i + 1] == a && b[..j + 1] == b;
    }
  }

  // ---------- checkpoints ----------

  /** `slice(0, size)`: a negative size counts from the end. */
  function Covered<T>(s: seq<T>, size: int): seq<T>
    requires size <= |s|
  {
    if size >= 0 then s[..size] else if |s| + size >= 0 then s[..|s| + size] else []
  }

  function Tsas(anchors: seq<Anchor>): set<Text> {
    set a | a in anchors :: a.tsa
  }

  predicate UntrustedKey(cp: Checkpoint, trusted: Option<map<Text, Text>>) {
    trusted.Some? && trusted.value != map[] && cp.signerPublicKey !in trusted.value.Values
  }

  predicate RootMatches(k: LogCrypto, entries: seq<LogEntry>, cp: Checkpoint)
    requires cp.size <= |entries|
  {
    Hex(MerkleRoot(k.tree, Covered(Digests(entries), cp.size))) == cp.root
  }

  predicate HeadMatches(entries: seq<LogEntry>, cp: Checkpoint)
    requires cp.size <= |entries|
  {
    cp.size >= 1 ==> entries[cp.size - 1].hash == cp.headHash
  }

  function OneCheckpoint(k: LogCrypto, entries: seq<LogEntry>, cp: Checkpoint, opts: Options): seq<Finding>
  {
    if !CheckpointSignature(k, cp) then [Finding(Fatal, CheckpointInvalid, cp.size)]
    else if cp.size > |entries| then [Finding(Fatal, CheckpointOverrun, cp.size)]
    else
      When(!RootMatches(k, entries, cp), Finding(Fatal, CheckpointRootMismatch, cp.size))
      + When(!HeadMatches(entries, cp), Finding(Fatal, CheckpointHeadMismatch, cp.size))
      + When(UntrustedKey(cp, opts.trusted), Finding(Fatal, CheckpointSignerUntrusted, cp.size))
      + When(|Tsas(cp.anchors)| < opts.minAnchors, Finding(Fatal, CheckpointUnderAnchored, cp.size))
  }

  function EachCheckpoint(k: LogCrypto, entries: seq<LogEntry>, cps: seq<Checkpoint>, opts: Options,
      n: nat): seq<Finding>
    requires n <= |cps|
  {
    if n == 0 then [] else
    EachCheckpoint(k, entries, cps, opts, n - 1) + OneCheckpoint(k, entries, cps[n - 1], opts)
  }

  function Neighbours(prev: Checkpoint, cur: Checkpoint): seq<Finding> {
    When(prev.size == cur.size && prev.root != cur.root, Finding(Fatal, CheckpointFork, cur.size))
    + When(cur.ts < prev.ts, Finding(Warning, CheckpointTimeRegression, cur.size))
  }

  /** The findings of the first n neighbouring pairs. */
  function Consistency(sorted: seq<Checkpoint>, n: nat): seq<Finding>
    requires n == 0 || n < |sorted|
  {
    if n == 0 then [] else Consistency(sorted, n - 1) + Neighbours(sorted[n - 1], sorted[n])
  }

  function SizeOf(cp: Checkpoint): int {
    cp.size
  }

  function BySize(cps: seq<Checkpoint>): (r: seq<Checkpoint>)
    ensures |r| == |cps|
  {
    SortBy(SizeOf, cps)
  }

  predicate BodiesAccepted(cps: seq<Checkpoint>) {
    forall i | 0 <= i < |cps| :: Accepts(CheckpointBody(cps[i]))
  }

  function CheckpointFindings(k: LogCrypto, entries: seq<LogEntry>, cps: seq<Checkpoint>, opts: Options): seq<Finding> {
    EachCheckpoint(k, entries, cps, opts, |cps|) + Consistency(BySize(cps), if cps == [] then 0 else |cps| - 1)
  }

  /** The checkpoint is signed and states the root and the head of what it covers. */
  ghost predicate CleanCheckpoint(k: LogCrypto, entries: seq<LogEntry>, cp: Checkpoint, opts: Options) {
    && CheckpointSignature(k, cp) && cp.size <= |entries| && RootMatches(k, entries, cp) && HeadMatches(entries, cp)
    && !UntrustedKey(cp, opts.trusted) && |Tsas(cp.anchors)| >= opts.minAnchors
  }

  /** The checkpoint is signed, within the log, states the root of the covered hashes and the last of them, is
      by a trusted key if any is named, and has anchors from enough authorities. */
  ghost predicate GenuineCheckpoint(k: LogCrypto, entries: seq<LogEntry>, cp: Checkpoint, opts: Options) {
    && Accepts(CheckpointBody(cp))
    && k.verify(CheckpointDomain, Print(CheckpointBody(cp)), cp.signature, cp.signerPublicKey)
    && StatesPrefix(k, entries, cp)
    && (cp.size >= 1 ==> cp.headHash == entries[cp.size - 1].hash)
    && (opts.trusted.Some? && opts.trusted.value != map[] ==>
          exists actor :: actor in opts.trusted.value && opts.trusted.value[actor] == cp.signerPublicKey)
    && |set a | a in cp.anchors :: a.tsa| >= opts.minAnchors
  }

  ghost predicate StatesPrefix(k: LogCrypto, entries: seq<LogEntry>, cp: Checkpoint) {
    cp.size <= |entries|
    && var n := if cp.size >= 0 then cp.size else if |entries| + cp.size >= 0 then |entries| + cp.size else 0;
    cp.root == Hex(MerkleRoot(k.tree, seq(n, i requires 0 <= i < n => FromHex(entries[i].hash))))
  }

  lemma CleanCheckpointMeaning(k: LogCrypto, entries: seq<LogEntry>, cp: Checkpoint, opts: Options)
    ensures CleanCheckpoint(k, entries, cp, opts) <==> GenuineCheckpoint(k, entries, cp, opts)
  {
    hide Accepts, Print, CheckpointBody, Hex, FromHex, MerkleRoot;
    if cp.size <= |entries| {
      RootMatchesMeaning(k, entries, cp);
    }
    assert Tsas(cp.anchors) == set a | a in cp.anchors :: a.tsa;
  }

  lemma RootMatchesMeaning(k: LogCrypto, entries: seq<LogEntry>, cp: Checkpoint)
    requires cp.size <= |entries|
    ensures RootMatches(k, entries, cp) <==> StatesPrefix(k, entries, cp)
  {
    hide Hex, FromHex, MerkleRoot;
    var n := if cp.size >= 0 then cp.size else if |entries| + cp.size >= 0 then |entries| + cp.size else 0;
    assert Covered(Digests(entries), cp.size) == seq(n, i requires 0 <= i < n => FromHex(entries[i].hash));
  }

  /** Which findings a checkpoint gets by itself: a bad signature or an overrun alone, or else each of the four
      others exactly for its own reason. */
  lemma FindingsOfCheckpoint(k: LogCrypto, entries: seq<LogEntry>, cp: Checkpoint, opts: Options)
    ensures var fs := OneCheckpoint(k, entries, cp, opts);
      var signed := Accepts(CheckpointBody(cp))
        && k.verify(CheckpointDomain, Print(CheckpointBody(cp)), cp.signature, cp.signerPublicKey);
      var within := signed && cp.size <= |entries|;
      && (Finding(Fatal, CheckpointInvalid, cp.size) in fs <==> !signed)
      && (Finding(Fatal, CheckpointOverrun, cp.size) in fs <==> signed && cp.size > |entries|)
      && (Finding(Fatal, CheckpointRootMismatch, cp.size) in fs <==> within && !StatesPrefix(k, entries, cp))
      && (Finding(Fatal, CheckpointHeadMismatch, cp.size) in fs <==>
            within && cp.size >= 1 && cp.headHash != entries[cp.size - 1].hash)
      && (Finding(Fatal, CheckpointSignerUntrusted, cp.size) in fs <==>
            within && opts.trusted.Some? && opts.trusted.value != map[]
            && forall actor | actor in opts.trusted.value :: opts.trusted.value[actor] != cp.signerPublicKey)
      && (Finding(Fatal, CheckpointUnderAnchored, cp.size) in fs <==>
            within && |set a | a in cp.anchors :: a.tsa| < opts.minAnchors)
    ensures forall f | f in OneCheckpoint(k, entries, cp, opts) :: f.severity == Fatal && f.at == cp.size
  {
    hide Accepts, Print, CheckpointBody, RootMatches, StatesPrefix, When;
    if cp.size <= |entries| {
      RootMatchesMeaning(k, entries, cp);
    }
    WhenMembers();
    assert Tsas(cp.anchors) == set a | a in cp.anchors :: a.tsa;
  }

  /** Two neighbours get a fork exactly for equal sizes with different roots, and a warning exactly when the time
      goes back. */
  lemma FindingsOfNeighbours(prev: Checkpoint, cur: Checkpoint, f: Finding)
    ensures f in Neighbours(prev, cur) <==>
      || (prev.size == cur.size && prev.root != cur.root && f == Finding(Fatal, CheckpointFork, cur.size))
      || (cur.ts < prev.ts && f == Finding(Warning, CheckpointTimeRegression, cur.size))
  {
    hide When;
    WhenMembers();
  }

  lemma {:induction false} FindingsOfEach(k: LogCrypto, entries: seq<LogEntry>, cps: seq<Checkpoint>, opts: Options,
      n: nat,
      f: Finding)
    requires n <= |cps|
    ensures f in EachCheckpoint(k, entries, cps, opts, n) <==>
              exists i :: 0 <= i < n && f in OneCheckpoint(k, entries, cps[i], opts)
  {
    hide OneCheckpoint;
    if n > 0 {
      FindingsOfEach(k, entries, cps, opts, n - 1, f);
    }
  }

  lemma {:induction false} FindingsOfPairs(sorted: seq<Checkpoint>, n: nat, f: Finding)
    requires n == 0 || n < |sorted|
    ensures f in Consistency(sorted, n) <==> exists i: nat :: i < n && f in Neighbours(sorted[i], sorted[i + 1])
  {
    hide Neighbours;
    if n > 0 {
      FindingsOfPairs(sorted, n - 1, f);
      assert sorted[n - 1 + 1] == sorted[n];
      assert f in Neighbours(sorted[n - 1], sorted[n]) <==> f in Neighbours(sorted[n - 1], sorted[n - 1 + 1]);
    }
  }

  /** The findings about checkpoints are those of each and those of neighbours by size. */
  lemma FindingsOfCheckpoints(k: LogCrypto, entries: seq<LogEntry>, cps: seq<Checkpoint>, opts: Options, f: Finding)
    ensures f in CheckpointFindings(k, entries, cps, opts) <==>
      || (exists i :: 0 <= i < |cps| && f in OneCheckpoint(k, entries, cps[i], opts))
      || (exists i: nat :: i < |cps| - 1 && f in Neighbours(BySize(cps)[i], BySize(cps)[i + 1]))
  {
    hide OneCheckpoint, Neighbours, EachCheckpoint, Consistency, BySize;
    FindingsOfEach(k, entries, cps, opts, |cps|, f);
    FindingsOfPairs(BySize(cps), if cps == [] then 0 else |cps| - 1, f);
  }

  ghost predicate NoFork(cps: seq<Checkpoint>) {
    forall a, b | a in cps && b in cps && a.size == b.size :: a.root == b.root
  }

  method VerifyCheckpoints(k: LogCrypto, entries: seq<LogEntry>, cps: seq<Checkpoint>, opts: Options)
    returns (r: Option<seq<Finding>>)
    ensures r.Some? <==> BodiesAccepted(cps)
    ensures r.Some? ==> r.value == CheckpointFindings(k, entries, cps, opts)
    ensures r.Some? ==> (NoFatal(r.value) <==>
      (forall cp | cp in cps :: CleanCheckpoint(k, entries, cp, opts)) && NoFork(cps))
    ensures r.Some? ==> (NoFatal(r.value) <==>
      (forall cp | cp in cps :: GenuineCheckpoint(k, entries, cp, opts))
      && forall a, b | a in cps && b in cps && a.size == b.size :: a.root == b.root)
  {
    hide Accepts, CheckpointSignature, NoFatal, CleanCheckpoint, OneCheckpoint, Neighbours, BySize, NoFork,
      GenuineCheckpoint;
    var findings: seq<Finding> := [];
    var i := 0;
    while i < |cps|
      invariant 0 <= i <= |cps|
      invariant forall j | 0 <= j < i :: Accepts(CheckpointBody(cps[j]))
      invariant findings == EachCheckpoint(k, entries, cps, opts, i)
    {
      if !Accepts(CheckpointBody(cps[i])) {
        return None;
      }
      var found := VerifyCheckpoint(k, entries, cps[i], opts);
      findings := findings + found;
      i := i + 1;
    }
    ghost var each := findings;
    var sorted := BySize(cps);
    i := 1;
    while i < |sorted|
      invariant 1 <= i && (cps == [] || i <= |sorted|)
      invariant findings == each + Consistency(sorted, if cps == [] then 0 else i - 1)
    {
      var found := CompareNeighbours(sorted[i - 1], sorted[i]);
      findings := findings + found;
      i := i + 1;
    }
    CheckpointFindingsMeaning(k, entries, cps, opts);
    forall cp ensures CleanCheckpoint(k, entries, cp, opts) <==> GenuineCheckpoint(k, entries, cp, opts) {
      CleanCheckpointMeaning(k, entries, cp, opts);
    }
    assert NoFork(cps) <==> forall a, b | a in cps && b in cps && a.size == b.size :: a.root == b.root by {
      NoForkMeaning(cps);
    }
    r := Some(findings);
  }

  /** The body of the loop over the checkpoints. */
  method VerifyCheckpoint(k: LogCrypto, entries: seq<LogEntry>, cp: Checkpoint, opts: Options)
      returns (findings: seq<Finding>)
    ensures findings == OneCheckpoint(k, entries, cp, opts)
  {
    hide CheckpointSignature, RootMatches, HeadMatches, UntrustedKey, Tsas;
    if !CheckpointSignature(k, cp) {
      return [Finding(Fatal, CheckpointInvalid, cp.size)];
    }
    if cp.size > |entries| {
      return [Finding(Fatal, CheckpointOverrun, cp.size)];
    }
    findings := [];
    if !RootMatches(k, entries, cp) {
      findings := findings + [Finding(Fatal, CheckpointRootMismatch, cp.size)];
    }
    if !HeadMatches(entries, cp) {
      findings := findings + [Finding(Fatal, CheckpointHeadMismatch, cp.size)];
    }
    if UntrustedKey(cp, opts.trusted) {
      findings := findings + [Finding(Fatal, CheckpointSignerUntrusted, cp.size)];
    }
    if |Tsas(cp.anchors)| < opts.minAnchors {
      findings := findings + [Finding(Fatal, CheckpointUnderAnchored, cp.size)];
    }
  }

  method CompareNeighbours(prev: Checkpoint, cur: Checkpoint) returns (findings: seq<Finding>)
    ensures findings == Neighbours(prev, cur)
  {
    findings := [];
    if prev.size == cur.size && prev.root != cur.root {
      findings := findings + [Finding(Fatal, CheckpointFork, cur.size)];
    }
    if cur.ts < prev.ts {
      findings := findings + [Finding(Warning, CheckpointTimeRegression, cur.size)];
    }
  }

  lemma OneCheckpointMeaning(k: LogCrypto, entries: seq<LogEntry>, cp: Checkpoint, opts: Options)
    ensures NoFatal(OneCheckpoint(k, entries, cp, opts)) <==> CleanCheckpoint(k, entries, cp, opts)
  {
    hide CheckpointSignature, RootMatches, HeadMatches, UntrustedKey, Tsas, NoFatal, When;
    if !CheckpointSignature(k, cp) {
      FatalFound(CheckpointInvalid, cp.size);
    } else if cp.size > |entries| {
      FatalFound(CheckpointOverrun, cp.size);
    } else {
      var p := When(!RootMatches(k, entries, cp), Finding(Fatal, CheckpointRootMismatch, cp.size));
      var q := When(!HeadMatches(entries, cp), Finding(Fatal, CheckpointHeadMismatch, cp.size));
      var s := When(UntrustedKey(cp, opts.trusted), Finding(Fatal, CheckpointSignerUntrusted, cp.size));
      var t := When(|Tsas(cp.anchors)| < opts.minAnchors, Finding(Fatal, CheckpointUnderAnchored, cp.size));
      NoFatalWhen(!RootMatches(k, entries, cp), Finding(Fatal, CheckpointRootMismatch, cp.size));
      NoFatalWhen(!HeadMatches(entries, cp), Finding(Fatal, CheckpointHeadMismatch, cp.size));
      NoFatalWhen(UntrustedKey(cp, opts.trusted), Finding(Fatal, CheckpointSignerUntrusted, cp.size));
      NoFatalWhen(|Tsas(cp.anchors)| < opts.minAnchors, Finding(Fatal, CheckpointUnderAnchored, cp.size));
      NoFatalConcat(p, q);
      NoFatalConcat(p + q, s);
      NoFatalConcat(p + q + s, t);
    }
  }

  lemma FatalFound(code: Code, at: int)
    ensures !NoFatal([Finding(Fatal, code, at)])
  {
    assert Finding(Fatal, code, at) in [Finding(Fatal, code, at)];
  }

  lemma {:induction false} EachMeaning(k: LogCrypto, entries: seq<LogEntry>, cps: seq<Checkpoint>, opts: Options,
      n: nat)
    requires n <= |cps|
    ensures NoFatal(EachCheckpoint(k, entries, cps, opts, n)) <==>
      forall i | 0 <= i < n :: CleanCheckpoint(k, entries, cps[i], opts)
  {
    hide OneCheckpoint, CleanCheckpoint, NoFatal;
    if n == 0 {
      NothingFound();
    } else {
      EachMeaning(k, entries, cps, opts, n - 1);
      OneCheckpointMeaning(k, entries, cps[n - 1], opts);
      NoFatalConcat(EachCheckpoint(k, entries, cps, opts, n - 1), OneCheckpoint(k, entries, cps[n - 1], opts));
    }
  }

  predicate Forked(a: Checkpoint, b: Checkpoint) {
    a.size == b.size && a.root != b.root
  }

  lemma NeighboursMeaning(prev: Checkpoint, cur: Checkpoint)
    ensures NoFatal(Neighbours(prev, cur)) <==> !Forked(prev, cur)
  {
    hide NoFatal, When;
    var fork, late := Finding(Fatal, CheckpointFork, cur.size), Finding(Warning, CheckpointTimeRegression, cur.size);
    NoFatalWhen(prev.size == cur.size && prev.root != cur.root, fork);
    NoFatalWhen(cur.ts < prev.ts, late);
    NoFatalConcat(When(prev.size == cur.size && prev.root != cur.root, fork), When(cur.ts < prev.ts, late));
  }

  lemma {:induction false} ConsistencyMeaning(sorted: seq<Checkpoint>, n: nat)
    requires n == 0 || n < |sorted|
    ensures NoFatal(Consistency(sorted, n)) <==> forall i | 0 <= i < n :: !Forked(sorted[i], sorted[i + 1])
  {
    hide NoFatal, Neighbours, Forked;
    if n == 0 {
      NothingFound();
    } else {
      ConsistencyMeaning(sorted, n - 1);
      NeighboursMeaning(sorted[n - 1], sorted[n]);
      NoFatalConcat(Consistency(sorted, n - 1), Neighbours(sorted[n - 1], sorted[n]));
      assert !Forked(sorted[n - 1], sorted[n - 1 + 1]) <==> !Forked(sorted[n - 1], sorted[n]);
    }
  }

  lemma {:induction false} NeighboursSuffice(sorted: seq<Checkpoint>, i: nat, j: nat)
    requires SortedBy(SizeOf, sorted) && i <= j < |sorted| && sorted[i].size == sorted[j].size
    requires forall l | 0 <= l < |sorted| - 1 :: !Forked(sorted[l], sorted[l + 1])
    ensures sorted[i].root == sorted[j].root
    decreases j - i
  {
    if i < j {
      assert SizeOf(sorted[i]) <= SizeOf(sorted[j - 1]) <= SizeOf(sorted[j]);
      NeighboursSuffice(sorted, i, j - 1);
      assert !Forked(sorted[j - 1], sorted[j - 1 + 1]);
    }
  }

  lemma SameMembers(cps: seq<Checkpoint>)
    ensures SortedBy(SizeOf, BySize(cps))
    ensures forall cp :: cp in cps <==> cp in BySize(cps)
  {
    SortByMeaning(SizeOf, cps);
    forall cp ensures cp in cps <==> cp in BySize(cps) {
      assert cp in cps <==> cp in multiset(cps);
      assert cp in BySize(cps) <==> cp in multiset(BySize(cps));
    }
  }

  lemma SameSizeSameRoot(sorted: seq<Checkpoint>, a: Checkpoint, b: Checkpoint)
    requires SortedBy(SizeOf, sorted) && a in sorted && b in sorted && a.size == b.size
    requires forall l | 0 <= l < |sorted| - 1 :: !Forked(sorted[l], sorted[l + 1])
    ensures a.root == b.root
  {
    hide Forked, SortedBy;
    var i :| 0 <= i < |sorted| && sorted[i] == a;
    var j :| 0 <= j < |sorted| && sorted[j] == b;
    if i <= j {
      NeighboursSuffice(sorted, i, j);
    } else {
      NeighboursSuffice(sorted, j, i);
    }
  }

  ghost predicate NoForkedNeighbours(sorted: seq<Checkpoint>) {
    forall i | 0 <= i < |sorted| - 1 :: !Forked(sorted[i], sorted[i + 1])
  }

  lemma NeighboursDecide(cps: seq<Checkpoint>, sorted: seq<Checkpoint>)
    requires SortedBy(SizeOf, sorted) && forall cp :: cp in cps <==> cp in sorted
    ensures NoForkedNeighbours(sorted) <==> NoFork(cps)
  {
    hide SortedBy;
    if NoForkedNeighbours(sorted) {
      forall a, b | a in cps && b in cps && a.size == b.size ensures a.root == b.root {
        SameSizeSameRoot(sorted, a, b);
      }
    } else {
      var i :| 0 <= i < |sorted| - 1 && Forked(sorted[i], sorted[i + 1]);
      assert sorted[i] in cps && sorted[i + 1] in cps;
    }
  }

  /** Comparing neighbours finds every fork. */
  lemma ForksAreFound(cps: seq<Checkpoint>)
    requires cps != []
    ensures NoFatal(Consistency(BySize(cps), |cps| - 1)) <==> NoFork(cps)
  {
    hide NoFatal, Consistency, BySize, SortedBy, NoFork, Forked;
    SameMembers(cps);
    ConsistencyMeaning(BySize(cps), |cps| - 1);
    NeighboursDecide(cps, BySize(cps));
  }

  lemma CheckpointFindingsMeaning(k: LogCrypto, entries: seq<LogEntry>, cps: seq<Checkpoint>, opts: Options)
    ensures NoFatal(CheckpointFindings(k, entries, cps, opts)) <==>
            (forall cp | cp in cps :: CleanCheckpoint(k, entries, cp, opts)) && NoFork(cps)
  {
    hide NoFatal, EachCheckpoint, Consistency, CleanCheckpoint, BySize, NoFork;
    EachMeaning(k, entries, cps, opts, |cps|);
    NoFatalConcat(EachCheckpoint(k, entries, cps, opts, |cps|),
      Consistency(BySize(cps), if cps == [] then 0 else |cps| - 1));
    if cps == [] {
      NothingFound();
      assert NoFork(cps) && Consistency(BySize(cps), 0) == [] by { NoCheckpoints(cps); }
    } else {
      ForksAreFound(cps);
    }
    assert (forall cp | cp in cps :: CleanCheckpoint(k, entries, cp, opts))
      <==> (forall i | 0 <= i < |cps| :: CleanCheckpoint(k, entries, cps[i], opts));
  }

  lemma NoForkMeaning(cps: seq<Checkpoint>)
    ensures NoFork(cps) <==> forall a, b | a in cps && b in cps && a.size == b.size :: a.root == b.root
  {}

  lemma NoCheckpoints(cps: seq<Checkpoint>)
    requires cps == []
    ensures NoFork(cps) && Consistency(BySize(cps), 0) == []
  {}

  lemma CoveredIsPrefix(entries: seq<LogEntry>, size: int)
    requires size <= |entries|
    ensures Covered(entries, size) <= entries
    ensures Covered(Digests(entries), size) == Digests(Covered(entries, size))
  {
    hide FromHex;
  }

  /** Two published logs that verify and carry checkpoints with the same root agree on what those
      checkpoints cover, or a collision of one of the two hashes is exhibited. */
  lemma SameRootSamePrefix(k: LogCrypto, a: seq<LogEntry>, b: seq<LogEntry>, p: Checkpoint, q: Checkpoint,
      s: Options, t: Options)
    requires ValidCrypto(k) && p.root == q.root
    requires CleanChain(k, a, s.trusted) && CleanCheckpoint(k, a, p, s) && ProperPayloads(a)
    requires CleanChain(k, b, t.trusted) && CleanCheckpoint(k, b, q, t) && ProperPayloads(b)
    ensures
      || SameBodies(Covered(a, p.size), Covered(b, q.size))
      || EntryCollision(k, a, b)
      || Collision(k.tree, Inputs(k.tree, Digests(Covered(a, p.size))), Inputs(k.tree, Digests(Covered(b, q.size))))
  {
    hide Committable, VerifyEntrySelf, TrustedSigner, Repeat, MerkleRoot, Inputs, Collision, SameBody, EntryCollision,
      CheckpointSignature, UntrustedKey, Tsas, HeadMatches, Hex, FromHex, Covered, Proper;
    CoveredIsPrefix(a, p.size);
    CoveredIsPrefix(b, q.size);
    var x, y := Covered(a, p.size), Covered(b, q.size);
    HexInjective(MerkleRoot(k.tree, Digests(x)), MerkleRoot(k.tree, Digests(y)));
    RootIsBinding(k.tree, Digests(x), Digests(y));
    if Digests(x) == Digests(y) && !EntryCollision(k, a, b) {
      forall i: nat | i < |x| ensures Committable(x[i]) && Committable(y[i]) && SameBody(x[i], y[i]) {
        assert x[i] == a[i] && y[i] == b[i];
        assert Digests(x)[i] == FromHex(a[i].hash) && Digests(y)[i] == FromHex(b[i].hash);
        assert CleanEntry(k, a, i, s.trusted) && CleanEntry(k, b, i, t.trusted);
        EqualHashes(k, a, b, i, i);
      }
    }
  }

  // ---------- evidence ----------

  /** `trustedSigners` defaults to the keys that the bundle itself names. */
  function Effective(bundle: Bundle, opts: Options): Options {
    if opts.trusted.None? then opts.(trusted := Some(AsMap(bundle.signers))) else opts
  }

  ghost predicate CleanBundle(k: LogCrypto, bundle: Bundle, opts: Options) {
    var eff := Effective(bundle, opts);
    && bundle.version == 1
    && CleanChain(k, bundle.entries, eff.trusted)
    && (forall cp | cp in bundle.checkpoints :: CleanCheckpoint(k, bundle.entries, cp, eff))
    && NoFork(bundle.checkpoints)
  }

  /** Everything that an ok verdict promises, in terms of hashes and signatures.  The keys of the bundle are
      trusted when the auditor names none. */
  ghost predicate GenuineBundle(k: LogCrypto, bundle: Bundle, opts: Options) {
    var trusted := if opts.trusted.None? then Some(AsMap(bundle.signers)) else opts.trusted;
    var entries := bundle.entries;
    && bundle.version == 1
    && (forall i: nat | i < |entries| ::
          InPlace(entries, i) && Genuine(k, entries[i]) && TrustedSigner(entries[i], trusted))
    && (forall cp | cp in bundle.checkpoints :: GenuineCheckpoint(k, entries, cp, Options(trusted, opts.minAnchors)))
    && forall a, b | a in bundle.checkpoints && b in bundle.checkpoints && a.size == b.size :: a.root == b.root
  }

  lemma CleanBundleMeaning(k: LogCrypto, bundle: Bundle, opts: Options)
    ensures CleanBundle(k, bundle, opts) <==> GenuineBundle(k, bundle, opts)
  {
    hide CleanChain, CleanCheckpoint, GenuineCheckpoint, Genuine, InPlace, TrustedSigner, AsMap;
    var eff := Effective(bundle, opts);
    CleanChainMeaning(k, bundle.entries, eff.trusted);
    forall cp ensures CleanCheckpoint(k, bundle.entries, cp, eff) <==> GenuineCheckpoint(k, bundle.entries, cp, eff) {
      CleanCheckpointMeaning(k, bundle.entries, cp, eff);
    }
  }

  /** Verification runs to its end: no body without canonical text, no time that a message cannot show. */
  predicate Verifiable(bundle: Bundle) {
    AllCommittable(bundle.entries) && RegressionsShow(bundle.entries) && BodiesAccepted(bundle.checkpoints)
  }

  function VersionFindings(bundle: Bundle): seq<Finding> {
    When(bundle.version != 1, Finding(Fatal, EvidenceVersion, 0))
  }

  /** The report without anchor backends: the verdict and the findings, or an exception. */
  ghost function Report(k: LogCrypto, bundle: Bundle, opts: Options): Option<(bool, seq<Finding>)> {
    if !Verifiable(bundle) then None
    else
      var eff := Effective(bundle, opts);
      var findings := VersionFindings(bundle) + ChainFindings(k, bundle.entries, eff.trusted, |bundle.entries|)
                      + CheckpointFindings(k, bundle.entries, bundle.checkpoints, eff);
      Some((NoFatal(findings), findings))
  }

  /** The verdict is ok exactly for a clean bundle. */
  lemma ReportMeaning(k: LogCrypto, bundle: Bundle, opts: Options)
    requires Verifiable(bundle)
    ensures Report(k, bundle, opts).Some? && (Report(k, bundle, opts).value.0 <==> CleanBundle(k, bundle, opts))
  {
    hide RegressionsShow, BodiesAccepted, CleanEntry, CleanCheckpoint, NoFork, NoFatal, ChainFindings,
      CheckpointFindings, Committable, When;
    var eff := Effective(bundle, opts);
    var version, chain := VersionFindings(bundle), ChainFindings(k, bundle.entries, eff.trusted, |bundle.entries|);
    NoFatalWhen(bundle.version != 1, Finding(Fatal, EvidenceVersion, 0));
    ChainFindingsMeaning(k, bundle.entries, eff.trusted, |bundle.entries|);
    CheckpointFindingsMeaning(k, bundle.entries, bundle.checkpoints, eff);
    NoFatalConcat(version, chain);
    NoFatalConcat(version + chain, CheckpointFindings(k, bundle.entries, bundle.checkpoints, eff));
  }

  /** Verification without anchor backends; `None` is an exception. */
  method VerifyEvidence(k: LogCrypto, bundle: Bundle, opts: Options) returns (r: Option<(bool, seq<Finding>)>)
    ensures r == Report(k, bundle, opts)
    ensures r.Some? <==> Verifiable(bundle)
    ensures r.Some? ==> (r.value.0 <==> CleanBundle(k, bundle, opts))
    ensures r.Some? ==> (r.value.0 <==> GenuineBundle(k, bundle, opts))
  {
    hide AllCommittable, RegressionsShow, BodiesAccepted, CleanBundle, GenuineBundle, CleanChain, CleanCheckpoint,
      NoFork, NoFatal, ChainFindings, CheckpointFindings;
    var findings := [];
    if bundle.version != 1 {
      findings := findings + [Finding(Fatal, EvidenceVersion, 0)];
    }
    assert findings == VersionFindings(bundle);
    var eff := Effective(bundle, opts);
    var chain := VerifyChain(k, bundle.entries, eff.trusted);
    if chain.None? {
      return None;
    }
    findings := findings + chain.value;
    var cps := VerifyCheckpoints(k, bundle.entries, bundle.checkpoints, eff);
    if cps.None? {
      return None;
    }
    findings := findings + cps.value;
    var ok := AllWarnings(findings);
    ReportMeaning(k, bundle, opts);
    CleanBundleMeaning(k, bundle, opts);
    return Some((ok, findings));
  }

  method AllWarnings(findings: seq<Finding>) returns (ok: bool)
    ensures ok <==> NoFatal(findings)
  {
    for i := 0 to |findings|
      invariant forall j | 0 <= j < i :: findings[j].severity != Fatal
    {
      if findings[i].severity == Fatal {
        assert findings[i] in findings;
        return false;
      }
    }
    ok := true;
  }

  /** A clean bundle has a report exactly when its regressions can be shown. */
  lemma CleanBundleIsVerifiable(k: LogCrypto, bundle: Bundle, opts: Options)
    requires CleanBundle(k, bundle, opts)
    ensures Verifiable(bundle) <==> RegressionsShow(bundle.entries)
  {
    hide VerifyEntrySelf, Committable, RootMatches, HeadMatches, UntrustedKey, Tsas, Repeat, RegressionsShow;
    var eff := Effective(bundle, opts);
    forall i: nat | i < |bundle.entries| ensures Committable(bundle.entries[i]) {
      assert CleanEntry(k, bundle.entries, i, eff.trusted);
    }
    forall i | 0 <= i < |bundle.checkpoints| ensures Accepts(CheckpointBody(bundle.checkpoints[i])) {
      assert CleanCheckpoint(k, bundle.entries, bundle.checkpoints[i], eff);
    }
  }
}
