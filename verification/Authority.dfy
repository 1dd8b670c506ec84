/**
 The examination authority: provisioning, scheduling, distribution and threshold release.

 Methods run one at a time and to completion.  `signed` and `history` are history variables: every
 schedule the authority ever signed, and every release it ever performed.
 */
module Authority {
  import opened Wrappers
  import opened IdealCrypto
  import opened Dates

  datatype ScheduleBody = ScheduleBody(examId: Id, bundleId: Id, releaseAt: int)

  /** A stored schedule; `signature` is the body that its signature was made over, if any. */
  datatype ScheduleRow = ScheduleRow(examId: Id, bundleId: Id, releaseAt: int, signature: Option<ScheduleBody>)

  datatype Bundle = Bundle(
    examId: Id, kind: Kind, bundleHash: Envelope, fingerprint: Key, threshold: nat, shareCount: nat,
    ciphertext: Envelope)

  datatype Submitted = Submitted(custodianId: Id, share: Share)

  /** `pick` is the exam of the schedule row that the database returns, `distributed` the centres that
      received the bundle, `asserted` whether the caller overrides the clock. */
  datatype Request = Request(
    bundleId: Id, shares: seq<Submitted>, centreIds: Option<seq<Id>>, now: int, asserted: bool,
    pick: Id, distributed: seq<Id>, overBudget: bool)

  datatype Event =
    | CentreEnrolled(centreId: Id)
    | BundleCreated(bundleId: Id, bundleHash: Envelope, fingerprint: Key, threshold: nat, shareCount: nat)
    | SharesIssued(bundleId: Id, threshold: nat, holders: seq<Id>)
    | BundleDistributed(bundleId: Id, centreId: Id, bundleHash: Envelope)
    | ReleaseScheduled(bundleId: Id, examId: Id, releaseAt: int)
    | EarlyReleaseAttempt(bundleId: Id, releaseAt: int, attemptedAt: int, custodianIds: seq<Id>)
    | CustodianApproved(bundleId: Id, custodianId: Id)
    | KekReleased(
        bundleId: Id, fingerprint: Key, threshold: nat, custodianIds: seq<Id>, centreIds: seq<Id>, scheduledAt: int,
        releasedAt: int)
    | ExamClosed(examId: Id, centreId: Id)

  datatype ReleaseRow = ReleaseRow(releasedAt: int, wrapped: Box)

  /** One performed release: its key, its time, whether that was asserted, what was submitted, and which
      schedules were signed and which custodians enrolled when it happened. */
  datatype Release = Release(
    bundleId: Id, key: Key, now: int, asserted: bool, shares: seq<Submitted>, signed: set<ScheduleBody>,
    enrolled: set<Id>)

  datatype AuthorityError =
    | ThresholdTooSmall | TooFewCustodians | CustodianNotEnrolled | TooManyShares | BundleExists | ShareExists
    | UnknownBundle | CentreNotEnrolled
    | NoSchedule | ScheduleTampered | TooEarly | InsufficientShares | ShareInvalid | NoRecipients
    | ReconstructionFailed | FingerprintMismatch | BudgetExceeded | NotADate

  datatype State = State(
    centres: map<Id, nat>,
    custodians: set<Id>,
    bundles: map<Id, Bundle>,
    shares: map<(Id, Id), nat>,
    schedules: map<(Id, Id), ScheduleRow>,
    distributions: set<(Id, Id)>,
    releases: map<(Id, Id), ReleaseRow>,
    log: seq<Event>,
    nextKey: nat,
    signed: set<ScheduleBody>,
    history: seq<Release>)

  datatype Step =
    | EnrolCentre(centreId: Id, publicKey: nat)
    | EnrolCustodian(custodianId: Id)
    | Provision(examId: Id, custodians: seq<Id>, threshold: int, paper: nat, answers: nat)
    | ScheduleRelease(examId: Id, bundleId: Id, releaseAt: int)
    | Distribute(bundleId: Id, centreId: Id)
    | PerformRelease(request: Request)
    | CloseExam(examId: Id, centreId: Id)

  // ---------- enrolment and provisioning ----------

  function DoEnrolCentre(s: State, centreId: Id, publicKey: nat): State {
    s.(centres := s.centres[centreId := publicKey], log := s.log + [CentreEnrolled(centreId)])
  }

  function ProvisionError(s: State, custodians: seq<Id>, threshold: int): Option<AuthorityError> {
    if threshold < 2 then Some(ThresholdTooSmall)
    else if |custodians| < threshold then Some(TooFewCustodians)
    else if exists i :: 0 <= i < |custodians| && custodians[i] !in s.custodians then Some(CustodianNotEnrolled)
    else None
  }

  /** Inserts share i + 1 for custodian i, up to the first custodian that already has one. */
  function PutShares(shares: map<(Id, Id), nat>, b: Id, custodians: seq<Id>, i: nat): (map<(Id, Id), nat>, bool)
    requires i <= |custodians|
    decreases |custodians| - i
  {
    if i == |custodians| then (shares, true)
    else if (b, custodians[i]) in shares then (shares, false)
    else PutShares(shares[(b, custodians[i]) := i + 1], b, custodians, i + 1)
  }

  function NewBundle(key: Key, examId: Id, kind: Kind, content: nat, threshold: nat, n: nat): Bundle {
    var e := Encrypted(key, AssociatedData(BundleId(examId, kind), kind, examId), content);
    Bundle(examId, kind, e, key, threshold, n, e)
  }

  /** Generate a key, encrypt, split and destroy the key, store the bundle and its shares.  Each failure
      leaves what was stored before it. */
  function DoBuildBundle(s: State, examId: Id, kind: Kind, content: nat, custodians: seq<Id>, threshold: nat)
    : (State, Option<AuthorityError>)
  {
    var id, key := BundleId(examId, kind), Kek(s.nextKey);
    var t := s.(nextKey := s.nextKey + 1);
    if |custodians| > 255 then (t, Some(TooManyShares))
    else if id in s.bundles then (t, Some(BundleExists))
    else
      var b := NewBundle(key, examId, kind, content, threshold, |custodians|);
      var put := PutShares(s.shares, id, custodians, 0);
      var u := t.(
        bundles := t.bundles[id := b], shares := put.0,
        log := t.log + [BundleCreated(id, b.bundleHash, key, threshold, |custodians|)]);
      if !put.1 then (u, Some(ShareExists))
      else (u.(log := u.log + [SharesIssued(id, threshold, custodians)]), None)
  }

  function DoProvision(s: State, examId: Id, custodians: seq<Id>, threshold: int, paper: nat, answers: nat)
    : (State, Option<AuthorityError>)
  {
    var e := ProvisionError(s, custodians, threshold);
    if e.Some? then (s, e)
    else
      var first := DoBuildBundle(s, examId, PaperKind, paper, custodians, threshold);
      if first.1.Some? then first
      else DoBuildBundle(first.0, examId, AnswersKind, answers, custodians, threshold)
  }

  /** The rows only grow, by the share numbers of the holders in order. */
  lemma {:induction false} PutSharesRows(shares: map<(Id, Id), nat>, b: Id, ids: seq<Id>, i: nat)
    requires i <= |ids|
    ensures var r := PutShares(shares, b, ids, i);
      && (r.1 ==> forall j | i <= j < |ids| :: (b, ids[j]) in r.0 && r.0[(b, ids[j])] == j + 1)
      && (forall k | k in shares :: k in r.0 && r.0[k] == shares[k])
      && forall k | k in r.0 && k !in shares :: k.0 == b && k.1 in ids
    decreases |ids| - i
  {
    if i < |ids| && (b, ids[i]) !in shares {
      PutSharesRows(shares[(b, ids[i]) := i + 1], b, ids, i + 1);
    }
  }

  // ---------- scheduling and distribution ----------

  /** The signature exists even when storing the row then fails. */
  function DoScheduleRelease(s: State, examId: Id, bundleId: Id, releaseAt: int): (State, Option<AuthorityError>) {
    var body := ScheduleBody(examId, bundleId, releaseAt);
    var t := s.(signed := s.signed + {body});
    if bundleId !in s.bundles then (t, Some(UnknownBundle))
    else (t.(
      schedules := t.schedules[(examId, bundleId) := ScheduleRow(examId, bundleId, releaseAt, Some(body))],
      log := t.log + [ReleaseScheduled(bundleId, examId, releaseAt)]), None)
  }

  function DoDistribute(s: State, bundleId: Id, centreId: Id): (State, Option<AuthorityError>) {
    if bundleId !in s.bundles then (s, Some(UnknownBundle))
    else if centreId !in s.centres then (s, Some(CentreNotEnrolled))
    else (s.(
      distributions := s.distributions + {(bundleId, centreId)},
      log := s.log + [BundleDistributed(bundleId, centreId, s.bundles[bundleId].bundleHash)]), None)
  }

  // ---------- release ----------

  predicate Verifies(row: ScheduleRow) {
    row.signature == Some(ScheduleBody(row.examId, row.bundleId, row.releaseAt))
  }

  function Custodians(shares: seq<Submitted>): (ids: seq<Id>)
    ensures |ids| == |shares|
  {
    seq(|shares|, i requires 0 <= i < |shares| => shares[i].custodianId)
  }

  function Blobs(shares: seq<Submitted>): (b: seq<Share>)
    ensures |b| == |shares|
  {
    seq(|shares|, i requires 0 <= i < |shares| => shares[i].share)
  }

  /** No custodian twice, every one enrolled. */
  predicate GoodCustodians(enrolled: set<Id>, shares: seq<Submitted>) {
    && (forall i, j | 0 <= i < j < |shares| :: shares[i].custodianId != shares[j].custodianId)
    && forall i | 0 <= i < |shares| :: shares[i].custodianId in enrolled
  }

  function Recipients(req: Request): seq<Id> {
    if req.centreIds.Some? then req.centreIds.value else req.distributed
  }

  predicate GoodRecipients(s: State, ids: seq<Id>) {
    ids != [] && forall i | 0 <= i < |ids| :: ids[i] in s.centres
  }

  /** The checks before any approval is logged. */
  function Refusal(s: State, req: Request): Option<AuthorityError> {
    if req.bundleId !in s.bundles then Some(UnknownBundle)
    else if (req.pick, req.bundleId) !in s.schedules then Some(NoSchedule)
    else
      var row := s.schedules[(req.pick, req.bundleId)];
      if !Verifies(row) then Some(ScheduleTampered)
      else if req.now < row.releaseAt then Some(TooEarly)
      else if |req.shares| < s.bundles[req.bundleId].threshold then Some(InsufficientShares)
      else if !GoodCustodians(s.custodians, req.shares) then Some(ShareInvalid)
      else if !GoodRecipients(s, Recipients(req)) then Some(NoRecipients)
      else None
  }

  function Approvals(bundleId: Id, shares: seq<Submitted>): (es: seq<Event>)
    ensures |es| == |shares|
  {
    seq(|shares|, i requires 0 <= i < |shares| => CustodianApproved(bundleId, shares[i].custodianId))
  }

  function Reconstruction(s: State, req: Request): Option<AuthorityError>
    requires Refusal(s, req).None?
  {
    var key := Combine(Blobs(req.shares));
    if key.None? then Some(ReconstructionFailed)
    else if key.value != s.bundles[req.bundleId].fingerprint then Some(FingerprintMismatch)
    else if req.overBudget then Some(BudgetExceeded)
    else None
  }

  /** The key sealed to each recipient in order. */
  function Wrap(centres: map<Id, nat>, ids: seq<Id>, key: Key): (es: seq<MediumEntry>)
    requires forall i | 0 <= i < |ids| :: ids[i] in centres
    ensures |es| == |ids|
  {
    seq(|ids|, i requires 0 <= i < |ids| => MediumEntry(ids[i], Box(centres[ids[i]], key)))
  }

  function RecordAll(rows: map<(Id, Id), ReleaseRow>, b: Id, wrapped: seq<MediumEntry>,
      at: int): map<(Id, Id), ReleaseRow> {
    if wrapped == [] then rows
    else
      var last := wrapped[|wrapped| - 1];
      RecordAll(rows, b, wrapped[..|wrapped| - 1], at)[(b, last.centreId) := ReleaseRow(at, last.box)]
  }

  /** For each centre the last entry wins, and the rows of other centres and bundles stay. */
  ghost predicate LastEntryWins(before: map<(Id, Id), ReleaseRow>, after: map<(Id, Id), ReleaseRow>, b: Id,
      wrapped: seq<MediumEntry>, at: int)
  {
    && (forall k :: k in after <==> k in before || (k.0 == b && Names(wrapped, k.1)))
    && (forall k | k in before && !(k.0 == b && Names(wrapped, k.1)) :: after[k] == before[k])
    && forall i | 0 <= i < |wrapped| && !Names(wrapped[i + 1..], wrapped[i].centreId) ::
         (b, wrapped[i].centreId) in after && after[(b, wrapped[i].centreId)] == ReleaseRow(at, wrapped[i].box)
  }

  predicate Names(wrapped: seq<MediumEntry>, centreId: Id) {
    exists i :: 0 <= i < |wrapped| && wrapped[i].centreId == centreId
  }

  /** What is kept of a release. */
  function RecordOf(s: State, req: Request): Release
    requires req.bundleId in s.bundles
  {
    Release(req.bundleId, s.bundles[req.bundleId].fingerprint, req.now, req.asserted, req.shares, s.signed,
      s.custodians)
  }

  function ReleaseEvent(s: State, req: Request): Event
    requires Refusal(s, req).None?
  {
    var b := s.bundles[req.bundleId];
    KekReleased(req.bundleId, b.fingerprint, b.threshold, Custodians(req.shares), Recipients(req),
      s.schedules[(req.pick, req.bundleId)].releaseAt, req.now)
  }

  function Released(s: State, req: Request): State
    requires Refusal(s, req).None?
  {
    var b := s.bundles[req.bundleId];
    var ids := Recipients(req);
    s.(
      releases := RecordAll(s.releases, req.bundleId, Wrap(s.centres, ids, b.fingerprint), req.now),
      log := s.log + Approvals(req.bundleId, req.shares) + [ReleaseEvent(s, req)],
      history := s.history + [RecordOf(s, req)])
  }

  /** The message of the refusal shows the scheduled time as a date. */
  function EarlyError(releaseAt: int): AuthorityError {
    if IsDate(releaseAt) then TooEarly else NotADate
  }

  function DoPerformRelease(s: State, req: Request): (State, Option<AuthorityError>) {
    var refusal := Refusal(s, req);
    if refusal == Some(TooEarly) then
      var at := s.schedules[(req.pick, req.bundleId)].releaseAt;
      (s.(log := s.log + [EarlyReleaseAttempt(req.bundleId, at, req.now, Custodians(req.shares))]),
        Some(EarlyError(at)))
    else if refusal.Some? then (s, refusal)
    else
      var failure := Reconstruction(s, req);
      if failure.Some? then (s.(log := s.log + Approvals(req.bundleId, req.shares)), failure)
      else (Released(s, req), None)
  }

  /** The wrapped keys of a release, as they go to the centres or onto an offline medium. */
  function Outcome(s: State, req: Request): seq<MediumEntry>
    requires Refusal(s, req).None?
  {
    Wrap(s.centres, Recipients(req), s.bundles[req.bundleId].fingerprint)
  }

  function Apply(s: State, step: Step): State {
    match step
    case EnrolCentre(c, k) => DoEnrolCentre(s, c, k)
    case EnrolCustodian(c) => s.(custodians := s.custodians + {c})
    case Provision(e, cs, t, p, a) => DoProvision(s, e, cs, t, p, a).0
    case ScheduleRelease(e, b, at) => DoScheduleRelease(s, e, b, at).0
    case Distribute(b, c) => DoDistribute(s, b, c).0
    case PerformRelease(req) => DoPerformRelease(s, req).0
    case CloseExam(e, c) => s.(log := s.log + [ExamClosed(e, c)])
  }

  const EMPTY := State(map[], {}, map[], map[], map[], {}, map[], [], 0, {}, [])

  // ---------- what every run keeps ----------

  /** A bundle is encrypted under its own authority key, bound to its identity. */
  ghost predicate GoodBundle(s: State, id: Id) {
    id in s.bundles &&
    var b := s.bundles[id];
    && b.fingerprint.Kek? && b.fingerprint.n < s.nextKey && b.threshold >= 2
    && b.ciphertext == b.bundleHash && b.ciphertext.Encrypted? && b.ciphertext.key == b.fingerprint
    && b.ciphertext.ad == AssociatedData(id, b.kind, b.examId)
  }

  ghost predicate GoodBundles(s: State) {
    && (forall id | id in s.bundles :: GoodBundle(s, id))
    && forall a, b | a in s.bundles && b in s.bundles && s.bundles[a].fingerprint == s.bundles[b].fingerprint :: a == b
  }

  /** Nobody can make a signature of the authority. */
  ghost predicate Unforged(s: State, row: ScheduleRow) {
    row.signature.Some? ==> row.signature.value in s.signed
  }

  ghost predicate GoodSchedules(s: State) {
    forall k | k in s.schedules :: s.schedules[k].bundleId == k.1 && Unforged(s, s.schedules[k])
  }

  /** A genuine share is one that the split of some stored bundle made. */
  ghost predicate IsIssued(s: State, share: Share) {
    share.Share? && share.genuine ==>
      exists id :: id in s.bundles && s.bundles[id].fingerprint == Kek(share.splitId)
        && share.threshold == s.bundles[id].threshold
  }

  /** Custodians submit only shares that were issued, or forgeries. */
  ghost predicate Enabled(s: State, step: Step) {
    match step
    case PerformRelease(req) =>
      && (forall i | 0 <= i < |req.shares| :: IsIssued(s, req.shares[i].share))
      && ((exists e :: (e, req.bundleId) in s.schedules) ==> (req.pick, req.bundleId) in s.schedules)
      && forall c :: c in req.distributed <==> (req.bundleId, c) in s.distributions
    case _ => true
  }

  /** Some releaseAt that the authority has signed for the bundle has passed. */
  ghost predicate Due(signed: set<ScheduleBody>, bundleId: Id, now: int) {
    exists body :: body in signed && body.bundleId == bundleId && body.releaseAt <= now
  }

  /** At least the threshold of shares with distinct indices, all from the split of the bundle's key. */
  ghost predicate SharesOfOneSplit(b: Bundle, shares: seq<Submitted>) {
    && |shares| >= b.threshold
    && (forall i | 0 <= i < b.threshold ::
         shares[i].share.Share? && shares[i].share.genuine && Kek(shares[i].share.splitId) == b.fingerprint)
    && forall i, j | 0 <= i < j < b.threshold :: shares[i].share.Share? && shares[j].share.Share? ==>
      shares[i].share.x != shares[j].share.x
  }

  /** When it happened, a moment signed for the bundle had passed and each custodian was enrolled. */
  ghost predicate GoodRelease(s: State, r: Release) {
    && r.bundleId in s.bundles && r.key == s.bundles[r.bundleId].fingerprint
    && r.signed <= s.signed && Due(r.signed, r.bundleId, r.now)
    && r.enrolled <= s.custodians && GoodCustodians(r.enrolled, r.shares)
    && SharesOfOneSplit(s.bundles[r.bundleId], r.shares)
  }

  ghost predicate GoodHistory(s: State) {
    forall i | 0 <= i < |s.history| :: GoodRelease(s, s.history[i])
  }

  ghost predicate Inv(s: State) {
    GoodBundles(s) && GoodSchedules(s) && GoodHistory(s)
  }

  /** Nothing that a release is judged by is ever taken back. */
  ghost predicate Grows(s: State, t: State) {
    && s.signed <= t.signed && s.custodians <= t.custodians && s.nextKey <= t.nextKey && s.history <= t.history
    && forall id | id in s.bundles :: id in t.bundles && t.bundles[id] == s.bundles[id]
  }

  // ---------- each step keeps it ----------

  lemma ReleaseStaysGood(s: State, t: State, r: Release)
    requires GoodRelease(s, r) && Grows(s, t)
    ensures GoodRelease(t, r)
  {
    hide SharesOfOneSplit, Due, GoodCustodians;
  }

  /** The history stays good when nothing is added to it. */
  lemma SameHistory(s: State, t: State)
    requires GoodHistory(s) && Grows(s, t) && t.history == s.history
    ensures GoodHistory(t)
  {
    hide GoodRelease, Grows;
    forall i | 0 <= i < |t.history| ensures GoodRelease(t, t.history[i]) {
      ReleaseStaysGood(s, t, s.history[i]);
    }
  }

  lemma KeepBuildBundle(s: State, examId: Id, kind: Kind, content: nat, custodians: seq<Id>, threshold: nat)
    requires Inv(s) && threshold >= 2
    ensures var t := DoBuildBundle(s, examId, kind, content, custodians, threshold).0;
      Inv(t) && Grows(s, t) && t.history == s.history
    ensures DoBuildBundle(s, examId, kind, content, custodians, threshold).0.custodians == s.custodians
  {
    hide PutShares, GoodHistory, GoodBundles, GoodSchedules, NewBundle, BundleId;
    var t := DoBuildBundle(s, examId, kind, content, custodians, threshold).0;
    var id := BundleId(examId, kind);
    if t.bundles != s.bundles {
      NewBundleIsGood(s, t, examId, kind, content, threshold, |custodians|);
    }
    BundlesStayGood(s, t, id);
    SchedulesKept(s, t);
    SameHistory(s, t);
  }

  lemma SchedulesKept(s: State, t: State)
    requires GoodSchedules(s) && t.schedules == s.schedules && s.signed <= t.signed
    ensures GoodSchedules(t)
  {}

  lemma NewBundleIsGood(s: State, t: State, examId: Id, kind: Kind, content: nat, threshold: nat, n: nat)
    requires threshold >= 2 && t.nextKey == s.nextKey + 1
    requires var b := NewBundle(Kek(s.nextKey), examId, kind, content, threshold, n);
      t.bundles == s.bundles[BundleId(examId, kind) := b]
    ensures GoodBundle(t, BundleId(examId, kind)) && t.bundles[BundleId(examId, kind)].fingerprint == Kek(s.nextKey)
  {
    hide BundleId;
  }

  lemma BuildKeepsHistory(s: State, examId: Id, kind: Kind, content: nat, custodians: seq<Id>, threshold: nat)
    ensures DoBuildBundle(s, examId, kind, content, custodians, threshold).0.history == s.history
  {
    hide PutShares, NewBundle, BundleId;
  }

  lemma BundlesStayGood(s: State, t: State, id: Id)
    requires GoodBundles(s) && t.nextKey == s.nextKey + 1
    requires t.bundles == s.bundles
      || (id !in s.bundles && id in t.bundles && t.bundles == s.bundles[id := t.bundles[id]])
    requires t.bundles == s.bundles || (GoodBundle(t, id) && t.bundles[id].fingerprint == Kek(s.nextKey))
    ensures GoodBundles(t)
  {
    forall a | a in t.bundles ensures GoodBundle(t, a) {
      assert a in s.bundles ==> GoodBundle(s, a);
    }
    forall a, b | a in t.bundles && b in t.bundles && t.bundles[a].fingerprint == t.bundles[b].fingerprint
      ensures a == b {
      assert a in s.bundles ==> GoodBundle(s, a);
      assert b in s.bundles ==> GoodBundle(s, b);
    }
  }

  lemma GrowsTwice(s: State, t: State, u: State)
    requires Grows(s, t) && Grows(t, u)
    ensures Grows(s, u)
  {}

  lemma KeepProvision(s: State, examId: Id, custodians: seq<Id>, threshold: int, paper: nat, answers: nat)
    requires Inv(s)
    ensures var t := DoProvision(s, examId, custodians, threshold, paper, answers).0; Inv(t) && Grows(s, t)
  {
    hide Inv, DoBuildBundle, Grows;
    if ProvisionError(s, custodians, threshold).None? {
      KeepBuildBundle(s, examId, PaperKind, paper, custodians, threshold);
      var t := DoBuildBundle(s, examId, PaperKind, paper, custodians, threshold).0;
      KeepBuildBundle(t, examId, AnswersKind, answers, custodians, threshold);
      GrowsTwice(s, t, DoBuildBundle(t, examId, AnswersKind, answers, custodians, threshold).0);
    } else {
      assert Grows(s, s) by { GrowsItself(s); }
    }
  }

  lemma GrowsItself(s: State)
    ensures Grows(s, s)
  {}

  lemma KeepScheduleRelease(s: State, examId: Id, bundleId: Id, releaseAt: int)
    requires Inv(s)
    ensures var t := DoScheduleRelease(s, examId, bundleId, releaseAt).0; Inv(t) && Grows(s, t)
  {
    hide GoodHistory, GoodBundle;
    var t := DoScheduleRelease(s, examId, bundleId, releaseAt).0;
    SameHistory(s, t);
    BundlesKept(s, t);
  }

  lemma BundlesKept(s: State, t: State)
    requires GoodBundles(s) && t.bundles == s.bundles && t.nextKey == s.nextKey
    ensures GoodBundles(t)
  {
    forall a | a in t.bundles ensures GoodBundle(t, a) {
      assert GoodBundle(s, a);
    }
  }

  /** Whatever does not touch bundles, schedules, signatures, custodians and history. */
  lemma KeepOther(s: State, t: State)
    requires Inv(s)
    requires t == s.(centres := t.centres, custodians := t.custodians, distributions := t.distributions, log := t.log)
    requires s.custodians <= t.custodians
    ensures Inv(t) && Grows(s, t)
  {
    hide GoodHistory, GoodBundle;
    SameHistory(s, t);
    BundlesKept(s, t);
  }

  /** A reconstruction that matches the fingerprint used a threshold of shares of the right split. */
  lemma CombinedMeansQuorum(s: State, req: Request)
    requires Inv(s) && Enabled(s, PerformRelease(req)) && Refusal(s, req).None? && Reconstruction(s, req).None?
    ensures SharesOfOneSplit(s.bundles[req.bundleId], req.shares)
  {
    hide GoodHistory, GoodSchedules;
    var b := s.bundles[req.bundleId];
    var blobs := Blobs(req.shares);
    assert GoodBundle(s, req.bundleId);
    assert blobs[0] == req.shares[0].share && blobs[0].genuine;
    assert IsIssued(s, req.shares[0].share);
    var id :| id in s.bundles && s.bundles[id].fingerprint == Kek(blobs[0].splitId)
      && blobs[0].threshold == s.bundles[id].threshold;
    assert id == req.bundleId;
    forall i | 0 <= i < b.threshold
      ensures req.shares[i].share.Share? && req.shares[i].share.genuine
        && Kek(req.shares[i].share.splitId) == b.fingerprint
    {
      assert blobs[i] == req.shares[i].share && blobs[i].genuine && blobs[i].splitId == blobs[0].splitId;
    }
    forall i, j | 0 <= i < j < b.threshold && req.shares[i].share.Share? && req.shares[j].share.Share?
      ensures req.shares[i].share.x != req.shares[j].share.x
    {
      assert blobs[i].x != blobs[j].x;
    }
  }

  lemma ScheduleIsDue(s: State, req: Request)
    requires GoodSchedules(s) && Refusal(s, req).None?
    ensures Due(s.signed, req.bundleId, req.now)
  {
    var row := s.schedules[(req.pick, req.bundleId)];
    assert Unforged(s, row);
    var body := row.signature.value;
    assert body in s.signed && body.bundleId == req.bundleId && body.releaseAt <= req.now;
  }

  lemma PassedCustodians(s: State, req: Request)
    requires Refusal(s, req).None?
    ensures GoodCustodians(s.custodians, req.shares)
  {}

  lemma PassedBundle(s: State, req: Request)
    requires Refusal(s, req).None?
    ensures req.bundleId in s.bundles
  {}

  lemma KeepReleased(s: State, req: Request)
    requires Inv(s) && Enabled(s, PerformRelease(req)) && Refusal(s, req).None? && Reconstruction(s, req).None?
    ensures Inv(Released(s, req)) && Grows(s, Released(s, req))
  {
    hide GoodBundle, Due, SharesOfOneSplit, GoodCustodians, RecordAll, Wrap, Reconstruction;
    var t := Released(s, req);
    CombinedMeansQuorum(s, req);
    ScheduleIsDue(s, req);
    var r := RecordOf(s, req);
    assert GoodCustodians(s.custodians, req.shares) by { PassedCustodians(s, req); }
    assert GoodRelease(s, r);
    BundlesKept(s, t);
    forall i | 0 <= i < |t.history| ensures GoodRelease(t, t.history[i]) {
      assert t.history[i] == if i < |s.history| then s.history[i] else r;
      ReleaseStaysGood(s, t, t.history[i]);
    }
  }

  lemma KeepPerformRelease(s: State, req: Request)
    requires Inv(s) && Enabled(s, PerformRelease(req))
    ensures Inv(DoPerformRelease(s, req).0) && Grows(s, DoPerformRelease(s, req).0)
  {
    hide Inv, Enabled, Released, Refusal, Reconstruction, Grows;
    if Refusal(s, req).None? && Reconstruction(s, req).None? {
      KeepReleased(s, req);
    } else {
      KeepOther(s, DoPerformRelease(s, req).0);
    }
  }

  lemma ApplyKeepsInv(s: State, step: Step)
    requires Inv(s) && Enabled(s, step)
    ensures Inv(Apply(s, step)) && Grows(s, Apply(s, step))
  {
    hide Inv, Enabled, Grows, DoProvision, DoScheduleRelease, DoPerformRelease;
    match step
    case EnrolCentre(c, k) => KeepOther(s, Apply(s, step));
    case EnrolCustodian(c) => KeepOther(s, Apply(s, step));
    case Provision(e, cs, t, p, a) => KeepProvision(s, e, cs, t, p, a);
    case ScheduleRelease(e, b, at) => KeepScheduleRelease(s, e, b, at);
    case Distribute(b, c) => KeepOther(s, Apply(s, step));
    case PerformRelease(req) => KeepPerformRelease(s, req);
    case CloseExam(e, c) => KeepOther(s, Apply(s, step));
  }

  // ---------- what a release leaves in the database ----------

  lemma {:induction false} RecordAllMeaning(rows: map<(Id, Id), ReleaseRow>, b: Id, wrapped: seq<MediumEntry>, at: int)
    ensures LastEntryWins(rows, RecordAll(rows, b, wrapped, at), b, wrapped, at)
  {
    if wrapped != [] {
      var init, last := wrapped[..|wrapped| - 1], wrapped[|wrapped| - 1];
      RecordAllMeaning(rows, b, init, at);
      NamesOneMore(wrapped);
      OneMoreEntry(rows, RecordAll(rows, b, init, at), b, wrapped, at);
    }
  }

  lemma NamesOneMore(wrapped: seq<MediumEntry>)
    requires wrapped != []
    ensures forall c :: Names(wrapped, c) <==>
      Names(wrapped[..|wrapped| - 1], c) || wrapped[|wrapped| - 1].centreId == c
  {
    forall c | Names(wrapped[..|wrapped| - 1], c) ensures Names(wrapped, c) {
      var i :| 0 <= i < |wrapped| - 1 && wrapped[..|wrapped| - 1][i].centreId == c;
      assert wrapped[i].centreId == c;
    }
    forall c | Names(wrapped, c) && wrapped[|wrapped| - 1].centreId != c ensures Names(wrapped[..|wrapped| - 1], c) {
      var i :| 0 <= i < |wrapped| && wrapped[i].centreId == c;
      assert wrapped[..|wrapped| - 1][i].centreId == c;
    }
  }

  lemma OneMoreEntry(rows: map<(Id, Id), ReleaseRow>, mid: map<(Id, Id), ReleaseRow>, b: Id, wrapped: seq<MediumEntry>,
      at: int)
    requires wrapped != [] && LastEntryWins(rows, mid, b, wrapped[..|wrapped| - 1], at)
    requires forall c :: Names(wrapped, c) <==>
      Names(wrapped[..|wrapped| - 1], c) || wrapped[|wrapped| - 1].centreId == c
    ensures var last := wrapped[|wrapped| - 1];
      LastEntryWins(rows, mid[(b, last.centreId) := ReleaseRow(at, last.box)], b, wrapped, at)
  {
    hide Names;
    var init, last := wrapped[..|wrapped| - 1], wrapped[|wrapped| - 1];
    var after := mid[(b, last.centreId) := ReleaseRow(at, last.box)];
    forall i | 0 <= i < |wrapped| && !Names(wrapped[i + 1..], wrapped[i].centreId)
      ensures (b, wrapped[i].centreId) in after && after[(b, wrapped[i].centreId)] == ReleaseRow(at, wrapped[i].box)
    {
      if i < |init| {
        assert wrapped[i + 1..][..|wrapped[i + 1..]| - 1] == init[i + 1..]
          && wrapped[i + 1..][|wrapped[i + 1..]| - 1] == last;
        NamesOneMore(wrapped[i + 1..]);
        assert init[i] == wrapped[i];
      }
    }
  }

  /** After a release every recipient, and nobody else, has a new row: the key sealed to that centre. */
  lemma EveryRecipientIsRecorded(s: State, req: Request, k: (Id, Id))
    requires Refusal(s, req).None?
    ensures var rows := Released(s, req).releases; var named := k.0 == req.bundleId && k.1 in Recipients(req);
      && (k in rows <==> k in s.releases || named)
      && (named ==>
        k.1 in s.centres && rows[k] == ReleaseRow(req.now, Box(s.centres[k.1], s.bundles[req.bundleId].fingerprint)))
      && (k in s.releases && !named ==> rows[k] == s.releases[k])
  {
    hide GoodCustodians, Verifies, RecordAll;
    var ids, key := Recipients(req), s.bundles[req.bundleId].fingerprint;
    var wrapped := Wrap(s.centres, ids, key);
    RecordAllMeaning(s.releases, req.bundleId, wrapped, req.now);
    assert Names(wrapped, k.1) <==> k.1 in ids by { WrapNames(s.centres, ids, key, k.1); }
    if k.1 in ids {
      var i := LastNamed(wrapped, k.1);
      assert wrapped[i] == MediumEntry(ids[i], Box(s.centres[ids[i]], key));
    }
  }

  lemma WrapNames(centres: map<Id, nat>, ids: seq<Id>, key: Key, c: Id)
    requires forall i | 0 <= i < |ids| :: ids[i] in centres
    ensures Names(Wrap(centres, ids, key), c) <==> c in ids
  {
    var wrapped := Wrap(centres, ids, key);
    if c in ids {
      var i :| 0 <= i < |ids| && ids[i] == c;
      assert wrapped[i].centreId == c;
    }
  }

  ghost function LastNamed(wrapped: seq<MediumEntry>, c: Id): (i: nat)
    requires Names(wrapped, c)
    ensures i < |wrapped| && wrapped[i].centreId == c && !Names(wrapped[i + 1..], c)
  {
    var last := |wrapped| - 1;
    if wrapped[last].centreId == c then last
    else
      NamesOneMore(wrapped);
      var i := LastNamed(wrapped[..last], c);
      assert wrapped[i + 1..][..|wrapped[i + 1..]| - 1] == wrapped[..last][i + 1..];
      assert wrapped[i + 1..][|wrapped[i + 1..]| - 1] == wrapped[last];
      NamesOneMore(wrapped[i + 1..]);
      i
  }

  // ---------- when a release succeeds, and how it fails ----------

  /** The row that the database returns for a known bundle is one that the authority signed. */
  ghost predicate Scheduled(s: State, req: Request) {
    && req.bundleId in s.bundles && (req.pick, req.bundleId) in s.schedules
    && var row := s.schedules[(req.pick, req.bundleId)];
    row.signature == Some(ScheduleBody(row.examId, row.bundleId, row.releaseAt))
  }

  /** And its moment has come. */
  ghost predicate Timely(s: State, req: Request) {
    Scheduled(s, req) && s.schedules[(req.pick, req.bundleId)].releaseAt <= req.now
  }

  /** And enough different custodians, all enrolled, submit shares. */
  ghost predicate Staffed(s: State, req: Request) {
    && Timely(s, req) && |req.shares| >= s.bundles[req.bundleId].threshold && EachOnce(s, req)
  }

  ghost predicate EachOnce(s: State, req: Request) {
    && (forall i, j | 0 <= i < j < |req.shares| :: req.shares[i].custodianId != req.shares[j].custodianId)
    && forall i | 0 <= i < |req.shares| :: req.shares[i].custodianId in s.custodians
  }

  /** The centres that are named, or else all that received the bundle. */
  function Named(req: Request): seq<Id> {
    match req.centreIds
    case Some(ids) => ids
    case None => req.distributed
  }

  /** And there is someone to release to, all of them enrolled. */
  ghost predicate Addressed(s: State, req: Request) {
    Staffed(s, req) && Named(req) != [] && forall i | 0 <= i < |Named(req)| :: Named(req)[i] in s.centres
  }

  function Combination(req: Request): Option<Key> {
    Combine(seq(|req.shares|, i requires 0 <= i < |req.shares| => req.shares[i].share))
  }

  /** And the submitted shares combine to the key of the bundle, within the budget. */
  ghost predicate Releasable(s: State, req: Request) {
    Addressed(s, req) && Combination(req) == Some(s.bundles[req.bundleId].fingerprint) && !req.overBudget
  }

  /** What each answer to a release means, and that a release that is due is performed. */
  lemma OutcomeOfRelease(s: State, req: Request)
    ensures var e := DoPerformRelease(s, req).1;
      && (e == Some(UnknownBundle) <==> req.bundleId !in s.bundles)
      && (e == Some(NoSchedule) <==> req.bundleId in s.bundles && (req.pick, req.bundleId) !in s.schedules)
      && (e == Some(ScheduleTampered) <==>
            req.bundleId in s.bundles && (req.pick, req.bundleId) in s.schedules && !Scheduled(s, req))
      && (e == Some(TooEarly) || e == Some(NotADate) <==> Scheduled(s, req) && !Timely(s, req))
      && (e == Some(InsufficientShares) <==>
            Timely(s, req) && |req.shares| < s.bundles[req.bundleId].threshold)
      && (e == Some(ShareInvalid) <==>
            Timely(s, req) && |req.shares| >= s.bundles[req.bundleId].threshold && !EachOnce(s, req))
      && (e == Some(NoRecipients) <==> Staffed(s, req) && !Addressed(s, req))
      && (e == Some(ReconstructionFailed) <==> Addressed(s, req) && Combination(req).None?)
      && (e == Some(FingerprintMismatch) <==>
            Addressed(s, req) && Combination(req).Some?
              && Combination(req).value != s.bundles[req.bundleId].fingerprint)
      && (e == Some(BudgetExceeded) <==>
            Addressed(s, req) && Combination(req) == Some(s.bundles[req.bundleId].fingerprint) && req.overBudget)
      && (e.None? <==> Releasable(s, req))
    ensures Scheduled(s, req) && !Timely(s, req) ==>
      var at := s.schedules[(req.pick, req.bundleId)].releaseAt;
      DoPerformRelease(s, req).1 == Some(NotADate) <==> at < -8_640_000_000_000_000 || at > 8_640_000_000_000_000
  {
    hide Combine, Released;
    assert Blobs(req.shares) == seq(|req.shares|, i requires 0 <= i < |req.shares| => req.shares[i].share);
    assert EachOnce(s, req) <==> GoodCustodians(s.custodians, req.shares);
    assert Named(req) == Recipients(req);
  }

  /** What each kind of answer leaves behind. */
  lemma EffectOfRelease(s: State, req: Request)
    ensures var r := DoPerformRelease(s, req);
      var ids := seq(|req.shares|, i requires 0 <= i < |req.shares| => req.shares[i].custodianId);
      var approvals := seq(|req.shares|, i requires 0 <= i < |req.shares| => CustodianApproved(req.bundleId, ids[i]));
      && (Scheduled(s, req) && !Timely(s, req) ==> r.0 == s.(log := s.log + [EarlyReleaseAttempt(
            req.bundleId, s.schedules[(req.pick, req.bundleId)].releaseAt, req.now, ids)]))
      && (!Addressed(s, req) && !(Scheduled(s, req) && !Timely(s, req)) ==> r.0 == s)
      && (Addressed(s, req) && r.1.Some? ==> r.0 == s.(log := s.log + approvals))
      && (r.1.None? ==> Addressed(s, req) && r.0.log == s.log + approvals + [KekReleased(
            req.bundleId, s.bundles[req.bundleId].fingerprint, s.bundles[req.bundleId].threshold, ids, Named(req),
            s.schedules[(req.pick, req.bundleId)].releaseAt, req.now)])
      && (r.1.None? ==> Addressed(s, req) && r.0.history == s.history + [Release(
            req.bundleId, s.bundles[req.bundleId].fingerprint, req.now, req.asserted, req.shares, s.signed,
              s.custodians)])
      && (r.1.None? ==> r.0 == s.(releases := r.0.releases, log := r.0.log, history := r.0.history))
  {
    hide Combine, RecordAll, Wrap;
    OutcomeOfRelease(s, req);
    var ids := seq(|req.shares|, i requires 0 <= i < |req.shares| => req.shares[i].custodianId);
    assert Custodians(req.shares) == ids;
    assert Approvals(req.bundleId, req.shares)
      == seq(|req.shares|, i requires 0 <= i < |req.shares| => CustodianApproved(req.bundleId, ids[i]));
    assert EachOnce(s, req) <==> GoodCustodians(s.custodians, req.shares);
    assert Named(req) == Recipients(req);
  }

  /** For each recipient, in order, the bundle's key sealed to that centre. */
  ghost predicate IsSent(s: State, req: Request, w: seq<MediumEntry>) {
    req.bundleId in s.bundles && |w| == |Named(req)| && forall i | 0 <= i < |w| ::
      var id := Named(req)[i];
      id in s.centres && w[i] == MediumEntry(id, Box(s.centres[id], s.bundles[req.bundleId].fingerprint))
  }

  /** What goes to the centres. */
  lemma WhatIsSent(s: State, req: Request)
    requires DoPerformRelease(s, req).1.None?
    ensures Refusal(s, req).None? && IsSent(s, req, Outcome(s, req))
  {
    hide Combine, RecordAll;
    assert Named(req) == Recipients(req);
  }

  /** A due request by a quorum with its own shares is never refused, whatever the clock says later. */
  lemma QuorumReleases(s: State, req: Request)
    requires Addressed(s, req) && !req.overBudget && s.bundles[req.bundleId].threshold > 0
    requires var b := s.bundles[req.bundleId]; forall i | 0 <= i < |req.shares| ::
      && req.shares[i].share.Share? && req.shares[i].share.genuine && Kek(req.shares[i].share.splitId) == b.fingerprint
      && req.shares[i].share.threshold == b.threshold && 1 <= req.shares[i].share.x <= 255
    requires forall i, j | 0 <= i < j < |req.shares| && req.shares[i].share.Share? && req.shares[j].share.Share? ::
      req.shares[i].share.x != req.shares[j].share.x
    ensures DoPerformRelease(s, req).1.None?
  {
    hide DoPerformRelease, Scheduled;
    OutcomeOfRelease(s, req);
    var blobs := seq(|req.shares|, i requires 0 <= i < |req.shares| => req.shares[i].share);
    assert forall i | 0 <= i < |blobs| :: blobs[i] == req.shares[i].share;
    assert blobs[0] == req.shares[0].share;
  }

  /** Enrolment and the close of an exam. */
  lemma OtherSteps(s: State, id: Id, examId: Id, publicKey: nat)
    ensures Apply(s, EnrolCentre(id, publicKey)) ==
      s.(centres := s.centres[id := publicKey], log := s.log + [CentreEnrolled(id)])
    ensures Apply(s, EnrolCustodian(id)) == s.(custodians := s.custodians + {id})
    ensures Apply(s, CloseExam(examId, id)) == s.(log := s.log + [ExamClosed(examId, id)])
  {}

  // ---------- what provisioning stores ----------

  /** Opening a stored bundle with its own key and associated data. */
  function Content(b: Bundle, id: Id, kind: Kind, examId: Id): Option<nat> {
    Decrypt(b.fingerprint, b.ciphertext, AssociatedData(id, kind, examId))
  }

  lemma BuildStores(s: State, examId: Id, kind: Kind, content: nat, custodians: seq<Id>, threshold: nat)
    ensures var r := DoBuildBundle(s, examId, kind, content, custodians, threshold); var id := BundleId(examId, kind);
      && (r.1 == Some(TooManyShares) <==> |custodians| > 255)
      && (r.1 == Some(BundleExists) <==> |custodians| <= 255 && id in s.bundles)
      && (|custodians| <= 255 && id !in s.bundles ==>
            && id in r.0.bundles && r.0.bundles == s.bundles[id := r.0.bundles[id]]
            && var b := r.0.bundles[id];
            && b.examId == examId && b.kind == kind && b.threshold == threshold && b.shareCount == |custodians|
            && b.fingerprint == Kek(s.nextKey) && b.bundleHash == b.ciphertext
            && Content(b, id, kind, examId) == Some(content))
  {
    hide PutShares, BundleId;
  }

  /** What building a bundle logs, and that it uses up a key whatever happens. */
  lemma BuildLogsWhatItStores(s: State, examId: Id, kind: Kind, content: nat, custodians: seq<Id>, threshold: nat)
    ensures var r := DoBuildBundle(s, examId, kind, content, custodians, threshold); var id := BundleId(examId, kind);
      && r.0.nextKey == s.nextKey + 1
      && (|custodians| > 255 || id in s.bundles ==> r.1.Some? && r.0 == s.(nextKey := s.nextKey + 1))
      && (|custodians| <= 255 && id !in s.bundles ==>
            && id in r.0.bundles && (r.1.None? || r.1 == Some(ShareExists))
            && var created := BundleCreated(id, r.0.bundles[id].bundleHash, Kek(s.nextKey), threshold, |custodians|);
            r.0.log == s.log + [created] + if r.1.None? then [SharesIssued(id, threshold, custodians)] else [])
  {
    hide PutShares, BundleId;
  }

  /** Each bundle of an exam opens to the content of its kind. */
  lemma ProvisionStores(s: State, examId: Id, custodians: seq<Id>, threshold: int, paper: nat, answers: nat)
    ensures var r := DoProvision(s, examId, custodians, threshold, paper, answers);
      && (r.1 == Some(ThresholdTooSmall) <==> threshold < 2)
      && (r.1 == Some(TooFewCustodians) <==> threshold >= 2 && |custodians| < threshold)
      && (r.1 == Some(CustodianNotEnrolled) <==>
            2 <= threshold <= |custodians| && exists i :: 0 <= i < |custodians| && custodians[i] !in s.custodians)
      && (r.1.None? ==>
        Holds(r.0, examId, PaperKind, paper, threshold) && Holds(r.0, examId, AnswersKind, answers, threshold))
  {
    hide DoBuildBundle, PaperBundleId, Content;
    if ProvisionError(s, custodians, threshold).None? {
      var first := DoBuildBundle(s, examId, PaperKind, paper, custodians, threshold);
      BuildStores(s, examId, PaperKind, paper, custodians, threshold);
      BuildFails(s, examId, PaperKind, paper, custodians, threshold);
      BuildStores(first.0, examId, AnswersKind, answers, custodians, threshold);
      BuildFails(first.0, examId, AnswersKind, answers, custodians, threshold);
      TwoKinds(examId);
    }
  }

  lemma BuildFails(s: State, examId: Id, kind: Kind, content: nat, custodians: seq<Id>, threshold: nat)
    ensures var e := DoBuildBundle(s, examId, kind, content, custodians, threshold).1;
      e.None? || e == Some(TooManyShares) || e == Some(BundleExists) || e == Some(ShareExists)
  {
    hide PutShares, BundleId, NewBundle;
  }

  lemma TwoKinds(examId: Id)
    ensures BundleId(examId, PaperKind) != BundleId(examId, AnswersKind)
  {
    assert |BundleId(examId, PaperKind)| == |examId| + 6 && |BundleId(examId, AnswersKind)| == |examId| + 8;
  }

  ghost predicate Holds(s: State, examId: Id, kind: Kind, content: nat, threshold: int) {
    var id := BundleId(examId, kind);
    && id in s.bundles && s.bundles[id].kind == kind && s.bundles[id].examId == examId
    && s.bundles[id].threshold == threshold && Content(s.bundles[id], id, kind, examId) == Some(content)
  }

  // ---------- interference ----------

  /** Someone with access to the database overwrites a schedule row. */
  function Tampered(s: State, row: ScheduleRow): State {
    s.(schedules := s.schedules[(row.examId, row.bundleId) := row])
  }

  lemma TamperingKeepsInv(s: State, row: ScheduleRow)
    requires Inv(s) && Unforged(s, row)
    ensures Inv(Tampered(s, row)) && Grows(s, Tampered(s, row))
  {
    hide GoodHistory, GoodBundle;
    SameHistory(s, Tampered(s, row));
    BundlesKept(s, Tampered(s, row));
  }

  // ---------- the authority ----------

  /** The running service; its `Snapshot()` is what the steps above transform. */
  class AuthorityService {
    var centres: map<Id, nat>
    var custodians: set<Id>
    var bundles: map<Id, Bundle>
    var shares: map<(Id, Id), nat>
    var schedules: map<(Id, Id), ScheduleRow>
    var distributions: set<(Id, Id)>
    var releases: map<(Id, Id), ReleaseRow>
    var log: seq<Event>
    var nextKey: nat
    ghost var signed: set<ScheduleBody>
    ghost var history: seq<Release>

    ghost function Snapshot(): State
      reads this
    {
      State(centres, custodians, bundles, shares, schedules, distributions, releases, log, nextKey, signed, history)
    }

    ghost predicate Valid()
      reads this
    {
      Inv(Snapshot())
    }

    constructor ()
      ensures Valid() && Snapshot() == EMPTY
    {
      centres, custodians, bundles, shares, schedules, distributions, releases, log, nextKey, signed, history :=
        map[], {}, map[], map[], map[], {}, map[], [], 0, {}, [];
    }

    /** Inserts the share rows one by one, stopping at a duplicate. */
    method InsertShares(id: Id, holders: seq<Id>) returns (ok: bool)
      modifies this`shares
      ensures (shares, ok) == PutShares(old(shares), id, holders, 0)
      ensures ok ==> forall i | 0 <= i < |holders| :: (id, holders[i]) in shares && shares[(id, holders[i])] == i + 1
      ensures forall k | k in old(shares) :: k in shares && shares[k] == old(shares)[k]
      ensures forall k | k in shares && k !in old(shares) :: k.0 == id && k.1 in holders
    {
      PutSharesRows(shares, id, holders, 0);
      for i := 0 to |holders|
        invariant PutShares(shares, id, holders, i) == PutShares(old(shares), id, holders, 0)
      {
        if (id, holders[i]) in shares {
          return false;
        }
        shares := shares[(id, holders[i]) := i + 1];
      }
      return true;
    }

    method BuildBundle(examId: Id, kind: Kind, content: nat, holders: seq<Id>, threshold: nat)
        returns (r: Option<AuthorityError>)
      modifies this
      ensures (Snapshot(), r) == DoBuildBundle(old(Snapshot()), examId, kind, content, holders, threshold)
    {
      hide PutShares, BundleId;
      var id, key := BundleId(examId, kind), Kek(nextKey);
      nextKey := nextKey + 1;
      if |holders| > 255 {
        return Some(TooManyShares);
      }
      if id in bundles {
        return Some(BundleExists);
      }
      var b := NewBundle(key, examId, kind, content, threshold, |holders|);
      bundles := bundles[id := b];
      log := log + [BundleCreated(id, b.bundleHash, key, threshold, |holders|)];
      var ok := InsertShares(id, holders);
      if !ok {
        return Some(ShareExists);
      }
      log := log + [SharesIssued(id, threshold, holders)];
      return None;
    }

    method ProvisionExam(examId: Id, holders: seq<Id>, threshold: int, paper: nat, answers: nat)
        returns (r: Option<AuthorityError>)
      requires Valid()
      modifies this
      ensures Valid() && Snapshot() == Apply(old(Snapshot()), Provision(examId, holders, threshold, paper, answers))
      ensures r == DoProvision(old(Snapshot()), examId, holders, threshold, paper, answers).1
      ensures r == Some(ThresholdTooSmall) <==> threshold < 2
      ensures r == Some(TooFewCustodians) <==> threshold >= 2 && |holders| < threshold
      ensures r == Some(CustodianNotEnrolled) <==>
        2 <= threshold <= |holders| && exists i :: 0 <= i < |holders| && holders[i] !in old(custodians)
      ensures r.None? ==> Holds(Snapshot(), examId, PaperKind, paper, threshold)
      ensures r.None? ==> Holds(Snapshot(), examId, AnswersKind, answers, threshold)
    {
      ProvisionStores(Snapshot(), examId, holders, threshold, paper, answers);
      hide Inv, DoBuildBundle;
      ApplyKeepsInv(Snapshot(), Provision(examId, holders, threshold, paper, answers));
      if threshold < 2 {
        return Some(ThresholdTooSmall);
      }
      if |holders| < threshold {
        return Some(TooFewCustodians);
      }
      for i := 0 to |holders|
        invariant forall j | 0 <= j < i :: holders[j] in custodians
        invariant Snapshot() == old(Snapshot())
      {
        if holders[i] !in custodians {
          return Some(CustodianNotEnrolled);
        }
      }
      r := BuildBundle(examId, PaperKind, paper, holders, threshold);
      if r.None? {
        r := BuildBundle(examId, AnswersKind, answers, holders, threshold);
      }
    }

    method Schedule(examId: Id, bundleId: Id, releaseAt: int) returns (r: Option<AuthorityError>)
      requires Valid()
      modifies this
      ensures Valid() && Snapshot() == Apply(old(Snapshot()), ScheduleRelease(examId, bundleId, releaseAt))
      ensures r == DoScheduleRelease(old(Snapshot()), examId, bundleId, releaseAt).1
      ensures r == if bundleId in bundles then None else Some(UnknownBundle)
      ensures r.None? ==> log == old(log) + [ReleaseScheduled(bundleId, examId, releaseAt)]
      ensures r.None? ==> schedules == old(schedules)[(examId, bundleId) := ScheduleRow(
        examId, bundleId, releaseAt, Some(ScheduleBody(examId, bundleId, releaseAt)))]
      ensures r.Some? ==> schedules == old(schedules) && log == old(log)
      ensures signed == old(signed) + {ScheduleBody(examId, bundleId, releaseAt)} && history == old(history)
      ensures bundles == old(bundles) && custodians == old(custodians) && centres == old(centres)
      ensures releases == old(releases) && distributions == old(distributions) && shares == old(shares)
    {
      hide Inv;
      ApplyKeepsInv(Snapshot(), ScheduleRelease(examId, bundleId, releaseAt));
      var body := ScheduleBody(examId, bundleId, releaseAt);
      signed := signed + {body};
      if bundleId !in bundles {
        return Some(UnknownBundle);
      }
      schedules := schedules[(examId, bundleId) := ScheduleRow(examId, bundleId, releaseAt, Some(body))];
      log := log + [ReleaseScheduled(bundleId, examId, releaseAt)];
      return None;
    }

    method RecordDistribution(bundleId: Id, centreId: Id) returns (r: Option<AuthorityError>)
      requires Valid()
      modifies this
      ensures Valid() && Snapshot() == Apply(old(Snapshot()), Distribute(bundleId, centreId))
      ensures r == DoDistribute(old(Snapshot()), bundleId, centreId).1
      ensures r == Some(UnknownBundle) <==> bundleId !in bundles
      ensures r == Some(CentreNotEnrolled) <==> bundleId in bundles && centreId !in centres
      ensures r.None? ==> bundleId in bundles && distributions == old(distributions) + {(bundleId, centreId)}
      ensures r.None? ==> log == old(log) + [BundleDistributed(bundleId, centreId, bundles[bundleId].bundleHash)]
      ensures r.Some? ==> distributions == old(distributions) && log == old(log)
      ensures bundles == old(bundles) && custodians == old(custodians) && centres == old(centres)
      ensures schedules == old(schedules) && releases == old(releases) && shares == old(shares)
    {
      hide Inv;
      ApplyKeepsInv(Snapshot(), Distribute(bundleId, centreId));
      if bundleId !in bundles {
        return Some(UnknownBundle);
      }
      if centreId !in centres {
        return Some(CentreNotEnrolled);
      }
      distributions := distributions + {(bundleId, centreId)};
      log := log + [BundleDistributed(bundleId, centreId, bundles[bundleId].bundleHash)];
      return None;
    }

    /** No custodian twice, and each enrolled: grows the set of those seen. */
    method CheckCustodians(submitted: seq<Submitted>) returns (ok: bool)
      ensures ok <==> GoodCustodians(custodians, submitted)
    {
      var seen: set<Id> := {};
      for i := 0 to |submitted|
        invariant forall id :: id in seen <==> exists j :: 0 <= j < i && submitted[j].custodianId == id
        invariant forall j, k | 0 <= j < k < i :: submitted[j].custodianId != submitted[k].custodianId
        invariant forall j | 0 <= j < i :: submitted[j].custodianId in custodians
      {
        if submitted[i].custodianId in seen || submitted[i].custodianId !in custodians {
          return false;
        }
        seen := seen + {submitted[i].custodianId};
      }
      return true;
    }

    method CheckRecipients(ids: seq<Id>) returns (ok: bool)
      ensures ok <==> GoodRecipients(Snapshot(), ids)
    {
      if |ids| == 0 {
        return false;
      }
      for i := 0 to |ids|
        invariant forall j | 0 <= j < i :: ids[j] in centres
      {
        if ids[i] !in centres {
          return false;
        }
      }
      return true;
    }

    method LogApprovals(bundleId: Id, submitted: seq<Submitted>)
      modifies this`log
      ensures log == old(log) + Approvals(bundleId, submitted)
    {
      ghost var before := log;
      for i := 0 to |submitted|
        invariant log == before + Approvals(bundleId, submitted)[..i]
      {
        log := log + [CustodianApproved(bundleId, submitted[i].custodianId)];
      }
    }

    method RecordReleases(bundleId: Id, wrapped: seq<MediumEntry>, at: int)
      modifies this`releases
      ensures releases == RecordAll(old(releases), bundleId, wrapped, at)
      ensures LastEntryWins(old(releases), releases, bundleId, wrapped, at)
    {
      ghost var before := releases;
      assert wrapped[..0] == [];
      for i := 0 to |wrapped|
        invariant releases == RecordAll(before, bundleId, wrapped[..i], at)
      {
        assert wrapped[..i + 1][..i] == wrapped[..i];
        releases := releases[(bundleId, wrapped[i].centreId) := ReleaseRow(at, wrapped[i].box)];
      }
      assert wrapped[..|wrapped|] == wrapped;
      RecordAllMeaning(before, bundleId, wrapped, at);
    }

    method Perform(req: Request) returns (r: Result<seq<MediumEntry>, AuthorityError>)
      requires Valid() && Enabled(Snapshot(), PerformRelease(req))
      modifies this
      ensures Valid() && Snapshot() == Apply(old(Snapshot()), PerformRelease(req))
      ensures r.Err? <==> DoPerformRelease(old(Snapshot()), req).1.Some?
      ensures r.Err? ==> DoPerformRelease(old(Snapshot()), req).1 == Some(r.error)
      ensures r.Ok? ==> Refusal(old(Snapshot()), req).None? && r.value == Outcome(old(Snapshot()), req)
      ensures r == Err(TooEarly) || r == Err(NotADate) <==>
        Scheduled(old(Snapshot()), req) && !Timely(old(Snapshot()), req)
      ensures r.Ok? <==> Releasable(old(Snapshot()), req)
      ensures r.Ok? ==> IsSent(old(Snapshot()), req, r.value)
    {
      hide Inv, Enabled, GoodCustodians, GoodRecipients, Approvals, RecordAll, Wrap, Combine, Custodians, Releasable,
        Timely, Scheduled, IsSent, Outcome, Reconstruction, Released;
      ApplyKeepsInv(Snapshot(), PerformRelease(req));
      OutcomeOfRelease(Snapshot(), req);
      if DoPerformRelease(Snapshot(), req).1.None? {
        WhatIsSent(Snapshot(), req);
      }
      if req.bundleId !in bundles {
        return Err(UnknownBundle);
      }
      var bundle := bundles[req.bundleId];
      if (req.pick, req.bundleId) !in schedules {
        return Err(NoSchedule);
      }
      var row := schedules[(req.pick, req.bundleId)];
      if !Verifies(row) {
        return Err(ScheduleTampered);
      }
      if req.now < row.releaseAt {
        log := log + [EarlyReleaseAttempt(req.bundleId, row.releaseAt, req.now, Custodians(req.shares))];
        return Err(if IsDate(row.releaseAt) then TooEarly else NotADate);
      }
      if |req.shares| < bundle.threshold {
        return Err(InsufficientShares);
      }
      var ok := CheckCustodians(req.shares);
      if !ok {
        return Err(ShareInvalid);
      }
      var ids := Recipients(req);
      ok := CheckRecipients(ids);
      if !ok {
        return Err(NoRecipients);
      }
      r := ReleaseTo(req, ids);
    }

    /** From the first logged approval on. */
    method ReleaseTo(req: Request, ids: seq<Id>) returns (r: Result<seq<MediumEntry>, AuthorityError>)
      requires Refusal(Snapshot(), req).None? && ids == Recipients(req)
      modifies this
      ensures Snapshot() == DoPerformRelease(old(Snapshot()), req).0
      ensures r.Err? <==> DoPerformRelease(old(Snapshot()), req).1.Some?
      ensures r.Err? ==> DoPerformRelease(old(Snapshot()), req).1 == Some(r.error)
      ensures r.Ok? ==> r.value == Outcome(old(Snapshot()), req)
    {
      hide GoodCustodians, Approvals, RecordAll, Wrap, Combine, Custodians;
      var bundle := bundles[req.bundleId];
      LogApprovals(req.bundleId, req.shares);
      var key := Combine(Blobs(req.shares));
      if key.None? {
        return Err(ReconstructionFailed);
      }
      if key.value != bundle.fingerprint {
        return Err(FingerprintMismatch);
      }
      if req.overBudget {
        return Err(BudgetExceeded);
      }
      var wrapped := Wrap(centres, ids, key.value);
      RecordReleases(req.bundleId, wrapped, req.now);
      log := log + [KekReleased(req.bundleId, bundle.fingerprint, bundle.threshold, Custodians(req.shares), ids,
                                schedules[(req.pick, req.bundleId)].releaseAt, req.now)];
      history := history + [Release(req.bundleId, bundle.fingerprint, req.now, req.asserted, req.shares, signed,
        custodians)];
      return Ok(wrapped);
    }
  }
}
