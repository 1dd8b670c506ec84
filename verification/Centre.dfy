/**
 A centre node: custody of ciphertext bundles, receipt of keys, check-in, generation, printing and close.

 Methods run one at a time and to completion, each with its log append.  Time, the printing back end
 and rendering are parameters: `render` is the deterministic assembly and rendering of a paper, which
 may fail, and `pdfHash` its hash.
 */
module Centre {
  import opened Wrappers
  import opened IdealCrypto

  datatype Token = Token(
    examId: Id, centreId: Id, seat: Id, registrationHash: Id, expiresAt: int, wellFormed: bool, authentic: bool)

  datatype Expected = Expected(
    bundleId: Id, examId: Id, kind: Kind, bundleHash: Envelope, fingerprint: Key, threshold: int)

  datatype BundleRow = BundleRow(examId: Id, kind: Kind, bundleHash: Envelope, fingerprint: Key, threshold: int,
      ciphertext: Envelope)
  datatype Checkin = Checkin(tokenHash: Id, seat: Id)
  datatype Paper = Paper(tokenHash: Id, paperHash: Id, printed: bool)

  datatype Event =
    | BundleReceived(bundleId: Id, bundleHash: Envelope)
    | KekReceived(bundleId: Id, fingerprint: Key)
    | CheckedIn(seat: Id, tokenHash: Id)
    | PaperGenerated(seat: Id, tokenHash: Id, paperHash: Id)
    | PrinterFailover
    | PaperPrinted(seat: Id, paperHash: Id)
    | ExamClosed(candidates: nat, printed: nat)

  datatype CentreError =
    | BundleHashMismatch | BundleUnknown | DuplicateBundle | KekNotHeld | KekFingerprintMismatch | MediumInvalid
    | AdmitRefused | DuplicateCheckin | SeatTaken | SeatMismatch | NotCheckedIn | AlreadyGenerated | NotGenerated
    | NotAnEnvelope | BoxDidNotOpen | KekAlreadyHeld | DecryptionFailed | RenderingFailed | PrintingFailed

  datatype Config = Config(
    examId: Id, centreId: Id, publicKey: nat, hasPrinter: bool,
    tokenHash: Token -> Id,
    render: (nat, Id, Id) -> Option<Id>,
    pdfHash: Id -> Id)

  /** The stored tables, the log, and in memory the keys and which bundles they are held for. */
  datatype State = State(
    bundles: map<Id, BundleRow>,
    checkins: map<Id, Id>,
    papers: map<Id, Paper>,
    keys: map<Id, Key>,
    held: set<Id>,
    log: seq<Event>)

  datatype Step =
    | ReceiveBundle(envelope: Envelope, expected: Expected)
    | ReceiveWrappedKek(bundleId: Id, box: Box)
    | ReceiveOfflineMedium(medium: Medium)
    | CheckIn(token: Token, now: int)
    | GeneratePaper(seat: Id)
    | PrintPaper(seat: Id, pdf: Id, failovers: nat, succeeds: bool)
    | CloseExam
    | Restart

  type Outcome = Result<State, CentreError>

  // ---------- what each method does ----------

  function DoReceiveBundle(c: Config, s: State, envelope: Envelope, e: Expected): Outcome {
    if envelope != e.bundleHash then Err(BundleHashMismatch)
    else if !envelope.Encrypted? then Err(NotAnEnvelope)
    else if e.bundleId in s.bundles then Err(DuplicateBundle)
    else Ok(s.(
      bundles := s.bundles[e.bundleId := BundleRow(e.examId, e.kind, e.bundleHash, e.fingerprint, e.threshold,
        envelope)],
      log := s.log + [BundleReceived(e.bundleId, e.bundleHash)]))
  }

  /** On a fingerprint mismatch the key that was just imported is discarded again. */
  function DoReceiveWrappedKek(c: Config, s: State, bundleId: Id, box: Box): Outcome {
    if bundleId !in s.bundles then Err(BundleUnknown)
    else
      var key := Open(box, c.publicKey);
      if key.None? then Err(BoxDidNotOpen)
      else if bundleId in s.keys then Err(KekAlreadyHeld)
      else if key.value != s.bundles[bundleId].fingerprint then Err(KekFingerprintMismatch)
      else Ok(s.(
        keys := s.keys[bundleId := key.value], held := s.held + {bundleId},
        log := s.log + [KekReceived(bundleId, key.value)]))
  }

  function EntryFor(entries: seq<MediumEntry>, centreId: Id): Option<Box> {
    if entries == [] then None
    else if entries[0].centreId == centreId then Some(entries[0].box)
    else EntryFor(entries[1..], centreId)
  }

  function DoReceiveOfflineMedium(c: Config, s: State, m: Medium): Outcome {
    if !m.authentic then Err(MediumInvalid)
    else
      var box := EntryFor(m.entries, c.centreId);
      if box.None? then Err(MediumInvalid) else DoReceiveWrappedKek(c, s, m.bundleId, box.value)
  }

  predicate Admits(c: Config, token: Token, now: int) {
    && token.wellFormed && token.authentic && token.examId == c.examId && token.centreId == c.centreId
    && now <= token.expiresAt
  }

  /** `checkins` maps a token hash to its seat; both are unique. */
  function DoCheckIn(c: Config, s: State, token: Token, now: int): Outcome {
    if !Admits(c, token, now) then Err(AdmitRefused)
    else
      var h := c.tokenHash(token);
      if h in s.checkins then Err(DuplicateCheckin)
      else if token.seat in s.checkins.Values then Err(SeatTaken)
      else Ok(s.(checkins := s.checkins[h := token.seat], log := s.log + [CheckedIn(token.seat, h)]))
  }

  /** The token checked in at a seat. */
  ghost predicate AtSeat(s: State, seat: Id, h: Id) {
    h in s.checkins && s.checkins[h] == seat
  }

  /** What the decryption, the assembly and the rendering for a seat give. */
  function Rendered(c: Config, s: State, seat: Id, h: Id): Result<Id, CentreError> {
    var b := PaperBundleId(c.examId);
    if b !in s.bundles then Err(BundleUnknown)
    else if b !in s.held then Err(KekNotHeld)
    else if b !in s.keys then Err(KekNotHeld)
    else
      var content := Decrypt(s.keys[b], s.bundles[b].ciphertext, AssociatedData(b, PaperKind, s.bundles[b].examId));
      if content.None? then Err(DecryptionFailed)
      else
        var pdf := c.render(content.value, seat, h);
        if pdf.None? then Err(RenderingFailed) else Ok(pdf.value)
  }

  ghost function DoGeneratePaper(c: Config, s: State, seat: Id): Outcome {
    if !exists h :: AtSeat(s, seat, h) then Err(NotCheckedIn)
    else if seat in s.papers then Err(AlreadyGenerated)
    else
      var h :| AtSeat(s, seat, h);
      var pdf := Rendered(c, s, seat, h);
      if pdf.Err? then Err(pdf.error)
      else Ok(s.(
        papers := s.papers[seat := Paper(h, c.pdfHash(pdf.value), false)],
        log := s.log + [PaperGenerated(seat, h, c.pdfHash(pdf.value))]))
  }

  function Failovers(n: nat): (es: seq<Event>)
    ensures |es| == n && forall i | 0 <= i < n :: es[i] == PrinterFailover
  {
    seq(n, _ => PrinterFailover)
  }

  /** Failovers are logged whether or not a printer takes the job in the end. */
  function DoPrintPaper(c: Config, s: State, seat: Id, pdf: Id, failovers: nat,
      succeeds: bool): (State, Option<CentreError>) {
    if seat !in s.papers || !c.hasPrinter then (s, Some(NotGenerated))
    else if c.pdfHash(pdf) != s.papers[seat].paperHash then (s, Some(SeatMismatch))
    else if !succeeds then (s.(log := s.log + Failovers(failovers)), Some(PrintingFailed))
    else (s.(
      papers := s.papers[seat := s.papers[seat].(printed := true)],
      log := s.log + Failovers(failovers) + [PaperPrinted(seat, s.papers[seat].paperHash)]), None)
  }

  function PrintedCount(papers: map<Id, Paper>): nat {
    |set seat | seat in papers && papers[seat].printed|
  }

  /** The held keys are dropped after the close is logged. */
  function DoCloseExam(c: Config, s: State): State {
    s.(log := s.log + [ExamClosed(|s.checkins|, PrintedCount(s.papers))], keys := s.keys - s.held, held := {})
  }

  /** A new process over the same tables and log: keys were only in memory. */
  function DoRestart(s: State): State {
    s.(keys := map[], held := {})
  }

  function After(s: State, r: Outcome): State {
    if r.Ok? then r.value else s
  }

  ghost function Apply(c: Config, s: State, step: Step): State {
    match step
    case ReceiveBundle(envelope, e) => After(s, DoReceiveBundle(c, s, envelope, e))
    case ReceiveWrappedKek(b, box) => After(s, DoReceiveWrappedKek(c, s, b, box))
    case ReceiveOfflineMedium(m) => After(s, DoReceiveOfflineMedium(c, s, m))
    case CheckIn(token, now) => After(s, DoCheckIn(c, s, token, now))
    case GeneratePaper(seat) => After(s, DoGeneratePaper(c, s, seat))
    case PrintPaper(seat, pdf, failovers, succeeds) => DoPrintPaper(c, s, seat, pdf, failovers, succeeds).0
    case CloseExam => DoCloseExam(c, s)
    case Restart => DoRestart(s)
  }

  const EMPTY := State(map[], map[], map[], map[], {}, [])

  ghost function Run(c: Config, s: State, steps: seq<Step>): State
    decreases |steps|
  {
    if steps == [] then s else Run(c, Apply(c, s, steps[0]), steps[1..])
  }

  // ---------- what every run keeps ----------

  /** A key for the bundle was received before position i and the exam has not been closed since. */
  ghost predicate KeyInForce(log: seq<Event>, i: nat, bundleId: Id)
    requires i <= |log|
  {
    exists j | 0 <= j < i ::
      log[j].KekReceived? && log[j].bundleId == bundleId && forall k | j < k < i :: !log[k].ExamClosed?
  }

  /** What holds of entry i, looking only at the entries before it. */
  ghost predicate GoodEntry(c: Config, log: seq<Event>, i: nat)
    requires i < |log|
  {
    match log[i]
    case CheckedIn(seat, h) =>
      forall j | 0 <= j < i && log[j].CheckedIn? :: log[j].seat != seat && log[j].tokenHash != h
    case PaperGenerated(seat, h, _) =>
      && (exists j :: 0 <= j < i && log[j] == CheckedIn(seat, h))
      && KeyInForce(log, i, PaperBundleId(c.examId))
      && forall j | 0 <= j < i && log[j].PaperGenerated? :: log[j].seat != seat && log[j].tokenHash != h
    case PaperPrinted(seat, hash) => exists j, h :: 0 <= j < i && log[j] == PaperGenerated(seat, h, hash)
    case _ => true
  }

  ghost predicate GoodLog(c: Config, log: seq<Event>) {
    forall i: nat | i < |log| :: GoodEntry(c, log, i)
  }

  /** The tables say what the log says. */
  ghost predicate Agrees(s: State) {
    && (forall h :: h in s.checkins ==> CheckedIn(s.checkins[h], h) in s.log)
    && (forall i | 0 <= i < |s.log| && s.log[i].CheckedIn? :: AtSeat(s, s.log[i].seat, s.log[i].tokenHash))
    && (forall seat :: seat in s.papers ==>
      PaperGenerated(seat, s.papers[seat].tokenHash, s.papers[seat].paperHash) in s.log)
    && (forall i | 0 <= i < |s.log| && s.log[i].PaperGenerated? :: HasPaper(s, s.log[i].seat, s.log[i].tokenHash))
    && (forall h, k :: h in s.checkins && k in s.checkins && s.checkins[h] == s.checkins[k] ==> h == k)
  }

  ghost predicate HasPaper(s: State, seat: Id, h: Id) {
    seat in s.papers && s.papers[seat].tokenHash == h && AtSeat(s, seat, h)
  }

  ghost predicate KeysInForce(s: State) {
    && s.keys.Keys == s.held
    && forall b | b in s.held ::
      KeyInForce(s.log, |s.log|, b) && b in s.bundles && s.keys[b] == s.bundles[b].fingerprint
  }

  ghost predicate Inv(c: Config, s: State) {
    GoodLog(c, s.log) && Agrees(s) && KeysInForce(s)
  }

  // ---------- each step keeps it ----------

  lemma ForceStays(log: seq<Event>, e: Event, i: nat, b: Id)
    requires i <= |log|
    ensures KeyInForce(log + [e], i, b) <==> KeyInForce(log, i, b)
  {
    var more := log + [e];
    assert forall j | 0 <= j < i :: more[j] == log[j];
    if KeyInForce(more, i, b) {
      var j :| 0 <= j < i && more[j].KekReceived? && more[j].bundleId == b
        && forall k | j < k < i :: !more[k].ExamClosed?;
      assert log[j].KekReceived?;
    }
    if KeyInForce(log, i, b) {
      var j :| 0 <= j < i && log[j].KekReceived? && log[j].bundleId == b && forall k | j < k < i :: !log[k].ExamClosed?;
      assert more[j].KekReceived?;
    }
  }

  lemma ForceContinues(log: seq<Event>, e: Event, b: Id)
    requires KeyInForce(log, |log|, b) && !e.ExamClosed?
    ensures KeyInForce(log + [e], |log| + 1, b)
  {
    var more := log + [e];
    var j :| 0 <= j < |log| && log[j].KekReceived? && log[j].bundleId == b
      && forall k | j < k < |log| :: !log[k].ExamClosed?;
    assert more[j].KekReceived? && more[j].bundleId == b;
  }

  lemma EntryStays(c: Config, log: seq<Event>, e: Event, i: nat)
    requires i < |log|
    ensures GoodEntry(c, log + [e], i) <==> GoodEntry(c, log, i)
  {
    hide KeyInForce;
    var more := log + [e];
    assert forall j | 0 <= j <= i :: more[j] == log[j];
    ForceStays(log, e, i, PaperBundleId(c.examId));
    match log[i]
    case PaperPrinted(seat, hash) =>
      assert forall j, h :: 0 <= j < i && more[j] == PaperGenerated(seat, h, hash) <==>
        0 <= j < i && log[j] == PaperGenerated(seat, h, hash);
    case _ =>
  }

  lemma LogGrows(c: Config, log: seq<Event>, e: Event)
    requires GoodLog(c, log) && GoodEntry(c, log + [e], |log|)
    ensures GoodLog(c, log + [e])
  {
    hide GoodEntry;
    forall i: nat | i < |log + [e]| ensures GoodEntry(c, log + [e], i) {
      if i < |log| {
        EntryStays(c, log, e, i);
      }
    }
  }

  predicate IsNeutral(e: Event) {
    e.BundleReceived? || e.KekReceived? || e.PrinterFailover? || e.ExamClosed?
  }

  lemma NeutralKeeps(c: Config, s: State, e: Event)
    requires GoodLog(c, s.log) && Agrees(s) && IsNeutral(e)
    ensures GoodLog(c, s.log + [e]) && Agrees(s.(log := s.log + [e]))
  {
    LogGrows(c, s.log, e);
    NeutralAgrees(s, e);
  }

  lemma NeutralAgrees(s: State, e: Event)
    requires Agrees(s) && IsNeutral(e)
    ensures Agrees(s.(log := s.log + [e]))
  {
    var t := s.(log := s.log + [e]);
    assert forall x :: x in t.log <==> x in s.log || x == e;
    forall i | 0 <= i < |t.log| && t.log[i].CheckedIn? ensures AtSeat(t, t.log[i].seat, t.log[i].tokenHash) {
      assert t.log[i] == s.log[i] && AtSeat(s, s.log[i].seat, s.log[i].tokenHash);
    }
    forall i | 0 <= i < |t.log| && t.log[i].PaperGenerated? ensures HasPaper(t, t.log[i].seat, t.log[i].tokenHash) {
      assert t.log[i] == s.log[i] && HasPaper(s, s.log[i].seat, s.log[i].tokenHash);
    }
  }

  lemma KeysContinue(s: State, e: Event)
    requires KeysInForce(s) && !e.ExamClosed?
    ensures KeysInForce(s.(log := s.log + [e]))
  {
    hide KeyInForce;
    var t := s.(log := s.log + [e]);
    forall b | b in t.held ensures KeyInForce(t.log, |t.log|, b) && b in t.bundles
      && t.keys[b] == t.bundles[b].fingerprint {
      ForceContinues(s.log, e, b);
    }
  }

  lemma KeepReceiveBundle(c: Config, s: State, envelope: Envelope, e: Expected)
    requires Inv(c, s)
    ensures Inv(c, Apply(c, s, ReceiveBundle(envelope, e)))
  {
    hide GoodLog, Agrees, KeyInForce;
    var r := DoReceiveBundle(c, s, envelope, e);
    if r.Ok? {
      var event := BundleReceived(e.bundleId, e.bundleHash);
      NeutralKeeps(c, s, event);
      KeysContinue(s, event);
      TablesOnly(s.(log := s.log + [event]), r.value);
    }
  }

  /** What Agrees says does not depend on bundles and keys. */
  lemma TablesOnly(s: State, t: State)
    requires Agrees(s) && t.checkins == s.checkins && t.papers == s.papers && t.log == s.log
    ensures Agrees(t)
  {}

  lemma KeepReceiveWrappedKek(c: Config, s: State, b: Id, box: Box)
    requires Inv(c, s)
    ensures Inv(c, Apply(c, s, ReceiveWrappedKek(b, box)))
  {
    hide GoodLog, Agrees, KeyInForce;
    var r := DoReceiveWrappedKek(c, s, b, box);
    if r.Ok? {
      var event := KekReceived(b, r.value.keys[b]);
      NeutralKeeps(c, s, event);
      KeysContinue(s, event);
      TablesOnly(s.(log := s.log + [event]), r.value);
      NewlyInForce(s.log, event);
    }
  }

  lemma NewlyInForce(log: seq<Event>, e: Event)
    requires e.KekReceived?
    ensures KeyInForce(log + [e], |log| + 1, e.bundleId)
  {
    assert (log + [e])[|log|] == e;
  }

  lemma KeepReceiveOfflineMedium(c: Config, s: State, m: Medium)
    requires Inv(c, s)
    ensures Inv(c, Apply(c, s, ReceiveOfflineMedium(m)))
  {
    hide Inv, DoReceiveWrappedKek;
    var box := EntryFor(m.entries, c.centreId);
    if m.authentic && box.Some? {
      KeepReceiveWrappedKek(c, s, m.bundleId, box.value);
    }
  }

  lemma KeepCheckIn(c: Config, s: State, token: Token, now: int)
    requires Inv(c, s)
    ensures Inv(c, Apply(c, s, CheckIn(token, now)))
  {
    hide KeyInForce, GoodLog;
    var r := DoCheckIn(c, s, token, now);
    if r.Ok? {
      var h := c.tokenHash(token);
      var e := CheckedIn(token.seat, h);
      CheckInIsNew(c, s, token.seat, h);
      KeysContinue(s, e);
      CheckInAgrees(s, token.seat, h);
    }
  }

  lemma CheckInIsNew(c: Config, s: State, seat: Id, h: Id)
    requires GoodLog(c, s.log) && Agrees(s) && h !in s.checkins && seat !in s.checkins.Values
    ensures GoodLog(c, s.log + [CheckedIn(seat, h)])
  {
    hide GoodLog, KeyInForce;
    var e := CheckedIn(seat, h);
    var more := s.log + [e];
    forall j | 0 <= j < |s.log| && more[j].CheckedIn? ensures more[j].seat != seat && more[j].tokenHash != h {
      assert more[j] == s.log[j];
      assert AtSeat(s, s.log[j].seat, s.log[j].tokenHash);
      assert s.log[j].seat in s.checkins.Values;
    }
    LogGrows(c, s.log, e);
  }

  lemma CheckInAgrees(s: State, seat: Id, h: Id)
    requires Agrees(s) && h !in s.checkins && seat !in s.checkins.Values
    ensures Agrees(s.(checkins := s.checkins[h := seat], log := s.log + [CheckedIn(seat, h)]))
  {
    var t := s.(checkins := s.checkins[h := seat], log := s.log + [CheckedIn(seat, h)]);
    assert forall x :: x in t.log <==> x in s.log || x == CheckedIn(seat, h);
    forall i | 0 <= i < |t.log| && t.log[i].CheckedIn? ensures AtSeat(t, t.log[i].seat, t.log[i].tokenHash) {
      assert i < |s.log| ==> t.log[i] == s.log[i] && AtSeat(s, s.log[i].seat, s.log[i].tokenHash);
    }
    forall i | 0 <= i < |t.log| && t.log[i].PaperGenerated? ensures HasPaper(t, t.log[i].seat, t.log[i].tokenHash) {
      assert t.log[i] == s.log[i] && HasPaper(s, s.log[i].seat, s.log[i].tokenHash);
    }
    forall x, y | x in t.checkins && y in t.checkins && t.checkins[x] == t.checkins[y] ensures x == y {
      assert x != h ==> s.checkins[x] in s.checkins.Values;
      assert y != h ==> s.checkins[y] in s.checkins.Values;
    }
  }

  lemma KeepGeneratePaper(c: Config, s: State, seat: Id)
    requires Inv(c, s)
    ensures Inv(c, Apply(c, s, GeneratePaper(seat)))
  {
    hide KeyInForce, GoodLog, Agrees, Rendered;
    var r := DoGeneratePaper(c, s, seat);
    if r.Ok? {
      var h, pdf := GenerationOf(c, s, seat);
      var hash := c.pdfHash(pdf);
      var e := PaperGenerated(seat, h, hash);
      GenerationIsNew(c, s, seat, h, hash);
      KeysContinue(s, e);
      GenerationAgrees(s, seat, h, hash);
    }
  }

  /** A successful generation: its check-in, its rendering and its effect. */
  lemma GenerationOf(c: Config, s: State, seat: Id) returns (h: Id, pdf: Id)
    requires DoGeneratePaper(c, s, seat).Ok?
    ensures AtSeat(s, seat, h) && seat !in s.papers && Rendered(c, s, seat, h) == Ok(pdf)
    ensures PaperBundleId(c.examId) in s.held
    ensures DoGeneratePaper(c, s, seat).value ==
            s.(papers := s.papers[seat := Paper(h, c.pdfHash(pdf), false)],
              log := s.log + [PaperGenerated(seat, h, c.pdfHash(pdf))])
  {
    hide Rendered;
    var after := DoGeneratePaper(c, s, seat).value;
    assert after.log[|s.log|].PaperGenerated?;
    h := after.log[|s.log|].tokenHash;
    pdf := Rendered(c, s, seat, h).value;
    RenderedMeans(c, s, seat, h);
  }

  /** A paper comes from decrypting the stored envelope with the key held for it. */
  lemma RenderedMeans(c: Config, s: State, seat: Id, h: Id)
    requires Rendered(c, s, seat, h).Ok?
    ensures var b := PaperBundleId(c.examId);
      && b in s.bundles && b in s.held && b in s.keys
      && s.bundles[b].ciphertext.Encrypted? && s.bundles[b].ciphertext.key == s.keys[b]
      && s.bundles[b].ciphertext.ad == AssociatedData(b, PaperKind, s.bundles[b].examId)
  {}

  lemma GenerationIsNew(c: Config, s: State, seat: Id, h: Id, hash: Id)
    requires Inv(c, s) && AtSeat(s, seat, h) && seat !in s.papers && PaperBundleId(c.examId) in s.held
    ensures GoodLog(c, s.log + [PaperGenerated(seat, h, hash)])
  {
    hide GoodLog, KeyInForce;
    var e := PaperGenerated(seat, h, hash);
    var more := s.log + [e];
    assert CheckedIn(seat, h) in s.log;
    var i :| 0 <= i < |s.log| && s.log[i] == CheckedIn(seat, h);
    assert more[i] == CheckedIn(seat, h);
    ForceStays(s.log, e, |s.log|, PaperBundleId(c.examId));
    forall j | 0 <= j < |s.log| && more[j].PaperGenerated? ensures more[j].seat != seat && more[j].tokenHash != h {
      assert more[j] == s.log[j];
      assert HasPaper(s, s.log[j].seat, s.log[j].tokenHash);
    }
    LogGrows(c, s.log, e);
  }

  lemma GenerationAgrees(s: State, seat: Id, h: Id, hash: Id)
    requires Agrees(s) && AtSeat(s, seat, h) && seat !in s.papers
    ensures Agrees(s.(papers := s.papers[seat := Paper(h, hash, false)],
      log := s.log + [PaperGenerated(seat, h, hash)]))
  {
    var e := PaperGenerated(seat, h, hash);
    var t := s.(papers := s.papers[seat := Paper(h, hash, false)], log := s.log + [e]);
    assert forall x :: x in t.log <==> x in s.log || x == e;
    forall i | 0 <= i < |t.log| && t.log[i].CheckedIn? ensures AtSeat(t, t.log[i].seat, t.log[i].tokenHash) {
      assert t.log[i] == s.log[i] && AtSeat(s, s.log[i].seat, s.log[i].tokenHash);
    }
    forall i | 0 <= i < |t.log| && t.log[i].PaperGenerated? ensures HasPaper(t, t.log[i].seat, t.log[i].tokenHash) {
      assert i < |s.log| ==> t.log[i] == s.log[i] && HasPaper(s, s.log[i].seat, s.log[i].tokenHash);
    }
  }

  lemma {:induction false} FailoversKeep(c: Config, s: State, n: nat)
    requires Inv(c, s)
    ensures Inv(c, s.(log := s.log + Failovers(n)))
  {
    hide GoodLog, Agrees, KeysInForce;
    if n == 0 {
      assert s.log + Failovers(0) == s.log;
    } else {
      FailoversKeep(c, s, n - 1);
      var t := s.(log := s.log + Failovers(n - 1));
      assert t.log + [PrinterFailover] == s.log + Failovers(n);
      NeutralKeeps(c, t, PrinterFailover);
      KeysContinue(t, PrinterFailover);
    }
  }

  lemma KeepPrintPaper(c: Config, s: State, seat: Id, pdf: Id, failovers: nat, succeeds: bool)
    requires Inv(c, s)
    ensures Inv(c, Apply(c, s, PrintPaper(seat, pdf, failovers, succeeds)))
  {
    hide GoodLog, Agrees, KeysInForce, Failovers;
    FailoversKeep(c, s, failovers);
    var t := s.(log := s.log + Failovers(failovers));
    if seat in s.papers && succeeds {
      PrintKeeps(c, t, seat);
    }
  }

  lemma PrintKeeps(c: Config, s: State, seat: Id)
    requires Inv(c, s) && seat in s.papers
    ensures var p := s.papers[seat];
      Inv(c, s.(papers := s.papers[seat := p.(printed := true)], log := s.log + [PaperPrinted(seat, p.paperHash)]))
  {
    hide GoodLog, KeyInForce;
    var p := s.papers[seat];
    var e := PaperPrinted(seat, p.paperHash);
    assert PaperGenerated(seat, p.tokenHash, p.paperHash) in s.log;
    var j :| 0 <= j < |s.log| && s.log[j] == PaperGenerated(seat, p.tokenHash, p.paperHash);
    assert (s.log + [e])[j] == PaperGenerated(seat, p.tokenHash, p.paperHash);
    LogGrows(c, s.log, e);
    KeysContinue(s, e);
    PrintAgrees(s, seat);
  }

  lemma PrintAgrees(s: State, seat: Id)
    requires Agrees(s) && seat in s.papers
    ensures var p := s.papers[seat];
      Agrees(s.(papers := s.papers[seat := p.(printed := true)], log := s.log + [PaperPrinted(seat, p.paperHash)]))
  {
    var p := s.papers[seat];
    var e := PaperPrinted(seat, p.paperHash);
    var t := s.(papers := s.papers[seat := p.(printed := true)], log := s.log + [e]);
    assert forall x :: x in t.log <==> x in s.log || x == e;
    forall i | 0 <= i < |t.log| && t.log[i].CheckedIn? ensures AtSeat(t, t.log[i].seat, t.log[i].tokenHash) {
      assert t.log[i] == s.log[i] && AtSeat(s, s.log[i].seat, s.log[i].tokenHash);
    }
    forall i | 0 <= i < |t.log| && t.log[i].PaperGenerated? ensures HasPaper(t, t.log[i].seat, t.log[i].tokenHash) {
      assert t.log[i] == s.log[i] && HasPaper(s, s.log[i].seat, s.log[i].tokenHash);
    }
  }

  lemma KeepCloseExam(c: Config, s: State)
    requires Inv(c, s)
    ensures Inv(c, Apply(c, s, CloseExam))
  {
    hide GoodLog, Agrees, KeyInForce, PrintedCount;
    var e := ExamClosed(|s.checkins|, PrintedCount(s.papers));
    NeutralKeeps(c, s, e);
    TablesOnly(s.(log := s.log + [e]), DoCloseExam(c, s));
  }

  lemma KeepRestart(c: Config, s: State)
    requires Inv(c, s)
    ensures Inv(c, Apply(c, s, Restart))
  {
    hide GoodLog, Agrees, KeyInForce;
    TablesOnly(s, DoRestart(s));
  }

  lemma ApplyKeepsInv(c: Config, s: State, step: Step)
    requires Inv(c, s)
    ensures Inv(c, Apply(c, s, step))
  {
    hide Inv, Apply;
    match step
    case ReceiveBundle(envelope, e) => KeepReceiveBundle(c, s, envelope, e);
    case ReceiveWrappedKek(b, box) => KeepReceiveWrappedKek(c, s, b, box);
    case ReceiveOfflineMedium(m) => KeepReceiveOfflineMedium(c, s, m);
    case CheckIn(token, now) => KeepCheckIn(c, s, token, now);
    case GeneratePaper(seat) => KeepGeneratePaper(c, s, seat);
    case PrintPaper(seat, pdf, failovers, succeeds) => KeepPrintPaper(c, s, seat, pdf, failovers, succeeds);
    case CloseExam => KeepCloseExam(c, s);
    case Restart => KeepRestart(c, s);
  }

  lemma {:induction false} RunKeepsInv(c: Config, s: State, steps: seq<Step>)
    requires Inv(c, s)
    ensures Inv(c, Run(c, s, steps))
    decreases |steps|
  {
    hide Inv, Apply;
    if steps != [] {
      ApplyKeepsInv(c, s, steps[0]);
      RunKeepsInv(c, Apply(c, s, steps[0]), steps[1..]);
    }
  }

  lemma ReachableInv(c: Config, steps: seq<Step>)
    ensures Inv(c, Run(c, EMPTY, steps))
  {
    hide Apply;
    RunKeepsInv(c, EMPTY, steps);
  }

  /** In every run every log entry is good: seats and tokens check in once and get one paper, each paper
      follows its check-in and a key still in force, each printed hash was generated for that seat.
      Tables and keys agree with the log. */
  lemma EveryRunIsGood(c: Config, steps: seq<Step>)
    ensures var s := Run(c, EMPTY, steps); GoodLog(c, s.log) && Agrees(s) && KeysInForce(s)
  {
    hide Run, GoodLog, Agrees, KeysInForce;
    ReachableInv(c, steps);
  }

  /** The same at a glance, for one seat. */
  lemma OnePaperPerSeat(c: Config, steps: seq<Step>, i: nat, j: nat)
    requires var log := Run(c, EMPTY, steps).log;
      i < |log| && j < |log| && log[i].PaperGenerated? && log[j].PaperGenerated?
    requires var log := Run(c, EMPTY, steps).log; log[i].seat == log[j].seat || log[i].tokenHash == log[j].tokenHash
    ensures i == j
  {
    hide Run, Agrees, KeysInForce;
    EveryRunIsGood(c, steps);
    var log := Run(c, EMPTY, steps).log;
    assert GoodEntry(c, log, i) && GoodEntry(c, log, j);
  }

  /** A new process has the tables and the log, and no key. */
  lemma RestartForgetsKeys(c: Config, s: State)
    ensures var t := Apply(c, s, Restart);
      && t.keys == map[] && t.held == {} && t.bundles == s.bundles && t.checkins == s.checkins && t.papers == s.papers
      && t.log == s.log
  {}

  // ---------- where log entries come from ----------

  /** The token is one that the authority signed for this exam and centre, and it has not expired. */
  predicate GoodToken(c: Config, token: Token, now: int) {
    && token.wellFormed && token.authentic && token.examId == c.examId && token.centreId == c.centreId
    && !(now > token.expiresAt)
  }

  predicate IsForUs(c: Config, box: Box) {
    box.Box? && box.publicKey == c.publicKey
  }

  /** The box is for this centre's key and holds `key`. */
  predicate OpensTo(c: Config, box: Box, key: Key) {
    box.Box? && box.publicKey == c.publicKey && box.key == key
  }

  /** Entry k of the medium is the first for this centre. */
  predicate FirstFor(c: Config, m: Medium, k: nat) {
    k < |m.entries| && m.entries[k].centreId == c.centreId
    && forall j | 0 <= j < k :: m.entries[j].centreId != c.centreId
  }

  /** What a paper for a seat is made of. */
  ghost predicate MadeFor(c: Config, s: State, seat: Id, h: Id, pdf: Id) {
    var b := PaperBundleId(c.examId);
    && h in s.checkins && s.checkins[h] == seat && b in s.bundles && b in s.held && b in s.keys
    && var e := s.bundles[b].ciphertext;
    && e.Encrypted? && e.key == s.keys[b] && e.ad == AssociatedData(b, PaperKind, s.bundles[b].examId)
    && c.render(e.content, seat, h) == Some(pdf)
  }

  /** The step, in that state, is a good reason for the entry. */
  ghost predicate Explains(c: Config, s: State, step: Step, e: Event) {
    match e
    case BundleReceived(id, hash) =>
      && step.ReceiveBundle? && step.expected.bundleId == id && step.expected.bundleHash == hash
      && step.envelope == hash && step.envelope.Encrypted? && id !in s.bundles
    case KekReceived(id, key) =>
      && id in s.bundles && key == s.bundles[id].fingerprint && id !in s.keys
      && (|| (step.ReceiveWrappedKek? && step.bundleId == id && OpensTo(c, step.box, key))
          || (step.ReceiveOfflineMedium? && step.medium.authentic && step.medium.bundleId == id
              && exists k: nat :: FirstFor(c, step.medium, k) && OpensTo(c, step.medium.entries[k].box, key)))
    case CheckedIn(seat, h) =>
      && step.CheckIn? && GoodToken(c, step.token, step.now) && seat == step.token.seat && h == c.tokenHash(step.token)
      && h !in s.checkins && seat !in s.checkins.Values
    case PaperGenerated(seat, h, hash) =>
      && step.GeneratePaper? && step.seat == seat && seat !in s.papers
      && exists pdf :: MadeFor(c, s, seat, h, pdf) && hash == c.pdfHash(pdf)
    case PrinterFailover => step.PrintPaper? && step.seat in s.papers
    case PaperPrinted(seat, hash) =>
      && step.PrintPaper? && step.seat == seat && step.succeeds && c.hasPrinter && hash == c.pdfHash(step.pdf)
      && seat in s.papers && s.papers[seat].paperHash == hash
    case ExamClosed(candidates, printed) =>
      && step.CloseExam? && candidates == |s.checkins|
      && printed == |set seat | seat in s.papers && s.papers[seat].printed|
  }

  lemma {:induction false} EntryForMeaning(entries: seq<MediumEntry>, centreId: Id)
    ensures EntryFor(entries, centreId).None? <==> forall i | 0 <= i < |entries| :: entries[i].centreId != centreId
    ensures EntryFor(entries, centreId).Some? ==> exists i ::
      0 <= i < |entries| && entries[i].centreId == centreId && entries[i].box == EntryFor(entries, centreId).value
      && forall j | 0 <= j < i :: entries[j].centreId != centreId
  {
    if entries != [] && entries[0].centreId != centreId {
      EntryForMeaning(entries[1..], centreId);
      var rest := EntryFor(entries[1..], centreId);
      if rest.Some? {
        var i :| 0 <= i < |entries[1..]| && entries[1..][i].centreId == centreId && entries[1..][i].box == rest.value
          && forall j | 0 <= j < i :: entries[1..][j].centreId != centreId;
        assert entries[i + 1].box == rest.value;
        assert forall j | 0 < j < i + 1 :: entries[j] == entries[1..][j - 1];
      } else {
        assert forall j | 0 < j < |entries| :: entries[j] == entries[1..][j - 1];
      }
    }
  }

  lemma FirstEntry(c: Config, m: Medium) returns (k: nat)
    requires EntryFor(m.entries, c.centreId).Some?
    ensures FirstFor(c, m, k) && m.entries[k].box == EntryFor(m.entries, c.centreId).value
  {
    EntryForMeaning(m.entries, c.centreId);
    k :| 0 <= k < |m.entries| && m.entries[k].centreId == c.centreId
      && m.entries[k].box == EntryFor(m.entries, c.centreId).value
      && forall j | 0 <= j < k :: m.entries[j].centreId != c.centreId;
  }

  /** A step only adds entries, and it explains each of them. */
  lemma StepExplains(c: Config, s: State, step: Step, i: nat)
    ensures var t := Apply(c, s, step); s.log <= t.log && (|s.log| <= i < |t.log| ==> Explains(c, s, step, t.log[i]))
  {
    hide Explains, DoReceiveBundle, DoReceiveWrappedKek, DoReceiveOfflineMedium, DoCheckIn, DoGeneratePaper,
      DoPrintPaper, DoCloseExam;
    match step
    case ReceiveBundle(envelope, e) => ReceiveBundleExplains(c, s, envelope, e);
    case ReceiveWrappedKek(b, box) => ReceiveKekExplains(c, s, b, box);
    case ReceiveOfflineMedium(m) => ReceiveMediumExplains(c, s, m);
    case CheckIn(token, now) => CheckInExplains(c, s, token, now);
    case GeneratePaper(seat) => GenerateExplains(c, s, seat);
    case PrintPaper(seat, pdf, failovers, succeeds) => PrintExplains(c, s, seat, pdf, failovers, succeeds, i);
    case CloseExam => CloseExplains(c, s);
    case Restart =>
  }

  /** The outcome adds one entry at most, explained by the step. */
  ghost predicate OneExplained(c: Config, s: State, step: Step, t: State) {
    t.log == s.log || (|t.log| == |s.log| + 1 && s.log <= t.log && Explains(c, s, step, t.log[|s.log|]))
  }

  lemma ReceiveBundleExplains(c: Config, s: State, envelope: Envelope, e: Expected)
    ensures OneExplained(c, s, ReceiveBundle(envelope, e), After(s, DoReceiveBundle(c, s, envelope, e)))
  {}

  lemma ReceiveKekExplains(c: Config, s: State, b: Id, box: Box)
    ensures OneExplained(c, s, ReceiveWrappedKek(b, box), After(s, DoReceiveWrappedKek(c, s, b, box)))
  {}

  lemma ReceiveMediumExplains(c: Config, s: State, m: Medium)
    ensures OneExplained(c, s, ReceiveOfflineMedium(m), After(s, DoReceiveOfflineMedium(c, s, m)))
  {
    if m.authentic && EntryFor(m.entries, c.centreId).Some? {
      var k := FirstEntry(c, m);
      ReceiveKekExplains(c, s, m.bundleId, m.entries[k].box);
    }
  }

  lemma CheckInExplains(c: Config, s: State, token: Token, now: int)
    ensures OneExplained(c, s, CheckIn(token, now), After(s, DoCheckIn(c, s, token, now)))
  {}

  lemma GenerateExplains(c: Config, s: State, seat: Id)
    ensures OneExplained(c, s, GeneratePaper(seat), After(s, DoGeneratePaper(c, s, seat)))
  {
    hide DoGeneratePaper, Rendered;
    if DoGeneratePaper(c, s, seat).Ok? {
      var h, pdf := GenerationOf(c, s, seat);
      RenderedFrom(c, s, seat, h, pdf);
    }
  }

  lemma RenderedFrom(c: Config, s: State, seat: Id, h: Id, pdf: Id)
    requires AtSeat(s, seat, h)
    ensures Rendered(c, s, seat, h) == Ok(pdf) <==> MadeFor(c, s, seat, h, pdf)
  {}

  lemma PrintExplains(c: Config, s: State, seat: Id, pdf: Id, failovers: nat, succeeds: bool, i: nat)
    ensures var t := DoPrintPaper(c, s, seat, pdf, failovers, succeeds).0;
      s.log <= t.log && (|s.log| <= i < |t.log| ==>
        Explains(c, s, PrintPaper(seat, pdf, failovers, succeeds), t.log[i]))
  {
    hide Failovers;
  }

  lemma CloseExplains(c: Config, s: State)
    ensures OneExplained(c, s, CloseExam, DoCloseExam(c, s))
  {}

  lemma {:induction false} RunAppend(c: Config, s: State, a: seq<Step>, b: seq<Step>)
    ensures Run(c, s, a + b) == Run(c, Run(c, s, a), b)
    decreases |a|
  {
    hide Apply;
    if a == [] {
      assert a + b == b;
    } else {
      assert (a + b)[0] == a[0] && (a + b)[1..] == a[1..] + b;
      RunAppend(c, Apply(c, s, a[0]), a[1..], b);
    }
  }

  lemma RunOne(c: Config, s: State, steps: seq<Step>, step: Step)
    ensures Run(c, s, steps + [step]) == Apply(c, Run(c, s, steps), step)
  {
    hide Apply;
    RunAppend(c, s, steps, [step]);
    assert [step][1..] == [];
  }

  /** In every run, every entry of the log is explained by a step in the state in which that step was taken:
      only good tokens are checked in, only this centre's keys are received, papers are rendered from the
      decrypted bundle for that seat and token, and only the bytes with the logged hash are printed. */
  lemma {:induction false} EveryEntryIsExplained(c: Config, steps: seq<Step>, i: nat)
    requires i < |Run(c, EMPTY, steps).log|
    ensures exists j ::
      0 <= j < |steps| && Explains(c, Run(c, EMPTY, steps[..j]), steps[j], Run(c, EMPTY, steps).log[i])
    decreases |steps|
  {
    hide Run, Apply, Explains;
    if steps == [] {
      NothingLogged(c);
    } else {
      var n := |steps| - 1;
      var init := steps[..n];
      var s := Run(c, EMPTY, init);
      assert steps == init + [steps[n]];
      RunOne(c, EMPTY, init, steps[n]);
      StepExplains(c, s, steps[n], i);
      if i < |s.log| {
        EveryEntryIsExplained(c, init, i);
        var j :| 0 <= j < |init| && Explains(c, Run(c, EMPTY, init[..j]), init[j], s.log[i]);
        assert steps[..j] == init[..j] && steps[j] == init[j];
        assert Explains(c, Run(c, EMPTY, steps[..j]), steps[j], Run(c, EMPTY, steps).log[i]);
      } else {
        assert Explains(c, Run(c, EMPTY, steps[..n]), steps[n], Run(c, EMPTY, steps).log[i]);
      }
    }
  }

  lemma NothingLogged(c: Config)
    ensures Run(c, EMPTY, []).log == []
  {}

  // ---------- the node ----------

  /** The running process; its `Snapshot()` is what the steps above transform. */
  class CentreNode {
    const config: Config
    var bundles: map<Id, BundleRow>
    var checkins: map<Id, Id>
    var papers: map<Id, Paper>
    var keys: map<Id, Key>
    var held: set<Id>
    var log: seq<Event>

    function Snapshot(): State
      reads this
    {
      State(bundles, checkins, papers, keys, held, log)
    }

    ghost predicate Valid()
      reads this
    {
      Inv(config, Snapshot())
    }

    constructor (config: Config)
      ensures Valid() && this.config == config && Snapshot() == EMPTY
    {
      this.config := config;
      bundles, checkins, papers, keys, held, log := map[], map[], map[], map[], {}, [];
    }

    method Receive(envelope: Envelope, e: Expected) returns (r: Option<CentreError>)
      requires Valid()
      modifies this
      ensures Valid() && Snapshot() == Apply(config, old(Snapshot()), ReceiveBundle(envelope, e))
      ensures r == ErrorIn(DoReceiveBundle(config, old(Snapshot()), envelope, e))
      ensures r == Some(BundleHashMismatch) <==> envelope != e.bundleHash
      ensures r == Some(NotAnEnvelope) <==> envelope == e.bundleHash && !envelope.Encrypted?
      ensures r == Some(DuplicateBundle) <==>
        envelope == e.bundleHash && envelope.Encrypted? && e.bundleId in old(bundles)
      ensures r.None? <==> envelope == e.bundleHash && envelope.Encrypted? && e.bundleId !in old(bundles)
      ensures r.None? ==> log == old(log) + [BundleReceived(e.bundleId, e.bundleHash)]
      ensures r.None? ==> bundles == old(bundles)[e.bundleId := BundleRow(
        e.examId, e.kind, e.bundleHash, e.fingerprint, e.threshold, envelope)]
      ensures Snapshot() == old(Snapshot()).(bundles := bundles, log := log)
      ensures r.Some? ==> Snapshot() == old(Snapshot())
    {
      hide Inv;
      ApplyKeepsInv(config, Snapshot(), ReceiveBundle(envelope, e));
      if envelope != e.bundleHash { return Some(BundleHashMismatch); }
      if !envelope.Encrypted? { return Some(NotAnEnvelope); }
      if e.bundleId in bundles { return Some(DuplicateBundle); }
      bundles := bundles[e.bundleId := BundleRow(e.examId, e.kind, e.bundleHash, e.fingerprint, e.threshold, envelope)];
      log := log + [BundleReceived(e.bundleId, e.bundleHash)];
      return None;
    }

    method ReceiveKek(bundleId: Id, box: Box) returns (r: Option<CentreError>)
      requires Valid()
      modifies this
      ensures Valid() && Snapshot() == Apply(config, old(Snapshot()), ReceiveWrappedKek(bundleId, box))
      ensures r == ErrorIn(DoReceiveWrappedKek(config, old(Snapshot()), bundleId, box))
      ensures r == Some(BundleUnknown) <==> bundleId !in bundles
      ensures r != Some(MediumInvalid)
      ensures r == Some(BoxDidNotOpen) <==> bundleId in bundles && !IsForUs(config, box)
      ensures r == Some(KekAlreadyHeld) <==> bundleId in bundles && IsForUs(config, box) && bundleId in old(keys)
      ensures r == Some(KekFingerprintMismatch) <==>
        bundleId in bundles && IsForUs(config, box) && bundleId !in old(keys)
        && box.key != bundles[bundleId].fingerprint
      ensures r.None? <==>
        bundleId in bundles && bundleId !in old(keys) && OpensTo(config, box, bundles[bundleId].fingerprint)
      ensures r.None? ==>
        box.Box? && keys == old(keys)[bundleId := box.key] && held == old(held) + {bundleId}
        && log == old(log) + [KekReceived(bundleId, box.key)]
      ensures Snapshot() == old(Snapshot()).(keys := keys, held := held, log := log)
      ensures r.Some? ==> Snapshot() == old(Snapshot())
    {
      hide Inv;
      ApplyKeepsInv(config, Snapshot(), ReceiveWrappedKek(bundleId, box));
      if bundleId !in bundles { return Some(BundleUnknown); }
      var key := Open(box, config.publicKey);
      if key.None? { return Some(BoxDidNotOpen); }
      if bundleId in keys { return Some(KekAlreadyHeld); }
      ghost var before := keys;
      keys := keys[bundleId := key.value];
      if key.value != bundles[bundleId].fingerprint {
        keys := keys - {bundleId};
        assert keys == before;
        return Some(KekFingerprintMismatch);
      }
      held := held + {bundleId};
      log := log + [KekReceived(bundleId, key.value)];
      return None;
    }

    method ReceiveMedium(m: Medium) returns (r: Option<CentreError>)
      requires Valid()
      modifies this
      ensures Valid() && Snapshot() == Apply(config, old(Snapshot()), ReceiveOfflineMedium(m))
      ensures r == ErrorIn(DoReceiveOfflineMedium(config, old(Snapshot()), m))
      ensures r == Some(MediumInvalid) <==>
        !m.authentic || forall i | 0 <= i < |m.entries| :: m.entries[i].centreId != config.centreId
      ensures r.None? <==> m.authentic && m.bundleId in bundles && m.bundleId !in old(keys) && exists k: nat ::
        FirstFor(config, m, k) && OpensTo(config, m.entries[k].box, bundles[m.bundleId].fingerprint)
      ensures r.None? ==>
        m.bundleId in keys && keys == old(keys)[m.bundleId := bundles[m.bundleId].fingerprint]
        && held == old(held) + {m.bundleId}
      ensures Snapshot() == old(Snapshot()).(keys := keys, held := held, log := log)
      ensures r.Some? ==> Snapshot() == old(Snapshot())
    {
      hide Inv, DoReceiveWrappedKek, OpensTo;
      EntryForMeaning(m.entries, config.centreId);
      FirstIsUnique(config, m);
      if !m.authentic { return Some(MediumInvalid); }
      var box := EntryFor(m.entries, config.centreId);
      if box.None? { return Some(MediumInvalid); }
      r := ReceiveKek(m.bundleId, box.value);
    }

    method Admit(token: Token, now: int) returns (r: Option<CentreError>)
      requires Valid()
      modifies this
      ensures Valid() && Snapshot() == Apply(config, old(Snapshot()), CheckIn(token, now))
      ensures r == ErrorIn(DoCheckIn(config, old(Snapshot()), token, now))
      ensures r == Some(AdmitRefused) <==>
        !(token.wellFormed && token.authentic && token.examId == config.examId
        && token.centreId == config.centreId && now <= token.expiresAt)
      ensures r == Some(DuplicateCheckin) <==> GoodToken(config, token, now) && config.tokenHash(token) in old(checkins)
      ensures r == Some(SeatTaken) <==>
        GoodToken(config, token, now) && config.tokenHash(token) !in old(checkins)
        && exists h :: h in old(checkins) && old(checkins)[h] == token.seat
      ensures r.None? <==>
        GoodToken(config, token, now) && config.tokenHash(token) !in old(checkins)
        && forall h | h in old(checkins) :: old(checkins)[h] != token.seat
      ensures r.None? ==>
        checkins == old(checkins)[config.tokenHash(token) := token.seat]
        && log == old(log) + [CheckedIn(token.seat, config.tokenHash(token))]
      ensures Snapshot() == old(Snapshot()).(checkins := checkins, log := log)
      ensures r.Some? ==> Snapshot() == old(Snapshot())
    {
      hide Inv;
      ApplyKeepsInv(config, Snapshot(), CheckIn(token, now));
      if !Admits(config, token, now) { return Some(AdmitRefused); }
      var h := config.tokenHash(token);
      if h in checkins { return Some(DuplicateCheckin); }
      if token.seat in checkins.Values { return Some(SeatTaken); }
      checkins := checkins[h := token.seat];
      log := log + [CheckedIn(token.seat, h)];
      return None;
    }

    /** The row of a seat in the check-in table. */
    method CheckinBySeat(seat: Id) returns (r: Option<Id>)
      ensures r.Some? ==> AtSeat(Snapshot(), seat, r.value)
      ensures r.None? ==> !exists h :: AtSeat(Snapshot(), seat, h)
      ensures r.None? ==> forall h | h in checkins :: checkins[h] != seat
      ensures r.Some? ==> r.value in checkins && checkins[r.value] == seat
    {
      var rest := checkins.Keys;
      while rest != {}
        invariant rest <= checkins.Keys && forall h | h in checkins && h !in rest :: checkins[h] != seat
        decreases |rest|
      {
        var h :| h in rest;
        if checkins[h] == seat { return Some(h); }
        rest := rest - {h};
      }
      return None;
    }

    method Generate(seat: Id) returns (r: Result<Id, CentreError>)
      requires Valid()
      modifies this
      ensures Valid() && Snapshot() == Apply(config, old(Snapshot()), GeneratePaper(seat))
      ensures r.Err? ==> DoGeneratePaper(config, old(Snapshot()), seat) == Err(r.error)
      ensures r == Err(NotCheckedIn) <==> forall h | h in checkins :: checkins[h] != seat
      ensures r == Err(AlreadyGenerated) <==> (exists h :: h in checkins && checkins[h] == seat) && seat in old(papers)
      ensures r == Err(BundleUnknown) <==>
        (exists h :: h in checkins && checkins[h] == seat) && seat !in old(papers)
        && PaperBundleId(config.examId) !in bundles
      ensures r == Err(KekNotHeld) <==>
        (exists h :: h in checkins && checkins[h] == seat) && seat !in old(papers)
        && PaperBundleId(config.examId) in bundles && PaperBundleId(config.examId) !in held
      ensures r.Ok? <==> seat !in old(papers) && exists h, pdf :: MadeFor(config, old(Snapshot()), seat, h, pdf)
      ensures r.Ok? ==> exists h :: IsGenerated(config, old(Snapshot()), Snapshot(), seat, h, r.value)
      ensures r.Err? ==> Snapshot() == old(Snapshot())
    {
      hide Inv, Rendered;
      ApplyKeepsInv(config, Snapshot(), GeneratePaper(seat));
      OneTokenPerSeat(config, Snapshot());
      var h := CheckinBySeat(seat);
      if h.None? { return Err(NotCheckedIn); }
      if seat in papers { return Err(AlreadyGenerated); }
      var pdf := Rendered(config, Snapshot(), seat, h.value);
      OnlyPaper(config, Snapshot(), seat, h.value);
      WhyNotRendered(config, Snapshot(), seat, h.value);
      if pdf.Err? { return Err(pdf.error); }
      RenderedFrom(config, Snapshot(), seat, h.value, pdf.value);
      papers := papers[seat := Paper(h.value, config.pdfHash(pdf.value), false)];
      log := log + [PaperGenerated(seat, h.value, config.pdfHash(pdf.value))];
      assert IsGenerated(config, old(Snapshot()), Snapshot(), seat, h.value, pdf.value);
      return Ok(pdf.value);
    }

    method Print(seat: Id, pdf: Id, failovers: nat, succeeds: bool) returns (r: Option<CentreError>)
      requires Valid()
      modifies this
      ensures Valid() && Snapshot() == Apply(config, old(Snapshot()), PrintPaper(seat, pdf, failovers, succeeds))
      ensures r == DoPrintPaper(config, old(Snapshot()), seat, pdf, failovers, succeeds).1
      ensures r == Some(NotGenerated) <==> seat !in old(papers) || !config.hasPrinter
      ensures r == Some(SeatMismatch) <==>
        seat in old(papers) && config.hasPrinter && config.pdfHash(pdf) != old(papers)[seat].paperHash
      ensures r == Some(PrintingFailed) <==>
        seat in old(papers) && config.hasPrinter && config.pdfHash(pdf) == old(papers)[seat].paperHash && !succeeds
      ensures r.None? <==>
        seat in old(papers) && config.hasPrinter && config.pdfHash(pdf) == old(papers)[seat].paperHash && succeeds
      ensures r.None? ==>
        seat in old(papers) && papers == old(papers)[seat := old(papers)[seat].(printed := true)]
        && log == old(log) + Failovers(failovers) + [PaperPrinted(seat, config.pdfHash(pdf))]
      ensures r == Some(PrintingFailed) ==> log == old(log) + Failovers(failovers)
      ensures Snapshot() == old(Snapshot()).(papers := papers, log := log) && (r.Some? ==> papers == old(papers))
      ensures r.Some? && r.value != PrintingFailed ==> log == old(log)
    {
      hide Inv, Failovers;
      ApplyKeepsInv(config, Snapshot(), PrintPaper(seat, pdf, failovers, succeeds));
      if seat !in papers || !config.hasPrinter { return Some(NotGenerated); }
      if config.pdfHash(pdf) != papers[seat].paperHash { return Some(SeatMismatch); }
      log := log + Failovers(failovers);
      if !succeeds { return Some(PrintingFailed); }
      papers := papers[seat := papers[seat].(printed := true)];
      log := log + [PaperPrinted(seat, papers[seat].paperHash)];
      return None;
    }

    method Close()
      requires Valid()
      modifies this
      ensures Valid() && Snapshot() == Apply(config, old(Snapshot()), CloseExam)
      ensures held == {} && keys == map[]
      ensures log == old(log) + [ExamClosed(|checkins|, |set s | s in papers && papers[s].printed|)]
      ensures bundles == old(bundles) && checkins == old(checkins) && papers == old(papers)
    {
      hide Inv;
      ApplyKeepsInv(config, Snapshot(), CloseExam);
      log := log + [ExamClosed(|checkins|, PrintedCount(papers))];
      ClosedLeavesNoKey(config, old(Snapshot()));
      DropKeys();
    }

    method DropKeys()
      modifies this`keys, this`held
      ensures held == {} && keys == old(keys) - old(held)
    {
      ghost var allKeys, all := keys, held;
      assert keys == allKeys - (all - held);
      while held != {}
        invariant held <= all && keys == allKeys - (all - held)
        decreases |held|
      {
        var b :| b in held;
        DropOne(allKeys, all, held, b);
        keys := keys - {b};
        held := held - {b};
      }
      assert all - {} == all;
    }
  }

  /** The paper of a seat, after it was generated. */
  ghost predicate IsGenerated(c: Config, s: State, t: State, seat: Id, h: Id, pdf: Id) {
    && MadeFor(c, s, seat, h, pdf)
    && t == s.(papers := s.papers[seat := Paper(h, c.pdfHash(pdf), false)],
               log := s.log + [PaperGenerated(seat, h, c.pdfHash(pdf))])
  }

  /** A seat has one token, and so at most one paper can be made for it. */
  lemma OnlyPaper(c: Config, s: State, seat: Id, h: Id)
    requires AtSeat(s, seat, h) && forall k | AtSeat(s, seat, k) :: k == h
    ensures Rendered(c, s, seat, h).Ok? <==> exists k, pdf :: MadeFor(c, s, seat, k, pdf)
  {
    hide Rendered;
    if Rendered(c, s, seat, h).Ok? {
      RenderedFrom(c, s, seat, h, Rendered(c, s, seat, h).value);
    }
    if k, pdf :| MadeFor(c, s, seat, k, pdf) {
      assert AtSeat(s, seat, k);
      RenderedFrom(c, s, seat, h, pdf);
    }
  }

  lemma WhyNotRendered(c: Config, s: State, seat: Id, h: Id)
    requires Inv(c, s)
    ensures var r, b := Rendered(c, s, seat, h), PaperBundleId(c.examId);
      && (r == Err(BundleUnknown) <==> b !in s.bundles)
      && (r == Err(KekNotHeld) <==> b in s.bundles && b !in s.held)
      && r != Err(NotCheckedIn) && r != Err(AlreadyGenerated)
  {
    hide GoodLog, Agrees, KeyInForce;
  }

  lemma FirstIsUnique(c: Config, m: Medium)
    ensures forall k: nat | FirstFor(c, m, k) :: EntryFor(m.entries, c.centreId) == Some(m.entries[k].box)
    ensures EntryFor(m.entries, c.centreId).Some? ==> exists k: nat :: FirstFor(c, m, k)
  {
    EntryForMeaning(m.entries, c.centreId);
    if EntryFor(m.entries, c.centreId).Some? {
      var k := FirstEntry(c, m);
      forall l: nat | FirstFor(c, m, l) ensures l == k {}
    }
  }

  lemma DropOne(keys: map<Id, Key>, all: set<Id>, held: set<Id>, b: Id)
    requires held <= all && b in held
    ensures keys - (all - held) - {b} == keys - (all - (held - {b}))
  {
    assert all - (held - {b}) == (all - held) + {b};
  }

  /** Every key in memory is one that the node knows it holds. */
  lemma ClosedLeavesNoKey(c: Config, s: State)
    requires Inv(c, s)
    ensures s.keys - s.held == map[]
  {
    hide GoodLog, Agrees, KeyInForce;
  }

  function ErrorIn(r: Outcome): Option<CentreError> {
    if r.Ok? then None else Some(r.error)
  }

  lemma OneTokenPerSeat(c: Config, s: State)
    requires Inv(c, s)
    ensures forall seat, h, k | AtSeat(s, seat, h) && AtSeat(s, seat, k) :: h == k
  {
    hide GoodLog, KeysInForce;
  }
}
