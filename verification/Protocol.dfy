/**
 The authority, the centres and everyone else, over whole runs.

 Between any two steps of the parties, schedule rows can be overwritten with anything that needs no
 forged signature, and a centre can be handed any envelope and any box, except that nobody can put a
 key of the authority into a box before that key has been released.
 */
module Protocol {
  import opened Wrappers
  import opened IdealCrypto
  import A = Authority
  import C = Centre

  /** `media` is a history variable: every medium that the authority signed. */
  datatype World = World(clock: int, authority: A.State, centres: map<Id, C.State>, media: set<Medium>)

  type Configs = Id -> C.Config

  datatype Step =
    | Tick(elapsed: nat)
    | AuthorityStep(step: A.Step)
    | ReleaseOffline(request: A.Request, mediumTime: int)
    | OverwriteSchedule(row: A.ScheduleRow)
    | CentreStep(centreId: Id, move: C.Step)

  function CentreState(w: World, centreId: Id): C.State {
    if centreId in w.centres then w.centres[centreId] else C.EMPTY
  }

  /** A key of the authority becomes known only by a release. */
  ghost predicate Known(w: World, key: Key) {
    key.Foreign? || exists i :: 0 <= i < |w.authority.history| && w.authority.history[i].key == key
  }

  ghost predicate BoxPossible(w: World, box: Box) {
    box.Box? ==> Known(w, box.key)
  }

  ghost predicate ReleasePossible(w: World, req: A.Request) {
    A.Enabled(w.authority, A.PerformRelease(req)) && (!req.asserted ==> req.now == w.clock)
  }

  ghost predicate Possible(w: World, step: Step) {
    match step
    case Tick(_) => true
    case AuthorityStep(s) =>
      A.Enabled(w.authority, s) && (s.PerformRelease? ==> ReleasePossible(w, s.request))
    case ReleaseOffline(req, _) => ReleasePossible(w, req)
    case OverwriteSchedule(row) => A.Unforged(w.authority, row)
    case CentreStep(_, s) =>
      && (s.ReceiveWrappedKek? ==> BoxPossible(w, s.box))
      && (s.ReceiveOfflineMedium? && s.medium.authentic ==> s.medium in w.media)
  }

  /** The signed medium of a release: exactly the boxes that were wrapped. */
  function MediumOf(s: A.State, req: A.Request, at: int): Medium
    requires A.Refusal(s, req).None?
  {
    var b := s.bundles[req.bundleId];
    Medium(req.bundleId, b.examId, at, b.fingerprint, A.Outcome(s, req), true)
  }

  /** A medium is signed only for a release that was performed. */
  function MediaAfter(w: World, req: A.Request, at: int): set<Medium> {
    if A.Refusal(w.authority, req).None? && A.DoPerformRelease(w.authority, req).1.None?
    then w.media + {MediumOf(w.authority, req, at)}
    else w.media
  }

  ghost function Apply(configs: Configs, w: World, step: Step): World {
    if !Possible(w, step) then w else
    match step
    case Tick(elapsed) => w.(clock := w.clock + elapsed)
    case AuthorityStep(s) => w.(authority := A.Apply(w.authority, s))
    case ReleaseOffline(req, at) =>
      w.(authority := A.DoPerformRelease(w.authority, req).0, media := MediaAfter(w, req, at))
    case OverwriteSchedule(row) => w.(authority := A.Tampered(w.authority, row))
    case CentreStep(id, s) =>
      w.(centres := w.centres[id := C.Apply(configs(id), CentreState(w, id), s)])
  }

  ghost function Run(configs: Configs, w: World, steps: seq<Step>): World
    decreases |steps|
  {
    if steps == [] then w else Run(configs, Apply(configs, w, steps[0]), steps[1..])
  }

  function Start(clock: int): World {
    World(clock, A.EMPTY, map[], {})
  }

  /** The world when step j is about to happen. */
  ghost function At(configs: Configs, clock: int, steps: seq<Step>, j: nat): World
    requires j <= |steps|
  {
    Run(configs, Start(clock), steps[..j])
  }

  lemma {:induction false} RunAppend(configs: Configs, w: World, a: seq<Step>, b: seq<Step>)
    ensures Run(configs, w, a + b) == Run(configs, Run(configs, w, a), b)
    decreases |a|
  {
    hide Apply;
    if a == [] {
      assert a + b == b;
    } else {
      assert (a + b)[0] == a[0] && (a + b)[1..] == a[1..] + b;
      RunAppend(configs, Apply(configs, w, a[0]), a[1..], b);
    }
  }

  lemma RunOne(configs: Configs, w: World, steps: seq<Step>, step: Step)
    ensures Run(configs, w, steps + [step]) == Apply(configs, Run(configs, w, steps), step)
  {
    hide Apply;
    RunAppend(configs, w, steps, [step]);
    assert Run(configs, Run(configs, w, steps), [step]) ==
      Run(configs, Apply(configs, Run(configs, w, steps), step), []) by {
      assert [step][1..] == [];
    }
  }

  // ---------- releases and generations in a run ----------

  function RequestOf(step: Step): Option<A.Request> {
    match step
    case AuthorityStep(s) => if s.PerformRelease? then Some(s.request) else None
    case ReleaseOffline(req, _) => Some(req)
    case _ => None
  }

  /** The step performs a release. */
  ghost predicate Releases(w: World, step: Step) {
    && Possible(w, step) && RequestOf(step).Some?
    && A.Refusal(w.authority, RequestOf(step).value).None? && A.Reconstruction(w.authority, RequestOf(step).value).None?
  }

  /** The step generates a paper. */
  ghost predicate Generates(configs: Configs, w: World, step: Step) {
    step.CentreStep? && step.move.GeneratePaper?
    && C.DoGeneratePaper(configs(step.centreId), CentreState(w, step.centreId), step.move.seat).Ok?
  }

  /** The envelope that a generation at the centre decrypts. */
  function Source(configs: Configs, w: World, centreId: Id): Option<Envelope> {
    var s, b := CentreState(w, centreId), PaperBundleId(configs(centreId).examId);
    if b in s.bundles then Some(s.bundles[b].ciphertext) else None
  }

  // ---------- what every run keeps ----------

  /** A centre holds only keys that have been released, or foreign ones. */
  ghost predicate CentreKeysKnown(w: World, s: C.State) {
    forall b | b in s.keys :: Known(w, s.keys[b])
  }

  ghost predicate MediaKnown(w: World) {
    forall m | m in w.media :: forall i | 0 <= i < |m.entries| :: BoxPossible(w, m.entries[i].box)
  }

  ghost predicate Inv(configs: Configs, w: World) {
    && A.Inv(w.authority)
    && (forall id | id in w.centres :: C.Inv(configs(id), w.centres[id]) && CentreKeysKnown(w, w.centres[id]))
    && MediaKnown(w)
  }

  // ---------- preservation ----------

  lemma KnownStays(w: World, v: World, key: Key)
    requires Known(w, key) && w.authority.history <= v.authority.history
    ensures Known(v, key)
  {
    if key.Kek? {
      var i :| 0 <= i < |w.authority.history| && w.authority.history[i].key == key;
      assert v.authority.history[i].key == key;
    }
  }

  /** The parts that only need the history to grow. */
  lemma RestStays(configs: Configs, w: World, v: World)
    requires Inv(configs, w) && w.authority.history <= v.authority.history
    requires v.centres == w.centres
    ensures forall id | id in v.centres :: C.Inv(configs(id), v.centres[id]) && CentreKeysKnown(v, v.centres[id])
  {
    hide C.Inv, A.Inv, Known;
    forall id | id in v.centres ensures CentreKeysKnown(v, v.centres[id]) {
      assert CentreKeysKnown(w, w.centres[id]);
      forall b | b in v.centres[id].keys ensures Known(v, v.centres[id].keys[b]) {
        KnownStays(w, v, w.centres[id].keys[b]);
      }
    }
  }

  lemma MediaStay(w: World, v: World)
    requires MediaKnown(w) && w.authority.history <= v.authority.history && v.media == w.media
    ensures MediaKnown(v)
  {
    hide Known;
    forall m | m in v.media ensures forall i | 0 <= i < |m.entries| :: BoxPossible(v, m.entries[i].box) {
      forall i | 0 <= i < |m.entries| ensures BoxPossible(v, m.entries[i].box) {
        assert BoxPossible(w, m.entries[i].box);
        if m.entries[i].box.Box? {
          KnownStays(w, v, m.entries[i].box.key);
        }
      }
    }
  }

  /** Apart from a release, no step of the authority touches the history. */
  lemma OnlyReleasesAreRecorded(s: A.State, step: A.Step)
    requires !step.PerformRelease?
    ensures A.Apply(s, step).history == s.history
  {
    hide A.DoBuildBundle;
    if step.Provision? && step.threshold >= 2 {
      var t: nat := step.threshold;
      var first := A.DoBuildBundle(s, step.examId, PaperKind, step.paper, step.custodians, t);
      A.BuildKeepsHistory(s, step.examId, PaperKind, step.paper, step.custodians, t);
      A.BuildKeepsHistory(first.0, step.examId, AnswersKind, step.answers, step.custodians, t);
    }
  }

  lemma KeepAuthorityStep(configs: Configs, w: World, s: A.Step)
    requires Inv(configs, w) && Possible(w, AuthorityStep(s))
    ensures Inv(configs, Apply(configs, w, AuthorityStep(s)))
  {
    hide C.Inv, A.Inv, MediaKnown, CentreKeysKnown, A.Enabled;
    A.ApplyKeepsInv(w.authority, s);
    var v := Apply(configs, w, AuthorityStep(s));
    RestStays(configs, w, v);
    MediaStay(w, v);
  }

  lemma OutcomeIsKnown(w: World, v: World, req: A.Request, i: nat)
    requires A.Refusal(w.authority, req).None? && A.DoPerformRelease(w.authority, req).1.None?
    requires v.authority == A.DoPerformRelease(w.authority, req).0
    requires i < |A.Outcome(w.authority, req)|
    ensures BoxPossible(v, A.Outcome(w.authority, req)[i].box)
  {
    hide A.Reconstruction, A.RecordAll, A.GoodCustodians;
    var n := |w.authority.history|;
    assert v.authority.history[n].key == w.authority.bundles[req.bundleId].fingerprint;
  }

  lemma KeepReleaseOffline(configs: Configs, w: World, req: A.Request, at: int)
    requires Inv(configs, w) && ReleasePossible(w, req)
    ensures Inv(configs, Apply(configs, w, ReleaseOffline(req, at)))
  {
    hide C.Inv, A.Inv, A.Enabled, A.Refusal, A.DoPerformRelease, BoxPossible, A.Outcome;
    A.ApplyKeepsInv(w.authority, A.PerformRelease(req));
    var v := Apply(configs, w, ReleaseOffline(req, at));
    RestStays(configs, w, v);
    var x := w.(authority := v.authority);
    MediaStay(w, x);
    forall m | m in v.media ensures forall i | 0 <= i < |m.entries| :: BoxPossible(v, m.entries[i].box) {
      forall i | 0 <= i < |m.entries| ensures BoxPossible(v, m.entries[i].box) {
        if m in w.media {
          assert BoxPossible(x, m.entries[i].box);
          SameBoxes(x, v, m.entries[i].box);
        } else {
          OutcomeIsKnown(w, v, req, i);
        }
      }
    }
  }

  lemma SameBoxes(w: World, v: World, box: Box)
    requires BoxPossible(w, box) && v.authority == w.authority
    ensures BoxPossible(v, box)
  {}

  lemma KeepOverwriteSchedule(configs: Configs, w: World, row: A.ScheduleRow)
    requires Inv(configs, w) && A.Unforged(w.authority, row)
    ensures Inv(configs, Apply(configs, w, OverwriteSchedule(row)))
  {
    hide C.Inv, A.Inv, MediaKnown, CentreKeysKnown;
    A.TamperingKeepsInv(w.authority, row);
    var v := Apply(configs, w, OverwriteSchedule(row));
    RestStays(configs, w, v);
    MediaStay(w, v);
  }

  lemma KeepTick(configs: Configs, w: World, elapsed: nat)
    requires Inv(configs, w)
    ensures Inv(configs, Apply(configs, w, Tick(elapsed)))
  {
    hide C.Inv, A.Inv, MediaKnown, CentreKeysKnown;
    var v := Apply(configs, w, Tick(elapsed));
    RestStays(configs, w, v);
    MediaStay(w, v);
  }

  /** The keys of a centre after a step are keys it had or the key of the box it was given. */
  lemma KeysOfStep(c: C.Config, s: C.State, step: C.Step, b: Id)
    requires b in C.Apply(c, s, step).keys
    ensures var key := C.Apply(c, s, step).keys[b];
      || (b in s.keys && s.keys[b] == key)
      || (step.ReceiveWrappedKek? && step.box.Box? && step.box.key == key)
      || (step.ReceiveOfflineMedium? && step.medium.authentic
          && exists i ::
            0 <= i < |step.medium.entries| && step.medium.entries[i].box.Box? && step.medium.entries[i].box.key == key)
  {
    hide C.Rendered, C.Failovers, C.PrintedCount, C.Admits;
    if step.ReceiveOfflineMedium? {
      EntryIsAmong(step.medium.entries, c.centreId);
    }
  }

  lemma {:induction false} EntryIsAmong(entries: seq<MediumEntry>, centreId: Id)
    ensures C.EntryFor(entries, centreId).Some? ==>
              exists i :: 0 <= i < |entries| && entries[i].box == C.EntryFor(entries, centreId).value
  {
    if entries != [] && entries[0].centreId != centreId {
      EntryIsAmong(entries[1..], centreId);
      if C.EntryFor(entries, centreId).Some? {
        var i :| 0 <= i < |entries[1..]| && entries[1..][i].box == C.EntryFor(entries, centreId).value;
        assert entries[i + 1].box == C.EntryFor(entries, centreId).value;
      }
    }
  }

  lemma CentreKeysStayKnown(configs: Configs, w: World, id: Id, s: C.Step)
    requires Inv(configs, w) && Possible(w, CentreStep(id, s))
    ensures CentreKeysKnown(w, C.Apply(configs(id), CentreState(w, id), s))
  {
    hide C.Inv, A.Inv, Known, C.Apply;
    var before, after := CentreState(w, id), C.Apply(configs(id), CentreState(w, id), s);
    assert CentreKeysKnown(w, before);
    forall b | b in after.keys ensures Known(w, after.keys[b]) {
      KeysOfStep(configs(id), before, s, b);
      if s.ReceiveOfflineMedium? && s.medium.authentic && !(b in before.keys && before.keys[b] == after.keys[b]) {
        var i :| 0 <= i < |s.medium.entries| && s.medium.entries[i].box.Box?
          && s.medium.entries[i].box.key == after.keys[b];
        assert BoxPossible(w, s.medium.entries[i].box);
      }
    }
  }

  lemma KeepCentreStep(configs: Configs, w: World, id: Id, s: C.Step)
    requires Inv(configs, w) && Possible(w, CentreStep(id, s))
    ensures Inv(configs, Apply(configs, w, CentreStep(id, s)))
  {
    hide C.Inv, A.Inv, C.Apply, CentreKeysKnown, MediaKnown, Possible;
    var before := CentreState(w, id);
    assert C.Inv(configs(id), before) by { if id !in w.centres { C.ReachableInv(configs(id), []); } }
    C.ApplyKeepsInv(configs(id), before, s);
    CentreKeysStayKnown(configs, w, id, s);
    SameAuthority(configs, w, Apply(configs, w, CentreStep(id, s)));
  }

  /** What is said about the history is unaffected by what happens at a centre. */
  lemma SameAuthority(configs: Configs, w: World, v: World)
    requires v.authority == w.authority && v.media == w.media && MediaKnown(w)
    ensures MediaKnown(v)
    ensures forall s | CentreKeysKnown(w, s) :: CentreKeysKnown(v, s)
  {
    hide Known;
    forall key | Known(w, key) ensures Known(v, key) {
      KnownStays(w, v, key);
    }
    MediaStay(w, v);
    forall s | CentreKeysKnown(w, s) ensures CentreKeysKnown(v, s) {}
  }

  lemma ApplyKeepsInv(configs: Configs, w: World, step: Step)
    requires Inv(configs, w)
    ensures Inv(configs, Apply(configs, w, step))
  {
    hide Inv;
    if Possible(w, step) {
      match step
      case Tick(elapsed) => KeepTick(configs, w, elapsed);
      case AuthorityStep(s) => KeepAuthorityStep(configs, w, s);
      case ReleaseOffline(req, at) => KeepReleaseOffline(configs, w, req, at);
      case OverwriteSchedule(row) => KeepOverwriteSchedule(configs, w, row);
      case CentreStep(id, s) => KeepCentreStep(configs, w, id, s);
    }
  }

  lemma {:induction false} RunKeepsInv(configs: Configs, w: World, steps: seq<Step>)
    requires Inv(configs, w)
    ensures Inv(configs, Run(configs, w, steps))
    decreases |steps|
  {
    hide Inv, Apply;
    if steps != [] {
      ApplyKeepsInv(configs, w, steps[0]);
      RunKeepsInv(configs, Apply(configs, w, steps[0]), steps[1..]);
    }
  }

  lemma StartKeepsInv(configs: Configs, clock: int)
    ensures Inv(configs, Start(clock))
  {
    hide C.Inv;
  }

  // ---------- what a run records ----------

  lemma StepRecords(configs: Configs, w: World, step: Step)
    ensures Apply(configs, w, step).authority.history ==
              w.authority.history + if Releases(w, step) then [A.RecordOf(w.authority, RequestOf(step).value)] else []
  {
    hide A.Refusal, A.Reconstruction, A.Enabled, A.RecordAll, A.Wrap, A.DoProvision, C.Apply, A.Unforged, BoxPossible;
    if step.AuthorityStep? && !step.step.PerformRelease? {
      OnlyReleasesAreRecorded(w.authority, step.step);
    }
  }

  /** Entry i of the history was made by step j, from the state at that step. */
  ghost predicate RecordedAt(configs: Configs, clock: int, steps: seq<Step>, i: nat, j: nat, r: A.Release) {
    j < |steps|
    && var u := At(configs, clock, steps, j);
    Releases(u, steps[j]) && |u.authority.history| == i && r == A.RecordOf(u.authority, RequestOf(steps[j]).value)
  }

  /** The history is faithful: each entry was made by a release step of the run. */
  lemma {:induction false} EveryRecordHappened(configs: Configs, clock: int, steps: seq<Step>, i: nat)
    requires i < |Run(configs, Start(clock), steps).authority.history|
    ensures var h := Run(configs, Start(clock), steps).authority.history;
      exists j: nat :: RecordedAt(configs, clock, steps, i, j, h[i])
    decreases |steps|
  {
    hide Run, Apply, Releases;
    if steps == [] {
      NothingRecorded(configs, clock);
    } else {
      var n := |steps| - 1;
      var init := steps[..n];
      var u := Run(configs, Start(clock), init);
      assert steps == init + [steps[n]];
      RunOne(configs, Start(clock), init, steps[n]);
      StepRecords(configs, u, steps[n]);
      if i < |u.authority.history| {
        EveryRecordHappened(configs, clock, init, i);
        var j: nat :| RecordedAt(configs, clock, init, i, j, u.authority.history[i]);
        assert steps[..j] == init[..j];
        assert RecordedAt(configs, clock, steps, i, j, Run(configs, Start(clock), steps).authority.history[i]);
      } else {
        assert RecordedAt(configs, clock, steps, i, n, Run(configs, Start(clock), steps).authority.history[i]);
      }
    }
  }

  lemma NothingRecorded(configs: Configs, clock: int)
    ensures Run(configs, Start(clock), []).authority.history == []
  {}

  lemma StepGrows(configs: Configs, w: World, step: Step)
    requires Inv(configs, w)
    ensures A.Grows(w.authority, Apply(configs, w, step).authority)
  {
    hide A.Inv, C.Inv, A.Grows, A.Apply, C.Apply, A.Enabled, MediaKnown, CentreKeysKnown, BoxPossible;
    A.GrowsItself(w.authority);
    if Possible(w, step) {
      match step
      case AuthorityStep(s) => A.ApplyKeepsInv(w.authority, s);
      case ReleaseOffline(req, at) =>
        A.ApplyKeepsInv(w.authority, A.PerformRelease(req));
        ReleaseIsAStep(w.authority, req);
      case OverwriteSchedule(row) => A.TamperingKeepsInv(w.authority, row);
      case _ =>
    }
  }

  lemma ReleaseIsAStep(s: A.State, req: A.Request)
    ensures A.Apply(s, A.PerformRelease(req)) == A.DoPerformRelease(s, req).0
  {
    hide A.DoPerformRelease;
  }

  lemma {:induction false} RunGrows(configs: Configs, w: World, steps: seq<Step>)
    requires Inv(configs, w)
    ensures A.Grows(w.authority, Run(configs, w, steps).authority)
    decreases |steps|
  {
    hide Inv, Apply, A.Grows;
    if steps == [] {
      A.GrowsItself(w.authority);
    } else {
      var v := Apply(configs, w, steps[0]);
      ApplyKeepsInv(configs, w, steps[0]);
      StepGrows(configs, w, steps[0]);
      RunGrows(configs, v, steps[1..]);
      A.GrowsTwice(w.authority, v.authority, Run(configs, v, steps[1..]).authority);
    }
  }

  /** Step j releases the bundle.  When it happens a moment that the authority has signed for the bundle has
      passed, on the clock unless the caller asserts the time, and at least the bundle's threshold of
      custodians, all different and all enrolled by then, submit as many shares of the split of its key. */
  ghost predicate AuthorisedAt(configs: Configs, clock: int, steps: seq<Step>, j: nat, bundleId: Id) {
    j < |steps|
    && var u := At(configs, clock, steps, j);
    && Releases(u, steps[j]) && bundleId in u.authority.bundles
    && var req := RequestOf(steps[j]).value;
    && req.bundleId == bundleId && (!req.asserted ==> req.now == u.clock)
    && A.Due(u.authority.signed, bundleId, req.now)
    && A.GoodCustodians(u.authority.custodians, req.shares)
    && A.SharesOfOneSplit(u.authority.bundles[bundleId], req.shares)
  }

  lemma StartedInv(configs: Configs, clock: int, steps: seq<Step>)
    ensures Inv(configs, Run(configs, Start(clock), steps))
  {
    StartKeepsInv(configs, clock);
    RunKeepsInv(configs, Start(clock), steps);
  }

  lemma ReleasesAreAuthorised(configs: Configs, clock: int, steps: seq<Step>, j: nat)
    requires j < |steps| && Releases(At(configs, clock, steps, j), steps[j])
    ensures AuthorisedAt(configs, clock, steps, j, RequestOf(steps[j]).value.bundleId)
  {
    hide Run, C.Inv, MediaKnown, CentreKeysKnown, A.Due, A.GoodCustodians, A.SharesOfOneSplit, A.Refusal,
      A.Reconstruction, A.Enabled;
    var u, req := At(configs, clock, steps, j), RequestOf(steps[j]).value;
    StartedInv(configs, clock, steps[..j]);
    A.PassedCustodians(u.authority, req);
    A.ScheduleIsDue(u.authority, req);
    A.CombinedMeansQuorum(u.authority, req);
    A.PassedBundle(u.authority, req);
  }

  /** A generation from an authority envelope uses its key, which some release has made known. */
  lemma GenerationUsesAReleasedKey(configs: Configs, w: World, step: Step) returns (i: nat)
    requires Inv(configs, w) && Generates(configs, w, step)
    requires var e := Source(configs, w, step.centreId); e.Some? && e.value.Encrypted? && e.value.key.Kek?
    ensures i < |w.authority.history| && w.authority.history[i].key == Source(configs, w, step.centreId).value.key
  {
    hide C.Inv, A.Inv, C.Rendered, C.DoGeneratePaper, MediaKnown;
    var c, s := configs(step.centreId), CentreState(w, step.centreId);
    var h, pdf := C.GenerationOf(c, s, step.move.seat);
    C.RenderedMeans(c, s, step.move.seat, h);
    assert CentreKeysKnown(w, s);
    i :| 0 <= i < |w.authority.history| && w.authority.history[i].key == s.keys[PaperBundleId(c.examId)];
  }

  /** In every run, whoever overwrites schedules and whatever reaches the centres: when a step generates a
      paper from the ciphertext of an authority bundle, an earlier step was an authorised release of that
      bundle. */
  lemma NoPaperBeforeRelease(configs: Configs, clock: int, steps: seq<Step>, m: nat, bundleId: Id)
    requires m < |steps| && Generates(configs, At(configs, clock, steps, m), steps[m])
    requires var t := Run(configs, Start(clock), steps).authority;
      bundleId in t.bundles && Source(configs, At(configs, clock, steps, m), steps[m].centreId) ==
        Some(t.bundles[bundleId].ciphertext)
    ensures exists j: nat :: j < m && AuthorisedAt(configs, clock, steps, j, bundleId)
  {
    hide Run, Apply, C.Inv, MediaKnown, CentreKeysKnown, Generates, AuthorisedAt, Releases, Source;
    var w, t := At(configs, clock, steps, m), Run(configs, Start(clock), steps);
    StartedInv(configs, clock, steps[..m]);
    StartedInv(configs, clock, steps);
    assert A.GoodBundle(t.authority, bundleId);
    var i := GenerationUsesAReleasedKey(configs, w, steps[m]);
    EveryRecordHappened(configs, clock, steps[..m], i);
    var j: nat :| RecordedAt(configs, clock, steps[..m], i, j, w.authority.history[i]);
    assert steps[..m][..j] == steps[..j] && steps[..m][j] == steps[j];
    ReleasesAreAuthorised(configs, clock, steps, j);
    assert steps == steps[..m] + steps[m..];
    RunAppend(configs, Start(clock), steps[..m], steps[m..]);
    RunGrows(configs, w, steps[m..]);
    SameKeySameBundle(w.authority, t.authority, i, bundleId);
  }

  lemma SameKeySameBundle(s: A.State, t: A.State, i: nat, bundleId: Id)
    requires A.Inv(s) && A.Inv(t) && A.Grows(s, t) && i < |s.history|
    requires bundleId in t.bundles && s.history[i].key == t.bundles[bundleId].fingerprint
    ensures s.history[i].bundleId == bundleId
  {
    hide A.Due, A.GoodCustodians, A.SharesOfOneSplit, A.GoodBundle, A.GoodSchedules;
    assert A.GoodRelease(s, s.history[i]);
  }

  // ---------- what is released can be used ----------

  /** The centre is the one that the authority enrolled, has the bundle that is released, and no key for it. */
  ghost predicate Awaits(s: A.State, req: A.Request, c: C.Config, cs: C.State) {
    && c.centreId in s.centres && s.centres[c.centreId] == c.publicKey && c.centreId in A.Named(req)
    && req.bundleId in s.bundles && req.bundleId in cs.bundles && req.bundleId !in cs.keys
    && cs.bundles[req.bundleId].fingerprint == s.bundles[req.bundleId].fingerprint
  }

  /** Every box that a release sends out to such a centre opens there to the key of the bundle. */
  lemma ReleasedKeyIsAccepted(s: A.State, req: A.Request, c: C.Config, cs: C.State, i: nat)
    requires A.DoPerformRelease(s, req).1.None? && Awaits(s, req, c, cs)
    requires i < |A.Named(req)| && A.Named(req)[i] == c.centreId
    ensures A.Refusal(s, req).None? && i < |A.Outcome(s, req)|
    ensures var r := C.DoReceiveWrappedKek(c, cs, req.bundleId, A.Outcome(s, req)[i].box);
      r.Ok? && req.bundleId in r.value.keys && r.value.keys[req.bundleId] == s.bundles[req.bundleId].fingerprint
      && req.bundleId in r.value.held
  {
    hide A.DoPerformRelease, A.Refusal, A.Outcome;
    A.WhatIsSent(s, req);
  }

  /** And so does the signed medium of the release. */
  lemma ReleasedMediumIsAccepted(s: A.State, req: A.Request, at: int, c: C.Config, cs: C.State)
    requires A.DoPerformRelease(s, req).1.None? && Awaits(s, req, c, cs)
    ensures A.Refusal(s, req).None?
    ensures var r := C.DoReceiveOfflineMedium(c, cs, MediumOf(s, req, at));
      r.Ok? && req.bundleId in r.value.keys && r.value.keys[req.bundleId] == s.bundles[req.bundleId].fingerprint
      && req.bundleId in r.value.held
  {
    hide A.DoPerformRelease, A.Refusal, A.Outcome, C.DoReceiveWrappedKek;
    A.WhatIsSent(s, req);
    var entries := A.Outcome(s, req);
    var n :| 0 <= n < |A.Named(req)| && A.Named(req)[n] == c.centreId;
    C.EntryForMeaning(entries, c.centreId);
    assert entries[n].centreId == c.centreId;
    var i :| 0 <= i < |entries| && entries[i].centreId == c.centreId
      && entries[i].box == C.EntryFor(entries, c.centreId).value;
    ReleasedKeyIsAccepted(s, req, c, cs, i);
  }

  /** With the released key, a seat's paper is the rendering of the content that was provisioned. */
  lemma ReleasedPaperIsTheProvisionedOne(s: A.State, content: nat, threshold: int, c: C.Config, cs: C.State, seat: Id,
      h: Id, pdf: Id)
    requires A.Holds(s, c.examId, PaperKind, content, threshold) && C.AtSeat(cs, seat, h)
    requires var b := PaperBundleId(c.examId);
      && b in s.bundles && b in cs.bundles && b in cs.held && b in cs.keys
      && cs.bundles[b].ciphertext == s.bundles[b].ciphertext && cs.bundles[b].examId == c.examId
      && cs.keys[b] == s.bundles[b].fingerprint
    ensures C.MadeFor(c, cs, seat, h, pdf) <==> c.render(content, seat, h) == Some(pdf)
    ensures C.Rendered(c, cs, seat, h) == Ok(pdf) <==> c.render(content, seat, h) == Some(pdf)
  {
    hide PaperBundleId, C.Rendered;
    C.RenderedFrom(c, cs, seat, h, pdf);
  }
}
