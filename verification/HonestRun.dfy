/** The protocol model is not empty: an honest run in which a paper is generated. */
module HonestRun {
  import opened Wrappers
  import opened IdealCrypto
  import opened Protocol
  import A = Authority
  import C = Centre
  import Audit

  function HonestRequest(bundleId: Id, examId: Id, centreId: Id): A.Request {
    A.Request(bundleId,
      [A.Submitted("a", Share(0, 1, 2, true)), A.Submitted("b", Share(0, 2, 2, true))],
      Some([centreId]), 0, false, examId, [], false)
  }

  function HonestBundle(examId: Id): A.Bundle {
    A.NewBundle(Kek(0), examId, PaperKind, 1, 2, 2)
  }

  /** The authority's part of an honest run. */
  function AuthorityPart(examId: Id, centreId: Id, publicKey: nat): seq<Step> {
    [AuthorityStep(A.EnrolCentre(centreId, publicKey)), AuthorityStep(A.EnrolCustodian("a")),
     AuthorityStep(A.EnrolCustodian("b")),
     AuthorityStep(A.Provision(examId, ["a", "b"], 2, 1, 1)),
     AuthorityStep(A.ScheduleRelease(examId, PaperBundleId(examId), 0)),
     AuthorityStep(A.PerformRelease(HonestRequest(PaperBundleId(examId), examId, centreId)))]
  }

  /** The centre's part. */
  function CentrePart(examId: Id, centreId: Id, publicKey: nat, token: C.Token): seq<Step> {
    var b, id := HonestBundle(examId), PaperBundleId(examId);
    [CentreStep(centreId,
       C.ReceiveBundle(b.ciphertext, C.Expected(id, examId, PaperKind, b.bundleHash, b.fingerprint, 2))),
     CentreStep(centreId, C.ReceiveWrappedKek(id, Box(publicKey, b.fingerprint))),
     CentreStep(centreId, C.CheckIn(token, 0)),
     CentreStep(centreId, C.GeneratePaper(token.seat))]
  }

  /** Enrolled, provisioned and scheduled: ready for a release. */
  ghost predicate ReadyToRelease(w: World, examId: Id, centreId: Id, publicKey: nat) {
    var id := PaperBundleId(examId);
    && w.clock == 0 && w.centres == map[] && w.authority.history == []
    && w.authority.distributions == {}
    && centreId in w.authority.centres && w.authority.centres[centreId] == publicKey
    && {"a", "b"} <= w.authority.custodians && Audit.FirstIssue(w.authority.log, id) == Some(["a", "b"])
    && id in w.authority.bundles && w.authority.bundles[id] == HonestBundle(examId)
    && (examId, id) in w.authority.schedules
    && w.authority.schedules[(examId, id)] == A.ScheduleRow(examId, id, 0, Some(A.ScheduleBody(examId, id, 0)))
  }

  lemma Enrolled(configs: Configs, examId: Id, centreId: Id, publicKey: nat)
    ensures var w := Run(configs, Start(0), AuthorityPart(examId, centreId, publicKey)[..3]);
      w == Start(0).(authority := w.authority) && w.authority.history == [] && w.authority.schedules == map[]
      && w.authority.bundles == map[] && w.authority.nextKey == 0 && w.authority.distributions == {}
      && w.authority.shares == map[] && w.authority.log == [A.CentreEnrolled(centreId)]
      && w.authority.centres == map[centreId := publicKey] && w.authority.custodians == {"a", "b"}
  {
    hide Run, A.DoProvision, A.DoPerformRelease, A.DoScheduleRelease, A.DoDistribute;
    var s := AuthorityPart(examId, centreId, publicKey);
    assert Run(configs, Start(0), []) == Start(0) by { RunNothing(configs, Start(0)); }
    RunOne(configs, Start(0), [], s[0]);
    assert s[..1] == [] + [s[0]];
    RunOne(configs, Start(0), s[..1], s[1]);
    assert s[..2] == s[..1] + [s[1]];
    RunOne(configs, Start(0), s[..2], s[2]);
    assert s[..3] == s[..2] + [s[2]];
  }

  lemma RunNothing(configs: Configs, w: World)
    ensures Run(configs, w, []) == w
  {}

  /** Building a bundle leaves everything else as it was. */
  ghost predicate OthersKept(s: A.State, t: A.State) {
    && t.custodians == s.custodians && t.centres == s.centres && t.history == s.history && t.schedules == s.schedules
    && t.distributions == s.distributions && s.log <= t.log
    && forall id | id in s.bundles :: id in t.bundles && t.bundles[id] == s.bundles[id]
  }

  lemma BuildKeepsOthers(s: A.State, examId: Id, kind: Kind, threshold: nat)
    ensures OthersKept(s, A.DoBuildBundle(s, examId, kind, 1, ["a", "b"], threshold).0)
  {
    hide A.PutShares, BundleId, A.NewBundle;
  }

  lemma FirstBuild(s: A.State, examId: Id)
    requires s.bundles == map[] && s.nextKey == 0
    ensures var t := A.DoBuildBundle(s, examId, PaperKind, 1, ["a", "b"], 2).0; var id := PaperBundleId(examId);
      id in t.bundles && t.bundles[id] == HonestBundle(examId)
  {
    hide A.PutShares, PaperBundleId, A.NewBundle;
  }

  lemma Provisioned(s: A.State, examId: Id)
    requires s.bundles == map[] && s.custodians == {"a", "b"} && s.nextKey == 0 && Audit.NoStrays(s)
    ensures var t, id := A.DoProvision(s, examId, ["a", "b"], 2, 1, 1).0, PaperBundleId(examId);
      && Audit.FirstIssue(t.log, id) == Some(["a", "b"])
      && id in t.bundles && t.bundles[id] == HonestBundle(examId) && OthersKept(s, t)
  {
    hide A.DoBuildBundle, PaperBundleId, HonestBundle, Audit.NoStrays, Audit.FirstIssue;
    assert A.ProvisionError(s, ["a", "b"], 2).None?;
    var first := A.DoBuildBundle(s, examId, PaperKind, 1, ["a", "b"], 2);
    FirstBuild(s, examId);
    BuildKeepsOthers(s, examId, PaperKind, 2);
    BuildKeepsOthers(first.0, examId, AnswersKind, 2);
    assert "a"[0] != "b"[0];
    Audit.ProvisionLogsCeremonies(s, examId, ["a", "b"], 2, 1, 1);
  }

  lemma BecomesReady(configs: Configs, examId: Id, centreId: Id, publicKey: nat)
    ensures ReadyToRelease(Run(configs, Start(0), AuthorityPart(examId, centreId, publicKey)[..5]), examId, centreId,
      publicKey)
  {
    hide Run, A.DoProvision, A.DoPerformRelease, HonestBundle, PaperBundleId;
    var s := AuthorityPart(examId, centreId, publicKey);
    Enrolled(configs, examId, centreId, publicKey);
    var w := Run(configs, Start(0), s[..3]);
    RunOne(configs, Start(0), s[..3], s[3]);
    assert s[..4] == s[..3] + [s[3]];
    Provisioned(w.authority, examId);
    var x := Run(configs, Start(0), s[..4]);
    RunOne(configs, Start(0), s[..4], s[4]);
    assert s[..5] == s[..4] + [s[4]];
    Audit.WorldStepKeepsIssue(configs, x, s[4], PaperBundleId(examId));
  }

  /** Two genuine shares of the first split pass every check. */
  lemma ReleaseSucceeds(w: World, examId: Id, centreId: Id, publicKey: nat)
    requires ReadyToRelease(w, examId, centreId, publicKey)
    ensures var req := HonestRequest(PaperBundleId(examId), examId, centreId);
      && A.Refusal(w.authority, req).None? && A.Reconstruction(w.authority, req).None?
  {
    hide PaperBundleId;
    var req := HonestRequest(PaperBundleId(examId), examId, centreId);
    var blobs := A.Blobs(req.shares);
    assert blobs == [Share(0, 1, 2, true), Share(0, 2, 2, true)];
    assert Combine(blobs) == Some(Kek(0));
  }

  lemma ReleaseIsPossible(w: World, examId: Id, centreId: Id, publicKey: nat)
    requires ReadyToRelease(w, examId, centreId, publicKey)
    ensures ReleasePossible(w, HonestRequest(PaperBundleId(examId), examId, centreId))
  {
    hide PaperBundleId, A.NewBundle;
    var id := PaperBundleId(examId);
    var req := HonestRequest(id, examId, centreId);
    assert w.authority.bundles[id].fingerprint == Kek(0)
      && w.authority.bundles[id].threshold == 2 by { HonestBundleIs(examId); }
    forall i | 0 <= i < |req.shares| ensures A.IsIssued(w.authority, req.shares[i].share) {
      assert id in w.authority.bundles && w.authority.bundles[id].fingerprint == Kek(req.shares[i].share.splitId);
    }
  }

  lemma HonestBundleIs(examId: Id)
    ensures HonestBundle(examId).fingerprint == Kek(0) && HonestBundle(examId).threshold == 2
  {}

  /** A centre that is set up for the exam, and a token that it admits. */
  ghost predicate Willing(c: C.Config, examId: Id, centreId: Id, publicKey: nat, token: C.Token) {
    && c.examId == examId && c.centreId == centreId && c.publicKey == publicKey && C.Admits(c, token, 0)
    && c.render(1, token.seat, c.tokenHash(token)).Some?
  }

  function Received(examId: Id): C.State {
    var b := HonestBundle(examId);
    C.EMPTY.(
      bundles := map[PaperBundleId(examId) := C.BundleRow(examId, PaperKind, b.bundleHash, b.fingerprint, 2,
        b.ciphertext)],
      log := [C.BundleReceived(PaperBundleId(examId), b.bundleHash)])
  }

  function WithKey(examId: Id): C.State {
    var s, id := Received(examId), PaperBundleId(examId);
    s.(keys := map[id := Kek(0)], held := {id}, log := s.log + [C.KekReceived(id, Kek(0))])
  }

  function WithCandidate(examId: Id, seat: Id, h: Id): C.State {
    var s := WithKey(examId);
    s.(checkins := map[h := seat], log := s.log + [C.CheckedIn(seat, h)])
  }

  lemma CentreReceives(c: C.Config, examId: Id, centreId: Id, publicKey: nat, token: C.Token)
    requires Willing(c, examId, centreId, publicKey, token)
    ensures var b, id := HonestBundle(examId), PaperBundleId(examId);
      && C.Apply(c, C.EMPTY, C.ReceiveBundle(b.ciphertext,
        C.Expected(id, examId, PaperKind, b.bundleHash, b.fingerprint, 2))) == Received(examId)
      && C.Apply(c, Received(examId), C.ReceiveWrappedKek(id, Box(publicKey, b.fingerprint))) == WithKey(examId)
      && C.Apply(c, WithKey(examId), C.CheckIn(token, 0)) == WithCandidate(examId, token.seat, c.tokenHash(token))
  {
    hide PaperBundleId;
    var b, id := HonestBundle(examId), PaperBundleId(examId);
    assert [] + [C.BundleReceived(id, b.bundleHash)] == [C.BundleReceived(id, b.bundleHash)];
    assert token.seat !in WithKey(examId).checkins.Values;
  }

  lemma CentreGenerates(c: C.Config, examId: Id, centreId: Id, publicKey: nat, token: C.Token)
    requires Willing(c, examId, centreId, publicKey, token)
    ensures C.DoGeneratePaper(c, WithCandidate(examId, token.seat, c.tokenHash(token)), token.seat).Ok?
  {
    hide PaperBundleId;
    var h := c.tokenHash(token);
    var s := WithCandidate(examId, token.seat, h);
    assert C.AtSeat(s, token.seat, h);
    assert C.Rendered(c, s, token.seat, h).Ok?;
    assert forall k | C.AtSeat(s, token.seat, k) :: k == h;
  }

  /** One centre step of a world. */
  lemma CentreMoves(configs: Configs, w: World, id: Id, s: C.Step)
    requires Possible(w, CentreStep(id, s))
    ensures var v := Apply(configs, w, CentreStep(id, s));
      && v.authority == w.authority && CentreState(v, id) == C.Apply(configs(id), CentreState(w, id), s)
  {
    hide C.Apply;
  }

  /** The state of the centre after the first i moves of its part. */
  function Stage(c: C.Config, examId: Id, token: C.Token, i: nat): C.State {
    if i == 0 then C.EMPTY else if i == 1 then Received(examId) else if i == 2 then WithKey(examId)
    else WithCandidate(examId, token.seat, c.tokenHash(token))
  }

  /** Where the world is after those moves. */
  ghost predicate Reached(w: World, v: World, c: C.Config, examId: Id, centreId: Id, token: C.Token, i: nat) {
    v.authority == w.authority && CentreState(v, centreId) == Stage(c, examId, token, i)
  }

  lemma NextStage(configs: Configs, w: World, v: World, examId: Id, centreId: Id, publicKey: nat, token: C.Token,
      i: nat)
    requires Willing(configs(centreId), examId, centreId, publicKey, token) && Known(w, Kek(0)) && i < 3
    requires Reached(w, v, configs(centreId), examId, centreId, token, i)
    ensures var step := CentrePart(examId, centreId, publicKey, token)[i];
      Reached(w, Apply(configs, v, step), configs(centreId), examId, centreId, token, i + 1)
  {
    hide Run, C.Apply, Possible, HonestBundle, PaperBundleId, Willing, Apply, Known, WithCandidate, WithKey, Received;
    var c, step := configs(centreId), CentrePart(examId, centreId, publicKey, token)[i];
    StillKnown(w, v);
    MovesArePossible(v, examId, centreId, publicKey, token, i);
    CentreMoves(configs, v, centreId, step.move);
    CentreReceives(c, examId, centreId, publicKey, token);
  }

  lemma {:induction false} Stages(configs: Configs, w: World, examId: Id, centreId: Id, publicKey: nat, token: C.Token,
      i: nat)
    requires Willing(configs(centreId), examId, centreId, publicKey, token) && Known(w, Kek(0)) && i <= 3
    requires centreId !in w.centres
    ensures Reached(w, Run(configs, w, CentrePart(examId, centreId, publicKey, token)[..i]), configs(centreId), examId,
      centreId, token, i)
  {
    hide Run, Apply, Willing, Known, WithCandidate, WithKey, Received, HonestBundle, PaperBundleId;
    var s := CentrePart(examId, centreId, publicKey, token);
    if i == 0 {
      assert s[..0] == [];
      RunNothing(configs, w);
    } else {
      Stages(configs, w, examId, centreId, publicKey, token, i - 1);
      NextStage(configs, w, Run(configs, w, s[..i - 1]), examId, centreId, publicKey, token, i - 1);
      RunOne(configs, w, s[..i - 1], s[i - 1]);
      assert s[..i] == s[..i - 1] + [s[i - 1]];
    }
  }

  /** After the release the centre's part goes through. */
  lemma CentreFinishes(configs: Configs, w: World, examId: Id, centreId: Id, publicKey: nat, token: C.Token)
    requires Willing(configs(centreId), examId, centreId, publicKey, token)
    requires centreId !in w.centres && Known(w, Kek(0))
    ensures var part := CentrePart(examId, centreId, publicKey, token); var v := Run(configs, w, part[..3]);
      && v.authority == w.authority && Generates(configs, v, part[3])
      && Source(configs, v, centreId) == Some(HonestBundle(examId).ciphertext)
  {
    hide Run, C.Apply, HonestBundle, PaperBundleId, Known, C.Admits, C.DoGeneratePaper;
    Stages(configs, w, examId, centreId, publicKey, token, 3);
    CentreGenerates(configs(centreId), examId, centreId, publicKey, token);
  }

  lemma MovesArePossible(w: World, examId: Id, centreId: Id, publicKey: nat, token: C.Token, i: nat)
    requires i < 3 && Known(w, Kek(0))
    ensures Possible(w, CentrePart(examId, centreId, publicKey, token)[i])
  {
    hide PaperBundleId, HonestBundle, Known;
    HonestBundleIs(examId);
  }

  lemma StillKnown(w: World, v: World)
    requires Known(w, Kek(0)) && v.authority == w.authority
    ensures Known(v, Kek(0))
  {}

  /** The last step of some run generates a paper from an authority bundle. */
  lemma SomeRunGeneratesAPaper(configs: Configs, examId: Id, centreId: Id, publicKey: nat, token: C.Token)
    requires Willing(configs(centreId), examId, centreId, publicKey, token)
    ensures var steps := AuthorityPart(examId, centreId, publicKey) + CentrePart(examId, centreId, publicKey, token);
      var m := |steps| - 1; var w, id := At(configs, 0, steps, m), PaperBundleId(examId);
      && Generates(configs, w, steps[m]) && id in w.authority.bundles
      && Source(configs, w, steps[m].centreId) == Some(w.authority.bundles[id].ciphertext)
  {
    hide Run, HonestBundle, PaperBundleId, Willing, ReadyToRelease, A.DoPerformRelease, Generates, Source;
    var a, b := AuthorityPart(examId, centreId, publicKey), CentrePart(examId, centreId, publicKey, token);
    BecomesReady(configs, examId, centreId, publicKey);
    var w := Run(configs, Start(0), a[..5]);
    RunOne(configs, Start(0), a[..5], a[5]);
    assert a == a[..5] + [a[5]];
    var v := Run(configs, Start(0), a);
    AfterTheRelease(configs, w, examId, centreId, publicKey);
    CentreFinishes(configs, v, examId, centreId, publicKey, token);
    RunAppend(configs, Start(0), a, b[..3]);
    assert (a + b)[..9] == a + b[..3] && (a + b)[9] == b[3];
  }

  lemma AfterTheRelease(configs: Configs, w: World, examId: Id, centreId: Id, publicKey: nat)
    requires ReadyToRelease(w, examId, centreId, publicKey)
    ensures var req := HonestRequest(PaperBundleId(examId), examId, centreId);
      var v := Apply(configs, w, AuthorityStep(A.PerformRelease(req)));
      && v.centres == map[] && Known(v, Kek(0))
      && PaperBundleId(examId) in v.authority.bundles
      && v.authority.bundles[PaperBundleId(examId)] == HonestBundle(examId)
  {
    hide PaperBundleId, A.Refusal, A.Reconstruction, A.RecordAll, A.Wrap, ReleasePossible, A.Enabled, HonestBundle;
    ReleaseIsPossible(w, examId, centreId, publicKey);
    PossibleRelease(w, HonestRequest(PaperBundleId(examId), examId, centreId));
    ReleaseSucceeds(w, examId, centreId, publicKey);
    HonestBundleIs(examId);
    var v := Apply(configs, w, AuthorityStep(A.PerformRelease(HonestRequest(PaperBundleId(examId), examId, centreId))));
    assert v.authority.history[0].key == Kek(0);
  }

  lemma PossibleRelease(w: World, req: A.Request)
    requires ReleasePossible(w, req)
    ensures Possible(w, AuthorityStep(A.PerformRelease(req)))
  {
    hide A.Enabled;
  }

  // ---------- honest runs that the audit flags ----------

  /** Naming a custodian twice loses the ceremony: the paper bundle is stored and can be released, and T9
      finds no ceremony for it at any later time. */
  lemma TwiceNamedHasNoCeremony(configs: Configs, examId: Id, centreId: Id, publicKey: nat, after: seq<Step>)
    ensures var provision := AuthorityStep(A.Provision(examId, ["a", "b", "a"], 2, 1, 1));
      var s := Run(configs, Start(0), AuthorityPart(examId, centreId, publicKey)[..3] + [provision] + after).authority;
      PaperBundleId(examId) in s.bundles && Audit.FirstIssue(s.log, PaperBundleId(examId)).None?
  {
    hide Run, PaperBundleId, Audit.FirstIssue;
    var ids := ["a", "b", "a"];
    Enrolled(configs, examId, centreId, publicKey);
    assert ids[0] == ids[2];
    Audit.CeremonyIsLogged(configs, 0, AuthorityPart(examId, centreId, publicKey)[..3], examId, ids, 2, 1, 1, after);
  }

  /** The second share is submitted by a custodian who was enrolled after the ceremony. */
  function StrangersRequest(bundleId: Id, examId: Id, centreId: Id): A.Request {
    HonestRequest(bundleId, examId, centreId).(
      shares := [A.Submitted("a", Share(0, 1, 2, true)), A.Submitted("z", Share(0, 2, 2, true))])
  }

  function StrangersRun(examId: Id, centreId: Id, publicKey: nat): seq<Step> {
    AuthorityPart(examId, centreId, publicKey)[..5]
    + [AuthorityStep(A.EnrolCustodian("z"))]
    + [AuthorityStep(A.PerformRelease(StrangersRequest(PaperBundleId(examId), examId, centreId)))]
  }

  lemma StrangerIsServed(w: World, examId: Id, centreId: Id, publicKey: nat)
    requires ReadyToRelease(w, examId, centreId, publicKey) && "z" in w.authority.custodians
    ensures var req := StrangersRequest(PaperBundleId(examId), examId, centreId);
      && A.Refusal(w.authority, req).None? && A.Reconstruction(w.authority, req).None? && ReleasePossible(w, req)
  {
    hide PaperBundleId, Audit.FirstIssue;
    var id := PaperBundleId(examId);
    var req := StrangersRequest(id, examId, centreId);
    var blobs := A.Blobs(req.shares);
    assert blobs == [Share(0, 1, 2, true), Share(0, 2, 2, true)];
    assert Combine(blobs) == Some(Kek(0));
    assert "a"[0] != "z"[0];
    HonestBundleIs(examId);
    forall i | 0 <= i < |req.shares| ensures A.IsIssued(w.authority, req.shares[i].share) {
      assert id in w.authority.bundles && w.authority.bundles[id].fingerprint == Kek(req.shares[i].share.splitId);
    }
  }

  /** The release path checks enrolment, not issuance, so the audit can flag a run of the protocol. */
  lemma AuditFlagsAStranger(configs: Configs, examId: Id, centreId: Id, publicKey: nat)
    ensures var log := Run(configs, Start(0), StrangersRun(examId, centreId, publicKey)).authority.log;
      && log != [] && log[|log| - 1].KekReleased? && Audit.Judge(log, log[|log| - 1]) == Audit.NeverIssued(["z"])
  {
    hide Run, ReadyToRelease, PaperBundleId, Apply, A.DoPerformRelease, HonestBundle;
    var a, id := AuthorityPart(examId, centreId, publicKey)[..5], PaperBundleId(examId);
    var enrol, req := AuthorityStep(A.EnrolCustodian("z")), StrangersRequest(id, examId, centreId);
    BecomesReady(configs, examId, centreId, publicKey);
    var w := Run(configs, Start(0), a);
    RunOne(configs, Start(0), a, enrol);
    var x := Run(configs, Start(0), a + [enrol]);
    StillReady(configs, w, examId, centreId, publicKey);
    StrangerIsServed(x, examId, centreId, publicKey);
    RunOne(configs, Start(0), a + [enrol], AuthorityStep(A.PerformRelease(req)));
    var v := Run(configs, Start(0), StrangersRun(examId, centreId, publicKey));
    ReleaseIsLogged(configs, x, req);
    IssueOf(x, examId, centreId, publicKey);
    Audit.WorldStepKeepsIssue(configs, x, AuthorityStep(A.PerformRelease(req)), id);
    StrangerIsNotNamed(v.authority.log, v.authority.log[|v.authority.log| - 1]);
  }

  lemma StillReady(configs: Configs, w: World, examId: Id, centreId: Id, publicKey: nat)
    requires ReadyToRelease(w, examId, centreId, publicKey)
    ensures var x := Apply(configs, w, AuthorityStep(A.EnrolCustodian("z")));
      ReadyToRelease(x, examId, centreId, publicKey) && "z" in x.authority.custodians
  {
    hide PaperBundleId, HonestBundle, Audit.FirstIssue;
  }

  lemma IssueOf(w: World, examId: Id, centreId: Id, publicKey: nat)
    requires ReadyToRelease(w, examId, centreId, publicKey)
    ensures Audit.FirstIssue(w.authority.log, PaperBundleId(examId)) == Some(["a", "b"])
    ensures PaperBundleId(examId) in w.authority.bundles && w.authority.bundles[PaperBundleId(examId)].threshold == 2
  {
    HonestBundleIs(examId);
  }

  lemma ReleaseIsLogged(configs: Configs, w: World, req: A.Request)
    requires ReleasePossible(w, req) && A.Refusal(w.authority, req).None? && A.Reconstruction(w.authority, req).None?
    ensures var log := Apply(configs, w, AuthorityStep(A.PerformRelease(req))).authority.log;
      var last := log[|log| - 1];
      && |log| > |w.authority.log| && w.authority.log <= log && last.KekReleased? && last.bundleId == req.bundleId
      && last.threshold == w.authority.bundles[req.bundleId].threshold && last.custodianIds == A.Custodians(req.shares)
  {
    hide A.Refusal, A.Reconstruction, A.RecordAll, A.Wrap, ReleasePossible, A.Enabled, A.Custodians;
    PossibleRelease(w, req);
  }

  lemma StrangerIsNotNamed(log: seq<A.Event>, e: A.Event)
    requires e.KekReleased? && e.threshold == 2 && e.custodianIds == ["a", "z"]
    requires Audit.FirstIssue(log, e.bundleId) == Some(["a", "b"])
    ensures Audit.Judge(log, e) == Audit.NeverIssued(["z"])
  {
    hide Audit.FirstIssue;
    assert "a"[0] != "z"[0] && "b"[0] != "z"[0];
    Audit.DistinctMembers(["a", "z"]);
    assert Audit.NotAmong(["z"], ["a", "b"]) == ["z"] by { assert ["z"][1..] == []; assert "z" !in ["a", "b"]; }
    assert ["a", "z"][1..] == ["z"];
  }
}
