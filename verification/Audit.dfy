/**
 Two loops of the independent audit: seat binding (T7) over the centres' logs and the custodian
 threshold (T9) over the authority's log, and what they say about logs that the protocol wrote.
 */
module Audit {
  import opened Wrappers
  import opened IdealCrypto
  import A = Authority
  import C = Centre
  import P = Protocol

  // ---------- T7: seat binding ----------

  /** The seat that the last check-in of a token names: later entries of a map replace earlier ones. */
  function LastSeat(log: seq<C.Event>, token: Id): Option<Id> {
    if log == [] then None
    else
      var e := log[|log| - 1];
      if e.CheckedIn? && e.tokenHash == token then Some(e.seat) else LastSeat(log[..|log| - 1], token)
  }

  predicate IsBound(log: seq<C.Event>, e: C.Event) {
    e.PaperGenerated? ==> LastSeat(log, e.tokenHash) == Some(e.seat)
  }

  /** The first n entries that generate a paper for a token checked in elsewhere or nowhere. */
  function Mismatches(log: seq<C.Event>, n: nat): seq<C.Event>
    requires n <= |log|
  {
    if n == 0 then [] else
    Mismatches(log, n - 1) + if IsBound(log, log[n - 1]) then [] else [log[n - 1]]
  }

  method CheckedInSeats(log: seq<C.Event>) returns (m: map<Id, Id>)
    ensures forall t :: (t in m <==> LastSeat(log, t).Some?) && (t in m ==> LastSeat(log, t) == Some(m[t]))
  {
    m := map[];
    assert log[..0] == [];
    for i := 0 to |log|
      invariant forall t ::
        (t in m <==> LastSeat(log[..i], t).Some?) && (t in m ==> LastSeat(log[..i], t) == Some(m[t]))
    {
      assert log[..i + 1][..i] == log[..i] && log[..i + 1][i] == log[i];
      if log[i].CheckedIn? {
        m := m[log[i].tokenHash := log[i].seat];
      }
    }
    assert log[..|log|] == log;
  }

  /** Checks one centre's log. */
  method CheckSeats(log: seq<C.Event>) returns (bad: seq<C.Event>)
    ensures bad == Mismatches(log, |log|)
  {
    var seats := CheckedInSeats(log);
    bad := [];
    for i := 0 to |log|
      invariant bad == Mismatches(log, i)
    {
      if log[i].PaperGenerated? {
        if log[i].tokenHash !in seats || seats[log[i].tokenHash] != log[i].seat {
          bad := bad + [log[i]];
        }
      }
    }
  }

  /** Every centre in turn. */
  method AuditSeats(logs: seq<seq<C.Event>>) returns (ok: bool)
    ensures ok <==> forall i, e | 0 <= i < |logs| && e in logs[i] :: IsBound(logs[i], e)
    ensures ok <==> forall i, e | 0 <= i < |logs| && e in logs[i] && e.PaperGenerated? ::
      exists j: nat :: LastCheckIn(logs[i], e.tokenHash, j) && logs[i][j].seat == e.seat
  {
    ok := true;
    for i := 0 to |logs|
      invariant ok <==> forall j, e | 0 <= j < i && e in logs[j] :: IsBound(logs[j], e)
    {
      var bad := CheckSeats(logs[i]);
      MismatchesMeaning(logs[i], |logs[i]|);
      if |bad| > 0 {
        ok := false;
      }
    }
    forall i, e | 0 <= i < |logs| && e in logs[i] && e.PaperGenerated?
      ensures IsBound(logs[i], e) <==>
        exists j: nat :: LastCheckIn(logs[i], e.tokenHash, j) && logs[i][j].seat == e.seat
    {
      IsBoundMeaning(logs[i], e);
    }
  }

  lemma {:induction false} MismatchesMeaning(log: seq<C.Event>, n: nat)
    requires n <= |log|
    ensures Mismatches(log, n) == [] <==> forall i | 0 <= i < n :: IsBound(log, log[i])
  {
    hide IsBound;
    if n > 0 {
      MismatchesMeaning(log, n - 1);
    }
  }

  lemma {:induction false} OnlyCheckIn(log: seq<C.Event>, j: nat, n: nat)
    requires j < n <= |log| && log[j].CheckedIn?
    requires forall k | 0 <= k < |log| && log[k].CheckedIn? && log[k].tokenHash == log[j].tokenHash :: k == j
    ensures LastSeat(log[..n], log[j].tokenHash) == Some(log[j].seat)
  {
    assert log[..n][n - 1] == log[n - 1] && log[..n][..n - 1] == log[..n - 1];
    if n - 1 > j {
      OnlyCheckIn(log, j, n - 1);
    }
  }

  lemma CheckInIsUnique(c: C.Config, log: seq<C.Event>, j: nat, k: nat)
    requires C.GoodLog(c, log) && j < |log| && k < |log| && log[j].CheckedIn? && log[k].CheckedIn?
    requires log[j].tokenHash == log[k].tokenHash || log[j].seat == log[k].seat
    ensures j == k
  {
    hide C.KeyInForce;
    assert C.GoodEntry(c, log, j) && C.GoodEntry(c, log, k);
  }

  /** Entry j is the last check-in of the token. */
  ghost predicate LastCheckIn(log: seq<C.Event>, token: Id, j: nat) {
    j < |log| && log[j].CheckedIn? && log[j].tokenHash == token
    && forall k | j < k < |log| :: !(log[k].CheckedIn? && log[k].tokenHash == token)
  }

  lemma {:induction false} LastSeatMeaning(log: seq<C.Event>, token: Id)
    ensures LastSeat(log, token).None? <==>
      forall k | 0 <= k < |log| :: !(log[k].CheckedIn? && log[k].tokenHash == token)
    ensures LastSeat(log, token).Some? ==>
      exists j: nat :: LastCheckIn(log, token, j) && log[j].seat == LastSeat(log, token).value
    ensures forall j: nat | LastCheckIn(log, token, j) :: LastSeat(log, token) == Some(log[j].seat)
  {
    if log != [] {
      var last, init := |log| - 1, log[..|log| - 1];
      LastSeatMeaning(init, token);
      if log[last].CheckedIn? && log[last].tokenHash == token {
        assert LastCheckIn(log, token, last);
        forall j: nat | LastCheckIn(log, token, j) ensures j == last {}
      } else {
        forall j: nat ensures LastCheckIn(log, token, j) <==> LastCheckIn(init, token, j) {}
        if LastSeat(init, token).Some? {
          var j: nat :| LastCheckIn(init, token, j) && init[j].seat == LastSeat(init, token).value;
          assert LastCheckIn(log, token, j) && log[j].seat == LastSeat(log, token).value;
        }
      }
    }
  }

  /** A paper passes exactly when its token last checked in at its seat. */
  lemma IsBoundMeaning(log: seq<C.Event>, e: C.Event)
    requires e.PaperGenerated?
    ensures IsBound(log, e) <==> exists j: nat :: LastCheckIn(log, e.tokenHash, j) && log[j].seat == e.seat
  {
    hide LastSeat, LastCheckIn;
    LastSeatMeaning(log, e.tokenHash);
  }

  /** The log of every run of a centre passes. */
  lemma CentreRunsPassT7(c: C.Config, steps: seq<C.Step>)
    ensures var log := C.Run(c, C.EMPTY, steps).log;
      (forall e | e in log :: IsBound(log, e)) && Mismatches(log, |log|) == []
  {
    hide C.Run, C.Agrees, C.KeysInForce, C.GoodEntry, LastSeat;
    C.EveryRunIsGood(c, steps);
    var log := C.Run(c, C.EMPTY, steps).log;
    forall i: nat | i < |log| ensures IsBound(log, log[i]) {
      if log[i].PaperGenerated? {
        PaperHasCheckIn(c, log, i);
      }
    }
    MismatchesMeaning(log, |log|);
  }

  lemma PaperHasCheckIn(c: C.Config, log: seq<C.Event>, i: nat)
    requires C.GoodLog(c, log) && i < |log| && log[i].PaperGenerated?
    ensures LastSeat(log, log[i].tokenHash) == Some(log[i].seat)
  {
    hide C.KeyInForce, LastSeat;
    assert C.GoodEntry(c, log, i);
    var j :| 0 <= j < i && log[j] == C.CheckedIn(log[i].seat, log[i].tokenHash);
    forall k | 0 <= k < |log| && log[k].CheckedIn? && log[k].tokenHash == log[j].tokenHash ensures k == j {
      CheckInIsUnique(c, log, j, k);
    }
    OnlyCheckIn(log, j, |log|);
    assert log[..|log|] == log;
  }

  // ---------- T9: the custodian threshold ----------

  datatype Verdict = NoCeremony | BelowThreshold | NeverIssued(ids: seq<Id>) | Met

  /** The holders named by the first issuing ceremony of a bundle. */
  function FirstIssue(log: seq<A.Event>, bundleId: Id): Option<seq<Id>> {
    if log == [] then None
    else if log[0].SharesIssued? && log[0].bundleId == bundleId then Some(log[0].holders)
    else FirstIssue(log[1..], bundleId)
  }

  function NotAmong(ids: seq<Id>, holders: seq<Id>): seq<Id> {
    if ids == [] then [] else (if ids[0] in holders then [] else [ids[0]]) + NotAmong(ids[1..], holders)
  }

  function Members(ids: seq<Id>): set<Id> {
    set id | id in ids
  }

  function Judge(log: seq<A.Event>, rel: A.Event): Verdict
    requires rel.KekReleased?
  {
    var issued := FirstIssue(log, rel.bundleId);
    if issued.None? then NoCeremony
    else if |rel.custodianIds| < rel.threshold || |Members(rel.custodianIds)| < rel.threshold then BelowThreshold
    else
      var unknown := NotAmong(rel.custodianIds, issued.value);
      if unknown != [] then NeverIssued(unknown) else Met
  }

  function Judgements(log: seq<A.Event>, n: nat): seq<Verdict>
    requires n <= |log|
  {
    if n == 0 then [] else
    Judgements(log, n - 1) + if log[n - 1].KekReleased? then [Judge(log, log[n - 1])] else []
  }

  method AuditThresholds(log: seq<A.Event>) returns (ok: bool, verdicts: seq<Verdict>)
    ensures verdicts == Judgements(log, |log|)
    ensures ok <==> forall i | 0 <= i < |log| && log[i].KekReleased? :: Judge(log, log[i]) == Met
  {
    ok, verdicts := true, [];
    for i := 0 to |log|
      invariant verdicts == Judgements(log, i)
      invariant ok <==> forall j | 0 <= j < i && log[j].KekReleased? :: Judge(log, log[j]) == Met
    {
      if log[i].KekReleased? {
        var v := JudgeRelease(log, log[i]);
        if v != Met {
          ok := false;
        }
        verdicts := verdicts + [v];
      }
    }
  }

  method JudgeRelease(log: seq<A.Event>, rel: A.Event) returns (v: Verdict)
    requires rel.KekReleased?
    ensures v == Judge(log, rel)
  {
    var issued := FirstIssue(log, rel.bundleId);
    if issued.None? {
      return NoCeremony;
    }
    var issuedTo := Members(issued.value);
    var unknown: seq<Id> := [];
    for i := 0 to |rel.custodianIds|
      invariant unknown + NotAmong(rel.custodianIds[i..], issued.value) == NotAmong(rel.custodianIds, issued.value)
    {
      assert rel.custodianIds[i..][1..] == rel.custodianIds[i + 1..];
      if rel.custodianIds[i] !in issuedTo {
        unknown := unknown + [rel.custodianIds[i]];
      }
    }
    assert unknown + [] == unknown;
    if |rel.custodianIds| < rel.threshold || |Members(rel.custodianIds)| < rel.threshold {
      return BelowThreshold;
    }
    if |unknown| > 0 {
      return NeverIssued(unknown);
    }
    return Met;
  }

  lemma {:induction false} NotAmongMeaning(ids: seq<Id>, holders: seq<Id>)
    ensures NotAmong(ids, holders) == [] <==> forall id | id in ids :: id in holders
  {
    if ids != [] {
      NotAmongMeaning(ids[1..], holders);
      assert forall id :: id in ids <==> id == ids[0] || id in ids[1..];
    }
  }

  /** Entry i is the first issuing ceremony of the bundle. */
  ghost predicate FirstCeremony(log: seq<A.Event>, bundleId: Id, i: nat) {
    i < |log| && log[i].SharesIssued? && log[i].bundleId == bundleId
    && forall k | 0 <= k < i :: !(log[k].SharesIssued? && log[k].bundleId == bundleId)
  }

  lemma {:induction false} FirstIssueMeaning(log: seq<A.Event>, bundleId: Id)
    ensures FirstIssue(log, bundleId).None? <==>
      forall k | 0 <= k < |log| :: !(log[k].SharesIssued? && log[k].bundleId == bundleId)
    ensures FirstIssue(log, bundleId).Some? ==> exists i: nat :: FirstCeremony(log, bundleId, i)
    ensures forall i: nat | FirstCeremony(log, bundleId, i) :: FirstIssue(log, bundleId) == Some(log[i].holders)
  {
    if log != [] {
      if log[0].SharesIssued? && log[0].bundleId == bundleId {
        assert FirstCeremony(log, bundleId, 0);
      } else {
        var rest := log[1..];
        FirstIssueMeaning(rest, bundleId);
        forall k: nat | k < |rest| ensures FirstCeremony(rest, bundleId, k) <==> FirstCeremony(log, bundleId, k + 1) {
          assert rest[k] == log[k + 1];
          assert forall m | 0 < m < k + 1 :: log[m] == rest[m - 1];
        }
        if FirstIssue(rest, bundleId).Some? {
          var i: nat :| FirstCeremony(rest, bundleId, i);
          assert FirstCeremony(log, bundleId, i + 1);
        }
        forall i: nat | FirstCeremony(log, bundleId, i) ensures FirstIssue(log, bundleId) == Some(log[i].holders) {
          assert FirstCeremony(rest, bundleId, i - 1);
        }
        assert forall k | 0 < k < |log| :: log[k] == rest[k - 1];
      }
    }
  }

  /** What each verdict on a release says about the log. */
  lemma JudgeMeaning(log: seq<A.Event>, e: A.Event)
    requires e.KekReleased?
    ensures Judge(log, e) == NoCeremony <==>
      forall k | 0 <= k < |log| :: !(log[k].SharesIssued? && log[k].bundleId == e.bundleId)
    ensures forall i: nat | FirstCeremony(log, e.bundleId, i) ::
      var few := |e.custodianIds| < e.threshold || |set id | id in e.custodianIds| < e.threshold;
      && (Judge(log, e) == BelowThreshold <==> few)
      && (Judge(log, e) == Met <==> !few && forall id | id in e.custodianIds :: id in log[i].holders)
      && (Judge(log, e).NeverIssued? <==> !few && exists id :: id in e.custodianIds && id !in log[i].holders)
      && (Judge(log, e).NeverIssued? ==>
            forall id :: id in Judge(log, e).ids <==> id in e.custodianIds && id !in log[i].holders)
  {
    hide FirstIssue, FirstCeremony, NotAmong;
    FirstIssueMeaning(log, e.bundleId);
    assert Members(e.custodianIds) == set id | id in e.custodianIds;
    if FirstIssue(log, e.bundleId).Some? {
      NotAmongMembers(e.custodianIds, FirstIssue(log, e.bundleId).value);
      NotAmongMeaning(e.custodianIds, FirstIssue(log, e.bundleId).value);
    }
  }

  lemma {:induction false} NotAmongMembers(ids: seq<Id>, holders: seq<Id>)
    ensures forall id :: id in NotAmong(ids, holders) <==> id in ids && id !in holders
  {
    if ids != [] {
      NotAmongMembers(ids[1..], holders);
      assert forall id :: id in ids <==> id == ids[0] || id in ids[1..];
    }
  }

  lemma {:induction false} DistinctMembers(ids: seq<Id>)
    requires forall i, j | 0 <= i < j < |ids| :: ids[i] != ids[j]
    ensures |Members(ids)| == |ids|
  {
    if ids != [] {
      DistinctMembers(ids[1..]);
      assert Members(ids) == {ids[0]} + Members(ids[1..]);
      assert ids[0] !in ids[1..];
    }
  }

  // ---------- the first ceremony of a bundle never changes ----------

  lemma {:induction false} NoNewIssue(log: seq<A.Event>, more: seq<A.Event>, id: Id)
    requires forall e | e in more && e.SharesIssued? :: e.bundleId != id
    ensures FirstIssue(log + more, id) == FirstIssue(log, id)
    decreases |log| + |more|
  {
    if log != [] {
      assert (log + more)[0] == log[0] && (log + more)[1..] == log[1..] + more;
      NoNewIssue(log[1..], more, id);
    } else if more != [] {
      assert log + more == more && [] + more[1..] == more[1..];
      NoNewIssue([], more[1..], id);
    }
  }

  /** The bundle stays, and so does what its first ceremony names. */
  ghost predicate SameIssue(s: A.State, t: A.State, id: Id) {
    id in t.bundles && FirstIssue(t.log, id) == FirstIssue(s.log, id)
  }

  lemma BuildKeepsIssue(s: A.State, examId: Id, kind: Kind, content: nat, custodians: seq<Id>, threshold: nat, id: Id)
    requires id in s.bundles
    ensures SameIssue(s, A.DoBuildBundle(s, examId, kind, content, custodians, threshold).0, id)
  {
    hide FirstIssue, A.PutShares, BundleId, A.NewBundle;
    var t := A.DoBuildBundle(s, examId, kind, content, custodians, threshold).0;
    assert t.log == s.log + t.log[|s.log|..];
    NoNewIssue(s.log, t.log[|s.log|..], id);
  }

  /** What a release, successful or not, adds to the log, and that it leaves bundles and shares alone. */
  lemma ReleaseAppends(s: A.State, req: A.Request)
    ensures var t := A.DoPerformRelease(s, req).0;
      t.bundles == s.bundles && t.shares == s.shares && NoCeremonies(s, t)
  {
    hide A.Refusal, A.Reconstruction, A.RecordAll, A.Wrap, A.ReleaseEvent;
    assert A.Refusal(s, req).None? ==> A.ReleaseEvent(s, req).KekReleased? by { ItIsARelease(s, req); }
  }

  lemma ItIsARelease(s: A.State, req: A.Request)
    ensures A.Refusal(s, req).None? ==> A.ReleaseEvent(s, req).KekReleased?
  {
    hide A.Refusal;
  }

  /** The log grows by entries other than ceremonies. */
  ghost predicate NoCeremonies(s: A.State, t: A.State) {
    s.log <= t.log && forall i | |s.log| <= i < |t.log| :: !t.log[i].SharesIssued?
  }

  lemma ReleaseKeepsIssue(s: A.State, req: A.Request, id: Id)
    requires id in s.bundles
    ensures SameIssue(s, A.DoPerformRelease(s, req).0, id)
  {
    hide FirstIssue, A.DoPerformRelease;
    var t := A.DoPerformRelease(s, req).0;
    ReleaseAppends(s, req);
    assert t.log == s.log + t.log[|s.log|..];
    NoNewIssue(s.log, t.log[|s.log|..], id);
  }

  lemma StepKeepsIssue(s: A.State, step: A.Step, id: Id)
    requires id in s.bundles
    ensures SameIssue(s, A.Apply(s, step), id)
  {
    hide FirstIssue, A.DoBuildBundle, A.DoPerformRelease;
    match step
    case Provision(e, cs, t, p, a) =>
      if t >= 2 {
        BuildKeepsIssue(s, e, PaperKind, p, cs, t, id);
        BuildKeepsIssue(A.DoBuildBundle(s, e, PaperKind, p, cs, t).0, e, AnswersKind, a, cs, t, id);
      }
    case PerformRelease(req) => ReleaseKeepsIssue(s, req, id);
    case _ =>
      var t := A.Apply(s, step);
      assert t.log == s.log + t.log[|s.log|..];
      NoNewIssue(s.log, t.log[|s.log|..], id);
  }

  lemma WorldStepKeepsIssue(configs: P.Configs, w: P.World, step: P.Step, id: Id)
    requires id in w.authority.bundles
    ensures SameIssue(w.authority, P.Apply(configs, w, step).authority, id)
  {
    hide FirstIssue, A.Apply, A.DoPerformRelease, C.Apply, P.Possible;
    if step.AuthorityStep? {
      StepKeepsIssue(w.authority, step.step, id);
    } else if step.ReleaseOffline? {
      ReleaseKeepsIssue(w.authority, step.request, id);
    }
  }

  lemma {:induction false} RunKeepsIssue(configs: P.Configs, w: P.World, steps: seq<P.Step>, id: Id)
    requires id in w.authority.bundles
    ensures SameIssue(w.authority, P.Run(configs, w, steps).authority, id)
    decreases |steps|
  {
    hide FirstIssue, P.Apply;
    if steps != [] {
      WorldStepKeepsIssue(configs, w, steps[0], id);
      RunKeepsIssue(configs, P.Apply(configs, w, steps[0]), steps[1..], id);
    }
  }

  // ---------- logged releases are releases ----------

  /** Entry i of the log is the release of step j, after one approval for each share. */
  ghost predicate LoggedAt(configs: P.Configs, clock: int, steps: seq<P.Step>, log: seq<A.Event>, i: nat, j: nat) {
    j < |steps| && i < |log|
    && var u := P.At(configs, clock, steps, j);
    && P.Releases(u, steps[j])
    && var req := P.RequestOf(steps[j]).value;
    i == |u.authority.log| + |req.shares| && log[i] == A.ReleaseEvent(u.authority, req)
  }

  /** The log grows, and by a release entry only in a release step, as its last entry. */
  ghost predicate OnlyRelease(s: A.State, t: A.State, i: nat, req: A.Request) {
    A.Refusal(s, req).None? && A.Reconstruction(s, req).None? && i < |t.log| && t.log[i] == A.ReleaseEvent(s, req)
    && i == |s.log| + |req.shares|
  }

  lemma ReleaseLogs(s: A.State, req: A.Request, i: nat)
    ensures var t := A.DoPerformRelease(s, req).0; s.log <= t.log
    ensures var t := A.DoPerformRelease(s, req).0;
      |s.log| <= i < |t.log| && t.log[i].KekReleased? ==> OnlyRelease(s, t, i, req)
  {
    hide A.Refusal, A.Reconstruction, A.RecordAll, A.Wrap, A.ReleaseEvent;
  }

  lemma BuildLogs(s: A.State, examId: Id, kind: Kind, content: nat, custodians: seq<Id>, threshold: nat, i: nat)
    ensures var t := A.DoBuildBundle(s, examId, kind, content, custodians, threshold).0;
      s.log <= t.log && (|s.log| <= i < |t.log| ==> !t.log[i].KekReleased?)
  {
    hide A.PutShares, BundleId, A.NewBundle;
  }

  lemma OtherStepLogs(s: A.State, step: A.Step, i: nat)
    requires !step.PerformRelease?
    ensures var t := A.Apply(s, step); s.log <= t.log && (|s.log| <= i < |t.log| ==> !t.log[i].KekReleased?)
  {
    hide A.DoBuildBundle;
    if step.Provision? && step.threshold >= 2 {
      var t: nat := step.threshold;
      var first := A.DoBuildBundle(s, step.examId, PaperKind, step.paper, step.custodians, t);
      BuildLogs(s, step.examId, PaperKind, step.paper, step.custodians, t, i);
      BuildLogs(first.0, step.examId, AnswersKind, step.answers, step.custodians, t, i);
    }
  }

  lemma WorldStepLogs(configs: P.Configs, w: P.World, step: P.Step, i: nat)
    ensures var t := P.Apply(configs, w, step).authority; w.authority.log <= t.log
    ensures var t := P.Apply(configs, w, step).authority;
      |w.authority.log| <= i < |t.log| && t.log[i].KekReleased? ==>
        P.Releases(w, step) && OnlyRelease(w.authority, t, i, P.RequestOf(step).value)
  {
    hide A.Apply, A.DoPerformRelease, A.Enabled, C.Apply, OnlyRelease, P.BoxPossible, A.Unforged, A.Refusal,
      A.Reconstruction;
    if P.Possible(w, step) && P.RequestOf(step).Some? {
      var req := P.RequestOf(step).value;
      ReleaseLogs(w.authority, req, i);
      P.ReleaseIsAStep(w.authority, req);
      OnlyReleases(w.authority, A.DoPerformRelease(w.authority, req).0, i, req);
    } else if P.Possible(w, step) && step.AuthorityStep? {
      OtherStepLogs(w.authority, step.step, i);
    }
  }

  lemma OnlyReleases(s: A.State, t: A.State, i: nat, req: A.Request)
    ensures OnlyRelease(s, t, i, req) ==> A.Refusal(s, req).None? && A.Reconstruction(s, req).None?
  {}

  lemma {:induction false} EveryLoggedReleaseHappened(configs: P.Configs, clock: int, steps: seq<P.Step>, i: nat)
      returns (j: nat)
    requires var log := P.Run(configs, P.Start(clock), steps).authority.log; i < |log| && log[i].KekReleased?
    ensures LoggedAt(configs, clock, steps, P.Run(configs, P.Start(clock), steps).authority.log, i, j)
    decreases |steps|
  {
    hide P.Run, P.Apply, P.Releases, A.ReleaseEvent, A.Refusal, A.Reconstruction;
    if steps == [] {
      NothingLogged(configs, clock);
    } else {
      var n := |steps| - 1;
      var init := steps[..n];
      var u := P.Run(configs, P.Start(clock), init);
      assert steps == init + [steps[n]];
      P.RunOne(configs, P.Start(clock), init, steps[n]);
      WorldStepLogs(configs, u, steps[n], i);
      if i < |u.authority.log| {
        j := EveryLoggedReleaseHappened(configs, clock, init, i);
        assert steps[..j] == init[..j];
      } else {
        j := n;
      }
    }
  }

  lemma NothingLogged(configs: P.Configs, clock: int)
    ensures P.Run(configs, P.Start(clock), []).authority.log == []
  {}

  /** Before the release: a complete ceremony of the bundle is logged and names everyone who submits. */
  ghost predicate HoldersSubmit(s: A.State, req: A.Request) {
    FirstIssue(s.log, req.bundleId).Some?
    && forall i | 0 <= i < |req.shares| :: req.shares[i].custodianId in FirstIssue(s.log, req.bundleId).value
  }

  /** However the run goes on after it, T9 never finds a logged release below the threshold, and is met by it
      exactly when, before the release, those who submit are among the holders of the bundle's ceremony. */
  lemma ProtocolRunsMeetThresholds(configs: P.Configs, clock: int, steps: seq<P.Step>, i: nat)
    requires var log := P.Run(configs, P.Start(clock), steps).authority.log; i < |log| && log[i].KekReleased?
    ensures var log := P.Run(configs, P.Start(clock), steps).authority.log;
      exists j: nat :: LoggedAt(configs, clock, steps, log, i, j) && Judge(log, log[i]) != BelowThreshold
                       && var s, req := P.At(configs, clock, steps, j).authority, P.RequestOf(steps[j]).value;
                       Judge(log, log[i]) == Met <==> HoldersSubmit(s, req)
  {
    hide P.Run, P.Apply, P.Possible, FirstIssue, Judge, A.Refusal, A.Reconstruction, A.ReleaseEvent;
    var j := EveryLoggedReleaseHappened(configs, clock, steps, i);
    var u, t := P.At(configs, clock, steps, j), P.Run(configs, P.Start(clock), steps);
    var req := P.RequestOf(steps[j]).value;
    A.PassedBundle(u.authority, req);
    assert steps == steps[..j] + steps[j..];
    P.RunAppend(configs, P.Start(clock), steps[..j], steps[j..]);
    RunKeepsIssue(configs, u, steps[j..], req.bundleId);
    ReleaseIsJudged(u.authority, req, t.authority.log);
  }

  lemma ReleaseIsJudged(s: A.State, req: A.Request, log: seq<A.Event>)
    requires A.Refusal(s, req).None? && FirstIssue(log, req.bundleId) == FirstIssue(s.log, req.bundleId)
    ensures Judge(log, A.ReleaseEvent(s, req)) != BelowThreshold
    ensures Judge(log, A.ReleaseEvent(s, req)) == Met <==> HoldersSubmit(s, req)
  {
    hide FirstIssue, NotAmong, Members, A.GoodRecipients, A.Verifies;
    var ids := A.Custodians(req.shares);
    A.PassedCustodians(s, req);
    DistinctMembers(ids);
    if FirstIssue(log, req.bundleId).Some? {
      NotAmongMeaning(ids, FirstIssue(log, req.bundleId).value);
      assert forall i | 0 <= i < |ids| :: ids[i] == req.shares[i].custodianId && ids[i] in ids;
    }
  }

  // ---------- which bundles have a ceremony ----------

  ghost predicate Distinct(ids: seq<Id>) {
    forall i, j | 0 <= i < j < |ids| :: ids[i] != ids[j]
  }

  /** Share rows and ceremonies belong to stored bundles. */
  ghost predicate NoStrays(s: A.State) {
    && (forall k | k in s.shares :: k.0 in s.bundles)
    && forall e | e in s.log && e.SharesIssued? :: e.bundleId in s.bundles
  }

  /** The rows are inserted exactly when no custodian is named twice and none has a row already. */
  lemma {:induction false} PutSharesMeaning(shares: map<(Id, Id), nat>, b: Id, ids: seq<Id>, i: nat)
    requires i <= |ids|
    ensures A.PutShares(shares, b, ids, i).1 <==>
              Distinct(ids[i..]) && forall j | i <= j < |ids| :: (b, ids[j]) !in shares
    ensures forall k | k in A.PutShares(shares, b, ids, i).0 :: k in shares || k.0 == b
    decreases |ids| - i
  {
    if i < |ids| && (b, ids[i]) !in shares {
      var more := shares[(b, ids[i]) := i + 1];
      PutSharesMeaning(more, b, ids, i + 1);
      assert ids[i + 1..] == ids[i..][1..];
      DistinctTail(ids[i..]);
      assert forall j | i < j < |ids| :: ids[j] == ids[i..][j - i];
      assert forall j | 1 <= j < |ids[i..]| :: ids[i..][j] == ids[i + j];
      assert forall j | i < j < |ids| :: (b, ids[j]) in more <==> (b, ids[j]) in shares || ids[j] == ids[i];
    }
  }

  lemma DistinctTail(ids: seq<Id>)
    requires ids != []
    ensures Distinct(ids) <==> Distinct(ids[1..]) && forall j | 1 <= j < |ids| :: ids[j] != ids[0]
  {
    var tail := ids[1..];
    assert forall j | 1 <= j < |ids| :: ids[j] == tail[j - 1];
    if Distinct(tail) && forall j | 1 <= j < |ids| :: ids[j] != ids[0] {
      forall i, j | 0 <= i < j < |ids| ensures ids[i] != ids[j] {
        if i > 0 {
          assert tail[i - 1] != tail[j - 1];
        }
      }
    }
  }

  lemma BuildKeepsNoStrays(s: A.State, examId: Id, kind: Kind, content: nat, ids: seq<Id>, threshold: nat)
    requires NoStrays(s)
    ensures NoStrays(A.DoBuildBundle(s, examId, kind, content, ids, threshold).0)
  {
    hide A.PutShares, BundleId, A.NewBundle;
    PutSharesMeaning(s.shares, BundleId(examId, kind), ids, 0);
  }

  /** A new bundle gets a ceremony exactly when no custodian is named twice; it is stored in any case. */
  lemma BuildLogsItsCeremony(s: A.State, examId: Id, kind: Kind, content: nat, ids: seq<Id>, threshold: nat)
    requires NoStrays(s) && BundleId(examId, kind) !in s.bundles && |ids| <= 255
    ensures var r, id := A.DoBuildBundle(s, examId, kind, content, ids, threshold), BundleId(examId, kind);
      && id in r.0.bundles && (r.1.None? <==> Distinct(ids))
      && FirstIssue(r.0.log, id) == (if Distinct(ids) then Some(ids) else None)
      && forall other | other != id :: other in r.0.bundles <==> other in s.bundles
  {
    hide FirstIssue, A.PutShares, BundleId, A.NewBundle, Distinct;
    var r, id := A.DoBuildBundle(s, examId, kind, content, ids, threshold), BundleId(examId, kind);
    PutSharesMeaning(s.shares, id, ids, 0);
    assert ids[0..] == ids;
    var created := r.0.log[|s.log|];
    assert r.0.log == s.log + [created] + if Distinct(ids) then [A.SharesIssued(id, threshold, ids)] else [];
    NeverIssuedYet(s.log + [created], id);
    if Distinct(ids) {
      IssuedNow(s.log + [created], id, threshold, ids);
    }
  }

  lemma {:induction false} NeverIssuedYet(log: seq<A.Event>, id: Id)
    requires forall e | e in log && e.SharesIssued? :: e.bundleId != id
    ensures FirstIssue(log, id).None?
  {
    NoNewIssue([], log, id);
    assert [] + log == log;
  }

  lemma {:induction false} IssuedNow(log: seq<A.Event>, id: Id, threshold: nat, ids: seq<Id>)
    requires FirstIssue(log, id).None?
    ensures FirstIssue(log + [A.SharesIssued(id, threshold, ids)], id) == Some(ids)
  {
    if log != [] {
      assert (log + [A.SharesIssued(id, threshold, ids)])[1..] == log[1..] + [A.SharesIssued(id, threshold, ids)];
      IssuedNow(log[1..], id, threshold, ids);
    }
  }

  lemma OtherEntries(s: A.State, t: A.State)
    requires NoStrays(s) && t.shares == s.shares && t.bundles == s.bundles && NoCeremonies(s, t)
    ensures NoStrays(t)
  {
    forall e | e in t.log && e.SharesIssued? ensures e.bundleId in t.bundles {
      var i :| 0 <= i < |t.log| && t.log[i] == e;
      assert s.log[i] == e;
    }
  }

  lemma ReleaseKeepsNoStrays(s: A.State, req: A.Request)
    requires NoStrays(s)
    ensures NoStrays(A.DoPerformRelease(s, req).0)
  {
    hide A.DoPerformRelease, NoStrays;
    ReleaseAppends(s, req);
    OtherEntries(s, A.DoPerformRelease(s, req).0);
  }

  lemma ProvisionKeepsNoStrays(s: A.State, examId: Id, ids: seq<Id>, threshold: int, paper: nat, answers: nat)
    requires NoStrays(s)
    ensures NoStrays(A.DoProvision(s, examId, ids, threshold, paper, answers).0)
  {
    hide A.DoBuildBundle, NoStrays;
    if threshold >= 2 {
      var t: nat := threshold;
      var first := A.DoBuildBundle(s, examId, PaperKind, paper, ids, t);
      BuildKeepsNoStrays(s, examId, PaperKind, paper, ids, t);
      BuildKeepsNoStrays(first.0, examId, AnswersKind, answers, ids, t);
    }
  }

  lemma StepKeepsNoStrays(s: A.State, step: A.Step)
    requires NoStrays(s)
    ensures NoStrays(A.Apply(s, step))
  {
    hide A.DoProvision, A.DoPerformRelease, NoStrays;
    match step
    case Provision(e, ids, t, p, a) => ProvisionKeepsNoStrays(s, e, ids, t, p, a);
    case PerformRelease(req) => ReleaseKeepsNoStrays(s, req);
    case _ => OtherEntries(s, A.Apply(s, step));
  }

  lemma {:induction false} RunKeepsNoStrays(configs: P.Configs, w: P.World, steps: seq<P.Step>)
    requires NoStrays(w.authority)
    ensures NoStrays(P.Run(configs, w, steps).authority)
    decreases |steps|
  {
    hide NoStrays, A.Apply, A.DoPerformRelease, C.Apply, P.Possible;
    if steps != [] {
      if steps[0].AuthorityStep? {
        StepKeepsNoStrays(w.authority, steps[0].step);
      } else if steps[0].ReleaseOffline? {
        ReleaseKeepsNoStrays(w.authority, steps[0].request);
      } else {
        SameStrays(w.authority, P.Apply(configs, w, steps[0]).authority);
      }
      RunKeepsNoStrays(configs, P.Apply(configs, w, steps[0]), steps[1..]);
    }
  }

  lemma SameStrays(s: A.State, t: A.State)
    requires NoStrays(s) && t == s.(schedules := t.schedules)
    ensures NoStrays(t)
  {}

  lemma ProvisionLogsCeremonies(s: A.State, examId: Id, ids: seq<Id>, threshold: int, paper: nat, answers: nat)
    requires NoStrays(s) && A.ProvisionError(s, ids, threshold).None? && |ids| <= 255
    requires PaperBundleId(examId) !in s.bundles && BundleId(examId, AnswersKind) !in s.bundles
    ensures var t, id := A.DoProvision(s, examId, ids, threshold, paper, answers).0, PaperBundleId(examId);
      id in t.bundles && FirstIssue(t.log, id) == if Distinct(ids) then Some(ids) else None
    ensures var t, id := A.DoProvision(s, examId, ids, threshold, paper, answers).0, BundleId(examId, AnswersKind);
      (id in t.bundles <==> Distinct(ids)) && (Distinct(ids) ==> FirstIssue(t.log, id) == Some(ids))
  {
    hide A.DoBuildBundle, NoStrays, Distinct, FirstIssue, PaperBundleId;
    var first := A.DoBuildBundle(s, examId, PaperKind, paper, ids, threshold);
    assert BundleId(examId, PaperKind) == PaperBundleId(examId);
    KindsDiffer(examId);
    BuildKeepsNoStrays(s, examId, PaperKind, paper, ids, threshold);
    BuildLogsItsCeremony(s, examId, PaperKind, paper, ids, threshold);
    if Distinct(ids) {
      BuildLogsItsCeremony(first.0, examId, AnswersKind, answers, ids, threshold);
      BuildKeepsIssue(first.0, examId, AnswersKind, answers, ids, threshold, PaperBundleId(examId));
    }
  }

  lemma KindsDiffer(examId: Id)
    ensures PaperBundleId(examId) != BundleId(examId, AnswersKind)
  {
    assert |PaperBundleId(examId)| == |examId| + 6 && |BundleId(examId, AnswersKind)| == |examId| + 8;
  }

  /** In every run that provisions a new exam, the ceremony that T9 finds for the paper at any later time
      names exactly the custodians of that provisioning; with a custodian named twice there is none, and
      the paper bundle is stored all the same. */
  lemma CeremonyIsLogged(configs: P.Configs, clock: int, before: seq<P.Step>, examId: Id, ids: seq<Id>, threshold: int,
      paper: nat, answers: nat, after: seq<P.Step>)
    requires var s := P.Run(configs, P.Start(clock), before).authority;
      && A.ProvisionError(s, ids, threshold).None? && |ids| <= 255
      && PaperBundleId(examId) !in s.bundles && BundleId(examId, AnswersKind) !in s.bundles
    ensures var steps := before + [P.AuthorityStep(A.Provision(examId, ids, threshold, paper, answers))] + after;
      var t, id := P.Run(configs, P.Start(clock), steps).authority, PaperBundleId(examId);
      id in t.bundles && FirstIssue(t.log, id) == if Distinct(ids) then Some(ids) else None
  {
    hide P.Run, A.DoProvision, A.ProvisionError, FirstIssue, Distinct, NoStrays, PaperBundleId;
    var w := P.Run(configs, P.Start(clock), before);
    var step := P.AuthorityStep(A.Provision(examId, ids, threshold, paper, answers));
    assert NoStrays(P.Start(clock).authority) by { NoStraysAtFirst(clock); }
    RunKeepsNoStrays(configs, P.Start(clock), before);
    ProvisionLogsCeremonies(w.authority, examId, ids, threshold, paper, answers);
    P.RunOne(configs, P.Start(clock), before, step);
    var v := P.Run(configs, P.Start(clock), before + [step]);
    P.RunAppend(configs, P.Start(clock), before + [step], after);
    RunKeepsIssue(configs, v, after, PaperBundleId(examId));
  }

  lemma NoStraysAtFirst(clock: int)
    ensures NoStrays(P.Start(clock).authority)
  {}
}
