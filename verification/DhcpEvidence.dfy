/** The reassertion of endpoint DHCP told from the entries of the plan and of the first
    attempt: which evidence makes an action eligible, and what would have to be accepted. */
module DhcpEvidence {
  import opened Outcomes
  import opened Sequences
  import opened DhcpReassertion

  // ----- Evidence -----

  /** The read of the endpoint found the device, its port and its address channel, and no
      address on the expected interface. */
  predicate FoundUnaddressed(c: Convergence, interface: string) {
    && c.finalStatus.Failed? && c.attempts > 0 && c.kind == "endpoint_addressing" && c.last.Some?
    && var last := c.last.value;
       && last.deviceFound && last.portFound && last.addressChannel && last.freshEvidence
       && last.interface == interface && last.failureReason == ""
       && last.ipv4 in {"", "0.0.0.0"} && last.netmask in {"", "0.0.0.0"}
  }

  ghost predicate IsAccess(plan: Plan, id: Id) {
    exists b | b in plan.actions :: b.id == id && b.kind.AccessPort?
  }

  /** Of what the action depends on exactly one is an access port, and that was verified afresh
      in all its fields. */
  ghost predicate AccessHolds(plan: Plan, app: Application, a: Action) {
    exists i | 0 <= i < |a.dependsOn| ::
      && IsAccess(plan, a.dependsOn[i])
      && (forall j | 0 <= j < |a.dependsOn| && j != i :: !IsAccess(plan, a.dependsOn[j]))
      && VerifiedAfresh(app, a.dependsOn[i])
  }

  ghost predicate VerifiedAfresh(app: Application, id: Id) {
    exists w | w in app.verifications ::
      w.actionId == id && w.status.Verified? && w.freshEvidence && forall f | f in w.fields :: w.fields[f].Verified?
  }

  /** Verification `v` shows that action `a`, applied and mutated by this attempt, failed in the
      one way that may be repaired. */
  ghost predicate FailedAfresh(
    plan: Plan, app: Application, v: Verification, e: Expectation, a: Action, r: ActionResult)
  {
    && e in plan.expectations && e.id == v.expectationId && e.actionId == v.actionId
    && e.addressing && e.mode == "dhcp"
    && a in plan.actions && a.id == v.actionId && a.kind.EndpointDhcp? && a.id in app.mutationIds
    && r in app.results && r.actionId == a.id
    && (r.status.Applied? || r.status.NoOp? || r.status.Reasserted? || r.status.Verified?)
    && v.status.Failed? && v.freshEvidence && v.evidenceMethod == "structured_endpoint_getters"
    && v.fields.Keys == {"ipv4", "netmask", "gateway", "dns"}
    && v.fields["ipv4"].Failed? && v.fields["netmask"].Failed?
    && v.fields["gateway"].Unobservable? && v.fields["dns"].Unobservable?
    && v.convergence.Some? && FoundUnaddressed(v.convergence.value, e.interface)
    && AccessHolds(plan, app, a)
  }

  ghost predicate ShowsFailure(plan: Plan, app: Application, v: Verification) {
    exists e, a, r :: FailedAfresh(plan, app, v, e, a, r)
  }

  // ----- Entries and lookups -----

  lemma {:induction false} OnlyPosition(ids: seq<Id>, id: Id, k: nat)
    requires Distinct(ids) && k < |ids| && ids[k] == id
    ensures Position(ids, id) == Some(k)
  {
    var n := |ids| - 1;
    if ids[n] != id {
      assert Distinct(ids[..n]);
      OnlyPosition(ids[..n], id, k);
    }
  }

  lemma ActionFound(plan: Plan, id: Id, a: Action)
    requires Distinct(ActionIds(plan.actions))
    ensures ActionOf(plan, id) == Some(a) <==> a in plan.actions && a.id == id
  {
    PositionFinds(ActionIds(plan.actions), id);
    if a in plan.actions && a.id == id {
      var k :| 0 <= k < |plan.actions| && plan.actions[k] == a;
      OnlyPosition(ActionIds(plan.actions), id, k);
    }
  }

  lemma ExpectationFound(plan: Plan, id: Id, e: Expectation)
    requires Distinct(ExpectationIds(plan.expectations))
    ensures ExpectationOf(plan, id) == Some(e) <==> e in plan.expectations && e.id == id
  {
    PositionFinds(ExpectationIds(plan.expectations), id);
    if e in plan.expectations && e.id == id {
      var k :| 0 <= k < |plan.expectations| && plan.expectations[k] == e;
      OnlyPosition(ExpectationIds(plan.expectations), id, k);
    }
  }

  lemma ResultFound(results: seq<ActionResult>, id: Id, r: ActionResult)
    requires Distinct(ResultIds(results))
    ensures ResultOf(results, id) == Some(r) <==> r in results && r.actionId == id
  {
    PositionFinds(ResultIds(results), id);
    if r in results && r.actionId == id {
      var k :| 0 <= k < |results| && results[k] == r;
      OnlyPosition(ResultIds(results), id, k);
    }
  }

  lemma VerificationFound(app: Application, id: Id, v: Verification)
    requires Distinct(VerificationIds(app.verifications))
    ensures VerificationOf(app, id) == Some(v) <==> v in app.verifications && v.actionId == id
  {
    PositionFinds(VerificationIds(app.verifications), id);
    if v in app.verifications && v.actionId == id {
      var k :| 0 <= k < |app.verifications| && app.verifications[k] == v;
      OnlyPosition(VerificationIds(app.verifications), id, k);
    }
  }

  // ----- The one access port -----

  predicate LooksLikeAccess(plan: Plan, id: Id) {
    ActionOf(plan, id).Some? && ActionOf(plan, id).value.kind.AccessPort?
  }

  lemma LooksRight(plan: Plan, id: Id)
    requires Distinct(ActionIds(plan.actions))
    ensures LooksLikeAccess(plan, id) <==> IsAccess(plan, id)
  {
    hide ActionOf;
    if LooksLikeAccess(plan, id) {
      ActionFound(plan, id, ActionOf(plan, id).value);
    }
    if IsAccess(plan, id) {
      var b :| b in plan.actions && b.id == id && b.kind.AccessPort?;
      ActionFound(plan, id, b);
    }
  }

  /** The access dependencies are the places of the list that look like one, in order. */
  lemma {:induction false} AccessCount(plan: Plan, dependsOn: seq<Id>)
    ensures AccessDependencies(plan, dependsOn) == [] <==>
      forall i | 0 <= i < |dependsOn| :: !LooksLikeAccess(plan, dependsOn[i])
    ensures |AccessDependencies(plan, dependsOn)| == 1 <==>
      exists i | 0 <= i < |dependsOn| :: OnlyAccess(plan, dependsOn, i)
    ensures forall i | 0 <= i < |dependsOn| && OnlyAccess(plan, dependsOn, i) ::
      AccessDependencies(plan, dependsOn) == [dependsOn[i]]
  {
    if dependsOn != [] {
      var rest := dependsOn[1..];
      AccessCount(plan, rest);
      hide LooksLikeAccess, ActionOf;
      assert forall i | 0 < i < |dependsOn| :: dependsOn[i] == rest[i - 1];
      OnlyAccessTail(plan, dependsOn);
      AccessHead(plan, dependsOn);
      if |AccessDependencies(plan, dependsOn)| == 1 {
        if LooksLikeAccess(plan, dependsOn[0]) {
          assert OnlyAccess(plan, dependsOn, 0);
        } else {
          var i :| 0 <= i < |rest| && OnlyAccess(plan, rest, i);
          assert OnlyAccess(plan, dependsOn, i + 1);
        }
      }
    }
  }

  predicate OnlyAccess(plan: Plan, dependsOn: seq<Id>, i: nat)
    requires i < |dependsOn|
  {
    && LooksLikeAccess(plan, dependsOn[i])
    && forall j | 0 <= j < |dependsOn| && j != i :: !LooksLikeAccess(plan, dependsOn[j])
  }

  lemma AccessHead(plan: Plan, dependsOn: seq<Id>)
    requires dependsOn != []
    ensures AccessDependencies(plan, dependsOn) ==
      (if LooksLikeAccess(plan, dependsOn[0]) then [dependsOn[0]] else []) + AccessDependencies(plan, dependsOn[1..])
  {
  }

  lemma OnlyAccessTail(plan: Plan, dependsOn: seq<Id>)
    requires dependsOn != []
    ensures OnlyAccess(plan, dependsOn, 0) <==>
      && LooksLikeAccess(plan, dependsOn[0])
      && forall i | 0 <= i < |dependsOn| - 1 :: !LooksLikeAccess(plan, dependsOn[1..][i])
    ensures forall i | 0 < i < |dependsOn| ::
      OnlyAccess(plan, dependsOn, i) <==>
      !LooksLikeAccess(plan, dependsOn[0]) && OnlyAccess(plan, dependsOn[1..], i - 1)
  {
    hide LooksLikeAccess;
    var rest := dependsOn[1..];
    assert forall i | 0 <= i < |rest| :: rest[i] == dependsOn[i + 1];
    forall i | 0 < i < |dependsOn|
      ensures OnlyAccess(plan, dependsOn, i) <==>
        !LooksLikeAccess(plan, dependsOn[0]) && OnlyAccess(plan, rest, i - 1)
    {
      if OnlyAccess(plan, rest, i - 1) && !LooksLikeAccess(plan, dependsOn[0]) {
        forall j | 0 <= j < |dependsOn| && j != i ensures !LooksLikeAccess(plan, dependsOn[j]) {
          assert j > 0 ==> rest[j - 1] == dependsOn[j];
        }
      }
    }
  }

  lemma AccessIff(plan: Plan, app: Application, a: Action)
    requires WellIndexed(plan, app)
    ensures AccessVerified(plan, app, a) <==> AccessHolds(plan, app, a)
  {
    hide ActionOf, VerificationOf, Distinct, AccessDependencies, IsAccess, VerifiedAfresh, LooksLikeAccess;
    AccessCount(plan, a.dependsOn);
    forall id ensures LooksLikeAccess(plan, id) <==> IsAccess(plan, id) {
      LooksRight(plan, id);
    }
    forall i | 0 <= i < |a.dependsOn| && OnlyAccess(plan, a.dependsOn, i)
      ensures AccessVerified(plan, app, a) <==> VerifiedAfresh(app, a.dependsOn[i])
    {
      VerifiedIff(plan, app, a, a.dependsOn[i]);
    }
  }

  lemma VerifiedIff(plan: Plan, app: Application, a: Action, id: Id)
    requires WellIndexed(plan, app) && AccessDependencies(plan, a.dependsOn) == [id]
    ensures AccessVerified(plan, app, a) <==> VerifiedAfresh(app, id)
  {
    hide ActionOf, VerificationOf, Distinct, AccessDependencies;
    if VerificationOf(app, id).Some? {
      VerificationFound(app, id, VerificationOf(app, id).value);
    }
    if VerifiedAfresh(app, id) {
      var w :| w in app.verifications && w.actionId == id && w.status.Verified? && w.freshEvidence
               && forall f | f in w.fields :: w.fields[f].Verified?;
      VerificationFound(app, id, w);
    }
  }

  lemma FieldsIff(fields: map<string, Status>)
    ensures fields == AbsentFields <==>
      && fields.Keys == {"ipv4", "netmask", "gateway", "dns"}
      && fields["ipv4"].Failed? && fields["netmask"].Failed?
      && fields["gateway"].Unobservable? && fields["dns"].Unobservable?
  {
    assert AbsentFields.Keys == {"ipv4", "netmask", "gateway", "dns"};
  }

  lemma UnaddressedIff(c: Convergence, e: Expectation)
    ensures ObservedAbsent(c, e) <==> FoundUnaddressed(c, e.interface)
  {
  }

  /** A verification marks its action exactly when the entries show that failure. */
  lemma MarksIff(plan: Plan, app: Application, v: Verification)
    requires WellIndexed(plan, app)
    ensures Marks(plan, app, v) <==> ShowsFailure(plan, app, v)
  {
    hide ActionOf, ExpectationOf, ResultOf, Distinct, AbsentFields, ObservedAbsent, FoundUnaddressed;
    hide AccessVerified, AccessHolds;
    FieldsIff(v.fields);
    if Marks(plan, app, v) {
      MarksSound(plan, app, v);
    }
    if ShowsFailure(plan, app, v) {
      var e, a, r :| FailedAfresh(plan, app, v, e, a, r);
      ExpectationFound(plan, v.expectationId, e);
      ActionFound(plan, v.actionId, a);
      ResultFound(app.results, a.id, r);
      AccessIff(plan, app, a);
      UnaddressedIff(v.convergence.value, e);
    }
  }

  lemma MarksSound(plan: Plan, app: Application, v: Verification)
    requires WellIndexed(plan, app) && Marks(plan, app, v)
    ensures ShowsFailure(plan, app, v)
  {
    hide ActionOf, ExpectationOf, ResultOf, Distinct, AbsentFields, ObservedAbsent, FoundUnaddressed;
    hide AccessVerified, AccessHolds;
    FieldsIff(v.fields);
    var e, a := ExpectationOf(plan, v.expectationId).value, ActionOf(plan, v.actionId).value;
    var r := ResultOf(app.results, a.id).value;
    ExpectationFound(plan, v.expectationId, e);
    ActionFound(plan, v.actionId, a);
    ResultFound(app.results, a.id, r);
    AccessIff(plan, app, a);
    UnaddressedIff(v.convergence.value, e);
    assert FailedAfresh(plan, app, v, e, a, r);
  }

  // ----- What would have to be accepted -----

  /** `after` is `before` with its address repaired if its action is among `ids`, and, in a
      voice stage, put off if its action is deferred. */
  predicate Edited(before: Verification, after: Verification, ids: seq<Id>, deferred: seq<Id>) {
    if before.actionId in deferred then
      after == before.(status := Partial, evidenceMethod := "", freshEvidence := false, fields := map[],
                       message := "Voice VLAN verification is pending successful Voice bootstrap.")
    else if before.actionId in ids then
      after == before.(status := Partial, fields := map["ipv4" := Verified, "netmask" := Verified,
                                                        "gateway" := Unobservable, "dns" := Unobservable])
    else after == before
  }

  /** `copy` is the first attempt as it would be with those addresses in place. */
  ghost predicate RepairedCopy(app: Application, copy: Application, ids: seq<Id>, voice: bool) {
    && (voice ==> app.barrier.Some? && app.barrier.value.deferredIds != [])
    && copy.partialStatus && copy.mutationIds == app.mutationIds && copy.results == app.results
    && copy.barrier == (if voice then Some(app.barrier.value.(foundation := Verified, signal := Intended))
                        else app.barrier)
    && |copy.verifications| == |app.verifications|
    && forall i | 0 <= i < |app.verifications| ::
         Edited(app.verifications[i], copy.verifications[i], ids, if voice then app.barrier.value.deferredIds else [])
  }

  lemma AcceptedIff(plan: Plan, app: Application, ids: seq<Id>, voice: bool, acceptance: Acceptance)
    ensures WouldBeAccepted(plan, app, ids, voice, acceptance) <==>
      exists copy :: RepairedCopy(app, copy, ids, voice) && acceptance(plan, copy, voice) == ""
  {
    if voice ==> HasDeferred(app) {
      var copy := if voice then VoiceCandidate(app, ids, app.barrier.value) else Candidate(app, ids);
      assert RepairedCopy(app, copy, ids, voice);
      forall other | RepairedCopy(app, other, ids, voice) ensures other == copy {
        forall i | 0 <= i < |app.verifications| ensures other.verifications[i] == copy.verifications[i] {
          assert Edited(app.verifications[i], other.verifications[i], ids,
                        if voice then app.barrier.value.deferredIds else []);
        }
        assert other.verifications == copy.verifications;
      }
    }
  }

  /** `ids` are the actions whose failure a verification shows. */
  ghost predicate AreFailed(plan: Plan, app: Application, ids: seq<Id>) {
    forall id :: id in ids <==> exists v | v in app.verifications :: v.actionId == id && ShowsFailure(plan, app, v)
  }

  lemma MarkedAreFailed(plan: Plan, app: Application)
    requires WellIndexed(plan, app)
    ensures AreFailed(plan, app, Marked(plan, app, |app.verifications|))
  {
    hide WellIndexed, Marked, ShowsFailure, Marks;
    var vs := app.verifications;
    forall v ensures Marks(plan, app, v) <==> ShowsFailure(plan, app, v) {
      MarksIff(plan, app, v);
    }
    forall id
      ensures id in Marked(plan, app, |vs|) <==> exists v | v in vs :: v.actionId == id && ShowsFailure(plan, app, v)
    {
      MarkedIff(plan, app, |vs|, id);
      if id in Marked(plan, app, |vs|) {
        var k :| 0 <= k < |vs| && vs[k].actionId == id && Marks(plan, app, vs[k]);
        assert vs[k] in vs;
      }
    }
  }

  lemma CopyOfSame(app: Application, copy: Application, s: seq<Id>, t: seq<Id>, voice: bool)
    requires forall id :: id in s <==> id in t
    ensures RepairedCopy(app, copy, s, voice) <==> RepairedCopy(app, copy, t, voice)
  {
  }

  /** The attempt would be accepted if those failures were repaired. */
  ghost predicate RepairAccepted(
    plan: Plan, app: Application, ids: seq<Id>, voice: bool, acceptance: Acceptance)
  {
    exists copy :: RepairedCopy(app, copy, ids, voice) && acceptance(plan, copy, voice) == ""
  }

  lemma EligibleIff(plan: Plan, app: Application, voice: bool, acceptance: Acceptance, id: Id)
    ensures id in Eligible(plan, app, voice, acceptance) <==>
      && WellIndexed(plan, app) && id in Marked(plan, app, |app.verifications|)
      && WouldBeAccepted(plan, app, Marked(plan, app, |app.verifications|), voice, acceptance)
  {
    var vs := app.verifications;
    if WellIndexed(plan, app) {
      hide WellIndexed, Marked, WouldBeAccepted, Marks;
      KeepMembers(ActionIds(plan.actions), Marked(plan, app, |vs|), id);
      MarkedIff(plan, app, |vs|, id);
      if id in Marked(plan, app, |vs|) {
        var k :| 0 <= k < |vs| && vs[k].actionId == id && Marks(plan, app, vs[k]);
        MarkedIsPlanned(plan, app, vs[k]);
      }
    }
  }

  /** Exactly when an action may be reasserted: the entries are told apart by their ids, a
      verification of that action shows the failure that may be repaired, and the attempt would
      be accepted with all such failures repaired. */
  lemma EligibleExactly(
    plan: Plan, app: Application, voice: bool, acceptance: Acceptance, failed: seq<Id>, id: Id)
    requires AreFailed(plan, app, failed)
    ensures id in Eligible(plan, app, voice, acceptance) <==>
      && Distinct(ActionIds(plan.actions)) && Distinct(ExpectationIds(plan.expectations))
      && Distinct(ResultIds(app.results)) && Distinct(VerificationIds(app.verifications))
      && id in failed && RepairAccepted(plan, app, failed, voice, acceptance)
  {
    EligibleIff(plan, app, voice, acceptance, id);
    if WellIndexed(plan, app) {
      hide Eligible, Marked, WouldBeAccepted, RepairedCopy, ShowsFailure, Distinct;
      var marked := Marked(plan, app, |app.verifications|);
      MarkedAreFailed(plan, app);
      AcceptedIff(plan, app, marked, voice, acceptance);
      forall copy ensures RepairedCopy(app, copy, marked, voice) <==> RepairedCopy(app, copy, failed, voice) {
        CopyOfSame(app, copy, marked, failed, voice);
      }
    }
  }

  // ----- The retained results -----

  /** While the voice signal is intended the preparation stands for the deferred results. */
  predicate Prepared(app: Application) {
    app.barrier.Some? && app.barrier.value.signal.Intended?
  }

  /** The result that is kept for an action. */
  ghost predicate Keeps(app: Application, r: ActionResult) {
    if Prepared(app) && exists p | p in app.barrier.value.preparation :: p.actionId == r.actionId
    then r in app.barrier.value.preparation && exists q | q in app.results :: q.actionId == r.actionId
    else r in app.results
  }

  predicate Satisfies(r: ActionResult) {
    r.status.Applied? || r.status.NoOp? || r.status.Reasserted? || r.status.Verified?
  }

  lemma SubstitutedAt(results: seq<ActionResult>, preparation: seq<ActionResult>, i: nat)
    requires i < |results| && Distinct(ResultIds(preparation))
    ensures var r, id := Substituted(results, preparation)[i], results[i].actionId;
      && r.actionId == id
      && (if exists p | p in preparation :: p.actionId == id then r in preparation else r == results[i])
  {
    hide Distinct, ResultOf;
    var id := results[i].actionId;
    if ResultOf(preparation, id).Some? {
      ResultFound(preparation, id, ResultOf(preparation, id).value);
    }
    forall p | p in preparation && p.actionId == id ensures ResultOf(preparation, id) == Some(p) {
      ResultFound(preparation, id, p);
    }
  }

  /** Which results a second attempt keeps, one for each that the first attempt has. */
  lemma KeptAre(app: Application)
    requires KeptResults(app).Ok?
    ensures var kept := KeptResults(app).value;
      && ResultIds(kept) == ResultIds(app.results)
      && forall r | r in kept :: Keeps(app, r)
  {
    hide Distinct;
    if Prepared(app) {
      var barrier, kept := app.barrier.value, KeptResults(app).value;
      forall i | 0 <= i < |kept| ensures kept[i].actionId == app.results[i].actionId && Keeps(app, kept[i]) {
        SubstitutedAt(app.results, barrier.preparation, i);
        assert app.results[i] in app.results;
      }
    }
  }

  /** A reread keeps for each action of the plan, in plan order, a result that satisfies its
      dependents: the prepared one where the voice signal is intended and there is one, and the
      attempt's own otherwise. */
  lemma RereadKeeps(plan: Plan, app: Application, i: nat)
    requires RereadScope(plan, app).Ok? && i < |plan.actions|
    ensures |RereadScope(plan, app).value| == |plan.actions|
    ensures var r := RereadScope(plan, app).value[i];
      r.actionId == plan.actions[i].id && Satisfies(r) && Keeps(app, r)
  {
    RereadKeepsThePlan(plan, app);
    KeptAre(app);
    hide Distinct, KeptResults, Keeps, Problems;
    var planIds, kept := ActionIds(plan.actions), KeptResults(app).value;
    var r := RereadScope(plan, app).value[i];
    assert planIds[i] in planIds;
    PositionFinds(ResultIds(kept), planIds[i]);
    assert r in kept;
    assert r in RereadScope(plan, app).value;
  }

  /** It is bounded exactly when the preparation covers what was deferred, plan and results name
      the same actions, each once, and every kept result satisfies its dependents. */
  lemma RereadBounded(plan: Plan, app: Application)
    ensures RereadScope(plan, app).Ok? <==>
      && (Prepared(app) ==>
            && Distinct(ResultIds(app.barrier.value.preparation))
            && SameMembers(ResultIds(app.barrier.value.preparation), app.barrier.value.deferredIds))
      && Distinct(ActionIds(plan.actions)) && Distinct(ResultIds(app.results))
      && (forall id :: id in ActionIds(plan.actions) <==> id in ResultIds(app.results))
      && (forall r | Keeps(app, r) :: Satisfies(r))
  {
    if KeptResults(app).Ok? {
      KeptAre(app);
      KeptAll(app);
      BoundedOf(plan, app);
    }
  }

  lemma KeptAll(app: Application)
    requires KeptResults(app).Ok?
    ensures forall r | Keeps(app, r) && Distinct(ResultIds(app.results)) :: r in KeptResults(app).value
  {
    hide Distinct;
    var kept := KeptResults(app).value;
    if Prepared(app) {
      var preparation := app.barrier.value.preparation;
      forall r | Keeps(app, r) ensures r in kept {
        var q :| q in app.results && q.actionId == r.actionId;
        var i :| 0 <= i < |app.results| && app.results[i] == q;
        SubstitutedAt(app.results, preparation, i);
        if r in preparation {
          ResultFound(preparation, r.actionId, r);
          ResultFound(preparation, r.actionId, kept[i]);
        } else {
          var k :| 0 <= k < |app.results| && app.results[k] == r;
          SubstitutedAt(app.results, preparation, k);
          assert kept[k] == r;
        }
      }
    }
  }

  lemma BoundedOf(plan: Plan, app: Application)
    requires KeptResults(app).Ok?
    requires ResultIds(KeptResults(app).value) == ResultIds(app.results)
    requires forall r | r in KeptResults(app).value :: Keeps(app, r)
    requires forall r | Keeps(app, r) && Distinct(ResultIds(app.results)) :: r in KeptResults(app).value
    ensures RereadScope(plan, app).Ok? <==>
      && Distinct(ActionIds(plan.actions)) && Distinct(ResultIds(app.results))
      && (forall id :: id in ActionIds(plan.actions) <==> id in ResultIds(app.results))
      && (forall r | Keeps(app, r) :: Satisfies(r))
  {
    hide Distinct, KeptResults, Keeps;
    var planIds, kept := ActionIds(plan.actions), KeptResults(app).value;
    forall r | r in kept && Distinct(ResultIds(kept))
      ensures ResultOf(kept, r.actionId) == Some(r) && r.actionId in ResultIds(kept)
    {
      ResultFound(kept, r.actionId, r);
      var k :| 0 <= k < |kept| && kept[k] == r;
      assert ResultIds(kept)[k] == r.actionId;
    }
    forall id | id in ResultIds(kept)
      ensures ResultOf(kept, id).Some? && ResultOf(kept, id).value in kept
    {
      PositionFinds(ResultIds(kept), id);
    }
  }

  /** The attempt as the reassertion takes it: deferred voice has its signal intended. */
  function Taken(app: Application, voice: bool): Application {
    if voice && app.barrier.Some?
    then app.(barrier := Some(app.barrier.value.(foundation := Verified, signal := Intended))) else app
  }

  lemma {:induction false} DropResultsAre(results: seq<ActionResult>, selected: seq<Id>, r: ActionResult)
    ensures r in DropResults(results, selected) <==> r in results && r.actionId !in selected
  {
    if results != [] {
      DropResultsAre(results[1..], selected, r);
    }
  }

  /** A reassertion is in bounds exactly when something is eligible and the rest of the attempt
      could be kept; it mutates what is eligible and keeps the rest. */
  lemma ReassertionBounded(plan: Plan, app: Application, voice: bool, acceptance: Acceptance)
    ensures ReassertionScope(plan, app, voice, acceptance).Ok? <==>
      Eligible(plan, app, voice, acceptance) != [] && RereadScope(plan, Taken(app, voice)).Ok?
    ensures ReassertionScope(plan, app, voice, acceptance).Ok? ==>
      var scope := ReassertionScope(plan, app, voice, acceptance).value;
      && scope.ids == Eligible(plan, app, voice, acceptance)
      && forall r :: r in scope.retained <==>
           r in RereadScope(plan, Taken(app, voice)).value && r.actionId !in scope.ids
  {
    hide RereadScope, Marked, Marks, WellIndexed;
    if ReassertionScope(plan, app, voice, acceptance).Ok? {
      var scope := ReassertionScope(plan, app, voice, acceptance).value;
      forall r
        ensures r in scope.retained <==>
          r in RereadScope(plan, Taken(app, voice)).value && r.actionId !in scope.ids
      {
        DropResultsAre(RereadScope(plan, Taken(app, voice)).value, scope.ids, r);
      }
    }
  }
}
