/** What a second configuration attempt may touch: the endpoint DHCP actions that failed in
    exactly one observable way, or nothing at all. */
module DhcpReassertion {
  import opened Outcomes
  import opened Sequences

  type Id = string

  // ----- Plans and applications -----

  datatype Status = Applied | NoOp | Reasserted | Verified | Partial | Failed | Intended | Unknown | Unobservable

  predicate SatisfiesApplyDependency(s: Status) {
    s.Applied? || s.NoOp? || s.Reasserted? || s.Verified?
  }

  datatype ActionKind = EndpointDhcp | AccessPort | OtherAction

  datatype Action = Action(id: Id, kind: ActionKind, dependsOn: seq<Id>)

  /** `addressing` is `VerificationKind.ENDPOINT_ADDRESSING`. */
  datatype Expectation = Expectation(id: Id, actionId: Id, addressing: bool, mode: string, interface: string)

  datatype Plan = Plan(actions: seq<Action>, expectations: seq<Expectation>)

  datatype ActionResult = ActionResult(actionId: Id, status: Status)

  datatype Observation = Observation(
    deviceFound: bool, portFound: bool, addressChannel: bool, freshEvidence: bool,
    interface: string, ipv4: string, netmask: string, failureReason: string)

  datatype Convergence = Convergence(finalStatus: Status, attempts: int, kind: string, last: Option<Observation>)

  datatype Verification = Verification(
    expectationId: Id, actionId: Id, status: Status, freshEvidence: bool, evidenceMethod: string,
    fields: map<string, Status>, convergence: Option<Convergence>, message: string)

  datatype Barrier = Barrier(
    required: bool, deferredIds: seq<Id>, preparation: seq<ActionResult>, foundation: Status, signal: Status)

  datatype Application = Application(
    partialStatus: bool, mutationIds: seq<Id>, results: seq<ActionResult>, verifications: seq<Verification>,
    barrier: Option<Barrier>)

  /** `canonical_stage_configuration_error`; empty when the application is acceptable. */
  type Acceptance = (Plan, Application, bool) -> string

  // ----- Lists indexed by identity -----

  function ActionIds(s: seq<Action>): seq<Id> { seq(|s|, i requires 0 <= i < |s| => s[i].id) }

  function ExpectationIds(s: seq<Expectation>): seq<Id> { seq(|s|, i requires 0 <= i < |s| => s[i].id) }

  function ResultIds(s: seq<ActionResult>): seq<Id> { seq(|s|, i requires 0 <= i < |s| => s[i].actionId) }

  function VerificationIds(s: seq<Verification>): seq<Id> { seq(|s|, i requires 0 <= i < |s| => s[i].actionId) }

  /** Looks an identity up in the dictionary built from a list: the last entry wins. The
      dictionary is as long as the list exactly when the identities are distinct. */
  function Position(ids: seq<Id>, id: Id): Option<nat> {
    if ids == [] then None
    else if ids[|ids| - 1] == id then Some(|ids| - 1)
    else Position(ids[..|ids| - 1], id)
  }

  lemma {:induction false} PositionFinds(ids: seq<Id>, id: Id)
    ensures match Position(ids, id) case None => id !in ids case Some(k) => k < |ids| && ids[k] == id
  {
    if ids != [] && ids[|ids| - 1] != id {
      PositionFinds(ids[..|ids| - 1], id);
      assert ids == ids[..|ids| - 1] + [ids[|ids| - 1]];
    }
  }

  function ActionOf(plan: Plan, id: Id): Option<Action> {
    PositionFinds(ActionIds(plan.actions), id);
    match Position(ActionIds(plan.actions), id) case None => None case Some(k) => Some(plan.actions[k])
  }

  function ExpectationOf(plan: Plan, id: Id): Option<Expectation> {
    PositionFinds(ExpectationIds(plan.expectations), id);
    match Position(ExpectationIds(plan.expectations), id) case None => None case Some(k) => Some(plan.expectations[k])
  }

  function ResultOf(results: seq<ActionResult>, id: Id): Option<ActionResult> {
    PositionFinds(ResultIds(results), id);
    match Position(ResultIds(results), id) case None => None case Some(k) => Some(results[k])
  }

  function VerificationOf(app: Application, id: Id): Option<Verification> {
    PositionFinds(VerificationIds(app.verifications), id);
    match Position(VerificationIds(app.verifications), id) case None => None case Some(k) => Some(app.verifications[k])
  }

  // ----- Which failures may be reasserted -----

  predicate WellIndexed(plan: Plan, app: Application) {
    && Distinct(ActionIds(plan.actions)) && Distinct(ExpectationIds(plan.expectations))
    && Distinct(ResultIds(app.results)) && Distinct(VerificationIds(app.verifications))
  }

  const AbsentFields: map<string, Status> :=
    map["ipv4" := Failed, "netmask" := Failed, "gateway" := Unobservable, "dns" := Unobservable]

  predicate IsUnaddressed(value: string) {
    value == "" || value == "0.0.0.0"
  }

  /** The endpoint was read afresh and has no address. */
  predicate ObservedAbsent(c: Convergence, expectation: Expectation) {
    && c.finalStatus.Failed? && c.attempts > 0 && c.kind == "endpoint_addressing" && c.last.Some?
    && c.last.value.deviceFound && c.last.value.portFound && c.last.value.addressChannel
    && c.last.value.freshEvidence && c.last.value.interface == expectation.interface
    && IsUnaddressed(c.last.value.ipv4) && IsUnaddressed(c.last.value.netmask)
    && c.last.value.failureReason == ""
  }

  function AccessDependencies(plan: Plan, dependsOn: seq<Id>): seq<Id> {
    if dependsOn == [] then []
    else
      var dependency := ActionOf(plan, dependsOn[0]);
      (if dependency.Some? && dependency.value.kind.AccessPort? then [dependsOn[0]] else [])
      + AccessDependencies(plan, dependsOn[1..])
  }

  predicate AccessVerified(plan: Plan, app: Application, action: Action) {
    var access := AccessDependencies(plan, action.dependsOn);
    && |access| == 1
    && var v := VerificationOf(app, access[0]);
       v.Some? && v.value.status.Verified? && v.value.freshEvidence
       && forall f | f in v.value.fields :: v.value.fields[f].Verified?
  }

  /** One verification result marks its action for reassertion. */
  predicate Marks(plan: Plan, app: Application, item: Verification) {
    var expectation, action := ExpectationOf(plan, item.expectationId), ActionOf(plan, item.actionId);
    && expectation.Some? && expectation.value.actionId == item.actionId
    && expectation.value.addressing && expectation.value.mode == "dhcp"
    && action.Some? && action.value.kind.EndpointDhcp?
    && action.value.id in app.mutationIds
    && item.status.Failed? && item.freshEvidence && item.evidenceMethod == "structured_endpoint_getters"
    && item.fields == AbsentFields
    && item.convergence.Some? && ObservedAbsent(item.convergence.value, expectation.value)
    && (var applied := ResultOf(app.results, action.value.id);
        applied.Some? && SatisfiesApplyDependency(applied.value.status))
    && AccessVerified(plan, app, action.value)
  }

  function Marked(plan: Plan, app: Application, m: nat): seq<Id>
    requires m <= |app.verifications|
  {
    if m == 0 then []
    else Marked(plan, app, m - 1)
         + if Marks(plan, app, app.verifications[m - 1]) then [app.verifications[m - 1].actionId] else []
  }

  /** The application as it would be if the marked endpoints had their addresses. */
  function Repaired(v: Verification, selected: seq<Id>): Verification {
    if v.actionId !in selected then v
    else v.(status := Partial,
            fields := map["ipv4" := Verified, "netmask" := Verified, "gateway" := Unobservable, "dns" := Unobservable])
  }

  function Pending(v: Verification, pending: seq<Id>): Verification {
    if v.actionId !in pending then v
    else v.(status := Partial, evidenceMethod := "", freshEvidence := false, fields := map[],
            message := "Voice VLAN verification is pending successful Voice bootstrap.")
  }

  function SignalIntended(b: Barrier): Barrier {
    b.(foundation := Verified, signal := Intended)
  }

  function RepairedAll(vs: seq<Verification>, selected: seq<Id>): seq<Verification> {
    seq(|vs|, i requires 0 <= i < |vs| => Repaired(vs[i], selected))
  }

  function Candidate(app: Application, selected: seq<Id>): Application {
    app.(partialStatus := true, verifications := RepairedAll(app.verifications, selected))
  }

  function VoiceCandidate(app: Application, selected: seq<Id>, barrier: Barrier): Application {
    var candidate := Candidate(app, selected);
    candidate.(barrier := Some(SignalIntended(barrier)),
               verifications := seq(|candidate.verifications|, i requires 0 <= i < |candidate.verifications| =>
                                      Pending(candidate.verifications[i], barrier.deferredIds)))
  }

  predicate HasDeferred(app: Application) {
    app.barrier.Some? && app.barrier.value.deferredIds != []
  }

  /** Deferred voice needs its barrier, and with the addresses in place the application
      must be acceptable. */
  predicate WouldBeAccepted(plan: Plan, app: Application, selected: seq<Id>, voice: bool, acceptance: Acceptance) {
    if voice then HasDeferred(app) && acceptance(plan, VoiceCandidate(app, selected, app.barrier.value), voice) == ""
    else acceptance(plan, Candidate(app, selected), voice) == ""
  }

  function Keep(ids: seq<Id>, selected: seq<Id>): seq<Id> {
    if ids == [] then [] else (if ids[0] in selected then [ids[0]] else []) + Keep(ids[1..], selected)
  }

  function Drop(ids: seq<Id>, selected: seq<Id>): seq<Id> {
    if ids == [] then [] else (if ids[0] !in selected then [ids[0]] else []) + Drop(ids[1..], selected)
  }

  /** `_eligible_action_ids` as a function. */
  function Eligible(plan: Plan, app: Application, voice: bool, acceptance: Acceptance): seq<Id> {
    if !WellIndexed(plan, app) then []
    else
      var selected := Marked(plan, app, |app.verifications|);
      if selected == [] || !WouldBeAccepted(plan, app, selected, voice, acceptance) then []
      else Keep(ActionIds(plan.actions), selected)
  }

  method EligibleActionIds(plan: Plan, app: Application, voice: bool, acceptance: Acceptance) returns (ids: seq<Id>)
    ensures ids == Eligible(plan, app, voice, acceptance)
  {
    hide Marks, WellIndexed, Repaired, Pending;
    if !WellIndexed(plan, app) {
      return [];
    }
    var selected: seq<Id> := [];
    for m := 0 to |app.verifications|
      invariant selected == Marked(plan, app, m)
    {
      if Marks(plan, app, app.verifications[m]) {
        selected := selected + [app.verifications[m].actionId];
      }
    }
    if selected == [] {
      return [];
    }
    var repaired := Repair(app.verifications, selected);
    var candidate := app.(partialStatus := true, verifications := repaired);
    if voice {
      if app.barrier.None? || app.barrier.value.deferredIds == [] {
        return [];
      }
      candidate := VoiceCandidate(app, selected, app.barrier.value);
    }
    if acceptance(plan, candidate, voice) != "" {
      return [];
    }
    ids := KeepInOrder(ActionIds(plan.actions), selected);
  }

  /** Edits the verification results of the copy one by one. */
  method Repair(vs: seq<Verification>, selected: seq<Id>) returns (repaired: seq<Verification>)
    ensures repaired == RepairedAll(vs, selected)
  {
    hide Repaired;
    repaired := vs;
    for i := 0 to |vs|
      invariant |repaired| == |vs|
      invariant forall k | 0 <= k < i :: repaired[k] == Repaired(vs[k], selected)
      invariant forall k | i <= k < |vs| :: repaired[k] == vs[k]
    {
      repaired := repaired[i := Repaired(repaired[i], selected)];
    }
  }

  method KeepInOrder(ids: seq<Id>, selected: seq<Id>) returns (kept: seq<Id>)
    ensures kept == Keep(ids, selected)
  {
    kept := [];
    for i := 0 to |ids|
      invariant kept + Keep(ids[i..], selected) == Keep(ids, selected)
    {
      assert ids[i..][1..] == ids[i + 1..];
      if ids[i] in selected {
        kept := kept + [ids[i]];
      }
    }
  }

  // ----- The mutation-free scope -----

  datatype Problem =
    | DuplicatePlan | DuplicateResults | Missing | Extra | NotApplied
    | DuplicatePreparation | IncompletePreparation

  function Substituted(results: seq<ActionResult>, preparation: seq<ActionResult>): seq<ActionResult> {
    seq(|results|, i requires 0 <= i < |results| =>
      var prepared := ResultOf(preparation, results[i].actionId);
      if prepared.Some? then prepared.value else results[i])
  }

  /** The results a second attempt keeps: those of the application, with the preparation
      results in place of the deferred ones while the voice signal is intended. */
  function KeptResults(app: Application): Result<seq<ActionResult>, seq<Problem>> {
    match app.barrier
    case Some(barrier) =>
      if !barrier.signal.Intended? then Ok(app.results)
      else if !Distinct(ResultIds(barrier.preparation)) then Err([DuplicatePreparation])
      else if !SameMembers(ResultIds(barrier.preparation), barrier.deferredIds) then Err([IncompletePreparation])
      else Ok(Substituted(app.results, barrier.preparation))
    case None => Ok(app.results)
  }

  function Problems(planIds: seq<Id>, results: seq<ActionResult>): seq<Problem> {
    (if Distinct(planIds) then [] else [DuplicatePlan])
    + (if Distinct(ResultIds(results)) then [] else [DuplicateResults])
    + (if forall id | id in planIds :: id in ResultIds(results) then [] else [Missing])
    + (if forall id | id in ResultIds(results) :: id in planIds then [] else [Extra])
    + (if forall id | id in planIds && id in ResultIds(results) ::
            ResultOf(results, id).Some? && SatisfiesApplyDependency(ResultOf(results, id).value.status)
       then [] else [NotApplied])
  }

  /** `canonical_configuration_reread_scope`: the retained results in plan order; its mutation
      scope is always empty. */
  function RereadScope(plan: Plan, app: Application): Result<seq<ActionResult>, seq<Problem>> {
    var planIds := ActionIds(plan.actions);
    match KeptResults(app)
    case Err(problems) => Err(problems)
    case Ok(results) =>
      if Problems(planIds, results) != [] then Err(Problems(planIds, results))
      else Ok(OrderedByPlan(planIds, results))
  }

  function OrderedByPlan(planIds: seq<Id>, results: seq<ActionResult>): seq<ActionResult>
    requires forall id | id in planIds :: id in ResultIds(results)
  {
    seq(|planIds|, i requires 0 <= i < |planIds| =>
      assert planIds[i] in planIds;
      PositionFinds(ResultIds(results), planIds[i]);
      ResultOf(results, planIds[i]).value)
  }

  /** A retained scope is one result per plan action, in plan order, each satisfied. */
  lemma RereadKeepsThePlan(plan: Plan, app: Application)
    requires RereadScope(plan, app).Ok?
    ensures ResultIds(RereadScope(plan, app).value) == ActionIds(plan.actions) && Distinct(ActionIds(plan.actions))
    ensures forall r | r in RereadScope(plan, app).value :: SatisfiesApplyDependency(r.status)
  {
    var ids, retained := ActionIds(plan.actions), RereadScope(plan, app).value;
    var results := KeptResults(app).value;
    hide KeptResults, Distinct;
    forall i | 0 <= i < |ids| ensures retained[i].actionId == ids[i] && SatisfiesApplyDependency(retained[i].status) {
      assert ids[i] in ids;
      PositionFinds(ResultIds(results), ids[i]);
    }
  }

  // ----- The reassertion scope -----

  datatype Scope = Scope(ids: seq<Id>, retained: seq<ActionResult>)

  datatype Refusal = NothingEligible | LostDeferredVoice | CannotBound(problems: seq<Problem>)

  function DropResults(results: seq<ActionResult>, selected: seq<Id>): seq<ActionResult> {
    if results == [] then []
    else (if results[0].actionId !in selected then [results[0]] else []) + DropResults(results[1..], selected)
  }

  /** `endpoint_dhcp_reassertion_scope`. */
  function ReassertionScope(plan: Plan, app: Application, voice: bool, acceptance: Acceptance): Result<Scope, Refusal> {
    var ids := Eligible(plan, app, voice, acceptance);
    if ids == [] then Err(NothingEligible)
    else if voice && !HasDeferred(app) then Err(LostDeferredVoice)
    else
      var source := if voice then app.(barrier := Some(SignalIntended(app.barrier.value))) else app;
      match RereadScope(plan, source)
      case Err(problems) => Err(CannotBound(problems))
      case Ok(retained) => Ok(Scope(ids, DropResults(retained, ids)))
  }

  lemma {:induction false} KeepMembers(ids: seq<Id>, selected: seq<Id>, id: Id)
    ensures id in Keep(ids, selected) <==> id in ids && id in selected
    ensures id in Drop(ids, selected) <==> id in ids && id !in selected
  {
    if ids != [] {
      KeepMembers(ids[1..], selected, id);
    }
  }

  lemma {:induction false} KeepUnique(ids: seq<Id>, selected: seq<Id>)
    requires Distinct(ids)
    ensures Distinct(Keep(ids, selected))
  {
    if ids != [] {
      var rest := Keep(ids[1..], selected);
      KeepUnique(ids[1..], selected);
      KeepMembers(ids[1..], selected, ids[0]);
      assert ids[0] !in ids[1..];
      assert forall k | 0 <= k < |rest| :: rest[k] in rest;
    }
  }

  /** Two selections with the same members among the ids keep and drop the same. */
  lemma {:induction false} KeepSame(ids: seq<Id>, s: seq<Id>, t: seq<Id>)
    requires forall id | id in ids :: id in s <==> id in t
    ensures Keep(ids, s) == Keep(ids, t) && Drop(ids, s) == Drop(ids, t)
  {
    if ids != [] {
      assert ids[0] in ids;
      assert forall id | id in ids[1..] :: id in ids;
      KeepSame(ids[1..], s, t);
    }
  }

  lemma ResultIdsCons(r: ActionResult, rest: seq<ActionResult>)
    ensures ResultIds([r] + rest) == [r.actionId] + ResultIds(rest)
  {
  }

  lemma {:induction false} DropResultIds(results: seq<ActionResult>, selected: seq<Id>)
    ensures ResultIds(DropResults(results, selected)) == Drop(ResultIds(results), selected)
    ensures forall r | r in DropResults(results, selected) :: r in results
  {
    if results != [] {
      var first, rest := results[0], DropResults(results[1..], selected);
      assert results == [first] + results[1..];
      hide ResultIds;
      DropResultIds(results[1..], selected);
      ResultIdsCons(first, results[1..]);
      ResultIdsCons(first, rest);
      assert ResultIds(results)[1..] == ResultIds(results[1..]);
    }
  }

  lemma {:induction false} MarkedAreMutations(plan: Plan, app: Application, m: nat, id: Id)
    requires m <= |app.verifications| && id in Marked(plan, app, m)
    ensures id in app.mutationIds && ActionOf(plan, id).Some? && ActionOf(plan, id).value.kind.EndpointDhcp?
    ensures exists v | v in app.verifications :: v.actionId == id && Marks(plan, app, v)
  {
    if m > 0 {
      var v := app.verifications[m - 1];
      if id in Marked(plan, app, m - 1) {
        MarkedAreMutations(plan, app, m - 1, id);
      } else {
        PositionFinds(ActionIds(plan.actions), id);
        assert v in app.verifications && v.actionId == id && Marks(plan, app, v);
      }
    }
  }

  lemma {:induction false} MarkedIff(plan: Plan, app: Application, m: nat, id: Id)
    requires m <= |app.verifications|
    ensures id in Marked(plan, app, m) <==>
      exists k | 0 <= k < m :: app.verifications[k].actionId == id && Marks(plan, app, app.verifications[k])
  {
    hide Marks;
    if m > 0 {
      MarkedIff(plan, app, m - 1, id);
    }
  }

  /** When the attempt would be accepted with the marked endpoints repaired, every action
      marked by a verification is reasserted. */
  lemma MarkedIsEligible(
    plan: Plan, app: Application, voice: bool, acceptance: Acceptance, item: Verification)
    requires WellIndexed(plan, app)
    requires WouldBeAccepted(plan, app, Marked(plan, app, |app.verifications|), voice, acceptance)
    requires item in app.verifications && Marks(plan, app, item)
    ensures item.actionId in Eligible(plan, app, voice, acceptance)
  {
    hide Marked, WouldBeAccepted, WellIndexed;
    var k :| 0 <= k < |app.verifications| && app.verifications[k] == item;
    MarkedIff(plan, app, |app.verifications|, item.actionId);
    MarkedIsPlanned(plan, app, item);
    hide Marks;
    KeepMembers(ActionIds(plan.actions), Marked(plan, app, |app.verifications|), item.actionId);
  }

  lemma MarkedIsPlanned(plan: Plan, app: Application, item: Verification)
    requires Marks(plan, app, item)
    ensures item.actionId in ActionIds(plan.actions)
  {
    PositionFinds(ActionIds(plan.actions), item.actionId);
  }

  /** Only DHCP endpoint actions that the first attempt itself mutated, and whose failure
      was observed afresh, are reasserted, without duplicates and in plan order; and all of
      them are, when the attempt would otherwise be accepted. */
  lemma EligibleIsFailedDelta(plan: Plan, app: Application, voice: bool, acceptance: Acceptance)
    ensures var ids := Eligible(plan, app, voice, acceptance);
      && Distinct(ids) && Keep(ActionIds(plan.actions), ids) == ids
      && forall id | id in ids ::
           && id in app.mutationIds && ActionOf(plan, id).Some? && ActionOf(plan, id).value.kind.EndpointDhcp?
           && exists v | v in app.verifications :: v.actionId == id && Marks(plan, app, v)
    ensures (WellIndexed(plan, app)
             && WouldBeAccepted(plan, app, Marked(plan, app, |app.verifications|), voice, acceptance)) ==>
      forall v | v in app.verifications && Marks(plan, app, v) ::
        v.actionId in Eligible(plan, app, voice, acceptance)
  {
    if WellIndexed(plan, app)
       && WouldBeAccepted(plan, app, Marked(plan, app, |app.verifications|), voice, acceptance) {
      forall v | v in app.verifications && Marks(plan, app, v)
        ensures v.actionId in Eligible(plan, app, voice, acceptance)
      {
        MarkedIsEligible(plan, app, voice, acceptance, v);
      }
    }
    EligibleIsMarked(plan, app, voice, acceptance);
  }

  lemma EligibleIsMarked(plan: Plan, app: Application, voice: bool, acceptance: Acceptance)
    ensures var ids := Eligible(plan, app, voice, acceptance);
      && Distinct(ids) && Keep(ActionIds(plan.actions), ids) == ids
      && forall id | id in ids ::
           && id in app.mutationIds && ActionOf(plan, id).Some? && ActionOf(plan, id).value.kind.EndpointDhcp?
           && exists v | v in app.verifications :: v.actionId == id && Marks(plan, app, v)
  {
    var ids := Eligible(plan, app, voice, acceptance);
    var planIds := ActionIds(plan.actions);
    if ids == [] {
      KeepNothing(planIds);
    } else {
      var selected := Marked(plan, app, |app.verifications|);
      assert ids == Keep(planIds, selected);
      hide Marks, Eligible, Marked, WouldBeAccepted, Distinct;
      KeepUnique(planIds, selected);
      forall id ensures id in ids <==> id in planIds && id in selected {
        KeepMembers(planIds, selected, id);
      }
      KeepSame(planIds, selected, ids);
      forall id | id in ids
        ensures && id in app.mutationIds && ActionOf(plan, id).Some? && ActionOf(plan, id).value.kind.EndpointDhcp?
                && exists v | v in app.verifications :: v.actionId == id && Marks(plan, app, v)
      {
        MarkedAreMutations(plan, app, |app.verifications|, id);
      }
    }
  }

  lemma {:induction false} KeepNothing(ids: seq<Id>)
    ensures Keep(ids, []) == []
  {
    if ids != [] {
      KeepNothing(ids[1..]);
    }
  }

  /** The scope splits the plan: each action is either reasserted or retained as applied,
      never both, and both lists follow the order of the plan. */
  lemma ScopePartitionsThePlan(plan: Plan, app: Application, voice: bool, acceptance: Acceptance)
    requires ReassertionScope(plan, app, voice, acceptance).Ok?
    ensures var scope, planIds := ReassertionScope(plan, app, voice, acceptance).value, ActionIds(plan.actions);
      && scope.ids != [] && Distinct(planIds)
      && scope.ids == Keep(planIds, scope.ids) && ResultIds(scope.retained) == Drop(planIds, scope.ids)
      && (forall id | id in scope.ids :: id in app.mutationIds)
      && (forall r | r in scope.retained :: SatisfiesApplyDependency(r.status))
      && (forall id | id in planIds :: id in scope.ids <==> id !in ResultIds(scope.retained))
  {
    var source := if voice then app.(barrier := Some(SignalIntended(app.barrier.value))) else app;
    var scope, planIds := ReassertionScope(plan, app, voice, acceptance).value, ActionIds(plan.actions);
    EligibleIsFailedDelta(plan, app, voice, acceptance);
    RereadKeepsThePlan(plan, source);
    hide Eligible, RereadScope, Marks, Distinct;
    DropResultIds(RereadScope(plan, source).value, scope.ids);
    forall id | id in planIds ensures id in scope.ids <==> id !in ResultIds(scope.retained) {
      KeepMembers(planIds, scope.ids, id);
    }
  }

  /** The scope is found lost only where nothing was eligible: the second refusal cannot
      happen. */
  lemma DeferredVoiceIsNeverLost(plan: Plan, app: Application, voice: bool, acceptance: Acceptance)
    ensures ReassertionScope(plan, app, voice, acceptance) != Err(LostDeferredVoice)
  {
    hide Marks, Marked, WellIndexed, RereadScope;
  }
}
