/** What guards what in a governed run: which answers every mutation, every measurement that
    counts and every snapshot rests on, told from the trace and the answers alone. */
module GovernedGuards {
  import opened Outcomes
  import opened GovernedRun

  /** `op` was called at `k`, and the answer was positive. */
  predicate Confirmed(world: World, trace: seq<Op>, k: nat, op: Op) {
    k < |trace| && trace[k] == op && world(k, op).Done? && world(k, op).reply.ok
  }

  predicate Answered(world: World, trace: seq<Op>, k: nat, op: Op) {
    k < |trace| && trace[k] == op && world(k, op).Done?
  }

  /** A capture at `k` that has a usable power table, and whose raw output is on record. */
  predicate Usable(world: World, trace: seq<Op>, k: nat, tag: string) {
    && Answered(world, trace, k, CaptureStatus(tag))
    && var reading := world(k, CaptureStatus(tag)).reply.reading;
       reading.powerTable && OnRecord(NotesOf(world, trace[..k + 1]).raw, reading)
  }

  /** A measurement at `k` that is complete, agrees with its step, and is on record. */
  predicate Counts(world: World, trace: seq<Op>, k: nat, tag: string) {
    && Answered(world, trace, k, CaptureStatus(tag))
    && var reading := world(k, CaptureStatus(tag)).reply.reading;
       reading.complete && reading.translates && OnRecord(NotesOf(world, trace[..k + 1]).raw, reading)
  }

  // ----- Where the operations of the plan are -----

  function ModuleCount(world: World): nat {
    if Requires(world) then |ModuleOps(Refused(world))| else 0
  }

  /** Where the endpoints begin, and where the measurements do. */
  function EndpointsAt(world: World): nat { 10 + ModuleCount(world) }

  function MeasuresAt(world: World, names: seq<string>): nat
    requires names != []
  {
    8 + |FixtureOps(names, Requires(world), Refused(world))|
  }

  lemma OpAhead(plan: seq<Op>, n: nat, part: seq<Op>, k: nat)
    requires Ahead(plan, n, part) && n <= k < n + |part|
    ensures k < |plan| && plan[k] == part[k - n]
  {
    assert plan[n..n + |part|][k - n] == plan[k];
  }

  lemma PlanCases(world: World, names: seq<string>, k: nat)
    requires names != [] && k < |PlanOf(world, names)|
    ensures var op, e, m := PlanOf(world, names)[k], EndpointsAt(world), MeasuresAt(world, names);
      var l := e + |EndpointOps(names, |names|)|;
      || (k < 8 && op == BaselineOps()[k])
      || (k == 8 && op == FactoryRequired)
      || (k == 9 && op == CreateDevice(names[0]))
      || (Requires(world) && 10 <= k < e && op == ModuleOps(Refused(world))[k - 10])
      || (e <= k < l && op == EndpointOps(names, |names|)[k - e])
      || (!Requires(world) && k == l && op == WaitReady)
      || (m <= k < m + |MeasureOps(3)| && op == MeasureOps(3)[k - m])
    ensures MeasuresAt(world, names) ==
      EndpointsAt(world) + |EndpointOps(names, |names|)| + if Requires(world) then 0 else 1
  {
    hide PlanOf, FixtureOps, ModuleOps, EndpointOps, MeasureOps, BaselineOps, Ahead, Following, Requires, Refused;
    BaselineSize();
    PlanParts(world, names);
    FixtureAhead(world, names);
    var plan, e, m := PlanOf(world, names), EndpointsAt(world), MeasuresAt(world, names);
    var l := e + |EndpointOps(names, |names|)|;
    if k < 8 {
      OpAhead(plan, 0, BaselineOps(), k);
    } else if k == 8 {
      OpAhead(plan, 8, [FactoryRequired], 8);
    } else if k == 9 {
      OpAhead(plan, 9, [CreateDevice(names[0])], 9);
    } else if k < e {
      OpAhead(plan, 10, ModuleOps(Refused(world)), k);
    } else if k < l {
      OpAhead(plan, e, EndpointOps(names, |names|), k);
    } else if k < m {
      OpAhead(plan, l, [WaitReady], k);
    } else {
      OpAhead(plan, m, MeasureOps(3), k);
    }
  }

  lemma BaselineSize()
    ensures |BaselineOps()| == 8
  {
  }

  /** What the body calls is what the plan says, and everything before its last operation
      passed. */
  lemma BodyAt(world: World, names: seq<string>, body: seq<Op>, k: nat)
    requires names != [] && BodyRan(world, names, body) && k < |body|
    ensures k < |PlanOf(world, names)| && body[k] == PlanOf(world, names)[k]
    ensures k < |body| - 1 ==> Passes(world, body[..k], body[k])
  {
    hide PlanOf, Passes;
  }

  /** What passing means for a capture, a check, and any other operation. */
  lemma PassesMeans(world: World, body: seq<Op>, k: nat)
    requires k < |body| && Passes(world, body[..k], body[k])
    ensures Answered(world, body, k, body[k])
    ensures (body[k].MailboxEntries? || body[k].Environment? || body[k].SourceState? || body[k].CreateDevice?
             || body[k].VerifyModule? || body[k].InstallModule?) ==> Confirmed(world, body, k, body[k])
    ensures body[k].CaptureStatus? && body[k].tag in Labels ==> Counts(world, body, k, body[k].tag)
    ensures body[k].CaptureStatus? && body[k].tag !in Labels ==> Usable(world, body, k, body[k].tag)
  {
    hide Labels;
    assert body[..k + 1] == body[..k] + [body[k]];
    NotesAppend(world, body[..k], body[k]);
  }

  lemma PassedAt(world: World, names: seq<string>, body: seq<Op>, k: nat)
    requires names != [] && BodyRan(world, names, body) && k < |body| - 1
    ensures Answered(world, body, k, body[k])
    ensures (body[k].MailboxEntries? || body[k].Environment? || body[k].SourceState? || body[k].CreateDevice?
             || body[k].VerifyModule? || body[k].InstallModule?) ==> Confirmed(world, body, k, body[k])
    ensures body[k].CaptureStatus? && body[k].tag in Labels ==> Counts(world, body, k, body[k].tag)
    ensures body[k].CaptureStatus? && body[k].tag !in Labels ==> Usable(world, body, k, body[k].tag)
  {
    hide PlanOf, BodyRan, Passes, Labels, Counts, Usable;
    BodyAt(world, names, body, k);
    PassesMeans(world, body, k);
  }

  lemma {:induction false} EndpointKinds(names: seq<string>, m: nat, k: nat)
    requires m <= |names| && k < |EndpointOps(names, m)|
    ensures EndpointOps(names, m)[k].CreateDevice? || EndpointOps(names, m)[k].CreateLink?
    ensures EndpointOps(names, m)[k].CreateDevice? ==>
      k + 1 < |EndpointOps(names, m)| && EndpointOps(names, m)[k + 1] == CreateLink(EndpointOps(names, m)[k].name)
  {
    if m > 1 && k < |EndpointOps(names, m - 1)| {
      EndpointKinds(names, m - 1, k);
    }
  }

  /** A measurement is four operations: the probes, the mode, and the capture. */
  lemma MeasureAt(k: nat) returns (i: nat, j: nat)
    requires k < |MeasureOps(3)|
    ensures i < 3 && j < 4 && k == 4 * i + j && 4 * i + 3 < |MeasureOps(3)| == 12
    ensures MeasureOps(3)[4 * i] == Processes && MeasureOps(3)[4 * i + 1] == SourceState
    ensures MeasureOps(3)[4 * i + 2] == ApplyMode(Labels[i] != "NEVER")
    ensures MeasureOps(3)[4 * i + 3] == CaptureStatus(Labels[i])
  {
    hide MeasureOps;
    assert MeasureOps(3)[0..0 + |MeasureOps(3)|] == MeasureOps(3);
    MeasureAhead(MeasureOps(3), 0, 0);
    i, j := k / 4, k % 4;
    MeasureAhead(MeasureOps(3), 0, i);
    OpAhead(MeasureOps(3), 4 * i, StepOps(Labels[i]), 4 * i);
    OpAhead(MeasureOps(3), 4 * i, StepOps(Labels[i]), 4 * i + 1);
    OpAhead(MeasureOps(3), 4 * i, StepOps(Labels[i]), 4 * i + 2);
    OpAhead(MeasureOps(3), 4 * i, StepOps(Labels[i]), 4 * i + 3);
  }

  lemma ModuleKinds(refused: bool, k: nat)
    requires k < |ModuleOps(refused)|
    ensures var op := ModuleOps(refused)[k];
      && !op.CreateDevice? && !op.ApplyMode? && !(op.CaptureStatus? && op.tag in Labels)
      && (op.InstallModule? <==> k == 3) && (op.InstallFallback? <==> refused && k == 6)
  {
    PowerTagIsOther("PSU_BEFORE");
    PowerTagIsOther("PSU_AFTER");
    PowerTagIsOther("PSU_AFTER_NATIVE_FALSE");
  }

  // ----- Creation -----

  /** Before the first device is asked for, the bridge was found alive and its mailbox empty,
      the workspace empty, and the source frozen. */
  lemma CreationIsGuarded(world: World, names: seq<string>, body: seq<Op>, k: nat)
    requires names != [] && BodyRan(world, names, body) && k < |body| && body[k].CreateDevice?
    ensures k >= 9
    ensures Confirmed(world, body, 0, BridgeHealthy) && Confirmed(world, body, 1, MailboxEntries)
    ensures Answered(world, body, 2, StartBridge) && Confirmed(world, body, 3, Environment)
    ensures Answered(world, body, 4, Fingerprint) && Answered(world, body, 5, DeviceNames)
    ensures Answered(world, body, 6, Processes) && Confirmed(world, body, 7, SourceState)
  {
    hide PlanOf, BodyRan, ModuleOps, EndpointOps, MeasureOps, Passes;
    BodyAt(world, names, body, k);
    PlanCases(world, names, k);
    assert k >= 9;
    hide *;
    BaselinePassed(world, names, body);
  }

  lemma BaselinePassed(world: World, names: seq<string>, body: seq<Op>)
    requires names != [] && BodyRan(world, names, body) && |body| > 8
    ensures Confirmed(world, body, 0, BridgeHealthy) && Confirmed(world, body, 1, MailboxEntries)
    ensures Answered(world, body, 2, StartBridge) && Confirmed(world, body, 3, Environment)
    ensures Answered(world, body, 4, Fingerprint) && Answered(world, body, 5, DeviceNames)
    ensures Answered(world, body, 6, Processes) && Confirmed(world, body, 7, SourceState)
  {
    hide PlanOf, BodyRan, Passes, Confirmed, Answered, Usable, Counts, Labels;
    HealthJudged(world, names, body);
    BaselinePassedAt(world, names, body, 1);
    BaselinePassedAt(world, names, body, 2);
    BaselinePassedAt(world, names, body, 3);
    BaselinePassedAt(world, names, body, 4);
    BaselinePassedAt(world, names, body, 5);
    BaselinePassedAt(world, names, body, 6);
    BaselinePassedAt(world, names, body, 7);
  }

  lemma BaselinePassedAt(world: World, names: seq<string>, body: seq<Op>, j: nat)
    requires names != [] && BodyRan(world, names, body) && |body| > 8 && j < 8
    ensures var op := BaselineOps()[j];
      && Answered(world, body, j, op)
      && (op.MailboxEntries? || op.Environment? || op.SourceState? ==> Confirmed(world, body, j, op))
  {
    hide PlanOf, BodyRan, Passes, Confirmed, Answered, Usable, Counts;
    BaselineCalled(world, names, body, j);
    PassedAt(world, names, body, j);
  }

  lemma BaselineCalled(world: World, names: seq<string>, body: seq<Op>, j: nat)
    requires names != [] && BodyRan(world, names, body) && j < |body| && j < 8
    ensures body[j] == BaselineOps()[j]
  {
    hide PlanOf, BodyRan, ModuleOps, EndpointOps, MeasureOps, Passes, FixtureOps;
    BodyAt(world, names, body, j);
    PlanParts(world, names);
    OpAhead(PlanOf(world, names), 0, BaselineOps(), j);
  }

  /** The heartbeat is judged when the mailbox has been read. */
  lemma HealthJudged(world: World, names: seq<string>, body: seq<Op>)
    requires names != [] && BodyRan(world, names, body) && |body| > 2
    ensures Confirmed(world, body, 0, BridgeHealthy)
  {
    hide PlanOf, BodyRan, Passes;
    BaselineCalled(world, names, body, 0);
    BaselineCalled(world, names, body, 1);
    BodyAt(world, names, body, 1);
    PassedAt(world, names, body, 0);
    assert body[..1] == [BridgeHealthy];
    MailboxPasses(world, body[..1]);
  }

  /** Each endpoint is linked as soon as it is there. */
  lemma EndpointsAreLinked(world: World, names: seq<string>, body: seq<Op>, k: nat)
    requires names != [] && BodyRan(world, names, body) && 9 < k < |body| - 1 && body[k].CreateDevice?
    ensures Confirmed(world, body, k, body[k]) && body[k + 1] == CreateLink(body[k].name)
  {
    hide PlanOf, BodyRan, ModuleOps, EndpointOps, MeasureOps, Passes, FixtureOps, Confirmed;
    PassedAt(world, names, body, k);
    BodyAt(world, names, body, k);
    BodyAt(world, names, body, k + 1);
    var e := EndpointsAt(world);
    CreatedInPlan(world, names, k);
    EndpointKinds(names, |names|, k - e);
    FixtureAhead(world, names);
    OpAhead(PlanOf(world, names), e, EndpointOps(names, |names|), k + 1);
  }

  /** Behind the switch, devices are created among the endpoints. */
  lemma CreatedInPlan(world: World, names: seq<string>, k: nat)
    requires names != [] && 9 < k < |PlanOf(world, names)| && PlanOf(world, names)[k].CreateDevice?
    ensures var e := EndpointsAt(world);
      e <= k < e + |EndpointOps(names, |names|)| && PlanOf(world, names)[k] == EndpointOps(names, |names|)[k - e]
  {
    hide PlanOf, ModuleOps, EndpointOps, MeasureOps, FixtureOps, BaselineOps, Requires, Refused;
    PlanCases(world, names, k);
    var e, m := EndpointsAt(world), MeasuresAt(world, names);
    if Requires(world) && 10 <= k < e {
      ModuleKinds(Refused(world), k - 10);
    } else if m <= k && k >= e + |EndpointOps(names, |names|)| {
      var i, j := MeasureAt(k - m);
    }
  }

  // ----- Measurement -----

  /** The mode is changed only after the source was found frozen, and the capture that follows
      is of the step the mode was changed for. */
  lemma MeasurementIsGuarded(world: World, names: seq<string>, body: seq<Op>, k: nat)
    requires names != [] && BodyRan(world, names, body) && k < |body| && body[k].ApplyMode?
    ensures k >= 2 && Answered(world, body, k - 2, Processes) && Confirmed(world, body, k - 1, SourceState)
    ensures k + 1 < |body| ==>
      && body[k + 1].CaptureStatus? && body[k + 1].tag in Labels
      && body[k].auto == (body[k + 1].tag != "NEVER")
  {
    hide PlanOf, BodyRan, ModuleOps, EndpointOps, MeasureOps, Passes, FixtureOps;
    BodyAt(world, names, body, k);
    var m := MeasuresAt(world, names);
    AppliedInPlan(world, names, k);
    var i, j := MeasureAt(k - m);
    assert j == 2;
    MeasureCalled(world, names, body, k - 2);
    MeasureCalled(world, names, body, k - 1);
    PassedAt(world, names, body, k - 2);
    PassedAt(world, names, body, k - 1);
    if k + 1 < |body| {
      MeasureCalled(world, names, body, k + 1);
    }
  }

  lemma MeasureCalled(world: World, names: seq<string>, body: seq<Op>, k: nat)
    requires names != [] && BodyRan(world, names, body) && k < |body|
    requires MeasuresAt(world, names) <= k < MeasuresAt(world, names) + |MeasureOps(3)|
    ensures body[k] == MeasureOps(3)[k - MeasuresAt(world, names)]
  {
    hide PlanOf, BodyRan, MeasureOps, FixtureOps;
    BodyAt(world, names, body, k);
    PlanParts(world, names);
    OpAhead(PlanOf(world, names), MeasuresAt(world, names), MeasureOps(3), k);
  }

  lemma AppliedInPlan(world: World, names: seq<string>, k: nat)
    requires names != [] && k < |PlanOf(world, names)| && PlanOf(world, names)[k].ApplyMode?
    ensures var m := MeasuresAt(world, names);
      m <= k < m + |MeasureOps(3)| && PlanOf(world, names)[k] == MeasureOps(3)[k - m]
  {
    hide PlanOf, ModuleOps, EndpointOps, MeasureOps, FixtureOps, Requires, Refused;
    PlanCases(world, names, k);
    var e := EndpointsAt(world);
    if Requires(world) && 10 <= k < e {
      ModuleKinds(Refused(world), k - 10);
    }
    if e <= k < e + |EndpointOps(names, |names|)| {
      EndpointKinds(names, |names|, k - e);
    }
  }

  /** A measurement after which the body went on counts. */
  lemma MeasurementCounts(world: World, names: seq<string>, body: seq<Op>, k: nat)
    requires names != [] && BodyRan(world, names, body) && k < |body| - 1
    requires body[k].CaptureStatus? && body[k].tag in Labels
    ensures Counts(world, body, k, body[k].tag)
  {
    PassedAt(world, names, body, k);
  }

  // ----- The module -----

  /** The fallback follows a dispatched installation that was natively refused, with the power
      usable before and after it, and a target that was determined. */
  lemma FallbackIsEarned(world: World, names: seq<string>, body: seq<Op>, k: nat)
    requires names != [] && BodyRan(world, names, body) && k < |body| && body[k] == InstallFallback
    ensures k >= 5 && Confirmed(world, body, k - 5, ObserveModule) && Usable(world, body, k - 4, "PSU_BEFORE")
    ensures Confirmed(world, body, k - 3, InstallModule)
      && world(k - 3, InstallModule).reply.acknowledged == Some(false)
    ensures Answered(world, body, k - 2, WaitReady) && Usable(world, body, k - 1, "PSU_AFTER_NATIVE_FALSE")
  {
    hide PlanOf, BodyRan, EndpointOps, MeasureOps, Passes, FixtureOps, ModuleOps, Labels;
    BodyAt(world, names, body, k);
    FallbackInPlan(world, names, k);
    RefusedModule();
    ModuleCalled(world, names, body, 11);
    ModuleCalled(world, names, body, 12);
    ModuleCalled(world, names, body, 13);
    ModuleCalled(world, names, body, 14);
    ModuleCalled(world, names, body, 15);
    PassedAt(world, names, body, 11);
    PassedAt(world, names, body, 12);
    PassedAt(world, names, body, 13);
    PassedAt(world, names, body, 14);
    PassedAt(world, names, body, 15);
    PowerTagsOther();
    TargetJudged(world, names, body);
  }

  lemma PowerTagsOther()
    ensures "PSU_BEFORE" !in Labels && "PSU_AFTER" !in Labels && "PSU_AFTER_NATIVE_FALSE" !in Labels
  {
    PowerTagIsOther("PSU_BEFORE");
    PowerTagIsOther("PSU_AFTER");
    PowerTagIsOther("PSU_AFTER_NATIVE_FALSE");
  }

  lemma RefusedModule()
    ensures var ops := ModuleOps(true);
      && |ops| == 10 && ops[1] == ObserveModule && ops[2] == CaptureStatus("PSU_BEFORE") && ops[3] == InstallModule
      && ops[4] == WaitReady && ops[5] == CaptureStatus("PSU_AFTER_NATIVE_FALSE") && ops[6] == InstallFallback
  {
  }

  lemma FallbackInPlan(world: World, names: seq<string>, k: nat)
    requires names != [] && k < |PlanOf(world, names)| && PlanOf(world, names)[k] == InstallFallback
    ensures Requires(world) && Refused(world) && k == 16
  {
    hide PlanOf, ModuleOps, EndpointOps, MeasureOps, FixtureOps, Requires, Refused;
    PlanCases(world, names, k);
    var e, m := EndpointsAt(world), MeasuresAt(world, names);
    if Requires(world) && 10 <= k < e {
      ModuleKinds(Refused(world), k - 10);
    } else if e <= k < e + |EndpointOps(names, |names|)| {
      EndpointKinds(names, |names|, k - e);
    } else if m <= k < m + |MeasureOps(3)| {
      var i, j := MeasureAt(k - m);
    }
  }

  lemma ModuleCalled(world: World, names: seq<string>, body: seq<Op>, k: nat)
    requires names != [] && BodyRan(world, names, body) && k < |body|
    requires Requires(world) && 10 <= k < 10 + |ModuleOps(Refused(world))|
    ensures body[k] == ModuleOps(Refused(world))[k - 10]
  {
    hide PlanOf, BodyRan, ModuleOps, EndpointOps, MeasureOps, FixtureOps, Requires, Refused;
    BodyAt(world, names, body, k);
    FixtureAhead(world, names);
    OpAhead(PlanOf(world, names), 10, ModuleOps(Refused(world)), k);
  }

  /** The target is judged when the power has been read. */
  lemma TargetJudged(world: World, names: seq<string>, body: seq<Op>)
    requires names != [] && BodyRan(world, names, body) && |body| > 13 && Requires(world)
    ensures Confirmed(world, body, 11, ObserveModule)
  {
    hide PlanOf, BodyRan, Passes, ModuleOps, Requires, Refused;
    ModuleFront(Refused(world));
    ModuleCalled(world, names, body, 11);
    ModuleCalled(world, names, body, 12);
    BodyAt(world, names, body, 12);
    PassedAt(world, names, body, 11);
    assert body[..12][11] == ObserveModule;
    PowerTags();
    PowerPasses(world, body[..12], "PSU_BEFORE");
  }

  lemma ModuleFront(refused: bool)
    ensures var ops := ModuleOps(refused);
      |ops| >= 7 && ops[1] == ObserveModule && ops[2] == CaptureStatus("PSU_BEFORE") && ops[3] == InstallModule
  {
  }

  /** Endpoints are created behind an installed module only when it was verified and its power
      read. */
  lemma ModuleIsVerified(world: World, names: seq<string>, body: seq<Op>, i: nat, k: nat) returns (j: nat)
    requires names != [] && BodyRan(world, names, body) && i < k < |body|
    requires body[i] == InstallModule && body[k].CreateDevice?
    ensures i < j < k - 1 && Confirmed(world, body, j, VerifyModule) && Usable(world, body, j + 1, "PSU_AFTER")
  {
    hide PlanOf, BodyRan, EndpointOps, MeasureOps, Passes, FixtureOps, ModuleOps, Requires, Refused, Labels;
    BodyAt(world, names, body, i);
    BodyAt(world, names, body, k);
    InstallInPlan(world, names, i);
    CreatedInPlan(world, names, k);
    var n := |ModuleOps(Refused(world))|;
    ModuleBack(Refused(world));
    j := 10 + n - 2;
    ModuleCalled(world, names, body, j);
    ModuleCalled(world, names, body, j + 1);
    PassedAt(world, names, body, j);
    PassedAt(world, names, body, j + 1);
    PowerTagsOther();
  }

  lemma ModuleBack(refused: bool)
    ensures var ops, n := ModuleOps(refused), |ModuleOps(refused)|;
      n >= 7 && ops[n - 2] == VerifyModule && ops[n - 1] == CaptureStatus("PSU_AFTER")
  {
  }

  lemma InstallInPlan(world: World, names: seq<string>, k: nat)
    requires names != [] && k < |PlanOf(world, names)| && PlanOf(world, names)[k] == InstallModule
    ensures Requires(world) && k == 13
  {
    hide PlanOf, ModuleOps, EndpointOps, MeasureOps, FixtureOps, Requires, Refused;
    PlanCases(world, names, k);
    var e, m := EndpointsAt(world), MeasuresAt(world, names);
    if Requires(world) && 10 <= k < e {
      ModuleKinds(Refused(world), k - 10);
    } else if e <= k < e + |EndpointOps(names, |names|)| {
      EndpointKinds(names, |names|, k - e);
    } else if m <= k < m + |MeasureOps(3)| {
      var i, j := MeasureAt(k - m);
    }
  }

  // ----- Snapshots and restorations -----

  lemma SnapshotBody(world: World, names: seq<string>, trace: seq<Op>, files: map<string, string>)
    requires SnapshotEarned(world, names, trace, files)
    ensures PlanOf(world, names) <= trace && BodyRan(world, names, PlanOf(world, names))
    ensures forall k: nat | k < |PlanOf(world, names)| :: Passes(world, trace[..k], trace[k])
  {
    hide PlanOf, Passes, DeleteOps, SafetyOps, AutoOps, AllConfirmed, ShowsPower, TextAt, NamesAt;
    var plan := PlanOf(world, names);
    assert trace[..|plan|] == plan;
    forall k: nat | k < |plan| ensures Passes(world, trace[..k], trace[k]) {
      assert plan[..k] == trace[..k];
    }
  }

  /** A snapshot rests on three measurements that count, each made under a frozen source and in
      its own mode. */
  lemma SnapshotMeasured(world: World, names: seq<string>, trace: seq<Op>, files: map<string, string>, tag: string)
    returns (k: nat)
    requires SnapshotEarned(world, names, trace, files) && tag in Labels
    ensures k >= 2 && Confirmed(world, trace, k - 2, SourceState)
    ensures Answered(world, trace, k - 1, ApplyMode(tag != "NEVER")) && Counts(world, trace, k, tag)
  {
    hide PlanOf, Passes, SnapshotEarned, BodyRan, MeasureOps, FixtureOps, Counts;
    SnapshotBody(world, names, trace, files);
    assert names != [] by { SnapshotNamed(world, names, trace, files); }
    var plan, m := PlanOf(world, names), MeasuresAt(world, names);
    var i: nat :| i < 3 && Labels[i] == tag;
    MeasureCount();
    var a, b := MeasureAt(4 * i);
    k := m + 4 * i + 3;
    PlanParts(world, names);
    MeasureCalled(world, names, plan, k - 2);
    MeasureCalled(world, names, plan, k - 1);
    MeasureCalled(world, names, plan, k);
    PassesMeans(world, trace, k - 2);
    PassesMeans(world, trace, k - 1);
    PassesMeans(world, trace, k);
  }

  lemma SnapshotNamed(world: World, names: seq<string>, trace: seq<Op>, files: map<string, string>)
    requires SnapshotEarned(world, names, trace, files)
    ensures names != []
  {
    hide PlanOf, Following;
  }

  lemma MeasureCount()
    ensures |MeasureOps(3)| == 12
  {
    MeasureAhead(MeasureOps(3), 0, 0);
  }

  /** It rests on AUTO being restored and shown by every row, on a reading that is on record,
      and on the fingerprint and the device names being those from before the first device. */
  lemma SnapshotRestored(world: World, names: seq<string>, trace: seq<Op>, files: map<string, string>)
    returns (auto: nat, back: nat)
    requires SnapshotEarned(world, names, trace, files)
    ensures Answered(world, trace, auto, ApplyMode(true)) && Answered(world, trace, auto + 1, CaptureStatus("RESTORE"))
    ensures var reading := world(auto + 1, CaptureStatus("RESTORE")).reply.reading;
      reading.translates && reading.everyRow && OnRecord(files, reading)
    ensures Answered(world, trace, 4, Fingerprint) && Answered(world, trace, back, WaitFingerprint)
    ensures world(back, WaitFingerprint).reply.text == world(4, Fingerprint).reply.text
    ensures Answered(world, trace, 5, DeviceNames) && Answered(world, trace, back + 1, DeviceNames)
    ensures world(back + 1, DeviceNames).reply.names == world(5, DeviceNames).reply.names
    ensures auto + 1 < back && trace[|trace| - 1] == StopBridge && world(|trace| - 1, StopBridge).Done?
  {
    hide SnapshotEarned, PlanOf;
    SnapshotNamed(world, names, trace, files);
    auto := |PlanOf(world, names)|;
    back := auto + 2 + |names| + 1;
    SnapshotPlaces(world, names, trace, files);
    SnapshotShows(world, names, trace, files);
    SnapshotOpening(world, names, trace, files);
  }

  lemma SnapshotPlaces(world: World, names: seq<string>, trace: seq<Op>, files: map<string, string>)
    requires SnapshotEarned(world, names, trace, files)
    ensures var auto := |PlanOf(world, names)|;
      var back := auto + 2 + |names| + 1;
      && Answered(world, trace, auto, ApplyMode(true)) && Answered(world, trace, auto + 1, CaptureStatus("RESTORE"))
      && Answered(world, trace, back, WaitFingerprint) && Answered(world, trace, back + 1, DeviceNames)
      && Answered(world, trace, |trace| - 1, StopBridge)
  {
    hide PlanOf, Following, Passes, DeleteOps, SafetyOps, AllConfirmed, ShowsPower, TextAt, NamesAt;
    var auto := |PlanOf(world, names)|;
    var back := auto + 2 + |names| + 1;
    DeleteCount(names);
    SafetyCount();
    assert trace[auto] == ApplyMode(true) && trace[auto + 1] == CaptureStatus("RESTORE");
    assert trace[back] == SafetyOps()[1] && trace[back + 1] == SafetyOps()[2];
  }

  lemma SnapshotShows(world: World, names: seq<string>, trace: seq<Op>, files: map<string, string>)
    requires SnapshotEarned(world, names, trace, files)
    ensures var n := |PlanOf(world, names)|;
      var back := n + 2 + |names| + 1;
      && ShowsPower(world, n + 1, true, files)
      && TextAt(world, back, WaitFingerprint) == TextAt(world, 4, Fingerprint)
      && NamesAt(world, back + 1, DeviceNames) == NamesAt(world, 5, DeviceNames)
  {
    hide PlanOf, Following, DeleteOps, SafetyOps, AutoOps, AllConfirmed, ShowsPower, TextAt, NamesAt;
  }

  lemma SnapshotOpening(world: World, names: seq<string>, trace: seq<Op>, files: map<string, string>)
    requires SnapshotEarned(world, names, trace, files)
    ensures Answered(world, trace, 4, Fingerprint) && Answered(world, trace, 5, DeviceNames)
  {
    hide PlanOf, Passes, SnapshotEarned, FixtureOps, MeasureOps, BodyRan;
    SnapshotNamed(world, names, trace, files);
    SnapshotBody(world, names, trace, files);
    PlanParts(world, names);
    BaselineCalled(world, names, PlanOf(world, names), 4);
    BaselineCalled(world, names, PlanOf(world, names), 5);
    PassesMeans(world, trace, 4);
    PassesMeans(world, trace, 5);
  }

  lemma {:induction false} DeleteAt(names: seq<string>, i: nat)
    requires i < |names|
    ensures |DeleteOps(names)| == |names| && DeleteOps(names)[|names| - 1 - i] == DeleteDevice(names[i])
  {
    DeleteCount(names);
    if i < |names| - 1 {
      DeleteAt(names[..|names| - 1], i);
    }
  }

  /** It rests on every device having been created and its deletion confirmed. */
  lemma SnapshotCleaned(world: World, names: seq<string>, trace: seq<Op>, files: map<string, string>, i: nat)
    returns (made: nat, gone: nat)
    requires SnapshotEarned(world, names, trace, files) && i < |names|
    ensures made < gone && Confirmed(world, trace, made, CreateDevice(names[i]))
    ensures Confirmed(world, trace, gone, DeleteDevice(names[i]))
  {
    made := CreatedAt(world, names, trace, files, i);
    gone := DeletedAt(world, names, trace, files, i);
  }

  lemma DeletedAt(world: World, names: seq<string>, trace: seq<Op>, files: map<string, string>, i: nat)
    returns (gone: nat)
    requires SnapshotEarned(world, names, trace, files) && i < |names|
    ensures |PlanOf(world, names)| <= gone && Confirmed(world, trace, gone, DeleteDevice(names[i]))
  {
    var plan := PlanOf(world, names);
    hide PlanOf, Following, Passes, DeleteOps, SafetyOps, ShowsPower, TextAt, NamesAt;
    DeleteAt(names, i);
    DeleteCount(names);
    gone := |plan| + 2 + (|names| - 1 - i);
    DeletionPlace(plan, AutoOps(true), DeleteOps(names), SafetyOps() + [StopBridge], |names| - 1 - i);
    assert trace == plan + AutoOps(true) + DeleteOps(names) + (SafetyOps() + [StopBridge]);
    assert trace[..|plan| + 2 + |names|][gone] == trace[gone];
  }

  lemma DeletionPlace(plan: seq<Op>, auto: seq<Op>, deletions: seq<Op>, rest: seq<Op>, k: nat)
    requires k < |deletions|
    ensures (plan + auto + deletions + rest)[|plan| + |auto| + k] == deletions[k]
  {
  }

  lemma CreatedAt(world: World, names: seq<string>, trace: seq<Op>, files: map<string, string>, i: nat)
    returns (made: nat)
    requires SnapshotEarned(world, names, trace, files) && i < |names|
    ensures made < |PlanOf(world, names)| && Confirmed(world, trace, made, CreateDevice(names[i]))
  {
    hide PlanOf, Passes, SnapshotEarned, EndpointOps, FixtureOps, MeasureOps, ModuleOps;
    SnapshotBody(world, names, trace, files);
    FixtureAhead(world, names);
    var e := EndpointsAt(world);
    if i == 0 {
      made := 9;
      OpAhead(PlanOf(world, names), 9, [CreateDevice(names[0])], 9);
    } else {
      EndpointAt(names, |names|, i);
      made := e + 2 * i - 2;
      OpAhead(PlanOf(world, names), e, EndpointOps(names, |names|), made);
    }
    PassesMeans(world, trace, made);
  }

  // ----- Stopping -----

  /** The last operation gave the body a reason to stop. */
  predicate Stops(world: World, body: seq<Op>)
    requires body != []
  {
    var k := |body| - 1;
    var op, outcome := body[k], world(k, body[k]);
    || !outcome.Done?
    || ((op.MailboxEntries? || op.Environment? || op.SourceState? || op.CreateDevice? || op.VerifyModule?
         || op.InstallModule?) && !outcome.reply.ok)
    || ((op.InstallModule? || op.InstallFallback?) && outcome.reply.acknowledged.None?)
    || (op.CaptureStatus? && op.tag in Labels && !Counts(world, body, k, op.tag))
    || (op.CaptureStatus? && op.tag !in Labels && !Usable(world, body, k, op.tag))
    || (op.MailboxEntries? && k > 0 && !Confirmed(world, body, k - 1, BridgeHealthy))
    || (op.CaptureStatus? && k > 0 && body[k - 1] == ObserveModule && !Confirmed(world, body, k - 1, ObserveModule))
  }

  lemma FailedStops(world: World, body: seq<Op>)
    requires body != [] && !Passes(world, body[..|body| - 1], body[|body| - 1])
    ensures Stops(world, body)
  {
    hide Labels;
    var k := |body| - 1;
    assert body[..k + 1] == body[..k] + [body[k]];
    NotesAppend(world, body[..k], body[k]);
    assert k > 0 ==> body[..k][k - 1] == body[k - 1];
  }

  lemma LastOfPlan(world: World, names: seq<string>)
    requires names != []
    ensures var plan := PlanOf(world, names); plan != [] && plan[|plan| - 1] == CaptureStatus("AUTO_2")
  {
    hide PlanOf, FixtureOps, MeasureOps, BaselineOps;
    PlanParts(world, names);
    MeasureCount();
    var i, j := MeasureAt(11);
    OpAhead(PlanOf(world, names), MeasuresAt(world, names), MeasureOps(3), MeasuresAt(world, names) + 11);
  }

  /** The body stops nowhere without a reason: it gets to its last measurement, or to an
      operation that failed its check. */
  lemma BodyGoesOn(world: World, names: seq<string>, body: seq<Op>)
    requires BodyRan(world, names, body)
    ensures body != [] && (Stops(world, body) || Counts(world, body, |body| - 1, "AUTO_2"))
  {
    hide PlanOf, Passes, Stops, Counts, Usable;
    BodyEnds(world, names, body);
    if !Passes(world, body[..|body| - 1], body[|body| - 1]) {
      FailedStops(world, body);
    } else {
      PassesMeans(world, body, |body| - 1);
    }
  }

  lemma BodyEnds(world: World, names: seq<string>, body: seq<Op>)
    requires BodyRan(world, names, body)
    ensures body != []
    ensures Passes(world, body[..|body| - 1], body[|body| - 1]) ==> body[|body| - 1] == CaptureStatus("AUTO_2")
  {
    hide PlanOf, Passes;
    LastOfPlan(world, names);
    assert Following(world, PlanOf(world, names), body) && |body| == |PlanOf(world, names)| ==>
      body == PlanOf(world, names);
  }

  // ----- Going on with the restoration -----

  /** An uninterrupted restoration asks for every deletion, and then for the residue, whatever
      failed before; and it goes on with the final readings as long as they are answered. */
  lemma RestorationGoesOn(world: World, trace: seq<Op>, lo: nat, attempted: seq<string>) returns (safety: nat)
    requires RestorationRan(world, trace, lo, attempted)
    ensures lo < safety < |trace| && trace[lo] == ApplyMode(true)
    ensures world(lo, ApplyMode(true)).Done? <==> trace[lo + 1] == CaptureStatus("RESTORE")
    ensures forall i | 0 <= i < |attempted| :: DeleteDevice(attempted[i]) in trace[lo..safety]
    ensures trace[safety..] <=
      [RetireResidue, WaitFingerprint, DeviceNames, Environment, CollectCompleted, Processes, SourceState,
       MailboxEntries, BridgeHealthy, TransportProblems]
    ensures forall k: nat | safety <= k < |trace| - 1 :: world(k, trace[k]).Done?
    ensures |trace| == safety + 10 || !world(|trace| - 1, trace[|trace| - 1]).Done?
  {
    hide *;
    safety := RestorationFront(world, trace, lo, attempted);
    RestorationBack(world, trace, lo, attempted, safety);
  }

  lemma RestorationFront(world: World, trace: seq<Op>, lo: nat, attempted: seq<string>) returns (safety: nat)
    requires RestorationRan(world, trace, lo, attempted)
    ensures lo < safety < |trace| && trace[lo] == ApplyMode(true)
    ensures world(lo, ApplyMode(true)).Done? <==> trace[lo + 1] == CaptureStatus("RESTORE")
    ensures forall i | 0 <= i < |attempted| :: DeleteDevice(attempted[i]) in trace[lo..safety]
    ensures Broken(world, SafetyOps(), safety, trace)
      || (Going(world, SafetyOps(), safety, trace) && |trace| == safety + 10)
  {
    hide DeleteOps, SafetyOps;
    var auto := AutoOps(world(lo, ApplyMode(true)).Done?);
    safety := lo + |auto| + |attempted|;
    SafetySize();
    DeleteCount(attempted);
    var front := auto + DeleteOps(attempted);
    assert front[0] == trace[lo..safety][0] == trace[lo];
    assert |auto| == 2 ==> front[1] == trace[lo..safety][1] == trace[lo + 1];
    if |auto| == 1 {
      assert trace[lo + 1] != CaptureStatus("RESTORE") by { NoCapture(world, trace, lo, attempted); }
    }
    forall i | 0 <= i < |attempted| ensures DeleteDevice(attempted[i]) in trace[lo..safety] {
      DeleteAt(attempted, i);
      assert front[|auto| + (|attempted| - 1 - i)] == DeleteDevice(attempted[i]);
    }
  }

  /** Without AUTO the first deletion comes next, or the residue. */
  lemma NoCapture(world: World, trace: seq<Op>, lo: nat, attempted: seq<string>)
    requires RestorationRan(world, trace, lo, attempted) && !world(lo, ApplyMode(true)).Done?
    ensures lo + 1 < |trace| && !trace[lo + 1].CaptureStatus?
  {
    var safety, n := lo + 1 + |attempted|, |attempted|;
    DeleteCount(attempted);
    if n > 0 {
      DeleteAt(attempted, n - 1);
      assert trace[lo + 1] == trace[lo..safety][1] == ([ApplyMode(true)] + DeleteOps(attempted))[1];
    }
  }

  lemma RestorationBack(world: World, trace: seq<Op>, lo: nat, attempted: seq<string>, safety: nat)
    requires safety < |trace| && (|| Broken(world, SafetyOps(), safety, trace)
                                  || (Going(world, SafetyOps(), safety, trace) && |trace| == safety + 10))
    ensures trace[safety..] <=
      [RetireResidue, WaitFingerprint, DeviceNames, Environment, CollectCompleted, Processes, SourceState,
       MailboxEntries, BridgeHealthy, TransportProblems]
    ensures forall k: nat | safety <= k < |trace| - 1 :: world(k, trace[k]).Done?
    ensures |trace| == safety + 10 || !world(|trace| - 1, trace[|trace| - 1]).Done?
  {
  }
}
