/** One governed qualification on the live session: mutate, measure, and restore, under any
    failure of any session operation. */
module GovernedRun {
  import opened Outcomes
  import opened Sequences

  // ----- The session -----

  datatype Op =
    | BridgeHealthy | MailboxEntries | StartBridge | Environment | Fingerprint | DeviceNames
    | Processes | SourceState
    | FactoryRequired | CreateDevice(name: string) | CreateLink(name: string) | WaitReady
    | ObserveModule | InstallModule | InstallFallback | VerifyModule
    | ApplyMode(auto: bool) | CaptureStatus(tag: string)
    | DeleteDevice(name: string) | RetireResidue | WaitFingerprint | CollectCompleted | TransportProblems
    | StopBridge

  /** A capture of the power table: the file it is kept in, its raw output, and whether it
      is complete, can be decoded as a power table, agrees with the plan and the step it
      was taken for, and has a row for every binding. */
  datatype Reading = Reading(
    rawFile: string, raw: string, complete: bool, powerTable: bool, translates: bool, everyRow: bool)

  /** `ok` is the check made on the reply: healthy, no residue, the right empty
      environment, a frozen source, a model read back, a target determined, a capture
      confirmed. `acknowledged` is the native answer of an installation. */
  datatype Reply = Reply(
    ok: bool, acknowledged: Option<bool>, text: string, names: set<string>, reading: Reading)

  /** An operation returns, raises an `Exception`, or is interrupted by something that is
      not an `Exception`. */
  datatype Outcome = Done(reply: Reply) | Fails(text: string) | Interrupts

  datatype Signal = Proceed | Problem(text: string) | Interrupted

  const Labels: seq<string> := ["AUTO_1", "NEVER", "AUTO_2"]

  datatype Capture = Capture(tag: string, reading: Reading)

  /** Nothing recorded is replaced. */
  ghost predicate Kept(before: map<string, string>, after: map<string, string>) {
    forall k | k in before :: k in after && after[k] == before[k]
  }

  predicate OnRecord(files: map<string, string>, reading: Reading) {
    reading.rawFile in files && files[reading.rawFile] == reading.raw
  }

  /** The raw files after a reading: the first reading of a name stays. */
  function Recorded(files: map<string, string>, reading: Reading): map<string, string> {
    if reading.rawFile in files then files else files[reading.rawFile := reading.raw]
  }

  function Reverse(s: seq<string>): seq<string> {
    if s == [] then [] else [s[|s| - 1]] + Reverse(s[..|s| - 1])
  }

  // ----- What a trace of operations says -----

  type World = (nat, Op) -> Outcome

  /** The operations that change the module or the power mode, and the measurements. */
  predicate IsStep(op: Op) {
    op.InstallModule? || op.InstallFallback? || op.ApplyMode? || (op.CaptureStatus? && op.tag in Labels)
  }

  /** The captures around the installation are no measurements and not the readback. */
  predicate IsPowerTag(tag: string) {
    tag == "PSU_BEFORE" || tag == "PSU_AFTER" || tag == "PSU_AFTER_NATIVE_FALSE"
  }

  lemma PowerTags()
    ensures IsPowerTag("PSU_BEFORE") && IsPowerTag("PSU_AFTER") && IsPowerTag("PSU_AFTER_NATIVE_FALSE")
  {
  }

  lemma PowerTagIsOther(tag: string)
    requires IsPowerTag(tag)
    ensures tag !in Labels && tag != "RESTORE"
  {
    assert |tag| > 7;
  }

  /** The operations that leave no note. */
  predicate IsOrdinary(op: Op) {
    || op.BridgeHealthy? || op.MailboxEntries? || op.StartBridge? || op.Environment? || op.Fingerprint?
    || op.DeviceNames? || op.Processes? || op.SourceState? || op.FactoryRequired? || op.CreateLink? || op.WaitReady?
    || op.ObserveModule? || op.VerifyModule? || op.RetireResidue? || op.WaitFingerprint? || op.CollectCompleted?
    || op.TransportProblems?
  }

  /** The devices creation was asked for, in order, and those deletion was asked for; the
      steps, in order; the first reading under each file name; whether the module was natively
      refused; and how often the bridge was stopped. */
  datatype Notes = Notes(
    creations: seq<string>, deletions: seq<string>, steps: seq<Op>, raw: map<string, string>,
    refused: bool, stops: nat)

  /** The installation was dispatched and answered with a native refusal. */
  predicate Refuses(op: Op, outcome: Outcome) {
    op.InstallModule? && outcome.Done? && outcome.reply.ok && outcome.reply.acknowledged == Some(false)
  }

  function Noted(notes: Notes, op: Op, outcome: Outcome): Notes {
    Notes(
      notes.creations + (if op.CreateDevice? then [op.name] else []),
      notes.deletions + (if op.DeleteDevice? then [op.name] else []),
      notes.steps + (if IsStep(op) then [op] else []),
      if op.CaptureStatus? && outcome.Done? then Recorded(notes.raw, outcome.reply.reading) else notes.raw,
      notes.refused || Refuses(op, outcome),
      notes.stops + if op.StopBridge? then 1 else 0)
  }

  function NotesOf(world: World, trace: seq<Op>): Notes {
    if trace == [] then Notes([], [], [], map[], false, 0)
    else
      var n := |trace| - 1;
      Noted(NotesOf(world, trace[..n]), trace[n], world(n, trace[n]))
  }

  lemma NotesAppend(world: World, trace: seq<Op>, op: Op)
    ensures NotesOf(world, trace + [op]) == Noted(NotesOf(world, trace), op, world(|trace|, op))
  {
    assert (trace + [op])[..|trace|] == trace;
  }

  lemma OrdinaryNotes(notes: Notes, op: Op, outcome: Outcome)
    requires IsOrdinary(op)
    ensures Noted(notes, op, outcome) == notes && !op.CaptureStatus?
  {
  }

  lemma CreateNotes(notes: Notes, name: string, outcome: Outcome)
    ensures Noted(notes, CreateDevice(name), outcome) == notes.(creations := notes.creations + [name])
  {
  }

  lemma DeleteNotes(notes: Notes, name: string, outcome: Outcome)
    ensures Noted(notes, DeleteDevice(name), outcome) == notes.(deletions := notes.deletions + [name])
  {
  }

  lemma StopNotes(notes: Notes, outcome: Outcome)
    ensures Noted(notes, StopBridge, outcome) == notes.(stops := notes.stops + 1)
  {
  }

  /** Nothing was created, deleted or stopped in between. */
  predicate Untouched(before: Notes, after: Notes) {
    after.creations == before.creations && after.deletions == before.deletions && after.stops == before.stops
  }

  lemma InstallNotes(notes: Notes, outcome: Outcome)
    ensures Noted(notes, InstallModule, outcome) ==
      notes.(steps := notes.steps + [InstallModule], refused := notes.refused || Refuses(InstallModule, outcome))
  {
  }

  lemma StepNotes(notes: Notes, op: Op, outcome: Outcome)
    requires op.ApplyMode? || op.CaptureStatus?
    ensures Untouched(notes, Noted(notes, op, outcome))
  {
  }

  lemma FallbackNotes(notes: Notes, outcome: Outcome)
    ensures Noted(notes, InstallFallback, outcome) == notes.(steps := notes.steps + [InstallFallback])
  {
  }

  /** Every file holds what some capture of the trace read. */
  lemma {:induction false} RawComesFrom(world: World, trace: seq<Op>, file: string) returns (k: nat)
    requires file in NotesOf(world, trace).raw
    ensures k < |trace| && trace[k].CaptureStatus? && world(k, trace[k]).Done?
    ensures var reading := world(k, trace[k]).reply.reading;
            reading.rawFile == file && reading.raw == NotesOf(world, trace).raw[file]
  {
    var n := |trace| - 1;
    if file in NotesOf(world, trace[..n]).raw {
      k := RawComesFrom(world, trace[..n], file);
    } else {
      k := n;
    }
  }

  /** Every capture of the trace is on record, unless an earlier one has the name. */
  lemma {:induction false} FirstReadingStays(world: World, trace: seq<Op>, k: nat)
    requires k < |trace| && trace[k].CaptureStatus? && world(k, trace[k]).Done?
    ensures var reading := world(k, trace[k]).reply.reading;
      && Kept(NotesOf(world, trace[..k]).raw, NotesOf(world, trace).raw)
      && (reading.rawFile in NotesOf(world, trace[..k]).raw || OnRecord(NotesOf(world, trace).raw, reading))
  {
    var n := |trace| - 1;
    if k < n {
      FirstReadingStays(world, trace[..n], k);
      assert trace[..n][..k] == trace[..k];
    }
  }

  /** A refusal in the notes is one of the module's own operation. */
  lemma {:induction false} RefusalComesFrom(world: World, trace: seq<Op>) returns (k: nat)
    requires NotesOf(world, trace).refused
    ensures k < |trace| && Refuses(trace[k], world(k, trace[k]))
  {
    var n := |trace| - 1;
    if NotesOf(world, trace[..n]).refused {
      k := RefusalComesFrom(world, trace[..n]);
    } else {
      k := n;
    }
  }

  /** Mutate and measure three times: power on, off, and on again. */
  function Measurements(n: nat): seq<Op>
    requires n <= 3
  {
    if n == 0 then []
    else Measurements(n - 1) + [ApplyMode(Labels[n - 1] != "NEVER"), CaptureStatus(Labels[n - 1])]
  }

  lemma MeasurementsGrow(i: nat)
    requires i < 3
    ensures Measurements(i) + [ApplyMode(Labels[i] != "NEVER"), CaptureStatus(Labels[i])] == Measurements(i + 1)
    ensures Measurements(i + 1) <= Measurements(3) && Labels[i] in Labels
  {
    if i == 0 {
      assert Measurements(1) <= Measurements(2) <= Measurements(3);
    }
  }

  /** The installations a run may ask for: none, one, or one and its fallback. */
  predicate IsInstallation(ops: seq<Op>) {
    ops == [] || ops == [InstallModule] || ops == [InstallModule, InstallFallback]
  }

  function TextAt(world: World, k: nat, op: Op): string {
    if world(k, op).Done? then world(k, op).reply.text else ""
  }

  function NamesAt(world: World, k: nat, op: Op): set<string> {
    if world(k, op).Done? then world(k, op).reply.names else {}
  }

  // ----- The plan of the body -----

  function BaselineOps(): seq<Op> {
    [BridgeHealthy, MailboxEntries, StartBridge, Environment, Fingerprint, DeviceNames, Processes, SourceState]
  }

  function InspectOps(): seq<Op> { [WaitReady, ObserveModule, CaptureStatus("PSU_BEFORE")] }

  function FallbackOps(): seq<Op> { [WaitReady, CaptureStatus("PSU_AFTER_NATIVE_FALSE"), InstallFallback] }

  function VerifyOps(): seq<Op> { [WaitReady, VerifyModule, CaptureStatus("PSU_AFTER")] }

  function ModuleOps(refused: bool): seq<Op> {
    InspectOps() + [InstallModule] + (if refused then FallbackOps() else []) + VerifyOps()
  }

  /** The endpoints behind the switch, up to the `n`-th device, each with its link. */
  function EndpointOps(names: seq<string>, n: nat): seq<Op>
    requires n <= |names|
  {
    if n <= 1 then [] else EndpointOps(names, n - 1) + [CreateDevice(names[n - 1]), CreateLink(names[n - 1])]
  }

  function FixtureOps(names: seq<string>, required: bool, refused: bool): seq<Op>
    requires names != []
  {
    [FactoryRequired, CreateDevice(names[0])] + (if required then ModuleOps(refused) else [])
    + EndpointOps(names, |names|) + (if required then [] else [WaitReady])
  }

  function StepOps(tag: string): seq<Op> {
    [Processes, SourceState, ApplyMode(tag != "NEVER"), CaptureStatus(tag)]
  }

  function MeasureOps(n: nat): seq<Op>
    requires n <= 3
  {
    if n == 0 then [] else MeasureOps(n - 1) + StepOps(Labels[n - 1])
  }

  /** Whether the model needs the module, and whether its installation was natively refused,
      as the session answers where the body asks. */
  predicate Requires(world: World) {
    world(8, FactoryRequired).Done? && world(8, FactoryRequired).reply.ok
  }

  predicate Refused(world: World) {
    world(13, InstallModule).Done? && world(13, InstallModule).reply.acknowledged == Some(false)
  }

  /** The operations of a body in which nothing fails, in order. */
  function PlanOf(world: World, names: seq<string>): seq<Op>
    requires names != []
  {
    BaselineOps() + FixtureOps(names, Requires(world), Refused(world)) + MeasureOps(3)
  }

  predicate LastWas(before: seq<Op>, op: Op) {
    before != [] && before[|before| - 1] == op
  }

  /** The answer to `op`, called after `before`, lets the body go on. The heartbeat is judged
      when the mailbox has been read, and the module's target after the power. */
  predicate Passes(world: World, before: seq<Op>, op: Op) {
    var n := |before|;
    && world(n, op).Done?
    && var r := world(n, op).reply;
       match op
       case MailboxEntries =>
         r.ok && (LastWas(before, BridgeHealthy) ==>
                    world(n - 1, BridgeHealthy).Done? && world(n - 1, BridgeHealthy).reply.ok)
       case Environment => r.ok
       case SourceState => r.ok
       case CreateDevice(_) => r.ok
       case VerifyModule => r.ok
       case InstallModule => r.ok && r.acknowledged.Some?
       case InstallFallback => r.acknowledged.Some?
       case CaptureStatus(tag) =>
         && OnRecord(Recorded(NotesOf(world, before).raw, r.reading), r.reading)
         && (if tag in Labels then r.reading.complete && r.reading.translates
             else r.reading.powerTable
                  && (LastWas(before, ObserveModule) ==>
                        world(n - 1, ObserveModule).Done? && world(n - 1, ObserveModule).reply.ok))
       case _ => true
  }

  /** The operations for which an answer is enough, and those whose answer must be positive. */
  predicate IsPlain(op: Op) {
    || op.BridgeHealthy? || op.StartBridge? || op.Fingerprint? || op.DeviceNames? || op.Processes?
    || op.FactoryRequired? || op.CreateLink? || op.WaitReady? || op.ObserveModule? || op.ApplyMode?
  }

  predicate IsChecked(op: Op) {
    op.Environment? || op.SourceState? || op.VerifyModule? || op.CreateDevice?
  }

  lemma PassesPlain(world: World, before: seq<Op>, op: Op)
    ensures IsPlain(op) ==> (Passes(world, before, op) <==> world(|before|, op).Done?)
    ensures IsChecked(op) ==>
      (Passes(world, before, op) <==> world(|before|, op).Done? && world(|before|, op).reply.ok)
  {
  }

  lemma MailboxPasses(world: World, before: seq<Op>)
    requires LastWas(before, BridgeHealthy) && world(|before| - 1, BridgeHealthy).Done?
    ensures Passes(world, before, MailboxEntries) <==>
      && world(|before|, MailboxEntries).Done? && world(|before|, MailboxEntries).reply.ok
      && world(|before| - 1, BridgeHealthy).reply.ok
  {
  }

  /** What a capture around the installation must show. */
  predicate Powered(world: World, before: seq<Op>, tag: string) {
    var outcome := world(|before|, CaptureStatus(tag));
    && outcome.Done? && outcome.reply.reading.powerTable
    && OnRecord(Recorded(NotesOf(world, before).raw, outcome.reply.reading), outcome.reply.reading)
  }

  lemma PowerPasses(world: World, before: seq<Op>, tag: string)
    requires IsPowerTag(tag)
    ensures Passes(world, before, CaptureStatus(tag)) <==>
      && Powered(world, before, tag)
      && (LastWas(before, ObserveModule) ==>
            world(|before| - 1, ObserveModule).Done? && world(|before| - 1, ObserveModule).reply.ok)
  {
    PowerTagIsOther(tag);
  }

  /** What a measurement must show. */
  predicate Measured(raw: map<string, string>, reading: Reading) {
    OnRecord(Recorded(raw, reading), reading) && reading.complete && reading.translates
  }

  lemma MeasurePasses(world: World, before: seq<Op>, tag: string)
    requires tag in Labels
    ensures Passes(world, before, CaptureStatus(tag)) <==>
      && world(|before|, CaptureStatus(tag)).Done?
      && Measured(NotesOf(world, before).raw, world(|before|, CaptureStatus(tag)).reply.reading)
  {
  }

  /** The trace follows the plan, and every check was passed. */
  ghost predicate Following(world: World, plan: seq<Op>, trace: seq<Op>) {
    trace <= plan && forall k | 0 <= k < |trace| :: Passes(world, trace[..k], trace[k])
  }

  /** The trace followed the plan up to its last operation, which did not pass. */
  ghost predicate Halted(world: World, plan: seq<Op>, trace: seq<Op>) {
    && trace != [] && trace <= plan
    && (forall k | 0 <= k < |trace| - 1 :: Passes(world, trace[..k], trace[k]))
    && !Passes(world, trace[..|trace| - 1], trace[|trace| - 1])
  }

  /** What comes next in the plan, from place `n` on. */
  predicate Ahead(plan: seq<Op>, n: nat, part: seq<Op>) {
    n + |part| <= |plan| && plan[n..n + |part|] == part
  }

  lemma PlanStep(world: World, plan: seq<Op>, trace: seq<Op>, op: Op)
    requires Following(world, plan, trace) && Ahead(plan, |trace|, [op])
    ensures if Passes(world, trace, op) then Following(world, plan, trace + [op])
            else Halted(world, plan, trace + [op])
  {
    hide Passes;
    var longer := trace + [op];
    assert plan[|trace|..|trace| + 1] == [op];
    assert plan[|trace|] == op && longer <= plan;
    assert longer[..|trace|] == trace;
    assert forall k | 0 <= k < |trace| :: longer[..k] == trace[..k] && longer[k] == trace[k];
  }

  lemma AheadAt(plan: seq<Op>, n: nat, part: seq<Op>, i: nat, op: Op)
    requires Ahead(plan, n, part) && i < |part| && part[i] == op
    ensures Ahead(plan, n + i, [op])
  {
    assert plan[n..n + |part|][i] == plan[n + i];
  }

  lemma AheadSplit(plan: seq<Op>, n: nat, first: seq<Op>, rest: seq<Op>)
    requires Ahead(plan, n, first + rest)
    ensures Ahead(plan, n, first) && Ahead(plan, n + |first|, rest)
  {
    assert plan[n..n + |first|] == plan[n..n + |first + rest|][..|first|];
    assert plan[n + |first|..n + |first| + |rest|] == plan[n..n + |first + rest|][|first|..];
  }

  lemma PlanParts(world: World, names: seq<string>)
    requires names != []
    ensures var plan := PlanOf(world, names);
      && Following(world, plan, []) && Ahead(plan, 0, BaselineOps())
      && Ahead(plan, 8, FixtureOps(names, Requires(world), Refused(world)))
      && Ahead(plan, 8 + |FixtureOps(names, Requires(world), Refused(world))|, MeasureOps(3))
      && |plan| == 8 + |FixtureOps(names, Requires(world), Refused(world))| + |MeasureOps(3)|
  {
    hide FixtureOps, MeasureOps, Passes;
    var plan := PlanOf(world, names);
    var first, fixture, rest := BaselineOps(), FixtureOps(names, Requires(world), Refused(world)), MeasureOps(3);
    assert plan == first + fixture + rest && |first| == 8;
    assert plan[0..8] == first;
    assert plan[8..8 + |fixture|] == fixture;
    assert plan[8 + |fixture|..8 + |fixture| + |rest|] == rest;
  }

  lemma {:induction false} EndpointAt(names: seq<string>, m: nat, i: nat)
    requires 1 <= i < m <= |names|
    ensures |EndpointOps(names, m)| == 2 * (m - 1)
    ensures EndpointOps(names, m)[2 * i - 2] == CreateDevice(names[i])
    ensures EndpointOps(names, m)[2 * i - 1] == CreateLink(names[i])
  {
    if i < m - 1 {
      EndpointAt(names, m - 1, i);
    } else {
      EndpointCount(names, m - 1);
    }
  }

  lemma {:induction false} EndpointCount(names: seq<string>, m: nat)
    requires 1 <= m <= |names|
    ensures |EndpointOps(names, m)| == 2 * (m - 1)
  {
    if m > 1 {
      EndpointCount(names, m - 1);
    }
  }

  lemma EndpointAhead(plan: seq<Op>, n: nat, names: seq<string>, i: nat)
    requires 1 <= i < |names| && Ahead(plan, n, EndpointOps(names, |names|))
    ensures Ahead(plan, n + 2 * i - 2, [CreateDevice(names[i])])
    ensures Ahead(plan, n + 2 * i - 1, [CreateLink(names[i])])
  {
    hide *;
    EndpointAt(names, |names|, i);
    var ops, at := EndpointOps(names, |names|), 2 * i - 2;
    AheadAt(plan, n, ops, at, CreateDevice(names[i]));
    AheadAt(plan, n, ops, at + 1, CreateLink(names[i]));
  }

  lemma MeasureAhead(plan: seq<Op>, n: nat, i: nat)
    requires i < 3 && Ahead(plan, n, MeasureOps(3))
    ensures Ahead(plan, n + 4 * i, StepOps(Labels[i])) && |MeasureOps(3)| == 12
  {
    hide Ahead;
    var a, b, c := StepOps(Labels[0]), StepOps(Labels[1]), StepOps(Labels[2]);
    assert MeasureOps(3) == (a + b) + c by {
      assert MeasureOps(1) == a && MeasureOps(2) == a + b;
    }
    AheadSplit(plan, n, a + b, c);
    AheadSplit(plan, n, a, b);
  }

  lemma ReverseNothing()
    ensures Reverse([]) == []
  {
  }

  lemma NoInstallation()
    ensures IsInstallation([]) && InstallFallback !in []
  {
  }

  lemma InstallPasses(world: World, before: seq<Op>)
    ensures Passes(world, before, InstallModule) <==>
      && world(|before|, InstallModule).Done? && world(|before|, InstallModule).reply.ok
      && world(|before|, InstallModule).reply.acknowledged.Some?
  {
  }

  lemma FallbackPasses(world: World, before: seq<Op>)
    ensures Passes(world, before, InstallFallback) <==>
      world(|before|, InstallFallback).Done? && world(|before|, InstallFallback).reply.acknowledged.Some?
  {
  }

  lemma FallbackAhead(plan: seq<Op>, n: nat)
    requires Ahead(plan, n, FallbackOps())
    ensures Ahead(plan, n, [WaitReady]) && Ahead(plan, n + 1, [CaptureStatus("PSU_AFTER_NATIVE_FALSE")])
    ensures Ahead(plan, n + 2, [InstallFallback])
  {
    hide Ahead;
    AheadAt(plan, n, FallbackOps(), 0, WaitReady);
    AheadAt(plan, n, FallbackOps(), 1, CaptureStatus("PSU_AFTER_NATIVE_FALSE"));
    AheadAt(plan, n, FallbackOps(), 2, InstallFallback);
  }

  lemma InspectAhead(plan: seq<Op>, n: nat)
    requires Ahead(plan, n, InspectOps())
    ensures Ahead(plan, n, [WaitReady]) && Ahead(plan, n + 1, [ObserveModule])
    ensures Ahead(plan, n + 2, [CaptureStatus("PSU_BEFORE")])
  {
    hide Ahead;
    AheadAt(plan, n, InspectOps(), 0, WaitReady);
    AheadAt(plan, n, InspectOps(), 1, ObserveModule);
    AheadAt(plan, n, InspectOps(), 2, CaptureStatus("PSU_BEFORE"));
  }

  lemma VerifyAhead(plan: seq<Op>, n: nat)
    requires Ahead(plan, n, VerifyOps())
    ensures Ahead(plan, n, [WaitReady]) && Ahead(plan, n + 1, [VerifyModule])
    ensures Ahead(plan, n + 2, [CaptureStatus("PSU_AFTER")])
  {
    hide Ahead;
    AheadAt(plan, n, VerifyOps(), 0, WaitReady);
    AheadAt(plan, n, VerifyOps(), 1, VerifyModule);
    AheadAt(plan, n, VerifyOps(), 2, CaptureStatus("PSU_AFTER"));
  }

  lemma StepAhead(plan: seq<Op>, n: nat, tag: string)
    requires Ahead(plan, n, StepOps(tag))
    ensures Ahead(plan, n, [Processes, SourceState])
    ensures Ahead(plan, n + 2, [ApplyMode(tag != "NEVER")]) && Ahead(plan, n + 3, [CaptureStatus(tag)])
  {
    hide Ahead;
    var probe, measure := [Processes, SourceState], [ApplyMode(tag != "NEVER"), CaptureStatus(tag)];
    assert StepOps(tag) == probe + measure;
    AheadSplit(plan, n, probe, measure);
    AheadAt(plan, n + 2, measure, 0, ApplyMode(tag != "NEVER"));
    AheadAt(plan, n + 2, measure, 1, CaptureStatus(tag));
  }

  lemma ModuleAhead(plan: seq<Op>, n: nat, refused: bool)
    requires Ahead(plan, n, ModuleOps(refused))
    ensures Ahead(plan, n, InspectOps()) && Ahead(plan, n + 3, [InstallModule])
    ensures if refused then Ahead(plan, n + 4, FallbackOps()) && Ahead(plan, n + 7, VerifyOps())
            else Ahead(plan, n + 4, VerifyOps())
    ensures |ModuleOps(refused)| == if refused then 10 else 7
  {
    hide Ahead;
    var middle := if refused then FallbackOps() else [];
    AheadSplit(plan, n, InspectOps() + [InstallModule] + middle, VerifyOps());
    AheadSplit(plan, n, InspectOps() + [InstallModule], middle);
    AheadSplit(plan, n, InspectOps(), [InstallModule]);
  }

  lemma FixtureAhead(world: World, names: seq<string>)
    requires names != []
    ensures var plan, required := PlanOf(world, names), Requires(world);
      var m := if required then |ModuleOps(Refused(world))| else 0;
      && Ahead(plan, 8, [FactoryRequired]) && Ahead(plan, 9, [CreateDevice(names[0])])
      && (required ==> Ahead(plan, 10, ModuleOps(Refused(world))))
      && Ahead(plan, 10 + m, EndpointOps(names, |names|))
      && (!required ==> Ahead(plan, 10 + |EndpointOps(names, |names|)|, [WaitReady]))
      && |FixtureOps(names, required, Refused(world))| ==
           2 + m + |EndpointOps(names, |names|)| + if required then 0 else 1
  {
    hide Ahead, PlanOf, EndpointOps, ModuleOps, Requires, Refused, Following, MeasureOps, BaselineOps;
    PlanParts(world, names);
    var plan := PlanOf(world, names);
    var start, last := [FactoryRequired, CreateDevice(names[0])], if Requires(world) then [] else [WaitReady];
    var inside := if Requires(world) then ModuleOps(Refused(world)) else [];
    var endpoints := EndpointOps(names, |names|);
    assert FixtureOps(names, Requires(world), Refused(world)) == start + inside + endpoints + last;
    AheadSplit(plan, 8, start + inside + endpoints, last);
    AheadSplit(plan, 8, start + inside, endpoints);
    AheadSplit(plan, 8, start, inside);
    AheadAt(plan, 8, start, 0, FactoryRequired);
    AheadAt(plan, 8, start, 1, CreateDevice(names[0]));
  }

  // ----- The plan of the restoration -----

  function DeleteOps(names: seq<string>): seq<Op> {
    if names == [] then [] else [DeleteDevice(names[|names| - 1])] + DeleteOps(names[..|names| - 1])
  }

  function SafetyOps(): seq<Op> {
    [RetireResidue, WaitFingerprint, DeviceNames, Environment, CollectCompleted, Processes, SourceState,
     MailboxEntries, BridgeHealthy, TransportProblems]
  }

  /** From `at` on the trace goes through the plan, and every operation returned. */
  ghost predicate Going(world: World, plan: seq<Op>, at: nat, trace: seq<Op>) {
    at <= |trace| && trace[at..] <= plan && forall k | at <= k < |trace| :: world(k, trace[k]).Done?
  }

  /** It went through the plan up to its last operation, which did not return. */
  ghost predicate Broken(world: World, plan: seq<Op>, at: nat, trace: seq<Op>) {
    && at < |trace| && trace[at..] <= plan
    && (forall k | at <= k < |trace| - 1 :: world(k, trace[k]).Done?)
    && !world(|trace| - 1, trace[|trace| - 1]).Done?
  }

  lemma GoingStarts(world: World, plan: seq<Op>, trace: seq<Op>)
    ensures Going(world, plan, |trace|, trace)
  {
  }

  lemma GoingStep(world: World, plan: seq<Op>, at: nat, trace: seq<Op>, i: nat, op: Op)
    requires Going(world, plan, at, trace) && |trace| == at + i && i < |plan| && plan[i] == op
    ensures if world(|trace|, op).Done? then Going(world, plan, at, trace + [op])
            else Broken(world, plan, at, trace + [op])
  {
    var longer := trace + [op];
    assert longer[at..] == trace[at..] + [op] && |trace[at..]| == i;
    assert trace[at..] + [op] <= plan;
    assert forall k | at <= k < |trace| :: longer[k] == trace[k];
  }

  /** What is left to delete. */
  predicate LeftToDelete(trace: seq<Op>, start: seq<Op>, names: seq<string>, i: nat) {
    i <= |names| && trace + DeleteOps(names[..i]) == start + DeleteOps(names)
  }

  lemma LeftStart(start: seq<Op>, names: seq<string>)
    ensures LeftToDelete(start, start, names, |names|)
  {
    assert names[..|names|] == names;
  }

  lemma LeftStep(trace: seq<Op>, start: seq<Op>, names: seq<string>, i: nat)
    requires 0 < i <= |names| && LeftToDelete(trace, start, names, i)
    ensures LeftToDelete(trace + [DeleteDevice(names[i - 1])], start, names, i - 1)
  {
    assert names[..i][..i - 1] == names[..i - 1];
    assert trace + [DeleteDevice(names[i - 1])] + DeleteOps(names[..i - 1])
        == trace + ([DeleteDevice(names[i - 1])] + DeleteOps(names[..i - 1]));
  }

  lemma LeftEnd(trace: seq<Op>, start: seq<Op>, names: seq<string>)
    requires LeftToDelete(trace, start, names, 0)
    ensures trace == start + DeleteOps(names)
  {
    assert DeleteOps(names[..0]) == [] && trace + [] == trace;
  }

  /** The restored power was read, on record and as planned; `everyRow` is what it shows. */
  predicate ShowsPower(world: World, n: nat, everyRow: bool, files: map<string, string>) {
    var outcome := world(n, CaptureStatus("RESTORE"));
    && outcome.Done? && outcome.reply.reading.translates && everyRow == outcome.reply.reading.everyRow
    && OnRecord(files, outcome.reply.reading)
  }

  /** The fingerprint and the device names, read at their places, are those of the start. */
  predicate ShowsInventory(
    world: World, at: nat, opening: Option<string>, preexisting: Option<set<string>>, restored: Option<bool>,
    removed: Option<bool>)
    requires opening.Some? && preexisting.Some?
  {
    && restored == Some(TextAt(world, at + 1, WaitFingerprint) == opening.value)
    && removed == Some(NamesAt(world, at + 2, DeviceNames) == preexisting.value)
  }

  /** From `at` on every operation returned with a positive answer. */
  ghost predicate AllConfirmed(world: World, trace: seq<Op>, at: nat) {
    forall k | at <= k < |trace| :: world(k, trace[k]).Done? && world(k, trace[k]).reply.ok
  }

  lemma NoneConfirmed(world: World, trace: seq<Op>)
    ensures AllConfirmed(world, trace, |trace|)
  {
  }

  lemma ConfirmedGrows(world: World, trace: seq<Op>, at: nat, op: Op)
    ensures AllConfirmed(world, trace, at) && world(|trace|, op).Done? && world(|trace|, op).reply.ok ==>
      AllConfirmed(world, trace + [op], at)
  {
    assert forall k | 0 <= k < |trace| :: (trace + [op])[k] == trace[k];
  }

  function AutoOps(applied: bool): seq<Op> {
    [ApplyMode(true)] + if applied then [CaptureStatus("RESTORE")] else []
  }

  /** From `lo` on: AUTO and its readback, every deletion whatever came of the others, and the
      final readings up to the first that failed. */
  ghost predicate RestorationRan(world: World, trace: seq<Op>, lo: nat, attempted: seq<string>) {
    var auto := AutoOps(world(lo, ApplyMode(true)).Done?);
    var safety := lo + |auto| + |attempted|;
    && lo <= safety <= |trace| && trace[lo..safety] == auto + DeleteOps(attempted)
    && (Broken(world, SafetyOps(), safety, trace)
        || (Going(world, SafetyOps(), safety, trace) && |trace| == safety + |SafetyOps()|))
  }

  /** The same with nothing failing, and what was read in it. */
  ghost predicate RestorationClean(
    world: World, trace: seq<Op>, lo: nat, attempted: seq<string>, files: map<string, string>,
    opening: Option<string>, preexisting: Option<set<string>>,
    autoProven: Option<bool>, restored: Option<bool>, removed: Option<bool>)
    requires opening.Some? && preexisting.Some?
  {
    var safety := lo + 2 + |attempted|;
    && world(lo, ApplyMode(true)).Done? && autoProven.Some? && ShowsPower(world, lo + 1, autoProven.value, files)
    && safety <= |trace| && AllConfirmed(world, trace[..safety], lo + 2)
    && Going(world, SafetyOps(), safety, trace) && |trace| == safety + |SafetyOps()|
    && ShowsInventory(world, safety, opening, preexisting, restored, removed)
  }

  lemma {:induction false} DeleteCount(names: seq<string>)
    ensures |DeleteOps(names)| == |names|
  {
    if names != [] {
      DeleteCount(names[..|names| - 1]);
    }
  }

  /** The body ran through its plan, or up to the first operation that did not pass. */
  ghost predicate BodyRan(world: World, names: seq<string>, body: seq<Op>) {
    && names != []
    && (|| Halted(world, PlanOf(world, names), body)
        || (Following(world, PlanOf(world, names), body) && |body| == |PlanOf(world, names)|))
  }

  /** A run in which nothing went wrong. */
  ghost predicate RunClean(
    world: World, names: seq<string>, trace: seq<Op>, files: map<string, string>,
    autoProven: Option<bool>, restored: Option<bool>, removed: Option<bool>)
  {
    && names != []
    && var plan := PlanOf(world, names);
       && |plan| < |trace| && Following(world, plan, trace[..|plan|])
       && RestorationRan(world, trace[..|trace| - 1], |plan|, names)
       && RestorationClean(
            world, trace[..|trace| - 1], |plan|, names, files, Some(TextAt(world, 4, Fingerprint)),
            Some(NamesAt(world, 5, DeviceNames)), autoProven, restored, removed)
       && trace[|trace| - 1] == StopBridge && world(|trace| - 1, StopBridge).Done?
  }

  /** What a snapshot rests on: the whole plan passed, then the whole restoration, with every
      deletion confirmed, the power as it should be, and the workspace as it was. */
  ghost predicate SnapshotEarned(world: World, names: seq<string>, trace: seq<Op>, files: map<string, string>) {
    && names != []
    && var plan := PlanOf(world, names);
       var n, safety := |plan|, |plan| + 2 + |names|;
       && Following(world, plan, plan)
       && trace == plan + AutoOps(true) + DeleteOps(names) + SafetyOps() + [StopBridge]
       && (forall k | n <= k < |trace| :: world(k, trace[k]).Done?)
       && safety <= |trace| && AllConfirmed(world, trace[..safety], n + 2)
       && ShowsPower(world, n + 1, true, files)
       && TextAt(world, safety + 1, WaitFingerprint) == TextAt(world, 4, Fingerprint)
       && NamesAt(world, safety + 2, DeviceNames) == NamesAt(world, 5, DeviceNames)
  }

  lemma SnapshotJoin(world: World, names: seq<string>, trace: seq<Op>, files: map<string, string>)
    requires RunClean(world, names, trace, files, Some(true), Some(true), Some(true))
    ensures SnapshotEarned(world, names, trace, files)
  {
    hide PlanOf, Following, DeleteOps, SafetyOps, AutoOps, Going, ShowsPower, AllConfirmed, RestorationRan;
    hide RestorationClean;
    SnapshotTrace(world, names, trace, files);
    SnapshotDone(world, names, trace, files);
    SnapshotRead(world, names, trace, files);
  }

  lemma SnapshotRead(world: World, names: seq<string>, trace: seq<Op>, files: map<string, string>)
    requires RunClean(world, names, trace, files, Some(true), Some(true), Some(true))
    ensures var n, safety := |PlanOf(world, names)|, |PlanOf(world, names)| + 2 + |names|;
      && safety <= |trace| && AllConfirmed(world, trace[..safety], n + 2)
      && ShowsPower(world, n + 1, true, files)
      && TextAt(world, safety + 1, WaitFingerprint) == TextAt(world, 4, Fingerprint)
      && NamesAt(world, safety + 2, DeviceNames) == NamesAt(world, 5, DeviceNames)
  {
    hide PlanOf, Following, DeleteOps, SafetyOps, Going, ShowsPower, AllConfirmed, RestorationRan, TextAt, NamesAt;
    var n := |PlanOf(world, names)|;
    assert trace[..|trace| - 1][..n + 2 + |names|] == trace[..n + 2 + |names|];
  }

  lemma RunIsClean(
    world: World, names: seq<string>, trace: seq<Op>, files: map<string, string>,
    opening: Option<string>, preexisting: Option<set<string>>,
    autoProven: Option<bool>, restored: Option<bool>, removed: Option<bool>)
    requires names != []
    requires var n := |PlanOf(world, names)|;
      && n < |trace| && Following(world, PlanOf(world, names), trace[..n])
      && RestorationRan(world, trace[..|trace| - 1], n, names)
      && opening == Some(TextAt(world, 4, Fingerprint)) && preexisting == Some(NamesAt(world, 5, DeviceNames))
      && RestorationClean(
           world, trace[..|trace| - 1], n, names, files, opening, preexisting, autoProven, restored, removed)
    requires trace[|trace| - 1] == StopBridge && world(|trace| - 1, StopBridge).Done?
    ensures RunClean(world, names, trace, files, autoProven, restored, removed)
  {
    hide PlanOf, Following, RestorationRan, RestorationClean;
  }

  lemma SnapshotTrace(world: World, names: seq<string>, trace: seq<Op>, files: map<string, string>)
    requires RunClean(world, names, trace, files, Some(true), Some(true), Some(true))
    ensures var plan := PlanOf(world, names);
      && trace == plan + AutoOps(true) + DeleteOps(names) + SafetyOps() + [StopBridge] && trace[..|plan|] == plan
  {
    hide PlanOf, DeleteOps, SafetyOps, AutoOps;
    CleanTrace(world, names, trace, files);
    var n := |PlanOf(world, names)|;
    var most := trace[..|trace| - 1];
    assert trace == most + [StopBridge] && trace[..n] == most[..n];
  }

  /** The run up to the stopping of the bridge. */
  lemma CleanTrace(world: World, names: seq<string>, trace: seq<Op>, files: map<string, string>)
    requires RunClean(world, names, trace, files, Some(true), Some(true), Some(true))
    ensures var plan := PlanOf(world, names);
      && trace[|trace| - 1] == StopBridge && |plan| < |trace| && trace[..|plan|] == plan
      && trace[..|trace| - 1] == plan + AutoOps(true) + DeleteOps(names) + SafetyOps()
  {
    hide PlanOf, Passes, DeleteOps, SafetyOps, AutoOps, ShowsPower, ShowsInventory, AllConfirmed;
    SafetySize();
    AutoCount();
    DeleteCount(names);
    var plan, most := PlanOf(world, names), trace[..|trace| - 1];
    var n := |plan|;
    assert trace[..n] <= plan && most[..n] == trace[..n];
    hide *;
    ThreeParts(most, plan, AutoOps(true) + DeleteOps(names), SafetyOps());
    AppendParts(plan, AutoOps(true), DeleteOps(names), SafetyOps());
  }

  lemma AppendParts(a: seq<Op>, b: seq<Op>, c: seq<Op>, d: seq<Op>)
    ensures a + (b + c) + d == a + b + c + d
  {
  }

  lemma AutoCount()
    ensures |AutoOps(true)| == 2
  {
  }

  lemma ThreeParts(whole: seq<Op>, a: seq<Op>, b: seq<Op>, c: seq<Op>)
    requires |whole| == |a| + |b| + |c|
    requires whole[..|a|] == a && whole[|a|..|a| + |b|] == b && whole[|a| + |b|..] <= c
    ensures whole == a + b + c
  {
  }

  lemma SnapshotDone(world: World, names: seq<string>, trace: seq<Op>, files: map<string, string>)
    requires RunClean(world, names, trace, files, Some(true), Some(true), Some(true))
    ensures forall k | |PlanOf(world, names)| <= k < |trace| :: world(k, trace[k]).Done?
  {
    hide PlanOf, Following, DeleteOps, SafetyOps, ShowsInventory;
    SnapshotTrace(world, names, trace, files);
    DeleteCount(names);
    var most, n := trace[..|trace| - 1], |PlanOf(world, names)|;
    var safety := n + 2 + |names|;
    forall k | n <= k < |trace| ensures world(k, trace[k]).Done? {
      if k == n {
        assert trace[k] == ApplyMode(true);
      } else if k == n + 1 {
        assert trace[k] == CaptureStatus("RESTORE");
      } else if k < safety {
        assert most[..safety][k] == trace[k];
      } else if k < |most| {
        assert most[k] == trace[k];
      }
    }
  }

  lemma SafetySize()
    ensures |SafetyOps()| == 10
  {
  }

  lemma SafetyCount()
    ensures |SafetyOps()| == 10
    ensures var ops := SafetyOps();
      && ops[0] == RetireResidue && ops[1] == WaitFingerprint && ops[2] == DeviceNames && ops[3] == Environment
      && ops[4] == CollectCompleted && ops[5] == Processes && ops[6] == SourceState && ops[7] == MailboxEntries
      && ops[8] == BridgeHealthy && ops[9] == TransportProblems
  {
  }

  lemma RestorationJoin(world: World, start: seq<Op>, trace: seq<Op>, attempted: seq<string>)
    requires var cleaned := start + AutoOps(world(|start|, ApplyMode(true)).Done?) + DeleteOps(attempted);
      && cleaned <= trace
      && (Broken(world, SafetyOps(), |cleaned|, trace)
          || (Going(world, SafetyOps(), |cleaned|, trace) && |trace| == |cleaned| + |SafetyOps()|))
    ensures RestorationRan(world, trace, |start|, attempted)
  {
    hide DeleteOps, Broken, Going, SafetyOps, AutoOps;
    DeleteCount(attempted);
    var auto := AutoOps(world(|start|, ApplyMode(true)).Done?);
    var cleaned := start + auto + DeleteOps(attempted);
    assert trace[|start|..|cleaned|] == cleaned[|start|..] == auto + DeleteOps(attempted);
  }

  lemma CleanJoin(
    world: World, start: seq<Op>, cleaned: seq<Op>, trace: seq<Op>, attempted: seq<string>,
    files: map<string, string>, opening: Option<string>, preexisting: Option<set<string>>,
    autoProven: Option<bool>, restored: Option<bool>, removed: Option<bool>)
    requires opening.Some? && preexisting.Some? && autoProven.Some?
    requires world(|start|, ApplyMode(true)).Done? && ShowsPower(world, |start| + 1, autoProven.value, files)
    requires cleaned == start + AutoOps(true) + DeleteOps(attempted) && cleaned <= trace
    requires AllConfirmed(world, cleaned, |start| + 2)
    requires Going(world, SafetyOps(), |cleaned|, trace) && |trace| == |cleaned| + |SafetyOps()|
    requires ShowsInventory(world, |cleaned|, opening, preexisting, restored, removed)
    ensures RestorationClean(
      world, trace, |start|, attempted, files, opening, preexisting, autoProven, restored, removed)
  {
    hide DeleteOps, Going, SafetyOps, ShowsPower, ShowsInventory, AllConfirmed;
    DeleteCount(attempted);
    assert trace[..|cleaned|] == cleaned;
  }

  lemma BaselineAhead(world: World, names: seq<string>)
    requires names != []
    ensures var plan := PlanOf(world, names);
      && Following(world, plan, [])
      && Ahead(plan, 0, [BridgeHealthy, MailboxEntries, StartBridge, Environment])
      && Ahead(plan, 4, [Fingerprint]) && Ahead(plan, 5, [DeviceNames])
      && Ahead(plan, 6, [Processes, SourceState])
  {
    PlanParts(world, names);
    var plan, open, probe :=
      PlanOf(world, names), [BridgeHealthy, MailboxEntries, StartBridge, Environment], [Processes, SourceState];
    hide PlanOf;
    assert BaselineOps() == open + ([Fingerprint, DeviceNames] + probe);
    AheadSplit(plan, 0, open, [Fingerprint, DeviceNames] + probe);
    AheadSplit(plan, 4, [Fingerprint, DeviceNames], probe);
    AheadAt(plan, 4, [Fingerprint, DeviceNames], 0, Fingerprint);
    AheadAt(plan, 4, [Fingerprint, DeviceNames], 1, DeviceNames);
  }

  // ----- A session in which everything works -----

  function TextOf(world: World): string {
    TextAt(world, 0, Fingerprint)
  }

  function NamesOf(world: World): set<string> {
    NamesAt(world, 0, DeviceNames)
  }

  predicate Fine(world: World, op: Op, r: Reply) {
    && (op.FactoryRequired? || r.ok) && r.acknowledged == Some(true)
    && (op.Fingerprint? || op.WaitFingerprint? ==> r.text == TextOf(world))
    && (op.DeviceNames? ==> r.names == NamesOf(world))
    && r.reading.complete && r.reading.powerTable && r.reading.translates && r.reading.everyRow
  }

  predicate Works(world: World, k: nat, op: Op) {
    world(k, op).Done? && Fine(world, op, world(k, op).reply)
  }

  /** Not two readings of one file name with different output. */
  predicate Agree(a: Outcome, b: Outcome) {
    a.Done? && b.Done? && a.reply.reading.rawFile == b.reply.reading.rawFile ==>
      a.reply.reading.raw == b.reply.reading.raw
  }

  /** Every operation returns, except perhaps the readback of the restored power, every check
      passes, the workspace reads as it did at the start, and no two captures claim one file
      name with different output. */
  ghost predicate Favourable(world: World) {
    && (forall k, op | op != CaptureStatus("RESTORE") :: Works(world, k, op))
    && (forall k, l, t, u :: Agree(world(k, CaptureStatus(t)), world(l, CaptureStatus(u))))
  }

  /** The readback works too. */
  ghost predicate Cooperative(world: World) {
    Favourable(world) && forall k :: Works(world, k, CaptureStatus("RESTORE"))
  }

  lemma FavourableWorks(world: World, k: nat, op: Op)
    ensures Favourable(world) && op != CaptureStatus("RESTORE") ==> Works(world, k, op)
    ensures Cooperative(world) ==> Favourable(world) && Works(world, k, op)
  {
  }

  /** In such a session no reading is ever refused. */
  lemma FavourableRecords(world: World, trace: seq<Op>, k: nat, tag: string)
    requires Favourable(world) && world(k, CaptureStatus(tag)).Done?
    ensures OnRecord(Recorded(NotesOf(world, trace).raw, world(k, CaptureStatus(tag)).reply.reading),
                     world(k, CaptureStatus(tag)).reply.reading)
  {
    var reading := world(k, CaptureStatus(tag)).reply.reading;
    if reading.rawFile in NotesOf(world, trace).raw {
      var l := RawComesFrom(world, trace, reading.rawFile);
      assert trace[l] == CaptureStatus(trace[l].tag);
      assert Agree(world(k, CaptureStatus(tag)), world(l, trace[l]));
    }
  }

  /** The names `sofar` are `start` and the last of `all`, down to position `i`, in reverse. */
  predicate Remaining(sofar: seq<string>, start: seq<string>, all: seq<string>, i: nat) {
    i <= |all| && sofar + Reverse(all[..i]) == start + Reverse(all)
  }

  lemma RemainingStart(start: seq<string>, all: seq<string>)
    ensures Remaining(start, start, all, |all|)
  {
    assert all[..|all|] == all;
  }

  lemma RemainingStep(sofar: seq<string>, start: seq<string>, all: seq<string>, i: nat)
    requires 0 < i <= |all|
    ensures Remaining(sofar, start, all, i) ==> Remaining(sofar + [all[i - 1]], start, all, i - 1)
  {
    assert all[..i][..i - 1] == all[..i - 1];
    AppendAssociates(sofar, [all[i - 1]], Reverse(all[..i - 1]));
  }

  lemma RemainingEnd(sofar: seq<string>, start: seq<string>, all: seq<string>)
    ensures Remaining(sofar, start, all, 0) ==> sofar == start + Reverse(all)
    ensures forall i: nat | Remaining(sofar, start, all, i) :: sofar <= start + Reverse(all)
  {
    assert Reverse(all[..0]) == [];
  }

  /** From operation `lo` on nothing was interrupted. */
  ghost predicate Calm(world: World, trace: seq<Op>, lo: nat) {
    forall k | lo <= k < |trace| :: !world(k, trace[k]).Interrupts?
  }

  /** From operation `lo` on the bridge was not stopped. */
  predicate NoStop(trace: seq<Op>, lo: nat) {
    forall k | lo <= k < |trace| :: !trace[k].StopBridge?
  }

  /** From operation `lo` on at most the last was interrupted. */
  ghost predicate CutAtEnd(world: World, trace: seq<Op>, lo: nat) {
    forall k | lo <= k < |trace| - 1 :: !world(k, trace[k]).Interrupts?
  }

  /** From operation `lo` on the bridge was not stopped and at most the last operation was
      interrupted; `cut` says whether it was. */
  ghost predicate Tail(world: World, trace: seq<Op>, lo: nat, cut: bool) {
    && lo <= |trace| && NoStop(trace, lo)
    && CutAtEnd(world, trace, lo) && (cut <==> !Calm(world, trace, lo))
  }

  lemma TailStarts(world: World, trace: seq<Op>)
    ensures Tail(world, trace, |trace|, false)
  {
  }

  lemma TailGrows(world: World, trace: seq<Op>, lo: nat, op: Op)
    requires Tail(world, trace, lo, false) && !op.StopBridge?
    ensures Tail(world, trace + [op], lo, world(|trace|, op).Interrupts?)
  {
    var longer := trace + [op];
    assert longer[|trace|] == op && forall k | 0 <= k < |trace| :: longer[k] == trace[k];
  }

  lemma TailJoin(world: World, first: seq<Op>, both: seq<Op>, lo: nat, cut: bool)
    requires Tail(world, first, lo, false) && first <= both && Tail(world, both, |first|, cut)
    ensures Tail(world, both, lo, cut)
  {
    assert forall k | 0 <= k < |first| :: first[k] == both[k];
  }

  /** No operation from `lo` on was interrupted, except perhaps the stopping of the bridge. */
  ghost predicate Uninterrupted(world: World, trace: seq<Op>, lo: nat) {
    forall k | lo <= k < |trace| && !trace[k].StopBridge? :: !world(k, trace[k]).Interrupts?
  }

  /** Whatever was interrupted from `lo` on, at least `n` deletions had been asked for by then. */
  ghost predicate Late(world: World, trace: seq<Op>, lo: nat, n: nat) {
    forall k | lo <= k < |trace| && world(k, trace[k]).Interrupts? ::
      |NotesOf(world, trace[..k + 1]).deletions| >= n
  }

  lemma EndOfRun(world: World, restored: seq<Op>, lo: nat, cut: bool)
    requires Tail(world, restored, lo, cut)
    ensures var trace := if cut then restored else restored + [StopBridge];
      && (Uninterrupted(world, trace, lo) <==> !cut)
      && (NoStop(trace, lo) <==> cut) && CutAtEnd(world, trace, lo)
      && (Calm(world, trace, lo) <==> !cut && !world(|restored|, StopBridge).Interrupts?)
  {
    var trace := if cut then restored else restored + [StopBridge];
    assert forall k | 0 <= k < |restored| :: restored[k] == trace[k];
    if !cut {
      assert trace[|restored|].StopBridge?;
    }
  }

  lemma CalmIsUninterrupted(world: World, trace: seq<Op>, lo: nat)
    ensures Calm(world, trace, lo) ==> Uninterrupted(world, trace, lo)
  {
  }

  lemma LateIff(world: World, trace: seq<Op>, lo: nat, n: nat)
    requires CutAtEnd(world, trace, lo)
    ensures Late(world, trace, lo, n) <==> Calm(world, trace, lo) || |NotesOf(world, trace).deletions| >= n
  {
    hide NotesOf;
    if k :| lo <= k < |trace| && world(k, trace[k]).Interrupts? {
      assert k == |trace| - 1 && trace[..k + 1] == trace;
    }
  }

  lemma DeletedIffLate(world: World, trace: seq<Op>, lo: nat, all: seq<string>)
    requires CutAtEnd(world, trace, lo) && NotesOf(world, trace).deletions <= Reverse(all)
    requires Uninterrupted(world, trace, lo) ==> NotesOf(world, trace).deletions == Reverse(all)
    ensures NotesOf(world, trace).deletions == Reverse(all) <==> Late(world, trace, lo, |all|)
  {
    CalmIsUninterrupted(world, trace, lo);
    ReverseMembers(all);
    LateIff(world, trace, lo, |all|);
    hide *;
  }

  // ----- The snapshot gate -----

  datatype Restoration = Restoration(
    autoProven: Option<bool>, inventoryRestored: Option<bool>, fixtureRemoved: Option<bool>,
    attempted: seq<string>, created: seq<string>, deleted: seq<string>)

  /** The first gate of `build_qualification_snapshot`. */
  predicate CleanupComplete(devices: nat, problems: seq<string>, r: Restoration) {
    && problems == [] && r.inventoryRestored == Some(true) && r.fixtureRemoved == Some(true)
    && r.autoProven == Some(true)
    && |r.attempted| == devices && Distinct(r.attempted)
    && r.created == r.attempted && |r.deleted| == |r.attempted| && SameMembers(r.deleted, r.attempted)
  }

  function MembersOf(s: seq<string>): set<string> {
    set x | x in s
  }

  lemma {:induction false} MembersCount(s: seq<string>)
    ensures |MembersOf(s)| <= |s|
    ensures |MembersOf(s)| == |s| <==> Distinct(s)
  {
    if s == [] {
      assert MembersOf(s) == {};
    } else {
      var rest := s[1..];
      MembersCount(rest);
      assert s == [s[0]] + rest;
      assert MembersOf(s) == MembersOf(rest) + {s[0]};
      assert forall j | 0 < j < |s| :: s[j] == rest[j - 1];
      if s[0] in rest {
        assert MembersOf(s) == MembersOf(rest);
      }
    }
  }

  lemma {:induction false} DistinctMultiset(s: seq<string>, x: string)
    requires Distinct(s)
    ensures multiset(s)[x] == if x in s then 1 else 0
  {
    if s != [] {
      assert s == [s[0]] + s[1..];
      assert forall j | 0 <= j < |s[1..]| :: s[1..][j] == s[j + 1];
      DistinctMultiset(s[1..], x);
    }
  }

  /** The gate's counting makes the deletions a permutation of the attempts, each device
      deleted exactly once, whoever recorded them. */
  lemma GateMeansPermutation(devices: nat, problems: seq<string>, r: Restoration)
    requires CleanupComplete(devices, problems, r)
    ensures Distinct(r.deleted) && multiset(r.deleted) == multiset(r.attempted) && r.created == r.attempted
  {
    MembersCount(r.deleted);
    MembersCount(r.attempted);
    assert MembersOf(r.deleted) == MembersOf(r.attempted);
    forall x ensures multiset(r.deleted)[x] == multiset(r.attempted)[x] {
      DistinctMultiset(r.deleted, x);
      DistinctMultiset(r.attempted, x);
    }
  }

  lemma GateFlags(devices: nat, problems: seq<string>, r: Restoration)
    requires CleanupComplete(devices, problems, r)
    ensures r.autoProven == r.inventoryRestored == r.fixtureRemoved == Some(true)
  {
  }

  // ----- The run -----

  /** `names` are the fixture's devices: the switch, then one endpoint per binding. */
  datatype Ending =
    | Escaped
    | Finished(problems: seq<string>, restoration: Restoration, snapshot: bool)

  /** Devices are attempted in the order of the plan, and created as soon as attempted. */
  predicate AttemptedInOrder(names: seq<string>, attempted: seq<string>, created: seq<string>, started: bool) {
    && attempted <= names && created <= attempted && |attempted| <= |created| + 1
    && (!started ==> attempted == [])
  }

  /** Every capture that counts was taken in turn, and its raw output is on record. */
  predicate InTurn(captures: seq<Capture>, translated: seq<string>, rawFiles: map<string, string>) {
    && |translated| <= |captures| <= |translated| + 1 && |captures| <= 3
    && translated == Labels[..|translated|]
    && (forall i | 0 <= i < |captures| :: captures[i].tag == Labels[i])
    && (forall i | 0 <= i < |translated| :: OnRecord(rawFiles, captures[i].reading))
  }

  /** So far nothing was deleted or stopped, devices and captures came in order, and what is
      recorded is what there was. */
  predicate Orderly(
    names: seq<string>, attempted: seq<string>, created: seq<string>, started: bool, captures: seq<Capture>,
    translated: seq<string>, rawFiles: map<string, string>, deletions: seq<string>, stops: nat)
  {
    && deletions == [] && stops == 0
    && AttemptedInOrder(names, attempted, created, started) && InTurn(captures, translated, rawFiles)
  }

  lemma KeptInTurn(
    captures: seq<Capture>, translated: seq<string>, before: map<string, string>, after: map<string, string>)
    requires InTurn(captures, translated, before) && Kept(before, after)
    ensures InTurn(captures, translated, after)
  {
  }

  lemma CaptureInTurn(captures: seq<Capture>, translated: seq<string>, rawFiles: map<string, string>, reading: Reading)
    requires InTurn(captures, translated, rawFiles) && |captures| == |translated| < 3
    ensures InTurn(captures + [Capture(Labels[|captures|], reading)], translated, rawFiles)
    ensures OnRecord(rawFiles, reading) ==>
      InTurn(captures + [Capture(Labels[|captures|], reading)], translated + [Labels[|captures|]], rawFiles)
  {
  }

  lemma AllInTurn(captures: seq<Capture>, translated: seq<string>, rawFiles: map<string, string>)
    ensures InTurn(captures, translated, rawFiles) && |translated| == 3 ==> translated == Labels
  {
  }

  lemma NothingYet(world: World, names: seq<string>)
    ensures InTurn([], [], map[]) && NotesOf(world, []) == Notes([], [], [], map[], false, 0)
    ensures forall started :: AttemptedInOrder(names, [], [], started)
  {
  }

  lemma KeptTransitive(a: map<string, string>, b: map<string, string>, c: map<string, string>)
    requires Kept(a, b) && Kept(b, c)
    ensures Kept(a, c)
  {
  }

  lemma KeptItself(a: map<string, string>)
    ensures Kept(a, a)
  {
  }

  class Run {
    /** The outcome of the k-th operation. */
    const world: World
    const names: seq<string>
    var trace: seq<Op>
    var attempted: seq<string>
    var created: seq<string>
    var captures: seq<Capture>
    var translated: seq<string>
    var rawFiles: map<string, string>
    var problems: seq<string>
    var deleted: seq<string>
    var opening: Option<string>
    var preexisting: Option<set<string>>
    var creationStarted: bool
    var autoProven: Option<bool>
    var inventoryRestored: Option<bool>
    var fixtureRemoved: Option<bool>

    constructor (world: World, names: seq<string>)
      requires names != []
      ensures this.world == world && this.names == names && Fresh()
    {
      this.world, this.names := world, names;
      trace, attempted, created, captures, translated := [], [], [], [], [];
      rawFiles, problems, deleted := map[], [], [];
      opening, preexisting, creationStarted := None, None, false;
      autoProven, inventoryRestored, fixtureRemoved := None, None, None;
    }

    ghost predicate Fresh()
      reads this
    {
      && names != [] && trace == [] && attempted == [] && created == [] && captures == [] && translated == []
      && rawFiles == map[] && problems == [] && deleted == [] && !creationStarted
      && opening.None? && preexisting.None?
    }

    ghost function Noting(): Notes
      reads this
    {
      NotesOf(world, trace)
    }

    /** What holds throughout the measuring part. */
    ghost predicate Measuring()
      reads this
    {
      && names != [] && problems == [] && deleted == []
      && Noting().raw == rawFiles && Noting().creations == attempted
      && (creationStarted ==> opening.Some? && preexisting.Some?)
      && Orderly(names, attempted, created, creationStarted, captures, translated, rawFiles,
                 Noting().deletions, Noting().stops)
    }

    /** The body has followed its plan, and every check was passed; or it has followed it up
        to its last operation, which did not pass. */
    ghost predicate OnPlan()
      reads this`trace
    {
      names != [] && Following(world, PlanOf(world, names), trace)
    }

    ghost predicate OffPlan()
      reads this`trace
    {
      names != [] && Halted(world, PlanOf(world, names), trace)
    }

    /** What the plan says is next. */
    ghost predicate Next(part: seq<Op>)
      reads this`trace
    {
      names != [] && Ahead(PlanOf(world, names), |trace|, part)
    }

    /** Calls one operation of the session. */
    method Do(op: Op) returns (signal: Signal, reply: Reply)
      modifies this`trace
      ensures trace == old(trace) + [op]
      ensures Noting() == Noted(old(Noting()), op, world(old(|trace|), op))
      ensures match world(old(|trace|), op)
              case Done(r) => signal == Proceed && reply == r
              case Fails(text) => signal == Problem(text)
              case Interrupts => signal == Interrupted
    {
      hide Fine, NotesOf, Noted;
      NotesAppend(world, trace, op);
      var outcome := world(|trace|, op);
      trace := trace + [op];
      reply := Reply(false, None, "", {}, Reading("", "", false, false, false, false));
      match outcome {
        case Done(r) => signal, reply := Proceed, r;
        case Fails(text) => signal := Problem(text);
        case Interrupts => signal := Interrupted;
      }
    }

    /** An operation that leaves no note. */
    method Call(op: Op) returns (signal: Signal, reply: Reply)
      requires IsOrdinary(op)
      modifies this`trace
      ensures Noting() == old(Noting()) && trace == old(trace) + [op]
      ensures match world(old(|trace|), op)
              case Done(r) => signal == Proceed && reply == r
              case Fails(text) => signal == Problem(text)
              case Interrupts => signal == Interrupted
      ensures Favourable(world) ==> signal.Proceed? && Fine(world, op, reply)
    {
      hide NotesOf, Noted, Favourable, Fine, IsOrdinary;
      OrdinaryNotes(Noting(), op, world(|trace|, op));
      FavourableWorks(world, |trace|, op);
      signal, reply := Do(op);
    }

    /** The next operation of the plan, for which an answer is enough. */
    method Ask(op: Op) returns (signal: Signal, reply: Reply)
      requires IsOrdinary(op) && IsPlain(op) && OnPlan() && Next([op])
      modifies this`trace
      ensures Noting() == old(Noting()) && trace == old(trace) + [op]
      ensures signal.Proceed? ==> world(old(|trace|), op) == Done(reply)
      ensures if signal.Proceed? then OnPlan() else OffPlan()
      ensures Favourable(world) ==> signal.Proceed? && Fine(world, op, reply)
    {
      hide NotesOf, Favourable, Fine, IsOrdinary, IsPlain, PlanOf, Following, Halted, Ahead, Passes;
      PassesPlain(world, trace, op);
      PlanStep(world, PlanOf(world, names), trace, op);
      signal, reply := Call(op);
    }

    /** The next operation of the plan, whose reply must pass its check. */
    method Check(op: Op, complaint: string) returns (signal: Signal, reply: Reply)
      requires IsOrdinary(op) && IsChecked(op) && !op.FactoryRequired? && OnPlan() && Next([op])
      modifies this`trace
      ensures Noting() == old(Noting()) && trace == old(trace) + [op]
      ensures signal.Proceed? ==> reply.ok
      ensures if signal.Proceed? then OnPlan() else OffPlan()
      ensures Favourable(world) ==> signal.Proceed?
    {
      hide NotesOf, Favourable, IsOrdinary, IsChecked, PlanOf, Following, Halted, Ahead, Passes;
      PassesPlain(world, trace, op);
      PlanStep(world, PlanOf(world, names), trace, op);
      signal, reply := Call(op);
      if signal.Proceed? && !reply.ok {
        signal := Problem(complaint);
      }
    }

    /** `_record_raw`: a file is never replaced by different bytes. */
    method RecordRaw(reading: Reading) returns (signal: Signal)
      modifies this`rawFiles
      ensures rawFiles == Recorded(old(rawFiles), reading)
      ensures signal.Proceed? <==> OnRecord(rawFiles, reading)
      ensures !signal.Proceed? ==> signal.Problem?
      ensures Kept(old(rawFiles), rawFiles)
    {
      if reading.rawFile in rawFiles && rawFiles[reading.rawFile] != reading.raw {
        return Problem("Raw capture would overwrite different earlier evidence");
      }
      rawFiles := rawFiles[reading.rawFile := reading.raw];
      signal := Proceed;
    }

    // ----- Baseline -----

    /** The heartbeat is judged once the mailbox has been read. */
    method ReadBridge() returns (signal: Signal)
      requires OnPlan() && Next([BridgeHealthy]) && Ahead(PlanOf(world, names), |trace| + 1, [MailboxEntries])
      modifies this`trace
      ensures Noting() == old(Noting())
      ensures if signal.Proceed? then OnPlan() && |trace| == old(|trace|) + 2 else OffPlan()
      ensures Favourable(world) ==> signal.Proceed?
    {
      hide NotesOf, Favourable, PlanOf, Following, Halted, Ahead, Passes;
      var health, mailbox;
      signal, health := Ask(BridgeHealthy);
      if !signal.Proceed? {
        return;
      }
      MailboxPasses(world, trace);
      PlanStep(world, PlanOf(world, names), trace, MailboxEntries);
      signal, mailbox := Call(MailboxEntries);
      if !signal.Proceed? {
        return;
      }
      if !health.ok {
        return Problem("File bridge heartbeat stale");
      }
      if !mailbox.ok {
        return Problem("Foreign mailbox residue");
      }
    }

    /** The bridge is up and authenticated, and the workspace is empty. */
    method OpenBridge() returns (signal: Signal)
      requires OnPlan() && Next([BridgeHealthy, MailboxEntries, StartBridge, Environment])
      modifies this`trace
      ensures Noting() == old(Noting())
      ensures if signal.Proceed? then OnPlan() && |trace| == old(|trace|) + 4 else OffPlan()
      ensures Favourable(world) ==> signal.Proceed?
    {
      hide NotesOf, Favourable, PlanOf, Following, Halted, Ahead, Passes;
      ghost var plan, ops := PlanOf(world, names), [BridgeHealthy, MailboxEntries, StartBridge, Environment];
      AheadAt(plan, |trace|, ops, 0, BridgeHealthy);
      AheadAt(plan, |trace|, ops, 1, MailboxEntries);
      AheadAt(plan, |trace|, ops, 2, StartBridge);
      AheadAt(plan, |trace|, ops, 3, Environment);
      var reply;
      signal := ReadBridge();
      if !signal.Proceed? {
        return;
      }
      signal, reply := Ask(StartBridge);
      if !signal.Proceed? {
        return;
      }
      signal, reply := Check(Environment, "Requires an empty, untitled semantic baseline");
    }

    method Baseline() returns (signal: Signal)
      requires Fresh()
      modifies this`trace, this`opening, this`preexisting, this`creationStarted
      ensures Measuring() && creationStarted == signal.Proceed?
      ensures attempted == created == [] && captures == [] && translated == []
      ensures Noting().steps == [] && !Noting().refused
      ensures if signal.Proceed? then OnPlan() && |trace| == 8 else OffPlan()
      ensures signal.Proceed? ==>
        opening == Some(TextAt(world, 4, Fingerprint)) && preexisting == Some(NamesAt(world, 5, DeviceNames))
      ensures Favourable(world) ==>
        signal.Proceed? && opening == Some(TextOf(world)) && preexisting == Some(NamesOf(world))
    {
      hide NotesOf, InTurn, AttemptedInOrder, Favourable, OnPlan, OffPlan, TextOf, NamesOf;
      NothingYet(world, names);
      signal := OpenSession();
      creationStarted := signal.Proceed?;
    }

    method OpenSession() returns (signal: Signal)
      requires names != [] && trace == []
      modifies this`trace, this`opening, this`preexisting
      ensures Noting() == old(Noting())
      ensures if signal.Proceed? then OnPlan() && |trace| == 8 else OffPlan()
      ensures signal.Proceed? ==>
        opening == Some(TextAt(world, 4, Fingerprint)) && preexisting == Some(NamesAt(world, 5, DeviceNames))
      ensures Favourable(world) ==>
        signal.Proceed? && opening == Some(TextOf(world)) && preexisting == Some(NamesOf(world))
    {
      hide NotesOf, Favourable, PlanOf, Following, Halted, Ahead, Passes, TextOf, NamesOf;
      BaselineAhead(world, names);
      signal := OpenBridge();
      if !signal.Proceed? {
        return;
      }
      signal := ReadOpening();
      if !signal.Proceed? {
        return;
      }
      signal := StillFrozen();
    }

    /** What the restoration will be held against. */
    method ReadOpening() returns (signal: Signal)
      requires OnPlan() && |trace| == 4
      modifies this`trace, this`opening, this`preexisting
      ensures Noting() == old(Noting())
      ensures if signal.Proceed? then OnPlan() && |trace| == 6 else OffPlan()
      ensures signal.Proceed? ==>
        opening == Some(TextAt(world, 4, Fingerprint)) && preexisting == Some(NamesAt(world, 5, DeviceNames))
      ensures Favourable(world) ==>
        signal.Proceed? && opening == Some(TextOf(world)) && preexisting == Some(NamesOf(world))
    {
      hide NotesOf, Favourable, PlanOf, Following, Halted, Ahead, Passes, TextOf, NamesOf;
      BaselineAhead(world, names);
      var reply;
      signal, reply := Ask(Fingerprint);
      if !signal.Proceed? {
        return;
      }
      opening := Some(reply.text);
      signal, reply := Ask(DeviceNames);
      if signal.Proceed? {
        preexisting := Some(reply.names);
      }
    }

    /** The probes before creation and before every measurement. */
    method StillFrozen() returns (signal: Signal)
      requires OnPlan() && Next([Processes, SourceState])
      modifies this`trace
      ensures Noting() == old(Noting())
      ensures if signal.Proceed? then OnPlan() && |trace| == old(|trace|) + 2 else OffPlan()
      ensures Favourable(world) ==> signal.Proceed?
    {
      hide NotesOf, Favourable, Fine, PlanOf, Following, Halted, Ahead, Passes;
      AheadAt(PlanOf(world, names), |trace|, [Processes, SourceState], 0, Processes);
      AheadAt(PlanOf(world, names), |trace|, [Processes, SourceState], 1, SourceState);
      var reply;
      signal, reply := Ask(Processes);
      if !signal.Proceed? {
        return;
      }
      signal, reply := Check(SourceState, "Frozen LIVE source changed");
    }

    // ----- Fixture -----

    /** A name is attempted before the device is asked for, and created once it is there. */
    method CreateOne(name: string) returns (signal: Signal)
      requires Measuring() && creationStarted && created == attempted && |attempted| < |names|
      requires name == names[|attempted|] && OnPlan() && Next([CreateDevice(name)])
      modifies this`trace, this`attempted, this`created
      ensures Measuring() && attempted == old(attempted) + [name] && |trace| == old(|trace|) + 1
      ensures Noting() == old(Noting()).(creations := attempted)
      ensures signal.Proceed? ==> created == attempted
      ensures if signal.Proceed? then OnPlan() else OffPlan()
      ensures Favourable(world) ==> signal.Proceed?
    {
      hide InTurn, NotesOf, Noted, Favourable, PlanOf, Following, Halted, Ahead, Passes;
      PassesPlain(world, trace, CreateDevice(name));
      PlanStep(world, PlanOf(world, names), trace, CreateDevice(name));
      CreateNotes(Noting(), name, world(|trace|, CreateDevice(name)));
      FavourableWorks(world, |trace|, CreateDevice(name));
      var reply;
      attempted := attempted + [name];
      signal, reply := Do(CreateDevice(name));
      if !signal.Proceed? {
        return;
      }
      created := created + [name];
      if !reply.ok {
        signal := Problem("Fixture model readback mismatch");
      }
    }

    method CreateEndpoint(name: string) returns (signal: Signal)
      requires Measuring() && creationStarted && created == attempted && |attempted| < |names|
      requires name == names[|attempted|] && OnPlan() && Next([CreateDevice(name)])
      requires Ahead(PlanOf(world, names), |trace| + 1, [CreateLink(name)])
      modifies this`trace, this`attempted, this`created
      ensures Measuring() && attempted == old(attempted) + [name]
      ensures Noting() == old(Noting()).(creations := attempted)
      ensures signal.Proceed? ==> created == attempted
      ensures if signal.Proceed? then OnPlan() && |trace| == old(|trace|) + 2 else OffPlan()
      ensures Favourable(world) ==> signal.Proceed?
    {
      hide Orderly;
      hide NotesOf, InTurn, AttemptedInOrder, Favourable, Fine, PlanOf, Following, Halted, Ahead, Passes;
      signal := CreateOne(name);
      if !signal.Proceed? {
        return;
      }
      var reply;
      signal, reply := Ask(CreateLink(name));
    }

    method CreateEndpoints() returns (signal: Signal)
      requires Measuring() && creationStarted && created == attempted == names[..1]
      requires OnPlan() && Next(EndpointOps(names, |names|))
      modifies this`trace, this`attempted, this`created
      ensures Measuring() && Noting() == old(Noting()).(creations := attempted)
      ensures signal.Proceed? ==> created == attempted == names
      ensures if signal.Proceed? then OnPlan() && |trace| == old(|trace|) + |EndpointOps(names, |names|)| else OffPlan()
      ensures Favourable(world) ==> signal.Proceed?
    {
      hide Orderly;
      hide NotesOf, InTurn, AttemptedInOrder, Favourable, PlanOf, Following, Halted, Ahead, Passes, EndpointOps;
      EndpointCount(names, |names|);
      ghost var plan, start := PlanOf(world, names), |trace|;
      signal := Proceed;
      for i := 1 to |names|
        invariant Measuring() && Noting() == old(Noting()).(creations := attempted)
        invariant created == attempted == names[..i] && signal.Proceed?
        invariant OnPlan() && |trace| == start + 2 * i - 2
      {
        EndpointAhead(plan, start, names, i);
        signal := CreateEndpoint(names[i]);
        if !signal.Proceed? {
          return;
        }
      }
    }

    /** A capture that is no measurement, kept as it came. */
    method CaptureAndRecord(tag: string) returns (signal: Signal, reading: Reading)
      requires rawFiles == Noting().raw && tag !in Labels
      modifies this`trace, this`rawFiles
      ensures trace == old(trace) + [CaptureStatus(tag)] && Noting() == old(Noting()).(raw := rawFiles)
      ensures signal.Interrupted? <==> world(old(|trace|), CaptureStatus(tag)).Interrupts?
      ensures signal.Proceed? <==>
        world(old(|trace|), CaptureStatus(tag)).Done? && OnRecord(Recorded(old(rawFiles), reading), reading)
      ensures signal.Proceed? ==> OnRecord(rawFiles, reading)
      ensures world(old(|trace|), CaptureStatus(tag)).Done? ==>
        reading == world(old(|trace|), CaptureStatus(tag)).reply.reading
      ensures Kept(old(rawFiles), rawFiles)
      ensures Favourable(world) && Works(world, old(|trace|), CaptureStatus(tag)) ==>
        signal.Proceed? && reading.powerTable && reading.translates && reading.everyRow
    {
      hide NotesOf, Kept, OnRecord, Recorded, Favourable, Labels;
      KeptItself(rawFiles);
      if Favourable(world) && Works(world, |trace|, CaptureStatus(tag)) {
        FavourableRecords(world, trace, |trace|, tag);
      }
      var reply;
      signal, reply := Do(CaptureStatus(tag));
      reading := reply.reading;
      if signal.Proceed? {
        signal := RecordRaw(reading);
      }
    }

    /** A stable power table taken before the endpoints exist. */
    method PowerCapture(tag: string) returns (signal: Signal)
      requires Measuring() && IsPowerTag(tag)
      modifies this`trace, this`rawFiles
      ensures Measuring() && Kept(old(rawFiles), rawFiles) && trace == old(trace) + [CaptureStatus(tag)]
      ensures Noting() == old(Noting()).(raw := rawFiles)
      ensures signal.Proceed? <==> Powered(world, old(trace), tag)
      ensures Favourable(world) ==> signal.Proceed?
    {
      hide NotesOf, InTurn, AttemptedInOrder, Kept, Favourable, Cooperative, Works, Labels, IsPowerTag;
      hide OnRecord, Recorded;
      PowerTagIsOther(tag);
      FavourableWorks(world, |trace|, CaptureStatus(tag));
      var reading;
      signal, reading := CaptureAndRecord(tag);
      KeptInTurn(captures, translated, old(rawFiles), rawFiles);
      if signal.Proceed? && !reading.powerTable {
        signal := Problem("Factory power capture is not usable");
      }
    }

    /** One of the later ones, where nothing else is judged. */
    method PlannedCapture(tag: string) returns (signal: Signal)
      requires Measuring() && IsPowerTag(tag) && OnPlan() && Next([CaptureStatus(tag)])
      requires !LastWas(trace, ObserveModule)
      modifies this`trace, this`rawFiles
      ensures Measuring() && Kept(old(rawFiles), rawFiles) && |trace| == old(|trace|) + 1
      ensures Noting() == old(Noting()).(raw := rawFiles)
      ensures if signal.Proceed? then OnPlan() else OffPlan()
      ensures Favourable(world) ==> signal.Proceed?
    {
      hide Orderly;
      hide NotesOf, InTurn, AttemptedInOrder, Kept, Favourable, IsPowerTag, PlanOf, Following, Halted, Ahead, Passes;
      hide Powered;
      PowerPasses(world, trace, tag);
      PlanStep(world, PlanOf(world, names), trace, CaptureStatus(tag));
      signal := PowerCapture(tag);
    }

    /** Where the module would go, and the power before it is there. */
    method InspectModule() returns (signal: Signal)
      requires Measuring() && OnPlan() && Next(InspectOps())
      modifies this`trace, this`rawFiles
      ensures Measuring() && Kept(old(rawFiles), rawFiles) && Noting() == old(Noting()).(raw := rawFiles)
      ensures if signal.Proceed? then OnPlan() && |trace| == old(|trace|) + 3 else OffPlan()
      ensures Favourable(world) ==> signal.Proceed?
    {
      hide IsPowerTag;
      hide Orderly, InspectOps;
      hide NotesOf, InTurn, AttemptedInOrder, Kept, Labels, Favourable, PlanOf, Following, Halted, Ahead, Passes;
      hide Powered;
      ghost var plan := PlanOf(world, names);
      InspectAhead(plan, |trace|);
      PowerTags();
      KeptItself(rawFiles);
      var reply, target;
      signal, reply := Ask(WaitReady);
      if !signal.Proceed? {
        return;
      }
      signal, target := Ask(ObserveModule);
      if !signal.Proceed? {
        return;
      }
      PowerPasses(world, trace, "PSU_BEFORE");
      PlanStep(world, plan, trace, CaptureStatus("PSU_BEFORE"));
      signal := PowerCapture("PSU_BEFORE");
      if signal.Proceed? && !target.ok {
        signal := Problem("Factory module target is not one new deterministic insertion");
      }
    }

    method VerifyInstallation() returns (signal: Signal)
      requires Measuring() && OnPlan() && Next(VerifyOps())
      modifies this`trace, this`rawFiles
      ensures Measuring() && Kept(old(rawFiles), rawFiles) && Noting() == old(Noting()).(raw := rawFiles)
      ensures if signal.Proceed? then OnPlan() && |trace| == old(|trace|) + 3 else OffPlan()
      ensures Favourable(world) ==> signal.Proceed?
    {
      hide IsPowerTag;
      hide Orderly, VerifyOps;
      hide NotesOf, InTurn, AttemptedInOrder, Kept, Labels, Favourable, Fine, PlanOf, Following, Halted, Ahead, Passes;
      VerifyAhead(PlanOf(world, names), |trace|);
      PowerTags();
      KeptItself(rawFiles);
      var reply;
      signal, reply := Ask(WaitReady);
      if !signal.Proceed? {
        return;
      }
      signal, reply := Check(VerifyModule, "Factory module structural verification failed");
      if !signal.Proceed? {
        return;
      }
      signal := PlannedCapture("PSU_AFTER");
    }

    /** The one installation, and whether its native answer was positive. */
    method Install() returns (signal: Signal, acknowledged: bool)
      requires Measuring() && OnPlan() && Next([InstallModule])
      modifies this`trace
      ensures Measuring() && Noting().steps == old(Noting()).steps + [InstallModule]
      ensures signal.Proceed? && !acknowledged ==> Noting().refused
      ensures signal.Proceed? ==>
        && world(old(|trace|), InstallModule).Done?
        && world(old(|trace|), InstallModule).reply.acknowledged == Some(acknowledged)
      ensures |trace| == old(|trace|) + 1 && if signal.Proceed? then OnPlan() else OffPlan()
      ensures Favourable(world) ==> signal.Proceed? && acknowledged
    {
      hide Orderly;
      hide NotesOf, InTurn, AttemptedInOrder, Favourable, PlanOf, Following, Halted, Ahead, Passes;
      hide Noted;
      InstallPasses(world, trace);
      InstallNotes(Noting(), world(|trace|, InstallModule));
      PlanStep(world, PlanOf(world, names), trace, InstallModule);
      acknowledged := true;
      FavourableWorks(world, |trace|, InstallModule);
      var reply;
      signal, reply := Do(InstallModule);
      if !signal.Proceed? {
        return;
      }
      if !reply.ok {
        signal := Problem("Factory module installation refused before mutating");
      } else if reply.acknowledged.None? {
        signal := Problem("Factory module mutation result is indeterminate; stopping without replay.");
      } else {
        acknowledged := reply.acknowledged.value;
      }
    }

    /** The factory module goes in once; only a native refusal allows the one fallback, and
        an unknown answer none. */
    method PrepareFactoryModule() returns (signal: Signal, ghost asked: seq<Op>)
      requires Measuring() && Noting().steps == []
      requires OnPlan() && |trace| == 10 && Next(ModuleOps(Refused(world)))
      modifies this`trace, this`rawFiles
      ensures Measuring() && Kept(old(rawFiles), rawFiles)
      ensures IsInstallation(asked) && Noting().steps == asked
      ensures InstallFallback in asked ==> Noting().refused
      ensures if signal.Proceed? then OnPlan() && |trace| == 10 + |ModuleOps(Refused(world))| else OffPlan()
      ensures Favourable(world) ==> signal.Proceed?
    {
      hide Orderly;
      hide NotesOf, InTurn, AttemptedInOrder, Kept, Favourable, PlanOf, Following, Halted, Ahead, Passes, ModuleOps;
      ModuleAhead(PlanOf(world, names), 10, Refused(world));
      asked := [];
      signal := InspectModule();
      if !signal.Proceed? {
        return;
      }
      ghost var first := rawFiles;
      var acknowledged;
      signal, acknowledged := Install();
      asked := [InstallModule];
      if !signal.Proceed? {
        return;
      }
      if !acknowledged {
        ghost var more;
        signal, more := Fallback();
        asked := asked + more;
        KeptTransitive(old(rawFiles), first, rawFiles);
        if !signal.Proceed? {
          return;
        }
      }
      ghost var second := rawFiles;
      signal := VerifyInstallation();
      KeptTransitive(old(rawFiles), second, rawFiles);
    }

    method Fallback() returns (signal: Signal, ghost asked: seq<Op>)
      requires Measuring() && OnPlan() && Next(FallbackOps())
      modifies this`trace, this`rawFiles
      ensures Measuring() && Kept(old(rawFiles), rawFiles)
      ensures Noting().steps == old(Noting()).steps + asked && (asked == [] || asked == [InstallFallback])
      ensures old(Noting()).refused ==> Noting().refused
      ensures if signal.Proceed? then OnPlan() && |trace| == old(|trace|) + 3 else OffPlan()
    {
      hide Orderly;
      hide NotesOf, Noted, InTurn, AttemptedInOrder, Kept, Favourable, Fine, Labels, IsPowerTag;
      hide PlanOf, Following, Halted, Ahead, Passes;
      FallbackAhead(PlanOf(world, names), |trace|);
      asked := [];
      signal := ReadRefusal();
      if !signal.Proceed? {
        return;
      }
      FallbackNotes(Noting(), world(|trace|, InstallFallback));
      FallbackPasses(world, trace);
      PlanStep(world, PlanOf(world, names), trace, InstallFallback);
      var reply;
      signal, reply := Do(InstallFallback);
      asked := [InstallFallback];
      if signal.Proceed? && reply.acknowledged.None? {
        signal := Problem("Factory fallback result is indeterminate; stopping without replay.");
      }
    }

    /** The power after a native refusal. */
    method ReadRefusal() returns (signal: Signal)
      requires Measuring() && OnPlan() && Next([WaitReady])
      requires Ahead(PlanOf(world, names), |trace| + 1, [CaptureStatus("PSU_AFTER_NATIVE_FALSE")])
      modifies this`trace, this`rawFiles
      ensures Measuring() && Kept(old(rawFiles), rawFiles) && Noting() == old(Noting()).(raw := rawFiles)
      ensures if signal.Proceed? then OnPlan() && |trace| == old(|trace|) + 2 else OffPlan()
    {
      hide IsPowerTag;
      hide Orderly;
      hide NotesOf, InTurn, AttemptedInOrder, Kept, Labels, Favourable, Fine, PlanOf, Following, Halted, Ahead, Passes;
      PowerTags();
      KeptItself(rawFiles);
      var reply;
      signal, reply := Ask(WaitReady);
      if signal.Proceed? {
        signal := PlannedCapture("PSU_AFTER_NATIVE_FALSE");
      }
    }

    method CreateFixture() returns (signal: Signal)
      requires Measuring() && creationStarted && attempted == created == [] && captures == []
      requires Noting().steps == [] && OnPlan() && |trace| == 8
      modifies this`trace, this`attempted, this`created, this`rawFiles
      ensures Measuring() && Kept(old(rawFiles), rawFiles) && IsInstallation(Noting().steps)
      ensures InstallFallback in Noting().steps ==> Noting().refused
      ensures signal.Proceed? ==> created == attempted == names
      ensures if signal.Proceed? then OnPlan() && |trace| == 8 + |FixtureOps(names, Requires(world), Refused(world))|
              else OffPlan()
      ensures Favourable(world) ==> signal.Proceed?
    {
      hide Orderly;
      hide NotesOf, InTurn, AttemptedInOrder, Favourable, Kept, Fine, PlanOf, Following, Halted, Ahead, Passes;
      hide FixtureOps, ModuleOps, EndpointOps, Refused, IsInstallation;
      FixtureAhead(world, names);
      KeptItself(rawFiles);
      NoInstallation();
      var required;
      signal, required := Ask(FactoryRequired);
      if !signal.Proceed? {
        return;
      }
      signal := CreateOne(names[0]);
      if !signal.Proceed? {
        return;
      }
      if required.ok {
        ghost var asked;
        signal, asked := PrepareFactoryModule();
        if !signal.Proceed? {
          return;
        }
      }
      signal := CreateEndpoints();
      if signal.Proceed? && !required.ok {
        var reply;
        signal, reply := Ask(WaitReady);
      }
    }

    // ----- Measurement -----

    method ApplyAndCapture(tag: string) returns (signal: Signal, reply: Reply, ghost done: seq<Op>)
      requires tag in Labels && OnPlan() && Next(StepOps(tag))
      modifies this`trace
      ensures Untouched(old(Noting()), Noting()) && Noting().refused == old(Noting()).refused
      ensures Noting().steps == old(Noting()).steps + done
      ensures Noting().raw == if signal.Proceed? then Recorded(old(Noting()).raw, reply.reading) else old(Noting()).raw
      ensures done <= [ApplyMode(tag != "NEVER"), CaptureStatus(tag)]
      ensures signal.Proceed? ==> |done| == 2
      ensures if signal.Proceed? && Measured(old(Noting()).raw, reply.reading)
              then OnPlan() && |trace| == old(|trace|) + 4 else OffPlan()
      ensures Favourable(world) ==>
        signal.Proceed? && reply.reading.complete && reply.reading.translates
        && OnRecord(Recorded(old(Noting()).raw, reply.reading), reply.reading)
    {
      hide NotesOf, Recorded, OnRecord, Favourable, Fine, PlanOf, Following, Halted, Ahead, Passes, Measured;
      StepAhead(PlanOf(world, names), |trace|, tag);
      done := [];
      reply := Reply(false, None, "", {}, Reading("", "", false, false, false, false));
      signal := StillFrozen();
      if !signal.Proceed? {
        return;
      }
      signal := Apply(tag != "NEVER");
      done := [ApplyMode(tag != "NEVER")];
      if !signal.Proceed? {
        return;
      }
      signal, reply := TakeCapture(tag);
      done := done + [CaptureStatus(tag)];
    }

    method Apply(auto: bool) returns (signal: Signal)
      requires OnPlan() && Next([ApplyMode(auto)])
      modifies this`trace
      ensures Noting() == old(Noting()).(steps := old(Noting()).steps + [ApplyMode(auto)])
      ensures |trace| == old(|trace|) + 1 && if signal.Proceed? then OnPlan() else OffPlan()
      ensures Favourable(world) ==> signal.Proceed?
    {
      hide NotesOf, Favourable, Fine, PlanOf, Following, Halted, Ahead, Passes;
      PassesPlain(world, trace, ApplyMode(auto));
      PlanStep(world, PlanOf(world, names), trace, ApplyMode(auto));
      FavourableWorks(world, |trace|, ApplyMode(auto));
      var reply;
      signal, reply := Do(ApplyMode(auto));
    }

    method TakeCapture(tag: string) returns (signal: Signal, reply: Reply)
      requires tag in Labels && OnPlan() && Next([CaptureStatus(tag)])
      modifies this`trace
      ensures Noting() == old(Noting()).(
        steps := old(Noting()).steps + [CaptureStatus(tag)],
        raw := if signal.Proceed? then Recorded(old(Noting()).raw, reply.reading) else old(Noting()).raw)
      ensures |trace| == old(|trace|) + 1
      ensures if signal.Proceed? && Measured(old(Noting()).raw, reply.reading) then OnPlan() else OffPlan()
      ensures Favourable(world) ==>
        signal.Proceed? && reply.reading.complete && reply.reading.translates
        && OnRecord(Recorded(old(Noting()).raw, reply.reading), reply.reading)
    {
      hide NotesOf, Recorded, OnRecord, Favourable, Fine, PlanOf, Following, Halted, Ahead, Passes, Measured;
      MeasurePasses(world, trace, tag);
      PlanStep(world, PlanOf(world, names), trace, CaptureStatus(tag));
      FavourableWorks(world, |trace|, CaptureStatus(tag));
      if Favourable(world) {
        FavourableRecords(world, trace, |trace|, tag);
        FineReading(world, CaptureStatus(tag), world(|trace|, CaptureStatus(tag)).reply);
      }
      signal, reply := Do(CaptureStatus(tag));
    }

    /** One causal step: mutate, measure, keep the raw output, and check. */
    method MeasureOne(tag: string) returns (signal: Signal, ghost done: seq<Op>)
      requires Measuring() && |captures| == |translated| < 3 && tag == Labels[|captures|]
      requires OnPlan() && Next(StepOps(tag))
      modifies this`trace, this`captures, this`translated, this`rawFiles
      ensures Measuring() && Kept(old(rawFiles), rawFiles) && Noting().refused == old(Noting()).refused
      ensures signal.Proceed? ==> |captures| == |translated| == old(|translated|) + 1
      ensures Noting().steps == old(Noting()).steps + done && done <= [ApplyMode(tag != "NEVER"), CaptureStatus(tag)]
      ensures signal.Proceed? ==> |done| == 2
      ensures if signal.Proceed? then OnPlan() && |trace| == old(|trace|) + 4 else OffPlan()
      ensures Favourable(world) ==> signal.Proceed?
    {
      hide NotesOf, InTurn, AttemptedInOrder, Kept, OnRecord, Recorded, Favourable, StepOps;
      hide PlanOf, Following, Halted, Ahead, Passes;
      KeptItself(rawFiles);
      var reply;
      signal, reply, done := ApplyAndCapture(tag);
      if !signal.Proceed? {
        return;
      }
      ghost var before := captures;
      CaptureInTurn(captures, translated, rawFiles, reply.reading);
      captures := captures + [Capture(tag, reply.reading)];
      signal := RecordRaw(reply.reading);
      KeptInTurn(captures, translated, old(rawFiles), rawFiles);
      if !signal.Proceed? {
        return;
      }
      if !reply.reading.complete {
        signal := Problem("The capture did not satisfy every completeness gate");
        return;
      }
      if !reply.reading.translates {
        signal := Problem("The capture disagrees with the plan");
        return;
      }
      KeptInTurn(before, translated, old(rawFiles), rawFiles);
      CaptureInTurn(before, translated, rawFiles, reply.reading);
      translated := translated + [tag];
    }

    method Measure() returns (signal: Signal)
      requires Measuring() && captures == [] && translated == []
      requires OnPlan() && Next(MeasureOps(3))
      modifies this`trace, this`captures, this`translated, this`rawFiles
      ensures Measuring() && Kept(old(rawFiles), rawFiles) && Noting().refused == old(Noting()).refused
      ensures old(Noting()).steps <= Noting().steps <= old(Noting()).steps + Measurements(3)
      ensures signal.Proceed? ==> |translated| == 3 && Noting().steps == old(Noting()).steps + Measurements(3)
      ensures if signal.Proceed? then OnPlan() && |trace| == old(|trace|) + 12 else OffPlan()
      ensures Favourable(world) ==> signal.Proceed?
    {
      hide Orderly;
      hide NotesOf, InTurn, AttemptedInOrder, Kept, Favourable, PlanOf, Following, Halted, Ahead, Passes;
      hide MeasureOps, StepOps;
      KeptItself(rawFiles);
      signal := Proceed;
      for i := 0 to 3
        invariant Measuring() && |captures| == |translated| == i && signal.Proceed?
        invariant Kept(old(rawFiles), rawFiles) && Noting().refused == old(Noting()).refused
        invariant Noting().steps == old(Noting()).steps + Measurements(i)
        invariant OnPlan() && |trace| == old(|trace|) + 4 * i
      {
        ghost var before := rawFiles;
        ghost var done;
        MeasurementsGrow(i);
        MeasureAhead(PlanOf(world, names), old(|trace|), i);
        signal, done := MeasureOne(Labels[i]);
        KeptTransitive(old(rawFiles), before, rawFiles);
        if !signal.Proceed? {
          return;
        }
        assert done == [ApplyMode(Labels[i] != "NEVER"), CaptureStatus(Labels[i])];
      }
    }

    /** The body of the `try`. */
    method Body() returns (signal: Signal, ghost asked: seq<Op>)
      requires Fresh()
      modifies this`trace, this`attempted, this`created, this`captures, this`translated, this`rawFiles
      modifies this`opening, this`preexisting, this`creationStarted
      ensures names != [] && problems == [] && deleted == [] && InTurn(captures, translated, rawFiles)
      ensures Noting().raw == rawFiles && Noting().creations == attempted <= names
      ensures Noting().deletions == [] && Noting().stops == 0 && BodyRan(world, names, trace)
      ensures signal.Proceed? ==> Following(world, PlanOf(world, names), trace) && |trace| == |PlanOf(world, names)|
      ensures IsInstallation(asked) && Noting().steps <= asked + Measurements(3)
      ensures InstallFallback in asked ==> Noting().refused
      ensures !creationStarted ==> attempted == []
      ensures signal.Proceed? ==>
        && creationStarted && translated == Labels && created == attempted == names
        && Noting().steps == asked + Measurements(3)
      ensures if signal.Proceed? then OnPlan() && |trace| == |PlanOf(world, names)| else OffPlan()
      ensures creationStarted ==>
        opening == Some(TextAt(world, 4, Fingerprint)) && preexisting == Some(NamesAt(world, 5, DeviceNames))
      ensures Favourable(world) ==>
        signal.Proceed? && opening == Some(TextOf(world)) && preexisting == Some(NamesOf(world))
    {
      hide NotesOf, InTurn, Kept, Measurements, Favourable, PlanOf, Following, Halted, Ahead, Passes;
      hide FixtureOps, MeasureOps, TextOf, NamesOf, IsInstallation;
      PlanParts(world, names);
      MeasureAhead(PlanOf(world, names), 8 + |FixtureOps(names, Requires(world), Refused(world))|, 0);
      asked := [];
      NoInstallation();
      signal := Baseline();
      if !signal.Proceed? {
        return;
      }
      signal := CreateFixture();
      asked := Noting().steps;
      if !signal.Proceed? {
        return;
      }
      signal := Measure();
      AllInTurn(captures, translated, rawFiles);
    }

    // ----- Restoration -----

    /** A fresh reading of the restored power; `everyRow` is what it proves. */
    method ReadBack() returns (signal: Signal, everyRow: bool)
      requires rawFiles == Noting().raw
      modifies this`trace, this`rawFiles
      ensures trace == old(trace) + [CaptureStatus("RESTORE")] && Noting() == old(Noting()).(raw := rawFiles)
      ensures signal.Interrupted? <==> world(old(|trace|), CaptureStatus("RESTORE")).Interrupts?
      ensures Kept(old(rawFiles), rawFiles)
      ensures signal.Proceed? ==> ShowsPower(world, old(|trace|), everyRow, rawFiles)
      ensures Cooperative(world) ==> signal.Proceed? && everyRow
    {
      hide NotesOf, Kept, Cooperative, Favourable, Works, Recorded, OnRecord;
      FavourableWorks(world, |trace|, CaptureStatus("RESTORE"));
      var reading;
      signal, reading := CaptureAndRecord("RESTORE");
      everyRow := reading.everyRow;
      if signal.Proceed? && !reading.translates {
        signal := Problem("The capture disagrees with the plan");
      }
    }

    /** Power back to AUTO, and a fresh reading of it if that went through. */
    method RestoreAuto() returns (interrupted: bool)
      requires rawFiles == Noting().raw
      modifies this`trace, this`rawFiles, this`problems, this`autoProven
      ensures trace == old(trace) + AutoOps(world(old(|trace|), ApplyMode(true)).Done?)
      ensures Untouched(old(Noting()), Noting()) && Noting().raw == rawFiles
      ensures Tail(world, trace, old(|trace|), interrupted)
      ensures old(problems) <= problems && Kept(old(rawFiles), rawFiles)
      ensures problems == old(problems) && !interrupted ==>
        && world(old(|trace|), ApplyMode(true)).Done?
        && autoProven.Some? && ShowsPower(world, old(|trace|) + 1, autoProven.value, rawFiles)
      ensures Cooperative(world) ==> !interrupted && problems == old(problems) && autoProven == Some(true)
    {
      hide NotesOf, Kept, Tail, OnRecord, Cooperative, Favourable, Fine, ShowsPower;
      KeptItself(rawFiles);
      TailStarts(world, trace);
      TailGrows(world, trace, |trace|, ApplyMode(true));
      FavourableWorks(world, |trace|, ApplyMode(true));
      var signal, reply := Do(ApplyMode(true));
      var everyRow := false;
      if signal.Proceed? {
        TailGrows(world, trace, old(|trace|), CaptureStatus("RESTORE"));
        signal, everyRow := ReadBack();
        assert trace == old(trace) + [ApplyMode(true), CaptureStatus("RESTORE")];
      }
      interrupted := signal.Interrupted?;
      match signal {
        case Proceed => autoProven := Some(everyRow);
        case Problem(text) => problems := problems + ["Restoration readback: " + text];
        case Interrupted =>
      }
    }

    /** `cleanup_fixture`: every attempted device, last first, whatever the deletions do. */
    method CleanupFixture() returns (interrupted: bool)
      modifies this`trace, this`problems, this`deleted
      ensures old(trace) <= trace && Noting() == old(Noting()).(deletions := Noting().deletions)
      ensures Tail(world, trace, old(|trace|), interrupted)
      ensures Noting().deletions <= old(Noting()).deletions + Reverse(attempted)
      ensures !interrupted ==> Noting().deletions == old(Noting()).deletions + Reverse(attempted)
      ensures !interrupted ==> trace == old(trace) + DeleteOps(attempted)
      ensures old(problems) <= problems
      ensures !interrupted && problems == old(problems) ==>
        deleted == old(deleted) + Reverse(attempted) && AllConfirmed(world, trace, old(|trace|))
      ensures Cooperative(world) ==> !interrupted && problems == old(problems)
    {
      hide NotesOf, Tail, Reverse, Cooperative, Remaining, DeleteOps, LeftToDelete, AllConfirmed;
      interrupted := false;
      var i := |attempted|;
      RemainingStart(Noting().deletions, attempted);
      RemainingStart(deleted, attempted);
      LeftStart(trace, attempted);
      NoneConfirmed(world, trace);
      TailStarts(world, trace);
      while i > 0
        invariant 0 <= i <= |attempted|
        invariant old(trace) <= trace && Tail(world, trace, old(|trace|), false)
        invariant Remaining(Noting().deletions, old(Noting()).deletions, attempted, i)
        invariant Noting() == old(Noting()).(deletions := Noting().deletions) && old(problems) <= problems
        invariant LeftToDelete(trace, old(trace), attempted, i)
        invariant problems == old(problems) ==>
          Remaining(deleted, old(deleted), attempted, i) && AllConfirmed(world, trace, old(|trace|))
        invariant Cooperative(world) ==> problems == old(problems)
      {
        RemainingStep(Noting().deletions, old(Noting()).deletions, attempted, i);
        RemainingStep(deleted, old(deleted), attempted, i);
        LeftStep(trace, old(trace), attempted, i);
        i := i - 1;
        TailGrows(world, trace, old(|trace|), DeleteDevice(attempted[i]));
        ConfirmedGrows(world, trace, old(|trace|), DeleteDevice(attempted[i]));
        var signal := DeleteOne(attempted[i]);
        if signal.Interrupted? {
          RemainingEnd(Noting().deletions, old(Noting()).deletions, attempted);
          return true;
        }
      }
      RemainingEnd(Noting().deletions, old(Noting()).deletions, attempted);
      RemainingEnd(deleted, old(deleted), attempted);
      LeftEnd(trace, old(trace), attempted);
    }

    /** One deletion; a failed or unverified one is a problem. */
    method DeleteOne(name: string) returns (signal: Signal)
      modifies this`trace, this`problems, this`deleted
      ensures trace == old(trace) + [DeleteDevice(name)]
      ensures Noting() == old(Noting()).(deletions := old(Noting()).deletions + [name])
      ensures signal.Interrupted? <==> world(old(|trace|), DeleteDevice(name)).Interrupts?
      ensures if deleted == old(deleted) + [name] then problems == old(problems)
              else deleted == old(deleted) && old(problems) <= problems
                   && (signal.Interrupted? || |problems| == old(|problems|) + 1)
      ensures problems == old(problems) && !signal.Interrupted? ==>
        world(old(|trace|), DeleteDevice(name)).Done? && world(old(|trace|), DeleteDevice(name)).reply.ok
      ensures Cooperative(world) ==> !signal.Interrupted? && problems == old(problems)
    {
      hide NotesOf, Noted, Cooperative, Favourable;
      DeleteNotes(Noting(), name, world(|trace|, DeleteDevice(name)));
      FavourableWorks(world, |trace|, DeleteDevice(name));
      var reply;
      signal, reply := Do(DeleteDevice(name));
      match signal {
        case Interrupted =>
        case Problem(text) =>
          problems := problems + ["Cleanup " + name + ": " + text];
        case Proceed =>
          if reply.ok {
            deleted := deleted + [name];
          } else {
            problems := problems + ["Cleanup did not verify deletion: " + name];
          }
      }
    }

    // ----- Reading back, and the end -----

    /** The `i`-th operation of the final part, which begins at `at`. */
    method Follow(op: Op, ghost lo: nat, ghost at: nat, ghost i: nat) returns (signal: Signal, reply: Reply)
      requires IsOrdinary(op) && !op.StopBridge? && Tail(world, trace, lo, false)
      requires Going(world, SafetyOps(), at, trace) && |trace| == at + i && i < |SafetyOps()| && SafetyOps()[i] == op
      modifies this`trace
      ensures trace == old(trace) + [op] && Noting() == old(Noting()) && Tail(world, trace, lo, signal.Interrupted?)
      ensures signal.Proceed? ==> world(at + i, op) == Done(reply)
      ensures if signal.Proceed? then Going(world, SafetyOps(), at, trace) else Broken(world, SafetyOps(), at, trace)
      ensures Cooperative(world) ==> signal.Proceed? && Fine(world, op, reply)
    {
      hide NotesOf, Noted, Tail, Cooperative, Favourable, Fine, IsOrdinary, Going, Broken, SafetyOps;
      TailGrows(world, trace, lo, op);
      GoingStep(world, SafetyOps(), at, trace, i, op);
      OrdinaryNotes(Noting(), op, world(|trace|, op));
      FavourableWorks(world, |trace|, op);
      signal, reply := Do(op);
    }

    /** Residue, inventory and device names against what was there at the start. */
    method ReadInventory(ghost lo: nat) returns (signal: Signal)
      requires opening.Some? && preexisting.Some? && Tail(world, trace, lo, false)
      modifies this`trace, this`inventoryRestored, this`fixtureRemoved
      ensures old(trace) <= trace && Noting() == old(Noting()) && Tail(world, trace, lo, signal.Interrupted?)
      ensures if signal.Proceed? then Going(world, SafetyOps(), old(|trace|), trace) && |trace| == old(|trace|) + 4
              else Broken(world, SafetyOps(), old(|trace|), trace)
      ensures signal.Proceed? ==>
        ShowsInventory(world, old(|trace|), opening, preexisting, inventoryRestored, fixtureRemoved)
      ensures Cooperative(world) && opening == Some(TextOf(world)) && preexisting == Some(NamesOf(world)) ==>
        signal.Proceed? && inventoryRestored == Some(true) && fixtureRemoved == Some(true)
    {
      hide NotesOf, Tail, Cooperative, Going, Broken, SafetyOps, TextOf, NamesOf, TextAt, NamesAt;
      ghost var at := |trace|;
      signal := ReadFingerprint(lo);
      if signal.Proceed? {
        signal := ReadNames(lo, at);
      }
    }

    method ReadFingerprint(ghost lo: nat) returns (signal: Signal)
      requires opening.Some? && Tail(world, trace, lo, false)
      modifies this`trace, this`inventoryRestored
      ensures old(trace) <= trace && Noting() == old(Noting()) && Tail(world, trace, lo, signal.Interrupted?)
      ensures if signal.Proceed? then Going(world, SafetyOps(), old(|trace|), trace) && |trace| == old(|trace|) + 2
              else Broken(world, SafetyOps(), old(|trace|), trace)
      ensures signal.Proceed? ==>
        inventoryRestored == Some(TextAt(world, old(|trace|) + 1, WaitFingerprint) == opening.value)
      ensures Cooperative(world) && opening == Some(TextOf(world)) ==>
        signal.Proceed? && inventoryRestored == Some(true)
    {
      hide NotesOf, Tail, Cooperative, Going, Broken, SafetyOps;
      SafetyCount();
      ghost var at := |trace|;
      GoingStarts(world, SafetyOps(), trace);
      var reply;
      signal, reply := Follow(RetireResidue, lo, at, 0);
      if !signal.Proceed? {
        return;
      }
      signal, reply := Follow(WaitFingerprint, lo, at, 1);
      if signal.Proceed? {
        inventoryRestored := Some(reply.text == opening.value);
      }
    }

    method ReadNames(ghost lo: nat, ghost at: nat) returns (signal: Signal)
      requires preexisting.Some? && Tail(world, trace, lo, false)
      requires Going(world, SafetyOps(), at, trace) && |trace| == at + 2
      modifies this`trace, this`fixtureRemoved
      ensures old(trace) <= trace && Noting() == old(Noting()) && Tail(world, trace, lo, signal.Interrupted?)
      ensures if signal.Proceed? then Going(world, SafetyOps(), at, trace) && |trace| == at + 4
              else Broken(world, SafetyOps(), at, trace)
      ensures signal.Proceed? ==> fixtureRemoved == Some(NamesAt(world, at + 2, DeviceNames) == preexisting.value)
      ensures Cooperative(world) && preexisting == Some(NamesOf(world)) ==>
        signal.Proceed? && fixtureRemoved == Some(true)
    {
      hide NotesOf, Tail, Cooperative, Going, Broken, SafetyOps;
      SafetyCount();
      var reply;
      signal, reply := Follow(DeviceNames, lo, at, 2);
      if !signal.Proceed? {
        return;
      }
      fixtureRemoved := Some(reply.names == preexisting.value);
      signal, reply := Follow(Environment, lo, at, 3);
    }

    method ReadSafety(ghost lo: nat, ghost at: nat) returns (signal: Signal)
      requires Tail(world, trace, lo, false) && Going(world, SafetyOps(), at, trace) && |trace| == at + 4
      modifies this`trace
      ensures old(trace) <= trace && Noting() == old(Noting()) && Tail(world, trace, lo, signal.Interrupted?)
      ensures if signal.Proceed? then Going(world, SafetyOps(), at, trace) && |trace| == at + 10
              else Broken(world, SafetyOps(), at, trace)
      ensures Cooperative(world) ==> signal.Proceed?
    {
      hide NotesOf, Tail, Cooperative, Fine, Going, Broken, SafetyOps;
      signal := ReadProcesses(lo, at);
      if signal.Proceed? {
        signal := ReadTransport(lo, at);
      }
    }

    method ReadProcesses(ghost lo: nat, ghost at: nat) returns (signal: Signal)
      requires Tail(world, trace, lo, false) && Going(world, SafetyOps(), at, trace) && |trace| == at + 4
      modifies this`trace
      ensures old(trace) <= trace && Noting() == old(Noting()) && Tail(world, trace, lo, signal.Interrupted?)
      ensures if signal.Proceed? then Going(world, SafetyOps(), at, trace) && |trace| == at + 7
              else Broken(world, SafetyOps(), at, trace)
      ensures Cooperative(world) ==> signal.Proceed?
    {
      hide NotesOf, Tail, Cooperative, Fine, Going, Broken, SafetyOps;
      SafetyCount();
      var reply;
      signal, reply := Follow(CollectCompleted, lo, at, 4);
      if !signal.Proceed? {
        return;
      }
      signal, reply := Follow(Processes, lo, at, 5);
      if !signal.Proceed? {
        return;
      }
      signal, reply := Follow(SourceState, lo, at, 6);
    }

    method ReadTransport(ghost lo: nat, ghost at: nat) returns (signal: Signal)
      requires Tail(world, trace, lo, false) && Going(world, SafetyOps(), at, trace) && |trace| == at + 7
      modifies this`trace
      ensures old(trace) <= trace && Noting() == old(Noting()) && Tail(world, trace, lo, signal.Interrupted?)
      ensures if signal.Proceed? then Going(world, SafetyOps(), at, trace) && |trace| == at + 10
              else Broken(world, SafetyOps(), at, trace)
      ensures Cooperative(world) ==> signal.Proceed?
    {
      hide NotesOf, Tail, Cooperative, Fine, Going, Broken, SafetyOps;
      SafetyCount();
      var reply;
      signal, reply := Follow(MailboxEntries, lo, at, 7);
      if !signal.Proceed? {
        return;
      }
      signal, reply := Follow(BridgeHealthy, lo, at, 8);
      if !signal.Proceed? {
        return;
      }
      signal, reply := Follow(TransportProblems, lo, at, 9);
    }

    /** The part of `finally` after creation has started; returns whether it was cut short
        by an interruption. */
    method Restore() returns (cut: bool)
      requires opening.Some? && preexisting.Some? && rawFiles == Noting().raw
      modifies this`trace, this`rawFiles, this`problems, this`deleted
      modifies this`autoProven, this`inventoryRestored, this`fixtureRemoved
      ensures old(trace) + [ApplyMode(true)] <= trace && Tail(world, trace, old(|trace|), cut)
      ensures world(old(|trace|), ApplyMode(true)).Done? ==>
        old(trace) + [ApplyMode(true), CaptureStatus("RESTORE")] <= trace
      ensures Noting().creations == old(Noting()).creations && Noting().stops == old(Noting()).stops
      ensures Noting().deletions <= old(Noting()).deletions + Reverse(attempted)
      ensures !cut ==> Noting().deletions == old(Noting()).deletions + Reverse(attempted)
      ensures !cut && problems == old(problems) ==> deleted == old(deleted) + Reverse(attempted)
      ensures !cut ==> RestorationRan(world, trace, old(|trace|), attempted)
      ensures !cut && problems == old(problems) ==>
        RestorationClean(world, trace, old(|trace|), attempted, rawFiles, opening, preexisting,
                         autoProven, inventoryRestored, fixtureRemoved)
      ensures old(problems) <= problems && Kept(old(rawFiles), rawFiles) && rawFiles == Noting().raw
      ensures Cooperative(world) && opening == Some(TextOf(world)) && preexisting == Some(NamesOf(world)) ==>
        && !cut && problems == old(problems) && autoProven == Some(true)
        && inventoryRestored == Some(true) && fixtureRemoved == Some(true)
    {
      hide NotesOf, Tail, Reverse, Kept, Cooperative, Going, Broken, SafetyOps, ShowsPower, ShowsInventory;
      hide RestorationRan, RestorationClean, AllConfirmed, DeleteOps;
      SafetySize();
      ghost var start, lo := trace, |trace|;
      cut := RestoreAuto();
      if cut {
        return;
      }
      ghost var restored, proven := trace, problems == old(problems);
      cut := CleanupFixture();
      TailJoin(world, restored, trace, lo, cut);
      if cut {
        return;
      }
      ghost var cleaned := trace;
      var signal := ReadBackAll(lo);
      cut := signal.Interrupted?;
      RestorationJoin(world, start, trace, attempted);
      if problems == old(problems) && signal.Proceed? {
        CleanJoin(world, start, cleaned, trace, attempted, rawFiles, opening, preexisting,
                  autoProven, inventoryRestored, fixtureRemoved);
      }
      if signal.Problem? {
        problems := problems + ["Safety finalization: " + signal.text];
      }
    }

    method ReadBackAll(ghost lo: nat) returns (signal: Signal)
      requires opening.Some? && preexisting.Some? && Tail(world, trace, lo, false)
      modifies this`trace, this`inventoryRestored, this`fixtureRemoved
      ensures old(trace) <= trace && Noting() == old(Noting()) && Tail(world, trace, lo, signal.Interrupted?)
      ensures if signal.Proceed? then Going(world, SafetyOps(), old(|trace|), trace) && |trace| == old(|trace|) + 10
              else Broken(world, SafetyOps(), old(|trace|), trace)
      ensures signal.Proceed? ==>
        ShowsInventory(world, old(|trace|), opening, preexisting, inventoryRestored, fixtureRemoved)
      ensures Cooperative(world) && opening == Some(TextOf(world)) && preexisting == Some(NamesOf(world)) ==>
        signal.Proceed? && inventoryRestored == Some(true) && fixtureRemoved == Some(true)
    {
      hide NotesOf, Tail, Cooperative, Going, Broken, SafetyOps, ShowsInventory, TextOf, NamesOf;
      ghost var safety := |trace|;
      signal := ReadInventory(lo);
      if signal.Proceed? {
        signal := ReadSafety(lo, safety);
      }
    }

    /** The snapshot, if three captures count, nothing went wrong, and the gates open. */
    method Judge(scopeBuilds: bool, otherGates: bool) returns (ending: Ending)
      modifies this`problems
      ensures ending.Finished? && ending.snapshot ==>
        && problems == old(problems) == [] && |translated| == 3
        && ending.restoration.deleted == deleted && CleanupComplete(|names|, problems, ending.restoration)
      ensures ending.Finished? ==> ending.problems == problems
      ensures ending.Finished? ==>
        ending.restoration
        == Restoration(autoProven, inventoryRestored, fixtureRemoved, attempted, created, deleted)
      ensures ending.Finished? && !ending.snapshot && |translated| == 3 ==> problems != []
      ensures |translated| == 3 && old(problems) == [] && scopeBuilds && otherGates
        && CleanupComplete(|names|, [],
             Restoration(autoProven, inventoryRestored, fixtureRemoved, attempted, created, deleted))
        ==> ending.Finished? && ending.snapshot
    {
      var restoration := Restoration(autoProven, inventoryRestored, fixtureRemoved, attempted, created, deleted);
      var measured := |translated| == 3 && problems == [];
      if measured && !scopeBuilds {
        return Escaped;
      }
      var snapshot := measured && otherGates && CleanupComplete(|names|, problems, restoration);
      if measured && !snapshot {
        problems := problems + ["Qualification snapshot rejected"];
      }
      ending := Finished(problems, restoration, snapshot);
    }

    /** The body, and its `except`: any `Exception` becomes a problem. */
    method RunBody() returns (interrupted: bool, ghost asked: seq<Op>)
      requires Fresh()
      modifies this`trace, this`attempted, this`created, this`captures, this`translated, this`rawFiles
      modifies this`opening, this`preexisting, this`creationStarted, this`problems
      ensures names != [] && deleted == [] && InTurn(captures, translated, rawFiles)
      ensures Noting().raw == rawFiles && Noting().creations == attempted <= names
      ensures Noting().deletions == [] && Noting().stops == 0 && BodyRan(world, names, trace)
      ensures IsInstallation(asked) && Noting().steps <= asked + Measurements(3)
      ensures InstallFallback in asked ==> Noting().refused
      ensures !creationStarted ==> attempted == [] && (interrupted || problems != [])
      ensures !interrupted && problems == [] ==>
        && creationStarted && translated == Labels && created == attempted == names
        && Noting().steps == asked + Measurements(3)
        && Following(world, PlanOf(world, names), trace) && |trace| == |PlanOf(world, names)|
      ensures creationStarted ==>
        opening == Some(TextAt(world, 4, Fingerprint)) && preexisting == Some(NamesAt(world, 5, DeviceNames))
      ensures Favourable(world) ==>
        && !interrupted && problems == [] && creationStarted
        && opening == Some(TextOf(world)) && preexisting == Some(NamesOf(world))
    {
      hide PlanOf, Following, BodyRan, TextAt, NamesAt, Fresh, NotesOf, InTurn, Labels, TextOf, NamesOf;
      hide IsInstallation, Measurements, Favourable, OnPlan, OffPlan;
      var signal;
      signal, asked := Body();
      interrupted := signal.Interrupted?;
      if signal.Problem? {
        problems := problems + [signal.text];
      }
    }

    /** The `try` statement: the body, then restoration, and the stopping of the bridge. */
    method RunAndRestore() returns (escaped: bool, bodyEnd: nat, ghost asked: seq<Op>)
      requires Fresh()
      modifies this
      ensures bodyEnd < |trace| && NotesOf(world, trace[..bodyEnd]).deletions == []
      ensures NotesOf(world, trace[..bodyEnd]).creations == Noting().creations == attempted <= names
      ensures NotesOf(world, trace[..bodyEnd]).stops == 0
      ensures IsInstallation(asked) && NotesOf(world, trace[..bodyEnd]).steps <= asked + Measurements(3)
      ensures InstallFallback in asked ==> NotesOf(world, trace[..bodyEnd]).refused
      ensures creationStarted ==> trace[..bodyEnd] + [ApplyMode(true)] <= trace
      ensures creationStarted && world(bodyEnd, ApplyMode(true)).Done? ==>
        trace[..bodyEnd] + [ApplyMode(true), CaptureStatus("RESTORE")] <= trace
      ensures Noting().deletions <= Reverse(attempted)
      ensures Uninterrupted(world, trace, bodyEnd) ==> Noting().deletions == Reverse(attempted)
      ensures Noting().stops == if Uninterrupted(world, trace, bodyEnd) then 1 else 0
      ensures CutAtEnd(world, trace, bodyEnd) && (!Calm(world, trace, bodyEnd) ==> escaped)
      ensures Favourable(world) ==> creationStarted && attempted == names
      ensures !creationStarted ==> attempted == [] && trace == trace[..bodyEnd] + [StopBridge]
      ensures BodyRan(world, names, trace[..bodyEnd])
      ensures creationStarted && Uninterrupted(world, trace, bodyEnd) ==>
        trace[|trace| - 1] == StopBridge && RestorationRan(world, trace[..|trace| - 1], bodyEnd, attempted)
      ensures !escaped && problems == [] ==>
        RunClean(world, names, trace, rawFiles, autoProven, inventoryRestored, fixtureRemoved)
      ensures InTurn(captures, translated, rawFiles) && rawFiles == Noting().raw
      ensures !escaped && problems == [] ==>
        && translated == Labels && NotesOf(world, trace[..bodyEnd]).steps == asked + Measurements(3)
        && attempted == created == names && deleted == Reverse(names)
      ensures Cooperative(world) ==>
        && !escaped && problems == [] && autoProven == Some(true)
        && inventoryRestored == Some(true) && fixtureRemoved == Some(true)
    {
      hide Orderly, PlanOf, Following, Halted, OnPlan, OffPlan, BodyRan, RestorationRan, RestorationClean;
      hide RunClean, TextAt, NamesAt, Fresh;
      hide NotesOf, Calm, CutAtEnd, Uninterrupted, InTurn, Labels, TextOf, NamesOf, IsInstallation;
      hide Reverse, AttemptedInOrder, Kept, Measurements, Cooperative, Favourable;
      escaped, asked := RunBody();
      bodyEnd := |trace|;
      ghost var body, files := trace, rawFiles;
      FavourableWorks(world, 0, StopBridge);
      var cut := Finish();
      KeptInTurn(captures, translated, files, rawFiles);
      assert trace[..bodyEnd] == body;
      escaped := escaped || cut;
      if !escaped && problems == [] {
        RunIsClean(world, names, trace, rawFiles, opening, preexisting, autoProven, inventoryRestored, fixtureRemoved);
      }
    }

    /** The whole `finally`: restoration if creation has started, then the bridge. */
    method Finish() returns (cut: bool)
      requires rawFiles == Noting().raw
      requires if creationStarted then opening.Some? && preexisting.Some? else attempted == []
      modifies this`trace, this`rawFiles, this`problems, this`deleted
      modifies this`autoProven, this`inventoryRestored, this`fixtureRemoved
      ensures creationStarted ==> old(trace) + [ApplyMode(true)] <= trace
      ensures creationStarted && world(old(|trace|), ApplyMode(true)).Done? ==>
        old(trace) + [ApplyMode(true), CaptureStatus("RESTORE")] <= trace
      ensures !creationStarted ==> trace == old(trace) + [StopBridge]
      ensures Noting().creations == old(Noting()).creations
      ensures Noting().deletions <= old(Noting()).deletions + Reverse(attempted)
      ensures Uninterrupted(world, trace, old(|trace|)) ==>
        Noting().deletions == old(Noting()).deletions + Reverse(attempted)
      ensures Noting().stops == old(Noting()).stops + if Uninterrupted(world, trace, old(|trace|)) then 1 else 0
      ensures CutAtEnd(world, trace, old(|trace|)) && (cut <==> !Calm(world, trace, old(|trace|)))
      ensures creationStarted && !cut && problems == old(problems) ==> deleted == old(deleted) + Reverse(attempted)
      ensures creationStarted && Uninterrupted(world, trace, old(|trace|)) ==>
        && trace[|trace| - 1] == StopBridge
        && RestorationRan(world, trace[..|trace| - 1], old(|trace|), attempted)
      ensures creationStarted && !cut && problems == old(problems) ==>
        && Uninterrupted(world, trace, old(|trace|)) && world(|trace| - 1, StopBridge).Done?
        && RestorationClean(world, trace[..|trace| - 1], old(|trace|), attempted, rawFiles, opening, preexisting,
                            autoProven, inventoryRestored, fixtureRemoved)
      ensures old(problems) <= problems && Kept(old(rawFiles), rawFiles) && rawFiles == Noting().raw
      ensures Cooperative(world) && creationStarted
              && opening == Some(TextOf(world)) && preexisting == Some(NamesOf(world)) ==>
        && !cut && problems == old(problems) && autoProven == Some(true)
        && inventoryRestored == Some(true) && fixtureRemoved == Some(true)
    {
      hide NotesOf, Tail, Calm, CutAtEnd, Uninterrupted, Kept, Cooperative, RestorationRan, RestorationClean;
      hide Reverse, TextOf, NamesOf;
      ReverseNothing();
      ghost var lo := |trace|;
      TailStarts(world, trace);
      KeptItself(rawFiles);
      cut := false;
      if creationStarted {
        cut := Restore();
      }
      EndOfRun(world, trace, lo, cut);
      ghost var restored := trace;
      if !cut {
        cut := StopControlBridge();
        assert trace[..|trace| - 1] == restored;
      }
    }

    method StopControlBridge() returns (cut: bool)
      modifies this`trace, this`problems
      ensures trace == old(trace) + [StopBridge] && Noting() == old(Noting()).(stops := old(Noting()).stops + 1)
      ensures old(problems) <= problems && (cut <==> world(old(|trace|), StopBridge).Interrupts?)
      ensures !cut && problems == old(problems) ==> world(old(|trace|), StopBridge).Done?
      ensures Cooperative(world) ==> !cut && problems == old(problems)
    {
      hide NotesOf, Noted, Cooperative, Favourable, Fine;
      FavourableWorks(world, |trace|, StopBridge);
      StopNotes(Noting(), world(|trace|, StopBridge));
      var signal, reply := Do(StopBridge);
      if signal.Problem? {
        problems := problems + ["Control bridge shutdown: " + signal.text];
      }
      cut := signal.Interrupted?;
    }

    /** `execute_governed_qualification` once its entry checks have passed. `bodyEnd` is the
        number of operations of the `try` body, and `asked` the installations it asked for.
        The scope is built outside any `try`; the gates behind the first one are given. */
    method Execute(scopeBuilds: bool, otherGates: bool) returns (ending: Ending, bodyEnd: nat, ghost asked: seq<Op>)
      requires Fresh()
      modifies this
      ensures bodyEnd < |trace| && NotesOf(world, trace[..bodyEnd]).deletions == []
      ensures NotesOf(world, trace[..bodyEnd]).creations == Noting().creations == attempted <= names
      ensures NotesOf(world, trace[..bodyEnd]).stops == 0
      // Mutations and measurements come in their order, each at most once, and the fallback
      // only after the module's own operation was natively refused.
      ensures IsInstallation(asked) && NotesOf(world, trace[..bodyEnd]).steps <= asked + Measurements(3)
      ensures InstallFallback in asked ==> NotesOf(world, trace[..bodyEnd]).refused
      // Restoring AUTO is the first thing attempted once creation has started, and it is read back.
      ensures creationStarted ==> trace[..bodyEnd] + [ApplyMode(true)] <= trace
      ensures creationStarted && world(bodyEnd, ApplyMode(true)).Done? ==>
        trace[..bodyEnd] + [ApplyMode(true), CaptureStatus("RESTORE")] <= trace
      // The devices creation was asked for are deleted, last first; all of them iff nothing was
      // interrupted before the last was asked for. The bridge is stopped iff nothing was before
      // that, and then once.
      ensures Noting().deletions <= Reverse(attempted)
      ensures Noting().deletions == Reverse(attempted) <==> Late(world, trace, bodyEnd, |attempted|)
      ensures Uninterrupted(world, trace, bodyEnd) ==> Noting().deletions == Reverse(attempted)
      ensures Noting().stops == if Uninterrupted(world, trace, bodyEnd) then 1 else 0
      // An interruption of the restoration ends the run and leaves it.
      ensures CutAtEnd(world, trace, bodyEnd) && (!Calm(world, trace, bodyEnd) ==> ending.Escaped?)
      ensures !creationStarted ==> attempted == [] && trace == trace[..bodyEnd] + [StopBridge]
      // The raw files are the first readings of their names, of every capture there was.
      ensures rawFiles == Noting().raw && InTurn(captures, translated, rawFiles)
      ensures ending.Finished? && ending.snapshot ==>
        && problems == [] && translated == Labels && NotesOf(world, trace[..bodyEnd]).steps == asked + Measurements(3)
        && CleanupComplete(|names|, problems, ending.restoration)
        && attempted == names && ending.restoration.deleted == Reverse(names)
      // The body ran through its plan up to the first check that failed, and an uninterrupted
      // restoration through its own, whatever failed in it; a snapshot needs all of both.
      ensures BodyRan(world, names, trace[..bodyEnd])
      ensures creationStarted && Uninterrupted(world, trace, bodyEnd) ==>
        trace[|trace| - 1] == StopBridge && RestorationRan(world, trace[..|trace| - 1], bodyEnd, attempted)
      ensures ending.Finished? && ending.snapshot ==> SnapshotEarned(world, names, trace, rawFiles)
      // Where everything works there is a snapshot.
      ensures Favourable(world) ==> creationStarted && attempted == names
      ensures Cooperative(world) && Distinct(names) && scopeBuilds && otherGates ==> ending.Finished? && ending.snapshot
    {
      hide NotesOf, Calm, CutAtEnd, Uninterrupted, Late, PlanOf, Following, BodyRan, RestorationRan, RunClean;
      hide SnapshotEarned, Reverse, InTurn, CleanupComplete, Measurements, Cooperative, Favourable;
      var escaped;
      escaped, bodyEnd, asked := RunAndRestore();
      DeletedIffLate(world, trace, bodyEnd, attempted);
      if escaped {
        ending := Escaped;
      } else {
        if problems == [] && Distinct(names) {
          CleanedUp(autoProven, inventoryRestored, fixtureRemoved, names);
        }
        ending := Judge(scopeBuilds, otherGates);
        if ending.Finished? && ending.snapshot {
          GateFlags(|names|, problems, ending.restoration);
          SnapshotJoin(world, names, trace, rawFiles);
        }
      }
    }
  }

  lemma FineReading(world: World, op: Op, r: Reply)
    requires Fine(world, op, r)
    ensures r.reading.complete && r.reading.translates
  {
  }

  lemma {:induction false} ReverseMembers(s: seq<string>)
    ensures |Reverse(s)| == |s| && SameMembers(Reverse(s), s)
  {
    if s != [] {
      var n := |s| - 1;
      ReverseMembers(s[..n]);
      assert s == s[..n] + [s[n]];
    }
  }

  lemma CleanedUp(
    autoProven: Option<bool>, inventoryRestored: Option<bool>, fixtureRemoved: Option<bool>, names: seq<string>)
    requires Distinct(names)
    ensures autoProven == inventoryRestored == fixtureRemoved == Some(true) ==>
      CleanupComplete(|names|, [],
        Restoration(autoProven, inventoryRestored, fixtureRemoved, names, names, Reverse(names)))
  {
    ReverseMembers(names);
  }

  // ----- Two runs -----

  const FineReply: Reply := Reply(true, Some(true), "", {}, Reading("file", "raw", true, true, true, true))

  /** Everything works, except that the readback of the restored power may be interrupted. */
  function Session(interrupting: bool): World {
    (k: nat, op: Op) => if interrupting && op == CaptureStatus("RESTORE") then Interrupts else Done(FineReply)
  }

  lemma SessionWorks(interrupting: bool)
    ensures Favourable(Session(interrupting)) && (!interrupting ==> Cooperative(Session(interrupting)))
    ensures forall k: nat :: Session(interrupting)(k, ApplyMode(true)).Done?
    ensures forall k: nat :: Session(true)(k, CaptureStatus("RESTORE")).Interrupts?
  {
    FavouredBy(Session(interrupting));
    hide FineReply, Favourable;
  }

  lemma FavouredBy(world: World)
    requires forall k, op | op != CaptureStatus("RESTORE") :: world(k, op) == Done(FineReply)
    requires forall k, op :: world(k, op) == Interrupts || world(k, op) == Done(FineReply)
    ensures Favourable(world)
    ensures (forall k, op :: world(k, op) == Done(FineReply)) ==> Cooperative(world)
  {
    FineReplies(world);
    hide FineReply, Fine;
  }

  lemma FineReplies(world: World)
    requires world(0, Fingerprint) == world(0, DeviceNames) == Done(FineReply)
    ensures forall op :: Fine(world, op, FineReply)
  {
  }

  /** A qualification in a session where everything works yields its snapshot, and every
      device it created is deleted. */
  method UndisturbedRun(names: seq<string>) returns (run: Run, ending: Ending)
    requires names != [] && Distinct(names)
    ensures run.names == names && run.world == Session(false)
    ensures ending.Finished? && ending.snapshot
    ensures run.Noting().creations == names && run.Noting().deletions == Reverse(names) && run.Noting().stops == 1
  {
    hide Favourable, Cooperative, Session, NotesOf, Calm, CutAtEnd, Late, Uninterrupted, Measurements;
    hide Reverse, InTurn, IsInstallation, CleanupComplete, Labels;
    SessionWorks(false);
    run := new Run(Session(false), names);
    var bodyEnd;
    ghost var asked;
    ending, bodyEnd, asked := run.Execute(true, true);
    CalmIsUninterrupted(run.world, run.trace, bodyEnd);
  }

  /** An interruption while the restored power is read back leaves every device that was
      created in place and the bridge running. */
  method InterruptedReadback(names: seq<string>) returns (run: Run, ending: Ending)
    requires names != []
    ensures run.names == names && run.world == Session(true) && ending.Escaped?
    ensures run.Noting().creations == names && run.Noting().deletions == [] && run.Noting().stops == 0
  {
    hide Favourable, Cooperative, Session, NotesOf, Calm, CutAtEnd, Late, Uninterrupted, Measurements;
    hide Reverse, InTurn, IsInstallation, CleanupComplete, Labels;
    SessionWorks(true);
    run := new Run(Session(true), names);
    var bodyEnd;
    ghost var asked;
    ending, bodyEnd, asked := run.Execute(true, true);
    CutReadback(run.world, run.trace, bodyEnd);
  }

  lemma CutReadback(world: World, trace: seq<Op>, lo: nat)
    requires lo < |trace| && CutAtEnd(world, trace, lo)
    requires trace[..lo] + [ApplyMode(true), CaptureStatus("RESTORE")] <= trace
    requires world(lo + 1, CaptureStatus("RESTORE")).Interrupts?
    ensures Untouched(NotesOf(world, trace[..lo]), NotesOf(world, trace))
    ensures !Calm(world, trace, lo)
  {
    var body := trace[..lo];
    EndsInReadback(world, trace, body);
    hide NotesOf, Noted;
    NotesAppend(world, body, ApplyMode(true));
    NotesAppend(world, body + [ApplyMode(true)], CaptureStatus("RESTORE"));
    StepNotes(NotesOf(world, body), ApplyMode(true), world(lo, ApplyMode(true)));
    StepNotes(NotesOf(world, body + [ApplyMode(true)]), CaptureStatus("RESTORE"),
              world(lo + 1, CaptureStatus("RESTORE")));
  }

  lemma EndsInReadback(world: World, trace: seq<Op>, body: seq<Op>)
    requires CutAtEnd(world, trace, |body|) && body + [ApplyMode(true), CaptureStatus("RESTORE")] <= trace
    requires world(|body| + 1, CaptureStatus("RESTORE")).Interrupts?
    ensures trace == body + [ApplyMode(true)] + [CaptureStatus("RESTORE")]
    ensures !Calm(world, trace, |body|)
  {
    assert trace[|body|] == ApplyMode(true) && trace[|body| + 1] == CaptureStatus("RESTORE");
  }
}
