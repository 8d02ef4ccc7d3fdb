/** One configuration stage: a first application, at most one governed second one, and the
    acceptance of the last. */
module ConfigurationStage {
  import opened Outcomes
  import opened Sequences
  import opened DhcpReassertion

  /** A call that returns, or raises an exception rendered as `Type: text`. */
  datatype Answer<+T> = Gives(value: T) | Throws(rendered: string)

  /** A scope computation may also raise `ValueError`, whose bare text is recorded. */
  datatype ScopeAnswer = InScope(scope: Scope) | OutOfScope(text: string) | ScopeThrows(rendered: string)

  /** What an application is asked to do. */
  datatype Request = Request(ids: seq<Id>, retained: seq<ActionResult>, deferred: seq<Id>)

  /** The stage's inputs and the answers of everything it calls. Each function also gets the
      number of the attempt it is about, so equal results may be judged differently. */
  datatype Stage = Stage(
    mutationIds: seq<Id>, previous: seq<ActionResult>,
    applicator: (nat, Request) -> Answer<Application>,
    contradicts: (nat, Application) -> Answer<string>,
    endpointRetry: Application -> Answer<bool>,
    endpointScope: Application -> ScopeAnswer,
    serialReady: Answer<bool>,
    acceptance: (nat, Application) -> Answer<string>,
    retry: Application -> Answer<bool>,
    rereadScope: Application -> ScopeAnswer)

  datatype RereadReport = RereadReport(
    mutationFree: bool, ids: seq<Id>, retained: seq<Id>, deferred: seq<Id>, error: string)

  datatype StageResult = StageResult(
    configuration: Option<Application>, attempts: seq<Application>, accepted: bool,
    contradictions: seq<string>, serial: Option<bool>, reread: Option<RereadReport>,
    acceptanceError: Option<string>, error: string)

  // ----- What the stage must do -----

  function FirstRequest(s: Stage): Request {
    Request(s.mutationIds, s.previous, [])
  }

  function First(s: Stage): Answer<Application> {
    s.applicator(0, FirstRequest(s))
  }

  /** The first application returned, and whether it contradicted the plan is known. */
  predicate Judged(s: Stage) {
    First(s).Gives? && s.contradicts(0, First(s).value).Gives?
  }

  predicate Contradicted(s: Stage) {
    Judged(s) && s.contradicts(0, First(s).value).value != ""
  }

  function BarrierIds(app: Application, active: bool): seq<Id> {
    if app.barrier.Some? && active then app.barrier.value.deferredIds else []
  }

  function ReassertionDeferred(app: Application): seq<Id> {
    BarrierIds(app, app.barrier.Some? && app.barrier.value.required)
  }

  function RereadDeferred(app: Application): seq<Id> {
    BarrierIds(app, app.barrier.Some? && app.barrier.value.signal.Intended?)
  }

  /** A contradicted first attempt that the endpoint policy wants to retry, with a scope. */
  predicate Reasserts(s: Stage) {
    && Contradicted(s)
    && s.endpointRetry(First(s).value) == Gives(true)
    && s.endpointScope(First(s).value).InScope?
  }

  /** A first attempt without contradiction, with its serial links up, that is not accepted
      and that the retry policy wants to read again, with a scope. */
  predicate Rereads(s: Stage) {
    && Judged(s) && !Contradicted(s) && s.serialReady == Gives(true)
    && s.acceptance(0, First(s).value).Gives? && s.acceptance(0, First(s).value).value != ""
    && s.retry(First(s).value) == Gives(true)
    && s.rereadScope(First(s).value).InScope?
  }

  function SecondRequest(s: Stage): Request
    requires Reasserts(s) || Rereads(s)
  {
    var app := First(s).value;
    if Reasserts(s) then
      var scope := s.endpointScope(app).scope;
      Request(scope.ids, scope.retained, ReassertionDeferred(app))
    else
      var scope := s.rereadScope(app).scope;
      Request(scope.ids, scope.retained, RereadDeferred(app))
  }

  function Requests(s: Stage): seq<Request> {
    [FirstRequest(s)] + if Reasserts(s) || Rereads(s) then [SecondRequest(s)] else []
  }

  function Second(s: Stage): Answer<Application>
    requires Reasserts(s) || Rereads(s)
  {
    s.applicator(1, SecondRequest(s))
  }

  /** The results of the applications that returned. */
  function Attempts(s: Stage): seq<Application> {
    (if First(s).Gives? then [First(s).value] else [])
    + if (Reasserts(s) || Rereads(s)) && Second(s).Gives? then [Second(s).value] else []
  }

  predicate CleanAt(s: Stage, attempt: nat, app: Application) {
    s.contradicts(attempt, app) == Gives("") && s.acceptance(attempt, app) == Gives("")
  }

  /** Everything went well: the last application contradicts nothing, the serial links are
      up, and the application is accepted. */
  predicate Completes(s: Stage) {
    && First(s).Gives? && s.serialReady == Gives(true)
    && if Reasserts(s) || Rereads(s) then Second(s).Gives? && CleanAt(s, 1, Second(s).value)
       else CleanAt(s, 0, First(s).value)
  }

  /** A scope that was asked for and is out of bounds. */
  function Refused(s: Stage): Option<string> {
    if !Judged(s) then None
    else
      var app := First(s).value;
      if Contradicted(s) then
        if s.endpointRetry(app) == Gives(true) && s.endpointScope(app).OutOfScope?
        then Some(s.endpointScope(app).text) else None
      else if s.serialReady == Gives(true) && s.acceptance(0, app).Gives? && s.acceptance(0, app).value != ""
              && s.retry(app) == Gives(true) && s.rereadScope(app).OutOfScope? then Some(s.rereadScope(app).text)
      else None
  }

  /** The stage stops at such a scope, with an empty explanation. */
  predicate StopsSilently(s: Stage) {
    Refused(s) == Some("")
  }

  /** What the report says about a second application. */
  function SecondReport(s: Stage): Option<RereadReport> {
    if Reasserts(s) || Rereads(s) then
      var second := SecondRequest(s);
      Some(RereadReport(Rereads(s) && second.ids == [], second.ids, ResultIds(second.retained), second.deferred, ""))
    else match Refused(s)
         case None => None
         case Some(text) => Some(RereadReport(false, [], [], [], text))
  }

  /** Exceptions other than the stage's own are rendered with their type. */
  ghost predicate Rendered(s: Stage) {
    && (forall k, r :: s.applicator(k, r).Throws? ==> s.applicator(k, r).rendered != "")
    && (forall k, a :: s.contradicts(k, a).Throws? ==> s.contradicts(k, a).rendered != "")
    && (forall k, a :: s.acceptance(k, a).Throws? ==> s.acceptance(k, a).rendered != "")
    && (forall a :: s.endpointRetry(a).Throws? ==> s.endpointRetry(a).rendered != "")
    && (forall a :: s.endpointScope(a).ScopeThrows? ==> s.endpointScope(a).rendered != "")
    && (forall a :: s.retry(a).Throws? ==> s.retry(a).rendered != "")
    && (forall a :: s.rereadScope(a).ScopeThrows? ==> s.rereadScope(a).rendered != "")
    && (s.serialReady.Throws? ==> s.serialReady.rendered != "")
  }

  lemma ReassertedSettles(s: Stage, app: Application)
    requires Reasserts(s) && Second(s) == Gives(app) && s.contradicts(1, app) == Gives("")
    requires s.serialReady == Gives(true)
    ensures Completes(s) <==> s.acceptance(1, app) == Gives("")
    ensures !StopsSilently(s) && |Attempts(s)| == 2 && Attempts(s)[1] == app
  {
  }

  lemma FirstSettles(s: Stage, app: Application)
    requires First(s) == Gives(app) && Judged(s) && !Contradicted(s) && s.serialReady == Gives(true)
    requires s.acceptance(0, app).Throws? || s.acceptance(0, app).value == ""
    ensures Completes(s) <==> s.acceptance(0, app) == Gives("")
    ensures !StopsSilently(s) && Requests(s) == [FirstRequest(s)] && Attempts(s) == [app] && SecondReport(s) == None
  {
    assert !Reasserts(s) && !Rereads(s);
  }

  lemma RereadSettles(s: Stage, app: Application)
    requires First(s) == Gives(app) && Judged(s) && !Contradicted(s) && s.serialReady == Gives(true)
    requires s.acceptance(0, app).Gives? && s.acceptance(0, app).value != ""
    ensures Completes(s) <==> Rereads(s) && Second(s).Gives? && CleanAt(s, 1, Second(s).value)
  {
  }

  // ----- The stage -----

  /** `CPScaleConfigurationStage.execute`. The fields are the locals its parts share. */
  class Execution {
    const stage: Stage
    var requests: seq<Request>
    var attempts: seq<Application>
    var contradictions: seq<string>
    var serial: Option<bool>
    var reread: Option<RereadReport>
    var acceptanceError: Option<string>

    constructor (stage: Stage)
      ensures this.stage == stage && requests == [] && attempts == [] && contradictions == []
      ensures serial == None && reread == None && acceptanceError == None
    {
      this.stage := stage;
      requests, attempts, contradictions := [], [], [];
      serial, reread, acceptanceError := None, None, None;
    }

    /** Each attempt was judged as recorded, but perhaps the last, where judging raised. */
    ghost predicate Told()
      reads this`contradictions, this`attempts
    {
      && |contradictions| <= |attempts| <= |contradictions| + 1
      && (forall k | 0 <= k < |contradictions| :: stage.contradicts(k, attempts[k]) == Gives(contradictions[k]))
      && (|contradictions| < |attempts| ==>
            stage.contradicts(|contradictions|, attempts[|contradictions|]).Throws?)
    }

    /** The nested `apply`; an error is what stops the stage. */
    method Apply(request: Request, allowContradiction: bool) returns (r: Result<Application, string>)
      requires |requests| == |attempts| == |contradictions| && Told()
      modifies this`requests, this`attempts, this`contradictions
      ensures Told() && (r.Ok? ==> |contradictions| == |attempts|)
      ensures requests == old(requests) + [request]
      ensures var answer := stage.applicator(old(|attempts|), request);
        && attempts == old(attempts) + (if answer.Gives? then [answer.value] else [])
        && match answer
           case Throws(rendered) => r == Err(rendered) && contradictions == old(contradictions)
           case Gives(app) =>
             match stage.contradicts(old(|attempts|), app)
             case Throws(rendered) => r == Err(rendered) && contradictions == old(contradictions)
             case Gives(contradiction) =>
               && contradictions == old(contradictions) + [contradiction]
               && (contradiction == "" || allowContradiction ==> r == Ok(app))
               && (contradiction != "" && !allowContradiction ==> r.Err? && r.error != "")
    {
      var attempt := |attempts|;
      requests := requests + [request];
      var answer := stage.applicator(attempt, request);
      if answer.Throws? {
        return Err(answer.rendered);
      }
      attempts := attempts + [answer.value];
      var contradiction := stage.contradicts(attempt, answer.value);
      if contradiction.Throws? {
        return Err(contradiction.rendered);
      }
      contradictions := contradictions + [contradiction.value];
      if contradiction.value != "" && !allowContradiction {
        var again := if |attempts| > 1 && request.ids != [] then " reassertion"
                     else if |attempts| > 1 then " re-read" else "";
        return Err("Configuration" + again + " contradicted the plan: " + contradiction.value);
      }
      r := Ok(answer.value);
    }

    /** The first application and, if it contradicted the plan, its reassertion. */
    method ApplyAndReassert() returns (r: Result<Application, string>, reasserted: bool)
      requires requests == [] && attempts == [] && contradictions == [] && reread == None
      modifies this`requests, this`attempts, this`contradictions, this`reread
      ensures reread == if Contradicted(stage) then SecondReport(stage) else None
      ensures requests == [FirstRequest(stage)] + if Reasserts(stage) then [SecondRequest(stage)] else []
      ensures attempts == (if First(stage).Gives? then [First(stage).value] else [])
                          + if Reasserts(stage) && Second(stage).Gives? then [Second(stage).value] else []
      ensures reasserted ==> Reasserts(stage)
      ensures Told()
      ensures r.Ok? <==>
        if Reasserts(stage) then Second(stage).Gives? && stage.contradicts(1, Second(stage).value) == Gives("")
        else Judged(stage) && !Contradicted(stage)
      ensures r.Ok? ==> attempts != [] && r.value == attempts[|attempts| - 1] && reasserted == Reasserts(stage)
      ensures r.Ok? ==> |contradictions| == |attempts| && contradictions[|attempts| - 1] == ""
      ensures Rendered(stage) ==> (r == Err("") <==> Contradicted(stage) && StopsSilently(stage))
    {
      reasserted := false;
      r := Apply(FirstRequest(stage), true);
      if r.Err? || contradictions[|contradictions| - 1] == "" {
        return;
      }
      var app := r.value;
      var wanted := stage.endpointRetry(app);
      if wanted.Throws? {
        return Err(wanted.rendered), false;
      }
      if !wanted.value {
        return Err("Configuration contradicted the plan: " + contradictions[|contradictions| - 1]), false;
      }
      var answer := stage.endpointScope(app);
      match answer {
        case ScopeThrows(rendered) =>
          return Err(rendered), false;
        case OutOfScope(text) =>
          reread := Some(RereadReport(false, [], [], [], text));
          return Err(text), false;
        case InScope(scope) =>
          var deferred := if app.barrier.Some? && app.barrier.value.required then app.barrier.value.deferredIds else [];
          reread := Some(RereadReport(false, scope.ids, ResultIds(scope.retained), deferred, ""));
          r := Apply(Request(scope.ids, scope.retained, deferred), false);
          reasserted := r.Ok?;
      }
    }

    /** The mutation-free second application of an attempt that is not accepted yet. */
    method Reread(app: Application, candidateError: string) returns (r: Result<string, string>)
      requires requests == [FirstRequest(stage)] && attempts == [app] && First(stage) == Gives(app)
      requires Judged(stage) && !Contradicted(stage) && stage.serialReady == Gives(true)
      requires stage.acceptance(0, app) == Gives(candidateError) && candidateError != "" && reread == None
      requires |contradictions| == 1 && Told()
      modifies this`requests, this`attempts, this`contradictions, this`reread
      ensures requests == Requests(stage) && attempts == Attempts(stage) && reread == SecondReport(stage)
      ensures Told()
      ensures r.Ok? ==>
        attempts != [] && stage.acceptance(|attempts| - 1, attempts[|attempts| - 1]) == Gives(r.value)
      ensures r.Ok? && r.value == "" <==>
              Rereads(stage) && Second(stage).Gives? && CleanAt(stage, 1, Second(stage).value)
      ensures Rendered(stage) ==> (r == Err("") <==> StopsSilently(stage))
    {
      var wanted := stage.retry(app);
      if wanted.Throws? {
        return Err(wanted.rendered);
      }
      if !wanted.value {
        return Ok(candidateError);
      }
      var answer := stage.rereadScope(app);
      match answer {
        case ScopeThrows(rendered) =>
          return Err(rendered);
        case OutOfScope(text) =>
          reread := Some(RereadReport(false, [], [], [], text));
          return Err(text);
        case InScope(scope) =>
          var deferred := if app.barrier.Some? && app.barrier.value.signal.Intended?
                          then app.barrier.value.deferredIds else [];
          reread := Some(RereadReport(scope.ids == [], scope.ids, ResultIds(scope.retained), deferred, ""));
          var again := Apply(Request(scope.ids, scope.retained, deferred), false);
          if again.Err? {
            return Err(again.error);
          }
          var error := stage.acceptance(1, again.value);
          if error.Throws? {
            return Err(error.rendered);
          }
          r := Ok(error.value);
      }
    }

    /** The body of the `try`; returns the error that is recorded. */
    method Steps() returns (error: string)
      requires requests == [] && attempts == [] && contradictions == [] && reread == None
      requires serial == None && acceptanceError == None
      modifies this
      ensures Told() && (serial.Some? ==> stage.serialReady == Gives(serial.value))
      ensures acceptanceError.Some? ==>
        && attempts != [] && serial == Some(true)
        && stage.acceptance(|attempts| - 1, attempts[|attempts| - 1]) == Gives(acceptanceError.value)
      ensures error == "" && acceptanceError != Some("") && Rendered(stage) ==> StopsSilently(stage)
      ensures reread == SecondReport(stage)
      ensures requests == Requests(stage) && attempts == Attempts(stage)
      ensures Rendered(stage) ==> (error == "" <==> Completes(stage) || StopsSilently(stage))
    {
      var applied, reasserted := ApplyAndReassert();
      if applied.Err? {
        return applied.error;
      }
      if stage.serialReady.Throws? {
        return stage.serialReady.rendered;
      }
      serial := Some(stage.serialReady.value);
      if !stage.serialReady.value {
        return "Serial interfaces lost up/up convergence.";
      }
      error := Settle(applied.value, reasserted);
    }

    /** The acceptance of what was applied, and the rereading of it. */
    method Settle(app: Application, reasserted: bool) returns (error: string)
      requires stage.serialReady == Gives(true) && serial == Some(true) && acceptanceError == None
      requires Told() && |contradictions| == |attempts|
      requires if Reasserts(stage) then
                 && reasserted && requests == Requests(stage) && attempts == Attempts(stage)
                 && reread == SecondReport(stage) && Second(stage) == Gives(app)
                 && stage.contradicts(1, app) == Gives("")
               else
                 && !reasserted && requests == [FirstRequest(stage)] && attempts == [app] && reread == None
                 && First(stage) == Gives(app) && Judged(stage) && !Contradicted(stage)
      modifies this
      ensures reread == SecondReport(stage) && serial == old(serial)
      ensures requests == Requests(stage) && attempts == Attempts(stage)
      ensures Told()
      ensures acceptanceError.Some? ==>
        && attempts != []
        && stage.acceptance(|attempts| - 1, attempts[|attempts| - 1]) == Gives(acceptanceError.value)
      ensures error == "" && acceptanceError != Some("") && Rendered(stage) ==> StopsSilently(stage)
      ensures Rendered(stage) ==> (error == "" <==> Completes(stage) || StopsSilently(stage))
    {
      hide Reasserts, Rereads, Completes, StopsSilently, SecondReport, Requests, Attempts, Second, First, Judged;
      hide Contradicted, CleanAt, Told;
      if reasserted {
        ReassertedSettles(stage, app);
      } else if stage.acceptance(0, app).Throws? || stage.acceptance(0, app).value == "" {
        FirstSettles(stage, app);
      } else {
        RereadSettles(stage, app);
      }
      var candidateError := stage.acceptance(|attempts| - 1, app);
      if candidateError.Throws? {
        return candidateError.rendered;
      }
      var lastError := candidateError.value;
      if candidateError.value != "" && !reasserted {
        var again := Reread(app, candidateError.value);
        if again.Err? {
          return again.error;
        }
        lastError := again.value;
      }
      acceptanceError := Some(lastError);
      if lastError != "" {
        return "Configuration exceeded its governed observability envelope: " + lastError;
      }
      error := "";
    }

    /** At most two applications are made: the second is the reassertion of a contradicted
        first one, or the rereading of an unaccepted one. `accepted` means that no error was
        recorded. */
    method Execute() returns (r: StageResult)
      requires requests == [] && attempts == [] && contradictions == [] && reread == None
      requires serial == None && acceptanceError == None
      modifies this
      ensures r.reread == SecondReport(stage)
      ensures requests == Requests(stage) && r.attempts == attempts == Attempts(stage)
      ensures r.configuration == if attempts == [] then None else Some(attempts[|attempts| - 1])
      ensures r.accepted <==> r.error == ""
      ensures Rendered(stage) ==> (r.accepted <==> Completes(stage) || StopsSilently(stage))
      // What it reports is what it was told.
      ensures |r.contradictions| <= |r.attempts|
        && forall k | 0 <= k < |r.contradictions| ::
             stage.contradicts(k, r.attempts[k]) == Gives(r.contradictions[k])
      ensures |r.contradictions| < |r.attempts| ==>
        |r.contradictions| == |r.attempts| - 1
        && stage.contradicts(|r.contradictions|, r.attempts[|r.contradictions|]).Throws?
      ensures r.serial.Some? ==> stage.serialReady == Gives(r.serial.value)
      ensures r.acceptanceError.Some? ==>
        && r.attempts != [] && r.serial == Some(true)
        && stage.acceptance(|r.attempts| - 1, r.attempts[|r.attempts| - 1]) == Gives(r.acceptanceError.value)
      ensures r.accepted && !StopsSilently(stage) && Rendered(stage) ==> r.acceptanceError == Some("")
    {
      var error := Steps();
      r := StageResult(
        if attempts == [] then None else Some(attempts[|attempts| - 1]), attempts, error == "",
        contradictions, serial, reread, acceptanceError, error);
    }
  }

  // ----- The stage told from its answers -----

  /** The first application is asked for everything, and returned `app`. */
  predicate Applied(s: Stage, app: Application) {
    s.applicator(0, Request(s.mutationIds, s.previous, [])) == Gives(app)
  }

  predicate AsksReassertion(s: Stage, app: Application) {
    s.contradicts(0, app).Gives? && s.contradicts(0, app).value != "" && s.endpointRetry(app) == Gives(true)
  }

  predicate AsksReread(s: Stage, app: Application) {
    && s.contradicts(0, app) == Gives("") && s.serialReady == Gives(true)
    && s.acceptance(0, app).Gives? && s.acceptance(0, app).value != "" && s.retry(app) == Gives(true)
  }

  /** The second application: a contradicted first one is reasserted, an unaccepted one reread,
      each only where its policy asks for it and its scope is bounded. Deferred voice goes along
      where the barrier is required, or where its signal is intended. */
  predicate SecondAsked(s: Stage, app: Application, second: Request) {
    || (&& AsksReassertion(s, app) && s.endpointScope(app) == InScope(Scope(second.ids, second.retained))
        && second.deferred == (if app.barrier.Some? && app.barrier.value.required
                               then app.barrier.value.deferredIds else []))
    || (&& AsksReread(s, app) && s.rereadScope(app) == InScope(Scope(second.ids, second.retained))
        && second.deferred == (if app.barrier.Some? && app.barrier.value.signal.Intended?
                               then app.barrier.value.deferredIds else []))
  }

  /** The applications asked for are the first, and a second exactly where one is asked for. */
  lemma RequestsTold(s: Stage)
    ensures Requests(s)[0] == Request(s.mutationIds, s.previous, [])
    ensures forall app, second ::
      Applied(s, app) && SecondAsked(s, app, second) <==> Applied(s, app) && Requests(s)[1..] == [second]
    ensures |Requests(s)| == 2 <==> exists app, second :: Applied(s, app) && SecondAsked(s, app, second)
  {
    forall app, second
      ensures Applied(s, app) && SecondAsked(s, app, second) <==> Applied(s, app) && Requests(s)[1..] == [second]
    {
      if Applied(s, app) {
        assert First(s) == Gives(app);
        assert Reasserts(s) ==> AsksReassertion(s, app);
        assert Rereads(s) ==> AsksReread(s, app);
      }
    }
    if |Requests(s)| == 2 {
      assert Applied(s, First(s).value) && Requests(s)[1..] == [Requests(s)[1]];
    }
  }

  predicate RefusedWith(s: Stage, app: Application, text: string) {
    || (AsksReassertion(s, app) && s.endpointScope(app) == OutOfScope(text))
    || (AsksReread(s, app) && s.rereadScope(app) == OutOfScope(text))
  }

  /** What is kept of the applications, and what the report says of the second one. */
  lemma ReportTold(s: Stage, app: Application)
    requires Applied(s, app)
    ensures forall second | SecondAsked(s, app, second) ::
      && SecondReport(s) == Some(RereadReport(AsksReread(s, app) && second.ids == [], second.ids,
                                              ResultIds(second.retained), second.deferred, ""))
      && Attempts(s) == [app] + match s.applicator(1, second) case Gives(again) => [again] case Throws(_) => []
    ensures (forall second :: !SecondAsked(s, app, second)) ==> Attempts(s) == [app]
    ensures forall text | RefusedWith(s, app, text) :: SecondReport(s) == Some(RereadReport(false, [], [], [], text))
    ensures (forall second :: !SecondAsked(s, app, second)) && (forall text :: !RefusedWith(s, app, text)) ==>
      SecondReport(s) == None
  {
    assert First(s) == Gives(app);
    if Reasserts(s) || Rereads(s) {
      assert SecondAsked(s, app, SecondRequest(s));
      assert forall other | SecondAsked(s, app, other) :: other == SecondRequest(s);
    } else {
      assert forall other :: !SecondAsked(s, app, other);
      if Refused(s).Some? {
        assert RefusedWith(s, app, Refused(s).value);
      }
    }
  }

  /** Where the first application raised there is nothing more. */
  lemma NothingApplied(s: Stage)
    requires s.applicator(0, Request(s.mutationIds, s.previous, [])).Throws?
    ensures |Requests(s)| == 1 && Attempts(s) == [] && SecondReport(s) == None
    ensures !Completes(s) && !StopsSilently(s)
  {
  }

  /** The first application stands: it contradicts nothing, the links are up, and it is
      accepted. */
  predicate StandsAtOnce(s: Stage, app: Application) {
    s.contradicts(0, app) == Gives("") && s.serialReady == Gives(true) && s.acceptance(0, app) == Gives("")
  }

  /** The second one does. */
  predicate StandsAgain(s: Stage, second: Request, again: Application) {
    && s.applicator(1, second) == Gives(again) && s.contradicts(1, again) == Gives("")
    && s.serialReady == Gives(true) && s.acceptance(1, again) == Gives("")
  }

  /** The three ways a stage is accepted. */
  lemma AcceptanceTold(s: Stage)
    ensures Completes(s) || StopsSilently(s) <==>
      exists app | Applied(s, app) ::
        || StandsAtOnce(s, app)
        || (exists second, again :: SecondAsked(s, app, second) && StandsAgain(s, second, again))
        || RefusedWith(s, app, "")
  {
    if First(s).Gives? {
      var app := First(s).value;
      assert Applied(s, app);
      AcceptanceOf(s, app);
    }
  }

  lemma AcceptanceOf(s: Stage, app: Application)
    requires Applied(s, app)
    ensures Completes(s) || StopsSilently(s) <==>
      || StandsAtOnce(s, app)
      || (exists second, again :: SecondAsked(s, app, second) && StandsAgain(s, second, again))
      || RefusedWith(s, app, "")
  {
    assert First(s) == Gives(app);
    if Reasserts(s) || Rereads(s) {
      var second := SecondRequest(s);
      assert SecondAsked(s, app, second);
      assert forall other | SecondAsked(s, app, other) :: other == second;
      if Second(s).Gives? {
        assert StandsAgain(s, second, Second(s).value) <==> Completes(s);
      }
    } else {
      assert forall other :: !SecondAsked(s, app, other);
    }
  }

  // ----- What that means -----

  /** One application or two; two exactly when one of the two reasons holds, and both never
      hold. */
  lemma AtMostTwoApplications(s: Stage)
    ensures 1 <= |Requests(s)| <= 2 && |Attempts(s)| <= |Requests(s)|
    ensures |Requests(s)| == 2 <==> Reasserts(s) || Rereads(s)
    ensures !(Reasserts(s) && Rereads(s))
  {
  }

  /** The scopes the stage is built with. */
  ghost predicate Governed(s: Stage, plan: Plan, voice: bool, acceptance: Acceptance) {
    && (forall a :: s.endpointScope(a) ==
          match ReassertionScope(plan, a, voice, acceptance)
          case Ok(scope) => InScope(scope)
          case Err(refusal) => OutOfScope(RefusalText(refusal)))
    && (forall a :: s.rereadScope(a) ==
          match RereadScope(plan, a)
          case Ok(retained) => InScope(Scope([], retained))
          case Err(_) => OutOfScope("Configuration re-read cannot bound its mutation scope."))
  }

  function RefusalText(refusal: Refusal): string {
    match refusal
    case NothingEligible => "Configuration DHCP reassertion has no exact eligible absence."
    case LostDeferredVoice => "Configuration DHCP reassertion lost deferred Voice state."
    case CannotBound(_) => "Configuration re-read cannot bound its mutation scope."
  }

  /** With those scopes an accepted stage really completed. */
  lemma GovernedNeverStopsSilently(s: Stage, plan: Plan, voice: bool, acceptance: Acceptance)
    requires Governed(s, plan, voice, acceptance)
    ensures !StopsSilently(s)
  {
    hide ReassertionScope, RereadScope;
  }

  /** A second application mutates nothing, or reasserts a nonempty part of what the first
      one mutated, in plan order; together with what it retains it covers the plan exactly
      once. */
  lemma SecondIsBounded(s: Stage, plan: Plan, voice: bool, acceptance: Acceptance)
    requires Governed(s, plan, voice, acceptance) && |Requests(s)| == 2
    ensures var second, planIds := Requests(s)[1], ActionIds(plan.actions);
      && Distinct(planIds)
      && second.ids == Keep(planIds, second.ids) && ResultIds(second.retained) == Drop(planIds, second.ids)
      && (second.ids == [] <==> Rereads(s))
      && (forall id | id in second.ids :: id in First(s).value.mutationIds)
      && (forall r | r in second.retained :: SatisfiesApplyDependency(r.status))
  {
    hide ReassertionScope, RereadScope, Distinct;
    var app := First(s).value;
    if Reasserts(s) {
      ScopePartitionsThePlan(plan, app, voice, acceptance);
    } else {
      RereadKeepsThePlan(plan, app);
      DropNothing(ActionIds(plan.actions));
    }
  }

  lemma {:induction false} DropNothing(ids: seq<Id>)
    ensures Drop(ids, []) == ids && Keep(ids, []) == []
  {
    if ids != [] {
      DropNothing(ids[1..]);
    }
  }

  /** The stage whose policy refuses its scope with an empty text: the only application
      contradicts the plan. */
  function SilentStage(app: Application): Stage {
    Stage([], [], (k, r) => Gives(app), (k, a) => Gives("contradiction"), a => Gives(true),
          a => OutOfScope(""), Gives(true), (k, a) => Gives(""), a => Gives(false), a => OutOfScope(""))
  }

  /** It is stopped, and accepted all the same. */
  method SilentStopIsAccepted(app: Application) returns (execution: Execution, r: StageResult)
    ensures execution.stage == SilentStage(app) && execution.requests == Requests(SilentStage(app))
    ensures r.accepted && r.attempts == execution.attempts == [app] && r.reread == SecondReport(SilentStage(app))
    ensures Rendered(SilentStage(app))
    ensures Contradicted(SilentStage(app)) && StopsSilently(SilentStage(app)) && !Completes(SilentStage(app))
  {
    execution := new Execution(SilentStage(app));
    r := execution.Execute();
  }
}
