/** The command polling loop of the webview: a self-rechaining long poll guarded by a
    generation counter and rescued by a watchdog. Times are in milliseconds. */
module Polling {

  const WatchdogInterval: int := 5000
  const WatchdogSilence: int := 20000
  const RequestTimeout: int := 8000

  // ----- State -----

  /** What can still call back into the loop: a `setTimeout`, or a request in flight. */
  datatype Activity = Timer(generation: nat, due: int) | Request(generation: nat, sentAt: int)

  /** The globals of the script, the clock, and the pending activities. */
  datatype Loop = Loop(
    generation: nat, lastTick: int, armed: bool, commandCount: nat,
    now: int, pending: multiset<Activity>)

  /** What one `pollCommands` call meets: whether the bridge is up, and whether
      opening and sending the request returns (a throw makes no callback). */
  datatype Attempt = Attempt(bridgeUp: bool, sends: bool)

  /** What `onload` finds. `Batch` carries the number of commands and whether
      `runCode` returned; `HandlerFails` is any throw inside the handler's try. */
  datatype Response = Unauthorized | Batch(commands: nat, runs: bool) | Nothing | HandlerFails

  // ----- What the functions of the script do to the state -----

  function Scheduled(s: Loop, delay: int, generation: nat): Loop {
    if generation != s.generation then s
    else s.(pending := s.pending + multiset{Timer(generation, s.now + delay)})
  }

  function Polled(s: Loop, generation: nat, attempt: Attempt): Loop {
    if generation != s.generation then s
    else
      var ticked := s.(lastTick := s.now);
      if !attempt.bridgeUp then Scheduled(ticked, 500, generation)
      else if attempt.sends then ticked.(pending := s.pending + multiset{Request(generation, s.now)})
      else Scheduled(ticked, 1000, generation)
  }

  function Started(s: Loop, attempt: Attempt): Loop {
    Polled(s.(generation := s.generation + 1, armed := true, lastTick := s.now), s.generation + 1, attempt)
  }

  predicate Trips(s: Loop) {
    s.armed && s.now - s.lastTick >= WatchdogSilence
  }

  /** `pollWatchdog` logs before it restarts: a throwing `log` costs the restart. */
  function Watched(s: Loop, logReturns: bool, attempt: Attempt): Loop {
    if Trips(s) && logReturns then Started(s, attempt) else s
  }

  function TimerFired(s: Loop, timer: Activity, attempt: Attempt): Loop {
    Polled(s.(pending := s.pending - multiset{timer}), timer.generation, attempt)
  }

  function ReplyDelay(response: Response): int {
    match response
    case Unauthorized => 1000
    case HandlerFails => 500
    case _ => 0
  }

  function Executed(response: Response): nat {
    if response.Batch? && response.runs then response.commands else 0
  }

  /** The part of `onload` before it reschedules. */
  function Received(s: Loop, request: Activity, response: Response): Loop {
    s.(pending := s.pending - multiset{request}, lastTick := s.now,
       commandCount := s.commandCount + Executed(response))
  }

  function Loaded(s: Loop, request: Activity, response: Response): Loop {
    Scheduled(Received(s, request, response), ReplyDelay(response), request.generation)
  }

  function Failed(s: Loop, request: Activity): Loop {
    Scheduled(s.(pending := s.pending - multiset{request}), 500, request.generation)
  }

  // ----- The script itself -----

  class PollingLoop {
    var pollGeneration: nat
    var pollLastTick: int
    var pollArmed: bool
    var commandCount: nat
    var now: int
    var pending: multiset<Activity>

    function View(): Loop
      reads this
    {
      Loop(pollGeneration, pollLastTick, pollArmed, commandCount, now, pending)
    }

    constructor (now: int)
      ensures View() == Initial(now)
    {
      pollGeneration, pollLastTick, pollArmed, commandCount := 0, 0, false, 0;
      this.now, pending := now, multiset{};
    }

    method SchedulePoll(delay: int, generation: nat)
      modifies this
      ensures View() == Scheduled(old(View()), delay, generation)
    {
      if generation != pollGeneration {
        return;
      }
      pending := pending + multiset{Timer(generation, now + delay)};
    }

    method StartPolling(attempt: Attempt)
      modifies this
      ensures View() == Started(old(View()), attempt)
    {
      hide Polled;
      pollGeneration := pollGeneration + 1;
      pollArmed := true;
      pollLastTick := now;
      PollCommands(pollGeneration, attempt);
    }

    method PollWatchdog(logReturns: bool, attempt: Attempt)
      modifies this
      ensures View() == Watched(old(View()), logReturns, attempt)
    {
      if !pollArmed {
        return;
      }
      var silent := now - pollLastTick;
      if silent < WatchdogSilence || !logReturns {
        return;
      }
      StartPolling(attempt);
    }

    method PollCommands(generation: nat, attempt: Attempt)
      modifies this
      ensures View() == Polled(old(View()), generation, attempt)
    {
      if generation != pollGeneration {
        return;
      }
      pollLastTick := now;
      if !attempt.bridgeUp {
        SchedulePoll(500, generation);
        return;
      }
      if attempt.sends {
        pending := pending + multiset{Request(generation, now)};
      } else {
        SchedulePoll(1000, generation);
      }
    }

    /** The closure given to `setTimeout`. */
    method OnTimer(timer: Activity, attempt: Attempt)
      modifies this
      ensures View() == TimerFired(old(View()), timer, attempt)
    {
      pending := pending - multiset{timer};
      if timer.generation != pollGeneration {
        return;
      }
      PollCommands(timer.generation, attempt);
    }

    method RunBatch(response: Response)
      requires response.Batch?
      modifies this`commandCount
      ensures commandCount == old(commandCount) + Executed(response)
    {
      if response.runs {
        commandCount := commandCount + response.commands;
      }
    }

    /** A response arrives: the try block of `onload`. */
    method Receive(request: Activity, response: Response) returns (delay: int)
      modifies this`pending, this`pollLastTick, this`commandCount
      ensures delay == ReplyDelay(response) && pollLastTick == now
      ensures pending == old(pending) - multiset{request}
      ensures commandCount == old(commandCount) + Executed(response)
    {
      pending := pending - multiset{request};
      delay := 0;
      pollLastTick := now;
      if response.Unauthorized? {
        delay := 1000;
      } else if response.Batch? {
        RunBatch(response);
      } else if response.HandlerFails? {
        delay := 500;
      }
    }

    method OnLoad(request: Activity, response: Response)
      modifies this
      ensures View() == Loaded(old(View()), request, response)
    {
      hide ReplyDelay, Executed, Scheduled;
      var delay := Receive(request, response);
      SchedulePoll(delay, request.generation);
    }

    method OnErrorOrTimeout(request: Activity)
      modifies this
      ensures View() == Failed(old(View()), request)
    {
      pending := pending - multiset{request};
      SchedulePoll(500, request.generation);
    }
  }

  // ----- Runs -----

  /** `Lose` is a request that never calls any of its callbacks; `Start` is the page's
      own call, or `pollCommands` without an argument. */
  datatype Event =
    | Elapse(ms: nat)
    | Fire(timer: Activity, attempt: Attempt)
    | Load(request: Activity, response: Response)
    | Fail(request: Activity)
    | Lose(request: Activity)
    | Watchdog(logReturns: bool, attempt: Attempt, nextDue: int)
    | Start(attempt: Attempt)

  function Initial(now: int): Loop {
    Loop(0, 0, false, 0, now, multiset{})
  }

  predicate Enabled(s: Loop, e: Event) {
    match e
    case Fire(timer, _) => timer in s.pending && timer.Timer? && timer.due <= s.now
    case Load(request, _) => request in s.pending && request.Request?
    case Fail(request) => request in s.pending && request.Request?
    case Lose(request) => request in s.pending && request.Request?
    case _ => true
  }

  function Next(s: Loop, e: Event): Loop {
    match e
    case Elapse(ms) => s.(now := s.now + ms)
    case Fire(timer, attempt) => TimerFired(s, timer, attempt)
    case Load(request, response) => Loaded(s, request, response)
    case Fail(request) => Failed(s, request)
    case Lose(request) => s.(pending := s.pending - multiset{request})
    case Watchdog(logReturns, attempt, _) => Watched(s, logReturns, attempt)
    case Start(attempt) => Started(s, attempt)
  }

  /** `es` can happen from `s`, and ends in `t`. */
  predicate Run(s: Loop, es: seq<Event>, t: Loop)
    decreases |es|
  {
    if es == [] then s == t
    else Enabled(s, es[0]) && Run(Next(s, es[0]), es[1..], t)
  }

  // ----- At most one live chain -----

  predicate Live(s: Loop, a: Activity) {
    a in s.pending && a.generation == s.generation
  }

  ghost predicate AtMostOneLive(s: Loop) {
    forall a | Live(s, a) :: s.pending[a] == 1 && forall b | Live(s, b) :: b == a
  }

  ghost predicate NoneLive(s: Loop) {
    forall a | a in s.pending :: a.generation != s.generation
  }

  ghost predicate OneLive(s: Loop) {
    AtMostOneLive(s) && exists a :: Live(s, a)
  }

  ghost predicate Consistent(s: Loop) {
    && AtMostOneLive(s)
    && (forall a | a in s.pending :: a.generation <= s.generation)
    && (s.armed <==> s.generation > 0)
  }

  /** With no live activity left, scheduling or sending for the current generation
      makes exactly one. */
  lemma OnlyLive(s: Loop, a: Activity, t: Loop)
    requires NoneLive(s) && a.generation == s.generation == t.generation
    requires t.pending == s.pending + multiset{a}
    ensures OneLive(t) && Live(t, a)
  {
    assert a !in s.pending;
    assert forall b :: b in t.pending <==> b in s.pending || b == a;
    assert Live(t, a);
  }

  /** The one live activity gone, none is left. */
  lemma LiveGone(s: Loop, a: Activity, t: Loop)
    requires AtMostOneLive(s) && Live(s, a)
    requires t.pending == s.pending - multiset{a} && t.generation == s.generation
    ensures NoneLive(t)
  {
    assert a !in t.pending;
    forall b | b in t.pending ensures b.generation != t.generation {
      assert b in s.pending && b != a;
      assert Live(s, b) ==> b == a;
    }
  }

  lemma PolledMakesOneLive(s: Loop, attempt: Attempt)
    requires NoneLive(s)
    ensures OneLive(Polled(s, s.generation, attempt))
  {
    var t := Polled(s, s.generation, attempt);
    if !attempt.bridgeUp {
      OnlyLive(s, Timer(s.generation, s.now + 500), t);
    } else if attempt.sends {
      OnlyLive(s, Request(s.generation, s.now), t);
    } else {
      OnlyLive(s, Timer(s.generation, s.now + 1000), t);
    }
  }

  lemma StartedMakesOneLive(s: Loop, attempt: Attempt)
    requires Consistent(s)
    ensures OneLive(Started(s, attempt)) && Consistent(Started(s, attempt))
    ensures Started(s, attempt).generation == s.generation + 1
  {
    var reset := s.(generation := s.generation + 1, armed := true, lastTick := s.now);
    assert NoneLive(reset);
    PolledMakesOneLive(reset, attempt);
  }

  predicate IsCallback(e: Event) {
    e.Fire? || e.Load? || e.Fail?
  }

  /** The activity whose callback an event is. */
  function Caller(e: Event): Activity
    requires IsCallback(e)
  {
    if e.Fire? then e.timer else e.request
  }

  /** The callback of a live activity replaces it by exactly one successor. */
  lemma LiveCallbackRechains(s: Loop, e: Event)
    requires AtMostOneLive(s) && Enabled(s, e) && IsCallback(e) && Live(s, Caller(e))
    ensures OneLive(Next(s, e)) && Next(s, e).generation == s.generation
  {
    hide NoneLive, OneLive, AtMostOneLive, ReplyDelay, Executed;
    CallbackKeepsGeneration(s, e);
    hide Polled;
    var gone := s.(pending := s.pending - multiset{Caller(e)});
    LiveGone(s, Caller(e), gone);
    if e.Fire? {
      PolledMakesOneLive(gone, e.attempt);
    } else if e.Fail? {
      OnlyLive(gone, Timer(s.generation, s.now + 500), Next(s, e));
    } else {
      var received := Received(s, e.request, e.response);
      SameLive(gone, received);
      OnlyLive(received, Timer(s.generation, s.now + ReplyDelay(e.response)), Next(s, e));
    }
  }

  /** What takes the place of the live callback: after a timer another try or a request, after
      a response a try at once or after the delay of its failure, and after an error a try half
      a second later. All but an error mark the time. */
  lemma SuccessorIs(s: Loop, e: Event)
    requires IsCallback(e) && Caller(e).generation == s.generation
    ensures Next(s, e).pending == s.pending - multiset{Caller(e)} + multiset{
      match e
      case Fire(_, attempt) =>
        if !attempt.bridgeUp then Timer(s.generation, s.now + 500)
        else if attempt.sends then Request(s.generation, s.now) else Timer(s.generation, s.now + 1000)
      case Load(_, Unauthorized) => Timer(s.generation, s.now + 1000)
      case Load(_, HandlerFails) => Timer(s.generation, s.now + 500)
      case Load(_, _) => Timer(s.generation, s.now)
      case _ => Timer(s.generation, s.now + 500)}
    ensures Next(s, e).lastTick == if e.Fail? then s.lastTick else s.now
    ensures Next(s, e).armed == s.armed && Next(s, e).now == s.now
  {
  }

  /** The watchdog restarts the loop exactly when it is armed, was silent for 20 s, and the log
      returns; otherwise it does nothing. */
  lemma WatchdogRestartsIff(s: Loop, logReturns: bool, attempt: Attempt, nextDue: int)
    ensures var t := Next(s, Watchdog(logReturns, attempt, nextDue));
      if s.armed && s.now - s.lastTick >= 20000 && logReturns
      then t.generation == s.generation + 1 && t.lastTick == s.now && t.armed else t == s
  {
  }

  lemma CallbackKeepsGeneration(s: Loop, e: Event)
    requires IsCallback(e)
    ensures Next(s, e).generation == s.generation
  {
  }

  lemma CallbackAddsCurrentOnly(s: Loop, e: Event)
    requires Enabled(s, e) && IsCallback(e)
    ensures forall b | b in Next(s, e).pending :: b in s.pending || b.generation == s.generation
  {
    hide ReplyDelay, Executed, Polled, Scheduled;
    var gone := s.pending - multiset{Caller(e)};
    forall b | b in Next(s, e).pending ensures b in s.pending || b.generation == s.generation {
      match e {
        case Fire(timer, attempt) =>
          PolledAddsCurrentOnly(s.(pending := gone), timer.generation, attempt, b);
        case Load(request, response) =>
          ScheduledAddsCurrentOnly(Received(s, request, response), ReplyDelay(response), request.generation, b);
        case Fail(request) =>
          ScheduledAddsCurrentOnly(s.(pending := gone), 500, request.generation, b);
      }
    }
  }

  lemma ScheduledAddsCurrentOnly(s: Loop, delay: int, generation: nat, b: Activity)
    requires b in Scheduled(s, delay, generation).pending
    ensures b in s.pending || b.generation == s.generation
  {
  }

  lemma PolledAddsCurrentOnly(s: Loop, generation: nat, attempt: Attempt, b: Activity)
    requires b in Polled(s, generation, attempt).pending
    ensures b in s.pending || b.generation == s.generation
  {
  }

  lemma SameLive(s: Loop, t: Loop)
    requires s.pending == t.pending && s.generation == t.generation
    ensures NoneLive(s) <==> NoneLive(t)
    ensures OneLive(s) <==> OneLive(t)
    ensures AtMostOneLive(s) <==> AtMostOneLive(t)
  {
    assert forall a :: Live(s, a) <==> Live(t, a);
  }

  /** The callback of an older generation spawns nothing and restarts nothing. */
  lemma StaleCallbackSpawnsNothing(s: Loop, e: Event)
    requires Enabled(s, e) && IsCallback(e) && Caller(e).generation != s.generation
    ensures Next(s, e).pending == s.pending - multiset{Caller(e)}
    ensures Next(s, e).generation == s.generation
  {
  }

  /** A late response of an older chain is still executed, and still counts as a sign
      of life for the watchdog. */
  lemma StaleLoadStillExecutes(s: Loop, request: Activity, response: Response)
    requires request.generation != s.generation
    ensures Loaded(s, request, response).lastTick == s.now
    ensures Loaded(s, request, response).commandCount ==
      s.commandCount + if response.Batch? && response.runs then response.commands else 0
  {
  }

  /** What a late response costs: while the live chain is lost, it puts the restart off by
      20 s, whatever else happens short of the page starting again. */
  lemma StaleLoadPostpones(s: Loop, request: Activity, response: Response, es: seq<Event>, t: Loop)
    requires Consistent(s) && NoneLive(s) && Enabled(s, Load(request, response))
    requires Run(Next(s, Load(request, response)), es, t) && forall e | e in es :: !e.Start?
    requires t.now - s.now < WatchdogSilence
    ensures t.generation == s.generation && NoneLive(t)
    ensures t.commandCount >= s.commandCount + if response.Batch? && response.runs then response.commands else 0
  {
    hide Run, ReplyDelay, Executed, AtMostOneLive;
    var e := Load(request, response);
    StaleLoadStillExecutes(s, request, response);
    StaleCallbackSpawnsNothing(s, e);
    DeadUntilRestart(s, e);
    StepKeepsConsistent(s, e);
    MarkedStaysDead(Next(s, e), es, t, s.now);
  }

  lemma {:induction false} MarkedStaysDead(s: Loop, es: seq<Event>, t: Loop, mark: int)
    requires Consistent(s) && NoneLive(s) && mark <= s.lastTick && Run(s, es, t)
    requires forall e | e in es :: !e.Start?
    requires mark <= s.now && t.now - mark < WatchdogSilence
    ensures t.generation == s.generation && NoneLive(t) && t.commandCount >= s.commandCount
    decreases |es|
  {
    hide AtMostOneLive;
    if es != [] {
      RunAdvances(Next(s, es[0]), es[1..], t);
      assert es[0] in es && forall e | e in es[1..] :: e in es;
      MarkedStep(s, es[0], mark);
      StepKeepsConsistent(s, es[0]);
      DeadUntilRestart(s, es[0]);
      hide Consistent, NoneLive, Next;
      MarkedStaysDead(Next(s, es[0]), es[1..], t, mark);
    }
  }

  lemma MarkedStep(s: Loop, e: Event, mark: int)
    requires Enabled(s, e) && Consistent(s) && NoneLive(s) && !e.Start?
    requires mark <= s.lastTick && mark <= s.now && Next(s, e).now - mark < WatchdogSilence
    ensures Next(s, e).generation == s.generation
    ensures mark <= Next(s, e).lastTick && s.now <= Next(s, e).now && s.commandCount <= Next(s, e).commandCount
  {
    hide AtMostOneLive, ReplyDelay;
    if IsCallback(e) {
      StaleCallbackSpawnsNothing(s, e);
    }
  }

  lemma {:induction false} RunAdvances(s: Loop, es: seq<Event>, t: Loop)
    requires Run(s, es, t)
    ensures s.now <= t.now
    decreases |es|
  {
    if es != [] {
      RunAdvances(Next(s, es[0]), es[1..], t);
      hide Run, ReplyDelay, Executed;
      assert s.now <= Next(s, es[0]).now;
    }
  }

  lemma RemovedKeepsOthers(s: Loop, a: Activity, t: Loop)
    requires t.pending == s.pending - multiset{a} && t.generation == s.generation
    ensures AtMostOneLive(s) ==> AtMostOneLive(t)
    ensures OneLive(s) && a.generation != s.generation ==> OneLive(t)
    ensures forall b | b in t.pending :: b in s.pending
  {
    assert forall b | b in t.pending :: b in s.pending;
    assert forall b | Live(t, b) :: Live(s, b);
    if OneLive(s) && a.generation != s.generation {
      var b :| Live(s, b);
      assert Live(t, b);
    }
  }

  lemma StepKeepsConsistent(s: Loop, e: Event)
    requires Consistent(s) && Enabled(s, e)
    ensures Consistent(Next(s, e))
  {
    hide AtMostOneLive, OneLive;
    var t := Next(s, e);
    if e.Start? || e.Watchdog? {
      StartedMakesOneLive(s, e.attempt);
    } else if e.Elapse? {
      SameLive(s, t);
    } else if e.Lose? {
      RemovedKeepsOthers(s, e.request, t);
    } else if Live(s, Caller(e)) {
      LiveCallbackRechains(s, e);
      OneIsAtMostOne(t);
      CallbackAddsCurrentOnly(s, e);
    } else {
      StaleCallbackSpawnsNothing(s, e);
      RemovedKeepsOthers(s, Caller(e), t);
    }
  }

  lemma OneIsAtMostOne(s: Loop)
    ensures OneLive(s) ==> AtMostOneLive(s)
  {
  }

  lemma {:induction false} RunKeepsConsistent(s: Loop, es: seq<Event>, t: Loop)
    requires Consistent(s) && Run(s, es, t)
    ensures Consistent(t) && s.generation <= t.generation
    decreases |es|
  {
    if es != [] {
      StepKeepsConsistent(s, es[0]);
      StepGeneration(s, es[0]);
      RunKeepsConsistent(Next(s, es[0]), es[1..], t);
    }
  }

  /** A step keeps the generation or makes the next one, and then with one live chain. */
  lemma StepGeneration(s: Loop, e: Event)
    requires Consistent(s) && Enabled(s, e)
    ensures s.generation <= Next(s, e).generation <= s.generation + 1
    ensures Next(s, e).generation == s.generation + 1 ==> OneLive(Next(s, e))
  {
    if e.Start? || e.Watchdog? {
      StartedMakesOneLive(s, e.attempt);
    }
  }

  /** In every reachable state at most one timer or request carries the current
      generation, and none carries a later one. */
  lemma ReachableHasAtMostOneLive(now: int, es: seq<Event>, t: Loop)
    requires Run(Initial(now), es, t)
    ensures AtMostOneLive(t) && forall a | a in t.pending :: a.generation <= t.generation
  {
    assert Consistent(Initial(now));
    RunKeepsConsistent(Initial(now), es, t);
  }

  // ----- The chain dies only by losing a callback -----

  lemma StepKeepsChain(s: Loop, e: Event)
    requires Consistent(s) && OneLive(s) && Enabled(s, e) && !e.Lose?
    ensures OneLive(Next(s, e))
  {
    hide OneLive, AtMostOneLive;
    if e.Start? || e.Watchdog? {
      StartedMakesOneLive(s, e.attempt);
    } else if e.Elapse? {
      SameLive(s, Next(s, e));
    } else if Live(s, Caller(e)) {
      LiveCallbackRechains(s, e);
    } else {
      StaleCallbackSpawnsNothing(s, e);
      RemovedKeepsOthers(s, Caller(e), Next(s, e));
    }
  }

  predicate NoLoss(es: seq<Event>) {
    forall e | e in es :: !e.Lose?
  }

  /** Once started, the loop always has exactly one live activity as long as no
      request loses its callbacks: no throw and no interleaving kills or doubles it. */
  lemma {:induction false} ChainSurvives(s: Loop, es: seq<Event>, t: Loop)
    requires Consistent(s) && OneLive(s) && Run(s, es, t) && NoLoss(es)
    ensures OneLive(t)
    decreases |es|
  {
    if es != [] {
      StepKeepsChain(s, es[0]);
      StepKeepsConsistent(s, es[0]);
      assert NoLoss(es[1..]);
      ChainSurvives(Next(s, es[0]), es[1..], t);
    }
  }

  /** A dead chain stays dead until a restart: nothing else can revive it. */
  lemma DeadUntilRestart(s: Loop, e: Event)
    requires Consistent(s) && NoneLive(s) && Enabled(s, e)
    ensures Next(s, e).generation == s.generation ==> NoneLive(Next(s, e))
  {
    if IsCallback(e) {
      StaleCallbackSpawnsNothing(s, e);
    }
  }

  // ----- Commands -----

  function Delivered(es: seq<Event>): nat {
    if es == [] then 0
    else
      (if es[0].Load? && es[0].response.Batch? && es[0].response.runs then es[0].response.commands else 0)
      + Delivered(es[1..])
  }

  /** Every batch that ran is counted exactly once, whichever chain delivered it. */
  lemma {:induction false} CommandsCounted(s: Loop, es: seq<Event>, t: Loop)
    requires Run(s, es, t)
    ensures t.commandCount == s.commandCount + Delivered(es)
    decreases |es|
  {
    if es != [] {
      CommandsCounted(Next(s, es[0]), es[1..], t);
    }
  }
}
