/** Timed runs of the polling loop: timers may be late by at most `d` milliseconds,
    every request that settles does so within its timeout, and the watchdog interval
    fires again at most its period after it last fired. */
module PollingTiming {
  import opened Polling

  /** The longest a healthy chain waits between two marks: a request that times out,
      then the retry delay. */
  const HealthyGap: int := 8500

  /** The longest a silence can last when timers are on time: one millisecond short of
      tripping the watchdog, and a period until it looks again. */
  const RecoveryGap: int := WatchdogSilence + WatchdogInterval - 1

  /** A polling loop together with the next nominal time of its watchdog. */
  datatype Timed = Timed(loop: Loop, watchdogDue: int)

  function Deadline(a: Activity, d: nat): int {
    match a
    case Timer(_, due) => due + d
    case Request(_, sentAt) => sentAt + RequestTimeout
  }

  ghost predicate OnTime(s: Timed, now: int, d: nat) {
    && now <= s.watchdogDue + d
    && forall a | a in s.loop.pending :: now <= Deadline(a, d)
  }

  ghost predicate TimedEnabled(s: Timed, e: Event, d: nat) {
    && Enabled(s.loop, e)
    && (e.Elapse? ==> OnTime(s, s.loop.now + e.ms, d))
    && (e.Watchdog? ==>
          s.watchdogDue <= s.loop.now < e.nextDue <= s.loop.now + WatchdogInterval)
  }

  function TimedNext(s: Timed, e: Event): Timed {
    Timed(Next(s.loop, e), if e.Watchdog? then e.nextDue else s.watchdogDue)
  }

  /** `es` can happen from `s` under the timing assumptions. */
  ghost predicate Timely(s: Timed, es: seq<Event>, d: nat)
    decreases |es|
  {
    es == [] || (TimedEnabled(s, es[0], d) && Timely(TimedNext(s, es[0]), es[1..], d))
  }

  function After(s: Timed, es: seq<Event>): Timed
    decreases |es|
  {
    if es == [] then s else After(TimedNext(s, es[0]), es[1..])
  }

  /** The page has just called `startPolling` and set the watchdog interval. */
  ghost predicate JustStarted(s: Timed) {
    && (exists now, attempt :: s.loop == Started(Initial(now), attempt))
    && s.loop.now < s.watchdogDue <= s.loop.now + WatchdogInterval
  }

  // ----- Invariants -----

  ghost predicate Sane(s: Timed, d: nat) {
    Consistent(s.loop) && s.loop.armed && s.loop.lastTick <= s.loop.now && OnTime(s, s.loop.now, d)
  }

  /** How far behind its last mark the live activity may run. */
  ghost predicate Prompt(s: Loop) {
    && (forall a | Live(s, a) && a.Timer? :: a.due <= s.lastTick + HealthyGap)
    && (forall a | Live(s, a) && a.Request? :: a.sentAt <= s.lastTick)
  }

  lemma StartIsSane(s: Timed, d: nat)
    requires JustStarted(s)
    ensures Sane(s, d) && OneLive(s.loop) && Prompt(s.loop) && s.watchdogDue <= s.loop.lastTick + RecoveryGap
  {
    var now, attempt :| s.loop == Started(Initial(now), attempt);
    assert Consistent(Initial(now));
    StartedMakesOneLive(Initial(now), attempt);
  }

  /** A step never schedules into the past, never moves the clock back, and never
      takes a mark back. */
  lemma StepKeepsSane(s: Timed, e: Event, d: nat)
    requires Sane(s, d) && TimedEnabled(s, e, d)
    ensures Sane(TimedNext(s, e), d)
    ensures s.loop.lastTick <= TimedNext(s, e).loop.lastTick
  {
    hide Consistent, ReplyDelay, Executed;
    StepKeepsConsistent(s.loop, e);
    StepTimes(s, e, d);
    StepArmed(s.loop, e);
  }

  lemma StepArmed(s: Loop, e: Event)
    requires s.armed
    ensures Next(s, e).armed
  {
    hide ReplyDelay, Executed;
  }

  lemma StepTimes(s: Timed, e: Event, d: nat)
    requires s.loop.lastTick <= s.loop.now && OnTime(s, s.loop.now, d) && TimedEnabled(s, e, d)
    ensures s.loop.lastTick <= TimedNext(s, e).loop.lastTick <= TimedNext(s, e).loop.now
    ensures OnTime(TimedNext(s, e), TimedNext(s, e).loop.now, d)
  {
    hide Executed;
    var t := TimedNext(s, e);
    forall a | a in t.loop.pending ensures t.loop.now <= Deadline(a, d) {
      if a !in s.loop.pending {
        NewActivities(s.loop, e, a);
      }
    }
  }

  lemma ScheduledAdds(s: Loop, delay: int, generation: nat, a: Activity)
    requires a in Scheduled(s, delay, generation).pending && a !in s.pending
    ensures a == Timer(generation, s.now + delay) && generation == s.generation
  {
  }

  lemma PolledAdds(s: Loop, generation: nat, attempt: Attempt, a: Activity)
    requires a in Polled(s, generation, attempt).pending && a !in s.pending
    ensures a.generation == generation == s.generation && Polled(s, generation, attempt).lastTick == s.now
    ensures a.Timer? ==> s.now <= a.due <= s.now + 1000
    ensures a.Request? ==> a.sentAt == s.now
  {
  }

  /** What a step can add: a timer at most a second ahead, or a request sent now. */
  lemma NewActivities(s: Loop, e: Event, a: Activity)
    requires a in Next(s, e).pending && a !in s.pending
    ensures a.generation == Next(s, e).generation && Next(s, e).now == s.now
    ensures a.Timer? ==> s.now <= a.due <= s.now + 1000
    ensures a.Timer? && Next(s, e).lastTick != s.now ==> a.due == s.now + 500 && e.Fail?
    ensures a.Request? ==> a.sentAt == s.now == Next(s, e).lastTick
  {
    hide Polled, Scheduled, Executed;
    SameClock(s, e);
    match e {
      case Elapse(_) =>
      case Lose(_) =>
      case Fire(timer, attempt) =>
        PolledAdds(s.(pending := s.pending - multiset{timer}), timer.generation, attempt, a);
      case Load(request, response) =>
        ScheduledAdds(Received(s, request, response), ReplyDelay(response), request.generation, a);
      case Fail(request) =>
        ScheduledAdds(s.(pending := s.pending - multiset{request}), 500, request.generation, a);
      case _ =>
        PolledAdds(s.(generation := s.generation + 1, armed := true, lastTick := s.now),
                   s.generation + 1, e.attempt, a);
    }
  }

  lemma SameClock(s: Loop, e: Event)
    ensures !e.Elapse? ==> Next(s, e).now == s.now
    ensures IsCallback(e) ==> Next(s, e).generation == s.generation
    ensures e.Load? ==> Next(s, e).lastTick == s.now
    ensures forall attempt :: Started(s, attempt).generation == s.generation + 1
  {
    hide ReplyDelay, Executed;
  }

  lemma StepKeepsPrompt(s: Timed, e: Event, d: nat)
    requires Sane(s, d) && OneLive(s.loop) && Prompt(s.loop) && TimedEnabled(s, e, d) && !e.Lose?
    ensures Prompt(Next(s.loop, e))
  {
    hide OneLive, Consistent;
    var t := Next(s.loop, e);
    StepTimes(s, e, d);
    forall a | Live(t, a)
      ensures a.Timer? ==> a.due <= t.lastTick + HealthyGap
      ensures a.Request? ==> a.sentAt <= t.lastTick
    {
      if a in s.loop.pending {
        OldLiveKeepsGeneration(s.loop, e, a);
        assert Live(s.loop, a);
      } else {
        NewActivities(s.loop, e, a);
        if e.Fail? {
          FailedIsRecent(s, e, d);
        }
      }
    }
  }

  lemma OldLiveKeepsGeneration(s: Loop, e: Event, a: Activity)
    requires Consistent(s) && Enabled(s, e) && a in s.pending && Live(Next(s, e), a)
    ensures a.generation == s.generation
  {
    hide ReplyDelay, Executed, OneLive, AtMostOneLive;
    StepGeneration(s, e);
  }

  /** A request fails at most its timeout after it was marked. */
  lemma FailedIsRecent(s: Timed, e: Event, d: nat)
    requires OnTime(s, s.loop.now, d) && Prompt(s.loop) && e.Fail? && Enabled(s.loop, e)
    ensures Live(s.loop, e.request) ==> s.loop.now + 500 <= s.loop.lastTick + HealthyGap
    ensures !Live(s.loop, e.request) ==> Next(s.loop, e).pending <= s.loop.pending
  {
  }

  // ----- A healthy chain -----

  lemma {:induction false} HealthyRun(s: Timed, es: seq<Event>, d: nat)
    requires Sane(s, d) && OneLive(s.loop) && Prompt(s.loop) && Timely(s, es, d) && NoLoss(es)
    ensures Sane(After(s, es), d) && OneLive(After(s, es).loop) && Prompt(After(s, es).loop)
    decreases |es|
  {
    hide Sane, OneLive, Prompt;
    if es != [] {
      var e := es[0];
      SaneIsConsistent(s, d);
      StepKeepsSane(s, e, d);
      StepKeepsChain(s.loop, e);
      StepKeepsPrompt(s, e, d);
      HealthyRun(TimedNext(s, e), es[1..], d);
    }
  }

  lemma SaneIsConsistent(s: Timed, d: nat)
    requires Sane(s, d)
    ensures Consistent(s.loop)
  {
  }

  /** While no request loses its callbacks, successive marks are at most 8.5 s plus
      the timer lateness apart. */
  lemma MarksAreClose(s: Timed, es: seq<Event>, d: nat)
    requires JustStarted(s) && Timely(s, es, d) && NoLoss(es)
    ensures After(s, es).loop.now - After(s, es).loop.lastTick <= HealthyGap + d
  {
    StartIsSane(s, d);
    HealthyRun(s, es, d);
    var t := After(s, es);
    var a :| Live(t.loop, a);
    assert t.loop.now <= Deadline(a, d);
  }

  /** So a healthy chain never trips the watchdog while timers are late by less than
      11.5 s ... */
  lemma HealthyNeverTrips(s: Timed, es: seq<Event>, d: nat)
    requires JustStarted(s) && Timely(s, es, d) && NoLoss(es) && d < WatchdogSilence - HealthyGap
    ensures !Trips(After(s, es).loop)
  {
    MarksAreClose(s, es, d);
  }

  lemma TimelyCons(s: Timed, e: Event, es: seq<Event>, d: nat)
    requires TimedEnabled(s, e, d) && Timely(TimedNext(s, e), es, d)
    ensures Timely(s, [e] + es, d) && After(s, [e] + es) == After(TimedNext(s, e), es)
  {
    assert ([e] + es)[1..] == es;
  }

  /** The loop at another time. */
  function Waiting(l: Loop, now: int, watchdogDue: int): Timed {
    Timed(l.(now := now), watchdogDue)
  }

  /** A loop that started at 0 and has `a` pending. */
  function WaitingFor(a: Activity): Loop {
    Loop(1, 0, true, 0, 0, multiset{a})
  }

  ghost predicate Outlasts(l: Loop, now: int, d: nat) {
    forall a | a in l.pending :: now <= Deadline(a, d)
  }

  lemma WaitStep(l: Loop, now: int, ms: nat, due: int, d: nat)
    requires now + ms <= due + d && Outlasts(l, now + ms, d)
    ensures TimedEnabled(Waiting(l, now, due), Elapse(ms), d)
    ensures TimedNext(Waiting(l, now, due), Elapse(ms)) == Waiting(l, now + ms, due)
  {
  }

  lemma LookStep(l: Loop, due: int, attempt: Attempt, d: nat)
    requires due - l.lastTick < WatchdogSilence
    ensures TimedEnabled(Waiting(l, due, due), Watchdog(true, attempt, due + WatchdogInterval), d)
    ensures TimedNext(Waiting(l, due, due), Watchdog(true, attempt, due + WatchdogInterval))
         == Waiting(l, due, due + WatchdogInterval)
  {
  }

  lemma TimeoutStep(now: int, due: int, d: nat)
    ensures var request := Request(1, 0);
      && TimedEnabled(Waiting(WaitingFor(request), now, due), Fail(request), d)
      && TimedNext(Waiting(WaitingFor(request), now, due), Fail(request))
         == Waiting(WaitingFor(Timer(1, now + 500)), now, due)
  {
    var request := Request(1, 0);
    assert multiset{request} - multiset{request} + multiset{Timer(1, now + 500)} == multiset{Timer(1, now + 500)};
  }

  /** Nothing is lost, and the watchdog's log call returns. */
  ghost predicate Undisturbed(es: seq<Event>) {
    NoLoss(es) && LogReturns(es)
  }

  lemma UndisturbedCons(e: Event, es: seq<Event>)
    requires Undisturbed(es) && !e.Lose? && (e.Watchdog? ==> e.logReturns)
    ensures Undisturbed([e] + es)
  {
  }

  /** From `l` at time `now` the events `es` lead to `end`. */
  ghost predicate Leads(l: Loop, now: int, due: int, es: seq<Event>, d: nat, end: Timed) {
    Timely(Waiting(l, now, due), es, d) && After(Waiting(l, now, due), es) == end && Undisturbed(es)
  }

  lemma LeadsNowhere(l: Loop, now: int, due: int, d: nat)
    ensures Leads(l, now, due, [], d, Waiting(l, now, due))
  {
  }

  lemma LeadsStep(
    l: Loop, now: int, due: int, e: Event, k: Loop, later: int, nextDue: int, es: seq<Event>, d: nat, end: Timed)
    requires TimedEnabled(Waiting(l, now, due), e, d)
    requires TimedNext(Waiting(l, now, due), e) == Waiting(k, later, nextDue)
    requires Leads(k, later, nextDue, es, d, end) && !e.Lose? && (e.Watchdog? ==> e.logReturns)
    ensures Leads(l, now, due, [e] + es, d, end)
  {
    hide Timely, After, Waiting, TimedEnabled, TimedNext, Undisturbed;
    TimelyCons(Waiting(l, now, due), e, es, d);
    UndisturbedCons(e, es);
  }

  lemma Wait(l: Loop, now: int, ms: nat, due: int, es: seq<Event>, d: nat, end: Timed) returns (longer: seq<Event>)
    requires now + ms <= due + d && Outlasts(l, now + ms, d) && Leads(l, now + ms, due, es, d, end)
    ensures Leads(l, now, due, longer, d, end)
  {
    hide *;
    WaitStep(l, now, ms, due, d);
    LeadsStep(l, now, due, Elapse(ms), l, now + ms, due, es, d, end);
    longer := [Elapse(ms)] + es;
  }

  /** One uneventful watchdog period: wait until it is due, and let it look. */
  lemma QuietPeriod(l: Loop, due: int, es: seq<Event>, d: nat, now: int, end: Timed) returns (longer: seq<Event>)
    requires now <= due && due - l.lastTick < WatchdogSilence && Outlasts(l, due, d)
    requires Leads(l, due, due + WatchdogInterval, es, d, end)
    ensures Leads(l, now, due, longer, d, end)
  {
    hide Leads, Waiting, TimedEnabled, TimedNext, Outlasts;
    var look := Watchdog(true, Attempt(true, true), due + WatchdogInterval);
    LookStep(l, due, Attempt(true, true), d);
    LeadsStep(l, due, due, look, l, due, due + WatchdogInterval, es, d, end);
    longer := Wait(l, now, due - now, due, [look] + es, d, end);
  }

  lemma PageStart(due: int)
    requires 0 < due <= WatchdogInterval
    ensures JustStarted(Waiting(WaitingFor(Request(1, 0)), 0, due))
  {
    var s := Waiting(WaitingFor(Request(1, 0)), 0, due);
    assert multiset{} + multiset{Request(1, 0)} == multiset{Request(1, 0)};
    assert s.loop == Started(Initial(0), Attempt(true, true));
  }

  /** The request times out at 8 s; its retry timer is then late beyond 20 s. */
  lemma TrippingRun(d: nat) returns (es: seq<Event>)
    requires d >= WatchdogSilence - HealthyGap
    ensures Leads(WaitingFor(Request(1, 0)), 0, 5000, es, d, Waiting(WaitingFor(Timer(1, 8500)), 20000, 20000))
  {
    var request, retry := WaitingFor(Request(1, 0)), WaitingFor(Timer(1, 8500));
    assert Outlasts(request, 8000, d) && Outlasts(request, 5000, d);
    assert Outlasts(retry, 10000, d) && Outlasts(retry, 15000, d) && Outlasts(retry, 20000, d);
    assert request.lastTick == retry.lastTick == 0;
    hide Leads, Waiting, WaitingFor, TimedEnabled, TimedNext, Outlasts;
    var end := Waiting(retry, 20000, 20000);
    LeadsNowhere(retry, 20000, 20000, d);
    es := Wait(retry, 15000, 5000, 20000, [], d, end);
    es := QuietPeriod(retry, 15000, es, d, 10000, end);
    es := QuietPeriod(retry, 10000, es, d, 8000, end);
    TimeoutStep(8000, 10000, d);
    LeadsStep(request, 8000, 10000, Fail(Request(1, 0)), retry, 8000, 10000, es, d, end);
    es := [Fail(Request(1, 0))] + es;
    es := Wait(request, 5000, 3000, 10000, es, d, end);
    es := QuietPeriod(request, 5000, es, d, 0, end);
  }

  /** ... and that bound is exact: from 11.5 s on a healthy run can trip it. */
  lemma HealthyCanTrip(d: nat)
    requires d >= WatchdogSilence - HealthyGap
    ensures exists s, es :: JustStarted(s) && Timely(s, es, d) && NoLoss(es) && Trips(After(s, es).loop)
  {
    hide JustStarted, Timely, NoLoss;
    PageStart(5000);
    var es := TrippingRun(d);
  }

  // ----- Recovery -----

  predicate LogReturns(es: seq<Event>) {
    forall e | e in es && e.Watchdog? :: e.logReturns
  }

  lemma StepKeepsWatch(s: Timed, e: Event, d: nat)
    requires Sane(s, d) && s.watchdogDue <= s.loop.lastTick + RecoveryGap
    requires TimedEnabled(s, e, d) && (e.Watchdog? ==> e.logReturns)
    ensures TimedNext(s, e).watchdogDue <= TimedNext(s, e).loop.lastTick + RecoveryGap
  {
    hide Consistent, ReplyDelay, Executed;
    StepTimes(s, e, d);
  }

  lemma {:induction false} WatchRun(s: Timed, es: seq<Event>, d: nat)
    requires Sane(s, d) && s.watchdogDue <= s.loop.lastTick + RecoveryGap
    requires Timely(s, es, d) && LogReturns(es)
    ensures Sane(After(s, es), d) && After(s, es).watchdogDue <= After(s, es).loop.lastTick + RecoveryGap
    decreases |es|
  {
    hide Sane;
    if es != [] {
      StepKeepsSane(s, es[0], d);
      StepKeepsWatch(s, es[0], d);
      WatchRun(TimedNext(s, es[0]), es[1..], d);
    }
  }

  /** Whatever callbacks are lost, the silence stays below 25 s plus the lateness,
      provided the watchdog's own log call returns. */
  lemma SilenceIsBounded(s: Timed, es: seq<Event>, d: nat)
    requires JustStarted(s) && Timely(s, es, d) && LogReturns(es)
    ensures After(s, es).loop.now - After(s, es).loop.lastTick <= RecoveryGap + d
  {
    StartIsSane(s, d);
    WatchRun(s, es, d);
  }

  /** No activity survives: nothing live, and no late response of an older chain that
      could still mark the loop. */
  ghost predicate Dead(s: Loop) {
    NoneLive(s) && forall a | a in s.pending :: a.Timer?
  }

  lemma StepKeepsDead(s: Loop, e: Event)
    requires Dead(s) && Consistent(s) && Enabled(s, e)
    ensures Next(s, e).generation == s.generation ==> Dead(Next(s, e)) && Next(s, e).lastTick == s.lastTick
  {
    if IsCallback(e) {
      StaleCallbackSpawnsNothing(s, e);
    }
  }

  /** The chain is gone, and what older chains still have in flight cannot mark the loop
      after `limit`. */
  ghost predicate Lost(s: Loop, limit: int) {
    && NoneLive(s) && s.lastTick <= limit
    && forall a | a in s.pending && a.Request? :: a.sentAt + RequestTimeout <= limit
  }

  lemma StepKeepsLost(s: Timed, e: Event, d: nat, limit: int)
    requires Lost(s.loop, limit) && Sane(s, d) && TimedEnabled(s, e, d)
    ensures Next(s.loop, e).generation == s.loop.generation ==> Lost(Next(s.loop, e), limit)
  {
    hide ReplyDelay, Executed;
    DeadUntilRestart(s.loop, e);
    if IsCallback(e) {
      StaleCallbackSpawnsNothing(s.loop, e);
      assert Caller(e) in s.loop.pending;
    }
  }

  /** The run from `s` replaces the chain by exactly one new one, no later than `time`. */
  ghost predicate ReplacedBy(s: Timed, es: seq<Event>, time: int) {
    exists n | 0 < n <= |es| :: ReplacedAt(s, es, n, time)
  }

  ghost predicate ReplacedAt(s: Timed, es: seq<Event>, n: nat, time: int)
    requires n <= |es|
  {
    var t := After(s, es[..n]).loop;
    t.generation == s.loop.generation + 1 && OneLive(t) && t.now <= time
  }

  lemma {:induction false} LostChainIsReplaced(s: Timed, es: seq<Event>, d: nat, limit: int)
    requires Sane(s, d) && s.watchdogDue <= s.loop.lastTick + RecoveryGap && Lost(s.loop, limit)
    requires Timely(s, es, d) && LogReturns(es)
    requires After(s, es).loop.now > limit + RecoveryGap + d
    ensures ReplacedBy(s, es, limit + RecoveryGap + d)
    decreases |es|
  {
    SaneNow(s, d);
    assert s.loop.lastTick <= limit;
    hide Sane, Lost, OneLive, Consistent;
    assert es != [];
    var e := es[0];
    var next := TimedNext(s, e);
    SaneIsConsistent(s, d);
    StepGeneration(s.loop, e);
    StepKeepsLost(s, e, d, limit);
    StepKeepsSane(s, e, d);
    StepKeepsWatch(s, e, d);
    assert es[..1] == [e] && After(s, [e]) == next by {
      assert [e][1..] == [];
    }
    if next.loop.generation == s.loop.generation + 1 {
      RestartTakesNoTime(s.loop, e);
      assert ReplacedAt(s, es, 1, limit + RecoveryGap + d);
    } else {
      LostChainIsReplaced(next, es[1..], d, limit);
      var n :| 0 < n <= |es[1..]| && ReplacedAt(next, es[1..], n, limit + RecoveryGap + d);
      assert es[..n + 1][1..] == es[1..][..n] && es[..n + 1][0] == e;
      assert After(s, es[..n + 1]) == After(next, es[1..][..n]);
      assert ReplacedAt(s, es, n + 1, limit + RecoveryGap + d);
    }
  }

  lemma {:induction false} TimelySplit(s: Timed, before: seq<Event>, after: seq<Event>, d: nat)
    requires Timely(s, before + after, d)
    ensures Timely(s, before, d) && Timely(After(s, before), after, d)
    decreases |before|
  {
    if before == [] {
      assert before + after == after;
    } else {
      var e := before[0];
      assert (before + after)[0] == e && (before + after)[1..] == before[1..] + after;
      TimelySplit(TimedNext(s, e), before[1..], after, d);
    }
  }

  lemma ReachedIsWatched(s: Timed, before: seq<Event>, after: seq<Event>, d: nat)
    requires JustStarted(s) && Timely(s, before + after, d) && LogReturns(before + after)
    ensures var m := After(s, before);
      && Sane(m, d) && m.watchdogDue <= m.loop.lastTick + RecoveryGap && Timely(m, after, d) && LogReturns(after)
  {
    TimelySplit(s, before, after, d);
    assert forall e | e in before :: e in before + after;
    assert forall e | e in after :: e in before + after;
    StartIsSane(s, d);
    WatchRun(s, before, d);
  }

  lemma DeadIsLost(s: Loop)
    requires Dead(s)
    ensures Lost(s, s.lastTick)
  {
  }

  /** A chain with no surviving activity, at any point of any run of the page, is replaced
      by exactly one new chain less than 25 s plus the lateness after its last mark. */
  lemma DeadChainReplaced(s: Timed, before: seq<Event>, after: seq<Event>, d: nat)
    requires JustStarted(s) && Timely(s, before + after, d) && LogReturns(before + after)
    requires Dead(After(s, before).loop)
    requires After(After(s, before), after).loop.now > After(s, before).loop.lastTick + RecoveryGap + d
    ensures ReplacedBy(After(s, before), after, After(s, before).loop.lastTick + RecoveryGap + d)
  {
    hide Sane, Lost, JustStarted, Timely, After, LogReturns, ReplacedBy;
    ReachedIsWatched(s, before, after, d);
    DeadIsLost(After(s, before).loop);
    LostChainIsReplaced(After(s, before), after, d, After(s, before).loop.lastTick);
  }

  /** A chain that has lost its live activity, whatever older chains have in flight, is
      replaced in less than 33 s plus the lateness: their responses can still mark the loop
      for 8 s, and each mark puts the watchdog off. */
  lemma LostChainReplaced(s: Timed, before: seq<Event>, after: seq<Event>, d: nat)
    requires JustStarted(s) && Timely(s, before + after, d) && LogReturns(before + after)
    requires NoneLive(After(s, before).loop)
    requires After(After(s, before), after).loop.now > After(s, before).loop.now + RequestTimeout + RecoveryGap + d
    ensures ReplacedBy(After(s, before), after, After(s, before).loop.now + RequestTimeout + RecoveryGap + d)
  {
    hide Sane, NoneLive, Lost, SentBefore, JustStarted, Timely, After, LogReturns, ReplacedBy;
    var m := After(s, before);
    ReachedIsWatched(s, before, after, d);
    StartKeepsSent(s);
    RunKeepsSent(s, before);
    SentIsLost(m, d);
    LostChainIsReplaced(m, after, d, m.loop.now + RequestTimeout);
  }

  lemma SaneNow(s: Timed, d: nat)
    requires Sane(s, d)
    ensures s.loop.now <= s.watchdogDue + d
  {
  }

  lemma RestartTakesNoTime(s: Loop, e: Event)
    requires Next(s, e).generation != s.generation
    ensures Next(s, e).now == s.now
  {
  }

  /** Requests in flight were sent in the past. */
  ghost predicate SentBefore(s: Loop) {
    forall a | a in s.pending && a.Request? :: a.sentAt <= s.now
  }

  lemma StepKeepsSent(s: Loop, e: Event)
    requires SentBefore(s)
    ensures SentBefore(Next(s, e))
  {
    forall a | a in Next(s, e).pending && a.Request? ensures a.sentAt <= Next(s, e).now {
      hide Next;
      SameClock(s, e);
      if a !in s.pending {
        NewActivities(s, e, a);
      } else {
        ClockAdvances(s, e);
      }
    }
  }

  lemma ClockAdvances(s: Loop, e: Event)
    ensures s.now <= Next(s, e).now
  {
    if !e.Elapse? {
      SameClock(s, e);
    }
  }

  lemma {:induction false} RunKeepsSent(s: Timed, es: seq<Event>)
    requires SentBefore(s.loop)
    ensures SentBefore(After(s, es).loop)
    decreases |es|
  {
    if es != [] {
      hide SentBefore, Next;
      StepKeepsSent(s.loop, es[0]);
      RunKeepsSent(TimedNext(s, es[0]), es[1..]);
    }
  }

  lemma StartKeepsSent(s: Timed)
    requires JustStarted(s)
    ensures SentBefore(s.loop)
  {
    hide Consistent;
    var now, attempt :| s.loop == Started(Initial(now), attempt);
  }

  lemma SentIsLost(s: Timed, d: nat)
    requires Sane(s, d) && NoneLive(s.loop) && SentBefore(s.loop)
    ensures Lost(s.loop, s.loop.now + RequestTimeout)
  {
  }

  // ----- The bounds are exact -----

  lemma {:induction false} AfterSplit(s: Timed, before: seq<Event>, after: seq<Event>)
    ensures After(s, before + after) == After(After(s, before), after)
    decreases |before|
  {
    if before == [] {
      assert before + after == after;
    } else {
      assert (before + after)[0] == before[0] && (before + after)[1..] == before[1..] + after;
      AfterSplit(TimedNext(s, before[0]), before[1..], after);
    }
  }

  lemma {:induction false} GenerationsGrow(s: Timed, es: seq<Event>)
    ensures s.loop.generation <= After(s, es).loop.generation
    decreases |es|
  {
    if es != [] {
      GenerationGrows(s.loop, es[0]);
      GenerationsGrow(TimedNext(s, es[0]), es[1..]);
    }
  }

  lemma GenerationGrows(s: Loop, e: Event)
    ensures s.generation <= Next(s, e).generation
  {
    hide ReplyDelay, Executed;
  }

  lemma NotReplaced(s: Timed, es: seq<Event>, time: int)
    requires After(s, es).loop.generation == s.loop.generation
    ensures !ReplacedBy(s, es, time)
  {
    hide After;
    forall n | 0 < n <= |es| ensures !ReplacedAt(s, es, n, time) {
      assert es[..n] + es[n..] == es;
      AfterSplit(s, es[..n], es[n..]);
      GenerationsGrow(After(s, es[..n]), es[n..]);
    }
  }

  /** With nothing pending and the watchdog due just before the mark is 5 s old, it looks
      four times in vain, and once more as late as it can. */
  lemma LongestSilence(l: Loop, d: nat) returns (es: seq<Event>)
    requires l.pending == multiset{}
    ensures Leads(l, l.lastTick, l.lastTick + 4999, es, d,
                  Waiting(l, l.lastTick + RecoveryGap + d, l.lastTick + RecoveryGap))
  {
    var mark := l.lastTick;
    assert forall now :: Outlasts(l, now, d);
    hide Leads, Waiting, Outlasts;
    var end := Waiting(l, mark + RecoveryGap + d, mark + RecoveryGap);
    LeadsNowhere(l, mark + RecoveryGap + d, mark + RecoveryGap, d);
    assert Outlasts(l, mark + RecoveryGap + d, d);
    es := Wait(l, mark + 19999, 5000 + d, mark + RecoveryGap, [], d, end);
    assert Outlasts(l, mark + 19999, d) && Outlasts(l, mark + 14999, d);
    es := QuietPeriod(l, mark + 19999, es, d, mark + 14999, end);
    es := QuietPeriod(l, mark + 14999, es, d, mark + 9999, end);
    assert Outlasts(l, mark + 9999, d) && Outlasts(l, mark + 4999, d);
    es := QuietPeriod(l, mark + 9999, es, d, mark + 4999, end);
    es := QuietPeriod(l, mark + 4999, es, d, mark, end);
  }

  /** A dead chain can stay unreplaced exactly as long as the bound of DeadChainReplaced. */
  lemma DeadChainCanWait(d: nat) returns (s: Timed, before: seq<Event>, after: seq<Event>)
    ensures JustStarted(s) && Timely(s, before + after, d) && LogReturns(before + after)
    ensures Dead(After(s, before).loop)
    ensures After(After(s, before), after).loop.now == After(s, before).loop.lastTick + RecoveryGap + d
    ensures forall time :: !ReplacedBy(After(s, before), after, time)
  {
    var request := Request(1, 0);
    var l := WaitingFor(request).(pending := multiset{});
    s, before := Waiting(WaitingFor(request), 0, 4999), [Lose(request)];
    PageStart(4999);
    after := LongestSilence(l, d);
    assert multiset{request} - multiset{request} == multiset{};
    assert TimedEnabled(s, Lose(request), d) && TimedNext(s, Lose(request)) == Waiting(l, 0, 4999);
    Lossy(s, request, Waiting(l, 0, 4999), after, d);
    forall time ensures !ReplacedBy(After(s, before), after, time) {
      NotReplaced(After(s, before), after, time);
    }
  }

  lemma Lossy(s: Timed, request: Activity, t: Timed, after: seq<Event>, d: nat)
    requires TimedEnabled(s, Lose(request), d) && TimedNext(s, Lose(request)) == t
    requires Timely(t, after, d) && LogReturns(after)
    ensures Timely(s, [Lose(request)] + after, d) && LogReturns([Lose(request)] + after)
    ensures After(s, [Lose(request)]) == t
  {
    TimelyCons(s, Lose(request), after, d);
    assert [Lose(request)][1..] == [];
  }

  /** What an older chain leaves behind: the page starts twice, and the second chain's request
      is lost. */
  function Abandoned(pending: multiset<Activity>): Loop {
    Loop(2, 0, true, 0, 0, pending)
  }

  lemma RestartAndLose(due: int, d: nat)
    requires due >= 0
    ensures var request, newer := Request(1, 0), Request(2, 0);
      var s, t := Waiting(WaitingFor(request), 0, due), Waiting(Abandoned(multiset{request, newer}), 0, due);
      && TimedEnabled(s, Start(Attempt(true, true)), d) && TimedNext(s, Start(Attempt(true, true))) == t
      && TimedEnabled(t, Lose(newer), d) && TimedNext(t, Lose(newer)) == Waiting(Abandoned(multiset{request}), 0, due)
  {
    assert multiset{Request(1, 0)} + multiset{Request(2, 0)} == multiset{Request(1, 0), Request(2, 0)};
    assert multiset{Request(1, 0), Request(2, 0)} - multiset{Request(2, 0)} == multiset{Request(1, 0)};
  }

  /** The abandoned request answers at the last moment. */
  lemma LateAnswer(due: int, d: nat)
    ensures var request, marked := Request(1, 0), Abandoned(multiset{}).(lastTick := RequestTimeout);
      var s := Waiting(Abandoned(multiset{request}), RequestTimeout, due);
      && TimedEnabled(s, Load(request, Nothing), d)
      && TimedNext(s, Load(request, Nothing)) == Waiting(marked, RequestTimeout, due)
  {
    assert multiset{Request(1, 0)} - multiset{Request(1, 0)} == multiset{};
  }

  lemma LongestLoss(d: nat) returns (es: seq<Event>)
    ensures var marked := Abandoned(multiset{}).(lastTick := RequestTimeout);
      Leads(Abandoned(multiset{Request(1, 0)}), 0, 2999, es, d,
            Waiting(marked, RequestTimeout + RecoveryGap + d, RequestTimeout + RecoveryGap))
  {
    var lost, marked := Abandoned(multiset{Request(1, 0)}), Abandoned(multiset{}).(lastTick := RequestTimeout);
    var end := Waiting(marked, RequestTimeout + RecoveryGap + d, RequestTimeout + RecoveryGap);
    assert Outlasts(lost, 8000, d) && Outlasts(lost, 7999, d) && Outlasts(lost, 2999, d);
    hide Leads, Waiting, TimedEnabled, TimedNext, Outlasts;
    es := LongestSilence(marked, d);
    LateAnswer(12999, d);
    LeadsStep(lost, 8000, 12999, Load(Request(1, 0), Nothing), marked, 8000, 12999, es, d, end);
    es := Wait(lost, 7999, 1, 12999, [Load(Request(1, 0), Nothing)] + es, d, end);
    es := QuietPeriod(lost, 7999, es, d, 2999, end);
    es := QuietPeriod(lost, 2999, es, d, 0, end);
  }

  /** A lost chain can stay unreplaced exactly as long as the bound of LostChainReplaced. */
  lemma LostChainCanWait(d: nat) returns (s: Timed, before: seq<Event>, after: seq<Event>)
    ensures JustStarted(s) && Timely(s, before + after, d) && LogReturns(before + after)
    ensures NoneLive(After(s, before).loop)
    ensures After(After(s, before), after).loop.now
         == After(s, before).loop.now + RequestTimeout + RecoveryGap + d
    ensures forall time :: !ReplacedBy(After(s, before), after, time)
  {
    var newer := Request(2, 0);
    var lost := Waiting(Abandoned(multiset{Request(1, 0)}), 0, 2999);
    var restart := Start(Attempt(true, true));
    s, before := Waiting(WaitingFor(Request(1, 0)), 0, 2999), [restart, Lose(newer)];
    PageStart(2999);
    RestartAndLose(2999, d);
    after := LongestLoss(d);
    hide JustStarted, TimedEnabled, TimedNext;
    Lossy(TimedNext(s, restart), newer, lost, after, d);
    assert before + after == [restart] + ([Lose(newer)] + after);
    TimelyCons(s, restart, [Lose(newer)] + after, d);
    assert before[1..] == [Lose(newer)];
    forall time ensures !ReplacedBy(After(s, before), after, time) {
      NotReplaced(After(s, before), after, time);
    }
  }

  // ----- Without another start of the page -----

  /** Every request in flight belongs to the current chain. */
  ghost predicate NoStaleRequest(s: Loop) {
    forall a | a in s.pending && a.Request? :: a.generation == s.generation && a.sentAt <= s.lastTick
  }

  lemma StepKeepsNoStaleRequest(s: Timed, e: Event, d: nat)
    requires Sane(s, d) && NoStaleRequest(s.loop) && TimedEnabled(s, e, d) && !e.Start?
    ensures NoStaleRequest(Next(s.loop, e))
  {
    var t := Next(s.loop, e);
    StepTimes(s, e, d);
    forall a | a in t.pending && a.Request? ensures a.generation == t.generation && a.sentAt <= t.lastTick {
      if a in s.loop.pending {
        KeepsGeneration(s, e, a, d);
      } else {
        NewActivities(s.loop, e, a);
      }
    }
  }

  /** The watchdog trips after more time than a request has. */
  lemma KeepsGeneration(s: Timed, e: Event, a: Activity, d: nat)
    requires OnTime(s, s.loop.now, d) && !e.Start?
    requires a in s.loop.pending && a.Request? && a.sentAt <= s.loop.lastTick
    ensures Next(s.loop, e).generation == s.loop.generation
  {
    hide ReplyDelay, Executed;
    assert s.loop.now <= Deadline(a, d);
  }

  lemma {:induction false} RunKeepsNoStaleRequest(s: Timed, es: seq<Event>, d: nat)
    requires Sane(s, d) && NoStaleRequest(s.loop) && Timely(s, es, d) && forall e | e in es :: !e.Start?
    ensures NoStaleRequest(After(s, es).loop)
    decreases |es|
  {
    if es != [] {
      hide Sane, NoStaleRequest;
      StepKeepsSane(s, es[0], d);
      StepKeepsNoStaleRequest(s, es[0], d);
      RunKeepsNoStaleRequest(TimedNext(s, es[0]), es[1..], d);
    }
  }

  /** While only the watchdog restarts the loop no request of an older chain is ever in
      flight, so that a lost chain is a dead one. */
  lemma OwnRestartsLeaveNothing(s: Timed, es: seq<Event>, d: nat)
    requires JustStarted(s) && Timely(s, es, d) && forall e | e in es :: !e.Start?
    ensures NoStaleRequest(After(s, es).loop)
    ensures NoneLive(After(s, es).loop) ==> Dead(After(s, es).loop)
  {
    StartIsSane(s, d);
    StartHasNoStaleRequest(s);
    RunKeepsNoStaleRequest(s, es, d);
  }

  lemma StartHasNoStaleRequest(s: Timed)
    requires JustStarted(s)
    ensures NoStaleRequest(s.loop)
  {
    var now, attempt :| s.loop == Started(Initial(now), attempt);
  }

  /** Without a returning log call nothing but the page itself can restart the loop:
      the hypothesis of the recovery results is needed. */
  lemma {:induction false} NoLogNoRecovery(s: Timed, es: seq<Event>, d: nat)
    requires Consistent(s.loop) && Dead(s.loop) && Timely(s, es, d)
    requires forall e | e in es :: !e.Start? && (e.Watchdog? ==> !e.logReturns)
    ensures Dead(After(s, es).loop) && After(s, es).loop.lastTick == s.loop.lastTick
    decreases |es|
  {
    hide Dead, Consistent;
    if es != [] {
      var e := es[0];
      assert e in es;
      StepKeepsDead(s.loop, e);
      StepKeepsConsistent(s.loop, e);
      assert Next(s.loop, e).generation == s.loop.generation;
      NoLogNoRecovery(TimedNext(s, e), es[1..], d);
    }
  }
}
