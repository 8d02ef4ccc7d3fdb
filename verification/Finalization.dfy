/** The terminal obligations of a session: evidence is written, the session is closed, the
    failures are gathered and reported, and a cancellation stays in flight, whichever of
    these operations raises. */
module Finalization {
  import opened Outcomes
  import opened Sequences

  /** A raised exception. `cancels` says it is outside Python's `Exception` hierarchy, as
      `KeyboardInterrupt` is. */
  datatype Fault = Fault(name: string, text: string, cancels: bool)

  datatype Call = Returns | Raises(fault: Fault)

  datatype Gathered = Failures(texts: seq<string>) | GatherRaises(fault: Fault)

  datatype Stage = Initial | Prepare | Write | Close | Secondary | Report

  /** What every operation given to `finalize_session` does when it is called. */
  datatype Operations = Operations(
    prepare: Call, write: Call, close: Call, secondary: Gathered, report: Call,
    deferReport: bool, initial: Option<Fault>)

  /** An exception and the operation that raised it; `Initial` is the one the caller was
      already handling. */
  datatype Failure = Failure(stage: Stage, fault: Fault)

  /** A line of the errors: gathered from the owner, or recorded for an exception. */
  datatype Line = Gather(text: string) | Recorded(failure: Failure)

  datatype Ending = Returned(errors: seq<Line>) | Raised(interruption: Failure, attached: seq<Line>)

  // ----- What must happen to the failures -----

  predicate Interrupts(f: Failure) {
    f.stage.Initial? || f.fault.cancels
  }

  /** The earliest interruption. */
  function Earliest(fs: seq<Failure>): Option<Failure> {
    if fs == [] then None
    else if Interrupts(fs[0]) then Some(fs[0])
    else Earliest(fs[1..])
  }

  /** All failures but the earliest interruption. */
  function Others(fs: seq<Failure>): seq<Failure> {
    if fs == [] then []
    else if Interrupts(fs[0]) then fs[1..]
    else [fs[0]] + Others(fs[1..])
  }

  function Lines(fs: seq<Failure>): seq<Line> {
    seq(|fs|, i requires 0 <= i < |fs| => Recorded(fs[i]))
  }

  function Texts(texts: seq<string>): seq<Line> {
    seq(|texts|, i requires 0 <= i < |texts| => Gather(texts[i]))
  }

  /** The exception a call raised, if any. */
  function Of(stage: Stage, call: Call): seq<Failure> {
    if call.Raises? then [Failure(stage, call.fault)] else []
  }

  /** The failures up to and including the closing of the session, in time order. The
      evidence is written only when its preparation returned. */
  function UntilClose(ops: Operations): seq<Failure> {
    (if ops.initial.Some? then [Failure(Initial, ops.initial.value)] else [])
    + (if ops.prepare.Raises? then Of(Prepare, ops.prepare) else Of(Write, ops.write))
    + Of(Close, ops.close)
  }

  function GatherFailure(ops: Operations): seq<Failure> {
    if ops.secondary.GatherRaises? then [Failure(Secondary, ops.secondary.fault)] else []
  }

  function UntilReport(ops: Operations): seq<Failure> {
    UntilClose(ops) + GatherFailure(ops)
  }

  /** Of the failures `fs` that come after `earlier`, those that are not the interruption. */
  function Left(earlier: seq<Failure>, fs: seq<Failure>): seq<Failure> {
    if Earliest(earlier).None? then Others(fs) else fs
  }

  /** The lines of the secondary failures: those gathered, or the failure to gather them
      unless that is the interruption. */
  function SecondaryLines(ops: Operations): seq<Line> {
    match ops.secondary
    case Failures(texts) => Texts(texts)
    case GatherRaises(_) => Lines(Left(UntilClose(ops), GatherFailure(ops)))
  }

  function LinesToReport(ops: Operations): seq<Line> {
    SecondaryLines(ops) + Lines(Others(UntilClose(ops)))
  }

  /** Errors are reported unless reporting is deferred and no interruption is pending. */
  predicate Reports(ops: Operations) {
    LinesToReport(ops) != [] && (!ops.deferReport || Earliest(UntilReport(ops)).Some?)
  }

  function ReportFailure(ops: Operations): seq<Failure> {
    if Reports(ops) then Of(Report, ops.report) else []
  }

  /** Every failure of the session, in time order. */
  function Everything(ops: Operations): seq<Failure> {
    UntilReport(ops) + ReportFailure(ops)
  }

  /** The operations that are called, in order. */
  function Calls(ops: Operations): seq<Stage> {
    [Prepare] + (if ops.prepare.Returns? then [Write] else []) + [Close, Secondary]
    + if Reports(ops) then [Report] else []
  }

  /** The earliest interruption is re-raised with the errors attached; without one they
      are returned. */
  function EndingOf(ops: Operations): Ending {
    var errors := LinesToReport(ops) + Lines(Left(UntilReport(ops), ReportFailure(ops)));
    match Earliest(Everything(ops))
    case None => Returned(errors)
    case Some(interruption) => Raised(interruption, errors)
  }

  lemma OthersHead(fs: seq<Failure>, gs: seq<Failure>)
    requires fs != []
    ensures Earliest(fs + gs) == if Interrupts(fs[0]) then Some(fs[0]) else Earliest(fs[1..] + gs)
    ensures Others(fs + gs) == if Interrupts(fs[0]) then fs[1..] + gs else [fs[0]] + Others(fs[1..] + gs)
  {
    assert (fs + gs)[1..] == fs[1..] + gs;
  }

  lemma {:induction false} Append(fs: seq<Failure>, gs: seq<Failure>)
    ensures Earliest(fs + gs) == if Earliest(fs).Some? then Earliest(fs) else Earliest(gs)
    ensures Others(fs + gs) == if Earliest(fs).Some? then Others(fs) + gs else fs + Others(gs)
    ensures Earliest(fs).None? ==> Others(fs) == fs
  {
    if fs == [] {
      assert fs + gs == gs && fs + Others(gs) == Others(gs);
    } else {
      OthersHead(fs, gs);
      OthersHead(fs, []);
      assert fs + [] == fs && fs[1..] + [] == fs[1..] && fs == [fs[0]] + fs[1..];
      hide *;
      if !Interrupts(fs[0]) {
        Append(fs[1..], gs);
        AppendAssociates([fs[0]], Others(fs[1..]), gs);
        AppendAssociates([fs[0]], fs[1..], Others(gs));
      }
    }
  }

  lemma AppendOne(fs: seq<Failure>, f: Failure)
    ensures Earliest(fs + [f]) == if Earliest(fs).Some? then Earliest(fs)
                                  else if Interrupts(f) then Some(f) else None
    ensures Others(fs + [f]) == if Earliest(fs).None? && Interrupts(f) then Others(fs) else Others(fs) + [f]
    ensures Lines(Others(fs) + [f]) == Lines(Others(fs)) + [Recorded(f)]
  {
    Append(fs, [f]);
  }

  // ----- The mechanism -----

  /** What one `except` chain does with a failure: an `Exception` is recorded, anything else
      becomes the interruption unless one is already in flight. */
  method Catch(interruption: Option<Failure>, errors: seq<Line>, failure: Failure, ghost fs: seq<Failure>)
    returns (inFlight: Option<Failure>, lines: seq<Line>)
    requires interruption == Earliest(fs) && errors == Lines(Others(fs)) && !failure.stage.Initial?
    ensures inFlight == Earliest(fs + [failure]) && lines == Lines(Others(fs + [failure]))
  {
    AppendOne(fs, failure);
    if !failure.fault.cancels {
      return interruption, errors + [Recorded(failure)];
    } else if interruption.None? {
      return Some(failure), errors;
    } else {
      return interruption, errors + [Recorded(failure)];
    }
  }

  /** A failed report is added to the errors; only what is outside `Exception` leaves. */
  method ReportTerminalErrors(errors: seq<Line>, report: Call) returns (lines: seq<Line>, escaping: Option<Fault>)
    ensures report.Raises? && report.fault.cancels ==> escaping == Some(report.fault) && lines == errors
    ensures !(report.Raises? && report.fault.cancels) ==>
      escaping == None && lines == errors + Lines(Of(Report, report))
  {
    lines, escaping := errors, None;
    if report.Raises? {
      if report.fault.cancels {
        escaping := Some(report.fault);
      } else {
        lines := errors + [Recorded(Failure(Report, report.fault))];
      }
    }
  }

  /** The first two obligations: the evidence, then the closing. */
  method WriteAndClose(ops: Operations)
    returns (interruption: Option<Failure>, errors: seq<Line>, calls: seq<Stage>)
    ensures interruption == Earliest(UntilClose(ops)) && errors == Lines(Others(UntilClose(ops)))
    ensures calls == [Prepare] + (if ops.prepare.Returns? then [Write] else []) + [Close]
  {
    hide Lines, Earliest, Others;
    interruption, errors := None, [];
    ghost var fs: seq<Failure> := [];
    NoFailures();
    if ops.initial.Some? {
      interruption := Some(Failure(Initial, ops.initial.value));
      fs := [Failure(Initial, ops.initial.value)];
      OneFailure(fs[0]);
    }

    calls := [Prepare];
    if ops.prepare.Returns? {
      calls := calls + [Write];
      if ops.write.Raises? {
        interruption, errors := Catch(interruption, errors, Failure(Write, ops.write.fault), fs);
        fs := fs + [Failure(Write, ops.write.fault)];
      }
    } else {
      interruption, errors := Catch(interruption, errors, Failure(Prepare, ops.prepare.fault), fs);
      fs := fs + [Failure(Prepare, ops.prepare.fault)];
    }

    calls := calls + [Close];
    if ops.close.Raises? {
      interruption, errors := Catch(interruption, errors, Failure(Close, ops.close.fault), fs);
      fs := fs + [Failure(Close, ops.close.fault)];
    }
    assert fs == UntilClose(ops);
  }

  /** `finalize_session`. `calls` are the operations called, and `reported` is what the
      reporter was given. The interruption in flight at the end is the earliest one, and
      the errors are the secondary failures, then every other failure in time order. */
  method FinalizeSession(ops: Operations)
    returns (ending: Ending, calls: seq<Stage>, reported: Option<seq<Line>>)
    ensures calls == Calls(ops)
    ensures reported == if Reports(ops) then Some(LinesToReport(ops)) else None
    ensures ending == EndingOf(ops)
    ensures InTurn(ops, calls) && RaisesFirst(ops, calls, ending) && RecordsAll(ops, calls, ending)
    ensures InPlace(ops, ending) && ReportsErrors(ops, calls, ending, reported)
  {
    hide Lines, Earliest, Others, UntilClose, UntilReport, LinesToReport;
    hide InTurn, RaisesFirst, RecordsAll, InPlace, ReportsErrors;
    ObligationsMet(ops);
    var interruption, errors;
    interruption, errors, calls := WriteAndClose(ops);

    calls := calls + [Secondary];
    interruption, errors := GatherSecondary(ops, interruption, errors);

    reported := None;
    if errors != [] && (!ops.deferReport || interruption.Some?) {
      calls := calls + [Report];
      reported := Some(errors);
      interruption, errors := ReportErrors(ops, interruption, errors);
    } else {
      NoFailures();
      assert Everything(ops) == UntilReport(ops);
    }

    if interruption.Some? {
      ending := Raised(interruption.value, errors);
    } else {
      ending := Returned(errors);
    }
  }

  lemma NoFailures()
    ensures Lines([]) == [] && Others([]) == [] && Earliest([]).None?
  {
  }

  lemma OneFailure(f: Failure)
    ensures Earliest([f]) == if Interrupts(f) then Some(f) else None
    ensures Others([f]) == if Interrupts(f) then [] else [f]
    ensures Lines([]) == [] && Lines([f]) == [Recorded(f)]
  {
  }

  /** The failures the owner gathered go before those recorded so far. */
  method GatherSecondary(ops: Operations, interruption: Option<Failure>, errors: seq<Line>)
    returns (inFlight: Option<Failure>, lines: seq<Line>)
    requires interruption == Earliest(UntilClose(ops)) && errors == Lines(Others(UntilClose(ops)))
    ensures inFlight == Earliest(UntilReport(ops)) && lines == LinesToReport(ops)
  {
    hide UntilClose, Earliest, Others, Lines;
    inFlight, lines := interruption, errors;
    match ops.secondary {
      case Failures(texts) =>
        assert UntilReport(ops) == UntilClose(ops);
        lines := Texts(texts) + errors;
      case GatherRaises(fault) =>
        var failure := Failure(Secondary, fault);
        AppendOne(UntilClose(ops), failure);
        OneFailure(failure);
        assert GatherFailure(ops) == [failure];
        if fault.cancels && interruption.None? {
          inFlight := Some(failure);
        } else {
          lines := [Recorded(failure)] + errors;
        }
    }
  }

  /** The guarded call of the reporter. */
  method ReportErrors(ops: Operations, interruption: Option<Failure>, errors: seq<Line>)
    returns (inFlight: Option<Failure>, lines: seq<Line>)
    requires Reports(ops) && interruption == Earliest(UntilReport(ops)) && errors == LinesToReport(ops)
    ensures inFlight == Earliest(Everything(ops))
    ensures lines == LinesToReport(ops)
      + Lines(Left(UntilReport(ops), ReportFailure(ops)))
  {
    hide Reports, LinesToReport, UntilReport;
    inFlight, lines := interruption, errors;
    Append(UntilReport(ops), ReportFailure(ops));
    var reportedErrors, escaping := ReportTerminalErrors(errors, ops.report);
    if escaping.None? {
      lines := reportedErrors;
    } else if interruption.None? {
      inFlight := Some(Failure(Report, escaping.value));
    } else {
      lines := errors + [Recorded(Failure(Report, escaping.value))];
    }
  }

  // ----- What that means -----

  function Count<T(==)>(s: seq<T>, x: T): nat {
    multiset(s)[x]
  }

  /** Whatever raises, the session is closed exactly once, after the evidence and before
      the report. */
  lemma ClosedExactlyOnce(ops: Operations)
    ensures Count(Calls(ops), Close) == 1
    ensures forall i, j | 0 <= i < |Calls(ops)| && 0 <= j < |Calls(ops)| ::
      (Calls(ops)[i].Write? && Calls(ops)[j].Close?) || (Calls(ops)[i].Close? && Calls(ops)[j].Report?) ==> i < j
  {
    hide Reports;
  }

  /** The interruption raised is the first one in time: initial, then preparation or
      writing, closing, gathering, reporting. */
  lemma {:induction false} EarliestIsFirst(fs: seq<Failure>)
    ensures Earliest(fs).None? <==> forall f | f in fs :: !Interrupts(f)
    ensures Earliest(fs).Some? ==> exists k | 0 <= k < |fs| ::
      Earliest(fs) == Some(fs[k]) && Interrupts(fs[k]) && forall j | 0 <= j < k :: !Interrupts(fs[j])
  {
    if fs != [] && !Interrupts(fs[0]) {
      EarliestIsFirst(fs[1..]);
      if Earliest(fs).Some? {
        var k :| 0 <= k < |fs[1..]| && Earliest(fs) == Some(fs[1..][k]) && Interrupts(fs[1..][k])
                 && forall j | 0 <= j < k :: !Interrupts(fs[1..][j]);
        assert fs[k + 1] == fs[1..][k];
        assert forall j | 0 < j < k + 1 :: fs[j] == fs[1..][j - 1];
      }
    }
  }

  lemma {:induction false} NoneDropped(fs: seq<Failure>)
    ensures multiset(fs) == multiset(Others(fs))
      + if Earliest(fs).Some? then multiset{Earliest(fs).value} else multiset{}
  {
    if fs != [] {
      assert fs == [fs[0]] + fs[1..];
      if !Interrupts(fs[0]) {
        NoneDropped(fs[1..]);
      }
    }
  }

  lemma LinesMultiset(fs: seq<Failure>, f: Failure)
    ensures Count(Lines(fs), Recorded(f)) == Count(fs, f)
  {
    if fs != [] {
      var n := |fs| - 1;
      LinesMultiset(fs[..n], f);
      assert fs == fs[..n] + [fs[n]];
      assert Lines(fs) == Lines(fs[..n]) + [Recorded(fs[n])];
    } else {
      assert Lines(fs) == [];
    }
  }

  function ErrorsOf(ending: Ending): seq<Line> {
    if ending.Returned? then ending.errors else ending.attached
  }

  /** No failure is lost: each is recorded as often as it was raised, except that the one
      that is re-raised is not also recorded. Every gathered text is there, first. */
  lemma NoFailureIsLost(ops: Operations, f: Failure)
    ensures Count(ErrorsOf(EndingOf(ops)), Recorded(f))
            + (if EndingOf(ops).Raised? && EndingOf(ops).interruption == f then 1 else 0)
         == Count(Everything(ops), f)
    ensures ops.secondary.Failures? ==>
      && |ops.secondary.texts| <= |ErrorsOf(EndingOf(ops))|
      && forall i | 0 <= i < |ops.secondary.texts| :: ErrorsOf(EndingOf(ops))[i] == Gather(ops.secondary.texts[i])
  {
    hide Earliest, Others, Lines, UntilClose, UntilReport, ReportFailure, Left, LinesToReport;
    ToReportCounts(ops, f);
    ReportCounts(ops, f);
    Append(UntilReport(ops), ReportFailure(ops));
    if ops.secondary.Failures? {
      GatheredFirst(ops);
    }
  }

  lemma GatheredFirst(ops: Operations)
    requires ops.secondary.Failures?
    ensures Texts(ops.secondary.texts) <= LinesToReport(ops)
  {
  }

  lemma LeftCounts(earlier: seq<Failure>, fs: seq<Failure>, f: Failure)
    ensures Count(Lines(Left(earlier, fs)), Recorded(f))
      + (if Earliest(earlier).None? && Earliest(fs) == Some(f) then 1 else 0) == Count(fs, f)
  {
    hide Lines, Earliest, Others;
    NoneDropped(fs);
    LinesMultiset(Left(earlier, fs), f);
  }

  lemma GatherHasNoRecord(texts: seq<string>, f: Failure)
    ensures Count(Texts(texts), Recorded(f)) == 0
  {
    assert Recorded(f) !in Texts(texts);
  }

  lemma ToReportCounts(ops: Operations, f: Failure)
    ensures Count(LinesToReport(ops), Recorded(f)) + (if Earliest(UntilReport(ops)) == Some(f) then 1 else 0)
         == Count(UntilReport(ops), f)
  {
    hide UntilClose, Lines, Earliest, Others, Left;
    var close := UntilClose(ops);
    NoneDropped(close);
    LinesMultiset(Others(close), f);
    Append(close, GatherFailure(ops));
    LeftCounts(close, GatherFailure(ops), f);
    if ops.secondary.Failures? {
      GatherHasNoRecord(ops.secondary.texts, f);
      NoFailures();
    }
  }

  lemma ReportCounts(ops: Operations, f: Failure)
    ensures Count(Lines(Left(UntilReport(ops), ReportFailure(ops))), Recorded(f))
      + (if Earliest(UntilReport(ops)).None? && Earliest(Everything(ops)) == Some(f) then 1 else 0)
      == Count(ReportFailure(ops), f)
  {
    hide UntilReport, Lines, Earliest, Others, Reports, Left;
    Append(UntilReport(ops), ReportFailure(ops));
    LeftCounts(UntilReport(ops), ReportFailure(ops), f);
  }

  // ----- The obligations, operation by operation -----

  function Rank(stage: Stage): nat {
    match stage
    case Initial => 0
    case Prepare => 1
    case Write => 2
    case Close => 3
    case Secondary => 4
    case Report => 5
  }

  /** The caller came with this exception, or the operation was called and raised it. */
  predicate Happened(ops: Operations, calls: seq<Stage>, f: Failure) {
    match f.stage
    case Initial => ops.initial == Some(f.fault)
    case Prepare => Prepare in calls && ops.prepare == Raises(f.fault)
    case Write => Write in calls && ops.write == Raises(f.fault)
    case Close => Close in calls && ops.close == Raises(f.fault)
    case Secondary => Secondary in calls && ops.secondary == GatherRaises(f.fault)
    case Report => Report in calls && ops.report == Raises(f.fault)
  }

  /** Each operation is called at most once, in order; the evidence is written iff it could be
      prepared; closing and gathering are never left out. */
  ghost predicate InTurn(ops: Operations, calls: seq<Stage>) {
    && (forall i, j | 0 <= i < j < |calls| :: Rank(calls[i]) < Rank(calls[j])) && Initial !in calls
    && Prepare in calls && (Write in calls <==> ops.prepare.Returns?) && Close in calls && Secondary in calls
  }

  /** What leaves is the first failure in time that interrupts, if there is one. */
  ghost predicate RaisesFirst(ops: Operations, calls: seq<Stage>, ending: Ending) {
    match ending
    case Returned(_) => forall f | Happened(ops, calls, f) :: !Interrupts(f)
    case Raised(first, _) =>
      && Happened(ops, calls, first) && Interrupts(first)
      && forall f | Happened(ops, calls, f) && Interrupts(f) :: Rank(first.stage) <= Rank(f.stage)
  }

  /** Every failure that happened is the one that leaves or is recorded once, and nothing else
      is recorded. */
  ghost predicate RecordsAll(ops: Operations, calls: seq<Stage>, ending: Ending) {
    forall f :: Count(ErrorsOf(ending), Recorded(f)) ==
      if Happened(ops, calls, f) && !(ending.Raised? && ending.interruption == f) then 1 else 0
  }

  function GatheredTexts(ops: Operations): seq<string> {
    if ops.secondary.Failures? then ops.secondary.texts else []
  }

  /** A failure to gather comes before the failures recorded earlier. */
  predicate Before(a: Stage, b: Stage) {
    !b.Secondary? && (a.Secondary? || Rank(a) < Rank(b))
  }

  /** The gathered texts come first, then the recorded failures in order. */
  ghost predicate InPlace(ops: Operations, ending: Ending) {
    var lines, n := ErrorsOf(ending), |GatheredTexts(ops)|;
    && n <= |lines| && (forall i | 0 <= i < n :: lines[i] == Gather(GatheredTexts(ops)[i]))
    && (forall i | n <= i < |lines| :: lines[i].Recorded?)
    && (forall i, j | n <= i < j < |lines| :: Before(lines[i].failure.stage, lines[j].failure.stage))
  }

  predicate OfReport(line: Line) {
    line.Recorded? && line.failure.stage.Report?
  }

  /** The reporter gets the errors there are without its own failure, iff there are some and
      reporting is not deferred or an interruption is in flight. */
  ghost predicate ReportsErrors(ops: Operations, calls: seq<Stage>, ending: Ending, reported: Option<seq<Line>>) {
    var lines := ErrorsOf(ending);
    && (Report in calls <==> reported.Some?)
    && (reported.Some? <==>
          && (exists line | line in lines :: !OfReport(line))
          && (!ops.deferReport || exists f | Happened(ops, calls, f) :: Interrupts(f) && !f.stage.Report?))
    && (reported.Some? ==>
          && (forall line | line in reported.value :: !OfReport(line))
          && (|| lines == reported.value
              || exists f: Failure :: f.stage.Report? && lines == reported.value + [Recorded(f)]))
  }

  ghost predicate Ranked(fs: seq<Failure>) {
    forall i, j | 0 <= i < j < |fs| :: Rank(fs[i].stage) < Rank(fs[j].stage)
  }

  lemma RankedAppend(fs: seq<Failure>, gs: seq<Failure>, rank: nat)
    requires Ranked(fs) && forall f | f in fs :: Rank(f.stage) < rank
    requires gs == [] || (|gs| == 1 && Rank(gs[0].stage) == rank)
    ensures Ranked(fs + gs) && forall f | f in fs + gs :: Rank(f.stage) <= rank
  {
    forall i, j | 0 <= i < j < |fs + gs| ensures Rank((fs + gs)[i].stage) < Rank((fs + gs)[j].stage) {
      assert fs[i] in fs;
    }
  }

  lemma UntilCloseHappened(ops: Operations)
    ensures forall f :: f in UntilClose(ops) <==> Rank(f.stage) <= 3 && Happened(ops, Calls(ops), f)
    ensures Ranked(UntilClose(ops))
  {
    hide Reports;
  }

  lemma LaterHappened(ops: Operations)
    ensures forall f :: f in GatherFailure(ops) <==> f.stage.Secondary? && Happened(ops, Calls(ops), f)
    ensures forall f :: f in ReportFailure(ops) <==> f.stage.Report? && Happened(ops, Calls(ops), f)
    ensures |GatherFailure(ops)| <= 1 && |ReportFailure(ops)| <= 1
  {
    assert Secondary in Calls(ops) && (Report in Calls(ops) <==> Reports(ops));
    hide Calls, Reports;
  }

  lemma Members(fs: seq<Failure>, gs: seq<Failure>, hs: seq<Failure>, f: Failure)
    ensures f in fs + gs + hs <==> f in fs || f in gs || f in hs
  {
  }

  /** Each failure happens once, and the failures are in time order. */
  lemma EverythingHappened(ops: Operations)
    ensures forall f :: f in Everything(ops) <==> Happened(ops, Calls(ops), f)
    ensures Ranked(Everything(ops))
  {
    UntilCloseHappened(ops);
    LaterHappened(ops);
    hide Calls, Reports, UntilClose, GatherFailure, ReportFailure, Ranked, Happened;
    var fs, gs, hs := UntilClose(ops), GatherFailure(ops), ReportFailure(ops);
    if gs != [] {
      assert gs[0] in gs;
    }
    if hs != [] {
      assert hs[0] in hs;
    }
    RankedAppend(fs, gs, 4);
    RankedAppend(fs + gs, hs, 5);
    forall f ensures f in Everything(ops) <==> Happened(ops, Calls(ops), f) {
      Members(fs, gs, hs, f);
    }
  }

  lemma CalledInTurn(ops: Operations)
    ensures InTurn(ops, Calls(ops))
  {
    hide Reports;
  }

  lemma {:induction false} RankedOnce(fs: seq<Failure>, f: Failure)
    requires Ranked(fs)
    ensures Count(fs, f) == if f in fs then 1 else 0
  {
    if fs != [] {
      assert fs == [fs[0]] + fs[1..];
      RankedOnce(fs[1..], f);
      assert forall j | 0 < j < |fs| :: fs[j] == fs[1..][j - 1];
    }
  }

  lemma {:induction false} OthersRanked(fs: seq<Failure>)
    requires Ranked(fs)
    ensures Ranked(Others(fs)) && forall f | f in Others(fs) :: f in fs
  {
    hide Interrupts;
    if fs != [] && !Interrupts(fs[0]) {
      OthersRanked(fs[1..]);
      forall f | f in Others(fs[1..]) ensures Rank(fs[0].stage) < Rank(f.stage) {
        var k :| 0 <= k < |fs[1..]| && fs[1..][k] == f;
        assert fs[k + 1] == f;
      }
    }
  }

  lemma FirstIsRaised(ops: Operations)
    ensures RaisesFirst(ops, Calls(ops), EndingOf(ops))
  {
    hide Everything, Calls, Happened, Interrupts, Earliest, LinesToReport, ReportFailure, Left, Lines, Rank;
    var fs := Everything(ops);
    EverythingHappened(ops);
    EarliestIsFirst(fs);
    if Earliest(fs).Some? {
      var k :| 0 <= k < |fs| && Earliest(fs) == Some(fs[k]) && Interrupts(fs[k])
               && forall j | 0 <= j < k :: !Interrupts(fs[j]);
      assert fs[k] in fs;
      forall f | f in fs && Interrupts(f) ensures Rank(fs[k].stage) <= Rank(f.stage) {
        var l :| 0 <= l < |fs| && fs[l] == f;
      }
    }
  }

  lemma AllAreRecorded(ops: Operations)
    ensures RecordsAll(ops, Calls(ops), EndingOf(ops))
  {
    hide Everything, Calls, Happened, Interrupts, EndingOf;
    EverythingHappened(ops);
    forall f
      ensures Count(ErrorsOf(EndingOf(ops)), Recorded(f)) ==
        if Happened(ops, Calls(ops), f) && !(EndingOf(ops).Raised? && EndingOf(ops).interruption == f) then 1 else 0
    {
      NoFailureIsLost(ops, f);
      RankedOnce(Everything(ops), f);
    }
  }

  /** The lines the reporter gets: texts, the failure to gather, then what came before it. */
  lemma ReportedForm(ops: Operations) returns (gathering: seq<Failure>, earlier: seq<Failure>)
    ensures LinesToReport(ops) == Texts(GatheredTexts(ops)) + Lines(gathering) + Lines(earlier)
    ensures gathering == [] || (GatheredTexts(ops) == [] && |gathering| == 1 && gathering[0].stage.Secondary?)
    ensures Ranked(earlier) && forall f | f in earlier :: Rank(f.stage) <= Rank(Close)
  {
    earlier := Others(UntilClose(ops));
    assert Ranked(UntilClose(ops));
    OthersRanked(UntilClose(ops));
    gathering := [];
    NoFailures();
    if ops.secondary.GatherRaises? {
      gathering := Left(UntilClose(ops), GatherFailure(ops));
      OneFailure(Failure(Secondary, ops.secondary.fault));
      assert Texts([]) == [];
    }
    hide UntilClose, Others, Earliest, Lines;
    assert SecondaryLines(ops) == Texts(GatheredTexts(ops)) + Lines(gathering);
  }

  lemma ReportIsLast(ops: Operations) returns (last: seq<Failure>)
    ensures ErrorsOf(EndingOf(ops)) == LinesToReport(ops) + Lines(last)
    ensures last == [] || (Reports(ops) && |last| == 1 && last[0].stage.Report?)
  {
    hide Reports, LinesToReport, Everything, UntilReport;
    last := Left(UntilReport(ops), ReportFailure(ops));
    if ops.report.Raises? {
      OneFailure(Failure(Report, ops.report.fault));
    }
    NoFailures();
  }

  lemma LinesStandInPlace(ops: Operations)
    ensures InPlace(ops, EndingOf(ops))
  {
    hide EndingOf, LinesToReport;
    var gathering, earlier := ReportedForm(ops);
    var last := ReportIsLast(ops);
    var fs := gathering + earlier + last;
    RecordedForm(Texts(GatheredTexts(ops)), gathering, earlier, last);
    forall i, j | 0 <= i < j < |fs| ensures Before(fs[i].stage, fs[j].stage) {
      PartsInPlace(gathering, earlier, last, i, j);
    }
  }

  lemma RecordedForm(texts: seq<Line>, a: seq<Failure>, b: seq<Failure>, c: seq<Failure>)
    ensures texts + Lines(a) + Lines(b) + Lines(c) == texts + Lines(a + b + c)
  {
    assert Lines(a) + Lines(b) + Lines(c) == Lines(a + b + c);
    assert texts + Lines(a) + Lines(b) + Lines(c) == texts + (Lines(a) + Lines(b) + Lines(c));
  }

  lemma PartsInPlace(gathering: seq<Failure>, earlier: seq<Failure>, last: seq<Failure>, i: nat, j: nat)
    requires gathering == [] || (|gathering| == 1 && gathering[0].stage.Secondary?)
    requires Ranked(earlier) && forall f | f in earlier :: Rank(f.stage) <= Rank(Close)
    requires last == [] || (|last| == 1 && last[0].stage.Report?)
    requires i < j < |gathering + earlier + last|
    ensures Before((gathering + earlier + last)[i].stage, (gathering + earlier + last)[j].stage)
  {
    var g, n := |gathering|, |gathering| + |earlier|;
    assert i >= g && i < n ==> earlier[i - g] in earlier;
    assert j < n ==> earlier[j - g] in earlier;
  }

  /** What is reported was not raised by the reporter. */
  lemma NoneOfReport(ops: Operations)
    ensures forall line | line in LinesToReport(ops) :: !OfReport(line)
  {
    hide LinesToReport;
    var gathering, earlier := ReportedForm(ops);
    forall line | line in LinesToReport(ops) ensures !OfReport(line) {
      if line in Lines(gathering) {
        assert line.failure in gathering;
      } else if line in Lines(earlier) {
        assert line.failure in earlier;
      }
    }
  }

  lemma InFlightBeforeReport(ops: Operations)
    ensures Earliest(UntilReport(ops)).Some? <==>
      exists f | Happened(ops, Calls(ops), f) :: Interrupts(f) && !f.stage.Report?
  {
    hide Calls, Happened, Interrupts, Earliest, Reports;
    EverythingHappened(ops);
    EarliestIsFirst(UntilReport(ops));
    assert forall f | f in UntilReport(ops) :: !f.stage.Report?;
    assert forall f | f in ReportFailure(ops) :: f.stage.Report?;
    assert forall f :: f in Everything(ops) <==> f in UntilReport(ops) || f in ReportFailure(ops);
  }

  lemma ErrorsAreReported(ops: Operations)
    ensures ReportsErrors(ops, Calls(ops), EndingOf(ops), if Reports(ops) then Some(LinesToReport(ops)) else None)
  {
    NoneOfReport(ops);
    InFlightBeforeReport(ops);
    var last := ReportIsLast(ops);
    assert Report in Calls(ops) <==> Reports(ops);
    assert Reports(ops) <==> LinesToReport(ops) != [] && (!ops.deferReport || Earliest(UntilReport(ops)).Some?);
    hide *;
    ReportedRight(ops, Calls(ops), EndingOf(ops), LinesToReport(ops), last, Reports(ops));
  }

  lemma ReportedRight(
    ops: Operations, calls: seq<Stage>, ending: Ending, lines: seq<Line>, last: seq<Failure>, reports: bool)
    requires ErrorsOf(ending) == lines + Lines(last) && forall line | line in lines :: !OfReport(line)
    requires last == [] || (reports && |last| == 1 && last[0].stage.Report?)
    requires Report in calls <==> reports
    requires reports <==>
      (lines != [] && (!ops.deferReport || exists f | Happened(ops, calls, f) :: Interrupts(f) && !f.stage.Report?))
    ensures ReportsErrors(ops, calls, ending, if reports then Some(lines) else None)
  {
    hide Happened, Interrupts, ErrorsOf;
    if last == [] {
      assert ErrorsOf(ending) == lines;
    } else {
      assert ErrorsOf(ending) == lines + [Recorded(last[0])];
    }
    if lines != [] {
      assert lines[0] in lines;
    }
  }

  /** Everything the obligations ask for, in terms of what the operations did. */
  lemma ObligationsMet(ops: Operations)
    ensures InTurn(ops, Calls(ops)) && RaisesFirst(ops, Calls(ops), EndingOf(ops))
    ensures RecordsAll(ops, Calls(ops), EndingOf(ops)) && InPlace(ops, EndingOf(ops))
    ensures ReportsErrors(ops, Calls(ops), EndingOf(ops), if Reports(ops) then Some(LinesToReport(ops)) else None)
  {
    hide *;
    CalledInTurn(ops);
    FirstIsRaised(ops);
    AllAreRecorded(ops);
    LinesStandInPlace(ops);
    ErrorsAreReported(ops);
  }
}
