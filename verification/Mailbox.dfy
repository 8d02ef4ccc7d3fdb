/** The file mailbox of the script engine: one tick purges old files, executes the
    request files it finds, writes their responses, deletes them, and arms its own
    successor. Every file operation may throw, other programs may change the directory
    at any time, and so may the executed commands. */
module Mailbox {
  import opened Outcomes

  const TickFast: int := 250
  const TickIdle: int := 1500
  const OrphanSeconds: int := 60

  // ----- File names -----

  predicate StartsWith(s: string, prefix: string) {
    |prefix| <= |s| && s[..|prefix|] == prefix
  }

  predicate EndsWith(s: string, suffix: string) {
    |suffix| <= |s| && s[|s| - |suffix|..] == suffix
  }

  predicate IsMailboxFile(f: string) {
    StartsWith(f, "res_") || StartsWith(f, "req_")
  }

  predicate IsRequest(f: string) {
    StartsWith(f, "req_") && EndsWith(f, ".js")
  }

  lemma PrefixChar(s: string, prefix: string, k: nat)
    requires StartsWith(s, prefix) && k < |prefix|
    ensures s[k] == prefix[k]
  {
    assert s[..|prefix|][k] == s[k];
  }

  lemma SuffixChar(s: string, suffix: string, k: nat)
    requires EndsWith(s, suffix) && k < |suffix|
    ensures s[|s| - |suffix| + k] == suffix[k]
  {
    assert s[|s| - |suffix|..][k] == s[|s| - |suffix| + k];
  }

  lemma RequestLength(f: string)
    requires IsRequest(f)
    ensures |f| >= 7
  {
    PrefixChar(f, "req_", 3);
    SuffixChar(f, ".js", 0);
    SuffixChar(f, ".js", 1);
    SuffixChar(f, ".js", 2);
  }

  /** The response file of a request: `req_<name>.js` is answered by `res_<name>.txt`. */
  function ResponseName(f: string): string
    requires IsRequest(f)
  {
    RequestLength(f);
    "res_" + f[4..|f| - 3] + ".txt"
  }

  /** Requests never share a response file, and no response is taken for a request. */
  lemma ResponsesAreDistinct(f: string, g: string)
    requires IsRequest(f) && IsRequest(g)
    ensures ResponseName(f) == ResponseName(g) ==> f == g
    ensures !IsRequest(ResponseName(f))
  {
    RequestLength(f);
    RequestLength(g);
    if IsRequest(ResponseName(f)) {
      PrefixChar(ResponseName(f), "req_", 2);
      assert false;
    }
    if ResponseName(f) == ResponseName(g) {
      assert |f| == |g|;
      assert f[4..|f| - 3] == ResponseName(f)[4..|f| - 3] == ResponseName(g)[4..|g| - 3] == g[4..|g| - 3];
      assert f == f[..4] + f[4..|f| - 3] + f[|f| - 3..];
      assert g == g[..4] + g[4..|g| - 3] + g[|g| - 3..];
    }
  }

  // ----- The directory, and what happens to it -----

  /** What other programs, or a running command, do to the directory. */
  datatype Change = Put(name: string, content: string) | Drop(name: string)

  /** The history the properties speak of. `Undeleted` is an execution whose request was
      not deleted afterwards. */
  datatype Entry =
    | Written(name: string)
    | Executed(name: string, js: string, result: Option<string>)
    | Undeleted(name: string)

  /** The directory, the counter of executed commands, and the history. */
  datatype Box = Box(files: map<string, string>, count: nat, trace: seq<Entry>)

  function Wrote(b: Box, name: string, content: string): Box {
    b.(files := b.files[name := content], trace := b.trace + [Written(name)])
  }

  function Dropped(b: Box, name: string): Box {
    b.(files := b.files - {name})
  }

  function Changed(b: Box, changes: seq<Change>): Box
    decreases |changes|
  {
    if changes == [] then b
    else match changes[0]
      case Put(name, content) => Changed(Wrote(b, name, content), changes[1..])
      case Drop(name) => Changed(Dropped(b, name), changes[1..])
  }

  // ----- One command -----

  /** What running a command does: the values it reports, and what it throws. `text` is
      the string conversion of the thrown value, or nothing when that throws too. */
  datatype Thrown = Thrown(text: Option<string>)

  datatype Command = Command(reports: seq<string>, thrown: Option<Thrown>)

  /** `runFileBridgeCommand`; nothing when an exception leaves it. */
  function Captured(c: Command): Option<string> {
    match c.thrown
    case None => Some(if c.reports == [] then "" else c.reports[|c.reports| - 1])
    case Some(thrown) =>
      match thrown.text
      case None => None
      case Some(text) => Some("PT_ERROR: " + text)
  }

  // ----- One file of the listing -----

  /** What the tick meets at one file: the age query (`None` when it throws), whether each
      operation returns, the command, and the changes made by others before the file is
      looked at and while its command runs. */
  datatype Visit = Visit(
    arrivals: seq<Change>, stat: Option<int>, purges: bool, readable: bool,
    command: Command, effects: seq<Change>, answers: bool, removes: bool)

  datatype Found = Found(name: string, visit: Visit)

  /** The state after some files, whether a command ran, and whether an exception left the
      loop. */
  datatype Turn = Turn(box: Box, worked: bool, escaped: bool)

  predicate Purges(now: int, f: Found) {
    IsMailboxFile(f.name) && f.visit.stat.Some? && now - f.visit.stat.value > OrphanSeconds && f.visit.purges
  }

  /** When a file is executed: a request that is not purged, can be read, and is there. */
  predicate Executes(b: Box, now: int, f: Found) {
    IsRequest(f.name) && !Purges(now, f) && f.visit.readable && f.name in Changed(b, f.visit.arrivals).files
  }

  /** The response is written, then the request deleted; either may fail. */
  function Finished(b: Box, f: Found, result: string): Box
    requires IsRequest(f.name)
  {
    var answered := if f.visit.answers then Wrote(b, ResponseName(f.name), result) else b;
    var deleted := if f.visit.removes then Dropped(answered, f.name)
                   else answered.(trace := answered.trace + [Undeleted(f.name)]);
    deleted.(count := b.count + 1)
  }

  function Began(b: Box, f: Found): Box
    requires f.name in b.files
  {
    var ran := b.(trace := b.trace + [Executed(f.name, b.files[f.name], Captured(f.visit.command))]);
    Changed(ran, f.visit.effects)
  }

  function Ran(b: Box, f: Found): Turn
    requires IsRequest(f.name) && f.name in b.files
  {
    var began := Began(b, f);
    match Captured(f.visit.command)
    case None => Turn(began.(trace := began.trace + [Undeleted(f.name)]), false, true)
    case Some(result) => Turn(Finished(began, f, result), true, false)
  }

  function Handled(b: Box, now: int, f: Found): Turn {
    var met := Changed(b, f.visit.arrivals);
    if Purges(now, f) then Turn(Dropped(met, f.name), false, false)
    else if Executes(b, now, f) then Ran(met, f)
    else Turn(met, false, false)
  }

  /** The first `m` files of the listing. */
  function Swept(b: Box, now: int, found: seq<Found>, m: nat): Turn
    requires m <= |found|
  {
    if m == 0 then Turn(b, false, false)
    else
      var before := Swept(b, now, found, m - 1);
      if before.escaped then before
      else
        var turn := Handled(before.box, now, found[m - 1]);
        turn.(worked := before.worked || turn.worked)
  }

  // ----- One tick -----

  /** What a tick meets: whether the file manager is there, what the search for the
      directory gives, whether the directory and the heartbeat could be written, the
      clock, and the listing (`None` when it throws). */
  datatype Tick = Tick(
    manager: bool, home: string, prepared: bool, heartbeat: string, now: int, listing: Option<seq<Found>>)

  /** The globals of the script, the directory, and the pending timeouts by id. */
  datatype Bridge = Bridge(
    dir: string, box: Box, timer: Option<nat>, pending: map<nat, int>, nextId: nat)

  function Armed(s: Bridge, ms: int): Bridge {
    s.(timer := Some(s.nextId), pending := s.pending[s.nextId := ms], nextId := s.nextId + 1)
  }

  function Listing(t: Tick): seq<Found> {
    if t.listing.Some? then t.listing.value else []
  }

  /** Whether the tick gets as far as its loop. */
  predicate Sweeps(s: Bridge, t: Tick) {
    t.manager && (s.dir != "" || t.home != "") && t.prepared
  }

  function Sweep(s: Bridge, t: Tick): Turn {
    Swept(Wrote(s.box, "alive.txt", t.heartbeat), t.now, Listing(t), |Listing(t)|)
  }

  function Ticked(s: Bridge, t: Tick): Bridge {
    if !t.manager then Armed(s, TickIdle)
    else
      var located := if s.dir == "" then s.(dir := t.home) else s;
      if !Sweeps(s, t) then Armed(located, TickIdle)
      else
        var turn := Sweep(s, t);
        var swept := located.(box := turn.box);
        if turn.escaped then swept
        else Armed(swept, if turn.worked then TickFast else TickIdle)
  }

  function Started(s: Bridge, t: Tick): Bridge {
    if s.timer.Some? then s else Ticked(s, t)
  }

  function CleanedUp(s: Bridge): Bridge {
    if s.timer.Some? then s.(timer := None, pending := s.pending - {s.timer.value}) else s
  }

  // ----- The script itself -----

  method RunFileBridgeCommand(c: Command) returns (captured: Option<string>)
    ensures captured == Captured(c)
    ensures c.thrown.None? ==> captured == Some(if c.reports == [] then "" else c.reports[|c.reports| - 1])
    ensures c.thrown.Some? ==>
      (captured == if c.thrown.value.text.Some? then Some("PT_ERROR: " + c.thrown.value.text.value) else None)
  {
    var text := "";
    for k := 0 to |c.reports|
      invariant text == if k == 0 then "" else c.reports[k - 1]
    {
      text := c.reports[k];
    }
    if c.thrown.Some? {
      if c.thrown.value.text.None? {
        return None;
      }
      text := "PT_ERROR: " + c.thrown.value.text.value;
    }
    captured := Some(text);
  }

  class FileBridge {
    var dir: string
    var box: Box
    var timer: Option<nat>
    var pending: map<nat, int>
    var nextId: nat

    function View(): Bridge
      reads this
    {
      Bridge(dir, box, timer, pending, nextId)
    }

    constructor (files: map<string, string>)
      ensures View() == Initial(files)
    {
      dir, box, timer, pending, nextId := "", Box(files, 0, []), None, map[], 1;
    }

    method Schedule(ms: int)
      modifies this
      ensures View() == Armed(old(View()), ms)
    {
      timer := Some(nextId);
      pending := pending[nextId := ms];
      nextId := nextId + 1;
    }

    /** The part of the loop body behind the reading of a request. */
    method ServeRequest(f: Found) returns (escaped: bool)
      requires IsRequest(f.name) && f.name in box.files
      modifies this`box
      ensures box == Ran(old(box), f).box
      ensures escaped == Ran(old(box), f).escaped == !Ran(old(box), f).worked
    {
      hide Changed, Captured, IsRequest, ResponseName;
      var js := box.files[f.name];
      var result := RunFileBridgeCommand(f.visit.command);
      box := Changed(box.(trace := box.trace + [Executed(f.name, js, result)]), f.visit.effects);
      escaped := result.None?;
      if escaped {
        box := box.(trace := box.trace + [Undeleted(f.name)]);
        return;
      }
      if f.visit.answers {
        box := Wrote(box, ResponseName(f.name), result.value);
      }
      if f.visit.removes {
        box := Dropped(box, f.name);
      } else {
        box := box.(trace := box.trace + [Undeleted(f.name)]);
      }
      box := box.(count := box.count + 1);
    }

    /** One iteration of the loop. */
    method VisitFile(now: int, f: Found) returns (worked: bool, escaped: bool)
      modifies this`box
      ensures Turn(box, worked, escaped) == Handled(old(box), now, f)
    {
      hide Changed, Ran;
      worked, escaped := false, false;
      box := Changed(box, f.visit.arrivals);
      if f.name == "." || f.name == ".." {
        return;
      }
      if StartsWith(f.name, "res_") || StartsWith(f.name, "req_") {
        if f.visit.stat.Some? && now - f.visit.stat.value > OrphanSeconds && f.visit.purges {
          box := Dropped(box, f.name);
          return;
        }
      }
      if !StartsWith(f.name, "req_") || !EndsWith(f.name, ".js") {
        return;
      }
      if !f.visit.readable || f.name !in box.files {
        return;
      }
      escaped := ServeRequest(f);
      worked := !escaped;
    }

    /** `escaped` reports an exception that leaves the tick. */
    method FileBridgeTick(t: Tick) returns (escaped: bool)
      modifies this
      ensures View() == Ticked(old(View()), t)
      ensures escaped == (Sweeps(old(View()), t) && Sweep(old(View()), t).escaped)
    {
      hide Handled;
      escaped := false;
      if !t.manager {
        Schedule(TickIdle);
        return;
      }
      if dir == "" {
        dir := t.home;
      }
      if dir == "" || !t.prepared {
        Schedule(TickIdle);
        return;
      }
      box := Wrote(box, "alive.txt", t.heartbeat);
      var worked := false;
      var found := if t.listing.Some? then t.listing.value else [];
      ghost var start := box;
      label Loop:
      for i := 0 to |found|
        invariant !escaped && Turn(box, worked, false) == Swept(start, t.now, found, i)
        invariant unchanged@Loop(`dir) && unchanged@Loop(`timer) && unchanged@Loop(`pending) && unchanged@Loop(`nextId)
      {
        var served;
        served, escaped := VisitFile(t.now, found[i]);
        if escaped {
          StaysEscaped(start, t.now, found, i + 1, |found|);
          return;
        }
        worked := worked || served;
      }
      Schedule(if worked then TickFast else TickIdle);
    }

    method StartFileBridge(t: Tick)
      modifies this
      ensures View() == Started(old(View()), t)
    {
      if timer.Some? {
        return;
      }
      var _ := FileBridgeTick(t);
    }

    method CleanUp()
      modifies this
      ensures View() == CleanedUp(old(View()))
    {
      if timer.Some? {
        pending := pending - {timer.value};
        timer := None;
      }
    }
  }

  lemma {:induction false} StaysEscaped(b: Box, now: int, found: seq<Found>, k: nat, m: nat)
    requires k <= m <= |found| && Swept(b, now, found, k).escaped
    ensures Swept(b, now, found, m) == Swept(b, now, found, k)
    decreases m
  {
    hide Handled;
    if k < m {
      StaysEscaped(b, now, found, k, m - 1);
    }
  }

  // ----- Runs -----

  datatype Event = Start(tick: Tick) | Fire(id: nat, tick: Tick) | Stop | Outside(changes: seq<Change>)

  function Initial(files: map<string, string>): Bridge {
    Bridge("", Box(files, 0, []), None, map[], 1)
  }

  predicate Enabled(s: Bridge, e: Event) {
    e.Fire? ==> e.id in s.pending
  }

  function Next(s: Bridge, e: Event): Bridge {
    match e
    case Start(t) => Started(s, t)
    case Fire(id, t) => Ticked(s.(pending := s.pending - {id}), t)
    case Stop => CleanedUp(s)
    case Outside(changes) => s.(box := Changed(s.box, changes))
  }

  predicate Run(s: Bridge, es: seq<Event>, t: Bridge)
    decreases |es|
  {
    if es == [] then s == t else Enabled(s, es[0]) && Run(Next(s, es[0]), es[1..], t)
  }

  // ----- Counting the history -----

  /** How often a file was written, executed, executed without its tick going on, and left
      in place after its execution. */
  datatype Tally = Tally(writes: nat, runs: nat, interrupted: nat, undeleted: nat)

  /** Entries about one file, or about any. */
  predicate About(e: Entry, f: Option<string>) {
    f.None? || e.name == f.value
  }

  function Counted(t: Tally, e: Entry): Tally {
    match e
    case Written(_) => t.(writes := t.writes + 1)
    case Executed(_, _, result) =>
      t.(runs := t.runs + 1, interrupted := t.interrupted + if result.None? then 1 else 0)
    case Undeleted(_) => t.(undeleted := t.undeleted + 1)
  }

  function TallyOf(trace: seq<Entry>, f: Option<string>): Tally {
    if trace == [] then Tally(0, 0, 0, 0)
    else
      var n := |trace| - 1;
      var before := TallyOf(trace[..n], f);
      if About(trace[n], f) then Counted(before, trace[n]) else before
  }

  lemma TallyAppend(trace: seq<Entry>, e: Entry, f: Option<string>)
    ensures TallyOf(trace + [e], f)
         == if About(e, f) then Counted(TallyOf(trace, f), e) else TallyOf(trace, f)
  {
    assert (trace + [e])[..|trace|] == trace;
  }

  lemma {:induction false} ChangedTally(b: Box, changes: seq<Change>, f: Option<string>)
    ensures var before, after := TallyOf(b.trace, f), TallyOf(Changed(b, changes).trace, f);
      && Changed(b, changes).count == b.count
      && before.writes <= after.writes && after == before.(writes := after.writes)
    ensures f.Some? ==>
      var before, after := TallyOf(b.trace, f), TallyOf(Changed(b, changes).trace, f);
      && (f.value in Changed(b, changes).files && f.value !in b.files ==> before.writes < after.writes)
    decreases |changes|
  {
    hide TallyOf;
    if changes != [] {
      match changes[0] {
        case Put(name, content) =>
          TallyAppend(b.trace, Written(name), f);
          ChangedTally(Wrote(b, name, content), changes[1..], f);
        case Drop(name) =>
          ChangedTally(Dropped(b, name), changes[1..], f);
      }
    }
  }

  // ----- Timers -----

  /** The state from which the tick of an event runs, if it runs one. */
  function TickBase(s: Bridge, e: Event): Option<Bridge> {
    match e
    case Start(_) => if s.timer.Some? then None else Some(s)
    case Fire(id, _) => Some(s.(pending := s.pending - {id}))
    case _ => None
  }

  /** The tick of an event is cut short by an exception. */
  predicate Escapes(s: Bridge, e: Event) {
    TickBase(s, e).Some? && Sweeps(s, e.tick) && Sweep(s, e.tick).escaped
  }

  /** At most one timeout is pending, and it is the one `_fileBridgeTimer` holds. */
  ghost predicate Tidy(s: Bridge) {
    match s.timer
    case None => s.pending == map[]
    case Some(id) => s.pending.Keys <= {id} && id < s.nextId
  }

  /** The next tick is armed. */
  ghost predicate Alive(s: Bridge) {
    s.timer.Some? && s.pending.Keys == {s.timer.value} && s.timer.value < s.nextId
  }

  /** The tick gets to its files, and executes one of them. */
  predicate TickWorks(s: Bridge, t: Tick) {
    && t.manager && (s.dir != "" || t.home != "") && t.prepared && t.listing.Some?
    && var b := Wrote(s.box, "alive.txt", t.heartbeat);
       exists k | 0 <= k < |t.listing.value| ::
         !Swept(b, t.now, t.listing.value, k).escaped
         && Executes(Swept(b, t.now, t.listing.value, k).box, t.now, t.listing.value[k])
  }

  lemma {:induction false} SweptWorks(b: Box, now: int, found: seq<Found>, m: nat)
    requires m <= |found| && !Swept(b, now, found, m).escaped
    ensures Swept(b, now, found, m).worked <==>
      exists k | 0 <= k < m :: !Swept(b, now, found, k).escaped && Executes(Swept(b, now, found, k).box, now, found[k])
  {
    hide Handled, Executes;
    if m > 0 {
      SweptWorks(b, now, found, m - 1);
      HandledEscapes(Swept(b, now, found, m - 1).box, now, found[m - 1]);
    }
  }

  lemma WorksIff(s: Bridge, t: Tick)
    ensures Sweeps(s, t) && !Sweep(s, t).escaped ==> (Sweep(s, t).worked <==> TickWorks(s, t))
    ensures TickWorks(s, t) ==> Sweeps(s, t)
  {
    hide Swept, Executes;
    if Sweeps(s, t) && !Sweep(s, t).escaped {
      SweptWorks(Wrote(s.box, "alive.txt", t.heartbeat), t.now, Listing(t), |Listing(t)|);
    }
  }

  /** A tick arms exactly one successor, whatever fails, unless an exception leaves it:
      fast after work, idle otherwise. */
  lemma TickArmsOne(s: Bridge, e: Event)
    requires Tidy(s) && Enabled(s, e) && TickBase(s, e).Some?
    ensures Escapes(s, e) ==> Next(s, e).pending == map[] && Next(s, e).timer == s.timer
    ensures !Escapes(s, e) ==> Alive(Next(s, e)) && |Next(s, e).pending| == 1
    ensures !Escapes(s, e) ==>
      Next(s, e).pending[Next(s, e).timer.value] == if TickWorks(s, e.tick) then 250 else 1500
  {
    hide Sweep, TickWorks;
    WorksIff(s, e.tick);
    var base := TickBase(s, e).value;
    assert base.pending == map[];
    assert Sweep(base, e.tick) == Sweep(s, e.tick) by { SweepReadsBox(base, s, e.tick); }
    if !Escapes(s, e) {
      assert |Next(s, e).pending.Keys| == 1;
    }
  }

  /** A clean-up leaves nothing pending, nothing held, and the directory alone. */
  lemma CleanUpStops(s: Bridge)
    requires Tidy(s)
    ensures var t := Next(s, Stop);
      t.pending == map[] && t.timer == None && t.box == s.box && t.dir == s.dir
  {
  }

  lemma SweepReadsBox(s: Bridge, other: Bridge, t: Tick)
    requires s.box == other.box
    ensures Sweep(s, t) == Sweep(other, t)
  {
  }

  lemma StepKeepsTidy(s: Bridge, e: Event)
    requires Tidy(s) && Enabled(s, e)
    ensures Tidy(Next(s, e))
    ensures Alive(s) && !e.Stop? && !Escapes(s, e) ==> Alive(Next(s, e))
  {
    hide Sweep, Changed;
    if TickBase(s, e).Some? {
      TickArmsOne(s, e);
    }
  }

  /** In every run, however often the bridge is started, at most one tick is pending. */
  lemma {:induction false} RunKeepsTidy(s: Bridge, es: seq<Event>, t: Bridge)
    requires Tidy(s) && Run(s, es, t)
    ensures Tidy(t)
    decreases |es|
  {
    hide Tidy, Enabled, Next;
    if es != [] {
      StepKeepsTidy(s, es[0]);
      RunKeepsTidy(Next(s, es[0]), es[1..], t);
    }
  }

  /** No event stops the bridge or is cut short. */
  predicate Unbroken(s: Bridge, es: seq<Event>)
    decreases |es|
  {
    es == [] || (!es[0].Stop? && !Escapes(s, es[0]) && Unbroken(Next(s, es[0]), es[1..]))
  }

  lemma {:induction false} LoopSurvives(s: Bridge, es: seq<Event>, t: Bridge)
    requires Tidy(s) && Alive(s) && Run(s, es, t) && Unbroken(s, es)
    ensures Alive(t)
    decreases |es|
  {
    hide Tidy, Alive, Enabled, Next, Escapes;
    if es != [] {
      StepKeepsTidy(s, es[0]);
      LoopSurvives(Next(s, es[0]), es[1..], t);
    }
  }

  /** Once a fired tick is cut short the loop is dead, and starting it again does
      nothing: the spent timer is still held, and only a clean-up releases it. */
  lemma {:induction false} DeadUntilCleanUp(s: Bridge, es: seq<Event>, t: Bridge)
    requires s.timer.Some? && s.pending == map[] && Run(s, es, t)
    requires forall e | e in es :: !e.Stop?
    ensures t.timer == s.timer && t.pending == map[] && t.box.count == s.box.count
    decreases |es|
  {
    if es != [] {
      if es[0].Outside? {
        ChangedTally(s.box, es[0].changes, None);
      }
      hide Changed, Ticked;
      DeadUntilCleanUp(Next(s, es[0]), es[1..], t);
    }
  }

  // ----- When a tick is cut short -----

  lemma HandledEscapes(b: Box, now: int, f: Found)
    ensures Handled(b, now, f).escaped <==>
      Executes(b, now, f) && f.visit.command.thrown.Some? && f.visit.command.thrown.value.text.None?
    ensures Handled(b, now, f).worked <==> Executes(b, now, f) && !Handled(b, now, f).escaped
  {
    hide Changed, IsRequest, Finished;
  }

  /** File `k` is reached and executed, and its command throws a value that cannot be
      converted to a string. */
  predicate CutsShort(b: Box, now: int, found: seq<Found>, k: nat)
    requires k < |found|
  {
    && !Swept(b, now, found, k).escaped
    && Executes(Swept(b, now, found, k).box, now, found[k])
    && found[k].visit.command.thrown.Some? && found[k].visit.command.thrown.value.text.None?
  }

  lemma EscapesNext(b: Box, now: int, found: seq<Found>, m: nat)
    requires 0 < m <= |found|
    ensures Swept(b, now, found, m).escaped
       <==> Swept(b, now, found, m - 1).escaped || CutsShort(b, now, found, m - 1)
  {
    hide Executes, Handled, Captured;
    HandledEscapes(Swept(b, now, found, m - 1).box, now, found[m - 1]);
  }

  /** An exception leaves the loop exactly when such a command is executed. */
  lemma {:induction false} EscapesIff(b: Box, now: int, found: seq<Found>, m: nat)
    requires m <= |found|
    ensures Swept(b, now, found, m).escaped <==> exists k | 0 <= k < m :: CutsShort(b, now, found, k)
  {
    hide CutsShort;
    if m > 0 {
      hide Swept;
      EscapesNext(b, now, found, m);
      EscapesIff(b, now, found, m - 1);
    }
  }

  /** One request, whose code throws an object without a string form. */
  function Unprintable(): Found {
    Found("req_1.js", Visit([], Some(0), true, true, Command([], Some(Thrown(None))), [], true, true))
  }

  lemma UnprintableEscapes(b: Box)
    requires "req_1.js" in b.files
    ensures Swept(b, 0, [Unprintable()], 1).escaped
  {
    assert IsRequest("req_1.js") by {
      assert "req_1.js"[..4] == "req_" && "req_1.js"[5..] == ".js";
    }
    assert Executes(b, 0, Unprintable());
    HandledEscapes(b, 0, Unprintable());
    assert Swept(b, 0, [Unprintable()], 0) == Turn(b, false, false);
  }

  /** A run in which that happens in a fired tick: the bridge is started, its first tick finds
      nothing to do, and the second meets the request. The loop is dead: nothing is pending,
      and the spent timer is still held. */
  lemma UnprintableStopsTheLoop() returns (es: seq<Event>, s: Bridge)
    ensures |es| == 2 && es[0].Start? && es[1].Fire?
    ensures Run(Initial(map["req_1.js" := "throw Object.create(null)"]), es, s)
    ensures s.timer.Some? && s.pending == map[]
  {
    var initial := Initial(map["req_1.js" := "throw Object.create(null)"]);
    var quiet := Tick(false, "", false, "", 0, None);
    var bad := Tick(true, "bridge", true, "0", 0, Some([Unprintable()]));
    var armed := Next(initial, Start(quiet));
    assert armed.pending == map[1 := TickIdle] && armed.timer == Some(1);
    s := Next(armed, Fire(1, bad));
    UnprintableEscapes(Wrote(initial.box, "alive.txt", "0"));
    assert s.timer == Some(1) && s.pending == map[];
    es := [Start(quiet), Fire(1, bad)];
    assert es[1..] == [Fire(1, bad)] && es[1..][1..] == [];
    assert Run(armed, es[1..], s);
  }

  // ----- What the counter counts -----

  /** Every execution is counted, except one that cut its tick short. */
  ghost predicate Accounted(b: Box) {
    b.count + TallyOf(b.trace, None).interrupted == TallyOf(b.trace, None).runs
  }

  lemma ChangedAccounted(b: Box, changes: seq<Change>)
    requires Accounted(b)
    ensures Accounted(Changed(b, changes))
  {
    hide TallyOf, Changed;
    ChangedTally(b, changes, None);
  }

  lemma RanAccounted(b: Box, f: Found)
    requires IsRequest(f.name) && f.name in b.files && Accounted(b)
    ensures Accounted(Ran(b, f).box)
  {
    hide TallyOf, Changed, Captured, IsRequest, ResponseName;
    var result := Captured(f.visit.command);
    var entry := Executed(f.name, b.files[f.name], result);
    var ran := b.(trace := b.trace + [entry]);
    TallyAppend(b.trace, entry, None);
    ChangedTally(ran, f.visit.effects, None);
    var began := Began(b, f);
    TallyAppend(began.trace, Undeleted(f.name), None);
    if result.Some? {
      TallyAppend(began.trace, Written(ResponseName(f.name)), None);
      TallyAppend(began.trace + [Written(ResponseName(f.name))], Undeleted(f.name), None);
    }
  }

  lemma HandledAccounted(b: Box, now: int, f: Found)
    requires Accounted(b)
    ensures Accounted(Handled(b, now, f).box)
  {
    hide Accounted, Changed, Ran, IsRequest, Purges;
    ChangedAccounted(b, f.visit.arrivals);
    if Purges(now, f) {
      DroppedAccounted(Changed(b, f.visit.arrivals), f.name);
    } else if Executes(b, now, f) {
      RanAccounted(Changed(b, f.visit.arrivals), f);
    }
  }

  lemma DroppedAccounted(b: Box, name: string)
    requires Accounted(b)
    ensures Accounted(Dropped(b, name))
  {
  }

  lemma WroteAccounted(b: Box, name: string, content: string)
    requires Accounted(b)
    ensures Accounted(Wrote(b, name, content))
  {
    TallyAppend(b.trace, Written(name), None);
  }

  lemma {:induction false} SweptAccounted(b: Box, now: int, found: seq<Found>, m: nat)
    requires m <= |found| && Accounted(b)
    ensures Accounted(Swept(b, now, found, m).box)
  {
    hide Accounted, Handled;
    if m > 0 {
      SweptAccounted(b, now, found, m - 1);
      HandledAccounted(Swept(b, now, found, m - 1).box, now, found[m - 1]);
    }
  }

  lemma StepAccounted(s: Bridge, e: Event)
    requires Accounted(s.box)
    ensures Accounted(Next(s, e).box)
  {
    hide Accounted, Changed, Swept;
    if e.Outside? {
      ChangedAccounted(s.box, e.changes);
    } else if TickBase(s, e).Some? {
      WroteAccounted(s.box, "alive.txt", e.tick.heartbeat);
      SweptAccounted(Wrote(s.box, "alive.txt", e.tick.heartbeat), e.tick.now, Listing(e.tick), |Listing(e.tick)|);
    }
  }

  /** In every run the counter is the number of executions, less those whose thrown value
      had no string form. */
  lemma {:induction false} CounterCountsExecutions(s: Bridge, es: seq<Event>, t: Bridge)
    requires Accounted(s.box) && Run(s, es, t)
    ensures t.box.count + TallyOf(t.box.trace, None).interrupted == TallyOf(t.box.trace, None).runs
    decreases |es|
  {
    hide Next, TallyOf;
    if es != [] {
      StepAccounted(s, es[0]);
      CounterCountsExecutions(Next(s, es[0]), es[1..], t);
    }
  }

  /** The executions that were not cut short. */
  function Completed(trace: seq<Entry>): set<nat> {
    set k: nat | k < |trace| && trace[k].Executed? && trace[k].result.Some?
  }

  lemma {:induction false} TallyIsCount(trace: seq<Entry>)
    ensures TallyOf(trace, None).runs == TallyOf(trace, None).interrupted + |Completed(trace)|
  {
    if trace != [] {
      var n := |trace| - 1;
      TallyIsCount(trace[..n]);
      assert Completed(trace)
          == Completed(trace[..n]) + if trace[n].Executed? && trace[n].result.Some? then {n} else {};
    } else {
      assert Completed(trace) == {};
    }
  }

  lemma InitialAccounted(files: map<string, string>)
    ensures Accounted(Initial(files).box)
  {
  }

  /** From the start of the script on, the counter is the number of executions that were not
      cut short. */
  lemma CounterFromStart(files: map<string, string>, es: seq<Event>, t: Bridge)
    requires Run(Initial(files), es, t)
    ensures t.box.count == |Completed(t.box.trace)|
  {
    hide Run, Completed, Accounted, Initial, TallyOf;
    InitialAccounted(files);
    CounterCountsExecutions(Initial(files), es, t);
    TallyIsCount(t.box.trace);
  }

  // ----- A request is executed once -----

  /** Writes and failed deletions, less executions and the file that is there now. */
  function Balance(b: Box, f: string): int {
    var t := TallyOf(b.trace, Some(f));
    t.writes + t.undeleted - t.runs - if f in b.files then 1 else 0
  }

  /** `c` comes later than `b`: the balance of `f` has not fallen, and if `f` was absent
      and not written since, it is still absent and was not executed. */
  ghost predicate Follows(b: Box, c: Box, f: string) {
    var before, after := TallyOf(b.trace, Some(f)), TallyOf(c.trace, Some(f));
    && Balance(b, f) <= Balance(c, f)
    && before.writes <= after.writes
    && (f !in b.files && before.writes == after.writes ==> f !in c.files && before.runs == after.runs)
  }

  lemma FollowsTransitive(a: Box, b: Box, c: Box, f: string)
    requires Follows(a, b, f) && Follows(b, c, f)
    ensures Follows(a, c, f)
  {
  }

  lemma ChangedFollows(b: Box, changes: seq<Change>, f: string)
    ensures Follows(b, Changed(b, changes), f)
  {
    hide TallyOf, Changed;
    ChangedTally(b, changes, Some(f));
  }

  lemma WroteFollows(b: Box, name: string, content: string, f: string)
    ensures Follows(b, Wrote(b, name, content), f)
  {
    hide TallyOf;
    TallyAppend(b.trace, Written(name), Some(f));
  }

  lemma DroppedFollows(b: Box, name: string, f: string)
    ensures Follows(b, Dropped(b, name), f)
  {
    hide TallyOf;
  }

  /** The execution alone takes one from the balance of its request, and the deletion or
      its failure gives it back. */
  lemma RanFollows(b: Box, f: Found, name: string)
    requires IsRequest(f.name) && f.name in b.files
    ensures Follows(b, Ran(b, f).box, name)
  {
    hide TallyOf, Changed, Captured, IsRequest, ResponseName;
    var result := Captured(f.visit.command);
    var entry := Executed(f.name, b.files[f.name], result);
    var ran := b.(trace := b.trace + [entry]);
    TallyAppend(b.trace, entry, Some(name));
    ChangedTally(ran, f.visit.effects, Some(name));
    var began := Began(b, f);
    TallyAppend(began.trace, Undeleted(f.name), Some(name));
    if result.Some? {
      ResponsesAreDistinct(f.name, f.name);
      var answer := Written(ResponseName(f.name));
      TallyAppend(began.trace, answer, Some(name));
      TallyAppend(began.trace + [answer], Undeleted(f.name), Some(name));
    }
  }

  lemma HandledFollows(b: Box, now: int, f: Found, name: string)
    ensures Follows(b, Handled(b, now, f).box, name)
  {
    hide Follows, Changed, Ran, IsRequest, Purges;
    var met := Changed(b, f.visit.arrivals);
    ChangedFollows(b, f.visit.arrivals, name);
    if Purges(now, f) {
      DroppedFollows(met, f.name, name);
      FollowsTransitive(b, met, Dropped(met, f.name), name);
    } else if Executes(b, now, f) {
      RanFollows(met, f, name);
      FollowsTransitive(b, met, Ran(met, f).box, name);
    }
  }

  lemma {:induction false} SweptFollows(b: Box, now: int, found: seq<Found>, m: nat, f: string)
    requires m <= |found|
    ensures Follows(b, Swept(b, now, found, m).box, f)
  {
    hide Handled, TallyOf;
    if m > 0 {
      hide Follows;
      SweptFollows(b, now, found, m - 1, f);
      var before := Swept(b, now, found, m - 1).box;
      HandledFollows(before, now, found[m - 1], f);
      FollowsTransitive(b, before, Handled(before, now, found[m - 1]).box, f);
    }
  }

  lemma StepFollows(s: Bridge, e: Event, f: string)
    ensures Follows(s.box, Next(s, e).box, f)
  {
    hide TallyOf, Changed, Swept;
    if e.Outside? {
      ChangedFollows(s.box, e.changes, f);
    } else if TickBase(s, e).Some? {
      var begun := Wrote(s.box, "alive.txt", e.tick.heartbeat);
      WroteFollows(s.box, "alive.txt", e.tick.heartbeat, f);
      SweptFollows(begun, e.tick.now, Listing(e.tick), |Listing(e.tick)|, f);
      FollowsTransitive(s.box, begun, Sweep(s, e.tick).box, f);
    }
  }

  lemma {:induction false} RunFollows(s: Bridge, es: seq<Event>, t: Bridge, f: string)
    requires Run(s, es, t)
    ensures Follows(s.box, t.box, f)
    decreases |es|
  {
    hide Next, TallyOf;
    if es != [] {
      hide Follows;
      StepFollows(s, es[0], f);
      RunFollows(Next(s, es[0]), es[1..], t, f);
      FollowsTransitive(s.box, Next(s, es[0]).box, t.box, f);
    }
  }

  /** Where in the history a file was written, executed, and left in place. */
  function Writes(trace: seq<Entry>, f: string): set<nat> {
    set k: nat | k < |trace| && trace[k] == Written(f)
  }

  function Executions(trace: seq<Entry>, f: string): set<nat> {
    set k: nat | k < |trace| && trace[k].Executed? && trace[k].name == f
  }

  function Undeletions(trace: seq<Entry>, f: string): set<nat> {
    set k: nat | k < |trace| && trace[k] == Undeleted(f)
  }

  lemma WritesGrow(trace: seq<Entry>, n: nat, f: string)
    requires |trace| == n + 1
    ensures |Writes(trace, f)| == |Writes(trace[..n], f)| + if trace[n] == Written(f) then 1 else 0
  {
    assert Writes(trace, f) == Writes(trace[..n], f) + if trace[n] == Written(f) then {n} else {};
  }

  lemma ExecutionsGrow(trace: seq<Entry>, n: nat, f: string)
    requires |trace| == n + 1
    ensures |Executions(trace, f)|
         == |Executions(trace[..n], f)| + if trace[n].Executed? && trace[n].name == f then 1 else 0
  {
    assert Executions(trace, f)
        == Executions(trace[..n], f) + if trace[n].Executed? && trace[n].name == f then {n} else {};
  }

  lemma UndeletionsGrow(trace: seq<Entry>, n: nat, f: string)
    requires |trace| == n + 1
    ensures |Undeletions(trace, f)| == |Undeletions(trace[..n], f)| + if trace[n] == Undeleted(f) then 1 else 0
  {
    assert Undeletions(trace, f) == Undeletions(trace[..n], f) + if trace[n] == Undeleted(f) then {n} else {};
  }

  lemma {:induction false} TallyIsCounts(trace: seq<Entry>, f: string)
    ensures var tally := TallyOf(trace, Some(f));
      tally.writes == |Writes(trace, f)| && tally.runs == |Executions(trace, f)|
      && tally.undeleted == |Undeletions(trace, f)|
  {
    if trace != [] {
      hide TallyOf, Writes, Executions, Undeletions;
      var n := |trace| - 1;
      assert trace == trace[..n] + [trace[n]];
      TallyIsCounts(trace[..n], f);
      TallyAppend(trace[..n], trace[n], Some(f));
      WritesGrow(trace, n, f);
      ExecutionsGrow(trace, n, f);
      UndeletionsGrow(trace, n, f);
    }
  }

  /** Over every run a request is executed at most once for each time it was put there, and
      once more for each execution after which it could not be deleted. */
  lemma ExecutionsAreEarned(files: map<string, string>, es: seq<Event>, t: Bridge, f: string)
    requires Run(Initial(files), es, t)
    ensures |Executions(t.box.trace, f)| + (if f in t.box.files then 1 else 0)
      <= (if f in files then 1 else 0) + |Writes(t.box.trace, f)| + |Undeletions(t.box.trace, f)|
  {
    RunFollows(Initial(files), es, t, f);
    TallyIsCounts(t.box.trace, f);
  }

  /** A request that was deleted is not executed again unless someone writes it again. */
  lemma DeletedIsNotExecuted(s: Bridge, es: seq<Event>, t: Bridge, f: string)
    requires Run(s, es, t) && f !in s.box.files
    requires |Writes(t.box.trace, f)| == |Writes(s.box.trace, f)|
    ensures |Executions(t.box.trace, f)| == |Executions(s.box.trace, f)| && f !in t.box.files
  {
    hide TallyOf, Writes, Executions, Run;
    RunFollows(s, es, t, f);
    TallyIsCounts(s.box.trace, f);
    TallyIsCounts(t.box.trace, f);
  }

  // ----- Fresh requests are served -----

  /** `c` continues the history of `b`. */
  predicate Extends(b: Box, c: Box) {
    b.trace <= c.trace
  }

  lemma {:induction false} ChangedExtends(b: Box, changes: seq<Change>)
    ensures Extends(b, Changed(b, changes))
    decreases |changes|
  {
    if changes != [] {
      match changes[0] {
        case Put(name, content) => ChangedExtends(Wrote(b, name, content), changes[1..]);
        case Drop(name) => ChangedExtends(Dropped(b, name), changes[1..]);
      }
    }
  }

  /** The entry of an execution, the content being what the file held when it was read. */
  function ExecutionOf(b: Box, f: Found): Entry
    requires f.name in Changed(b, f.visit.arrivals).files
  {
    Executed(f.name, Changed(b, f.visit.arrivals).files[f.name], Captured(f.visit.command))
  }

  lemma HandledExtends(b: Box, now: int, f: Found)
    ensures Extends(b, Handled(b, now, f).box)
    ensures Executes(b, now, f) ==> ExecutionOf(b, f) in Handled(b, now, f).box.trace[|b.trace|..]
  {
    hide Changed, Captured, IsRequest, ResponseName, Purges;
    var met := Changed(b, f.visit.arrivals);
    ChangedExtends(b, f.visit.arrivals);
    if Executes(b, now, f) {
      var ran := met.(trace := met.trace + [ExecutionOf(b, f)]);
      ChangedExtends(ran, f.visit.effects);
      var end := Handled(b, now, f).box;
      assert ran.trace <= end.trace;
      assert end.trace[|met.trace|] == ExecutionOf(b, f);
      assert end.trace[|b.trace|..][|met.trace| - |b.trace|] == ExecutionOf(b, f);
    }
  }

  lemma {:induction false} SweptExtends(b: Box, now: int, found: seq<Found>, k: nat, m: nat)
    requires k <= m <= |found|
    ensures Extends(Swept(b, now, found, k).box, Swept(b, now, found, m).box)
    decreases m
  {
    hide Handled;
    if k < m {
      SweptExtends(b, now, found, k, m - 1);
      HandledExtends(Swept(b, now, found, m - 1).box, now, found[m - 1]);
    }
  }

  lemma EntryStays(b: Box, c: Box, d: Box, e: Entry)
    requires Extends(b, c) && Extends(c, d) && e in c.trace[|b.trace|..]
    ensures e in d.trace[|b.trace|..]
  {
    var k :| 0 <= k < |c.trace[|b.trace|..]| && c.trace[|b.trace|..][k] == e;
    assert c.trace[|b.trace| + k] == d.trace[|b.trace| + k];
    assert d.trace[|b.trace|..][k] == e;
  }

  /** A request of the listing that is at most a minute old, or whose age cannot be told,
      or that cannot be purged, is executed in that tick if it can be read when its turn
      comes; `before` is the state at its turn. */
  lemma FreshRequestIsServed(b: Box, now: int, found: seq<Found>, k: nat)
    requires k < |found| && !Swept(b, now, found, k).escaped
    ensures Extends(Swept(b, now, found, k).box, Swept(b, now, found, |found|).box)
    ensures var before, f := Swept(b, now, found, k).box, found[k];
      && IsRequest(f.name) && f.visit.readable && f.name in Changed(before, f.visit.arrivals).files
      && (f.visit.stat.None? || now - f.visit.stat.value <= 60 || !f.visit.purges)
      ==> ExecutionOf(before, f) in Swept(b, now, found, |found|).box.trace[|before.trace|..]
  {
    var before, f := Swept(b, now, found, k).box, found[k];
    SweptExtends(b, now, found, k, |found|);
    SweptExtends(b, now, found, k + 1, |found|);
    HandledExtends(before, now, f);
    if Executes(before, now, f) {
      assert Swept(b, now, found, k + 1).box == Handled(before, now, f).box;
      hide *;
      EntryStays(before, Swept(b, now, found, k + 1).box, Swept(b, now, found, |found|).box, ExecutionOf(before, f));
    }
  }

  /** A purged request is deleted and not executed in its turn. */
  lemma StaleRequestIsPurged(b: Box, now: int, f: Found)
    requires StartsWith(f.name, "res_") || StartsWith(f.name, "req_")
    requires f.visit.stat.Some? && now - f.visit.stat.value > 60 && f.visit.purges
    ensures f.name !in Handled(b, now, f).box.files && !Executes(b, now, f)
    ensures TallyOf(Handled(b, now, f).box.trace, None).runs == TallyOf(b.trace, None).runs
  {
    hide Changed, TallyOf;
    ChangedTally(b, f.visit.arrivals, None);
  }

  /** `f` is a request of this name. */
  predicate Names(f: string, name: string) {
    f == "req_" + name + ".js"
  }

  lemma RequestNamed(f: string, name: string)
    requires Names(f, name)
    ensures IsRequest(f) && ResponseName(f) == "res_" + name + ".txt"
  {
    assert f[..4] == "req_" && f[|f| - 3..] == ".js";
    assert f[4..|f| - 3] == name;
  }

  lemma RequestHasName(f: string) returns (name: string)
    requires IsRequest(f)
    ensures Names(f, name)
  {
    RequestLength(f);
    name := f[4..|f| - 3];
    assert f == f[..4] + name + f[|f| - 3..];
  }

  /** Exactly when a file is executed at its turn: it has the name of a request, is at most a
      minute old, of unknown age or not to be purged, can be read, and is there. */
  lemma ExecutedIff(b: Box, now: int, f: Found)
    ensures Executes(b, now, f) <==>
      && (exists name :: Names(f.name, name))
      && (f.visit.stat.None? || now - f.visit.stat.value <= 60 || !f.visit.purges)
      && f.visit.readable && f.name in Changed(b, f.visit.arrivals).files
  {
    hide Changed, Names;
    if IsRequest(f.name) {
      var name := RequestHasName(f.name);
    }
    forall name | Names(f.name, name) ensures IsRequest(f.name) {
      RequestNamed(f.name, name);
    }
  }

  /** What the command said last, or the error it threw. */
  predicate Says(c: Command, text: string) {
    if c.thrown.Some? then c.thrown.value.text.Some? && text == "PT_ERROR: " + c.thrown.value.text.value
    else if c.reports == [] then text == "" else text == c.reports[|c.reports| - 1]
  }

  /** Unless a write fails or an exception escapes, an executed request has its response
      beside it: what it reported last, or the error it threw. */
  lemma ExecutedIsAnswered(b: Box, now: int, f: Found, name: string, text: string)
    requires Executes(b, now, f) && f.visit.answers && Names(f.name, name) && Says(f.visit.command, text)
    ensures var files := Handled(b, now, f).box.files;
      "res_" + name + ".txt" in files && files["res_" + name + ".txt"] == text
    ensures f.visit.removes ==> f.name !in Handled(b, now, f).box.files
  {
    RequestNamed(f.name, name);
    hide Changed, IsRequest, ResponseName, Names;
    ResponsesAreDistinct(f.name, f.name);
  }

  /** What the turn of a file leaves in the directory: an old file of the mailbox is gone; an
      executed request has its response if that could be written, and is gone if it could be
      deleted; and anything else is as others, and the command, left it. */
  lemma TurnLeaves(b: Box, now: int, f: Found)
    ensures var met, files := Changed(b, f.visit.arrivals), Handled(b, now, f).box.files;
      if (StartsWith(f.name, "res_") || StartsWith(f.name, "req_"))
         && f.visit.stat.Some? && now - f.visit.stat.value > 60 && f.visit.purges
      then files == met.files - {f.name}
      else if Executes(b, now, f) then
        var ran := Changed(met, f.visit.effects).files;
        forall name | Names(f.name, name) ::
          if f.visit.command.thrown.Some? && f.visit.command.thrown.value.text.None? then files == ran
          else
            forall text | Says(f.visit.command, text) ::
              var answered := if f.visit.answers then ran["res_" + name + ".txt" := text] else ran;
              files == if f.visit.removes then answered - {f.name} else answered
      else files == met.files
  {
    hide Changed, IsRequest, ResponseName, Names;
    var met := Changed(b, f.visit.arrivals);
    if Executes(b, now, f) {
      var ran := met.(trace := met.trace + [Executed(f.name, met.files[f.name], Captured(f.visit.command))]);
      SameFiles(met, ran, f.visit.effects);
      forall name | Names(f.name, name) ensures IsRequest(f.name) && ResponseName(f.name) == "res_" + name + ".txt" {
        RequestNamed(f.name, name);
      }
    }
  }

  /** Changes act on the files alone. */
  lemma {:induction false} SameFiles(b: Box, c: Box, changes: seq<Change>)
    requires b.files == c.files
    ensures Changed(b, changes).files == Changed(c, changes).files
    decreases |changes|
  {
    if changes != [] {
      match changes[0] {
        case Put(name, content) => SameFiles(Wrote(b, name, content), Wrote(c, name, content), changes[1..]);
        case Drop(name) => SameFiles(Dropped(b, name), Dropped(c, name), changes[1..]);
      }
    }
  }
}
