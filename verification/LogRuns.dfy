/** What a run over the log leaves, told client by client, workunit by workunit and line by line. */
module LogRuns {
  import opened Wrappers
  import opened Resampler
  import opened LogAnalyzer

  // ----- Ids -----

  /** The job of an id is what stands before its first bar, all of it if there is none. */
  lemma {:induction false} JobOfIs(job: Job, rest: string)
    requires '_' !in job
    ensures JobOf(job + "_" + rest) == job && JobOf(job) == job
  {
    if job != "" {
      JobOfIs(job[1..], rest);
      assert (job + "_" + rest)[1..] == job[1..] + "_" + rest;
    }
  }

  /** The number that digits stand for. */
  function Value(s: string): nat {
    if s == "" then 0
    else
      var d := s[|s| - 1];
      10 * Value(s[..|s| - 1]) + if '0' <= d <= '9' then d as int - '0' as int else 0
  }

  lemma DigitIs(d: nat)
    requires d < 10
    ensures Digit(d) as int == '0' as int + d
  {}

  lemma {:induction false} DecimalReads(n: nat)
    ensures Value(Decimal(n)) == n && forall i :: 0 <= i < |Decimal(n)| ==> '0' <= Decimal(n)[i] <= '9'
  {
    hide Digit;
    DigitIs(n % 10);
    var s := Decimal(n);
    if n >= 10 {
      DecimalReads(n / 10);
      assert s[..|s| - 1] == Decimal(n / 10);
    } else {
      assert s[..|s| - 1] == "";
    }
  }

  /** A task's workunits are its id and a number: 0 for a single one, else from 1 up to the total. */
  lemma {:induction false} UnitsAreNumbered(task: string, total: nat, i: nat)
    requires i < total
    ensures |Units(task, total)| == total
    ensures exists s: string :: Units(task, total)[i] == task + "_" + s && Value(s) == if total == 1 then 0 else i + 1
  {
    var n := if total == 1 then 0 else i + 1;
    UnitIs(task, total, i);
    DecimalReads(n);
    hide Units, Decimal, Value;
    assert Units(task, total)[i] == task + "_" + Decimal(n);
  }

  // ----- Runs, seen from their end -----

  lemma {:induction false} RunLast(jobs: set<Job>, s: State, log: seq<Line>)
    requires log != [] && Run(jobs, s, log).Some?
    ensures var n := |log| - 1;
            && Run(jobs, s, log[..n]).Some?
            && Step(jobs, Run(jobs, s, log[..n]).value, log[n]) == Run(jobs, s, log)
    decreases |log|
  {
    hide Step;
    var n := |log| - 1;
    if n == 0 {
      assert log[1..] == [] && log[..0] == [];
    } else {
      RunLast(jobs, Step(jobs, s, log[0]).value, log[1..]);
      assert log[1..][..n - 1] == log[..n][1..];
    }
  }

  // ----- Clients -----

  /** The workunits a client has after an event: what it takes and gives back, all gone when it fails or leaves. */
  function ClientAfter(n: int, e: Event, c: Client): int {
    match e
    case WorkCheckedOut(client) => if client == c then n + 1 else n
    case WorkDone(_, client) => if client == c && n > 0 then n - 1 else n
    case WorkFailed(client) => if client == c then 0 else n
    case ClientUnregistered(client) => if client == c then 0 else n
    case _ => n
  }

  function ClientWork(log: seq<Line>, c: Client): int {
    if log == [] then 0 else ClientAfter(ClientWork(log[..|log| - 1], c), log[|log| - 1].event, c)
  }

  function Held(s: State, c: Client): int {
    if c in s.busy then s.busy[c] else 0
  }

  lemma CountHeld(jobs: set<Job>, s: State, e: Event, c: Client)
    requires BusyOk(s) && Count(jobs, s, e).Some?
    ensures Held(Count(jobs, s, e).value, c) == ClientAfter(Held(s, c), e, c)
  {
    hide UnitSet, UnitsOf, JobOf;
  }

  /** After every run a client is busy with the workunits the log leaves with it, and listed if there are any. */
  lemma {:induction false} ClientsHold(jobs: set<Job>, log: seq<Line>, c: Client)
    requires Run(jobs, START, log).Some?
    ensures var end := Run(jobs, START, log).value;
            Held(end, c) == ClientWork(log, c) && (c in end.busy <==> ClientWork(log, c) > 0)
    decreases |log|
  {
    hide Run, Count, Held;
    BusyCountIsRight(jobs, START, log);
    if log == [] {
      NothingHeld(jobs, c);
    } else {
      var n := |log| - 1;
      RunLast(jobs, START, log);
      ClientsHold(jobs, log[..n], c);
      var s := Run(jobs, START, log[..n]).value;
      BusyCountIsRight(jobs, START, log[..n]);
      CountHeld(jobs, s, log[n].event, c);
      SameHeld(Count(jobs, s, log[n].event).value, Run(jobs, START, log).value, c);
    }
    HeldPositive(Run(jobs, START, log).value, c);
  }

  lemma NothingHeld(jobs: set<Job>, c: Client)
    ensures Run(jobs, START, []).Some? && Held(Run(jobs, START, []).value, c) == 0
  {}

  lemma SameHeld(s: State, s': State, c: Client)
    requires s'.busy == s.busy
    ensures Held(s', c) == Held(s, c)
  {}

  lemma HeldPositive(s: State, c: Client)
    requires BusyOk(s)
    ensures c in s.busy <==> Held(s, c) > 0
  {}

  // ----- Workunits -----

  /** Whether a workunit is outstanding after an event: queued with its task, until it is done or its job suspended. */
  predicate OutAfter(jobs: set<Job>, before: bool, e: Event, u: string) {
    match e
    case TaskQueued(task, total) => before || (JobOf(task) in jobs && u in Units(task, total))
    case WorkDone(unit, _) => before && !(unit == u && JobOf(u) in jobs)
    case JobSuspended(job) => before && !(job == JobOf(u) && job in jobs)
    case _ => before
  }

  predicate Outstanding(jobs: set<Job>, log: seq<Line>, u: string) {
    log != [] && OutAfter(jobs, Outstanding(jobs, log[..|log| - 1], u), log[|log| - 1].event, u)
  }

  lemma CountActive(jobs: set<Job>, s: State, e: Event, u: string)
    requires Count(jobs, s, e).Some?
    ensures u in Count(jobs, s, e).value.active <==> OutAfter(jobs, u in s.active, e, u)
  {
    hide Units, JobOf;
  }

  /** After every run exactly the outstanding workunits are active. */
  lemma {:induction false} ActiveIffOutstanding(jobs: set<Job>, log: seq<Line>, u: string)
    requires Run(jobs, START, log).Some?
    ensures u in Run(jobs, START, log).value.active <==> Outstanding(jobs, log, u)
    decreases |log|
  {
    hide Run, Count, Units, JobOf;
    if log == [] {
      assert Run(jobs, START, []) == Some(START) by { RunNone(jobs); }
    } else {
      var n := |log| - 1;
      RunLast(jobs, START, log);
      ActiveIffOutstanding(jobs, log[..n], u);
      CountActive(jobs, Run(jobs, START, log[..n]).value, log[n].event, u);
    }
  }

  lemma RunNone(jobs: set<Job>)
    ensures Run(jobs, START, []) == Some(START)
  {}

  /** After a restart the work count starts from zero, and the workunits active before are not in it. */
  lemma WorkSinceRestart(jobs: set<Job>, s: State, restart: Line, log: seq<Line>)
    requires Restart(restart.event) && Run(jobs, s, [restart] + log).Some?
    requires forall i :: 0 <= i < |log| ==> !Restart(log[i].event)
    ensures var end := Run(jobs, s, [restart] + log).value;
            end.work == |end.active| - |s.active| + AllRequeued(jobs, Step(jobs, s, restart).value, log)
  {
    hide AllRequeued, Step, Run;
    RestartClears(jobs, s, restart);
    RunFirst(jobs, s, restart, log);
    WorkIsConserved(jobs, Step(jobs, s, restart).value, log);
  }

  lemma RestartClears(jobs: set<Job>, s: State, restart: Line)
    requires Restart(restart.event)
    ensures var s' := Step(jobs, s, restart); s'.Some? && s'.value.work == 0 && s'.value.active == s.active
  {
    hide UnitSet, UnitsOf, JobOf;
  }

  lemma RunFirst(jobs: set<Job>, s: State, line: Line, log: seq<Line>)
    requires Step(jobs, s, line).Some?
    ensures Run(jobs, s, [line] + log) == Run(jobs, Step(jobs, s, line).value, log)
  {
    hide Step;
    assert ([line] + log)[1..] == log;
  }

  // ----- Series -----

  /** The events at which the work count may change. */
  predicate Working(e: Event) {
    match e
    case TaskQueued(_, _) => true
    case WorkDone(_, _) => true
    case JobSuspended(_) => true
    case ServerStart => true
    case ServerRecovered => true
    case _ => false
  }

  function WorkTimes(log: seq<Line>): seq<int> {
    if log == [] then []
    else WorkTimes(log[..|log| - 1]) + if Working(log[|log| - 1].event) then [log[|log| - 1].time] else []
  }

  function Times(series: seq<Point>): seq<int> {
    seq(|series|, i requires 0 <= i < |series| => series[i].time)
  }

  /** The last point has this value; a series without points stands for zero. */
  predicate EndsAt(series: seq<Point>, value: int) {
    value == if series == [] then 0 else series[|series| - 1].value
  }

  lemma TimesAppend(series: seq<Point>, p: Point)
    ensures Times(series + [p]) == Times(series) + [p.time]
  {}

  // What a line adds to the series, and that nothing else changes the counts.
  lemma StepDraws(jobs: set<Job>, s: State, line: Line)
    requires Step(jobs, s, line).Some?
    ensures var s' := Step(jobs, s, line).value;
            && (if Working(line.event) then s'.workload == s.workload + [Point(line.time, s'.work)]
                else s'.workload == s.workload && s'.work == s.work)
            && s'.busyload == if s'.busyCount == s.busyCount then s.busyload
                              else s.busyload + [Point(line.time, s'.busyCount)]
  {
    hide UnitSet, UnitsOf, JobOf;
  }

  /**
    * After every run the work series has a point for each line at which the count may change, and both series
    * end with the current counts. Since this holds of every prefix of the log, each point has the count after
    * its line.
    */
  lemma {:induction false} SeriesFollow(jobs: set<Job>, log: seq<Line>)
    requires Run(jobs, START, log).Some?
    ensures var end := Run(jobs, START, log).value;
            && Times(end.workload) == WorkTimes(log)
            && EndsAt(end.workload, end.work) && EndsAt(end.busyload, end.busyCount)
    decreases |log|
  {
    hide Run, Step, Times;
    if log == [] {
      RunNone(jobs);
      NoTimes();
    } else {
      var n := |log| - 1;
      RunLast(jobs, START, log);
      SeriesFollow(jobs, log[..n]);
      var s, s' := Run(jobs, START, log[..n]).value, Run(jobs, START, log).value;
      StepDraws(jobs, s, log[n]);
      TimesAppend(s.workload, Point(log[n].time, s'.work));
      assert Times(s.workload) + [] == Times(s.workload);
    }
  }

  lemma NoTimes()
    ensures Times([]) == []
  {}

  /** Both series of a run start with those of any run before it. */
  lemma {:induction false} SeriesGrow(jobs: set<Job>, s: State, log: seq<Line>)
    requires Run(jobs, s, log).Some?
    ensures var end := Run(jobs, s, log).value; s.workload <= end.workload && s.busyload <= end.busyload
    decreases |log|
  {
    hide Step;
    if log != [] {
      StepDraws(jobs, s, log[0]);
      SeriesGrow(jobs, Step(jobs, s, log[0]).value, log[1..]);
    }
  }
}
