/** The event-log analyser: counts of active workunits and busy clients, and the series it draws from them. */
module LogAnalyzer {
  import opened Wrappers
  import opened Resampler

  // ----- Workunit ids -----

  function Digit(d: nat): char
    requires d < 10
  {
    "0123456789"[d]
  }

  function Decimal(n: nat): (s: string)
    ensures s != ""
  {
    if n < 10 then [Digit(n)] else Decimal(n / 10) + [Digit(n % 10)]
  }

  /** The workunits of a task: number 0 if there is one, numbers from 1 on if there are more. */
  function Units(task: string, total: int): (units: seq<string>)
    ensures |units| == if total < 0 then 0 else total
  {
    if total == 1 then [task + "_" + Decimal(0)]
    else seq(if total < 0 then 0 else total, i requires i >= 0 => task + "_" + Decimal(i + 1))
  }

  function UnitSet(task: string, total: int): set<string> {
    set u | u in Units(task, total)
  }

  method GetWorkunitsByTask(task: string, total: int) returns (units: seq<string>)
    ensures units == Units(task, total)
  {
    units := [];
    if total == 1 {
      units := [task + "_" + Decimal(0)];
    } else {
      var i := 0;
      while i < total
        invariant 0 <= i && (i <= total || i == 0) && |units| == i
        invariant forall k :: 0 <= k < i ==> units[k] == task + "_" + Decimal(k + 1)
      {
        var rank := i + 1;
        units := units + [task + "_" + Decimal(rank)];
        i := i + 1;
      }
    }
  }

  lemma DigitsDiffer(a: nat, b: nat)
    requires a < 10 && b < 10 && Digit(a) == Digit(b)
    ensures a == b
  {}

  lemma {:induction false} DecimalNoBar(n: nat)
    ensures '_' !in Decimal(n)
  {
    if n >= 10 { DecimalNoBar(n / 10); }
  }

  lemma {:induction false} DecimalInjective(a: nat, b: nat)
    requires Decimal(a) == Decimal(b)
    ensures a == b
  {
    var s := Decimal(a);
    assert a < 10 ==> s == [Digit(a)];
    assert s[|s| - 1] == Digit(a % 10);
    assert Decimal(b)[|Decimal(b)| - 1] == Digit(b % 10);
    DigitsDiffer(a % 10, b % 10);
    if a >= 10 && b >= 10 {
      assert s[..|s| - 1] == Decimal(a / 10);
      assert Decimal(b)[..|Decimal(b)| - 1] == Decimal(b / 10);
      DecimalInjective(a / 10, b / 10);
    }
  }

  // The part after the last bar is the number, so the part before it is a task's own id.
  lemma BarSplits(a: string, x: string, b: string, y: string)
    requires '_' !in x && '_' !in y && a + "_" + x == b + "_" + y
    ensures a == b && x == y
  {
    var s := a + "_" + x;
    assert s[|a|] == '_' && s == b + "_" + y && s[|b|] == '_';
    assert s[..|a|] == a && s[..|b|] == b;
    assert s[|a| + 1..] == x && s[|b| + 1..] == y;
  }

  lemma UnitIs(task: string, total: int, i: nat)
    requires i < |Units(task, total)|
    ensures Units(task, total)[i] == task + "_" + Decimal(if total == 1 then 0 else i + 1)
  {}

  lemma {:induction false} SameUnit(task: string, total: int, i: nat, task': string, total': int, j: nat)
    requires i < |Units(task, total)| && j < |Units(task', total')| && Units(task, total)[i] == Units(task', total')[j]
    ensures task == task' && (total == total' ==> i == j)
  {
    UnitIs(task, total, i);
    UnitIs(task', total', j);
    var x, y := if total == 1 then 0 else i + 1, if total' == 1 then 0 else j + 1;
    hide Units, Decimal;
    DecimalNoBar(x);
    DecimalNoBar(y);
    BarSplits(task, Decimal(x), task', Decimal(y));
    DecimalInjective(x, y);
  }

  /** A task of `total` workunits has that many different ids, none of them another task's. */
  lemma UnitsAreItsOwn(task: string, total: int)
    ensures |UnitSet(task, total)| == |Units(task, total)| == if total < 0 then 0 else total
    ensures forall task', total' :: task' != task ==> UnitSet(task, total) !! UnitSet(task', total')
  {
    hide Units;
    var units := Units(task, total);
    forall i, j | 0 <= i < j < |units| ensures units[i] != units[j] {
      if units[i] == units[j] { SameUnit(task, total, i, task, total, j); }
    }
    DistinctCount(units);
    forall task', total' | task' != task ensures UnitSet(task, total) !! UnitSet(task', total') {
      forall u | u in UnitSet(task, total) && u in UnitSet(task', total') ensures false {
        var i :| 0 <= i < |units| && units[i] == u;
        var j :| 0 <= j < |Units(task', total')| && Units(task', total')[j] == u;
        SameUnit(task, total, i, task', total', j);
      }
    }
  }

  lemma {:induction false} DistinctCount(s: seq<string>)
    requires forall i, j :: 0 <= i < j < |s| ==> s[i] != s[j]
    ensures |set x | x in s| == |s|
  {
    if s == [] {
      assert (set x | x in s) == {};
    } else {
      var n := |s| - 1;
      DistinctCount(s[..n]);
      assert (set x | x in s) == (set x | x in s[..n]) + {s[n]};
    }
  }

  // ----- Events -----

  type Job = string
  type Client = string

  datatype Event =
    | TaskQueued(task: string, total: int)
    | WorkCheckedOut(client: Client)
    | WorkDone(unit: string, client: Client)
    | WorkFailed(client: Client)
    | JobSuspended(job: Job)
    | ClientUnregistered(client: Client)
    | ServerStart
    | ServerRecovered
    | Other

  datatype Line = Line(time: int, event: Event)

  datatype State = State(
    work: int,
    active: set<string>,
    busyCount: int,
    busy: map<Client, int>,
    workload: seq<Point>,
    busyload: seq<Point>)

  const START := State(0, {}, 0, map[], [], [])

  /** The part of a task or workunit id before the first bar. */
  function JobOf(id: string): Job {
    if id == "" || id[0] == '_' then "" else [id[0]] + JobOf(id[1..])
  }

  function UnitsOf(active: set<string>, job: Job): set<string> {
    set u | u in active && JobOf(u) == job
  }

  /** A client that leaves is no longer busy. */
  function Leave(s: State, client: Client): State {
    if client in s.busy then s.(busyCount := s.busyCount - 1, busy := s.busy - {client}) else s
  }

  /** One unit of work less for a client. */
  function Release(s: State, client: Client): State {
    if client !in s.busy then s
    else if s.busy[client] - 1 == 0 then Leave(s, client)
    else s.(busy := s.busy[client := s.busy[client] - 1])
  }

  /** The counters after an event, or nothing if the analyser stops with a missing key. */
  function Count(jobs: set<Job>, s: State, e: Event): Option<State> {
    match e
    case TaskQueued(task, total) =>
      Some(if JobOf(task) in jobs then s.(work := s.work + total, active := s.active + UnitSet(task, total)) else s)
    case WorkCheckedOut(c) =>
      Some(if c in s.busy then s.(busy := s.busy[c := s.busy[c] + 1])
           else s.(busyCount := s.busyCount + 1, busy := s.busy[c := 1]))
    case WorkDone(unit, c) =>
      if JobOf(unit) in jobs && unit !in s.active then None
      else Some(Release(if JobOf(unit) in jobs then s.(work := s.work - 1, active := s.active - {unit}) else s, c))
    case WorkFailed(c) => Some(Leave(s, c))
    case JobSuspended(job) =>
      var units := UnitsOf(s.active, job);
      Some(if job in jobs then s.(work := s.work - |units|, active := s.active - units) else s)
    case ClientUnregistered(c) => Some(Leave(s, c))
    case ServerStart => Some(s.(work := 0))
    case ServerRecovered => Some(s.(work := 0))
    case Other => Some(s)
  }

  predicate Drawn(e: Event) {
    e.TaskQueued? || e.WorkDone? || e.ServerStart? || e.ServerRecovered? || e.JobSuspended?
  }

  /** One line of the log: the counters, then the points it adds to the series. */
  function Step(jobs: set<Job>, s: State, line: Line): Option<State> {
    match Count(jobs, s, line.event)
    case None => None
    case Some(s') =>
      Some(s'.(workload := if Drawn(line.event) then s.workload + [Point(line.time, s'.work)] else s.workload,
               busyload := if s'.busyCount != s.busyCount then s.busyload + [Point(line.time, s'.busyCount)]
                           else s.busyload))
  }

  function Run(jobs: set<Job>, s: State, log: seq<Line>): Option<State>
    decreases |log|
  {
    if log == [] then Some(s)
    else match Step(jobs, s, log[0]) case None => None case Some(s') => Run(jobs, s', log[1..])
  }

  // ----- Busy clients -----

  /** The busy count is the number of busy clients, and each has work. */
  ghost predicate BusyOk(s: State) {
    s.busyCount == |s.busy| && forall c :: c in s.busy ==> s.busy[c] > 0
  }

  lemma CountBusy(jobs: set<Job>, s: State, e: Event)
    requires BusyOk(s) && Count(jobs, s, e).Some?
    ensures BusyOk(Count(jobs, s, e).value)
  {
    hide UnitSet, UnitsOf, JobOf, BusyOk, Leave, Release;
    match e
    case WorkCheckedOut(c) => CheckedOutBusy(s, c);
    case WorkDone(unit, c) =>
      var s1 := if JobOf(unit) in jobs then s.(work := s.work - 1, active := s.active - {unit}) else s;
      SameBusy(s, s1);
      ReleaseBusy(s1, c);
    case WorkFailed(c) => LeaveBusy(s, c);
    case ClientUnregistered(c) => LeaveBusy(s, c);
    case _ => SameBusy(s, Count(jobs, s, e).value);
  }

  lemma LeaveBusy(s: State, c: Client)
    requires BusyOk(s)
    ensures BusyOk(Leave(s, c))
  {
    assert (s.busy - {c}).Keys == s.busy.Keys - {c};
    assert |s.busy - {c}| == |(s.busy - {c}).Keys|;
  }

  lemma ReleaseBusy(s: State, c: Client)
    requires BusyOk(s)
    ensures BusyOk(Release(s, c))
  {
    LeaveBusy(s, c);
    if c in s.busy { assert s.busy[c := s.busy[c] - 1].Keys == s.busy.Keys; }
  }

  lemma CheckedOutBusy(s: State, c: Client)
    requires BusyOk(s)
    ensures c in s.busy ==> BusyOk(s.(busy := s.busy[c := s.busy[c] + 1]))
    ensures c !in s.busy ==> BusyOk(s.(busyCount := s.busyCount + 1, busy := s.busy[c := 1]))
  {
    assert s.busy[c := 1].Keys == s.busy.Keys + {c};
    assert |s.busy[c := 1]| == |s.busy[c := 1].Keys|;
    if c in s.busy { assert s.busy[c := s.busy[c] + 1].Keys == s.busy.Keys; }
  }

  // ----- Conservation of work -----

  /** Workunits that a line enqueues while they are outstanding already. */
  function Requeued(jobs: set<Job>, s: State, e: Event): int {
    if e.TaskQueued? && JobOf(e.task) in jobs then e.total - |UnitSet(e.task, e.total) - s.active| else 0
  }

  function AllRequeued(jobs: set<Job>, s: State, log: seq<Line>): int
    decreases |log|
  {
    if log == [] then 0
    else
      match Step(jobs, s, log[0])
      case None => 0
      case Some(s') => Requeued(jobs, s, log[0].event) + AllRequeued(jobs, s', log[1..])
  }

  predicate Restart(e: Event) {
    e.ServerStart? || e.ServerRecovered?
  }

  lemma CountWork(jobs: set<Job>, s: State, e: Event)
    requires Count(jobs, s, e).Some? && !Restart(e)
    ensures var s' := Count(jobs, s, e).value; s'.work - |s'.active| == s.work - |s.active| + Requeued(jobs, s, e)
  {
    hide UnitSet, JobOf;
    match e
    case TaskQueued(task, total) =>
      var units := UnitSet(task, total);
      assert s.active + units == s.active + (units - s.active);
    case JobSuspended(job) => assert UnitsOf(s.active, job) <= s.active;
    case _ =>
  }

  /** What is enqueued twice is what is outstanding already. */
  lemma RequeuedIsOverlap(jobs: set<Job>, s: State, task: string, total: nat)
    requires JobOf(task) in jobs
    ensures Requeued(jobs, s, TaskQueued(task, total)) == |UnitSet(task, total) * s.active|
  {
    hide UnitSet, JobOf;
    UnitsAreItsOwn(task, total);
    CountApart(UnitSet(task, total), s.active);
  }

  lemma CountApart(a: set<string>, b: set<string>)
    ensures |a| == |a - b| + |a * b|
  {
    assert a == (a - b) + (a * b);
  }

  /**
    * Without restarts the work count is the number of active workunits plus those enqueued again while
    * outstanding.
    */
  lemma {:induction false} WorkIsConserved(jobs: set<Job>, s: State, log: seq<Line>)
    requires Run(jobs, s, log).Some? && forall i :: 0 <= i < |log| ==> !Restart(log[i].event)
    ensures var end := Run(jobs, s, log).value;
            end.work - |end.active| == s.work - |s.active| + AllRequeued(jobs, s, log)
    decreases |log|
  {
    hide Count, Requeued;
    if log != [] {
      CountWork(jobs, s, log[0].event);
      WorkIsConserved(jobs, Step(jobs, s, log[0]).value, log[1..]);
    }
  }

  /** No task is enqueued while some of its workunits are outstanding. */
  ghost predicate NeverRequeued(jobs: set<Job>, s: State, log: seq<Line>)
    decreases |log|
  {
    log == [] ||
    match Step(jobs, s, log[0])
    case None => true
    case Some(s') =>
      && (log[0].event.TaskQueued? && JobOf(log[0].event.task) in jobs ==>
            UnitSet(log[0].event.task, log[0].event.total) !! s.active)
      && NeverRequeued(jobs, s', log[1..])
  }

  ghost predicate Counted(log: seq<Line>) {
    forall i :: 0 <= i < |log| ==> !Restart(log[i].event) && (log[i].event.TaskQueued? ==> log[i].event.total >= 0)
  }

  lemma {:induction false} RequeuedIff(jobs: set<Job>, s: State, log: seq<Line>)
    requires Counted(log)
    ensures AllRequeued(jobs, s, log) >= 0
    ensures AllRequeued(jobs, s, log) == 0 <==> NeverRequeued(jobs, s, log)
    decreases |log|
  {
    hide UnitSet, JobOf, Step, Requeued;
    if log != [] {
      RequeuedOneIff(jobs, s, log[0].event);
      match Step(jobs, s, log[0])
      case None =>
      case Some(s') => RequeuedIff(jobs, s', log[1..]);
    }
  }

  lemma RequeuedOneIff(jobs: set<Job>, s: State, e: Event)
    requires e.TaskQueued? ==> e.total >= 0
    ensures Requeued(jobs, s, e) >= 0
    ensures Requeued(jobs, s, e) == 0 <==>
            (e.TaskQueued? && JobOf(e.task) in jobs ==> UnitSet(e.task, e.total) !! s.active)
  {
    hide UnitSet, JobOf;
    if e.TaskQueued? && JobOf(e.task) in jobs {
      RequeuedIsOverlap(jobs, s, e.task, e.total);
      NoOverlap(UnitSet(e.task, e.total), s.active);
    }
  }

  lemma NoOverlap(a: set<string>, b: set<string>)
    ensures |a * b| == 0 <==> a !! b
  {
    if |a * b| == 0 {
      assert a * b == {};
      forall x | x in a ensures x !in b { assert x in a * b <==> x in b; }
    } else {
      var x :| x in a * b;
    }
  }

  /**
    * On every run without restarts the work count is never below the number of active workunits, and
    * equals it exactly if no task was enqueued again while it had workunits outstanding.
    */
  lemma WorkCoversActive(jobs: set<Job>, log: seq<Line>)
    requires Run(jobs, START, log).Some? && Counted(log)
    ensures var end := Run(jobs, START, log).value;
            && end.work >= |end.active|
            && (end.work == |end.active| <==> NeverRequeued(jobs, START, log))
  {
    hide Run, AllRequeued, NeverRequeued;
    WorkIsConserved(jobs, START, log);
    RequeuedIff(jobs, START, log);
  }

  /** A negative total would take work away that was never there. */
  lemma TotalsMustNotBeNegative(jobs: set<Job>, s: State, task: string, total: int)
    requires JobOf(task) in jobs && s.work == |s.active| && UnitSet(task, total) !! s.active
    ensures var s' := Count(jobs, s, TaskQueued(task, total)).value; s'.work >= |s'.active| <==> total >= 0
  {
    hide UnitSet, JobOf;
    CountWork(jobs, s, TaskQueued(task, total));
    UnitsAreItsOwn(task, total);
    assert UnitSet(task, total) - s.active == UnitSet(task, total);
  }

  /** On every run the busy count is the number of busy clients, each with work. */
  lemma {:induction false} BusyCountIsRight(jobs: set<Job>, s: State, log: seq<Line>)
    requires BusyOk(s) && Run(jobs, s, log).Some?
    ensures BusyOk(Run(jobs, s, log).value)
    decreases |log|
  {
    hide Count, BusyOk;
    if log != [] {
      CountBusy(jobs, s, log[0].event);
      var s' := Step(jobs, s, log[0]).value;
      SameBusy(Count(jobs, s, log[0].event).value, s');
      BusyCountIsRight(jobs, s', log[1..]);
    }
  }

  lemma SameBusy(s: State, s': State)
    requires BusyOk(s) && s'.busy == s.busy && s'.busyCount == s.busyCount
    ensures BusyOk(s')
  {}

  // ----- The series -----

  ghost predicate Upto(series: seq<Point>, time: int) {
    Sorted(series) && forall i :: 0 <= i < |series| ==> series[i].time <= time
  }

  lemma UptoAppend(series: seq<Point>, before: int, time: int, value: int)
    requires Upto(series, before) && before <= time
    ensures Upto(series, time) && Upto(series + [Point(time, value)], time)
  {}

  /** A log in order of time gives series in order of time. */
  lemma {:induction false} SeriesAreSorted(jobs: set<Job>, s: State, log: seq<Line>, time: int)
    requires Run(jobs, s, log).Some? && Upto(s.workload, time) && Upto(s.busyload, time)
    requires forall i :: 0 <= i < |log| ==> time <= log[i].time
    requires forall i, j :: 0 <= i < j < |log| ==> log[i].time <= log[j].time
    ensures Sorted(Run(jobs, s, log).value.workload) && Sorted(Run(jobs, s, log).value.busyload)
    decreases |log|
  {
    hide Count, Drawn, Upto, Sorted;
    if log == [] {
      UptoSorted(s.workload, time);
      UptoSorted(s.busyload, time);
    } else {
      var s', now := Step(jobs, s, log[0]).value, log[0].time;
      UptoAppend(s.workload, time, now, s'.work);
      UptoAppend(s.busyload, time, now, s'.busyCount);
      SeriesAreSorted(jobs, s', log[1..], now);
    }
  }

  lemma UptoSorted(series: seq<Point>, time: int)
    requires Upto(series, time)
    ensures Sorted(series)
  {}
}
