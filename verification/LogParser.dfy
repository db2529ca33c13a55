/** The pass over the log that keeps the counters, line by line. */
module LogParser {
  import opened Wrappers
  import opened Resampler
  import opened LogAnalyzer

  class Parser {
    const jobs: set<Job>
    var work: int
    var active: set<string>
    var busyCount: int
    var busy: map<Client, int>
    var workload: seq<Point>
    var busyload: seq<Point>

    constructor (jobs: set<Job>)
      ensures this.jobs == jobs && Now() == START
    {
      this.jobs := jobs;
      work, active, busyCount, busy, workload, busyload := 0, {}, 0, map[], [], [];
    }

    ghost function Now(): State
      reads this
    {
      State(work, active, busyCount, busy, workload, busyload)
    }

    /** A task's workunits become active. */
    method Enqueue(task: string, total: int)
      modifies this`work, this`active
      ensures work == old(work) + total && active == old(active) + UnitSet(task, total)
    {
      hide Units;
      work := work + total;
      var units := GetWorkunitsByTask(task, total);
      for i := 0 to |units|
        invariant work == old(work) + total && active == old(active) + set k | 0 <= k < i :: units[k]
      {
        active := active + {units[i]};
      }
    }

    /** The workunits of a job stop being active. */
    method Suspend(job: Job)
      modifies this`work, this`active
      ensures work == old(work) - |UnitsOf(old(active), job)| && active == old(active) - UnitsOf(old(active), job)
    {
      hide JobOf;
      var keys := active;
      while keys != {}
        invariant keys <= old(active)
        invariant active == old(active) - UnitsOf(old(active) - keys, job)
        invariant work == old(work) - |UnitsOf(old(active) - keys, job)|
        decreases |keys|
      {
        var unit :| unit in keys;
        SuspendOne(old(active), keys, unit, job);
        keys := keys - {unit};
        if JobOf(unit) == job {
          work := work - 1;
          active := active - {unit};
        }
      }
      assert old(active) - {} == old(active);
    }

    /** A client that leaves is no longer busy. */
    method Drop(client: Client) returns (updated: bool)
      modifies this`busyCount, this`busy
      ensures Now() == Leave(old(Now()), client) && (updated <==> busyCount != old(busyCount))
    {
      updated := client in busy;
      if client in busy {
        busyCount := busyCount - 1;
        busy := busy - {client};
      }
    }

    /** The counters after an event; false if a key is missing. */
    method Handle(e: Event) returns (ok: bool, updated: bool)
      modifies this
      ensures if ok then Count(jobs, old(Now()), e) == Some(Now()) else Count(jobs, old(Now()), e) == None
      ensures ok ==> (updated <==> busyCount != old(busyCount))
    {
      hide JobOf, UnitSet, UnitsOf;
      ok, updated := true, false;
      match e
      case TaskQueued(task, total) =>
        if JobOf(task) in jobs { Enqueue(task, total); }
      case WorkCheckedOut(client) =>
        if client in busy {
          busy := busy[client := busy[client] + 1];
        } else {
          busy := busy[client := 1];
          busyCount := busyCount + 1;
          updated := true;
        }
      case WorkDone(unit, client) =>
        if JobOf(unit) in jobs {
          work := work - 1;
          if unit !in active { ok := false; return; }
          active := active - {unit};
        }
        if client in busy {
          busy := busy[client := busy[client] - 1];
          if busy[client] == 0 {
            busyCount := busyCount - 1;
            busy := busy - {client};
            assert busy == old(busy) - {client};
            updated := true;
          }
        }
      case WorkFailed(client) => updated := Drop(client);
      case JobSuspended(job) =>
        if job in jobs { Suspend(job); }
      case ClientUnregistered(client) => updated := Drop(client);
      case ServerStart => work := 0;
      case ServerRecovered => work := 0;
      case Other =>
    }

    /** All the log, up to a line that stops it. */
    method ParseWorkload(log: seq<Line>) returns (ok: bool)
      modifies this
      ensures if ok then Run(jobs, old(Now()), log) == Some(Now()) else Run(jobs, old(Now()), log) == None
    {
      hide Count;
      ok := true;
      assert log[0..] == log;
      for i := 0 to |log|
        invariant Run(jobs, old(Now()), log) == Run(jobs, Now(), log[i..])
      {
        var line, updated := log[i], false;
        assert log[i..][0] == line && log[i..][1..] == log[i + 1..];
        label before:
        ok, updated := Handle(line.event);
        if !ok { return; }
        if line.event.TaskQueued? || line.event.WorkDone? || line.event.ServerStart? || line.event.ServerRecovered?
           || line.event.JobSuspended? {
          workload := workload + [Point(line.time, work)];
        }
        if updated { busyload := busyload + [Point(line.time, busyCount)]; }
        CountKeepsSeries(jobs, old@before(Now()), line.event);
      }
      assert log[|log|..] == [];
    }
  }

  lemma CountKeepsSeries(jobs: set<Job>, s: State, e: Event)
    requires Count(jobs, s, e).Some?
    ensures var s' := Count(jobs, s, e).value; s'.workload == s.workload && s'.busyload == s.busyload
  {}

  lemma SuspendOne(active: set<string>, keys: set<string>, unit: string, job: Job)
    requires keys <= active && unit in keys
    ensures var before, after := UnitsOf(active - keys, job), UnitsOf(active - (keys - {unit}), job);
            after == (if JobOf(unit) == job then before + {unit} else before) && unit !in before
  {
    hide JobOf;
  }
}
