/** Sampling a time series at even intervals with a pointer that only moves forward. */
module Resampler {

  datatype Point = Point(time: int, value: int)

  ghost predicate Sorted(series: seq<Point>) {
    forall i, j :: 0 <= i < j < |series| ==> series[i].time <= series[j].time
  }

  /** The last entry at or before a time, the first entry if there is none. */
  function LastAt(series: seq<Point>, t: int): (k: nat)
    requires series != []
    ensures k < |series|
    decreases |series|
  {
    var n := |series| - 1;
    if n == 0 || series[n].time <= t then n else LastAt(series[..n], t)
  }

  lemma {:induction false} LastAtIs(series: seq<Point>, t: int, k: nat)
    requires k < |series| && (k == 0 || series[k].time <= t)
    requires forall m :: k < m < |series| ==> series[m].time > t
    ensures LastAt(series, t) == k
    decreases |series|
  {
    var n := |series| - 1;
    if k < n { LastAtIs(series[..n], t, k); }
  }

  lemma {:induction false} LastAtHolds(series: seq<Point>, t: int)
    requires series != []
    ensures var k := LastAt(series, t);
            (k == 0 || series[k].time <= t) && forall m :: k < m < |series| ==> series[m].time > t
    decreases |series|
  {
    var n := |series| - 1;
    if n > 0 && series[n].time > t { LastAtHolds(series[..n], t); }
  }

  /** The pointer may start from where an earlier sample left it. */
  ghost predicate Behind(series: seq<Point>, t: int, last: nat) {
    last < |series| && (last == 0 || series[last].time <= t)
  }

  /** Move the pointer on to a sample time. */
  method Advance(series: seq<Point>, timepoint: int, last: nat) returns (last': nat, steps: nat)
    requires Sorted(series) && Behind(series, timepoint, last)
    ensures last' == LastAt(series, timepoint) && Behind(series, timepoint, last')
    ensures last + steps <= last' + 1
  {
    var j := last;
    steps := 0;
    while timepoint >= series[j].time
      invariant last <= j < |series| && steps == j - last
      invariant j > last ==> series[j - 1].time <= timepoint
      decreases |series| - j
    {
      j := j + 1;
      steps := steps + 1;
      if j == |series| { break; }
    }
    last' := if j - 1 < 0 then 0 else j - 1;
    LastAtIs(series, timepoint, last');
  }

  /** The samples as they are defined. */
  function Samples(series: seq<Point>, interval: nat, count: nat): (r: seq<int>)
    requires series != []
    ensures |r| == count
  {
    seq(count, i requires 0 <= i < count => series[LastAt(series, i * interval)].value)
  }

  lemma Later(series: seq<Point>, i: nat, interval: nat, last: nat)
    requires Behind(series, i * interval, last)
    ensures Behind(series, (i + 1) * interval, last)
  {
    assert (i + 1) * interval == i * interval + interval;
  }

  /** One series sampled on its own. */
  method Resample(series: seq<Point>, interval: nat, count: nat) returns (values: seq<int>, steps: nat)
    requires Sorted(series) && series != []
    ensures values == Samples(series, interval, count)
    ensures steps <= count + |series|
  {
    var last := 0;
    values, steps := [], 0;
    for i := 0 to count
      invariant Behind(series, i * interval, last) && steps <= last + i
      invariant |values| == i && forall k :: 0 <= k < i ==> values[k] == series[LastAt(series, k * interval)].value
    {
      var more;
      last, more := Advance(series, i * interval, last);
      steps := steps + more;
      values := values + [series[last].value];
      Later(series, i, interval, last);
    }
  }

  /** How many samples a plot takes: one for each interval up to the last entry. */
  function SampleCount(series: seq<Point>, interval: nat): nat
    requires series != [] && interval > 0
  {
    var maxPoint := series[|series| - 1].time / interval;
    if maxPoint < 0 then 0 else maxPoint + 1
  }

  /** The last sample is at the greatest multiple of the interval that is not after the last entry. */
  lemma SamplesReachTheEnd(series: seq<Point>, interval: nat)
    requires series != [] && interval > 0
    ensures var n, end := SampleCount(series, interval), series[|series| - 1].time;
            && (n == 0 <==> end < 0)
            && (n > 0 ==> (n - 1) * interval <= end < (n - 1) * interval + interval)
  {
    var end := series[|series| - 1].time;
    assert end == end / interval * interval + end % interval;
  }

  /** The workload plot: four series, each with its own pointer, sampled at the same times. */
  method PlotWorkload(workload: seq<Point>, jobload: seq<Point>, totalclient: seq<Point>, busyclient: seq<Point>)
    returns (times: seq<int>, work: seq<int>, jobs: seq<int>, clients: seq<int>, busy: seq<int>)
    requires workload != [] && jobload != [] && totalclient != [] && busyclient != []
    requires Sorted(workload) && Sorted(jobload) && Sorted(totalclient) && Sorted(busyclient)
    ensures var n := SampleCount(workload, 5);
            && times == seq(n, i => i * 5)
            && work == Samples(workload, 5, n) && jobs == Samples(jobload, 5, n)
            && clients == Samples(totalclient, 5, n) && busy == Samples(busyclient, 5, n)
  {
    hide Sorted, LastAt;
    var n := SampleCount(workload, 5);
    times, work, jobs, clients, busy := [], [], [], [], [];
    var lastW, lastJ, lastT, lastB, steps := 0, 0, 0, 0, 0;
    for i := 0 to n
      invariant Behind(workload, i * 5, lastW) && Behind(jobload, i * 5, lastJ)
      invariant Behind(totalclient, i * 5, lastT) && Behind(busyclient, i * 5, lastB)
      invariant times == seq(i, k => k * 5)
      invariant work == Samples(workload, 5, i) && jobs == Samples(jobload, 5, i)
      invariant clients == Samples(totalclient, 5, i) && busy == Samples(busyclient, 5, i)
    {
      times := times + [i * 5];
      lastW, steps := Advance(workload, i * 5, lastW);
      work := work + [workload[lastW].value];
      lastJ, steps := Advance(jobload, i * 5, lastJ);
      jobs := jobs + [jobload[lastJ].value];
      lastT, steps := Advance(totalclient, i * 5, lastT);
      clients := clients + [totalclient[lastT].value];
      lastB, steps := Advance(busyclient, i * 5, lastB);
      busy := busy + [busyclient[lastB].value];
    }
  }

  /** The job plot: one series, and a zero after it. */
  method PlotJobload(jobload: seq<Point>) returns (times: seq<int>, jobs: seq<int>)
    requires jobload != [] && Sorted(jobload) && jobload[|jobload| - 1].time >= 0
    ensures var n := SampleCount(jobload, 5);
            jobs == Samples(jobload, 5, n) + [0] && times == seq(n + 1, i => i * 5)
  {
    var n := SampleCount(jobload, 5);
    var steps;
    jobs, steps := Resample(jobload, 5, n);
    times := seq(n, i => i * 5);
    times := times + [times[|times| - 1] + 5];
    jobs := jobs + [0];
  }
}
