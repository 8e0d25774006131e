/** The reader side of `Profiler.end_profiling`
    (profiler/_profiler.py:128-191): take a status from the queue, then
    either the two series or the error, prepare both plotted series and
    their statistics, and terminate the collector on the way out. */
module Report {
  import opened Options
  import opened Channel

  /** Python's `sum`, adding left to right. */
  function Sum(s: seq<real>): real {
    if |s| == 0 then 0.0 else Sum(s[..|s| - 1]) + s[|s| - 1]
  }

  /** `sum(lst) / len(lst)`; an empty list is a ZeroDivisionError and never
      reaches here. */
  function Mean(s: seq<real>): (r: real)
    requires |s| > 0
    ensures r * (|s| as real) == Sum(s)
  {
    Sum(s) / (|s| as real)
  }

  /** Python's `max`. */
  function Peak(s: seq<real>): (m: real)
    requires |s| > 0
    ensures m in s
    ensures forall i :: 0 <= i < |s| ==> s[i] <= m
  {
    if |s| == 1 then s[0]
    else
      var m' := Peak(s[..|s| - 1]);
      assert forall i :: 0 <= i < |s| - 1 ==> s[..|s| - 1][i] == s[i];
      if s[|s| - 1] > m' then s[|s| - 1] else m'
  }

  /** The smallest value, the lower partner of Peak in the bounds on Mean. */
  function Lowest(s: seq<real>): (m: real)
    requires |s| > 0
    ensures m in s
    ensures forall i :: 0 <= i < |s| ==> m <= s[i]
  {
    if |s| == 1 then s[0]
    else
      var m' := Lowest(s[..|s| - 1]);
      assert forall i :: 0 <= i < |s| - 1 ==> s[..|s| - 1][i] == s[i];
      if s[|s| - 1] < m' then s[|s| - 1] else m'
  }

  /** Samples that all lie in [lo, hi] add up to between n * lo and n * hi. */
  lemma {:induction false} SumBounds(s: seq<real>, lo: real, hi: real)
    requires forall i :: 0 <= i < |s| ==> lo <= s[i] <= hi
    ensures (|s| as real) * lo <= Sum(s) <= (|s| as real) * hi
  {
    if |s| > 0 {
      var init := s[..|s| - 1];
      assert forall i :: 0 <= i < |init| ==> init[i] == s[i];
      SumBounds(init, lo, hi);
      assert (|s| as real) * lo == (|init| as real) * lo + lo;
      assert (|s| as real) * hi == (|init| as real) * hi + hi;
    }
  }

  /** Samples that all lie in [lo, hi] have their average there too. */
  lemma MeanBounds(s: seq<real>, lo: real, hi: real)
    requires |s| > 0
    requires forall i :: 0 <= i < |s| ==> lo <= s[i] <= hi
    ensures lo <= Mean(s) <= hi
  {
    SumBounds(s, lo, hi);
    QuotientBounds(Sum(s), |s| as real, lo, hi);
  }

  /** The average lies between the smallest and the largest sample. */
  lemma MeanWithinRange(s: seq<real>)
    requires |s| > 0
    ensures Lowest(s) <= Mean(s) <= Peak(s)
  {
    MeanBounds(s, Lowest(s), Peak(s));
  }

  lemma QuotientBounds(total: real, n: real, lo: real, hi: real)
    requires n > 0.0 && n * lo <= total <= n * hi
    ensures lo <= total / n <= hi
  {
    var m := total / n;
    assert total == n * m;
    if m < lo {
      ScaleStrict(m, lo, n);
    }
    if m > hi {
      ScaleStrict(hi, m, n);
    }
  }

  lemma ScaleStrict(a: real, b: real, n: real)
    requires a < b && n > 0.0
    ensures n * a < n * b
  {
    assert n * b - n * a == n * (b - a);
  }

  /** A series that never changes has that value as its average and its
      maximum. */
  lemma ConstantSeries(s: seq<real>, v: real)
    requires |s| > 0 && forall i :: 0 <= i < |s| ==> s[i] == v
    ensures Mean(s) == v && Peak(s) == v
  {
    MeanBounds(s, v, v);
    assert s[0] <= Peak(s);
  }

  /** What one figure is drawn from: the series with the synthetic 0.0 in
      front, as many time stamps as points, and the series' maximum and
      average. */
  datatype Chart = Chart(points: seq<real>, times: nat, peak: real, mean: real)

  /** Lines 141-145 (CPU) and 161-164 (memory). */
  function Plot(values: seq<real>): (c: Chart)
    requires |values| > 0
    ensures c.points == [0.0] + values && c.times == |c.points|
    ensures c.peak in values && forall i :: 0 <= i < |values| ==> values[i] <= c.peak
    ensures Lowest(values) <= c.mean <= c.peak
  {
    MeanWithinRange(values);
    Chart([0.0] + values, |values| + 1, Peak(values), Mean(values))
  }

  /** What the reader does with an item it took as a series: a non-empty
      list gives a chart; anything else raises (iterating a status or an
      error is a TypeError, the mean of an empty list a ZeroDivisionError). */
  function ChartOf(item: Item): (r: Option<Chart>)
    ensures r.Some? <==> item.Series? && |item.values| > 0
    ensures r.Some? ==> r.value.points == [0.0] + item.values
  {
    if item.Series? && |item.values| > 0 then Some(Plot(item.values)) else None
  }

  datatype Outcome =
    | Reported(cpu: Chart, mem: Chart)   // both figures saved
    | CollectorFailed(error: Item)       // "Profiler got error: ..."
    | ReportFailed(saved: seq<Chart>)    // "End profiler got error: ...", after the figures already saved
    | Blocked                            // a get is waiting on an empty queue

  /** What `end_profiling` makes of the queue it finds, oldest item first. */
  function EndReport(q: seq<Item>): (r: Outcome)
    ensures r.Blocked? <==> |q| == 0 || (q[0] == OkStatus && |q| < 3) || (q[0] != OkStatus && |q| < 2)
    ensures r.CollectorFailed? <==> |q| >= 2 && q[0] != OkStatus
    ensures r.CollectorFailed? ==> r.error == q[1]
    ensures r.Reported? <==> |q| >= 3 && q[0] == OkStatus && ChartOf(q[1]).Some? && ChartOf(q[2]).Some?
    ensures r.Reported? ==> r == Reported(Plot(q[1].values), Plot(q[2].values))
    ensures r.Reported? ==> r.cpu.points == [0.0] + q[1].values && r.mem.points == [0.0] + q[2].values
    ensures r.ReportFailed? ==>
      |q| >= 3 && q[0] == OkStatus && (r.saved == [] <==> ChartOf(q[1]).None?) && |r.saved| <= 1
    ensures r.ReportFailed? ==> r.saved == (if ChartOf(q[1]).Some? then [ChartOf(q[1]).value] else [])
  {
    if |q| == 0 then Blocked
    else if q[0] == OkStatus then
      if |q| < 3 then Blocked
      else
        match (ChartOf(q[1]), ChartOf(q[2]))
        case (None, _) => ReportFailed([])
        case (Some(cpu), None) => ReportFailed([cpu])
        case (Some(cpu), Some(mem)) => Reported(cpu, mem)
    else if |q| < 2 then Blocked
    else CollectorFailed(q[1])
  }

  /** How many gets of `end_profiling` return: a status 0 is followed by
      two reads, any other status by one. */
  function Taken(q: seq<Item>): (k: nat)
    ensures k <= |q| && k <= 3
    ensures |q| >= 3 && q[0] == OkStatus ==> k == 3
    ensures |q| >= 2 && q[0] != OkStatus ==> k == 2
  {
    if |q| == 0 then 0
    else if q[0] == OkStatus then (if |q| < 3 then |q| else 3)
    else if |q| < 2 then |q| else 2
  }

  /** Items behind the ones the reader takes make no difference to it. */
  lemma ReportIgnoresLaterItems(q: seq<Item>, later: seq<Item>)
    requires |q| >= 3
    ensures EndReport(q + later) == EndReport(q)
    ensures Taken(q + later) == Taken(q)
  {
    assert (q + later)[..3] == q[..3];
    assert (q + later)[0] == q[0] && (q + later)[1] == q[1] && (q + later)[2] == q[2];
  }

  /** The class-level state `end_profiling` works on: the queue and whether
      the collector process is still alive. */
  class Controller {
    var queue: seq<Item>
    var collectorAlive: bool

    constructor (queue: seq<Item>, collectorAlive: bool)
      ensures this.queue == queue && this.collectorAlive == collectorAlive
    {
      this.queue := queue;
      this.collectorAlive := collectorAlive;
    }

    /** `q.get()`; None stands for a get that waits on an empty queue. */
    method Get() returns (x: Option<Item>)
      modifies this
      ensures old(queue) == [] ==> x.None? && queue == []
      ensures old(queue) != [] ==> x == Some(old(queue)[0]) && queue == old(queue)[1..]
      ensures collectorAlive == old(collectorAlive)
    {
      if queue == [] {
        x := None;
      } else {
        x := Some(queue[0]);
        queue := queue[1..];
      }
    }

    /** `if is_alive(): terminate()`: harmless when already stopped. */
    method Terminate()
      modifies this
      ensures !collectorAlive && queue == old(queue)
    {
      if collectorAlive {
        collectorAlive := false;
      }
    }

    /** `end_profiling`: every path that returns, the exception handler's
        included, leaves the collector terminated. */
    method EndProfiling() returns (outcome: Outcome)
      modifies this
      ensures outcome == EndReport(old(queue))
      ensures queue == old(queue)[Taken(old(queue))..]
      ensures collectorAlive == (old(collectorAlive) && outcome.Blocked?)
    {
      var status := Get();
      if status.None? {
        return Blocked;
      }
      if status.value == OkStatus {
        var cpuItem := Get();
        if cpuItem.None? {
          return Blocked;
        }
        var memItem := Get();
        if memItem.None? {
          return Blocked;
        }
        var cpu := ChartOf(cpuItem.value);
        if cpu.None? {
          outcome := ReportFailed([]);
        } else {
          var mem := ChartOf(memItem.value);
          if mem.None? {
            outcome := ReportFailed([cpu.value]);
          } else {
            outcome := Reported(cpu.value, mem.value);
          }
        }
        Terminate();
      } else {
        var error := Get();
        if error.None? {
          return Blocked;
        }
        outcome := CollectorFailed(error.value);
        Terminate();
      }
    }
  }
}
