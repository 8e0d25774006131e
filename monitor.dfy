/** `Profiler.__monitor` (profiler/_profiler.py:42-86): the sampling loop
    that runs in the collector process, with its two growing series, its
    `q_limit` flag and the queue it publishes on. Every psutil reading,
    `pid_exists` answer and exception arrives as a Tick. */
module Monitor {
  import opened Options
  import opened PyText
  import opened ServerProfile
  import opened Channel
  import opened Sampling
  import opened MonitorLoop

  /** What the exception handler has added behind the publications. */
  function ErrorTail(phase: Phase): seq<Item> {
    if phase.Crashed? then [FailedStatus, Failure(phase.error)] else []
  }

  class Monitor {
    const cpuMax: string        // `str_cpu_max`
    var lstCpu: seq<real>
    var lstMem: seq<real>
    var queue: seq<Item>        // the queue's contents, oldest first
    var qLimit: bool
    var phase: Phase

    /** One sample per publish, `q_limit` set exactly after the first one,
        and the queue holding what the publishes and the handler left. */
    ghost predicate Valid()
      reads this
    {
      |lstCpu| == |lstMem| &&
      qLimit == (|lstCpu| > 0) &&
      queue == QueueAfter(WrittenDrain, lstCpu, lstMem) + ErrorTail(phase)
    }

    /** Lines 43-51, on the fresh queue that `start_profiling` creates. */
    constructor (host: HostReadings)
      ensures Valid() && phase == Running
      ensures cpuMax == CountString(host.cpuCount) + "00"
      ensures lstCpu == [] && lstMem == [] && queue == [] && !qLimit
    {
      var count := Query(Some("cpu"), host).value.count;
      cpuMax := CountString(count) + "00";
      lstCpu, lstMem := [], [];
      queue := [];
      qLimit := false;
      phase := Running;
    }

    /** The exception handler (lines 83-86): status 1, then the error, and
        the loop is over. */
    method Fail(error: Error)
      requires Valid() && phase == Running
      modifies this
      ensures Valid() && phase == Crashed(error)
      ensures queue == old(queue) + [FailedStatus, Failure(error)]
      ensures lstCpu == old(lstCpu) && lstMem == old(lstMem) && qLimit == old(qLimit)
    {
      queue := queue + [FailedStatus];
      queue := queue + [Failure(error)];
      phase := Crashed(error);
    }

    /** One loop body (lines 54-82) on readings that psutil delivered. The
        divisor text is converted at line 72, before anything is appended,
        so a bad core count ends the loop through the handler. */
    method Cycle(app: Reading, children: seq<ChildReading>)
      requires Valid() && phase == Running
      modifies this
      ensures Valid()
      ensures phase == Running || phase == Crashed(ValueError) || phase == Crashed(ZeroDivisionError)
      ensures ParseFloat(cpuMax).None? ==> phase == Crashed(ValueError)
      ensures ParseFloat(cpuMax) == Some(0.0) ==> phase == Crashed(ZeroDivisionError)
      ensures ParseFloat(cpuMax).Some? && ParseFloat(cpuMax).value != 0.0 ==> phase == Running
      ensures phase.Crashed? ==>
        lstCpu == old(lstCpu) && lstMem == old(lstMem) &&
        queue == old(queue) + [FailedStatus, Failure(phase.error)]
      ensures phase == Running ==>
        ParseFloat(cpuMax).Some? && ParseFloat(cpuMax).value != 0.0 &&
        lstCpu == old(lstCpu) + [Normalize(app.cpu + TotalCpu(Survivors(children)), ParseFloat(cpuMax).value)] &&
        lstMem == old(lstMem) + [app.mem + TotalMem(Survivors(children))] &&
        queue == Publish(old(queue), old(qLimit), WrittenDrain, lstCpu, lstMem) && qLimit
    {
      var childCpu, childMem := SumLiveChildren(children);
      var totalCpu := app.cpu + childCpu;
      var totalMem := app.mem + childMem;
      var divisor := ParseFloat(cpuMax);
      if divisor.None? {
        Fail(ValueError);
        return;
      }
      if divisor.value == 0.0 {
        Fail(ZeroDivisionError);
        return;
      }
      Append(Normalize(totalCpu, divisor.value), totalMem);
    }

    /** Lines 72-82 once the sample is known: append it to both series,
        take two items from the front of the queue if something was
        published before, then put the status and both whole series. */
    method Append(cpu: real, mem: real)
      requires Valid() && phase == Running
      modifies this
      ensures Valid() && phase == Running && qLimit
      ensures lstCpu == old(lstCpu) + [cpu] && lstMem == old(lstMem) + [mem]
      ensures queue == Publish(old(queue), old(qLimit), WrittenDrain, lstCpu, lstMem)
    {
      PublishExtendsQueue(lstCpu, lstMem, cpu, mem);
      lstCpu := lstCpu + [cpu];
      lstMem := lstMem + [mem];
      PublishLists();
    }

    /** Lines 74-82 on the queue alone: two gets if `q_limit` is set, three
        puts, and `q_limit` set. */
    method PublishLists()
      requires qLimit ==> |queue| >= WrittenDrain
      modifies this`queue, this`qLimit
      ensures queue == Publish(old(queue), old(qLimit), WrittenDrain, lstCpu, lstMem) && qLimit
    {
      if qLimit {
        queue := queue[1..];   // q.get()
        queue := queue[1..];   // q.get()
      }
      queue := queue + [OkStatus];
      queue := queue + [Series(lstCpu)];
      queue := queue + [Series(lstMem)];
      qLimit := true;
    }

    /** One pass of the loop: the `pid_exists` test, then either the cycle
        or the handler. */
    method Step(t: Tick)
      requires Valid() && phase == Running
      modifies this
      ensures Valid()
      ensures t.Exited? <==> phase == AppExited
      ensures t.Raised? ==> phase == Crashed(t.error)
      ensures t.Sampled? && ParseFloat(cpuMax).Some? && ParseFloat(cpuMax).value != 0.0 ==> phase == Running
      ensures t.Sampled? && ParseFloat(cpuMax).None? ==> phase == Crashed(ValueError)
      ensures t.Sampled? && ParseFloat(cpuMax) == Some(0.0) ==> phase == Crashed(ZeroDivisionError)
      ensures phase != Running ==> lstCpu == old(lstCpu) && lstMem == old(lstMem)
      ensures phase == Running ==>
        lstCpu == old(lstCpu) + [CpuSample(t, ParseFloat(cpuMax).value)] &&
        lstMem == old(lstMem) + [MemSample(t)]
    {
      match t {
        case Exited =>
          phase := AppExited;
        case Raised(e) =>
          Fail(e);
        case Sampled(app, children) =>
          Cycle(app, children);
      }
    }

    /** The `while pid_exists(...)` loop over a run of ticks: it stops at the
        first tick on which the application is gone or something raised
        (with an unparsable or zero divisor, the first tick of all), and
        every cycle before that appended one sample to each series
        (RunOutcome spells this out). */
    method Run(ticks: seq<Tick>) returns (cycles: nat)
      requires Valid() && phase == Running
      modifies this
      ensures Valid()
      ensures RunOutcome(ticks, cycles, ParseFloat(cpuMax), old(lstCpu), old(lstMem), phase, lstCpu, lstMem)
    {
      ghost var divisor := ParseFloat(cpuMax);
      ghost var cpu0, mem0 := lstCpu, lstMem;
      cycles := 0;
      while cycles < |ticks| && phase == Running
        invariant Valid()
        invariant Progress(ticks, cycles, divisor, cpu0, mem0, phase, lstCpu, lstMem)
      {
        ghost var cpu, mem := lstCpu, lstMem;
        Step(ticks[cycles]);
        assert Stepped(ticks[cycles], divisor, cpu, mem, phase, lstCpu, lstMem);
        ProgressStep(ticks, cycles, divisor, cpu0, mem0, cpu, mem, phase, lstCpu, lstMem);
        cycles := cycles + 1;
      }
      ProgressEnds(ticks, cycles, divisor, cpu0, mem0, phase, lstCpu, lstMem);
    }
  }

  /** Publishing the next sample on the queue left by the earlier ones gives
      the queue of the longer series. */
  lemma PublishExtendsQueue(cpu: seq<real>, mem: seq<real>, c: real, m: real)
    requires |cpu| == |mem|
    ensures var q := QueueAfter(WrittenDrain, cpu, mem);
      |cpu| > 0 ==> |q| == |cpu| + 2
    ensures var q := QueueAfter(WrittenDrain, cpu, mem);
      QueueAfter(WrittenDrain, cpu + [c], mem + [m]) == Publish(q, |cpu| > 0, WrittenDrain, cpu + [c], mem + [m])
  {
    assert (cpu + [c])[..|cpu|] == cpu;
    assert (mem + [m])[..|mem|] == mem;
  }
}
