/** The monitor loop of profiler/_profiler.py:53-86 on values: what one
    pass sees, what it does to the phase and the two series, and the
    account of a run of passes that `Monitor.Monitor.Run` keeps. */
module MonitorLoop {
  import opened Options
  import opened Channel
  import opened Sampling

  /** What one pass of the loop sees. */
  datatype Tick =
    | Exited                                              // `pid_exists(app.pid)` is false
    | Sampled(app: Reading, children: seq<ChildReading>)  // the readings of one cycle
    | Raised(error: Error)                                // psutil raised in lines 56-71

  datatype Phase = Running | AppExited | Crashed(error: Error)

  /** The CPU value a completed cycle appends for a sampled tick (line 72):
      application and surviving children, over the divisor, times 100. */
  function CpuSample(t: Tick, divisor: real): real
    requires t.Sampled? && divisor != 0.0
  {
    Normalize(t.app.cpu + TotalCpu(Survivors(t.children)), divisor)
  }

  /** The memory value a completed cycle appends for a sampled tick. */
  function MemSample(t: Tick): real
    requires t.Sampled?
  {
    t.app.mem + TotalMem(Survivors(t.children))
  }

  /** How the loop ends on tick t, given what `float` made of the divisor
      text: a gone application ends it with nothing put, a raised error
      through the handler with that error, and a sampled tick only through
      the divisor's ValueError or ZeroDivisionError. */
  ghost predicate EndsOn(t: Tick, phase: Phase, divisor: Option<real>) {
    phase != Running &&
    (phase == AppExited <==> t.Exited?) &&
    (t.Raised? ==> phase == Crashed(t.error)) &&
    (t.Sampled? ==>
       (divisor.None? || divisor.value == 0.0) &&
       phase == Crashed(if divisor.None? then ValueError else ZeroDivisionError))
  }

  /** What one pass does to the phase and the series, given what `float`
      made of the divisor text: either the loop ends as EndsOn says with
      both series unchanged, or a sampled tick appends its two samples. */
  ghost predicate Stepped(t: Tick, divisor: Option<real>, cpu: seq<real>, mem: seq<real>,
                          phase: Phase, cpu': seq<real>, mem': seq<real>) {
    if phase == Running then
      t.Sampled? && divisor.Some? && divisor.value != 0.0 &&
      cpu' == cpu + [CpuSample(t, divisor.value)] && mem' == mem + [MemSample(t)]
    else
      EndsOn(t, phase, divisor) && cpu' == cpu && mem' == mem
  }

  /** Where the loop stands after `cycles` passes over the ticks, starting
      from the series cpu0 and mem0. */
  ghost predicate Progress(ticks: seq<Tick>, cycles: nat, divisor: Option<real>, cpu0: seq<real>, mem0: seq<real>,
                           phase: Phase, cpu: seq<real>, mem: seq<real>) {
    cycles <= |ticks| &&
    cpu0 <= cpu && mem0 <= mem &&
    (forall j :: 0 <= j < cycles && (j < cycles - 1 || phase == Running) ==> ticks[j].Sampled?) &&
    |cpu| == |cpu0| + (if phase == Running then cycles else cycles - 1) &&
    (phase != Running ==> cycles >= 1 && EndsOn(ticks[cycles - 1], phase, divisor)) &&
    (phase == Running && cycles > 0 ==> ticks[cycles - 1].Sampled?) &&
    ((divisor.None? || divisor.value == 0.0) && cycles > 0 ==> cycles == 1 && phase != Running) &&
    (divisor.Some? && divisor.value != 0.0 ==>
      cpu == cpu0 + CpuSamples(ticks[..|cpu| - |cpu0|], divisor.value) &&
      mem == mem0 + MemSamples(ticks[..|cpu| - |cpu0|]))
  }

  /** One more pass keeps the account of the loop. */
  lemma ProgressStep(ticks: seq<Tick>, cycles: nat, divisor: Option<real>, cpu0: seq<real>, mem0: seq<real>,
                     cpu: seq<real>, mem: seq<real>, phase: Phase, cpu': seq<real>, mem': seq<real>)
    requires Progress(ticks, cycles, divisor, cpu0, mem0, Running, cpu, mem) && cycles < |ticks|
    requires Stepped(ticks[cycles], divisor, cpu, mem, phase, cpu', mem')
    ensures Progress(ticks, cycles + 1, divisor, cpu0, mem0, phase, cpu', mem')
  {
    assert ticks[..cycles + 1][..cycles] == ticks[..cycles];
  }

  /** How a run of the loop over `ticks` from the series cpu0 and mem0
      ended, with `divisor` what `float` made of the divisor text:
      - it made `cycles` passes, all of them over the ticks if it is still
        running, and every pass but a final stopping one was on a sampled
        tick;
      - each completed pass appended one value to each series and changed
        no earlier value;
      - it stopped with AppExited exactly on an Exited tick, with the
        tick's error on a Raised tick, and on a sampled tick only with the
        divisor's ValueError (unparsable text) or ZeroDivisionError (zero);
        so an unparsable or zero divisor stops it on the first tick, and a valid
        one stops it only on an Exited or Raised tick;
      - with a valid divisor, the j-th value appended is the j-th tick's
        normalised CPU total and memory total. */
  ghost predicate RunOutcome(ticks: seq<Tick>, cycles: nat, divisor: Option<real>, cpu0: seq<real>, mem0: seq<real>,
                             phase: Phase, cpu: seq<real>, mem: seq<real>) {
    cycles <= |ticks| &&
    (phase == Running ==> cycles == |ticks|) &&
    (phase != Running ==> cycles >= 1) &&
    (forall j :: 0 <= j < cycles && (j < cycles - 1 || phase == Running) ==> ticks[j].Sampled?) &&
    (phase == Running && cycles > 0 ==> ticks[cycles - 1].Sampled?) &&
    cpu0 <= cpu && mem0 <= mem &&
    |cpu| == |cpu0| + (if phase == Running then cycles else cycles - 1) &&
    |mem| - |mem0| == |cpu| - |cpu0| &&
    (phase != Running ==>
       (phase == AppExited <==> ticks[cycles - 1].Exited?) &&
       (ticks[cycles - 1].Raised? ==> phase == Crashed(ticks[cycles - 1].error)) &&
       (ticks[cycles - 1].Sampled? ==>
          phase == Crashed(if divisor.None? then ValueError else ZeroDivisionError))) &&
    ((divisor.None? || divisor.value == 0.0) && |ticks| > 0 ==> cycles == 1 && phase != Running) &&
    (divisor.Some? && divisor.value != 0.0 ==>
       (phase.Crashed? ==> ticks[cycles - 1].Raised?) &&
       forall j :: 0 <= j < |cpu| - |cpu0| ==>
         cpu[|cpu0| + j] == CpuSample(ticks[j], divisor.value) && mem[|mem0| + j] == MemSample(ticks[j]))
  }

  /** The account of a finished loop gives its outcome. */
  lemma ProgressEnds(ticks: seq<Tick>, cycles: nat, divisor: Option<real>, cpu0: seq<real>, mem0: seq<real>,
                     phase: Phase, cpu: seq<real>, mem: seq<real>)
    requires Progress(ticks, cycles, divisor, cpu0, mem0, phase, cpu, mem)
    requires phase == Running ==> cycles == |ticks|
    requires |cpu0| == |mem0| && |cpu| == |mem|
    ensures RunOutcome(ticks, cycles, divisor, cpu0, mem0, phase, cpu, mem)
  {
    if divisor.Some? && divisor.value != 0.0 {
      SamplesAfter(cpu0, mem0, ticks, |cpu| - |cpu0|, divisor.value);
    }
  }

  /** The CPU values the completed cycles of a run of ticks append, one per
      sampled tick, in order. */
  function CpuSamples(ts: seq<Tick>, divisor: real): seq<real>
    requires divisor != 0.0
  {
    var n := |ts|;
    if n == 0 then []
    else CpuSamples(ts[..n - 1], divisor) + (if ts[n - 1].Sampled? then [CpuSample(ts[n - 1], divisor)] else [])
  }

  /** The memory values the completed cycles of a run of ticks append. */
  function MemSamples(ts: seq<Tick>): seq<real> {
    var n := |ts|;
    if n == 0 then []
    else MemSamples(ts[..n - 1]) + (if ts[n - 1].Sampled? then [MemSample(ts[n - 1])] else [])
  }

  /** On a run of sampled ticks, value j of the CPU series is the sample
      of tick j. */
  lemma {:induction false} CpuSamplesAt(ts: seq<Tick>, divisor: real)
    requires divisor != 0.0
    requires forall i :: 0 <= i < |ts| ==> ts[i].Sampled?
    ensures |CpuSamples(ts, divisor)| == |ts|
    ensures forall j :: 0 <= j < |ts| ==> CpuSamples(ts, divisor)[j] == CpuSample(ts[j], divisor)
  {
    var n := |ts|;
    if n > 0 {
      var init := ts[..n - 1];
      assert forall i :: 0 <= i < |init| ==> init[i] == ts[i];
      CpuSamplesAt(init, divisor);
      assert CpuSamples(ts, divisor) == CpuSamples(init, divisor) + [CpuSample(ts[n - 1], divisor)];
    }
  }

  /** The same for the memory series. */
  lemma {:induction false} MemSamplesAt(ts: seq<Tick>)
    requires forall i :: 0 <= i < |ts| ==> ts[i].Sampled?
    ensures |MemSamples(ts)| == |ts|
    ensures forall j :: 0 <= j < |ts| ==> MemSamples(ts)[j] == MemSample(ts[j])
  {
    var n := |ts|;
    if n > 0 {
      var init := ts[..n - 1];
      assert forall i :: 0 <= i < |init| ==> init[i] == ts[i];
      MemSamplesAt(init);
      assert MemSamples(ts) == MemSamples(init) + [MemSample(ts[n - 1])];
    }
  }

  /** The series a run of sampled ticks extends hold, after their old
      values, the sample of each tick in turn. */
  lemma SamplesAfter(cpu0: seq<real>, mem0: seq<real>, ticks: seq<Tick>, k: nat, divisor: real)
    requires divisor != 0.0 && k <= |ticks|
    requires forall j :: 0 <= j < k ==> ticks[j].Sampled?
    ensures var cpu := cpu0 + CpuSamples(ticks[..k], divisor);
      var mem := mem0 + MemSamples(ticks[..k]);
      |cpu| == |cpu0| + k && |mem| == |mem0| + k &&
      forall j :: 0 <= j < k ==>
        cpu[|cpu0| + j] == CpuSample(ticks[j], divisor) && mem[|mem0| + j] == MemSample(ticks[j])
  {
    CpuSamplesAt(ticks[..k], divisor);
    MemSamplesAt(ticks[..k]);
  }
}
