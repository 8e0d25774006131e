/** The arithmetic of one sampling cycle (profiler/_profiler.py:54-72):
    summing the readings of the application and of the children that still
    exist, and scaling the CPU total by the core capacity. psutil's
    readings are inputs. */
module Sampling {

  /** `cpu_percent()` and `memory_percent()` of one process. */
  datatype Reading = Reading(cpu: real, mem: real)

  /** A child's readings together with `pid_exists(child.pid)` after the
      sleep; the readings of a child that no longer exists are never taken. */
  datatype ChildReading = ChildReading(alive: bool, reading: Reading)

  /** Sum of CPU over the children that still exist, in list order. */
  function LiveCpu(children: seq<ChildReading>): (r: real)
    ensures (forall i :: 0 <= i < |children| ==> !children[i].alive) ==> r == 0.0
    ensures (forall i :: 0 <= i < |children| ==> children[i].reading.cpu >= 0.0) ==> r >= 0.0
  {
    var n := |children|;
    if n == 0 then 0.0
    else LiveCpu(children[..n - 1]) + (if children[n - 1].alive then children[n - 1].reading.cpu else 0.0)
  }

  /** Sum of memory over the children that still exist, in list order. */
  function LiveMem(children: seq<ChildReading>): (r: real)
    ensures (forall i :: 0 <= i < |children| ==> !children[i].alive) ==> r == 0.0
    ensures (forall i :: 0 <= i < |children| ==> children[i].reading.mem >= 0.0) ==> r >= 0.0
  {
    var n := |children|;
    if n == 0 then 0.0
    else LiveMem(children[..n - 1]) + (if children[n - 1].alive then children[n - 1].reading.mem else 0.0)
  }

  /** The children that still exist, in order. */
  function Survivors(children: seq<ChildReading>): (s: seq<Reading>)
    ensures |s| <= |children|
  {
    var n := |children|;
    if n == 0 then []
    else Survivors(children[..n - 1]) + (if children[n - 1].alive then [children[n - 1].reading] else [])
  }

  function TotalCpu(rs: seq<Reading>): real {
    if |rs| == 0 then 0.0 else TotalCpu(rs[..|rs| - 1]) + rs[|rs| - 1].cpu
  }

  function TotalMem(rs: seq<Reading>): real {
    if |rs| == 0 then 0.0 else TotalMem(rs[..|rs| - 1]) + rs[|rs| - 1].mem
  }

  /** The loop of lines 66-69: for each child, add its readings when its pid
      still exists. */
  method SumLiveChildren(children: seq<ChildReading>) returns (cpu: real, mem: real)
    ensures cpu == TotalCpu(Survivors(children))
    ensures mem == TotalMem(Survivors(children))
  {
    cpu, mem := 0.0, 0.0;
    for i := 0 to |children|
      invariant cpu == LiveCpu(children[..i])
      invariant mem == LiveMem(children[..i])
    {
      assert children[..i + 1][..i] == children[..i];
      if children[i].alive {
        cpu := cpu + children[i].reading.cpu;
        mem := mem + children[i].reading.mem;
      }
    }
    assert children[..|children|] == children;
    LiveIsSurvivorTotal(children);
  }

  lemma {:induction false} TotalCpuAppend(rs: seq<Reading>, ts: seq<Reading>)
    ensures TotalCpu(rs + ts) == TotalCpu(rs) + TotalCpu(ts)
    decreases |ts|
  {
    if |ts| > 0 {
      var k := |ts| - 1;
      assert (rs + ts)[..|rs + ts| - 1] == rs + ts[..k];
      TotalCpuAppend(rs, ts[..k]);
    } else {
      assert rs + ts == rs;
    }
  }

  lemma {:induction false} TotalMemAppend(rs: seq<Reading>, ts: seq<Reading>)
    ensures TotalMem(rs + ts) == TotalMem(rs) + TotalMem(ts)
    decreases |ts|
  {
    if |ts| > 0 {
      var k := |ts| - 1;
      assert (rs + ts)[..|rs + ts| - 1] == rs + ts[..k];
      TotalMemAppend(rs, ts[..k]);
    } else {
      assert rs + ts == rs;
    }
  }

  /** The running totals equal the plain sums over the surviving children. */
  lemma {:induction false} LiveIsSurvivorTotal(children: seq<ChildReading>)
    ensures LiveCpu(children) == TotalCpu(Survivors(children))
    ensures LiveMem(children) == TotalMem(Survivors(children))
  {
    var n := |children|;
    if n > 0 {
      var init := children[..n - 1];
      LiveIsSurvivorTotal(init);
      var extra := if children[n - 1].alive then [children[n - 1].reading] else [];
      TotalCpuAppend(Survivors(init), extra);
      TotalMemAppend(Survivors(init), extra);
    }
  }

  lemma {:induction false} SurvivorsAppend(a: seq<ChildReading>, b: seq<ChildReading>)
    ensures Survivors(a + b) == Survivors(a) + Survivors(b)
    decreases |b|
  {
    if |b| > 0 {
      var k := |b| - 1;
      assert (a + b)[..|a + b| - 1] == a + b[..k];
      SurvivorsAppend(a, b[..k]);
    } else {
      assert a + b == a;
    }
  }

  lemma SurvivorsSkipVanished(pre: seq<ChildReading>, gone: ChildReading, post: seq<ChildReading>)
    requires !gone.alive
    ensures Survivors(pre + [gone] + post) == Survivors(pre + post)
  {
    assert Survivors([gone]) == [] by {
      assert [gone][..0] == [];
    }
    SurvivorsAppend(pre, [gone]);
    SurvivorsAppend(pre + [gone], post);
    SurvivorsAppend(pre, post);
  }

  /** A child that vanished during the sleep contributes nothing: dropping
      it from the list leaves both totals unchanged. */
  lemma VanishedChildContributesNothing(children: seq<ChildReading>, i: nat)
    requires i < |children| && !children[i].alive
    ensures Survivors(children[..i] + children[i + 1..]) == Survivors(children)
    ensures LiveCpu(children[..i] + children[i + 1..]) == LiveCpu(children)
    ensures LiveMem(children[..i] + children[i + 1..]) == LiveMem(children)
  {
    var rest := children[..i] + children[i + 1..];
    assert children == children[..i] + [children[i]] + children[i + 1..];
    SurvivorsSkipVanished(children[..i], children[i], children[i + 1..]);
    LiveIsSurvivorTotal(children);
    LiveIsSurvivorTotal(rest);
  }

  /** Line 72: the total over the divisor, times one hundred. */
  function Normalize(total: real, divisor: real): real
    requires divisor != 0.0
  {
    total / divisor * 100.0
  }

  /** Multiplying the stored value back by the divisor gives the total
      times 100: the division loses nothing. */
  lemma NormalizeInverse(total: real, divisor: real)
    requires divisor != 0.0
    ensures Normalize(total, divisor) * divisor == total * 100.0
  {
    assert total / divisor * divisor == total;
  }

  /** With the divisor of n cores (n * 100), the stored value is the
      per-core average of the total. */
  lemma NormalizeByCores(total: real, n: nat)
    requires n >= 1
    ensures Normalize(total, (n * 100) as real) == total / (n as real)
  {
    var d := (n * 100) as real;
    assert d == (n as real) * 100.0;
  }

  /** Normalisation preserves order. */
  lemma NormalizeMonotone(a: real, b: real, n: nat)
    requires n >= 1 && a <= b
    ensures Normalize(a, (n * 100) as real) <= Normalize(b, (n * 100) as real)
  {
    NormalizeByCores(a, n);
    NormalizeByCores(b, n);
    DivideMonotone(a, b, n as real);
  }

  lemma DivideMonotone(a: real, b: real, d: real)
    requires d > 0.0 && a <= b
    ensures a / d <= b / d
  {
    assert b / d - a / d == (b - a) / d;
  }

  /** A total between zero and the full capacity of n cores reads as a
      percentage between 0 and 100. */
  lemma NormalizeInRange(total: real, n: nat)
    requires n >= 1 && 0.0 <= total <= (n * 100) as real
    ensures 0.0 <= Normalize(total, (n * 100) as real) <= 100.0
  {
    var c := n as real;
    NormalizeByCores(total, n);
    DivideMonotone(0.0, total, c);
    DivideMonotone(total, c * 100.0, c);
    assert (c * 100.0) / c == 100.0;
  }
}
