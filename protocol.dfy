/** What `end_profiling` reports when it reads the queue that n sampling
    cycles of `__monitor` left behind with no other reader in between
    (profiler/_profiler.py:74-82 against 134-138 and 183-185), for the
    publish step as written and for the one that drops the previous
    publication. */
module Protocol {
  import opened Options
  import opened Channel
  import opened Report

  /** Where the reader's three items come from in the stream of all puts. */
  lemma WrittenQueueFront(cpu: seq<real>, mem: seq<real>)
    requires |cpu| == |mem| && |cpu| >= 1
    ensures var q, s, p := QueueAfter(WrittenDrain, cpu, mem), Stream(cpu, mem), Drained(|cpu|);
      |q| >= 3 && p + 2 < |s| && q[0] == s[p] && q[1] == s[p + 1] && q[2] == s[p + 2]
  {
    WrittenQueueIsStreamSuffix(cpu, mem);
    WrittenQueueShape(cpu, mem);
  }

  /** As written, the reader sees a status at the head only when n % 3 == 1,
      and then the publication of cycle (2n + 1) / 3; for n % 3 == 2 it takes
      a memory series for a status and prints the next status 0 as the
      error; for n % 3 == 0 it prints a memory series as the error. */
  lemma ReadAfterWrittenCycles(cpu: seq<real>, mem: seq<real>)
    requires |cpu| == |mem| && |cpu| >= 1
    ensures var n, k := |cpu|, (2 * |cpu| + 1) / 3;
      var r := EndReport(QueueAfter(WrittenDrain, cpu, mem));
      1 <= k <= n &&
      (n % 3 == 1 ==> r == Reported(Plot(cpu[..k]), Plot(mem[..k]))) &&
      (n % 3 == 2 ==> r == CollectorFailed(OkStatus)) &&
      (n % 3 == 0 ==> r == CollectorFailed(Series(mem[..k])))
  {
    var n, k := |cpu|, (2 * |cpu| + 1) / 3;
    DrainOffsets(n);
    var items := WrittenFrontItems(cpu, mem);
    var q := QueueAfter(WrittenDrain, cpu, mem);
    if n % 3 == 1 {
      assert ChartOf(q[1]) == Some(Plot(cpu[..k]));
      assert ChartOf(q[2]) == Some(Plot(mem[..k]));
    }
  }

  /** The reader's three items, by the residue of n modulo 3. */
  lemma WrittenFrontItems(cpu: seq<real>, mem: seq<real>) returns (q: seq<Item>)
    requires |cpu| == |mem| && |cpu| >= 1
    ensures q == QueueAfter(WrittenDrain, cpu, mem) && |q| >= 3
    ensures var n, k := |cpu|, (2 * |cpu| + 1) / 3;
      (n % 3 == 1 ==> q[0] == OkStatus && q[1] == Series(cpu[..k]) && q[2] == Series(mem[..k])) &&
      (n % 3 == 2 ==> q[0] != OkStatus && q[1] == OkStatus) &&
      (n % 3 == 0 ==> q[0] != OkStatus && q[1] == Series(mem[..k]))
  {
    q := QueueAfter(WrittenDrain, cpu, mem);
    WrittenQueueFront(cpu, mem);
    var n := |cpu|;
    if n % 3 == 1 {
      FrontItemsWhenOne(cpu, mem);
    } else if n % 3 == 2 {
      FrontItemsWhenTwo(cpu, mem);
    } else {
      FrontItemsWhenZero(cpu, mem);
    }
  }

  lemma FrontItemsWhenOne(cpu: seq<real>, mem: seq<real>)
    requires |cpu| == |mem| && |cpu| >= 1 && |cpu| % 3 == 1
    ensures var s, p, k := Stream(cpu, mem), Drained(|cpu|), (2 * |cpu| + 1) / 3;
      1 <= k <= |cpu| && p + 2 < |s| &&
      s[p] == OkStatus && s[p + 1] == Series(cpu[..k]) && s[p + 2] == Series(mem[..k])
  {
    var p := Drained(|cpu|);
    DrainOffsets(|cpu|);
    StreamLength(cpu, mem);
    StreamAt(cpu, mem, p);
    StreamAt(cpu, mem, p + 1);
    StreamAt(cpu, mem, p + 2);
  }

  lemma FrontItemsWhenTwo(cpu: seq<real>, mem: seq<real>)
    requires |cpu| == |mem| && |cpu| >= 1 && |cpu| % 3 == 2
    ensures var s, p := Stream(cpu, mem), Drained(|cpu|);
      p + 1 < |s| && s[p] != OkStatus && s[p + 1] == OkStatus
  {
    var p := Drained(|cpu|);
    DrainOffsets(|cpu|);
    StreamLength(cpu, mem);
    StreamAt(cpu, mem, p);
    StreamAt(cpu, mem, p + 1);
  }

  lemma FrontItemsWhenZero(cpu: seq<real>, mem: seq<real>)
    requires |cpu| == |mem| && |cpu| >= 1 && |cpu| % 3 == 0
    ensures var s, p, k := Stream(cpu, mem), Drained(|cpu|), (2 * |cpu| + 1) / 3;
      1 <= k <= |cpu| && p + 1 < |s| && s[p] != OkStatus && s[p + 1] == Series(mem[..k])
  {
    var p := Drained(|cpu|);
    DrainOffsets(|cpu|);
    StreamLength(cpu, mem);
    StreamAt(cpu, mem, p);
    StreamAt(cpu, mem, p + 1);
  }

  /** As written, the reader gets the complete series only after exactly one
      cycle. */
  lemma WrittenReportCompleteOnlyAfterOneCycle(cpu: seq<real>, mem: seq<real>)
    requires |cpu| == |mem| && |cpu| >= 1
    ensures EndReport(QueueAfter(WrittenDrain, cpu, mem)) == Reported(Plot(cpu), Plot(mem)) <==> |cpu| == 1
  {
    var n, k := |cpu|, (2 * |cpu| + 1) / 3;
    ReadAfterWrittenCycles(cpu, mem);
    if n == 1 {
      assert cpu[..1] == cpu && mem[..1] == mem;
    } else if n % 3 == 1 {
      assert k < n;
      assert |Plot(cpu[..k]).points| != |Plot(cpu).points|;
    }
  }

  /** After four cycles the reader reports charts, but of the first three
      samples only: CPU samples 1, 2, 3, 4 are plotted as 0, 1, 2, 3, and
      the fourth sample is missing. */
  lemma StaleReportAfterFourCycles(cpu: seq<real>, mem: seq<real>)
    requires |cpu| == 4 && |mem| == 4
    ensures var r := EndReport(QueueAfter(WrittenDrain, cpu, mem));
      r.Reported? && r.cpu.points == [0.0, cpu[0], cpu[1], cpu[2]] && r.mem.points == [0.0, mem[0], mem[1], mem[2]]
  {
    ReadAfterWrittenCycles(cpu, mem);
    assert (2 * 4 + 1) / 3 == 3;
    assert [0.0] + cpu[..3] == [0.0, cpu[0], cpu[1], cpu[2]];
    assert [0.0] + mem[..3] == [0.0, mem[0], mem[1], mem[2]];
  }

  /** With three gets per publish the reader always gets the latest complete
      series, and takes everything in the queue. */
  lemma ReadAfterLatestCycles(cpu: seq<real>, mem: seq<real>)
    requires |cpu| == |mem| && |cpu| >= 1
    ensures var q := QueueAfter(LatestDrain, cpu, mem);
      EndReport(q) == Reported(Plot(cpu), Plot(mem)) && Taken(q) == |q|
  {
    LatestQueueIsLastTriple(cpu, mem);
  }

  /** A failure after at least one publish sits behind the publications, so
      the reader never sees it: it reports as if the collector had not
      failed. Before any publish the reader gets the error. */
  lemma CrashVisibility(cpu: seq<real>, mem: seq<real>, e: Error)
    requires |cpu| == |mem|
    ensures var q := QueueAfter(WrittenDrain, cpu, mem);
      |cpu| >= 1 ==> EndReport(q + [FailedStatus, Failure(e)]) == EndReport(q)
    ensures var q := QueueAfter(WrittenDrain, cpu, mem);
      |cpu| == 0 ==> EndReport(q + [FailedStatus, Failure(e)]) == CollectorFailed(Failure(e))
  {
    if |cpu| >= 1 {
      WrittenQueueShape(cpu, mem);
      ReportIgnoresLaterItems(QueueAfter(WrittenDrain, cpu, mem), [FailedStatus, Failure(e)]);
    }
  }
}
