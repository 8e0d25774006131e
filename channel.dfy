/** What travels on the multiprocessing queue between the monitor and the
    controller, and the publish step of profiler/_profiler.py:74-82 as a
    function on the queue's contents (oldest item first). */
module Channel {

  /** The exceptions the monitor can catch: a psutil failure on a vanished
      or inaccessible process, `float` rejecting the divisor text, and a
      division by a zero divisor. */
  datatype Error = ProcessError | ValueError | ZeroDivisionError

  /** One queue item: a status code, one of the two series, or an error. */
  datatype Item = Status(code: int) | Series(values: seq<real>) | Failure(error: Error)

  const OkStatus := Status(0)
  const FailedStatus := Status(1)

  /** Number of `q.get()` calls the monitor makes before each publish after
      the first, as written (lines 75-76). */
  const WrittenDrain: nat := 2
  /** The number that would drop exactly the previous publication. */
  const LatestDrain: nat := 3

  /** The three items one publish puts (lines 78-80). */
  function Triple(cpu: seq<real>, mem: seq<real>): (t: seq<Item>)
    ensures |t| == 3 && t[0] == OkStatus
  {
    [OkStatus, Series(cpu), Series(mem)]
  }

  /** One publish: `drain` gets from the front when `q_limit` is set, then
      the triple at the back. */
  function Publish(q: seq<Item>, qLimit: bool, drain: nat, cpu: seq<real>, mem: seq<real>): (r: seq<Item>)
    requires qLimit ==> drain <= |q|
    ensures |r| == |q| - (if qLimit then drain else 0) + 3
  {
    (if qLimit then q[drain..] else q) + Triple(cpu, mem)
  }

  /** A publish keeps the newest items of the queue, in order, and puts its
      triple behind them: the queue stays first in, first out. */
  lemma PublishKeepsNewest(q: seq<Item>, qLimit: bool, drain: nat, cpu: seq<real>, mem: seq<real>)
    requires qLimit ==> drain <= |q|
    ensures var r := Publish(q, qLimit, drain, cpu, mem);
      r[..|r| - 3] == q[|q| - (|r| - 3)..] && r[|r| - 3..] == Triple(cpu, mem)
  {
  }

  /** The queue after one publish per sample, starting from an empty queue,
      where publish k carries the first k samples of each series. */
  function QueueAfter(drain: nat, cpu: seq<real>, mem: seq<real>): (q: seq<Item>)
    requires drain <= 3 && |cpu| == |mem|
    ensures |cpu| == 0 ==> q == []
    ensures |cpu| > 0 ==> |q| == (|cpu| - 1) * (3 - drain) + 3
  {
    var n := |cpu|;
    if n == 0 then []
    else Publish(QueueAfter(drain, cpu[..n - 1], mem[..n - 1]), n > 1, drain, cpu, mem)
  }

  /** Everything n publishes put, in order: the reference a FIFO queue is
      measured against. */
  function Stream(cpu: seq<real>, mem: seq<real>): seq<Item>
    requires |cpu| == |mem|
  {
    var n := |cpu|;
    if n == 0 then [] else Stream(cpu[..n - 1], mem[..n - 1]) + Triple(cpu, mem)
  }

  /** How many items the monitor has taken back after n publishes. */
  function Drained(n: nat): nat {
    if n == 0 then 0 else WrittenDrain * (n - 1)
  }

  lemma {:induction false} StreamLength(cpu: seq<real>, mem: seq<real>)
    requires |cpu| == |mem|
    ensures |Stream(cpu, mem)| == 3 * |cpu|
  {
    var n := |cpu|;
    if n > 0 {
      StreamLength(cpu[..n - 1], mem[..n - 1]);
    }
  }

  /** Position p of the stream belongs to publish p/3 + 1: a status at
      offsets 0, the CPU series of that publish at 1, its memory series at 2. */
  lemma {:induction false} StreamAt(cpu: seq<real>, mem: seq<real>, p: nat)
    requires |cpu| == |mem| && p < 3 * |cpu|
    ensures |Stream(cpu, mem)| == 3 * |cpu|
    ensures p % 3 == 0 ==> Stream(cpu, mem)[p] == OkStatus
    ensures p % 3 == 1 ==> Stream(cpu, mem)[p] == Series(cpu[..p / 3 + 1])
    ensures p % 3 == 2 ==> Stream(cpu, mem)[p] == Series(mem[..p / 3 + 1])
  {
    var n := |cpu|;
    StreamLength(cpu, mem);
    StreamLength(cpu[..n - 1], mem[..n - 1]);
    if p < 3 * (n - 1) {
      StreamAt(cpu[..n - 1], mem[..n - 1], p);
      assert cpu[..n - 1][..p / 3 + 1] == cpu[..p / 3 + 1];
      assert mem[..n - 1][..p / 3 + 1] == mem[..p / 3 + 1];
    } else {
      assert p / 3 + 1 == n;
      assert cpu[..n] == cpu && mem[..n] == mem;
    }
  }

  /** As written, the queue is exactly what was put minus the 2(n-1) oldest
      items: the monitor's gets remove the front of the FIFO, not the
      previous publication. */
  lemma {:induction false} WrittenQueueIsStreamSuffix(cpu: seq<real>, mem: seq<real>)
    requires |cpu| == |mem|
    ensures |Stream(cpu, mem)| == 3 * |cpu|
    ensures QueueAfter(WrittenDrain, cpu, mem) == Stream(cpu, mem)[Drained(|cpu|)..]
  {
    var n := |cpu|;
    StreamLength(cpu, mem);
    if n > 1 {
      var cpu', mem' := cpu[..n - 1], mem[..n - 1];
      WrittenQueueIsStreamSuffix(cpu', mem');
      var s' := Stream(cpu', mem');
      assert Stream(cpu, mem) == s' + Triple(cpu, mem);
      assert s'[Drained(n - 1)..][2..] == s'[Drained(n)..];
      assert (s' + Triple(cpu, mem))[Drained(n)..] == s'[Drained(n)..] + Triple(cpu, mem);
    } else if n == 1 {
      assert Stream(cpu, mem) == Stream([], []) + Triple(cpu, mem);
    }
  }

  /** The offsets of the reader's items within their publications. */
  lemma DrainOffsets(n: nat)
    requires n >= 1
    ensures var p, k := Drained(n), (2 * n + 1) / 3;
      1 <= k <= n &&
      (n % 3 == 1 ==> p % 3 == 0 && p / 3 + 1 == k && (p + 1) % 3 == 1 && (p + 1) / 3 + 1 == k &&
                      (p + 2) % 3 == 2 && (p + 2) / 3 + 1 == k) &&
      (n % 3 == 2 ==> p % 3 == 2 && (p + 1) % 3 == 0) &&
      (n % 3 == 0 ==> p % 3 == 1 && (p + 1) % 3 == 2 && (p + 1) / 3 + 1 == k)
  {
    var m := n / 3;
    assert n == 3 * m + n % 3;
    if n % 3 == 1 {
      OffsetsOne(m);
    } else if n % 3 == 2 {
      OffsetsTwo(m);
    } else {
      OffsetsZero(m);
    }
  }

  lemma OffsetsOne(m: nat)
    ensures var n, p, k := 3 * m + 1, 6 * m, 2 * m + 1;
      Drained(n) == p && (2 * n + 1) / 3 == k && n % 3 == 1 &&
      p % 3 == 0 && p / 3 == 2 * m && (p + 1) % 3 == 1 && (p + 1) / 3 == 2 * m &&
      (p + 2) % 3 == 2 && (p + 2) / 3 == 2 * m
  {
    DivModThree(m, 1);
    DivModThree(2 * m + 1, 0);
    DivModThree(2 * m, 0);
    DivModThree(2 * m, 1);
    DivModThree(2 * m, 2);
  }

  lemma OffsetsTwo(m: nat)
    ensures var n, p := 3 * m + 2, 6 * m + 2;
      Drained(n) == p && n % 3 == 2 && p % 3 == 2 && (p + 1) % 3 == 0
  {
    DivModThree(m, 2);
    DivModThree(2 * m, 2);
    DivModThree(2 * m + 1, 0);
  }

  lemma OffsetsZero(m: nat)
    requires m >= 1
    ensures var n, p, k := 3 * m, 3 * (2 * m - 1) + 1, 2 * m;
      Drained(n) == p && (2 * n + 1) / 3 == k && n % 3 == 0 &&
      p % 3 == 1 && (p + 1) % 3 == 2 && (p + 1) / 3 + 1 == k
  {
    DivModThree(m, 0);
    DivModThree(2 * m - 1, 1);
    DivModThree(2 * m - 1, 2);
    DivModThree(2 * m, 1);
  }

  lemma DivModThree(q: int, r: int)
    requires 0 <= r < 3
    ensures (3 * q + r) % 3 == r && (3 * q + r) / 3 == q
  {
  }

  /** After n >= 1 publishes as written the queue holds n + 2 items, and
      its head is a status exactly when n % 3 == 1; the newest publication
      is always its last three items. */
  lemma WrittenQueueShape(cpu: seq<real>, mem: seq<real>)
    requires |cpu| == |mem| && |cpu| >= 1
    ensures var q := QueueAfter(WrittenDrain, cpu, mem);
      |q| == |cpu| + 2 &&
      (q[0] == OkStatus <==> |cpu| % 3 == 1) &&
      q[|q| - 3..] == Triple(cpu, mem)
  {
    var n := |cpu|;
    var q := QueueAfter(WrittenDrain, cpu, mem);
    WrittenQueueIsStreamSuffix(cpu, mem);
    StreamAt(cpu, mem, Drained(n));
    var p := Drained(n);
    assert q[0] == Stream(cpu, mem)[p];
    DrainOffsets(n);
    if n > 1 {
      assert q == Publish(QueueAfter(WrittenDrain, cpu[..n - 1], mem[..n - 1]), true, WrittenDrain, cpu, mem);
    }
  }

  /** With three gets per publish the queue only ever holds the latest
      publication. */
  lemma {:induction false} LatestQueueIsLastTriple(cpu: seq<real>, mem: seq<real>)
    requires |cpu| == |mem| && |cpu| >= 1
    ensures QueueAfter(LatestDrain, cpu, mem) == Triple(cpu, mem)
  {
    var n := |cpu|;
    if n > 1 {
      LatestQueueIsLastTriple(cpu[..n - 1], mem[..n - 1]);
    }
  }
}
