/** `Profiler.server_profile` (profiler/_profiler.py:88-110): host facts in
    whole gigabytes, selected by an option. The host readings come from
    psutil, so they are inputs here. */
module ServerProfile {
  import opened Options

  /** What psutil reports: the logical core count (None when psutil cannot
      tell) and fields 0, 1 and 3 of `virtual_memory()`, in bytes. */
  datatype HostReadings = HostReadings(
    cpuCount: Option<nat>,
    totalBytes: int,
    availableBytes: int,
    usedBytes: int)

  /** The three shapes of a successful answer. */
  datatype Profile =
    | Full(cpuCount: Option<nat>, totalGb: int, availableGb: int, usedGb: int)
    | CpuOnly(count: Option<nat>)
    | MemoryOnly(totalGb: int, availableGb: int, usedGb: int)

  datatype QueryError = InvalidOption(message: string)

  const InvalidOptionMessage := "Invalid parameter, available options: cpu, memory"

  function Pow2(k: nat): (p: nat)
    ensures p >= 1
  {
    if k == 0 then 1 else 2 * Pow2(k - 1)
  }

  /** Python's `x >> k` on an int: k halvings, each rounding toward minus
      infinity (Dafny's `/` by a positive divisor does exactly that). */
  function ShiftRight(x: int, k: nat): (r: int)
    ensures x >= 0 ==> 0 <= r <= x
    ensures x < 0 ==> x <= r < 0
  {
    if k == 0 then x else ShiftRight(x, k - 1) / 2
  }

  /** `x >> k` is the floor of x / 2^k. */
  lemma {:induction false} ShiftRightIsFloorDivision(x: int, k: nat)
    ensures Pow2(k) * ShiftRight(x, k) <= x < Pow2(k) * (ShiftRight(x, k) + 1)
  {
    if k > 0 {
      ShiftRightIsFloorDivision(x, k - 1);
      HalvingStep(Pow2(k - 1), ShiftRight(x, k - 1));
    }
  }

  /** One halving: if p*y <= x < p*(y+1) then the same holds for 2p and y/2. */
  lemma HalvingStep(p: nat, y: int)
    ensures (2 * p) * (y / 2) <= p * y
    ensures p * (y + 1) <= (2 * p) * (y / 2 + 1)
  {
    var r := y / 2;
    if y == 2 * r {
      assert p * y == (2 * p) * r;
      assert p * (y + 1) == (2 * p) * r + p;
      assert (2 * p) * (r + 1) == (2 * p) * r + 2 * p;
    } else {
      assert y == 2 * r + 1;
      assert p * y == (2 * p) * r + p;
      assert p * (y + 1) == (2 * p) * (r + 1);
    }
  }

  /** Bytes to whole gigabytes, as `>> 30` at lines 99-101. */
  function ToGb(bytes: int): (g: int)
    ensures bytes >= 0 ==> 0 <= g <= bytes
    ensures bytes < 0 ==> g < 0
  {
    ShiftRight(bytes, 30)
  }

  /** A gigabyte figure is the floor of bytes / 2^30: never negative for a
      non-negative byte count and never more than the bytes it stands for. */
  lemma ToGbBounds(bytes: int)
    requires bytes >= 0
    ensures 0 <= ToGb(bytes)
    ensures ToGb(bytes) * 0x4000_0000 <= bytes < (ToGb(bytes) + 1) * 0x4000_0000
  {
    ShiftRightIsFloorDivision(bytes, 30);
    assert Pow2(30) == 0x4000_0000 by { Pow2Value30(); }
  }

  lemma Pow2Value30()
    ensures Pow2(30) == 0x4000_0000
  {
    assert Pow2(10) == 1024;
    assert Pow2(20) == 1024 * 1024 by { Pow2Add(10, 10); }
    Pow2Add(20, 10);
  }

  lemma {:induction false} Pow2Add(a: nat, b: nat)
    ensures Pow2(a + b) == Pow2(a) * Pow2(b)
  {
    if b > 0 {
      Pow2Add(a, b - 1);
    }
  }

  /** `server_profile(option)`. All four readings are converted first, as
      the source does, and then the option picks which ones are returned. */
  function Query(option: Option<string>, host: HostReadings): (r: Result<Profile, QueryError>)
    ensures option.None? <==> r.Ok? && r.value.Full?
    ensures option == Some("cpu") <==> r.Ok? && r.value.CpuOnly?
    ensures option == Some("memory") <==> r.Ok? && r.value.MemoryOnly?
    ensures r.Err? <==> option.Some? && option.value != "cpu" && option.value != "memory"
    ensures r.Err? ==> r.error == InvalidOption(InvalidOptionMessage)
    ensures r.Ok? && r.value.Full? ==>
      r.value == Full(host.cpuCount, ToGb(host.totalBytes), ToGb(host.availableBytes), ToGb(host.usedBytes))
    ensures r.Ok? && r.value.CpuOnly? ==> r.value.count == host.cpuCount
    ensures r.Ok? && r.value.MemoryOnly? ==>
      r.value == MemoryOnly(ToGb(host.totalBytes), ToGb(host.availableBytes), ToGb(host.usedBytes))
  {
    var cpuCount := host.cpuCount;
    var totalMem := ToGb(host.totalBytes);
    var availMem := ToGb(host.availableBytes);
    var usedMem := ToGb(host.usedBytes);
    match option
    case None => Ok(Full(cpuCount, totalMem, availMem, usedMem))
    case Some(name) =>
      if name == "cpu" then Ok(CpuOnly(cpuCount))
      else if name == "memory" then Ok(MemoryOnly(totalMem, availMem, usedMem))
      else Err(InvalidOption(InvalidOptionMessage))
  }

  /** Every figure a successful query returns for memory is a floored
      gigabyte count, whichever option asked for it. */
  lemma QueryMemoryFigures(option: Option<string>, host: HostReadings)
    requires host.totalBytes >= 0 && host.availableBytes >= 0 && host.usedBytes >= 0
    requires Query(option, host).Ok? && !Query(option, host).value.CpuOnly?
    ensures var p := Query(option, host).value;
      0 <= p.totalGb && p.totalGb * 0x4000_0000 <= host.totalBytes < (p.totalGb + 1) * 0x4000_0000 &&
      0 <= p.availableGb && p.availableGb * 0x4000_0000 <= host.availableBytes < (p.availableGb + 1) * 0x4000_0000 &&
      0 <= p.usedGb && p.usedGb * 0x4000_0000 <= host.usedBytes < (p.usedGb + 1) * 0x4000_0000
  {
    ToGbBounds(host.totalBytes);
    ToGbBounds(host.availableBytes);
    ToGbBounds(host.usedBytes);
  }
}
