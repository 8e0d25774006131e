# Profiler: a Dafny model of the sampling loop and its queue hand-off

The profiler runs a collector process beside an application. Every five
seconds it reads the CPU and memory percentages of the application and its
children. It appends one normalised CPU value and one memory value to two
growing lists and publishes `(status, cpu list, memory list)` on a
multiprocessing queue. At the end, `end_profiling` reads that queue and
prepares two charts. `server_profile` reports the core count and memory in
whole gigabytes.

This project models that bookkeeping with every psutil reading, clock and
process operation turned into an input:

- `options.dfy` (`Options`): Option and Result values.
- `python_text.dfy` (`PyText`): Python's `str` of the core count and
  `float` of the divisor text `str(n) + "00"`.
- `server_profile.dfy` (`ServerProfile`): `server_profile`, with `>> 30`
  written out as repeated floor halving.
- `channel.dfy` (`Channel`): the queue items and the publish step as a
  function of the queue. It also gives the queue after n publishes and its
  reference, the stream of everything ever put.
- `sampling.dfy` (`Sampling`): the sum over the application and the
  children that still exist, and the CPU normalisation.
- `monitor_loop.dfy` (`MonitorLoop`): what one pass of the loop sees (a
  `Tick`), the samples it appends, and the account of a run of passes on
  values that the loop method keeps.
- `monitor.dfy` (`Monitor`): the `__monitor` loop as a class. Its fields
  are the two lists, `q_limit`, the queue contents and the loop's phase.
- `report.dfy` (`Report`): the reader side of `end_profiling`, as a pure
  function and as a `Controller` class that takes items one `get` at a
  time and terminates the collector.
- `protocol.dfy` (`Protocol`): what the reader gets from the queue that n
  cycles left behind.

The queue as written is not the overwrite channel it looks like. After the
first cycle, each cycle takes two items from the *front* of the FIFO and
then puts three. With no reader in between, n ≥ 1 cycles leave n + 2 items:
everything put, minus the 2(n − 1) oldest (`Channel.WrittenQueueIsStreamSuffix`).
The head is a status 0 exactly when n % 3 == 1. So at n = 4, 7, … the head
is a status, but it is followed by a stale publication. A status at the head
is not a sign of the latest data.

## Model

| member | source | states |
|---|---|---|
| `ServerProfile.Query` | profiler/_profiler.py:98-110 | No option gives the 4-tuple (count, total, available, used). `'cpu'` gives the count alone. `'memory'` gives (total, available, used). Any other string gives the invalid-parameter error with its message and nothing else. Each case is stated in both directions. |
| `ServerProfile.ShiftRightIsFloorDivision` | profiler/_profiler.py:99-101 | `x >> k` lies in [2^k · r, 2^k · (r + 1)) around x, i.e. it is the floor of x / 2^k, also for negative x. |
| `ServerProfile.ToGbBounds` | profiler/_profiler.py:99-101 | A gigabyte figure of a non-negative byte count is non-negative and is the floor of bytes / 2^30. |
| `ServerProfile.QueryMemoryFigures` | profiler/_profiler.py:99-107 | Every memory figure a successful query returns is that floored gigabyte count: g · 2^30 ≤ bytes < (g + 1) · 2^30, and g ≥ 0. |
| `ServerProfile.ShiftRight` | profiler/_profiler.py:99-101 | `x >> k` never moves past zero: it lies in [0, x] for x ≥ 0 and in [x, 0) for x < 0, so a negative value shifts toward −1, not 0. |
| `ServerProfile.ToGb` | profiler/_profiler.py:99-101 | `>> 30` of a non-negative byte count is between 0 and that count, and of a negative one stays negative. |
| `PyText.DecimalRoundTrip` | profiler/_profiler.py:47 | Reading back the digits `str(n)` writes gives n. |
| `PyText.DecimalString` | profiler/_profiler.py:47 | `str(n)` of a non-negative int is a non-empty run of decimal digits. |
| `PyText.CountString` | profiler/_profiler.py:47 | `str(cpu_count)` is a digit string iff the count is known, and then it reads back as the count. |
| `PyText.CpuDivisor` | profiler/_profiler.py:72 | `float(str(cpu_count) + "00")` succeeds iff the core count is known. |
| `PyText.ParseFloat` | profiler/_profiler.py:72 | On the texts line 72 can see (a count's digits plus "00", or "None00"), `float` accepts exactly the digit strings, with a non-negative value. |
| `PyText.CpuDivisorValue` | profiler/_profiler.py:47 | `float(str(n) + "00")` is n · 100. A count of None makes `float` raise. |
| `Sampling.SumLiveChildren` | profiler/_profiler.py:66-69 | The loop's totals are the sums of CPU and of memory over exactly the children whose pid still exists. |
| `Sampling.LiveCpu` | profiler/_profiler.py:66-69 | The children's CPU sum is 0 when no child still exists, and non-negative when every reading is. |
| `Sampling.LiveMem` | profiler/_profiler.py:66-69 | The children's memory sum is 0 when no child still exists, and non-negative when every reading is. |
| `Sampling.LiveIsSurvivorTotal` | profiler/_profiler.py:66-71 | The running totals equal the plain sums over the surviving children. |
| `Sampling.VanishedChildContributesNothing` | profiler/_profiler.py:66-69 | Removing a child that vanished leaves the survivors and both totals unchanged. |
| `Sampling.NormalizeInverse` | profiler/_profiler.py:72 | `Normalize`, the stored value of line 72, times the divisor gives the total times 100: it is exactly total / divisor · 100. |
| `Sampling.NormalizeByCores` | profiler/_profiler.py:72 | With the divisor of n ≥ 1 cores, the stored value is total / n. |
| `Sampling.NormalizeMonotone` | profiler/_profiler.py:72 | The stored value is monotone in the total. |
| `Sampling.NormalizeInRange` | profiler/_profiler.py:72 | A total in [0, n · 100] gives a value in [0, 100]. |
| `Channel.QueueAfter` | profiler/_profiler.py:74-82 | After n ≥ 1 publishes with d gets each, the queue holds (n − 1)(3 − d) + 3 items. No publish ever gets from a queue with fewer than d items. |
| `Channel.Publish` | profiler/_profiler.py:74-82 | One publish leaves the queue shorter by the number of gets when `q_limit` is set, and otherwise as long as before, plus the three items it puts. |
| `Channel.PublishKeepsNewest` | profiler/_profiler.py:74-82 | A publish keeps the newest items of the queue in order and puts status 0, the CPU list and the memory list behind them. |
| `Channel.DrainOffsets` | profiler/_profiler.py:74-76 | `Drained(n)` = 2(n − 1), the number of items the monitor's own gets have taken back after n cycles, has offset 0, 2 or 1 within its publication as n % 3 is 1, 2 or 0. |
| `Channel.StreamAt` | profiler/_profiler.py:78-80 | Item p of everything put is the status 0, the CPU list of cycle p/3 + 1 or its memory list, according to p % 3. |
| `Channel.WrittenQueueIsStreamSuffix` | profiler/_profiler.py:74-82 | With two gets per cycle, the queue is everything put minus the 2(n − 1) oldest items. |
| `Channel.WrittenQueueShape` | profiler/_profiler.py:74-82 | After n ≥ 1 cycles the queue has n + 2 items. Its head is status 0 iff n % 3 == 1. Its last three items are the newest publication. |
| `Channel.LatestQueueIsLastTriple` | profiler/_profiler.py:74-82 | With three gets per cycle, the queue is exactly the newest publication. |
| `Monitor.Monitor.constructor` | profiler/_profiler.py:43-51 | Starts with empty lists, an empty queue and `q_limit` false. The divisor text is built from `server_profile('cpu')`. |
| `Monitor.Monitor.Fail` | profiler/_profiler.py:83-86 | The handler appends status 1 and then the error to whatever is queued, and the loop ends. |
| `Monitor.Monitor.Append` | profiler/_profiler.py:72-82 | Appends one value to each list and publishes both whole lists, keeping the invariant: the queue is what n publishes leave (n + 2 items ending in the newest publication, by `Channel.WrittenQueueShape`). |
| `Monitor.Monitor.PublishLists` | profiler/_profiler.py:74-82 | Two gets from the front only if `q_limit` is set, then puts status 0 and both lists, and sets `q_limit`. |
| `Monitor.Monitor.Cycle` | profiler/_profiler.py:54-82 | Appends (application + surviving children) CPU, normalised, and the memory total, then publishes. A divisor that parses to a non-zero value always completes the cycle. A divisor text `float` rejects, or a zero divisor, goes through the handler with nothing appended. |
| `Monitor.Monitor.Step` | profiler/_profiler.py:53-86 | One pass of the loop. A gone application ends the loop with nothing put. A raised error ends it through the handler. On a sampled tick, a divisor text `float` rejects ends it with ValueError and a zero divisor with ZeroDivisionError; a valid non-zero divisor keeps the loop running. A completed cycle appends exactly the tick's normalised CPU total (`CpuSample`) and memory total (`MemSample`). |
| `Monitor.Monitor.Run` | profiler/_profiler.py:53-86 | Ends in `RunOutcome`: the loop stops at the first tick where the application is gone (phase AppExited, exactly on an Exited tick) or something raised (that tick's error). A divisor text `float` rejects, or a zero divisor, stops it on the first tick with nothing appended. On a sampled tick it stops only with the divisor's ValueError or ZeroDivisionError, so with a valid non-zero divisor a crash is always a raised tick. With a valid divisor, the j-th value appended to each list is `CpuSample`/`MemSample` of the j-th tick, and earlier values never change. |
| `MonitorLoop.ProgressStep` | profiler/_profiler.py:53-82 | One more pass keeps the loop's account: it either appends the tick's two samples or ends the loop as the tick and the divisor dictate. |
| `MonitorLoop.ProgressEnds` | profiler/_profiler.py:53-86 | The account of a finished loop gives `RunOutcome`: how it stopped and which samples it appended. |
| `MonitorLoop.CpuSamplesAt` | profiler/_profiler.py:70-72 | On a run of sampled ticks, the j-th CPU value appended is the j-th tick's normalised CPU total. |
| `MonitorLoop.MemSamplesAt` | profiler/_profiler.py:71-73 | On a run of sampled ticks, the j-th memory value appended is the j-th tick's memory total. |
| `MonitorLoop.SamplesAfter` | profiler/_profiler.py:72-73 | Lists extended by a run of k sampled ticks keep their old values and hold each tick's samples in turn after them. |
| `Monitor.PublishExtendsQueue` | profiler/_profiler.py:74-82 | Publishing the next sample on the queue of the earlier ones gives the queue of the longer lists. |
| `Report.Peak` | profiler/_profiler.py:155 | `max` is an element of the series and at least every element. |
| `Report.SumBounds` | profiler/_profiler.py:142 | `sum` of n samples that all lie in [lo, hi] lies in [n · lo, n · hi]. |
| `Report.Mean` | profiler/_profiler.py:142 | `sum(lst)/len(lst)` times the number of samples gives back the sum. |
| `Report.MeanBounds` | profiler/_profiler.py:142 | `sum/len` of samples in [lo, hi] is in [lo, hi]. |
| `Report.MeanWithinRange` | profiler/_profiler.py:142 | The average lies between the smallest and the largest sample. |
| `Report.ConstantSeries` | profiler/_profiler.py:142-155 | A constant series has that value as its average and its maximum. |
| `Report.Plot` | profiler/_profiler.py:141-145 | The plotted series is `[0.0] + values` with as many time stamps as points. Its peak is the maximum and its mean lies between the minimum and the maximum. |
| `Report.ChartOf` | profiler/_profiler.py:141-142 | Only a non-empty list gives a chart. A status, an error or an empty list raises. |
| `Report.EndReport` | profiler/_profiler.py:134-187 | Status 0 with two more items reports both charts (`Plot` of each list), or fails while reporting, having saved the CPU chart iff the CPU item gives one. Any other status with one more item prints that item as the error. Too few items leave a `get` waiting. Each case is stated both ways. |
| `Report.Taken` | profiler/_profiler.py:134-138 | Status 0 is followed by two reads and any other status by one. |
| `Report.ReportIgnoresLaterItems` | profiler/_profiler.py:134-138 | Items behind the first three do not change what the reader does. |
| `Report.Controller.constructor` | profiler/_profiler.py:26-28 | The class-level queue and collector state, as given. |
| `Report.Controller.Get` | profiler/_profiler.py:134 | A `get` takes the oldest item. On an empty queue it waits. |
| `Report.Controller.Terminate` | profiler/_profiler.py:181-182 | After `if is_alive(): terminate()` the collector is not alive. On a stopped one it does nothing. |
| `Report.Controller.EndProfiling` | profiler/_profiler.py:133-191 | Produces `EndReport` of the queue and removes exactly the items it read. On every path that returns, the exception handler's included, the collector ends up terminated. |
| `Protocol.WrittenFrontItems` | profiler/_profiler.py:74-82 | The reader's three items after n cycles as written, by n % 3. |
| `Protocol.ReadAfterWrittenCycles` | profiler/_profiler.py:74-80 | As written, the reader reports cycle (2n + 1)/3's lists when n % 3 == 1. When n % 3 == 2 it prints a status 0 as the error, and when n % 3 == 0 it prints a memory list. |
| `Protocol.WrittenReportCompleteOnlyAfterOneCycle` | profiler/_profiler.py:74-76 | As written, the reader gets the complete lists iff exactly one cycle ran. |
| `Protocol.StaleReportAfterFourCycles` | profiler/_profiler.py:74-76 | After any four cycles the reader reports charts of the first three samples only: CPU samples c1, c2, c3, c4 are plotted as 0, c1, c2, c3 (so 1, 2, 3, 4 as 0, 1, 2, 3), and likewise for memory. |
| `Protocol.ReadAfterLatestCycles` | profiler/_profiler.py:74-76 | With three gets, the reader always reports the complete latest lists and takes the whole queue. |
| `Protocol.CrashVisibility` | profiler/_profiler.py:83-86 | A failure after at least one publish sits behind the publications and does not change the report. A failure before any publish is what the reader prints. |

## Left out

- psutil (`Process`, `children`, `cpu_percent`, `memory_percent`, `pid_exists`, `cpu_count`, `virtual_memory`) is a library outside the model. Its answers are inputs: `HostReadings`, `Reading`, `ChildReading` and the `Tick`s of `Monitor.Run`. The priming `cpu_percent()` calls of lines 60-62 are represented only by the readings being the deltas they start.
- `time.sleep`, `time.time`, the elapsed time and the `np.linspace` time values are clock and float numerics. Only the number of time stamps is kept.
- Floating point: the percentages are Dafny `real`, so rounding, overflow and `np.round` are not modelled. `ParseFloat` is Python's `float` only on the texts line 72 can see: a core count's digits followed by "00" (accepted) and "None00" (raises). Signs, points, exponents and "inf" are not modelled.
- Concurrency: `mp.Queue` as an inter-process object, `mp.Process` spawn and any interleaving of the monitor's and the controller's `get`s are out. The monitor is modelled as the only user of its queue and the reader as a separate sequential step. A `get` on an empty queue is the `Blocked` outcome, where the real call waits for the collector.
- `mp.Queue` pickles in a feeder thread after `put` returns. The model treats each list as snapshotted at `put`.
- `start_profiling` (lines 112-126) is spawn plumbing. `Monitor.Monitor.constructor` takes the fresh empty queue it creates. Calling `end_profiling` before `start_profiling` (class fields still None) is not modelled.
- An exception raised by `psutil.Process()` or `server_profile('cpu')` before the loop (lines 44-46), or by a `put`/`get` of the monitor, is not modelled. Exceptions come from the measurement (lines 56-71) and from the divisor at line 72.
- `server_profile` is modelled for `None` and string options. Other Python types fall into the same error branch in the source.
- Plotting, ticks, labels, `figtext` text (including its calls to `server_profile`), `savefig` and `print` are UI and I/O. A failure inside matplotlib is not an input of the model.
- `setup.py` is packaging metadata with no logic.
- Read as an overwrite of the previous publication, the drain would need three gets. The code takes two from the front, and the model follows the code (see Findings).

## Findings

| source | as written | input that shows it | evidently intended | confidence | as-written member | corrected member |
|---|---|---|---|---|---|---|
| profiler/_profiler.py:74-76 | Before each publish after the first, the monitor takes two items from the front of the FIFO. Those are the oldest items, not the previous publication, so the queue grows by one item per cycle. | Four cycles with CPU samples 1, 2, 3, 4 and no reader in between: `end_profiling` plots 0, 1, 2, 3. After two cycles it prints a status 0 as the collector's error. | The queue holds only the latest (status, cpu, memory) triple, so the reader always gets the full lists. This takes three gets per cycle. | high; not executed | `Protocol.StaleReportAfterFourCycles` | `Protocol.ReadAfterLatestCycles` |

The corrected protocol is the same `Channel.Publish` with `LatestDrain` (3)
in place of `WrittenDrain` (2). `Monitor.Monitor` keeps the source's two gets.
