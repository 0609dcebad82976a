# Monte Carlo π: verified model of the batch sampler and its caller

This project models, in Dafny, the parts of the Monte Carlo π estimator that
carry logic:

- the C++ sampling engine `monte_carlo_step_std`: the clamp of the worker
  count, the split of a batch into `chunk_size` shares plus one extra point for
  each of the first `remainder` workers, the contiguous half-open range each
  worker fills, and the pre-sized result vector each worker writes with the
  classification of its draws;
- `get_available_threads`, the hardware-concurrency query with its fallback to 1;
- the caller-side accumulator shared by both GUI drivers: the counters
  `total_points` and `inside_circle`, the two bounded display buffers
  (append, then `pop(0)` once past `MAX_POINTS_TO_PLOT`), the consecutive-hit
  counter and the latching `converged` flag;
- the start/stop toggle of both drivers (reset of all statistics, fallback to
  batch 1000 and 2 threads when an entry does not parse), and, for
  `python/main.py`, the stop once convergence has been declared.

Modules:

| module | file | models |
|---|---|---|
| `Partition` | partition.dfy | worker clamp, shares, starts, range loop, tiling of `[0, num_points)` |
| `Sampler` | sampler.dfy | the engine call, the worker body, the writes and their order independence |
| `Capacity` | capacity.dfy | `get_available_threads` |
| `Fifo` | fifo.dfy | the bounded display buffer |
| `Accumulator` | accumulator.dfy | counters and buffers, against the history of points |
| `Convergence` | convergence.dfy | hit counter and latch, against the history of updates |
| `PythonDriver` | python_driver.dfy | `python/main.py`: cap 1000, 1000 hits needed, stops on convergence |
| `LegacyDriver` | legacy_driver.dfy | `main.py`: cap 10000, 5 hits needed, time score, no stop |
| `Pipeline` | pipeline.dfy | a driver consuming one engine result |
| `Optional` | optional.dfy | `None`/value, used for unparsable entries and unset times |

Modelling choices:

- The random draws are an input: `draws[i]` is the `(x, y)` pair drawn for
  slot `i`. The inside/outside test `x*x + y*y <= 1.0` is a parameter
  `classify`. The model therefore proves that slot `i` holds
  `(x, y, classify(x, y))` of its own draw, without floats.
- The worker threads are modelled as a loop over workers in index order. Each
  call also returns the list of writes the workers made. `Sampler.ApplyOrderIndependent`
  shows that any reordering of distinct-slot writes fills the same vector, and
  `Sampler.TraceAnyOrder` applies it to the writes of an engine call. This is
  why running the workers concurrently and joining them gives the same result.
- A slot the vector was created with and no worker has written is `Unwritten`.
  In the C++ code this is a value-initialised `(0.0, 0.0, false)` tuple.
- The modelled engine is total over its integer arguments (every allocation
  and every thread start is assumed to succeed) and follows the code, not
  the intended contract of rejecting bad input:
  - a thread count below 1 is raised to 1;
  - `num_points == 0` clamps the worker count to 0 and then divides by it.
    This is the `DivisionByZero` outcome; in C++ it is undefined behaviour;
  - a negative `num_points` reaches the `std::vector` size constructor first.
    This is the `LengthError` outcome.
- Every intermediate value of the partition lies in `[0, num_points]`, so no
  32-bit overflow can occur. Integers are therefore unbounded. The one narrowing
  that can wrap is the `unsigned` to `int` cast in `get_available_threads`, and
  `Capacity.NarrowToInt` writes it out.
- Each pass of a driver's background loop calls the engine on the driver's
  `batch_size` and `num_threads`. The result does not depend on the thread
  count (`Sampler.MonteCarloStep` returns `Sampler.StepOutcome`), so a pass
  reads only `batch_size`. A negative batch size makes the engine raise
  `std::length_error` at the vector constructor, which ends the background
  thread before any accounting. A batch size of 0 raises nothing: the engine
  divides by a worker count of 0, which is undefined behaviour. Both cases
  are modelled alike: the pass leaves the state unchanged, and `running`
  stays true.
- The text of the batch and thread entries is abstracted to what `int(...)`
  makes of it: a number, or `None` for a `ValueError`.
- Each update of the error test is abstracted to an observation: a boolean
  "hit" (the absolute error was below the threshold) and the elapsed time.
- In `python/main.py`, `update_plot` calls `toggle_simulation` whenever a
  convergence time is set, whatever the value of `running`. `PythonDriver.UpdatePlot`
  keeps that. `PythonDriver.IterateValid` shows that, reached through the
  background loop, the call only ever stops a running simulation.

## Model

| member | source | states |
|---|---|---|
| `Partition.EffectiveThreads` | src/monte_carlo.cpp:26-33 | the worker count is `min(max(num_threads, 1), num_points)`; it lies in `[1, num_points]` when there is at least one point, and a thread count already in that range is kept |
| `Partition.StartStep` | src/monte_carlo.cpp:58-64 | each worker starts where the previous one ended: the next start is the start plus the worker's share |
| `Partition.StartBounds` | src/monte_carlo.cpp:58-65 | the first worker starts at 0, and the start after the last worker is `num_points` |
| `Partition.SharesSum` | src/monte_carlo.cpp:55-65 | the shares `chunk_size + (t < remainder ? 1 : 0)` of all workers add up to exactly `num_points` |
| `Partition.SharesBalanced` | src/monte_carlo.cpp:55-61 | two shares differ by at most one, and a lower worker index never gets the smaller share |
| `Partition.SharesPositive` | src/monte_carlo.cpp:55-61 | with no more workers than points, every share is at least one, so no worker is idle |
| `Partition.SumIsStart` | src/monte_carlo.cpp:58-64 | the shares of the first `k` workers add up to the start of worker `k` |
| `Partition.StartMonotone` | src/monte_carlo.cpp:58-65 | a later worker never starts before an earlier one |
| `Partition.PlanRanges` | src/monte_carlo.cpp:51-65 | the range loop yields one range per worker; range `t` has length equal to share `t`, lies within `[0, num_points)`, and together the ranges tile `[0, num_points)` |
| `Partition.TilingOrdered` | src/monte_carlo.cpp:58-65 | in a tiling, an earlier range ends no later than a later range starts |
| `Partition.TilingBounded` | src/monte_carlo.cpp:58-65 | every range of a tiling lies within `[0, num_points]` |
| `Partition.TilingOwnsOnce` | src/monte_carlo.cpp:58-65 | every index of `[0, num_points)` lies in one range of the tiling and in no other |
| `Partition.OwnerOf` | src/monte_carlo.cpp:58-65 | finds the worker whose range holds a given index |
| `Partition.OwnerFrom` | src/monte_carlo.cpp:58-65 | scanning the tiling from a range that starts at or before an index finds a range holding the index |
| `Partition.TestBatchShape` | tests/test_monte_carlo.py:7-13 | for 3798 points and 99 threads: 99 workers, the first 36 take 39 points, the rest 38, and the ranges end at 3798 |
| `Sampler.Classified` | src/monte_carlo.cpp:44-47 | a classified draw is a written slot |
| `Sampler.Apply` | src/monte_carlo.cpp:24 | writing slots never changes the size of the pre-sized vector |
| `Sampler.ApplyDistinct` | src/monte_carlo.cpp:22-24 | when writes target distinct slots, each written slot holds its write's value and every other slot keeps its initial value |
| `Sampler.ApplyOrderIndependent` | src/monte_carlo.cpp:52-70 | performing the same distinct-slot writes in any order fills the same vector, so interleaving the workers does not change the result |
| `Sampler.TraceDistinct` | src/monte_carlo.cpp:43-47 | writes whose `k`-th entry targets slot `k` target distinct slots |
| `Sampler.PermutationKeepsDistinct` | src/monte_carlo.cpp:52-70 | any reordering of writes to distinct slots still targets distinct slots |
| `Sampler.TraceAnyOrder` | src/monte_carlo.cpp:52-70 | any reordering of the writes the workers make (the `k`-th of which targets slot `k`) fills the same vector as the sequential order |
| `Sampler.RunWorker` | src/monte_carlo.cpp:36-49 | the worker writes exactly the slots of its range, in order, each with the classification of its own draw; it leaves every other slot unchanged |
| `Sampler.RunWorkers` | src/monte_carlo.cpp:52-70 | after all workers are done, the vector has `num_points` entries and slot `i` holds the classified draw `i`; the `k`-th write targets slot `k` and is made by the worker whose range holds `k` |
| `Sampler.MonteCarloStep` | src/monte_carlo.cpp:15-73 | a negative batch fails at the vector constructor and an empty batch divides by zero; otherwise the result has exactly `num_points` entries, slot `i` holds `(x, y, classify(x, y))` of draw `i`, and every slot is written exactly once, by the worker that owns it; the outcome is `Sampler.StepOutcome`, whatever the thread count |
| `Capacity.NarrowToInt` | src/monte_carlo.cpp:80 | the `unsigned` to `int` cast keeps values up to `INT_MAX` and wraps larger ones by 2^32 |
| `Capacity.AvailableThreads` | src/monte_carlo.cpp:75-81 | returns 1 when the hardware count is 0 and the count itself otherwise; the result is at least 1 exactly when the count fits an `int` |
| `Fifo.LastN` | python/main.py:224-226 | the latest `n` items of a history, oldest first |
| `Fifo.Push` | python/main.py:224-226 | append then one `pop(0)` over the cap: a buffer within its cap stays within it and holds the latest `cap` items of itself plus the new one; a full buffer keeps its length |
| `Fifo.PushKeepsLatest` | python/main.py:224-232 | a buffer holding the latest `cap` items of a history holds the latest `cap` items of the history extended by the pushed item |
| `Accumulator.CountInside` | python/main.py:222-227 | a history never has more inside points than points |
| `Accumulator.AddPoint` | python/main.py:221-233 | one point raises `total_points` by one and `inside_circle` by one exactly when it is inside; it touches only the buffer of its own kind |
| `Accumulator.AddBatch` | python/main.py:221-233 | a batch raises `total_points` by its length and `inside_circle` by its number of inside points, keeps `inside_circle <= total_points`, and keeps both buffers within the cap |
| `Accumulator.EmptyConsistent` | python/main.py:186-190 | the reset state is the state of the empty history |
| `Accumulator.AddPointConsistent` | python/main.py:222-233 | after one more point, the counters and buffers match the history extended by it |
| `Accumulator.AddBatchConsistent` | python/main.py:221-233 | after a batch, the counters count the whole history and each buffer holds the latest `cap` payloads of its kind, in arrival order |
| `Convergence.Observe` | python/main.py:293-324 | a hit increments the consecutive count and a miss resets it to 0; the flag latches once the count reaches the requirement, is never cleared, and the convergence time is set only when it latches, so the flag is set exactly when a time is known |
| `Convergence.TrailingHits` | python/main.py:294-297 | the trailing run of hits is no longer than the history |
| `Convergence.FirstReach` | python/main.py:322-324 | the first update that reached the requirement is part of the history |
| `Convergence.InitialTracks` | python/main.py:192-196 | the reset convergence state is the state of the empty history |
| `Convergence.ObserveTracks` | python/main.py:293-324 | after each update the counter is the trailing run of hits, the flag says whether the run ever reached the requirement, and the time is that of the first update that reached it |
| `Convergence.TrailingHitsIsRun` | python/main.py:294-297 | the trailing-hit count is the length of the trailing run: those updates are hits and the one before them is a miss |
| `Convergence.FirstReachStable` | python/main.py:321-324 | once reached, the first convergence point never moves, whatever updates follow |
| `PythonDriver.NewApp` | python/main.py:35-59 | a new driver is stopped, shows 1000 and 2 in its entries, and has zero counters, empty buffers, no hits and no convergence |
| `PythonDriver.ToggleSimulation` | python/main.py:157-197 | stopping keeps the statistics; starting reads both entries with fallbacks 1000 and 2, zeroes the counters and the hit count, empties both buffers and clears the convergence flag and time |
| `PythonDriver.UpdatePlot` | python/main.py:293-354 | once a convergence time is set, a running simulation is stopped |
| `PythonDriver.Iterate` | python/main.py:207-239 | a pass does nothing once stopped; otherwise it calls the engine on `batch_size`: a negative size makes the call raise and a size of 0 is undefined behaviour in the engine, and either way the pass ends with nothing accounted; otherwise the whole returned batch is accounted, raising `total_points` by `batch_size` and `inside_circle` by the draws classified inside |
| `PythonDriver.NewAppValid` | python/main.py:35-59 | a new driver satisfies the between-steps invariant |
| `PythonDriver.ToggleValid` | python/main.py:157-197 | starting and stopping keep the invariant |
| `PythonDriver.IterateValid` | python/main.py:348-354 | a pass keeps counters ordered, buffers within 1000 and flag and time in agreement; a running simulation is stopped by a pass exactly when convergence is declared in it |
| `PythonDriver.IterateExtendsHistory` | python/main.py:212-239 | within a run with a positive batch size, a pass extends the point history by the unpacked engine result and the update history by one observation |
| `LegacyDriver.NewApp` | main.py:24-55 | a new driver is stopped, shows 1000 and 2 in its entries, and has zero counters, empty buffers, no hits, no convergence and no time score |
| `LegacyDriver.ToggleSimulation` | main.py:123-167 | stopping changes nothing else; starting reads both entries with fallbacks 1000 and 2 and resets counters, buffers, convergence state and time score |
| `LegacyDriver.UpdatePlot` | main.py:227-238 | the time score is set on the update that first declares convergence and never changed afterwards |
| `LegacyDriver.Iterate` | main.py:169-189 | a pass does nothing once stopped; otherwise it calls the engine on `batch_size`: a negative size makes the call raise and a size of 0 is undefined behaviour in the engine, and either way the pass ends with nothing accounted; otherwise the whole returned batch is accounted, raising `total_points` by `batch_size` and `inside_circle` by the draws classified inside, and the run keeps going, converged or not |
| `LegacyDriver.NewAppValid` | main.py:24-55 | a new driver satisfies the between-steps invariant |
| `LegacyDriver.ToggleValid` | main.py:123-167 | starting and stopping keep the invariant |
| `LegacyDriver.IterateValid` | main.py:176-238 | a pass keeps counters ordered, buffers within 10000, and the flag, convergence time and time score in agreement |
| `LegacyDriver.IterateExtendsHistory` | main.py:171-189 | within a run with a positive batch size, a pass extends the point history by the unpacked engine result and the update history by one observation |
| `Pipeline.CountClassifiedInside` | src/monte_carlo.cpp:44-47 | no more draws are classified inside than there are draws |
| `Pipeline.UnpackCountsClassified` | src/monte_carlo.cpp:44-47 | the unpacked engine result has exactly as many inside points as the classification accepts among the draws |
| `Pipeline.PassExtendsHistory` | python/main.py:212-239 | for any cap and requirement, accounting for a batch and recording one update extend the histories that the counters, buffers and convergence state describe |
| `Pipeline.EngineBatchCounted` | python/main.py:215-233 | accounting for one engine result of `num_points` points raises `total_points` by `num_points` and `inside_circle` by the number of draws classified inside |

## Left out

- Threads: creation and join are replaced by a sequential loop over workers;
  order independence of the writes is proved instead of modelling interleavings.
- Random generation: `std::random_device`, `mt19937` and the uniform
  distribution on `[-1, 1]` are replaced by the `draws` input; the coordinate
  range and the floating-point rounding of `x*x + y*y` are not modelled.
- Sampler.MonteCarloStep: an empty batch is modelled as a `DivisionByZero`
  outcome, while in C++ the integer division by zero is undefined behaviour.
- Sampler.MonteCarloStep: allocation and thread-start failures are not
  outcomes of the model; every allocation and every thread start is assumed
  to succeed, because they depend on the memory and thread limits of the
  machine. In C++ the result vector and `threads.reserve` can throw
  `std::bad_alloc` for a batch too large to allocate (a `MemoryError` in
  Python), and `threads.emplace_back` can throw `std::system_error` when the
  operating system refuses a thread (for instance a batch and a thread count
  of 1000000 each). If the first thread fails to start, Python sees a
  `RuntimeError`; if a later one fails, unwinding destroys joinable
  `std::thread` objects and `std::terminate` ends the whole process. The
  model instead returns the full batch for every size of at least 1.
- The debug memo `g_known_num_threads`/`g_known_num_points` and the printed
  log lines: output side effects only.
- The pybind11 module definition and its conversion of Python integers to a
  32-bit `int`; arguments outside that range are rejected there and never reach
  the engine.
- `monte_carlo.set_threads`, called at the start of `run_simulation` in
  `python/main.py`: the engine module has no such function.
- The π estimate, the absolute error and its thresholds (1e-3 and 1e-4), the
  elapsed and convergence times, memory readings, points per second, the
  aggregated score and the colours: floating point, clock or operating system.
  The error test is an input boolean and times are opaque values.
- Widgets, plotting, the plot-duration warning, the `simulate` parameter sweep
  with its `during_simulation` flag and report, `on_main_button_pressed`, and
  the `OMP_NUM_THREADS` environment write in `main.py`: user interface or
  environment.
- The background thread started on each start: a pass of `run_simulation` is
  modelled as `Iterate`, and nothing models a user stop arriving during a pass.
- The end of the background thread when the engine call raises on a negative
  batch size: the failed pass is modelled as one that changes nothing, and
  later passes are not prevented; nothing in the model records that the loop
  has died while `running` is still true.
- PythonDriver.Iterate: a batch size of 0 is undefined behaviour in the engine
  (an integer division by zero, which may kill the whole process or return an
  empty result depending on the platform); the model treats it like the
  raising negative case, leaving the state unchanged with `running` still true.
- PythonDriver.Iterate: an engine call that fails for lack of memory or
  threads is not modelled (see `Sampler.MonteCarloStep`): every pass with a
  batch size of at least 1 accounts the full batch, whereas in the source
  such a call raises `MemoryError` or `RuntimeError`, which ends the
  background thread, or calls `std::terminate`, which ends the process.
- LegacyDriver.Iterate: the same treatment of a batch size of 0 as in
  `PythonDriver.Iterate`, for the same reason.
- LegacyDriver.Iterate: engine failures for lack of memory or threads are
  not modelled, as for `PythonDriver.Iterate`.
- The parsing of entry text by `int(...)`: its outcome is an input.
- `python/utils.py` `format_number` (float formatting) and `src/setup.py`
  (build configuration).
