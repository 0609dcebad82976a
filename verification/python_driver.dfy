/** The background loop of the current GUI driver (`python/main.py`): start and
    stop, one pass of `run_simulation` per engine call, and the convergence part
    of `update_plot`, which stops the run once convergence has been declared. */
module PythonDriver {
  import opened Optional
  import opened Sampler
  import opened Accumulator
  import opened Convergence
  import opened Pipeline

  const MAX_POINTS_TO_PLOT: nat := 1000
  const CONSECUTIVE_NEEDED: nat := 1000
  const DEFAULT_BATCH_SIZE: int := 1000
  const DEFAULT_NUM_THREADS: int := 2

  /** The driver's state. `batchEntry` and `threadEntry` are what `int(...)` makes
      of the two text entries, `None` when it raises `ValueError`. The plotted
      payload of a point is its pair of coordinates. */
  datatype App<C, T> = App(
    running: bool,
    batchEntry: Option<int>,
    threadEntry: Option<int>,
    batchSize: int,
    numThreads: int,
    tally: Tally<Draw<C>>,
    latch: Latch<T>)

  /** The state right after construction: stopped, defaults in both entries. */
  function NewApp<C, T>(): (app: App<C, T>)
    ensures !app.running
    ensures app.batchEntry == Some(DEFAULT_BATCH_SIZE) && app.threadEntry == Some(DEFAULT_NUM_THREADS)
    ensures app.tally.totalPoints == 0 && app.tally.insideCircle == 0
    ensures app.tally.insideBuf == [] && app.tally.outsideBuf == []
    ensures app.latch.consecutiveHits == 0 && !app.latch.converged && app.latch.convergenceTime.None?
  {
    App(false, Some(DEFAULT_BATCH_SIZE), Some(DEFAULT_NUM_THREADS),
        DEFAULT_BATCH_SIZE, DEFAULT_NUM_THREADS, Empty(), Initial())
  }

  /** Stop a running simulation, or start a fresh one: read both entries,
      falling back to the defaults, and reset all statistics. */
  function ToggleSimulation<C, T>(app: App<C, T>): (r: App<C, T>)
    ensures r.running == !app.running
    ensures r.batchEntry == app.batchEntry && r.threadEntry == app.threadEntry
    ensures app.running ==> r.tally == app.tally && r.latch == app.latch
    ensures app.running ==> r.batchSize == app.batchSize && r.numThreads == app.numThreads
    ensures !app.running ==> r.tally.totalPoints == 0 && r.tally.insideCircle == 0
    ensures !app.running ==> r.tally.insideBuf == [] && r.tally.outsideBuf == []
    ensures !app.running ==> r.latch.consecutiveHits == 0 && !r.latch.converged && r.latch.convergenceTime.None?
    ensures !app.running && app.batchEntry.Some? ==> r.batchSize == app.batchEntry.value
    ensures !app.running && app.batchEntry.None? ==> r.batchSize == DEFAULT_BATCH_SIZE
    ensures !app.running && app.threadEntry.Some? ==> r.numThreads == app.threadEntry.value
    ensures !app.running && app.threadEntry.None? ==> r.numThreads == DEFAULT_NUM_THREADS
  {
    if app.running then app.(running := false)
    else
      app.(running := true,
           batchSize := app.batchEntry.GetOr(DEFAULT_BATCH_SIZE),
           numThreads := app.threadEntry.GetOr(DEFAULT_NUM_THREADS),
           tally := Empty(),
           latch := Initial())
  }

  /** The convergence part of `update_plot`: record the observation, and
      toggle the simulation whenever a convergence time is known. */
  function UpdatePlot<C, T>(app: App<C, T>, o: Observation<T>): (r: App<C, T>)
    ensures r.tally == app.tally || !app.running
    ensures r.latch.convergenceTime.Some? && app.running ==> !r.running
  {
    var latch := Observe(app.latch, o, CONSECUTIVE_NEEDED);
    var observed := app.(latch := latch);
    if latch.convergenceTime.None? then observed else ToggleSimulation(observed)
  }

  /** One pass of the `run_simulation` loop: call the engine on the driver's
      batch size (with `draws` as its random draws) and, if the call returns,
      account for every returned point and update the convergence state. A
      negative batch size makes the call raise, which ends the loop before any
      accounting; a batch size of 0 is undefined behaviour in the engine and
      is treated alike, so in both cases the state is left as it was. */
  function Iterate<C, T>(app: App<C, T>, draws: seq<Draw<C>>, classify: (C, C) -> bool, o: Observation<T>): (r: App<C, T>)
    requires app.batchSize <= |draws|
    ensures !app.running || app.batchSize < 1 ==> r == app
    ensures app.running && app.batchSize >= 1 ==>
      r.tally.totalPoints == app.tally.totalPoints + app.batchSize
    ensures app.running && app.batchSize >= 1 ==>
      r.tally.insideCircle == app.tally.insideCircle + CountClassifiedInside(draws[..app.batchSize], classify)
    ensures app.running && app.batchSize >= 1 ==>
      r.tally == AddBatch(app.tally, Unpack(StepOutcome(app.batchSize, draws, classify).points), MAX_POINTS_TO_PLOT)
  {
    if !app.running then app
    else match StepOutcome(app.batchSize, draws, classify)
      case Points(slots) =>
        EngineBatchCounted(app.tally, app.batchSize, draws, classify, slots, MAX_POINTS_TO_PLOT);
        UpdatePlot(app.(tally := AddBatch(app.tally, Unpack(slots), MAX_POINTS_TO_PLOT)), o)
      case _ => app
  }

  /** What holds between steps: the counters are ordered and the buffers
      within their cap, the flag and the time agree, and a running simulation
      has not converged. */
  ghost predicate Valid<C, T>(app: App<C, T>)
  {
    && WithinCap(app.tally, MAX_POINTS_TO_PLOT)
    && Coherent(app.latch)
    && (app.running ==> !app.latch.converged)
  }

  lemma NewAppValid<C, T>()
    ensures Valid(NewApp<C, T>())
  {
  }

  lemma ToggleValid<C, T>(app: App<C, T>)
    requires Valid(app)
    ensures Valid(ToggleSimulation(app))
  {
  }

  /** A pass keeps the state valid, and a running simulation is stopped by it
      exactly when convergence is declared during it. */
  lemma IterateValid<C, T>(app: App<C, T>, draws: seq<Draw<C>>, classify: (C, C) -> bool, o: Observation<T>)
    requires app.batchSize <= |draws|
    requires Valid(app)
    ensures Valid(Iterate(app, draws, classify, o))
    ensures app.running ==>
      (Iterate(app, draws, classify, o).running <==> !Iterate(app, draws, classify, o).latch.converged)
  {
  }

  /** Within a run, a pass that reaches the accounting extends the point
      history by the unpacked engine result and the update history by one
      observation (see `Consistent` and `Tracks`). */
  lemma IterateExtendsHistory<C, T>(app: App<C, T>, h: seq<Point<Draw<C>>>, oh: seq<Observation<T>>,
                                    draws: seq<Draw<C>>, classify: (C, C) -> bool, o: Observation<T>)
    requires app.running && 1 <= app.batchSize <= |draws|
    requires Consistent(app.tally, h, MAX_POINTS_TO_PLOT)
    requires Tracks(app.latch, oh, CONSECUTIVE_NEEDED)
    ensures Consistent(Iterate(app, draws, classify, o).tally,
                       h + Unpack(StepOutcome(app.batchSize, draws, classify).points), MAX_POINTS_TO_PLOT)
    ensures Tracks(Iterate(app, draws, classify, o).latch, oh + [o], CONSECUTIVE_NEEDED)
  {
    var batch := Unpack(StepOutcome(app.batchSize, draws, classify).points);
    PassExtendsHistory(app.tally, app.latch, h, oh, batch, o, MAX_POINTS_TO_PLOT, CONSECUTIVE_NEEDED);
  }
}
