/** How `monte_carlo_step_std` splits one batch of `num_points` samples among
    its worker threads: the thread-count clamp, the chunk/remainder shares and
    the contiguous half-open range `[start, end)` each worker fills. */
module Partition {

  /** A worker's half-open range of slot indices. */
  datatype Range = Range(start: int, end: int) {
    predicate Contains(i: int) { start <= i < end }
    function Length(): int { end - start }
  }

  function Max(a: int, b: int): int { if a < b then b else a }
  function Min(a: int, b: int): int { if a < b then a else b }

  /** The number of workers actually started: raised to at least 1, then capped
      at the number of points. */
  function EffectiveThreads(numPoints: int, numThreads: int): (t: int)
    ensures t <= numPoints && t <= Max(numThreads, 1)
    ensures t == numPoints || t == Max(numThreads, 1)
    ensures numPoints >= 1 ==> 1 <= t
    ensures 1 <= numThreads <= numPoints ==> t == numThreads
  {
    var atLeastOne := if numThreads < 1 then 1 else numThreads;
    if atLeastOne > numPoints then numPoints else atLeastOne
  }

  /** Points handed to worker `t`: the common chunk plus one for each of the
      first `numPoints % workers` workers. */
  function Share(numPoints: nat, workers: nat, t: nat): nat
    requires 1 <= workers
  {
    numPoints / workers + (if t < numPoints % workers then 1 else 0)
  }

  /** Where worker `t` starts, in closed form: `t` chunks plus one extra point
      for each earlier worker that received one. */
  function Start(numPoints: nat, workers: nat, t: nat): nat
    requires 1 <= workers
  {
    t * (numPoints / workers) + Min(t, numPoints % workers)
  }

  /** The range worker `t` fills. */
  function WorkerRange(numPoints: nat, workers: nat, t: nat): Range
    requires 1 <= workers
  {
    Range(Start(numPoints, workers, t), Start(numPoints, workers, t + 1))
  }

  /** Sum of the first `k` shares. */
  function SumShares(numPoints: nat, workers: nat, k: nat): nat
    requires 1 <= workers
  {
    if k == 0 then 0 else SumShares(numPoints, workers, k - 1) + Share(numPoints, workers, k - 1)
  }

  /** Each start is the previous start advanced by the previous share. */
  lemma StartStep(numPoints: nat, workers: nat, t: nat)
    requires 1 <= workers
    ensures Start(numPoints, workers, t + 1) == Start(numPoints, workers, t) + Share(numPoints, workers, t)
  {
    var c := numPoints / workers;
    assert (t + 1) * c == t * c + c;
  }

  /** The first worker starts at 0 and the range after the last worker starts
      at `numPoints`. */
  lemma StartBounds(numPoints: nat, workers: nat)
    requires 1 <= workers
    ensures Start(numPoints, workers, 0) == 0
    ensures Start(numPoints, workers, workers) == numPoints
  {
  }

  /** The shares of all workers add up to exactly the batch size. */
  lemma {:induction false} SharesSum(numPoints: nat, workers: nat)
    requires 1 <= workers
    ensures SumShares(numPoints, workers, workers) == numPoints
  {
    SumIsStart(numPoints, workers, workers);
    StartBounds(numPoints, workers);
  }

  lemma {:induction false} SumIsStart(numPoints: nat, workers: nat, k: nat)
    requires 1 <= workers
    ensures SumShares(numPoints, workers, k) == Start(numPoints, workers, k)
  {
    if k > 0 {
      SumIsStart(numPoints, workers, k - 1);
      StartStep(numPoints, workers, k - 1);
    }
  }

  /** Shares never grow with the worker index and differ by at most one. */
  lemma SharesBalanced(numPoints: nat, workers: nat, i: nat, j: nat)
    requires 1 <= workers && i <= j < workers
    ensures Share(numPoints, workers, j) <= Share(numPoints, workers, i) <= Share(numPoints, workers, j) + 1
  {
  }

  /** With no more workers than points, every worker gets at least one point. */
  lemma SharesPositive(numPoints: nat, workers: nat, t: nat)
    requires 1 <= workers <= numPoints
    ensures Share(numPoints, workers, t) >= 1
  {
    assert numPoints / workers >= 1 by {
      assert numPoints == workers * (numPoints / workers) + numPoints % workers;
    }
  }

  /** Starts never decrease: a later worker never starts before an earlier one. */
  lemma {:induction false} StartMonotone(numPoints: nat, workers: nat, i: nat, j: nat)
    requires 1 <= workers && i <= j
    ensures Start(numPoints, workers, i) <= Start(numPoints, workers, j)
    decreases j - i
  {
    if i < j {
      StartStep(numPoints, workers, i);
      StartMonotone(numPoints, workers, i + 1, j);
    }
  }

  /** `ranges` lays `[0, n)` out contiguously: the first starts at 0, each
      starts where the previous ended, none is reversed and the last ends at `n`. */
  ghost predicate Tiles(ranges: seq<Range>, n: int)
  {
    && |ranges| > 0
    && ranges[0].start == 0
    && ranges[|ranges| - 1].end == n
    && (forall k :: 0 <= k < |ranges| ==> ranges[k].start <= ranges[k].end)
    && (forall k :: 0 <= k < |ranges| - 1 ==> ranges[k].end == ranges[k + 1].start)
  }

  /** The range loop of the engine: each worker gets `chunk + (t < remainder ? 1 : 0)`
      points starting where the previous one ended. */
  method PlanRanges(numPoints: nat, workers: nat) returns (ranges: seq<Range>)
    requires 1 <= workers
    ensures |ranges| == workers
    ensures forall t :: 0 <= t < workers ==> ranges[t] == WorkerRange(numPoints, workers, t)
    ensures forall t :: 0 <= t < workers ==> ranges[t].Length() == Share(numPoints, workers, t)
    ensures forall t :: 0 <= t < workers ==> 0 <= ranges[t].start <= ranges[t].end <= numPoints
    ensures Tiles(ranges, numPoints)
  {
    var chunkSize := numPoints / workers;
    var remainder := numPoints % workers;
    ranges := [];
    var start := 0;
    var t := 0;
    while t < workers
      invariant 0 <= t <= workers
      invariant |ranges| == t
      invariant start == Start(numPoints, workers, t)
      invariant forall k :: 0 <= k < t ==> ranges[k] == WorkerRange(numPoints, workers, k)
    {
      var thisChunk := chunkSize + (if t < remainder then 1 else 0);
      var end := start + thisChunk;
      StartStep(numPoints, workers, t);
      ranges := ranges + [Range(start, end)];
      start := end;
      t := t + 1;
    }
    StartBounds(numPoints, workers);
    forall t | 0 <= t < workers
      ensures ranges[t].Length() == Share(numPoints, workers, t)
      ensures 0 <= ranges[t].start <= ranges[t].end <= numPoints
    {
      StartStep(numPoints, workers, t);
      StartMonotone(numPoints, workers, t + 1, workers);
    }
  }

  /** Ranges of a tiling start in non-decreasing order. */
  lemma {:induction false} TilingOrdered(ranges: seq<Range>, n: int, i: int, j: int)
    requires Tiles(ranges, n)
    requires 0 <= i < j < |ranges|
    ensures ranges[i].end <= ranges[j].start
    decreases j - i
  {
    if i + 1 < j {
      TilingOrdered(ranges, n, i + 1, j);
    }
  }

  /** Every range of a tiling lies within `[0, n)`. */
  lemma TilingBounded(ranges: seq<Range>, n: int, k: int)
    requires Tiles(ranges, n)
    requires 0 <= k < |ranges|
    ensures 0 <= ranges[k].start <= ranges[k].end <= n
  {
    if 0 < k {
      TilingOrdered(ranges, n, 0, k);
    }
    if k < |ranges| - 1 {
      TilingOrdered(ranges, n, k, |ranges| - 1);
    }
  }

  /** Every index of `[0, n)` lies in exactly one range of a tiling. */
  lemma {:induction false} TilingOwnsOnce(ranges: seq<Range>, n: int, i: int)
    requires Tiles(ranges, n)
    requires 0 <= i < n
    ensures exists k :: 0 <= k < |ranges| && ranges[k].Contains(i)
    ensures forall k1, k2 :: 0 <= k1 < |ranges| && 0 <= k2 < |ranges| && ranges[k1].Contains(i) && ranges[k2].Contains(i) ==> k1 == k2
  {
    var k := OwnerOf(ranges, n, i);
    forall k1, k2 | 0 <= k1 < |ranges| && 0 <= k2 < |ranges| && ranges[k1].Contains(i) && ranges[k2].Contains(i)
      ensures k1 == k2
    {
      if k1 < k2 {
        TilingOrdered(ranges, n, k1, k2);
      } else if k2 < k1 {
        TilingOrdered(ranges, n, k2, k1);
      }
    }
  }

  /** The worker whose range holds `i`, found by scanning the tiling. */
  function OwnerOf(ranges: seq<Range>, n: int, i: int): (k: nat)
    requires Tiles(ranges, n)
    requires 0 <= i < n
    ensures k < |ranges| && ranges[k].Contains(i)
  {
    OwnerFrom(ranges, n, i, 0)
  }

  function OwnerFrom(ranges: seq<Range>, n: int, i: int, k: nat): (o: nat)
    requires Tiles(ranges, n)
    requires 0 <= i < n
    requires k < |ranges| && ranges[k].start <= i
    ensures k <= o < |ranges| && ranges[o].Contains(i)
    decreases |ranges| - k
  {
    if i < ranges[k].end || k == |ranges| - 1 then k
    else OwnerFrom(ranges, n, i, k + 1)
  }

  /** The batch from the engine's own test: 3798 points over 99 threads gives
      99 workers, the first 36 taking 39 points and the rest 38. */
  lemma TestBatchShape()
    ensures EffectiveThreads(3798, 99) == 99
    ensures Share(3798, 99, 0) == 39 && Share(3798, 99, 35) == 39
    ensures Share(3798, 99, 36) == 38 && Share(3798, 99, 98) == 38
    ensures Start(3798, 99, 99) == 3798
  {
  }
}
