/** The sampling engine `monte_carlo_step_std`: a pre-sized result vector, the
    worker ranges from `Partition`, and each worker classifying the draws of the
    slots it owns. Worker threads are modelled as a loop over workers in index
    order; `Apply` and its lemmas show the result does not depend on that order. */
module Sampler {
  import opened Partition

  /** The two coordinates a worker draws for one slot, `x` first. */
  datatype Draw<C> = Draw(x: C, y: C)

  /** One entry of the result vector. `Unwritten` is the value the vector is
      created with, before any worker has written the slot. */
  datatype Slot<C> = Unwritten | Sample(x: C, y: C, inside: bool)

  /** One assignment `points[index] = value` performed by `worker`. */
  datatype Write<C> = Write(worker: nat, index: nat, value: Slot<C>)

  /** The outcome of one call: the filled vector, or how the call fails. */
  datatype StepResult<C> =
    | Points(points: seq<Slot<C>>)
    | LengthError     // negative size given to the vector constructor
    | DivisionByZero  // zero points: the worker count is clamped to 0 and divides

  /** The slot a draw becomes: the draw and the classification of it. */
  function Classified<C>(d: Draw<C>, classify: (C, C) -> bool): (s: Slot<C>)
    ensures s.Sample?
  {
    Sample(d.x, d.y, classify(d.x, d.y))
  }

  /** What a call returns, in closed form: it fails below one point, and
      otherwise slot `i` holds the classified draw `i`. The thread count does
      not appear: `MonteCarloStep` returns this for every thread count. */
  function StepOutcome<C>(numPoints: int, draws: seq<Draw<C>>, classify: (C, C) -> bool): (r: StepResult<C>)
    requires numPoints <= |draws|
    ensures r.Points? ==> |r.points| == numPoints
    ensures r.Points? ==> forall i :: 0 <= i < numPoints ==> r.points[i].Sample? && r.points[i] == Classified(draws[i], classify)
  {
    if numPoints < 0 then LengthError
    else if numPoints == 0 then DivisionByZero
    else Points(seq(numPoints, i requires 0 <= i < numPoints => Classified(draws[i], classify)))
  }

  /** The vector obtained by performing the writes in order on `v`. */
  function Apply<C>(v: seq<Slot<C>>, ws: seq<Write<C>>): (r: seq<Slot<C>>)
    ensures |r| == |v|
  {
    if |ws| == 0 then v
    else
      var r := Apply(v, ws[..|ws| - 1]);
      var w := ws[|ws| - 1];
      if w.index < |r| then r[w.index := w.value] else r
  }

  /** No two writes target the same slot. */
  ghost predicate DistinctIndices<C>(ws: seq<Write<C>>)
  {
    forall a, b :: 0 <= a < b < |ws| ==> ws[a].index != ws[b].index
  }

  /** With distinct targets, each written slot holds its write's value and every
      other slot keeps its initial value. */
  lemma {:induction false} ApplyDistinct<C>(v: seq<Slot<C>>, ws: seq<Write<C>>)
    requires DistinctIndices(ws)
    ensures forall k :: 0 <= k < |ws| && ws[k].index < |v| ==> Apply(v, ws)[ws[k].index] == ws[k].value
    ensures forall i :: 0 <= i < |v| && (forall k :: 0 <= k < |ws| ==> ws[k].index != i) ==> Apply(v, ws)[i] == v[i]
  {
    if |ws| > 0 {
      var init := ws[..|ws| - 1];
      assert DistinctIndices(init);
      ApplyDistinct(v, init);
      forall k | 0 <= k < |ws| - 1 ensures ws[k] == init[k] { }
    }
  }

  /** A sequence of distinct-target writes holds each of its writes once. */
  lemma {:induction false} DistinctOccursOnce<C>(ws: seq<Write<C>>, w: Write<C>)
    requires DistinctIndices(ws)
    ensures multiset(ws)[w] <= 1
  {
    if |ws| > 0 {
      var init := ws[..|ws| - 1];
      var last := ws[|ws| - 1];
      assert ws == init + [last];
      assert DistinctIndices(init);
      DistinctOccursOnce(init, w);
      if w == last {
        forall k | 0 <= k < |init| ensures init[k] != w {
          assert init[k] == ws[k];
        }
        assert w !in multiset(init);
      }
    }
  }

  /** A write that sits at two positions occurs at least twice. */
  lemma OccursTwice<C>(ws: seq<Write<C>>, a: nat, b: nat)
    requires a < b < |ws| && ws[a] == ws[b]
    ensures multiset(ws)[ws[a]] >= 2
  {
    assert ws == ws[..b] + ws[b..];
    assert ws[..b][a] == ws[a];
    assert ws[b..][0] == ws[b];
    assert multiset(ws) == multiset(ws[..b]) + multiset(ws[b..]);
  }

  /** Reordering distinct-target writes keeps their targets distinct. */
  lemma PermutationKeepsDistinct<C>(ws: seq<Write<C>>, ws': seq<Write<C>>)
    requires DistinctIndices(ws)
    requires multiset(ws) == multiset(ws')
    ensures DistinctIndices(ws')
  {
    forall a, b | 0 <= a < b < |ws'| ensures ws'[a].index != ws'[b].index {
      if ws'[a].index == ws'[b].index {
        assert ws'[a] in multiset(ws);
        assert ws'[b] in multiset(ws);
        var x :| 0 <= x < |ws| && ws[x] == ws'[a];
        var y :| 0 <= y < |ws| && ws[y] == ws'[b];
        assert x == y;
        OccursTwice(ws', a, b);
        DistinctOccursOnce(ws, ws'[a]);
        assert false;
      }
    }
  }

  /** Performing the same distinct-target writes in any order gives the same
      vector: the concurrent workers may interleave arbitrarily. */
  lemma ApplyOrderIndependent<C>(v: seq<Slot<C>>, ws: seq<Write<C>>, ws': seq<Write<C>>)
    requires DistinctIndices(ws)
    requires multiset(ws) == multiset(ws')
    ensures Apply(v, ws) == Apply(v, ws')
  {
    PermutationKeepsDistinct(ws, ws');
    ApplyDistinct(v, ws);
    ApplyDistinct(v, ws');
    forall i | 0 <= i < |v| ensures Apply(v, ws)[i] == Apply(v, ws')[i] {
      if k :| 0 <= k < |ws| && ws[k].index == i {
        assert ws[k] in multiset(ws');
        var k' :| 0 <= k' < |ws'| && ws'[k'] == ws[k];
      } else {
        forall k' | 0 <= k' < |ws'| ensures ws'[k'].index != i {
          assert ws'[k'] in multiset(ws);
        }
      }
    }
  }

  /** The writes of an engine call, whose `k`-th write targets slot `k`,
      fill the same vector in whatever order the workers' writes interleave. */
  lemma TraceAnyOrder<C>(v: seq<Slot<C>>, trace: seq<Write<C>>, ws: seq<Write<C>>)
    requires forall k :: 0 <= k < |trace| ==> trace[k].index == k
    requires multiset(ws) == multiset(trace)
    ensures Apply(v, ws) == Apply(v, trace)
  {
    TraceDistinct(trace);
    ApplyOrderIndependent(v, trace, ws);
  }

  /** The worker body: fill the slots `[range.start, range.end)` in order,
      slot `i` with the classification of `draws[i]`, logging each write as
      made by `worker`. */
  method RunWorker<C>(worker: nat, range: Range, draws: seq<Draw<C>>, classify: (C, C) -> bool,
                      points: seq<Slot<C>>, trace: seq<Write<C>>, ghost initial: seq<Slot<C>>)
    returns (points': seq<Slot<C>>, trace': seq<Write<C>>)
    requires range.start == |trace| <= range.end <= |points| <= |draws|
    requires points == Apply(initial, trace)
    ensures |points'| == |points| && |trace'| == range.end
    ensures trace'[..|trace|] == trace
    ensures forall k :: |trace| <= k < range.end ==> trace'[k] == Write(worker, k, Classified(draws[k], classify))
    ensures forall j :: 0 <= j < |points| ==> points'[j] == if range.Contains(j) then Classified(draws[j], classify) else points[j]
    ensures points' == Apply(initial, trace')
  {
    points' := points;
    trace' := trace;
    var i := range.start;
    while i < range.end
      invariant range.start <= i <= range.end
      invariant |points'| == |points| && |trace'| == i
      invariant trace'[..|trace|] == trace
      invariant forall k :: |trace| <= k < i ==> trace'[k] == Write(worker, k, Classified(draws[k], classify))
      invariant forall j :: 0 <= j < |points| ==> points'[j] == if range.start <= j < i then Classified(draws[j], classify) else points[j]
      invariant points' == Apply(initial, trace')
    {
      var x := draws[i].x;
      var y := draws[i].y;
      var s := Sample(x, y, classify(x, y));
      points' := points'[i := s];
      var w := Write(worker, i, s);
      assert (trace' + [w])[..|trace'|] == trace';
      trace' := trace' + [w];
      i := i + 1;
    }
  }

  /** Start one worker per range and wait for all of them: the workers run
      one after another here, worker 0 first. */
  method RunWorkers<C>(numPoints: nat, ranges: seq<Range>, draws: seq<Draw<C>>, classify: (C, C) -> bool)
    returns (points: seq<Slot<C>>, trace: seq<Write<C>>)
    requires numPoints <= |draws|
    requires Tiles(ranges, numPoints)
    ensures |points| == numPoints && |trace| == numPoints
    ensures forall i :: 0 <= i < numPoints ==> points[i] == Classified(draws[i], classify)
    ensures forall k :: 0 <= k < |trace| ==>
      && trace[k].index == k
      && trace[k].worker < |ranges|
      && ranges[trace[k].worker].Contains(k)
    ensures points == Apply(seq(numPoints, _ => Unwritten), trace)
  {
    ghost var initial: seq<Slot<C>> := seq(numPoints, _ => Unwritten);
    points := seq(numPoints, _ => Unwritten);
    trace := [];
    var t := 0;
    while t < |ranges|
      invariant 0 <= t <= |ranges|
      invariant |points| == numPoints && |trace| <= numPoints
      invariant |trace| == if t < |ranges| then ranges[t].start else numPoints
      invariant forall k :: 0 <= k < |trace| ==>
        && trace[k].index == k
        && trace[k].worker < t
        && ranges[trace[k].worker].Contains(k)
      invariant forall i :: 0 <= i < |trace| ==> points[i] == Classified(draws[i], classify)
      invariant points == Apply(initial, trace)
    {
      TilingBounded(ranges, numPoints, t);
      ghost var before := trace;
      points, trace := RunWorker(t, ranges[t], draws, classify, points, trace, initial);
      forall k | 0 <= k < |before| ensures trace[k] == before[k] {
        assert trace[..|before|][k] == trace[k];
      }
      t := t + 1;
    }
  }

  /** One call of the engine on `numPoints` and `numThreads`, with `draws[i]`
      the coordinates drawn for slot `i`. Besides the result it returns the
      writes the workers performed, worker by worker. */
  method MonteCarloStep<C>(numPoints: int, numThreads: int, draws: seq<Draw<C>>, classify: (C, C) -> bool)
    returns (result: StepResult<C>, trace: seq<Write<C>>)
    requires numPoints <= |draws|
    ensures numPoints < 0 <==> result == LengthError
    ensures numPoints == 0 <==> result == DivisionByZero
    ensures result.Points? <==> numPoints >= 1
    ensures result == StepOutcome(numPoints, draws, classify)
    ensures numPoints >= 1 ==> |result.points| == numPoints
    ensures numPoints >= 1 ==>
      forall i :: 0 <= i < numPoints ==> result.points[i] == Classified(draws[i], classify)
    ensures numPoints >= 1 ==> |trace| == numPoints
    ensures numPoints >= 1 ==>
      forall k :: 0 <= k < |trace| ==>
        && trace[k].index == k
        && trace[k].worker < EffectiveThreads(numPoints, numThreads)
        && WorkerRange(numPoints, EffectiveThreads(numPoints, numThreads), trace[k].worker).Contains(k)
    ensures numPoints >= 1 ==> result.points == Apply(seq(numPoints, _ => Unwritten), trace)
    ensures numPoints < 1 ==> trace == []
  {
    if numPoints < 0 {
      return LengthError, [];
    }
    var workers := EffectiveThreads(numPoints, numThreads);
    if workers == 0 {
      return DivisionByZero, [];
    }
    var ranges := PlanRanges(numPoints, workers);
    var points;
    points, trace := RunWorkers(numPoints, ranges, draws, classify);
    assert points == StepOutcome(numPoints, draws, classify).points;
    return Points(points), trace;
  }

  /** The trace of a call targets distinct slots, so `ApplyOrderIndependent`
      applies to every reordering of it. */
  lemma TraceDistinct<C>(trace: seq<Write<C>>)
    requires forall k :: 0 <= k < |trace| ==> trace[k].index == k
    ensures DistinctIndices(trace)
  {
  }
}
