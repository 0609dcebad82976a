/** How a driver consumes one engine call: the returned tuples are unpacked as
    `for x, y, inside in points` and accounted for point by point. */
module Pipeline {
  import opened Sampler
  import opened Accumulator
  import opened Convergence

  /** The driver's view of a filled result vector: each `(x, y, inside)` tuple
      as a point whose payload is its coordinates. */
  function Unpack<C>(slots: seq<Slot<C>>): (ps: seq<Point<Draw<C>>>)
    requires forall i :: 0 <= i < |slots| ==> slots[i].Sample?
    ensures |ps| == |slots|
    ensures forall i :: 0 <= i < |slots| ==> ps[i] == Point(Draw(slots[i].x, slots[i].y), slots[i].inside)
  {
    seq(|slots|, i requires 0 <= i < |slots| => Point(Draw(slots[i].x, slots[i].y), slots[i].inside))
  }

  /** How many of the draws the classification puts inside. */
  function CountClassifiedInside<C>(draws: seq<Draw<C>>, classify: (C, C) -> bool): (n: nat)
    ensures n <= |draws|
  {
    if |draws| == 0 then 0
    else
      var d := draws[|draws| - 1];
      CountClassifiedInside(draws[..|draws| - 1], classify) + (if classify(d.x, d.y) then 1 else 0)
  }

  /** Unpacking a vector of classified draws yields exactly as many inside
      points as the classification accepts. */
  lemma {:induction false} UnpackCountsClassified<C>(draws: seq<Draw<C>>, classify: (C, C) -> bool, slots: seq<Slot<C>>)
    requires |slots| == |draws|
    requires forall i :: 0 <= i < |slots| ==> slots[i].Sample? && slots[i] == Classified(draws[i], classify)
    ensures CountInside(Unpack(slots)) == CountClassifiedInside(draws, classify)
  {
    if |slots| > 0 {
      var n := |slots| - 1;
      UnpackCountsClassified(draws[..n], classify, slots[..n]);
      assert Unpack(slots)[..n] == Unpack(slots[..n]);
    }
  }

  /** Feeding one successful engine call of `numPoints` points to the
      accumulator raises `total_points` by `numPoints` and `inside_circle` by
      the number of draws classified inside. */
  lemma EngineBatchCounted<C>(s: Tally<Draw<C>>, numPoints: nat, draws: seq<Draw<C>>, classify: (C, C) -> bool,
                              slots: seq<Slot<C>>, cap: nat)
    requires numPoints <= |draws| && |slots| == numPoints
    requires forall i :: 0 <= i < numPoints ==> slots[i].Sample? && slots[i] == Classified(draws[i], classify)
    ensures AddBatch(s, Unpack(slots), cap).totalPoints == s.totalPoints + numPoints
    ensures AddBatch(s, Unpack(slots), cap).insideCircle == s.insideCircle + CountClassifiedInside(draws[..numPoints], classify)
  {
    UnpackCountsClassified(draws[..numPoints], classify, slots);
  }

  /** One accounted pass, whatever the display cap and the required number of
      hits: the point history grows by the batch and the update history by
      the observation. Both drivers instantiate this with their constants. */
  lemma PassExtendsHistory<P, T>(tally: Tally<P>, latch: Latch<T>, h: seq<Point<P>>, oh: seq<Observation<T>>,
                                 batch: seq<Point<P>>, o: Observation<T>, cap: nat, needed: nat)
    requires Consistent(tally, h, cap)
    requires Tracks(latch, oh, needed)
    ensures Consistent(AddBatch(tally, batch, cap), h + batch, cap)
    ensures Tracks(Observe(latch, o, needed), oh + [o], needed)
  {
    AddBatchConsistent(tally, h, batch, cap);
    ObserveTracks(latch, oh, o, needed);
  }
}
