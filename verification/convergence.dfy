/** The convergence judgement of both GUI drivers: a count of consecutive
    updates whose error met the threshold, and a flag that latches, together
    with the time it latched, once that count reaches the required number. */
module Convergence {
  import opened Optional

  /** One update: whether the error test passed, and the elapsed run time at
      that moment. */
  datatype Observation<T> = Observation(hit: bool, elapsed: T)

  datatype Latch<T> = Latch(consecutiveHits: nat, converged: bool, convergenceTime: Option<T>)

  /** The flag is set exactly when a convergence time is known. */
  predicate Coherent<T>(c: Latch<T>)
  {
    c.converged <==> c.convergenceTime.Some?
  }

  /** The state at the start of a run. */
  function Initial<T>(): Latch<T>
  {
    Latch(0, false, None)
  }

  /** One update: count the hit or reset on a miss, then latch if the count
      has reached `needed` and the run had not converged yet. */
  function Observe<T>(c: Latch<T>, o: Observation<T>, needed: nat): (r: Latch<T>)
    ensures o.hit ==> r.consecutiveHits == c.consecutiveHits + 1
    ensures !o.hit ==> r.consecutiveHits == 0
    ensures c.converged ==> r.converged && r.convergenceTime == c.convergenceTime
    ensures r.converged <==> c.converged || r.consecutiveHits >= needed
    ensures !c.converged && r.converged ==> r.convergenceTime == Some(o.elapsed)
    ensures !r.converged ==> r.convergenceTime == c.convergenceTime
    ensures Coherent(c) ==> Coherent(r)
  {
    var hits := if o.hit then c.consecutiveHits + 1 else 0;
    if !c.converged && hits >= needed then Latch(hits, true, Some(o.elapsed))
    else c.(consecutiveHits := hits)
  }

  /** Length of the run of hits at the end of a history. */
  function TrailingHits<T>(h: seq<Observation<T>>): (n: nat)
    ensures n <= |h|
  {
    if |h| == 0 || !h[|h| - 1].hit then 0 else TrailingHits(h[..|h| - 1]) + 1
  }

  /** The index of the first update after which the trailing run of hits
      reached `needed`, if there is one. */
  function FirstReach<T>(h: seq<Observation<T>>, needed: nat): (k: Option<nat>)
    ensures k.Some? ==> k.value < |h|
  {
    if |h| == 0 then None
    else
      var earlier := FirstReach(h[..|h| - 1], needed);
      if earlier.Some? then earlier
      else if TrailingHits(h) >= needed then Some(|h| - 1)
      else None
  }

  /** `c` is what the updates in `h` give from the start of a run. */
  ghost predicate Tracks<T>(c: Latch<T>, h: seq<Observation<T>>, needed: nat)
  {
    && c.consecutiveHits == TrailingHits(h)
    && c.converged == FirstReach(h, needed).Some?
    && c.convergenceTime == (if c.converged then Some(h[FirstReach(h, needed).value].elapsed) else None)
  }

  lemma InitialTracks<T>(needed: nat)
    ensures Tracks(Initial<T>(), [], needed)
  {
  }

  /** One update extends the tracked history by one observation: the counter
      is the trailing run of hits, the flag says whether the run ever reached
      `needed`, and the time is the one of the first update that reached it. */
  lemma ObserveTracks<T>(c: Latch<T>, h: seq<Observation<T>>, o: Observation<T>, needed: nat)
    requires Tracks(c, h, needed)
    ensures Tracks(Observe(c, o, needed), h + [o], needed)
  {
    var ho := h + [o];
    assert ho[..|ho| - 1] == h;
    if FirstReach(h, needed).Some? {
      assert ho[FirstReach(h, needed).value] == h[FirstReach(h, needed).value];
    }
  }

  /** `TrailingHits` is the length of the trailing run: the last `n` updates
      are hits and the one before them, if any, is a miss. */
  lemma {:induction false} TrailingHitsIsRun<T>(h: seq<Observation<T>>)
    ensures forall k :: |h| - TrailingHits(h) <= k < |h| ==> h[k].hit
    ensures TrailingHits(h) < |h| ==> !h[|h| - 1 - TrailingHits(h)].hit
  {
    if |h| > 0 && h[|h| - 1].hit {
      var init := h[..|h| - 1];
      TrailingHitsIsRun(init);
      forall k | |h| - TrailingHits(h) <= k < |h| ensures h[k].hit {
        if k < |h| - 1 {
          assert h[k] == init[k];
        }
      }
      if TrailingHits(h) < |h| {
        assert h[|h| - 1 - TrailingHits(h)] == init[|init| - 1 - TrailingHits(init)];
      }
    }
  }

  /** Once reached, the first convergence point never moves: later updates
      cannot unlatch the flag or change its time. */
  lemma {:induction false} FirstReachStable<T>(h: seq<Observation<T>>, more: seq<Observation<T>>, needed: nat)
    requires FirstReach(h, needed).Some?
    ensures FirstReach(h + more, needed) == FirstReach(h, needed)
    decreases |more|
  {
    if |more| > 0 {
      var hm := h + more;
      var init := more[..|more| - 1];
      FirstReachStable(h, init, needed);
      assert hm[..|hm| - 1] == h + init;
    } else {
      assert h + more == h;
    }
  }
}
