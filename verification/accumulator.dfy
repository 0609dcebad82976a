/** The caller-side running statistics of both GUI drivers: the counters
    `total_points` and `inside_circle`, and the two bounded display buffers of
    inside and outside points, updated point by point for each batch. */
module Accumulator {
  import opened Fifo

  /** A sampled point as the driver sees it: what it plots (`payload`, the
      coordinates) and its inside/outside flag. */
  datatype Point<P> = Point(payload: P, inside: bool)

  datatype Tally<P> = Tally(totalPoints: nat, insideCircle: nat, insideBuf: seq<P>, outsideBuf: seq<P>)

  /** The state at the start of a run: zero counters and empty buffers. */
  function Empty<P>(): Tally<P>
  {
    Tally(0, 0, [], [])
  }

  /** The counters are ordered and both buffers are within `cap`. */
  predicate WithinCap<P>(s: Tally<P>, cap: nat)
  {
    && s.insideCircle <= s.totalPoints
    && |s.insideBuf| <= cap
    && |s.outsideBuf| <= cap
  }

  /** Number of inside points in a history. */
  function CountInside<P>(h: seq<Point<P>>): (c: nat)
    ensures c <= |h|
  {
    if |h| == 0 then 0
    else CountInside(h[..|h| - 1]) + (if h[|h| - 1].inside then 1 else 0)
  }

  /** Payloads of the inside points (or of the outside points) of a history,
      in arrival order. */
  function Payloads<P>(h: seq<Point<P>>, inside: bool): seq<P>
  {
    if |h| == 0 then []
    else Payloads(h[..|h| - 1], inside) + (if h[|h| - 1].inside == inside then [h[|h| - 1].payload] else [])
  }

  /** Account for one point: push it onto the buffer matching its flag and
      bump the counters. */
  function AddPoint<P>(s: Tally<P>, p: Point<P>, cap: nat): (r: Tally<P>)
    ensures r.totalPoints == s.totalPoints + 1
    ensures r.insideCircle == s.insideCircle + (if p.inside then 1 else 0)
    ensures p.inside ==> r.outsideBuf == s.outsideBuf
    ensures !p.inside ==> r.insideBuf == s.insideBuf
  {
    if p.inside then
      s.(insideBuf := Push(s.insideBuf, p.payload, cap), insideCircle := s.insideCircle + 1,
         totalPoints := s.totalPoints + 1)
    else
      s.(outsideBuf := Push(s.outsideBuf, p.payload, cap), totalPoints := s.totalPoints + 1)
  }

  /** Account for a whole batch, point by point in order. */
  function AddBatch<P>(s: Tally<P>, batch: seq<Point<P>>, cap: nat): (r: Tally<P>)
    ensures r.totalPoints == s.totalPoints + |batch|
    ensures r.insideCircle == s.insideCircle + CountInside(batch)
    ensures WithinCap(s, cap) ==> WithinCap(r, cap)
  {
    if |batch| == 0 then s
    else AddPoint(AddBatch(s, batch[..|batch| - 1], cap), batch[|batch| - 1], cap)
  }

  /** `s` is what processing the history `h` from an empty start gives: it has
      counted every point and every inside point of `h`, and each buffer holds
      the latest `cap` payloads of its kind, oldest first. */
  ghost predicate Consistent<P>(s: Tally<P>, h: seq<Point<P>>, cap: nat)
  {
    && s.totalPoints == |h|
    && s.insideCircle == CountInside(h)
    && s.insideBuf == LastN(Payloads(h, true), cap)
    && s.outsideBuf == LastN(Payloads(h, false), cap)
  }

  lemma EmptyConsistent<P>(cap: nat)
    ensures Consistent(Empty<P>(), [], cap)
  {
  }

  /** Processing one more point extends the history by that point. */
  lemma AddPointConsistent<P>(s: Tally<P>, h: seq<Point<P>>, p: Point<P>, cap: nat)
    requires Consistent(s, h, cap)
    ensures Consistent(AddPoint(s, p, cap), h + [p], cap)
  {
    var hp := h + [p];
    assert hp[..|hp| - 1] == h;
    assert hp[|hp| - 1] == p;
    var r := AddPoint(s, p, cap);
    if p.inside {
      assert Payloads(hp, true) == Payloads(h, true) + [p.payload];
      assert Payloads(hp, false) == Payloads(h, false);
      PushKeepsLatest(Payloads(h, true), p.payload, cap);
      assert r.insideBuf == Push(s.insideBuf, p.payload, cap);
    } else {
      assert Payloads(hp, true) == Payloads(h, true);
      assert Payloads(hp, false) == Payloads(h, false) + [p.payload];
      PushKeepsLatest(Payloads(h, false), p.payload, cap);
      assert r.outsideBuf == Push(s.outsideBuf, p.payload, cap);
    }
  }

  /** Processing a batch extends the history by the whole batch. */
  lemma {:induction false} AddBatchConsistent<P>(s: Tally<P>, h: seq<Point<P>>, batch: seq<Point<P>>, cap: nat)
    requires Consistent(s, h, cap)
    ensures Consistent(AddBatch(s, batch, cap), h + batch, cap)
  {
    if |batch| > 0 {
      var init, last := batch[..|batch| - 1], batch[|batch| - 1];
      assert batch == init + [last];
      assert h + batch == (h + init) + [last];
      var mid := AddBatch(s, init, cap);
      assert AddBatch(s, batch, cap) == AddPoint(mid, last, cap);
      AddBatchConsistent(s, h, init, cap);
      AddPointConsistent(mid, h + init, last, cap);
    } else {
      assert h + batch == h;
    }
  }
}
