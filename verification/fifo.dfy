/** The bounded display buffers of the GUI drivers: a Python list that gets
    `append(x)` followed by one `pop(0)` whenever it has grown past its cap. */
module Fifo {

  /** The last `n` elements of `s` (all of `s` when it is shorter). */
  function LastN<T>(s: seq<T>, n: nat): (r: seq<T>)
    ensures |r| <= n && |r| <= |s|
    ensures |s| <= n ==> r == s
    ensures |s| > n ==> |r| == n
    ensures r == s[|s| - |r|..]
  {
    if |s| <= n then s else s[|s| - n..]
  }

  /** Append `x`, then drop the oldest element if the cap is exceeded. */
  function Push<T>(buf: seq<T>, x: T, cap: nat): (r: seq<T>)
    ensures |buf| <= cap ==> r == LastN(buf + [x], cap)
    ensures |buf| >= cap ==> |r| == |buf|
    ensures |buf| < cap ==> r == buf + [x]
  {
    var appended := buf + [x];
    if |appended| > cap then appended[1..] else appended
  }

  /** A buffer holding the latest `cap` items of a history still holds the
      latest `cap` items after the next item is pushed. */
  lemma PushKeepsLatest<T>(h: seq<T>, x: T, cap: nat)
    ensures Push(LastN(h, cap), x, cap) == LastN(h + [x], cap)
  {
    var buf := LastN(h, cap);
    var hx := h + [x];
    if |h| >= cap {
      assert buf + [x] == hx[|h| - cap..];
      assert (buf + [x])[1..] == hx[|hx| - cap..];
    }
  }
}
