/**
 * Detection results and the queue of result batches the draw filter keeps: the
 * producer appends batches at the back, the consumer drops every batch but the newest
 * and discards that one when it is too far from the frame's clock.
 */
module ResultQueue {
  import opened Geometry

  /** One detected box with the microsecond timestamp of the frame it was detected on. */
  datatype DetectionResult = DetectionResult(box: Rect, timeval: int)

  /** The results of one detector run, in the order they were reported. */
  type Batch = seq<DetectionResult>

  /** The boxes of a batch, in order. */
  function Boxes(b: Batch): (rs: seq<Rect>)
    ensures |rs| == |b| && forall i :: 0 <= i < |b| ==> rs[i] == b[i].box
  {
    seq(|b|, i requires 0 <= i < |b| => b[i].box)
  }

  function Last<T>(q: seq<T>): T
    requires |q| > 0
  {
    q[|q| - 1]
  }

  /** The producer side: the new batch becomes the back of the queue, nothing else moves. */
  function Push(q: seq<Batch>, b: Batch): (q': seq<Batch>)
    ensures |q'| == |q| + 1 && q'[..|q|] == q && Last(q') == b
  {
    q + [b]
  }

  /**
   * The consumer's eviction loop: pops the front while two or more batches are
   * queued. What is left is exactly the most recently pushed batch.
   */
  function DropToNewest(q: seq<Batch>): (r: seq<Batch>)
    requires |q| > 0
    ensures r == [Last(q)]
    decreases |q|
  {
    if |q| >= 2 then DropToNewest(q[1..]) else q
  }

  /** Pushes `pushed` one by one: the queue grows by exactly those batches, in order. */
  function PushAll(q: seq<Batch>, pushed: seq<Batch>): (r: seq<Batch>)
    ensures r == q + pushed
    decreases |pushed|
  {
    if |pushed| == 0 then q
    else
      assert q + [pushed[0]] + pushed[1..] == q + pushed;
      PushAll(Push(q, pushed[0]), pushed[1..])
  }

  /** However many batches were pushed since the consumer last ran, only the last one survives eviction. */
  lemma NewestSurvivesPushes(q: seq<Batch>, pushed: seq<Batch>)
    requires |pushed| > 0
    ensures DropToNewest(PushAll(q, pushed)) == [Last(pushed)]
  {
  }

  // ---------------------------------------------------------------------------
  // Staleness
  // ---------------------------------------------------------------------------

  /** C integer division: the quotient is truncated toward zero. */
  function TruncDiv(a: int, b: int): (q: int)
    requires b > 0
    ensures a >= 0 ==> q * b <= a < q * b + b
    ensures a <= 0 ==> q * b - b < a <= q * b
  {
    if a >= 0 then
      DivBounds(a, b);
      a / b
    else
      var p := (-a) / b;
      DivBounds(-a, b);
      assert (-p) * b == -(p * b);
      -p
  }

  /** Euclidean division of a natural number: the quotient times the divisor is within one divisor below it. */
  lemma DivBounds(a: nat, b: int)
    requires b > 0
    ensures 0 <= a / b && (a / b) * b <= a < (a / b) * b + b
  {
  }

  function Abs(x: int): int { if x < 0 then -x else x }

  /** The frame tolerance, in milliseconds. */
  const StaleAfterMs := 133

  /**
   * A batch stamped `timeval` is stale for a frame stamped `clock` (both in
   * microseconds) when the whole milliseconds between them exceed 133: exactly when
   * the two stamps are at least 134 ms apart.
   */
  function IsStale(timeval: int, clock: int): (stale: bool)
    ensures stale <==> Abs(timeval - clock) >= (StaleAfterMs + 1) * 1000
  {
    Abs(TruncDiv(timeval - clock, 1000)) > StaleAfterMs
  }
}
