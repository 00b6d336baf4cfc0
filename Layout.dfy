/** The uniform ring layout: a stroke width derived from the radial band by
    ceiling division, then one ring per value of the integer progression
    `range(first, stop, step)`, each carrying the fixed angles 155, 120, 60. */
module Layout {
  import opened Shapes

  /** The ways the generator fails: a division by a ring count of zero, or a
      progression whose step is zero (Python's `range` refuses it). */
  datatype Error = DivisionByZero | ZeroStep

  datatype Result<T> = Ok(value: T) | Err(error: Error)

  /** Start angle, arc span and angular gap baked into every ring. */
  const START_DEG: int := 155
  const ARC_DEG: int := 120
  const INTERVAL_DEG: int := 60

  /** The exact ceiling of the quotient `a / n`, for either sign of `n`. */
  function CeilDiv(a: int, n: int): (q: int)
    requires n != 0
    ensures n > 0 ==> (q - 1) * n < a <= q * n
    ensures n < 0 ==> q * n <= a < (q - 1) * n
  {
    if n > 0 then
      var f := (-a) / n;
      assert -a == n * f + (-a) % n;
      -f
    else
      var f := a / (-n);
      assert a == (-n) * f + a % (-n);
      -f
  }

  /** The stroke width of every ring: the band left after the gaps between
      rings, shared among the rings and rounded up. */
  function ArcWidth(startRadius: int, endRadius: int, interval: int, numArcs: int): (w: int)
    requires numArcs != 0
    ensures numArcs > 0 ==>
      (w - 1) * numArcs < endRadius - startRadius - interval * (numArcs - 1) <= w * numArcs
    ensures numArcs < 0 ==>
      w * numArcs <= endRadius - startRadius - interval * (numArcs - 1) < (w - 1) * numArcs
  {
    var totalWidth := endRadius - startRadius;
    var intervalWidth := interval * (numArcs - 1);
    CeilDiv(totalWidth - intervalWidth, numArcs)
  }

  /** Half a stroke width, rounded down (Python's `//` by 2). */
  function HalfWidth(width: int): (h: int)
    ensures 2 * h <= width < 2 * h + 2
  {
    width / 2
  }

  /** Whether a value of a progression is still produced by
      `range(_, stop, step)`: below `stop` when counting up, above it when
      counting down. */
  predicate InRange(v: int, stop: int, step: int)
  {
    if step > 0 then v < stop else v > stop
  }

  /** `vs` is exactly what Python's `range(start, stop, step)` produces:
      `start`, `start + step`, ... as long as the value is in range, and the
      next value of the progression would not be. */
  ghost predicate IsRange(vs: seq<int>, start: int, stop: int, step: int)
  {
    && step != 0
    && (forall k :: 0 <= k < |vs| ==> vs[k] == start + k * step && InRange(vs[k], stop, step))
    && !InRange(start + |vs| * step, stop, step)
  }

  /** The radii of a list of rings, in order. */
  function Radii(rings: seq<Ring>): (rs: seq<int>)
  {
    seq(|rings|, k requires 0 <= k < |rings| => rings[k].radius)
  }

  /** `rings` is what the uniform generator yields for these arguments. */
  ghost predicate IsLayout(rings: seq<Ring>, startRadius: int, endRadius: int,
                           interval: int, numArcs: int, color: string)
    requires numArcs != 0
  {
    var width := ArcWidth(startRadius, endRadius, interval, numArcs);
    var half := HalfWidth(width);
    && IsRange(Radii(rings), startRadius + half, endRadius + half, width + interval)
    && forall k :: 0 <= k < |rings| ==>
         rings[k] == Ring(rings[k].radius, START_DEG, ARC_DEG, INTERVAL_DEG, width, color)
  }

  /** The uniform ring generator. The rings come out in the order the
      progression produces them. */
  method UniformGenerator(startRadius: int, endRadius: int, interval: int, numArcs: int,
                          color: string) returns (res: Result<seq<Ring>>)
    ensures numArcs == 0 <==> res == Err(DivisionByZero)
    ensures numArcs != 0 ==>
      (ArcWidth(startRadius, endRadius, interval, numArcs) + interval == 0 <==> res == Err(ZeroStep))
    ensures res.Err? ==> res == Err(DivisionByZero) || res == Err(ZeroStep)
    ensures res.Ok? ==>
      numArcs != 0 && IsLayout(res.value, startRadius, endRadius, interval, numArcs, color)
  {
    if numArcs == 0 {
      return Err(DivisionByZero);
    }
    var width := ArcWidth(startRadius, endRadius, interval, numArcs);
    var half := HalfWidth(width);
    var first, stop, step := startRadius + half, endRadius + half, width + interval;
    if step == 0 {
      return Err(ZeroStep);
    }
    var rings: seq<Ring> := [];
    var i := first;
    while InRange(i, stop, step)
      invariant i == first + |rings| * step
      invariant forall k :: 0 <= k < |rings| ==>
        rings[k] == Ring(first + k * step, START_DEG, ARC_DEG, INTERVAL_DEG, width, color)
      invariant forall k :: 0 <= k < |rings| ==> InRange(rings[k].radius, stop, step)
      decreases if step > 0 then stop - i else i - stop
    {
      assert i + step == first + (|rings| + 1) * step;
      rings := rings + [Ring(i, START_DEG, ARC_DEG, INTERVAL_DEG, width, color)];
      i := i + step;
    }
    assert IsRange(Radii(rings), first, stop, step);
    res := Ok(rings);
  }

  /** Multiplying by a positive number keeps order. */
  lemma MulMonotone(a: int, b: int, n: int)
    requires a <= b && n > 0
    ensures a * n <= b * n
  {
    assert b * n - a * n == (b - a) * n;
  }

  /** Dividing both sides by a positive number keeps a strict order. */
  lemma MulCancel(a: int, b: int, n: int)
    requires n > 0 && a * n > b * n
    ensures a > b
  {
    assert (a - b) * n == a * n - b * n;
  }

  /** Multiplying by a negative number reverses order. */
  lemma MulAntitone(a: int, b: int, n: int)
    requires a <= b && n < 0
    ensures a * n >= b * n
  {
    assert a * n - b * n == (b - a) * (-n);
  }

  /** The ceiling of a quotient is the only integer `q` meeting the bounds
      `CeilDiv` gives for the sign of the divisor. */
  lemma CeilDivUnique(a: int, n: int, q: int)
    requires n != 0
    requires n > 0 ==> (q - 1) * n < a <= q * n
    requires n < 0 ==> q * n <= a < (q - 1) * n
    ensures q == CeilDiv(a, n)
  {
    var c := CeilDiv(a, n);
    if n > 0 {
      if q < c {
        MulMonotone(q, c - 1, n);
      } else if q > c {
        MulMonotone(c, q - 1, n);
      }
    } else {
      if q < c {
        MulAntitone(q, c - 1, n);
      } else if q > c {
        MulAntitone(c, q - 1, n);
      }
    }
  }

  /** Every value of the progression that the range reaches is in range. */
  lemma RangeAt(vs: seq<int>, start: int, stop: int, step: int, k: nat)
    ensures IsRange(vs, start, stop, step) && k < |vs| ==> InRange(start + k * step, stop, step)
  {
    if IsRange(vs, start, stop, step) && k < |vs| {
      assert vs[k] == start + k * step;
    }
  }

  /** A progression is determined by its arguments: a range, and hence a
      layout, is the same every time it is produced. */
  lemma {:induction false} RangeUnique(vs: seq<int>, ws: seq<int>, start: int, stop: int, step: int)
    requires IsRange(vs, start, stop, step) && IsRange(ws, start, stop, step)
    ensures vs == ws
  {
    RangeAt(ws, start, stop, step, |vs|);
    RangeAt(vs, start, stop, step, |ws|);
  }

  /** The whole layout, not just its radii, is determined by the generator's
      arguments: producing it twice gives the same rings. */
  lemma LayoutUnique(rings: seq<Ring>, other: seq<Ring>, startRadius: int, endRadius: int,
                     interval: int, numArcs: int, color: string)
    requires numArcs != 0
    requires IsLayout(rings, startRadius, endRadius, interval, numArcs, color)
    requires IsLayout(other, startRadius, endRadius, interval, numArcs, color)
    ensures rings == other
  {
    var width := ArcWidth(startRadius, endRadius, interval, numArcs);
    var half := HalfWidth(width);
    RangeUnique(Radii(rings), Radii(other), startRadius + half, endRadius + half, width + interval);
    assert |rings| == |Radii(rings)| == |Radii(other)| == |other|;
    forall k | 0 <= k < |rings|
      ensures rings[k] == other[k]
    {
      assert Radii(rings)[k] == Radii(other)[k];
    }
  }

  /** Consecutive values of a range differ by exactly the step, so with a
      positive step they strictly increase. */
  lemma {:induction false} RangeEvenlySpaced(vs: seq<int>, start: int, stop: int, step: int)
    requires IsRange(vs, start, stop, step)
    ensures forall k :: 0 <= k < |vs| - 1 ==> vs[k + 1] - vs[k] == step
    ensures step > 0 ==> forall j, k :: 0 <= j < k < |vs| ==> vs[j] < vs[k]
  {
    forall k | 0 <= k < |vs| - 1
      ensures vs[k + 1] - vs[k] == step
    {
      assert (k + 1) * step == k * step + step;
    }
    if step > 0 {
      forall j, k | 0 <= j < k < |vs|
        ensures vs[j] < vs[k]
      {
        MulMonotone(j + 1, k, step);
        assert (j + 1) * step == j * step + step;
      }
    }
  }

  /** A range holds `ceil((stop - start) / step)` values when its start is in
      range, and none otherwise; for a negative step both the difference and
      the step are negative. */
  lemma {:induction false} RangeLength(vs: seq<int>, start: int, stop: int, step: int)
    requires IsRange(vs, start, stop, step)
    ensures |vs| == if InRange(start, stop, step) then CeilDiv(stop - start, step) else 0
  {
    if InRange(start, stop, step) {
      var n := |vs|;
      assert vs[n - 1] == start + (n - 1) * step;
      CeilDivUnique(stop - start, step, n);
    } else {
      RangeAt(vs, start, stop, step, 0);
    }
  }

  /** The number of rings is the radial band divided by the step between
      rings, rounded up, when the band runs the way the step goes (outwards
      for a positive step, inwards for a negative one), and zero otherwise. */
  lemma RingCount(rings: seq<Ring>, startRadius: int, endRadius: int, interval: int,
                  numArcs: int, color: string)
    requires numArcs != 0 && IsLayout(rings, startRadius, endRadius, interval, numArcs, color)
    ensures var step := ArcWidth(startRadius, endRadius, interval, numArcs) + interval;
      |rings| == if InRange(startRadius, endRadius, step)
        then CeilDiv(endRadius - startRadius, step)
        else 0
  {
    var width := ArcWidth(startRadius, endRadius, interval, numArcs);
    var half := HalfWidth(width);
    RangeLength(Radii(rings), startRadius + half, endRadius + half, width + interval);
  }

  /** With non-negative gaps between rings, at most `numArcs` rings are
      produced (but possibly fewer, see `FewerRingsThanRequested`). */
  lemma RingCountAtMost(rings: seq<Ring>, startRadius: int, endRadius: int, interval: int,
                        numArcs: int, color: string)
    requires numArcs > 0 && interval >= 0
    requires IsLayout(rings, startRadius, endRadius, interval, numArcs, color)
    requires ArcWidth(startRadius, endRadius, interval, numArcs) + interval > 0
    ensures |rings| <= numArcs
  {
    var width := ArcWidth(startRadius, endRadius, interval, numArcs);
    var half := HalfWidth(width);
    var rs := Radii(rings);
    var total := endRadius - startRadius;
    assert total - interval * (numArcs - 1) <= width * numArcs;
    assert numArcs * (width + interval) == numArcs * width + numArcs * interval;
    RangeAt(rs, startRadius + half, endRadius + half, width + interval, numArcs);
  }

  /** When the stroke width is at least the ring count (and gaps are not
      negative), exactly `numArcs` rings are produced. */
  lemma RingCountExact(rings: seq<Ring>, startRadius: int, endRadius: int, interval: int,
                       numArcs: int, color: string)
    requires numArcs > 0 && interval >= 0
    requires IsLayout(rings, startRadius, endRadius, interval, numArcs, color)
    requires ArcWidth(startRadius, endRadius, interval, numArcs) >= numArcs
    ensures |rings| == numArcs
  {
    var width := ArcWidth(startRadius, endRadius, interval, numArcs);
    var half := HalfWidth(width);
    var rs := Radii(rings);
    RingCountAtMost(rings, startRadius, endRadius, interval, numArcs, color);
    var total := endRadius - startRadius;
    var n, step := numArcs, width + interval;
    assert (width - 1) * n < total - interval * (n - 1);
    assert (width - 1) * n == n * width - n;
    assert (n - 1) * step == n * width - width + n * interval - interval;
    assert |rings| * step >= total;
    MulCancel(|rings|, n - 1, step);
  }

  /** Six rings asked for in a band of 10 with no gaps give a stroke width of
      2 and only five rings, at radii 1, 3, 5, 7 and 9. */
  lemma FewerRingsThanRequested(rings: seq<Ring>)
    requires IsLayout(rings, 0, 10, 0, 6, "#DEDEDEFF")
    ensures Radii(rings) == [1, 3, 5, 7, 9]
  {
    assert ArcWidth(0, 10, 0, 6) == 2;
    RangeUnique(Radii(rings), [1, 3, 5, 7, 9], 1, 11, 2);
  }

  /** The script's own inputs (85, 185, 0, 3) give a stroke width of 34 and
      rings at radii 102, 136 and 170. */
  lemma DefaultLayout(rings: seq<Ring>, color: string)
    requires IsLayout(rings, 85, 185, 0, 3, color)
    ensures Radii(rings) == [102, 136, 170]
    ensures forall k :: 0 <= k < |rings| ==> rings[k].width == 34
  {
    assert ArcWidth(85, 185, 0, 3) == 34;
    RangeUnique(Radii(rings), [102, 136, 170], 102, 202, 34);
  }

  /** An inverted band, (185, 85, 0, 3), gives a negative stroke width of -33
      and a half width of -17; the progression then counts down from 168 to
      69, giving four rings. */
  lemma InvertedBandCountsDown(rings: seq<Ring>, color: string)
    requires IsLayout(rings, 185, 85, 0, 3, color)
    ensures Radii(rings) == [168, 135, 102, 69]
    ensures forall k :: 0 <= k < |rings| ==> rings[k].width == -33
  {
    assert ArcWidth(185, 85, 0, 3) == -33;
    RangeUnique(Radii(rings), [168, 135, 102, 69], 168, 68, -33);
  }
}
