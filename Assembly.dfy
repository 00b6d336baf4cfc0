/** Assembly of the logo: a 512 by 512 drawing with its origin at the centre,
    holding the background disc followed by the two arcs of every ring, in
    the order the rings are produced. */
module Assembly {
  import opened Shapes
  import opened Arcs
  import opened Layout

  /** The drawing: its size and the shapes in the order they were appended
      (which is the order they are painted). */
  datatype Drawing = Drawing(width: int, height: int, shapes: seq<Shape>)

  const CANVAS_SIZE: int := 512

  /** Appends the background, then, ring by ring, each of the ring's arcs. */
  method Generate(rings: seq<Ring>) returns (d: Drawing)
    ensures d.width == CANVAS_SIZE && d.height == CANVAS_SIZE
    ensures |d.shapes| == 1 + 2 * |rings|
    ensures d.shapes[0] == BACKGROUND
    ensures forall k :: 0 <= k < |rings| ==> ArcPairOf(d.shapes[1 + 2 * k .. 3 + 2 * k], rings[k])
  {
    var shapes := [BACKGROUND];
    for j := 0 to |rings|
      invariant |shapes| == 1 + 2 * j
      invariant shapes[0] == BACKGROUND
      invariant forall k :: 0 <= k < j ==> ArcPairOf(shapes[1 + 2 * k .. 3 + 2 * k], rings[k])
    {
      var ring := rings[j];
      var arcs := GenerateArcs(ring.radius, ring.startDeg, ring.arcDeg, ring.intervalDeg,
                               ring.width, ring.color);
      ghost var before := shapes;
      for m := 0 to |arcs|
        invariant shapes == before + arcs[..m]
      {
        shapes := shapes + [arcs[m]];
      }
      assert arcs[..|arcs|] == arcs;
      assert shapes[1 + 2 * j .. 3 + 2 * j] == arcs;
      forall k | 0 <= k < j
        ensures shapes[1 + 2 * k .. 3 + 2 * k] == before[1 + 2 * k .. 3 + 2 * k]
      {
      }
    }
    d := Drawing(CANVAS_SIZE, CANVAS_SIZE, shapes);
  }

  /** The whole pipeline: lay the rings out, then draw them. A failure of the
      layout is a failure of the whole drawing. */
  method Render(startRadius: int, endRadius: int, interval: int, numArcs: int, color: string)
    returns (res: Layout.Result<Drawing>)
    ensures numArcs == 0 <==> res == Err(DivisionByZero)
    ensures numArcs != 0 ==>
      (ArcWidth(startRadius, endRadius, interval, numArcs) + interval == 0 <==> res == Err(ZeroStep))
    ensures res.Ok? ==> numArcs != 0 && exists rings ::
      && IsLayout(rings, startRadius, endRadius, interval, numArcs, color)
      && res.value.width == CANVAS_SIZE && res.value.height == CANVAS_SIZE
      && |res.value.shapes| == 1 + 2 * |rings|
      && res.value.shapes[0] == BACKGROUND
      && forall k :: 0 <= k < |rings| ==>
           ArcPairOf(res.value.shapes[1 + 2 * k .. 3 + 2 * k], rings[k])
  {
    var layout := UniformGenerator(startRadius, endRadius, interval, numArcs, color);
    if layout.Err? {
      return Err(layout.error);
    }
    var d := Generate(layout.value);
    res := Ok(d);
  }

  /** The logo the script draws: rings from radius 85 to 185, no gap, three
      rings, in light grey. */
  method DefaultLogo() returns (d: Drawing)
    ensures |d.shapes| == 7 && d.shapes[0] == BACKGROUND
    ensures forall i :: 1 <= i < 7 ==> d.shapes[i].ArcLine? && d.shapes[i].strokeWidth == 34
    ensures d.shapes[1].radius == 102 && d.shapes[3].radius == 136 && d.shapes[5].radius == 170
    ensures d.shapes[1].startDeg == 155 && d.shapes[1].endDeg == 275
    ensures d.shapes[2].startDeg == 335 && d.shapes[2].endDeg == 95
  {
    var layout := UniformGenerator(85, 185, 0, 3, "#DEDEDEFF");
    assert ArcWidth(85, 185, 0, 3) == 34;
    var rings := layout.value;
    DefaultLayout(rings, "#DEDEDEFF");
    assert Radii(rings)[0] == 102 && Radii(rings)[1] == 136 && Radii(rings)[2] == 170;
    d := Generate(rings);
    DefaultRingAngles(d.shapes[1..3], rings[0]);
  }
}
