/** The arc renderer: from one ring, two arcs on the same circle, the second
    starting a fixed angular gap after the end of the first. All angle
    arithmetic is taken modulo 360 degrees. */
module Arcs {
  import opened Shapes

  /** An angle brought into [0, 360). Python's `%` with a positive modulus
      agrees with Dafny's, so negative angles are handled the same way. */
  function Normalize(deg: int): (r: int)
    ensures 0 <= r < 360
    ensures (deg - r) % 360 == 0
    ensures 0 <= deg < 360 ==> r == deg
  {
    deg % 360
  }

  /** The four endpoint angles of a ring's two arcs. */
  datatype Angles = Angles(start1: int, end1: int, start2: int, end2: int)

  /** Adding to a normalised angle and normalising again is the same as
      adding to the original angle. */
  lemma NormalizeAdd(x: int, y: int)
    ensures Normalize(Normalize(x) + y) == Normalize(x + y)
  {
    var q := x / 360;
    assert x == 360 * q + Normalize(x);
    assert x + y == (Normalize(x) + y) + 360 * q;
  }

  /** Normalising `s + d` lands `d` degrees (mod 360) after `s`. */
  lemma NormalizeSpan(s: int, d: int)
    ensures (Normalize(s + d) - s) % 360 == d % 360
  {
    var q, p := (s + d) / 360, d / 360;
    assert s + d == 360 * q + Normalize(s + d);
    assert d == 360 * p + d % 360;
    assert Normalize(s + d) - s == 360 * (p - q) + d % 360;
  }

  /** The angle computation of the arc renderer. */
  function ArcAngles(startDeg: int, arcDeg: int, intervalDeg: int): (a: Angles)
    ensures 0 <= a.start1 < 360 && 0 <= a.end1 < 360
    ensures 0 <= a.start2 < 360 && 0 <= a.end2 < 360
    ensures (a.start1 - startDeg) % 360 == 0
    ensures (a.end1 - a.start1) % 360 == arcDeg % 360
    ensures (a.start2 - a.end1) % 360 == intervalDeg % 360
    ensures (a.end2 - a.start2) % 360 == arcDeg % 360
    ensures a.start2 == Normalize(a.start1 + arcDeg + intervalDeg)
  {
    var start1 := Normalize(startDeg);
    var end1 := Normalize(start1 + arcDeg);
    var start2 := Normalize(end1 + intervalDeg);
    var end2 := Normalize(start2 + arcDeg);
    NormalizeSpan(start1, arcDeg);
    NormalizeSpan(end1, intervalDeg);
    NormalizeSpan(start2, arcDeg);
    NormalizeAdd(start1 + arcDeg, intervalDeg);
    Angles(start1, end1, start2, end2)
  }

  /** When one arc and one gap make half a turn, the second arc is the first
      one rotated by 180 degrees. */
  lemma HalfTurnSymmetry(startDeg: int, arcDeg: int, intervalDeg: int)
    requires arcDeg + intervalDeg == 180
    ensures var a := ArcAngles(startDeg, arcDeg, intervalDeg);
      a.start2 == Normalize(a.start1 + 180) && a.end2 == Normalize(a.end1 + 180)
  {
    var a := ArcAngles(startDeg, arcDeg, intervalDeg);
    NormalizeAdd(a.start1 + 180, arcDeg);
    NormalizeAdd(a.start1 + arcDeg, 180);
  }

  /** What it means for `arcs` to be the two arcs drawn for `ring`: two
      transparent arc lines centred on the origin, on the ring's radius,
      with its stroke colour and width, each spanning the ring's arc span
      modulo 360, the first starting at the ring's start angle and the
      second starting the ring's gap after the end of the first. */
  ghost predicate ArcPairOf(arcs: seq<Shape>, ring: Ring)
  {
    && |arcs| == 2
    && (forall i :: 0 <= i < 2 ==>
          && arcs[i].ArcLine?
          && arcs[i].cx == 0 && arcs[i].cy == 0
          && arcs[i].radius == ring.radius
          && arcs[i].stroke == ring.color
          && arcs[i].strokeWidth == ring.width
          && arcs[i].fill == TRANSPARENT
          && 0 <= arcs[i].startDeg < 360 && 0 <= arcs[i].endDeg < 360
          && (arcs[i].endDeg - arcs[i].startDeg) % 360 == ring.arcDeg % 360)
    && (arcs[0].startDeg - ring.startDeg) % 360 == 0
    && (arcs[1].startDeg - arcs[0].endDeg) % 360 == ring.intervalDeg % 360
  }

  /** Two angles in [0, 360) that agree modulo 360 are equal. */
  lemma CongruentAnglesEqual(x: int, y: int)
    requires 0 <= x < 360 && 0 <= y < 360
    requires (x - y) % 360 == 0
    ensures x == y
  {
    var q := (x - y) / 360;
    assert x - y == 360 * q;
  }

  /** The pair of arcs for a ring is unique: a renderer is deterministic,
      so drawing the same ring twice gives the same shapes. */
  lemma {:induction false} ArcPairUnique(arcs: seq<Shape>, other: seq<Shape>, ring: Ring)
    requires ArcPairOf(arcs, ring) && ArcPairOf(other, ring)
    ensures arcs == other
  {
    CongruentAnglesEqual(arcs[0].startDeg, other[0].startDeg);
    assert (arcs[0].endDeg - other[0].endDeg) % 360 == 0 by {
      SpanCongruence(arcs[0].startDeg, arcs[0].endDeg, other[0].endDeg, ring.arcDeg);
    }
    CongruentAnglesEqual(arcs[0].endDeg, other[0].endDeg);
    assert (arcs[1].startDeg - other[1].startDeg) % 360 == 0 by {
      SpanCongruence(arcs[0].endDeg, arcs[1].startDeg, other[1].startDeg, ring.intervalDeg);
    }
    CongruentAnglesEqual(arcs[1].startDeg, other[1].startDeg);
    assert (arcs[1].endDeg - other[1].endDeg) % 360 == 0 by {
      SpanCongruence(arcs[1].startDeg, arcs[1].endDeg, other[1].endDeg, ring.arcDeg);
    }
    CongruentAnglesEqual(arcs[1].endDeg, other[1].endDeg);
  }

  /** Two endpoints at the same distance (mod 360) from one start agree mod 360. */
  lemma SpanCongruence(s: int, e1: int, e2: int, span: int)
    requires (e1 - s) % 360 == span % 360 && (e2 - s) % 360 == span % 360
    ensures (e1 - e2) % 360 == 0
  {
    var q1, q2 := (e1 - s) / 360, (e2 - s) / 360;
    assert e1 - s == 360 * q1 + span % 360;
    assert e2 - s == 360 * q2 + span % 360;
    assert e1 - e2 == 360 * (q1 - q2);
  }

  /** With the ring angles the layout generator hard-wires (155, 120, 60),
      the first arc runs from 155 to 275 degrees and the second from 335
      round past 0 to 95 degrees. */
  lemma DefaultRingAngles(arcs: seq<Shape>, ring: Ring)
    requires ring.startDeg == 155 && ring.arcDeg == 120 && ring.intervalDeg == 60
    requires ArcPairOf(arcs, ring)
    ensures arcs[0].startDeg == 155 && arcs[0].endDeg == 275
    ensures arcs[1].startDeg == 335 && arcs[1].endDeg == 95
  {
    CongruentAnglesEqual(arcs[0].startDeg, 155);
    SpanCongruence(155, arcs[0].endDeg, 275, 120);
    CongruentAnglesEqual(arcs[0].endDeg, 275);
    SpanCongruence(275, arcs[1].startDeg, 335, 60);
    CongruentAnglesEqual(arcs[1].startDeg, 335);
    SpanCongruence(335, arcs[1].endDeg, 95, 120);
    CongruentAnglesEqual(arcs[1].endDeg, 95);
  }

  /** Builds the list of the two arcs of one ring by appending them in order. */
  method GenerateArcs(radius: int, startDeg: int, arcDeg: int, intervalDeg: int,
                      strokeWidth: int, color: string) returns (arcs: seq<Shape>)
    ensures ArcPairOf(arcs, Ring(radius, startDeg, arcDeg, intervalDeg, strokeWidth, color))
    ensures arcs[1].startDeg == Normalize(arcs[0].startDeg + arcDeg + intervalDeg)
  {
    arcs := [];
    var a := ArcAngles(startDeg, arcDeg, intervalDeg);
    arcs := arcs + [ArcLine(0, 0, radius, a.start1, a.end1, color, strokeWidth, TRANSPARENT)];
    arcs := arcs + [ArcLine(0, 0, radius, a.start2, a.end2, color, strokeWidth, TRANSPARENT)];
  }
}
