/** Plain records standing in for the drawing primitives of the logo script:
    the shapes appended to a drawing and the ring tuples that the layout
    generator yields. */
module Shapes {

  /** Fill of every arc: fully transparent black (RGBA hex). */
  const TRANSPARENT: string := "#00000000"

  /** Fill of the background disc: opaque black (RGBA hex). */
  const OPAQUE_BLACK: string := "#000000FF"

  /** Radius of the background disc: half of the 512-unit canvas. */
  const BACKGROUND_RADIUS: int := 256

  /** A drawable shape. Coordinates are relative to the canvas centre. */
  datatype Shape =
    | Circle(cx: int, cy: int, r: int, fill: string)
    | ArcLine(cx: int, cy: int, radius: int, startDeg: int, endDeg: int,
              stroke: string, strokeWidth: int, fill: string)

  /** The disc drawn first, behind every ring. */
  const BACKGROUND: Shape := Circle(0, 0, BACKGROUND_RADIUS, OPAQUE_BLACK)

  /** One ring as yielded by the layout generator: the radius, the start
      angle, the span of each arc, the angular gap between the two arcs,
      the stroke width and the stroke colour. */
  datatype Ring = Ring(radius: int, startDeg: int, arcDeg: int, intervalDeg: int,
                       width: int, color: string)
}
