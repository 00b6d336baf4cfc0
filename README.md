# Concentric arc logo: a Dafny model

This project models the layout logic of a small Python script that draws a
logo as SVG. The logo is a black disc with concentric rings on it. Each ring
is two stroked arcs on the same circle, and the second arc starts a fixed
angular gap after the first one ends. The model covers three parts of
`main.py`:

- **Arc renderer** (`generate_arcs`, module `Arcs`). It normalises the start
  angle modulo 360 and derives the four endpoint angles. It then appends two
  transparent arc lines centred on the origin, on the ring's radius, with the
  ring's stroke colour and width.
- **Uniform ring layout** (`uniform_generator`, module `Layout`). It shares a
  radial band among `num_arcs` rings, after removing the gaps between them,
  and rounds the stroke width up. Its loop then walks the progression
  `range(start + half, end + half, width + interval)`, producing one ring per
  value with the fixed angles 155, 120 and 60.
- **Assembly** (`generate`, module `Assembly`). It builds a 512 by 512
  drawing: the background disc first, then the two arcs of each ring, in ring
  order.

Shapes are plain records (module `Shapes`) that stand in for the drawing
library's circle and arc-line objects. A drawing is the sequence of shapes
appended to it.

Python's `%` with the modulus 360 and `//` by 2 agree with Dafny's Euclidean
`%` and `/`, because both divisors are positive. So a negative start angle
is handled exactly as the script handles it. `ceil(x / n)` is modelled as
exact integer ceiling division (`CeilDiv`), for either sign of `n`.

Facts about the script's behaviour that the model records:

- The script does not always produce `num_arcs` rings: (0, 10, 0, 6) gives
  five (`Layout.FewerRingsThanRequested`). What does hold:
  - for a positive `num_arcs`, there are at most `num_arcs` rings when the
    gap is not negative and the step is positive (`Layout.RingCountAtMost`);
  - for a positive `num_arcs`, there are exactly `num_arcs` rings when the gap
    is not negative and the stroke width is at least `num_arcs`
    (`Layout.RingCountExact`).
- The script does not refuse a non-positive stroke width, and neither does
  the model. An inverted band such as (185, 85, 0, 3) gives a negative width
  and four rings counting inwards (`Layout.InvertedBandCountsDown`).
- Apart from float overflow for huge operands (see "Left out"), the script
  fails in only two cases, and the model returns an error for each:
  - `num_arcs == 0` is a division by zero;
  - a zero step is refused by `range`.

  A negative step counts down, as Python's `range` does.

## Model

| member | source | states |
|---|---|---|
| `Arcs.Normalize` | main.py:21 | the normalised angle lies in [0, 360) and is congruent to the input modulo 360; the range holds for negative inputs too, and an angle already in [0, 360) is unchanged (idempotence) |
| `Arcs.ArcAngles` | main.py:21-24 | all four angles lie in [0, 360); the first start is congruent to the given start; each arc spans `arc_deg` modulo 360; the gap from the first end to the second start is `interval_deg` modulo 360; the second start is `(start1 + arc_deg + interval_deg) % 360` |
| `Arcs.HalfTurnSymmetry` | main.py:21-24 | when one arc plus one gap make 180 degrees, the second arc is the first one rotated by half a turn (both endpoints) |
| `Arcs.ArcPairUnique` | main.py:15-30 | the arc-pair properties pin every field of both arcs, so one ring always yields the same two shapes |
| `Arcs.DefaultRingAngles` | main.py:54 | with the hard-wired angles 155/120/60, arc 1 runs 155 to 275 and arc 2 runs 335 to 95, wrapping past 0 |
| `Arcs.GenerateArcs` | main.py:13-30 | returns exactly two arc lines centred on (0, 0), on the given radius, with the given stroke colour and width and fill `#00000000`; every endpoint angle lies in [0, 360); each arc spans `arc_deg` modulo 360; the first starts at `start_deg` modulo 360; the second starts at `(start1 + arc_deg + interval_deg) % 360` |
| `Layout.ArcWidth` | main.py:49-51 | the stroke width is the ceiling of `(end_radius - start_radius - interval * (num_arcs - 1)) / num_arcs`, stated as bounds for either sign of `num_arcs` |
| `Layout.CeilDiv` | main.py:51 | the result is the ceiling of `a / n`: `(q - 1) * n < a <= q * n` for a positive divisor, the mirrored bounds for a negative one |
| `Layout.CeilDivUnique` | main.py:51 | for either sign of the divisor, any integer meeting the ceiling bounds of `CeilDiv` is the ceiling, so the stroke width is determined by the band, gaps and count |
| `Layout.HalfWidth` | main.py:52 | half width is the floor of `width / 2`: `2h <= width < 2h + 2` |
| `Layout.UniformGenerator` | main.py:48-55 | `num_arcs == 0` fails as a division by zero; a zero step fails as `range` does; otherwise the radii are exactly `range(start + half, end + half, width + interval)` and each tuple is `(r, 155, 120, 60, width, color)`, in progression order |
| `Layout.RangeUnique` | main.py:53 | the progression is determined by its arguments, so the radii are the same on every call |
| `Layout.LayoutUnique` | main.py:48-55 | the whole layout (every ring tuple, not just the radii) is determined by the generator's arguments |
| `Layout.RangeEvenlySpaced` | main.py:53-54 | consecutive radii differ by exactly `width + interval` and strictly increase when that step is positive |
| `Layout.RangeLength` | main.py:53 | for either sign of the step, the number of values is `ceil((stop - start) / step)` when the start is in range, and zero otherwise |
| `Layout.RingCount` | main.py:49-54 | for either sign of the step, the ring count is `ceil((end_radius - start_radius) / (width + interval))` when the band runs the way the step goes (outwards for a positive step, inwards for a negative one), and zero otherwise |
| `Layout.RingCountAtMost` | main.py:49-54 | for a positive `num_arcs`, with a non-negative gap and a positive step there are at most `num_arcs` rings |
| `Layout.RingCountExact` | main.py:49-54 | for a positive `num_arcs`, with a non-negative gap and a stroke width of at least `num_arcs` there are exactly `num_arcs` rings |
| `Layout.InvertedBandCountsDown` | main.py:49-54 | the inverted band (185, 85, 0, 3) gives width -33 and radii 168, 135, 102, 69: the progression counts down |
| `Layout.FewerRingsThanRequested` | main.py:49-54 | the inputs (0, 10, 0, 6) give radii 1, 3, 5, 7, 9: five rings where six were asked for |
| `Layout.DefaultLayout` | main.py:61 | the script's inputs (85, 185, 0, 3) give stroke width 34 and radii exactly 102, 136, 170 |
| `Assembly.Generate` | main.py:33-45 | the drawing is 512 by 512; its first shape is the background circle of radius 256 filled `#000000FF`; then each ring contributes its two arcs consecutively, in ring order; the total is `1 + 2 * rings` |
| `Assembly.Render` | main.py:61 | drawing the generator's output fails exactly when the generator fails; otherwise it is a 512 by 512 drawing holding the background followed by the arc pairs of the generated layout |
| `Assembly.DefaultLogo` | main.py:61 | the script's own logo has seven shapes: the background, then arcs of width 34 on radii 102, 136 and 170, with the first ring's arcs at 155 to 275 and 335 to 95 |

## Left out

- The drawing library (`Drawing`, `Circle`, `ArcLine`) and `saveSvg`: rendering and file output are foreign calls. Shapes are records and a drawing is its list of shapes. The origin convention (`origin='center'`) is implicit in the coordinates.
- Logging (main.py:14, 25-27, 34, 41, 58-60): observability only.
- The floating-point division inside `ceil` at main.py:51. The model uses exact integer ceiling division. So it does not model float rounding errors for very large operands. Nor does it model the `OverflowError` that the division raises when the quotient exceeds the float range (for example a band of 10**400 with three rings).
- Lazy evaluation of the generator. The rings are produced as a finished list. In the script, a layout error surfaces only once `generate` starts iterating, after the background was appended. The exception then discards the drawing, so the result is the same as failing before drawing.
- `int(i)` at main.py:54 is the identity on the integer radii that `range` produces.
- Colour strings are passed through unchecked; the script never inspects them.
