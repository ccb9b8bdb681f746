# vpype `read`: SVG paths to polylines

This project models the `read` command of vpype (`vpype/read.py`). The command takes the
flattened paths of an SVG document and turns them into polylines in document units. It has
three steps:

1. **Transform resolution.** The root's `viewBox`, `width` and `height` give a per-axis
   affine map. Without a `viewBox` the map is the identity.
2. **Linearization.** A straight `Line` segment becomes its two end points. Any other segment is
   cut into `step = ceil(length / quantization)` pieces of equal parameter range:
   slot 0 of a `step + 1`-slot array holds the start, a loop fills slots `1 .. step - 1`
   with `point(k / step)`, and the last slot holds the end.
3. **Collection.** Every point is scaled, and one polyline per segment is appended, path by
   path and segment by segment.

Files and modules:

- `outcome.dfy` (`Outcome`): `Option`, and `Result` with the errors the reader raises.
  These are a missing root attribute, an index past the end, a division by zero, and an
  array of negative size.
- `geometry.dfy` (`Geometry`): points, the `Transform` record, `Apply` (the per-point map
  of lines 79-80) and `ScaleAll`.
- `viewbox.dfy` (`ViewBox`): the root attributes and `ResolveTransform`.
- `linearize.dfy` (`Linearizer`): segments, including a reference definition
  `CurvePoints`/`Linearized`. It also holds `FillCurve`, which fills an array as the
  source does, and `Linearize`.
- `read.dfy` (`Read`): `Extract` is the specification of a whole read over the flattened
  segments. `Read` is the nested loop that builds the polyline sequence.

Points are pairs of exact reals. The curve library's `length()` and `point(t)` become a
segment's `length` field and its `at` function. The flattened document is a
`seq<seq<Segment>>`, one inner sequence per path.

The SVG specification defines `viewBox` as `min-x min-y width height`, so one would expect
`scale_x = w / vb[2]` and `scale_y = h / vb[3]`. The code (`vpype/read.py:52-53`) divides
by `vb[2] - vb[0]` and `vb[3] - vb[1]` instead. So it treats entries 2 and 3 as the far corner of the box. The
model follows the code: `ViewBox.ViewBoxFarCornerToSize` proves that `(vb[2], vb[3])` maps
to `(width, height)`. The two readings agree whenever the box starts at `(0, 0)`.

One might expect a curve always to give `step >= 1`. The code allows
`step == 0` for a zero-length curve, and then the end overwrites the start in the one slot.
The model follows the code (`Linearizer.ZeroLengthCurve`).

Errors are modelled as values, not as preconditions, in the order the code meets them:

- `width`, then `height`, is looked up.
- Entries 2 and 0 of the viewBox are read and the x divisor is used.
- Then entries 3 and 1, and the y divisor.
- For a curve: a zero quantization fails in the division.
- A piece count of -1 gives an empty array, whose slot 0 cannot be written.
- A smaller piece count cannot be allocated.

The transform is resolved before any segment is looked at, so a bad viewBox fails even a
document with no paths.

## Model

| member | source | states |
|---|---|---|
| `Geometry.ApplyIdentity` | vpype/read.py:56-60 | the transform used without a viewBox (scale 1, offset 0) maps every point to itself |
| `Geometry.ApplyRoundTrip` | vpype/read.py:79-80 | with nonzero scales the per-point map is a bijection: `Unapply` undoes it both ways |
| `Geometry.ScaleAllAt` | vpype/read.py:77-80 | scaling a polyline keeps its number of points and maps point k to the scaled point k |
| `Geometry.ScaleAllIdentity` | vpype/read.py:79-80 | under the identity transform a polyline is unchanged |
| `ViewBox.ResolveTransform` | vpype/read.py:42-60 | no viewBox gives the identity; success exactly when width and height exist, the viewBox has at least 4 entries and both divisors are nonzero; then `scaleX * (vb[2]-vb[0]) == w`, `scaleY * (vb[3]-vb[1]) == h`, offsets `-vb[0]`, `-vb[1]`; a missing width or height is reported by name |
| `ViewBox.ViewBoxErrors` | vpype/read.py:47-53 | with width and height present: fewer than 3 entries is an index error; a zero x divisor is a division error, checked before a missing entry 3 (an index error); a zero y divisor is a division error |
| `ViewBox.ViewBoxMapsLinearly` | vpype/read.py:52-55 | each axis maps linearly from the viewBox to the document, depending only on that axis's coordinate and entries |
| `ViewBox.ViewBoxOriginToZero` | vpype/read.py:54-55 | the viewBox origin `(vb[0], vb[1])` maps to `(0, 0)` |
| `ViewBox.ViewBoxFarCornerToSize` | vpype/read.py:52-53 | the point `(vb[2], vb[3])` maps to `(width, height)` |
| `ViewBox.HalfScaleExample` | vpype/read.py:47-55 | width 100, height 50, viewBox `0 0 200 100`: scale 1/2, `(200,100)` maps to `(100,50)`, `(0,0)` stays |
| `ViewBox.OffsetExample` | vpype/read.py:47-55 | width 100, height 100, viewBox `10 10 100 100`: `(10,10)` maps to `(0,0)` |
| `Linearizer.Ceil` | vpype/read.py:69 | the piece count is the least integer not below `length / quantization` |
| `Linearizer.InteriorAt` | vpype/read.py:72-73 | the interior points from index `from` number `step - from`, and the m-th is `at((from + m) / step)` |
| `Linearizer.CurvePointsAt` | vpype/read.py:70-74 | a curve cut into `step` pieces has `step + 1` points: the end last, the start first when `step >= 1`, `at(k/step)` at each interior k |
| `Linearizer.FillCurve` | vpype/read.py:70-74 | filling a `step + 1`-slot array (start, the loop over slots `1..step-1`, then the end in the last slot) gives exactly `CurvePoints` |
| `Linearizer.Linearize` | vpype/read.py:65-74 | the segment procedure returns exactly `Linearized`, including its errors |
| `Linearizer.LineIsExact` | vpype/read.py:65-66 | a line gives exactly `[start, end]` for every quantization |
| `Linearizer.CurveSubdivision` | vpype/read.py:69-74 | a curve with positive length and quantization has `step = ceil(length/quantization) >= 1` and gives `step + 1` points: exactly its start first, exactly its end last, `at(k/step)` at each interior k |
| `Linearizer.ZeroLengthCurve` | vpype/read.py:69-74 | a zero-length curve gives the single point `[end]` |
| `Linearizer.LinearizedSucceeds` | vpype/read.py:65-74 | with positive quantization every segment of nonnegative length is linearized into at least one point, and into at least two unless it is a zero-length curve |
| `Linearizer.LinearizedFailsIff` | vpype/read.py:69-71 | only a curve fails, exactly when the quantization is zero (division) or the piece count is -1 (index) or below (allocation) |
| `Read.FlattenAppend` | vpype/read.py:63-64 | walking two groups of paths one after the other walks their segments one after the other |
| `Read.FlattenCount` | vpype/read.py:63-64 | the walk visits as many segments as the paths hold together |
| `Read.FlattenAt` | vpype/read.py:63-64 | segment j of path i is visited at position `SegmentCount(paths[..i]) + j` (paths first, then their segments) |
| `Read.FlattenNext` | vpype/read.py:63-64 | finishing path i appends exactly its segments to the walk |
| `Read.FlattenSplit` | vpype/read.py:63-64 | the walk is the paths before i, then path i's segments, then the paths after i |
| `Read.PrefixOfFlatten` | vpype/read.py:63-64 | the segments walked before segment j of path i are a prefix of the whole walk |
| `Read.PolylinesAt` | vpype/read.py:77-82 | a successful run has one polyline per segment, and polyline k is segment k linearized and scaled |
| `Read.PolylinesErrExtends` | vpype/read.py:62-82 | a failure on the first segments is the failure of the whole run, with no partial output |
| `Read.PolylinesSnoc` | vpype/read.py:65-82 | one more segment appends its scaled points as one polyline, or its failure becomes the run's failure |
| `Read.AbortsAt` | vpype/read.py:62-82 | a failure part-way through the walk is the result of the whole run |
| `Read.ReadStep` | vpype/read.py:64-82 | one inner-loop step: segment j of path i either fails the whole read with its own error or appends its scaled polyline |
| `Read.PolylinesOkIff` | vpype/read.py:62-82 | a run succeeds exactly when every segment linearizes |
| `Read.PolylinesFirstError` | vpype/read.py:62-82 | a failed run reports the error of the first segment that fails; all earlier segments succeed |
| `Read.ExtractPolylines` | vpype/read.py:42-84 | reading succeeds exactly when the transform resolves and every segment linearizes; then there is exactly one polyline per segment, and segment j of path i becomes polyline `SegmentCount(paths[..i]) + j`, its points scaled by the transform |
| `Read.ExtractFirstError` | vpype/read.py:42-84 | a failed read reports the transform's error, or the error of the first failing segment in traversal order |
| `Read.NoViewBoxIsIdentity` | vpype/read.py:56-80 | without a viewBox every output polyline equals its segment's raw linearized points |
| `Read.EmptyDocument` | vpype/read.py:62-84 | a document with no segments reads as no polylines, unless its transform fails |
| `Read.Read` | vpype/read.py:42-84 | the nested loop over paths and segments returns exactly `Extract`: the transform first, then one scaled polyline appended per segment in order, aborting on the first error |

## Left out

- Command wiring, option parsing and the file-existence check (`vpype/read.py:12-21`): these are command-line plumbing.
- `Document(file)`, `flatten_all_paths()` and `getroot()` (`vpype/read.py:35-37`): XML parsing and group-transform flattening belong to svgpathtools. The model takes their result, the flattened paths and the root attributes, as inputs.
- Unit conversion of `width`, `height` and the quantization (`convert`, `Length`): `.utils` is not part of this model. They are given as reals, and a unit string that fails to convert is not modelled.
- Parsing the viewBox tokens with `float` (`vpype/read.py:50`): the viewBox is given as a sequence of reals, so a malformed token is not modelled.
- The curve mathematics of bezier and arc segments: `length()` and `point(t)` are abstract inputs. The model does not claim that chords are shorter than the quantization, because the code subdivides by parameter, not by arc length.
- numpy's complex-to-pair reshaping and shapely's `LineString`/`MultiLineString` (`vpype/read.py:77, 82, 84`): points are real pairs and the result is a sequence of polylines. A zero-length curve gives a one-point array. shapely's `LineString` needs at least two coordinates, so the source most likely raises at `vpype/read.py:82` for such a curve. The model does not capture that error: `Linearizer.ZeroLengthCurve`, `Linearizer.LinearizedSucceeds` and `Read.Read` (through `Extract`) give `Ok` with a one-point polyline for it.
- Floating point: exact reals are used. Rounding, infinities and NaN are absent. If the library returns a numpy scalar for a length and the quantization is zero, numpy returns an infinity or NaN and `math.ceil` raises; the model reports this case, like a plain Python float, as a division by zero.
- `preserveAspectRatio`: the source does not implement it, and neither does the model.
- Determinism: every member of the model is a function or a terminating method with no hidden inputs, so repeated reads of the same input agree trivially. There is no separate lemma for it.
