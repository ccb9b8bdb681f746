/** Approximation of one path segment by a sequence of points. */
module Linearizer {
  import opened Outcome
  import opened Geometry

  /**
   * A path segment as the SVG library hands it over: a straight line, or any curved
   * segment (bezier or arc) given by its length and its point-at-parameter function.
   */
  datatype Segment =
    | Line(start: Point, end: Point)
    | Curve(start: Point, end: Point, length: real, at: real -> Point)

  /** The smallest integer not below `x`. */
  function Ceil(x: real): (c: int)
    ensures c as real - 1.0 < x <= c as real
  {
    -((-x).Floor)
  }

  /** The points `at(k / step)` for `k` from `from` up to `step - 1`, in order. */
  function Interior(at: real -> Point, step: nat, from: nat): seq<Point>
    decreases step - from
  {
    if from >= step then [] else [at(from as real / step as real)] + Interior(at, step, from + 1)
  }

  lemma {:induction false} InteriorAt(at: real -> Point, step: nat, from: nat, m: nat)
    requires from <= step
    ensures |Interior(at, step, from)| == step - from
    ensures m < step - from ==> Interior(at, step, from)[m] == at((from + m) as real / step as real)
    decreases step - from
  {
    if from < step {
      InteriorAt(at, step, from + 1, if m == 0 then 0 else m - 1);
    }
  }

  /**
   * The points of a curve cut into `step` pieces of equal parameter range: the start, the
   * interior points, then the end. With `step == 0` only the end remains.
   */
  function CurvePoints(start: Point, end: Point, at: real -> Point, step: nat): seq<Point> {
    if step == 0 then [end] else [start] + Interior(at, step, 1) + [end]
  }

  /** `CurvePoints` has `step + 1` points: start first, end last, `at(k / step)` between. */
  lemma CurvePointsAt(start: Point, end: Point, at: real -> Point, step: nat, k: nat)
    requires k <= step
    ensures |CurvePoints(start, end, at, step)| == step + 1
    ensures CurvePoints(start, end, at, step)[step] == end
    ensures 1 <= step ==> CurvePoints(start, end, at, step)[0] == start
    ensures 0 < k < step ==> CurvePoints(start, end, at, step)[k] == at(k as real / step as real)
  {
    if step > 0 {
      InteriorAt(at, step, 1, if k == 0 then 0 else k - 1);
    }
  }

  /**
   * What the reader makes of one segment. A line is its two end points whatever the
   * quantization. A curve is cut into `Ceil(length / quantization)` pieces; a zero
   * quantization fails in the division, a piece count of -1 leaves an empty array whose
   * slot 0 cannot be written, and a smaller count cannot be allocated.
   */
  function Linearized(seg: Segment, quantization: real): Result<seq<Point>> {
    match seg
    case Line(start, end) => Ok([start, end])
    case Curve(start, end, length, at) =>
      if quantization == 0.0 then Err(DivisionByZero)
      else
        var step := Ceil(length / quantization);
        if step == -1 then Err(IndexOutOfRange)
        else if step < -1 then Err(NegativeDimensions)
        else Ok(CurvePoints(start, end, at, step))
  }

  /**
   * Fills the point array of a curve cut into `step` pieces, as the source does: allocate
   * `step + 1` slots, write the start into slot 0, fill slots 1 to `step - 1` in a loop, and
   * write the end into the last slot (which is slot 0 again when `step == 0`).
   */
  method FillCurve(start: Point, end: Point, at: real -> Point, step: nat) returns (pts: seq<Point>)
    ensures pts == CurvePoints(start, end, at, step)
  {
    var coords := new Point[step + 1];
    coords[0] := start;
    var i := 0;
    while i < step - 1
      invariant 0 <= i <= if step >= 1 then step - 1 else 0
      invariant coords[0] == start
      invariant forall k :: 1 <= k <= i ==> coords[k] == at(k as real / step as real)
    {
      coords[i + 1] := at((i + 1) as real / step as real);
      i := i + 1;
    }
    coords[coords.Length - 1] := end;
    forall k | 0 <= k <= step
      ensures |CurvePoints(start, end, at, step)| == coords.Length
      ensures coords[k] == CurvePoints(start, end, at, step)[k]
    {
      CurvePointsAt(start, end, at, step, k);
    }
    pts := coords[..];
  }

  /** Linearizes one segment, failing where the source raises. */
  method Linearize(seg: Segment, quantization: real) returns (r: Result<seq<Point>>)
    ensures r == Linearized(seg, quantization)
  {
    if seg.Line? {
      return Ok([seg.start, seg.end]);
    }
    if quantization == 0.0 {
      return Err(DivisionByZero);
    }
    var step := Ceil(seg.length / quantization);
    if step == -1 {
      return Err(IndexOutOfRange);
    } else if step < -1 {
      return Err(NegativeDimensions);
    }
    var pts := FillCurve(seg.start, seg.end, seg.at, step);
    r := Ok(pts);
  }

  /** A line gives exactly its start and its end, whatever the quantization. */
  lemma LineIsExact(start: Point, end: Point, quantization: real)
    ensures Linearized(Line(start, end), quantization) == Ok([start, end])
  {
  }

  /**
   * A curve of positive length, under a positive quantization, is cut into
   * `step = Ceil(length / quantization) >= 1` pieces and gives `step + 1` points: exactly
   * its start first, exactly its end last, and `at(k / step)` at each interior index `k`.
   */
  lemma CurveSubdivision(seg: Segment, quantization: real, k: nat)
    requires seg.Curve? && seg.length > 0.0 && quantization > 0.0
    ensures var step, r := Ceil(seg.length / quantization), Linearized(seg, quantization);
      step >= 1 && r.Ok? && |r.value| == step + 1 &&
      r.value[0] == seg.start && r.value[step] == seg.end &&
      (0 < k < step ==> r.value[k] == seg.at(k as real / step as real))
  {
    var step := Ceil(seg.length / quantization);
    assert seg.length / quantization > 0.0;
    CurvePointsAt(seg.start, seg.end, seg.at, step, if k <= step then k else 0);
  }

  /** A curve of zero length gives one point, its end: the end overwrites the start's slot. */
  lemma ZeroLengthCurve(seg: Segment, quantization: real)
    requires seg.Curve? && seg.length == 0.0 && quantization != 0.0
    ensures Linearized(seg, quantization) == Ok([seg.end])
  {
  }

  /**
   * With a positive quantization every segment of nonnegative length is linearized, into at
   * least one point, and into at least two unless it is a curve cut into zero pieces.
   */
  lemma LinearizedSucceeds(seg: Segment, quantization: real)
    requires quantization > 0.0 && (seg.Curve? ==> seg.length >= 0.0)
    ensures Linearized(seg, quantization).Ok?
    ensures |Linearized(seg, quantization).value| >= 1
    ensures seg.Line? || seg.length > 0.0 ==> |Linearized(seg, quantization).value| >= 2
  {
  }

  /**
   * A curve fails exactly when the quantization is zero or the piece count is negative, and
   * the error says which; a line never fails.
   */
  lemma LinearizedFailsIff(seg: Segment, quantization: real)
    ensures Linearized(seg, quantization).Err? <==>
      seg.Curve? && (quantization == 0.0 || Ceil(seg.length / quantization) < 0)
    ensures seg.Curve? && quantization == 0.0 ==> Linearized(seg, quantization) == Err(DivisionByZero)
    ensures seg.Curve? && quantization != 0.0 && Ceil(seg.length / quantization) == -1 ==>
      Linearized(seg, quantization) == Err(IndexOutOfRange)
    ensures seg.Curve? && quantization != 0.0 && Ceil(seg.length / quantization) < -1 ==>
      Linearized(seg, quantization) == Err(NegativeDimensions)
  {
  }
}
