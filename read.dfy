/**
 * The reader as a whole: resolve the transform, then linearize and scale every segment of
 * every flattened path, one polyline per segment, in traversal order.
 */
module Read {
  import opened Outcome
  import opened Geometry
  import opened ViewBox
  import opened Linearizer

  /** The segments of all paths, path after path, each path's segments in order. */
  ghost function Flatten(paths: seq<seq<Segment>>): seq<Segment> {
    if paths == [] then [] else Flatten(paths[..|paths| - 1]) + paths[|paths| - 1]
  }

  /** The number of segments in all paths together. */
  function SegmentCount(paths: seq<seq<Segment>>): nat {
    if paths == [] then 0 else SegmentCount(paths[..|paths| - 1]) + |paths[|paths| - 1]|
  }

  /**
   * The polylines of a sequence of segments under a transform: each segment linearized and
   * then scaled. The segments are taken in order, so the first one that fails decides the
   * error, and a failure leaves no partial output.
   */
  ghost function Polylines(t: Transform, segs: seq<Segment>, quantization: real): Result<seq<seq<Point>>> {
    if segs == [] then Ok([])
    else
      match Polylines(t, segs[..|segs| - 1], quantization)
      case Err(e) => Err(e)
      case Ok(init) =>
        match Linearized(segs[|segs| - 1], quantization)
        case Err(e) => Err(e)
        case Ok(pts) => Ok(init + [ScaleAll(t, pts)])
  }

  /** What reading a document gives: the transform is resolved first, even with no paths. */
  ghost function Extract(root: Root, paths: seq<seq<Segment>>, quantization: real): Result<seq<seq<Point>>> {
    match ResolveTransform(root)
    case Err(e) => Err(e)
    case Ok(t) => Polylines(t, Flatten(paths), quantization)
  }

  lemma {:induction false} FlattenAppend(a: seq<seq<Segment>>, b: seq<seq<Segment>>)
    ensures Flatten(a + b) == Flatten(a) + Flatten(b)
    decreases |b|
  {
    if b == [] {
      assert a + b == a;
    } else {
      var n := |b| - 1;
      assert (a + b)[..|a + b| - 1] == a + b[..n];
      FlattenAppend(a, b[..n]);
    }
  }

  /** Segment `j` of path `i` sits at index `SegmentCount(paths[..i]) + j` of the flattening. */
  lemma {:induction false} FlattenAt(paths: seq<seq<Segment>>, i: nat, j: nat)
    requires i < |paths| && j < |paths[i]|
    ensures |Flatten(paths)| == SegmentCount(paths)
    ensures SegmentCount(paths[..i]) + j < SegmentCount(paths)
    ensures Flatten(paths)[SegmentCount(paths[..i]) + j] == paths[i][j]
  {
    FlattenSplit(paths, i);
    FlattenCount(paths);
    FlattenCount(paths[..i]);
  }

  /** The walk is the paths before `i`, then path `i`, then the paths after it. */
  lemma FlattenSplit(paths: seq<seq<Segment>>, i: nat)
    requires i < |paths|
    ensures Flatten(paths) == Flatten(paths[..i]) + paths[i] + Flatten(paths[i + 1..])
  {
    assert paths == paths[..i + 1] + paths[i + 1..];
    FlattenAppend(paths[..i + 1], paths[i + 1..]);
    FlattenNext(paths, i);
  }

  /** Walking one more path appends that path's segments. */
  lemma FlattenNext(paths: seq<seq<Segment>>, i: nat)
    requires i < |paths|
    ensures Flatten(paths[..i + 1]) == Flatten(paths[..i]) + paths[i]
  {
    assert paths[..i + 1][..i] == paths[..i];
  }

  lemma {:induction false} FlattenCount(paths: seq<seq<Segment>>)
    ensures |Flatten(paths)| == SegmentCount(paths)
  {
    if paths != [] {
      FlattenCount(paths[..|paths| - 1]);
    }
  }

  /**
   * A successful run gives one polyline per segment, and polyline `k` is segment `k`
   * linearized and then scaled.
   */
  lemma {:induction false} PolylinesAt(t: Transform, segs: seq<Segment>, quantization: real, k: nat)
    requires Polylines(t, segs, quantization).Ok?
    ensures |Polylines(t, segs, quantization).value| == |segs|
    ensures k < |segs| ==>
      Linearized(segs[k], quantization).Ok? &&
      Polylines(t, segs, quantization).value[k] == ScaleAll(t, Linearized(segs[k], quantization).value)
  {
    if segs != [] {
      var n := |segs| - 1;
      PolylinesAt(t, segs[..n], quantization, if k < n then k else 0);
    }
  }

  /** A run fails on a prefix only if it fails, with the same error, on the whole. */
  lemma {:induction false} PolylinesErrExtends(t: Transform, a: seq<Segment>, b: seq<Segment>, quantization: real)
    requires Polylines(t, a, quantization).Err?
    ensures Polylines(t, a + b, quantization) == Polylines(t, a, quantization)
    decreases |b|
  {
    if b == [] {
      assert a + b == a;
    } else {
      var n := |b| - 1;
      assert (a + b)[..|a + b| - 1] == a + b[..n];
      PolylinesErrExtends(t, a, b[..n], quantization);
    }
  }

  /** A run succeeds exactly when every segment linearizes. */
  lemma {:induction false} PolylinesOkIff(t: Transform, segs: seq<Segment>, quantization: real)
    ensures Polylines(t, segs, quantization).Ok? <==>
      forall k :: 0 <= k < |segs| ==> Linearized(segs[k], quantization).Ok?
  {
    if segs != [] {
      var n := |segs| - 1;
      PolylinesOkIff(t, segs[..n], quantization);
      assert forall k :: 0 <= k < n ==> segs[..n][k] == segs[k];
    }
  }

  /**
   * A failed run reports the error of the first segment that cannot be linearized: every
   * segment before it linearizes.
   */
  lemma {:induction false} PolylinesFirstError(t: Transform, segs: seq<Segment>, quantization: real)
    requires Polylines(t, segs, quantization).Err?
    ensures exists k ::
      0 <= k < |segs| &&
      Linearized(segs[k], quantization) == Err(Polylines(t, segs, quantization).error) &&
      forall m :: 0 <= m < k ==> Linearized(segs[m], quantization).Ok?
  {
    var n := |segs| - 1;
    assert forall m :: 0 <= m < n ==> segs[..n][m] == segs[m];
    if Polylines(t, segs[..n], quantization).Err? {
      PolylinesFirstError(t, segs[..n], quantization);
      var k :| 0 <= k < n &&
        Linearized(segs[..n][k], quantization) == Err(Polylines(t, segs[..n], quantization).error) &&
        forall m :: 0 <= m < k ==> Linearized(segs[..n][m], quantization).Ok?;
      assert segs[..n][k] == segs[k];
    } else {
      PolylinesOkIff(t, segs[..n], quantization);
      assert Linearized(segs[n], quantization) == Err(Polylines(t, segs, quantization).error);
    }
  }

  /**
   * Reading succeeds exactly when the transform resolves and every segment linearizes; it then
   * gives one polyline per segment, in traversal order (path `i`, segment `j` at index
   * `SegmentCount(paths[..i]) + j`), each the segment's points scaled by the transform.
   */
  lemma ExtractPolylines(root: Root, paths: seq<seq<Segment>>, quantization: real, i: nat, j: nat)
    ensures Extract(root, paths, quantization).Ok? <==>
      ResolveTransform(root).Ok? &&
      forall k :: 0 <= k < |Flatten(paths)| ==> Linearized(Flatten(paths)[k], quantization).Ok?
    ensures Extract(root, paths, quantization).Ok? ==>
      |Extract(root, paths, quantization).value| == SegmentCount(paths)
    ensures Extract(root, paths, quantization).Ok? && i < |paths| && j < |paths[i]| ==>
      var k := SegmentCount(paths[..i]) + j;
      k < SegmentCount(paths) &&
      Linearized(paths[i][j], quantization).Ok? &&
      Extract(root, paths, quantization).value[k] ==
        ScaleAll(ResolveTransform(root).value, Linearized(paths[i][j], quantization).value)
  {
    FlattenCount(paths);
    if ResolveTransform(root).Ok? {
      var t := ResolveTransform(root).value;
      PolylinesOkIff(t, Flatten(paths), quantization);
      if Extract(root, paths, quantization).Ok? {
        if i < |paths| && j < |paths[i]| {
          FlattenAt(paths, i, j);
          PolylinesAt(t, Flatten(paths), quantization, SegmentCount(paths[..i]) + j);
        } else {
          PolylinesAt(t, Flatten(paths), quantization, 0);
        }
      }
    }
  }

  /**
   * A failed read reports either the transform's error or the error of the first segment, in
   * traversal order, that cannot be linearized.
   */
  lemma ExtractFirstError(root: Root, paths: seq<seq<Segment>>, quantization: real)
    requires Extract(root, paths, quantization).Err?
    ensures var e := Extract(root, paths, quantization).error;
      ResolveTransform(root) == Err(e) ||
      (ResolveTransform(root).Ok? &&
       exists k :: 0 <= k < |Flatten(paths)| &&
         Linearized(Flatten(paths)[k], quantization) == Err(e) &&
         forall m :: 0 <= m < k ==> Linearized(Flatten(paths)[m], quantization).Ok?)
  {
    if ResolveTransform(root).Ok? {
      var t := ResolveTransform(root).value;
      assert Extract(root, paths, quantization) == Polylines(t, Flatten(paths), quantization);
      PolylinesFirstError(t, Flatten(paths), quantization);
    }
  }

  /** Without a viewBox every output point is the raw point the linearization produced. */
  lemma {:induction false} NoViewBoxIsIdentity(root: Root, paths: seq<seq<Segment>>, quantization: real, k: nat)
    requires root.viewBox.None? && Extract(root, paths, quantization).Ok?
    requires k < |Extract(root, paths, quantization).value|
    ensures k < |Flatten(paths)| && Linearized(Flatten(paths)[k], quantization).Ok?
    ensures Extract(root, paths, quantization).value[k] == Linearized(Flatten(paths)[k], quantization).value
  {
    PolylinesAt(Identity, Flatten(paths), quantization, k);
    ScaleAllIdentity(Linearized(Flatten(paths)[k], quantization).value);
  }

  /** A document without segments reads as no polylines, provided its transform resolves. */
  lemma EmptyDocument(root: Root, paths: seq<seq<Segment>>, quantization: real)
    requires SegmentCount(paths) == 0
    ensures Extract(root, paths, quantization) ==
      if ResolveTransform(root).Ok? then Ok([]) else Err(ResolveTransform(root).error)
  {
  }

  /**
   * Reads the flattened paths of a document, as the source does: resolve the transform, then
   * walk the paths and, within each, its segments, appending one scaled polyline per segment;
   * the first failure aborts the read.
   */
  method Read(root: Root, paths: seq<seq<Segment>>, quantization: real) returns (r: Result<seq<seq<Point>>>)
    ensures r == Extract(root, paths, quantization)
  {
    var resolved := ResolveTransform(root);
    if resolved.Err? {
      return Err(resolved.error);
    }
    var t := resolved.value;
    var polylines: seq<seq<Point>> := [];
    for i := 0 to |paths|
      invariant Polylines(t, Flatten(paths[..i]), quantization) == Ok(polylines)
    {
      ghost var done := Flatten(paths[..i]);
      assert done + paths[i][..0] == done;
      for j := 0 to |paths[i]|
        invariant Polylines(t, done + paths[i][..j], quantization) == Ok(polylines)
      {
        var pts := Linearize(paths[i][j], quantization);
        ReadStep(t, paths, i, j, quantization, polylines);
        if pts.Err? {
          return Err(pts.error);
        }
        polylines := polylines + [ScaleAll(t, pts.value)];
      }
      assert paths[i][..|paths[i]|] == paths[i];
      FlattenNext(paths, i);
    }
    assert paths[..|paths|] == paths;
    r := Ok(polylines);
  }

  /** What has been walked when segment `j` of path `i` is reached is a prefix of the whole. */
  lemma PrefixOfFlatten(paths: seq<seq<Segment>>, i: nat, j: nat)
    requires i < |paths| && j <= |paths[i]|
    ensures Flatten(paths[..i]) + paths[i][..j] <= Flatten(paths)
  {
    FlattenSplit(paths, i);
    assert paths[i] == paths[i][..j] + paths[i][j..];
  }

  /** Linearizing one more segment extends a run by one polyline, or fails it. */
  lemma PolylinesSnoc(t: Transform, a: seq<Segment>, s: Segment, quantization: real)
    ensures var init, pts := Polylines(t, a, quantization), Linearized(s, quantization);
      Polylines(t, a + [s], quantization) ==
        if init.Err? then init
        else if pts.Err? then Err(pts.error)
        else Ok(init.value + [ScaleAll(t, pts.value)])
  {
  }

  /**
   * One step of the inner loop: segment `j` of path `i` either fails the whole read with its
   * error or extends the polylines built so far by its scaled points.
   */
  lemma ReadStep(t: Transform, paths: seq<seq<Segment>>, i: nat, j: nat, quantization: real,
                 polylines: seq<seq<Point>>)
    requires i < |paths| && j < |paths[i]|
    requires Polylines(t, Flatten(paths[..i]) + paths[i][..j], quantization) == Ok(polylines)
    ensures var pts := Linearized(paths[i][j], quantization);
      (pts.Err? ==> Polylines(t, Flatten(paths), quantization) == Err(pts.error)) &&
      (pts.Ok? ==> Polylines(t, Flatten(paths[..i]) + paths[i][..j + 1], quantization) ==
                   Ok(polylines + [ScaleAll(t, pts.value)]))
  {
    var done := Flatten(paths[..i]);
    assert done + paths[i][..j + 1] == (done + paths[i][..j]) + [paths[i][j]];
    PolylinesSnoc(t, done + paths[i][..j], paths[i][j], quantization);
    if Linearized(paths[i][j], quantization).Err? {
      AbortsAt(t, paths, i, j + 1, quantization);
    }
  }

  /** A run that fails on a prefix of the walk fails the whole walk with the same error. */
  lemma AbortsAt(t: Transform, paths: seq<seq<Segment>>, i: nat, j: nat, quantization: real)
    requires i < |paths| && j <= |paths[i]|
    requires Polylines(t, Flatten(paths[..i]) + paths[i][..j], quantization).Err?
    ensures Polylines(t, Flatten(paths), quantization) ==
      Polylines(t, Flatten(paths[..i]) + paths[i][..j], quantization)
  {
    var prefix := Flatten(paths[..i]) + paths[i][..j];
    PrefixOfFlatten(paths, i, j);
    assert prefix + Flatten(paths)[|prefix|..] == Flatten(paths);
    PolylinesErrExtends(t, prefix, Flatten(paths)[|prefix|..], quantization);
  }
}
