/** Resolution of the root element's `viewBox`, `width` and `height` into a `Transform`. */
module ViewBox {
  import opened Outcome
  import opened Geometry

  /**
   * The root attributes the reader consults: `width` and `height` already converted to
   * document units, and `viewBox` already split into numbers; `None` means the attribute
   * is absent.
   */
  datatype Root = Root(width: Option<real>, height: Option<real>, viewBox: Option<seq<real>>)

  /**
   * The transform of the document. Without a viewBox it is the identity; with one, the
   * attributes are read in the order the source reads them (width, height, then the
   * viewBox entries 2 and 0, dividing, then entries 3 and 1, dividing), and the first
   * failure is reported. Extra viewBox entries beyond four are ignored.
   */
  function ResolveTransform(root: Root): (r: Result<Transform>)
    ensures root.viewBox.None? ==> r == Ok(Identity)
    ensures r.Ok? <==>
      root.viewBox.None? ||
      (root.width.Some? && root.height.Some? && |root.viewBox.value| >= 4 &&
       root.viewBox.value[2] != root.viewBox.value[0] &&
       root.viewBox.value[3] != root.viewBox.value[1])
    ensures r.Ok? && root.viewBox.Some? ==>
      var vb := root.viewBox.value;
      r.value.scaleX * (vb[2] - vb[0]) == root.width.value &&
      r.value.scaleY * (vb[3] - vb[1]) == root.height.value &&
      r.value.offsetX == -vb[0] && r.value.offsetY == -vb[1]
    ensures r.Err? && root.width.None? ==> r.error == MissingAttribute("width")
    ensures r.Err? && root.width.Some? && root.height.None? ==> r.error == MissingAttribute("height")
  {
    match root.viewBox
    case None => Ok(Identity)
    case Some(vb) =>
      if root.width.None? then Err(MissingAttribute("width"))
      else if root.height.None? then Err(MissingAttribute("height"))
      else if |vb| < 3 then Err(IndexOutOfRange)
      else if vb[2] - vb[0] == 0.0 then Err(DivisionByZero)
      else if |vb| < 4 then Err(IndexOutOfRange)
      else if vb[3] - vb[1] == 0.0 then Err(DivisionByZero)
      else
        Ok(Transform(root.width.value / (vb[2] - vb[0]), root.height.value / (vb[3] - vb[1]),
                     -vb[0], -vb[1]))
  }

  /**
   * When width and height are present, a viewBox fails only through its own entries: too
   * few entries is an index error and a zero-width or zero-height box a division by zero.
   * The x axis is checked before entry 3 is looked at.
   */
  lemma ViewBoxErrors(root: Root)
    requires root.viewBox.Some? && root.width.Some? && root.height.Some?
    ensures var vb, r := root.viewBox.value, ResolveTransform(root);
      (|vb| < 3 ==> r == Err(IndexOutOfRange)) &&
      (|vb| >= 3 && vb[2] == vb[0] ==> r == Err(DivisionByZero)) &&
      (|vb| == 3 && vb[2] != vb[0] ==> r == Err(IndexOutOfRange)) &&
      (|vb| >= 4 && vb[2] != vb[0] && vb[3] == vb[1] ==> r == Err(DivisionByZero))
  {
  }

  /**
   * Each axis maps linearly from the viewBox to the document: x = vb[0] goes to 0 and
   * x = vb[2] goes to `width`, independently of y (and likewise for y with vb[1], vb[3]
   * and `height`).
   */
  lemma ViewBoxMapsLinearly(root: Root, p: Point)
    requires ResolveTransform(root).Ok? && root.viewBox.Some?
    ensures var vb, t := root.viewBox.value, ResolveTransform(root).value;
      Apply(t, p).x * (vb[2] - vb[0]) == root.width.value * (p.x - vb[0]) &&
      Apply(t, p).y * (vb[3] - vb[1]) == root.height.value * (p.y - vb[1])
  {
  }

  /** The viewBox origin `(vb[0], vb[1])` always lands on `(0, 0)`. */
  lemma ViewBoxOriginToZero(root: Root)
    requires ResolveTransform(root).Ok? && root.viewBox.Some?
    ensures var vb := root.viewBox.value;
      Apply(ResolveTransform(root).value, Point(vb[0], vb[1])) == Point(0.0, 0.0)
  {
  }

  /**
   * The corner `(vb[2], vb[3])` lands on `(width, height)`: the reader takes entries 2
   * and 3 as the far corner of the box, not as its width and height.
   */
  lemma ViewBoxFarCornerToSize(root: Root)
    requires ResolveTransform(root).Ok? && root.viewBox.Some?
    ensures var vb := root.viewBox.value;
      Apply(ResolveTransform(root).value, Point(vb[2], vb[3])) ==
        Point(root.width.value, root.height.value)
  {
  }

  /** width 100, height 50, viewBox "0 0 200 100": (200, 100) goes to (100, 50), (0, 0) stays. */
  lemma HalfScaleExample()
    ensures var root := Root(Some(100.0), Some(50.0), Some([0.0, 0.0, 200.0, 100.0]));
      ResolveTransform(root) == Ok(Transform(0.5, 0.5, 0.0, 0.0)) &&
      Apply(ResolveTransform(root).value, Point(200.0, 100.0)) == Point(100.0, 50.0) &&
      Apply(ResolveTransform(root).value, Point(0.0, 0.0)) == Point(0.0, 0.0)
  {
  }

  /** width 100, height 100, viewBox "10 10 100 100": (10, 10) goes to (0, 0). */
  lemma OffsetExample()
    ensures var root := Root(Some(100.0), Some(100.0), Some([10.0, 10.0, 100.0, 100.0]));
      ResolveTransform(root).Ok? &&
      Apply(ResolveTransform(root).value, Point(10.0, 10.0)) == Point(0.0, 0.0)
  {
  }
}
