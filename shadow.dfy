/** Shadow geometry: a point light above the surface's plane turns an
    elevation into a blur radius and an offset for the drop shadow. */
module Shadow {
  import opened Graphics

  const KLightHeight: real := 600.0
  const KLightRadius: real := 800.0
  const KLightOffsetX: real := -200.0
  const KLightOffsetY: real := -400.0

  /** What the background layer needs to draw a drop shadow. */
  datatype SurfaceShadowData = SurfaceShadowData(blurRadius: real, offset: Size)

  /** The shadow moves away from the light as the surface rises. */
  function ComputeShadowOffset(elevation: real): (d: Size)
    ensures d == Size(elevation / 3.0, 2.0 * elevation / 3.0)
  {
    if elevation == 0.0 then ZeroSize
    else Size(-KLightOffsetX * elevation / KLightHeight, -KLightOffsetY * elevation / KLightHeight)
  }

  /** Tangent of the penumbra along an axis whose extent is `extent`. */
  function PenumbraTangent(extent: real): (r: real)
    ensures r == 4.0 / 3.0 + extent / 1200.0
  {
    (KLightRadius + extent * 0.5) / KLightHeight
  }

  /** The box the penumbra covers: the shape grown by elevation * tangent on
      each side and moved by the shadow offset. */
  function ComputePenumbraBounds(shape: Rect, elevation: real): (r: Rect)
    ensures elevation == 0.0 ==> r == shape
    ensures elevation != 0.0 ==>
      var tx, ty := PenumbraTangent(shape.width), PenumbraTangent(shape.height);
      && r.width == shape.width + 2.0 * elevation * tx
      && r.height == shape.height + 2.0 * elevation * ty
      && r.Left() == shape.Left() - elevation * tx + elevation / 3.0
      && r.Top() == shape.Top() - elevation * ty + 2.0 * elevation / 3.0
  {
    if elevation == 0.0 then shape
    else
      var tx := PenumbraTangent(shape.width);
      var ty := PenumbraTangent(shape.height);
      var dx := elevation * tx;
      var dy := elevation * ty;
      var offset := ComputeShadowOffset(elevation);
      var result := FromLTRB(shape.Left() - dx, shape.Top() - dy, shape.Right() + dx, shape.Bottom() + dy);
      Offset(result, offset)
  }

  function Min(a: real, b: real): real { if a <= b then a else b }

  /** One blur radius for a penumbra that differs per axis: the smaller one. */
  function BlurRadius(shape: Rect, elevation: real): (r: real)
    ensures r <= elevation * PenumbraTangent(shape.width)
    ensures r <= elevation * PenumbraTangent(shape.height)
    ensures r == elevation * PenumbraTangent(shape.width) || r == elevation * PenumbraTangent(shape.height)
  {
    Min(elevation * PenumbraTangent(shape.width), elevation * PenumbraTangent(shape.height))
  }

  /** No shadow at all at elevation 0; otherwise the blur radius and offset. */
  function ComputeShadow(shape: Rect, elevation: real): (r: Option<SurfaceShadowData>)
    ensures r.None? <==> elevation == 0.0
    ensures r.Some? ==>
      r.value.blurRadius == BlurRadius(shape, elevation) && r.value.offset == ComputeShadowOffset(elevation)
  {
    if elevation == 0.0 then None
    else Some(SurfaceShadowData(BlurRadius(shape, elevation), ComputeShadowOffset(elevation)))
  }

  /** The shadow colour keeps the channels and takes 30% of the alpha. */
  function ToShadowColor(color: Color): (r: Color)
    ensures r.red == color.red && r.green == color.green && r.blue == color.blue
    ensures r.alpha == color.alpha * 0.3
    ensures color.alpha >= 0.0 ==> 0.0 <= r.alpha <= color.alpha
    ensures r.alpha == 0.0 <==> color.alpha == 0.0
  {
    color.WithAlpha(color.alpha * 0.3)
  }

  // ---------------------------------------------------------------------------

  /** A shape of non-negative size has tangents of at least 4/3. */
  lemma TangentAtLeast(extent: real)
    requires extent >= 0.0
    ensures PenumbraTangent(extent) >= 4.0 / 3.0
  {
  }

  /** For a non-negative elevation the offset points right and down and grows
      with the elevation; at elevation 0 it is zero. */
  lemma OffsetMonotone(e1: real, e2: real)
    requires 0.0 <= e1 <= e2
    ensures ComputeShadowOffset(0.0) == ZeroSize
    ensures 0.0 <= ComputeShadowOffset(e1).width <= ComputeShadowOffset(e2).width
    ensures 0.0 <= ComputeShadowOffset(e1).height <= ComputeShadowOffset(e2).height
  {
  }

  /** For a shape of non-negative size, the blur radius is non-negative and
      grows with the elevation. */
  lemma BlurRadiusMonotone(shape: Rect, e1: real, e2: real)
    requires shape.width >= 0.0 && shape.height >= 0.0 && 0.0 <= e1 <= e2
    ensures 0.0 <= BlurRadius(shape, e1) <= BlurRadius(shape, e2)
  {
    var tx, ty := PenumbraTangent(shape.width), PenumbraTangent(shape.height);
    TangentAtLeast(shape.width);
    TangentAtLeast(shape.height);
    assert e1 * tx <= e2 * tx by { assert (e2 - e1) * tx >= 0.0; }
    assert e1 * ty <= e2 * ty by { assert (e2 - e1) * ty >= 0.0; }
    assert 0.0 <= e1 * tx && 0.0 <= e1 * ty;
  }

  /** For a non-negative elevation the blur follows the shorter side of the shape. */
  lemma BlurFollowsShorterSide(shape: Rect, elevation: real)
    requires elevation >= 0.0
    ensures shape.width <= shape.height ==> BlurRadius(shape, elevation) == elevation * PenumbraTangent(shape.width)
    ensures shape.height <= shape.width ==> BlurRadius(shape, elevation) == elevation * PenumbraTangent(shape.height)
  {
    var tx, ty := PenumbraTangent(shape.width), PenumbraTangent(shape.height);
    if shape.width <= shape.height {
      assert tx <= ty;
      assert elevation * tx <= elevation * ty by { assert elevation * (ty - tx) >= 0.0; }
    } else {
      assert ty <= tx;
      assert elevation * ty <= elevation * tx by { assert elevation * (tx - ty) >= 0.0; }
    }
  }

  /** A shadow exists exactly off elevation 0, and for a positive elevation
      over a shape of non-negative size its blur and offset are positive. */
  lemma ShadowPositive(shape: Rect, elevation: real)
    requires shape.width >= 0.0 && shape.height >= 0.0 && elevation > 0.0
    ensures ComputeShadow(shape, elevation).Some?
    ensures ComputeShadow(shape, elevation).value.blurRadius > 0.0
    ensures ComputeShadow(shape, elevation).value.offset.width > 0.0
    ensures ComputeShadow(shape, elevation).value.offset.height > 0.0
  {
    TangentAtLeast(shape.width);
    TangentAtLeast(shape.height);
    var tx, ty := PenumbraTangent(shape.width), PenumbraTangent(shape.height);
    assert elevation * tx > 0.0 && elevation * ty > 0.0;
  }

  /** The penumbra box of a positive elevation encloses the shape moved by the offset. */
  lemma PenumbraEnclosesShape(shape: Rect, elevation: real)
    requires shape.width >= 0.0 && shape.height >= 0.0 && elevation > 0.0
    ensures
      var r, moved := ComputePenumbraBounds(shape, elevation), Offset(shape, ComputeShadowOffset(elevation));
      r.Left() < moved.Left() && moved.Right() < r.Right() && r.Top() < moved.Top() && moved.Bottom() < r.Bottom()
  {
    TangentAtLeast(shape.width);
    TangentAtLeast(shape.height);
    var tx, ty := PenumbraTangent(shape.width), PenumbraTangent(shape.height);
    assert elevation * tx > 0.0 && elevation * ty > 0.0;
  }
}
