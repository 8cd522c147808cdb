/** Material "tonal elevation": how much of the surface-tint colour is blended
    into a surface's fill at a given elevation. The opacity is read off a fixed
    piecewise-linear table. */
module ElevationOverlay {
  import opened Graphics

  /** One breakpoint of the table. */
  datatype ElevationOpacity = ElevationOpacity(elevation: real, opacity: real)

  /** The breakpoints, ascending by elevation. */
  const SurfaceTintElevationOpacities: seq<ElevationOpacity> := [
    ElevationOpacity(0.0, 0.0),
    ElevationOpacity(1.0, 0.05),
    ElevationOpacity(3.0, 0.08),
    ElevationOpacity(6.0, 0.11),
    ElevationOpacity(8.0, 0.12),
    ElevationOpacity(12.0, 0.14)
  ]

  ghost predicate StrictlyAscending(t: seq<ElevationOpacity>)
  {
    forall i, j :: 0 <= i < j < |t| ==> t[i].elevation < t[j].elevation
  }

  ghost predicate OpacityNondecreasing(t: seq<ElevationOpacity>)
  {
    forall i, j :: 0 <= i < j < |t| ==> t[i].opacity <= t[j].opacity
  }

  /** The straight line through two breakpoints, evaluated at `e`. */
  function Lerp(lower: ElevationOpacity, upper: ElevationOpacity, e: real): (r: real)
    requires lower.elevation < upper.elevation
    ensures e == lower.elevation ==> r == lower.opacity
    ensures e == upper.elevation ==> r == upper.opacity
  {
    assert (upper.elevation - lower.elevation) / (upper.elevation - lower.elevation) == 1.0;
    assert 0.0 / (upper.elevation - lower.elevation) == 0.0;
    lower.opacity
      + (e - lower.elevation) / (upper.elevation - lower.elevation) * (upper.opacity - lower.opacity)
  }

  /** Reference definition: the polyline through the breakpoints of `t`,
      constant before the first one and after the last one. */
  function Curve(t: seq<ElevationOpacity>, e: real): real
    requires |t| > 0 && StrictlyAscending(t)
    decreases |t|
  {
    if |t| == 1 || e <= t[0].elevation then t[0].opacity
    else if e <= t[1].elevation then Lerp(t[0], t[1], e)
    else Curve(t[1..], e)
  }

  /** The surface-tint opacity the table prescribes for `elevation`. */
  function Opacity(elevation: real): (r: real)
    ensures 0.0 <= r <= 0.14
  {
    TableWellFormed();
    CurveWithin(SurfaceTintElevationOpacities, elevation);
    Curve(SurfaceTintElevationOpacities, elevation)
  }

  /** Maui.Material's table walk: clamp below the first entry, return an
      exact hit or the last entry, otherwise interpolate between the entries
      around `elevation`. */
  method SurfaceTintOpacityForElevation(elevation: real) returns (r: real)
    ensures r == Opacity(elevation)
  {
    var table := SurfaceTintElevationOpacities;
    TableWellFormed();
    if elevation < table[0].elevation {
      return table[0].opacity;
    }
    var index := 0;
    while elevation >= table[index].elevation
      invariant 0 <= index < |table|
      invariant index == 0 || table[index - 1].elevation < elevation
      decreases |table| - index
    {
      if elevation == table[index].elevation || index + 1 == |table| {
        if elevation == table[index].elevation {
          CurveAt(table, index);
        } else {
          CurveBeyond(table, elevation);
        }
        return table[index].opacity;
      }
      index := index + 1;
    }
    var lower := table[index - 1];
    var upper := table[index];
    var t := (elevation - lower.elevation) / (upper.elevation - lower.elevation);
    r := lower.opacity + t * (upper.opacity - lower.opacity);
    CurveBetween(table, index, elevation);
  }

  /** ApplySurfaceTint's result: the colour itself, or the colour blended
      towards the tint by the given opacity (the blend is done by a colour
      library that is not part of this model). */
  datatype Fill = Plain(color: Color) | Blended(base: Color, tint: Color, opacity: real)

  function ApplySurfaceTint(color: Color, surfaceTint: Option<Color>, elevation: real): (r: Fill)
    ensures surfaceTint.None? ==> r == Plain(color)
    ensures surfaceTint.Some? ==>
      && r.Blended? && r.base == color && r.tint == surfaceTint.value
      && r.opacity == Opacity(elevation) && 0.0 <= r.opacity <= 0.14
  {
    if surfaceTint.Some? then Blended(color, surfaceTint.value, Opacity(elevation)) else Plain(color)
  }

  // ---------------------------------------------------------------------------
  // Facts about the polyline of any strictly ascending table

  lemma TailAscending(t: seq<ElevationOpacity>)
    requires |t| > 0 && StrictlyAscending(t)
    ensures StrictlyAscending(t[1..])
  {
  }

  /** At a breakpoint the curve takes exactly that breakpoint's opacity. */
  lemma {:induction false} CurveAt(t: seq<ElevationOpacity>, k: nat)
    requires |t| > 0 && StrictlyAscending(t) && k < |t|
    ensures Curve(t, t[k].elevation) == t[k].opacity
    decreases k
  {
    if k > 1 {
      TailAscending(t);
      assert t[1..][k - 1] == t[k];
      CurveAt(t[1..], k - 1);
    }
  }

  /** Past the last breakpoint the curve stays at the last opacity. */
  lemma {:induction false} CurveBeyond(t: seq<ElevationOpacity>, e: real)
    requires |t| > 0 && StrictlyAscending(t) && e >= t[|t| - 1].elevation
    ensures Curve(t, e) == t[|t| - 1].opacity
    decreases |t|
  {
    if |t| > 1 && e > t[1].elevation {
      TailAscending(t);
      CurveBeyond(t[1..], e);
    } else if |t| > 1 {
      assert |t| == 2 && e == t[1].elevation;
      CurveAt(t, 1);
    }
  }

  /** Strictly above breakpoint k-1 and up to breakpoint k, the curve is the
      line through those two breakpoints. */
  lemma {:induction false} CurveBetween(t: seq<ElevationOpacity>, k: nat, e: real)
    requires |t| > 0 && StrictlyAscending(t)
    requires 1 <= k < |t| && t[k - 1].elevation < e <= t[k].elevation
    ensures Curve(t, e) == Lerp(t[k - 1], t[k], e)
    decreases k
  {
    if k > 1 {
      TailAscending(t);
      assert t[1..][k - 2] == t[k - 1] && t[1..][k - 1] == t[k];
      CurveBetween(t[1..], k - 1, e);
    }
  }

  /** On [lower, upper] the line stays between the two opacities. */
  lemma LerpWithin(lower: ElevationOpacity, upper: ElevationOpacity, e: real)
    requires lower.elevation < upper.elevation && lower.opacity <= upper.opacity
    requires lower.elevation <= e <= upper.elevation
    ensures lower.opacity <= Lerp(lower, upper, e) <= upper.opacity
  {
    var d := upper.elevation - lower.elevation;
    var s := (e - lower.elevation) / d;
    assert 0.0 <= s <= 1.0 by {
      assert s * d == e - lower.elevation;
    }
    Scaled(s, upper.opacity - lower.opacity);
  }

  /** A fraction in [0, 1] of a non-negative amount lies between 0 and that amount. */
  lemma Scaled(s: real, d: real)
    requires 0.0 <= s <= 1.0 && d >= 0.0
    ensures 0.0 <= s * d <= d
  {
    var rest := 1.0 - s;
    assert rest >= 0.0;
    ProductNonnegative(s, d);
    ProductNonnegative(rest, d);
    assert d - s * d == rest * d;
  }

  lemma ProductNonnegative(a: real, b: real)
    requires a >= 0.0 && b >= 0.0
    ensures a * b >= 0.0
  {
  }

  /** The line through two breakpoints with non-decreasing opacity rises with `e`. */
  lemma LerpMonotone(lower: ElevationOpacity, upper: ElevationOpacity, e1: real, e2: real)
    requires lower.elevation < upper.elevation && lower.opacity <= upper.opacity && e1 <= e2
    ensures Lerp(lower, upper, e1) <= Lerp(lower, upper, e2)
  {
    var d := upper.elevation - lower.elevation;
    var s1 := (e1 - lower.elevation) / d;
    var s2 := (e2 - lower.elevation) / d;
    assert s1 <= s2 by {
      assert s1 * d == e1 - lower.elevation && s2 * d == e2 - lower.elevation;
      assert (s2 - s1) * d == e2 - e1;
    }
    assert s1 * (upper.opacity - lower.opacity) <= s2 * (upper.opacity - lower.opacity);
  }

  /** The curve of a table with non-decreasing opacities lies between its
      first and last opacities. */
  lemma {:induction false} CurveWithin(t: seq<ElevationOpacity>, e: real)
    requires |t| > 0 && StrictlyAscending(t) && OpacityNondecreasing(t)
    ensures t[0].opacity <= Curve(t, e) <= t[|t| - 1].opacity
    decreases |t|
  {
    if |t| > 1 && e > t[0].elevation {
      if e <= t[1].elevation {
        LerpWithin(t[0], t[1], e);
      } else {
        TailAscending(t);
        CurveWithin(t[1..], e);
      }
    }
  }

  /** The curve of a table with non-decreasing opacities is non-decreasing. */
  lemma {:induction false} CurveMonotone(t: seq<ElevationOpacity>, e1: real, e2: real)
    requires |t| > 0 && StrictlyAscending(t) && OpacityNondecreasing(t) && e1 <= e2
    ensures Curve(t, e1) <= Curve(t, e2)
    decreases |t|
  {
    if |t| == 1 {
    } else if e1 <= t[0].elevation {
      CurveWithin(t, e2);
    } else if e1 <= t[1].elevation {
      if e2 <= t[1].elevation {
        LerpMonotone(t[0], t[1], e1, e2);
      } else {
        LerpWithin(t[0], t[1], e1);
        TailAscending(t);
        CurveWithin(t[1..], e2);
      }
    } else {
      TailAscending(t);
      CurveMonotone(t[1..], e1, e2);
    }
  }

  // ---------------------------------------------------------------------------
  // Maui.Material's table

  lemma TableWellFormed()
    ensures |SurfaceTintElevationOpacities| == 6
    ensures StrictlyAscending(SurfaceTintElevationOpacities)
    ensures OpacityNondecreasing(SurfaceTintElevationOpacities)
  {
  }

  /** Below the first breakpoint the opacity is clamped to the first entry's, 0. */
  lemma OpacityBelowFirst(elevation: real)
    requires elevation < 0.0
    ensures Opacity(elevation) == 0.0
  {
  }

  /** Each breakpoint's own opacity is returned at its elevation. */
  lemma OpacityAtBreakpoints()
    ensures Opacity(0.0) == 0.0 && Opacity(1.0) == 0.05 && Opacity(3.0) == 0.08
    ensures Opacity(6.0) == 0.11 && Opacity(8.0) == 0.12 && Opacity(12.0) == 0.14
  {
    var t := SurfaceTintElevationOpacities;
    TableWellFormed();
    CurveAt(t, 0); CurveAt(t, 1); CurveAt(t, 2);
    CurveAt(t, 3); CurveAt(t, 4); CurveAt(t, 5);
  }

  /** From the last breakpoint on, the opacity is the last entry's, .14. */
  lemma OpacityFromLast(elevation: real)
    requires elevation >= 12.0
    ensures Opacity(elevation) == 0.14
  {
    TableWellFormed();
    CurveBeyond(SurfaceTintElevationOpacities, elevation);
  }

  /** Strictly between two neighbouring breakpoints the opacity is
      `lower.Opacity + s * (upper.Opacity - lower.Opacity)` for a fraction
      s strictly between 0 and 1 that grows linearly with the elevation. */
  lemma OpacityBetween(k: nat, elevation: real)
    requires 1 <= k < |SurfaceTintElevationOpacities|
    requires SurfaceTintElevationOpacities[k - 1].elevation < elevation < SurfaceTintElevationOpacities[k].elevation
    ensures
      var lower, upper := SurfaceTintElevationOpacities[k - 1], SurfaceTintElevationOpacities[k];
      var s := (elevation - lower.elevation) / (upper.elevation - lower.elevation);
      0.0 < s < 1.0 && Opacity(elevation) == lower.opacity + s * (upper.opacity - lower.opacity)
  {
    var t := SurfaceTintElevationOpacities;
    TableWellFormed();
    var lower, upper := t[k - 1], t[k];
    CurveBetween(t, k, elevation);
    assert Opacity(elevation) == Lerp(lower, upper, elevation);
    FractionStrict(elevation - lower.elevation, upper.elevation - lower.elevation);
  }

  /** A part strictly inside (0, d) is a fraction of d strictly between 0 and 1. */
  lemma FractionStrict(x: real, d: real)
    requires 0.0 < x < d
    ensures 0.0 < x / d < 1.0
  {
    var rest := (d - x) / d;
    assert rest > 0.0;
    assert x / d + rest == d / d == 1.0;
  }

  /** Half-way between elevations 1 and 3 the opacity is half-way between .05 and .08. */
  lemma OpacityAtTwo()
    ensures Opacity(2.0) == 0.065
  {
    TableWellFormed();
    CurveBetween(SurfaceTintElevationOpacities, 2, 2.0);
  }

  /** The opacity never decreases as the elevation rises. */
  lemma OpacityMonotone(e1: real, e2: real)
    requires e1 <= e2
    ensures Opacity(e1) <= Opacity(e2)
  {
    TableWellFormed();
    CurveMonotone(SurfaceTintElevationOpacities, e1, e2);
  }
}
