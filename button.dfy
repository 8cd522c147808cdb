/** A button is a Material surface that rises when hovered and rises further
    when pressed. This module holds that state-to-elevation policy and what it
    means for the surface's tint and shadow; the surface applies it after its
    own state handling (see MaterialSurface.Material.OnStateChanged). */
module Button {
  import opened Graphics
  import opened States
  import ElevationOverlay
  import Shadow

  /** The elevation a button asks for in a given interaction state. */
  function ElevationForState(state: Option<MaterialState>): (r: real)
    ensures r == 12.0 || r == 1.0 || r == 0.0
    ensures r == 1.0 <==> state == Some(Hovered)
  {
    match state
    case Some(Pressed) => 12.0
    case Some(Hovered) => 1.0
    case _ => 0.0
  }

  /** A button rests flat, rises to 1 under the pointer and to 12 when pressed;
      no other state, Focused and None included, lifts it. */
  lemma ElevationLevels(state: Option<MaterialState>)
    ensures ElevationForState(state) > 0.0 <==> state == Some(Hovered) || state == Some(Pressed)
    ensures ElevationForState(state) == 12.0 <==> state == Some(Pressed)
    ensures 0.0 <= ElevationForState(state) <= ElevationForState(Some(Pressed))
  {
  }

  /** A pressed button's elevation is the top of the tint table: it takes the
      largest tint opacity, .14; a hovered one takes .05; a resting one none. */
  lemma TintForState(state: Option<MaterialState>)
    ensures state == Some(Pressed) ==> ElevationOverlay.Opacity(ElevationForState(state)) == 0.14
    ensures state == Some(Hovered) ==> ElevationOverlay.Opacity(ElevationForState(state)) == 0.05
    ensures state != Some(Pressed) && state != Some(Hovered) ==> ElevationOverlay.Opacity(ElevationForState(state)) == 0.0
  {
    var t := ElevationOverlay.SurfaceTintElevationOpacities;
    ElevationOverlay.TableWellFormed();
    match state
    case Some(Pressed) =>
      assert t[5] == ElevationOverlay.ElevationOpacity(12.0, 0.14);
      ElevationOverlay.CurveAt(t, 5);
    case Some(Hovered) =>
      assert t[1] == ElevationOverlay.ElevationOpacity(1.0, 0.05);
      ElevationOverlay.CurveAt(t, 1);
    case _ =>
      assert t[0] == ElevationOverlay.ElevationOpacity(0.0, 0.0);
      ElevationOverlay.CurveAt(t, 0);
  }

  /** At its target elevation a button casts a shadow exactly when it is
      hovered or pressed, and the pressed shadow is at least as blurred as the
      hovered one. */
  lemma ShadowForState(shape: Rect, state: Option<MaterialState>)
    requires shape.width >= 0.0 && shape.height >= 0.0
    ensures Shadow.ComputeShadow(shape, ElevationForState(state)).Some?
        <==> state == Some(Hovered) || state == Some(Pressed)
    ensures Shadow.BlurRadius(shape, ElevationForState(Some(Hovered)))
        <= Shadow.BlurRadius(shape, ElevationForState(Some(Pressed)))
  {
    Shadow.BlurRadiusMonotone(shape, 1.0, 12.0);
  }
}
