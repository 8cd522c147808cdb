/** The animated Material surface: an interaction state machine fed by the
    host's hover and touch events, the ripple and state-layer bookkeeping it
    drives, and the decisions of its two drawing layers (background: shadow
    and tinted fill; overlay: state layer and ripple). */
module MaterialSurface {
  import opened Graphics
  import opened States
  import opened Animation
  import ElevationOverlay
  import Shadow
  import Button

  /** Which `OnStateChanged` runs: the surface's own, or Button's override on top of it. */
  datatype SurfaceKind = PlainSurface | ButtonSurface

  /** The calls a state change makes, in the order it makes them. */
  datatype HostCall =
    | AbortRippleOut                      // stop the "rippleOut" run
    | ResetRippleOut                      // ripple-out progress back to 0
    | StartRippleIn                       // start a "rippleIn" run
    | StartRippleOut                      // start a "rippleOut" run
    | RetargetOverlayOpacity(opacity: real)
    | RetargetElevation(elevation: real)

  /** The state-layer opacity for a state. */
  function StateOverlayOpacity(state: Option<MaterialState>): (r: real)
    ensures r == 0.12 || r == 0.08 || r == 0.0
    ensures r == 0.12 <==> state == Some(Pressed) || state == Some(Focused)
    ensures r == 0.08 <==> state == Some(Hovered)
  {
    match state
    case Some(Pressed) => 0.12
    case Some(Focused) => 0.12
    case Some(Hovered) => 0.08
    case _ => 0.0
  }

  /** The state layer shows exactly in the Hovered, Focused and Pressed
      states, never above .12, and a press shows it at least as strongly as a hover. */
  lemma StateOverlayLevels(state: Option<MaterialState>)
    ensures StateOverlayOpacity(state) > 0.0
        <==> state == Some(Hovered) || state == Some(Focused) || state == Some(Pressed)
    ensures 0.0 <= StateOverlayOpacity(state) <= StateOverlayOpacity(Some(Pressed)) == 0.12
    ensures StateOverlayOpacity(Some(Hovered)) < StateOverlayOpacity(Some(Pressed))
  {
  }

  /** The calls of the surface's own `OnStateChanged`. */
  function BaseStateChangeCalls(previous: Option<MaterialState>, current: Option<MaterialState>): seq<HostCall>
  {
    (if current == Some(Pressed) then [AbortRippleOut, ResetRippleOut, StartRippleIn]
     else if previous == Some(Pressed) then [StartRippleOut]
     else [])
    + [RetargetOverlayOpacity(StateOverlayOpacity(current))]
  }

  /** The calls of the `OnStateChanged` that runs for a surface of `kind`. */
  function StateChangeCalls(kind: SurfaceKind, previous: Option<MaterialState>, current: Option<MaterialState>): seq<HostCall>
  {
    BaseStateChangeCalls(previous, current)
    + (if kind == ButtonSurface then [RetargetElevation(Button.ElevationForState(current))] else [])
  }

  /** Ripple runs start on entering Pressed (ripple-in) and on leaving it
      (ripple-out); entering Pressed aborts ripple-out and zeroes its progress
      before ripple-in starts. */
  lemma {:induction false} StateChangeRipples(kind: SurfaceKind, previous: Option<MaterialState>, current: Option<MaterialState>)
    ensures StartRippleIn in StateChangeCalls(kind, previous, current) <==> current == Some(Pressed)
    ensures ResetRippleOut in StateChangeCalls(kind, previous, current) <==> current == Some(Pressed)
    ensures StartRippleOut in StateChangeCalls(kind, previous, current)
        <==> previous == Some(Pressed) && current != Some(Pressed)
    ensures var c := StateChangeCalls(kind, previous, current);
      forall i, j ::
        (0 <= i < |c| && 0 <= j < |c| && c[j] == StartRippleIn && (c[i] == AbortRippleOut || c[i] == ResetRippleOut))
        ==> i < j
  {
    var c := StateChangeCalls(kind, previous, current);
    var tail := [RetargetOverlayOpacity(StateOverlayOpacity(current))]
      + (if kind == ButtonSurface then [RetargetElevation(Button.ElevationForState(current))] else []);
    assert StartRippleIn !in tail && ResetRippleOut !in tail && StartRippleOut !in tail && AbortRippleOut !in tail;
    if current == Some(Pressed) {
      assert c == [AbortRippleOut, ResetRippleOut, StartRippleIn] + tail;
    } else if previous == Some(Pressed) {
      assert c == [StartRippleOut] + tail;
    } else {
      assert c == tail;
    }
  }

  /** Every state change retargets the state-layer opacity exactly once, after
      the ripple calls; a button then retargets its elevation as the very last
      call, and only a button does. */
  lemma {:induction false} StateChangeRetargets(kind: SurfaceKind, previous: Option<MaterialState>, current: Option<MaterialState>)
    ensures var c := StateChangeCalls(kind, previous, current);
      && (forall i :: 0 <= i < |c| && c[i].RetargetOverlayOpacity? ==>
            c[i].opacity == StateOverlayOpacity(current)
            && forall j :: i < j < |c| ==> c[j].RetargetElevation?)
      && (exists i :: 0 <= i < |c| && c[i].RetargetOverlayOpacity?)
      && (forall i :: 0 <= i < |c| && c[i].RetargetElevation? ==>
            kind == ButtonSurface && i == |c| - 1 && c[i].elevation == Button.ElevationForState(current))
      && (kind == ButtonSurface ==> c[|c| - 1] == RetargetElevation(Button.ElevationForState(current)))
  {
    var c := StateChangeCalls(kind, previous, current);
    var ripple := if current == Some(Pressed) then [AbortRippleOut, ResetRippleOut, StartRippleIn]
      else if previous == Some(Pressed) then [StartRippleOut] else [];
    var k := |ripple|;
    assert c[k] == RetargetOverlayOpacity(StateOverlayOpacity(current));
    assert forall i :: 0 <= i < k ==> c[i] == ripple[i];
    assert forall i :: 0 <= i < k ==> !ripple[i].RetargetOverlayOpacity? && !ripple[i].RetargetElevation?;
    if kind == ButtonSurface {
      assert |c| == k + 2 && c[k + 1] == RetargetElevation(Button.ElevationForState(current));
    } else {
      assert |c| == k + 1;
    }
  }

  /** The drop shadow the background layer asks for. */
  datatype ShadowPaint = ShadowPaint(offset: Size, blurRadius: real, color: Color)

  /** What the background layer fills: the shape, an optional drop shadow
      under it, and the (possibly tinted) fill. */
  datatype BackgroundPaint = BackgroundPaint(shadow: Option<ShadowPaint>, fill: ElevationOverlay.Fill, bounds: Rect)

  /** The background layer's decisions for the given colours, elevation and bounds. */
  function BackgroundFor(color: Color, shadowColor: Color, surfaceTint: Option<Color>, elevation: real, bounds: Rect)
    : (r: Option<BackgroundPaint>)
    ensures r.None? <==> color.alpha == 0.0
    ensures r.Some? ==>
      && r.value.bounds == bounds
      && r.value.fill == ElevationOverlay.ApplySurfaceTint(color, surfaceTint, elevation)
      && (r.value.shadow.Some? <==> elevation > 0.0 && shadowColor.alpha != 0.0)
    ensures r.Some? && r.value.shadow.Some? ==>
      && Shadow.ComputeShadow(bounds, elevation).Some?
      && r.value.shadow.value.offset == Shadow.ComputeShadowOffset(elevation)
      && r.value.shadow.value.blurRadius == Shadow.BlurRadius(bounds, elevation)
      && r.value.shadow.value.color == Shadow.ToShadowColor(shadowColor)
  {
    if color.alpha == 0.0 then None
    else
      var shadow :=
        if elevation > 0.0 && shadowColor.alpha != 0.0 then
          var data := Shadow.ComputeShadow(bounds, elevation).value;
          Some(ShadowPaint(data.offset, data.blurRadius, Shadow.ToShadowColor(shadowColor)))
        else None;
      Some(BackgroundPaint(shadow, ElevationOverlay.ApplySurfaceTint(color, surfaceTint, elevation), bounds))
  }

  /** One stop of a radial gradient. */
  datatype GradientStop = GradientStop(offset: real, color: Color)

  /** The ripple: a radial gradient in coordinates relative to the bounds. */
  datatype RipplePaint = RipplePaint(center: Point, radius: real, inner: GradientStop, outer: GradientStop)

  /** What the overlay layer fills: the state layer, then the ripple if one shows. */
  datatype OverlayPaint = OverlayPaint(stateLayer: Color, ripple: Option<RipplePaint>)

  /** The ripple's centre: the touch point in relative coordinates, moved
      towards the middle (.5, .5) by the fraction `eased`. */
  function RippleCentre(touch: Point, bounds: Rect, eased: real): (c: Point)
    requires bounds.width > 0.0 && bounds.height > 0.0
    ensures c.x - 0.5 == (1.0 - eased) * (touch.x / bounds.width - 0.5)
    ensures c.y - 0.5 == (1.0 - eased) * (touch.y / bounds.height - 0.5)
  {
    var x := touch.x / bounds.width;
    var y := touch.y / bounds.height;
    Point(x + (0.5 - x) * eased, y + (0.5 - y) * eased)
  }

  /** The ripple starts at the touch point, ends in the middle, and in between
      stays inside the bounds when the touch was inside them. */
  lemma RippleCentreTravels(touch: Point, bounds: Rect, eased: real)
    requires bounds.width > 0.0 && bounds.height > 0.0
    requires 0.0 <= touch.x <= bounds.width && 0.0 <= touch.y <= bounds.height
    requires 0.0 <= eased <= 1.0
    ensures eased == 0.0 ==> RippleCentre(touch, bounds, eased) == Point(touch.x / bounds.width, touch.y / bounds.height)
    ensures eased == 1.0 ==> RippleCentre(touch, bounds, eased) == Point(0.5, 0.5)
    ensures var c := RippleCentre(touch, bounds, eased); 0.0 <= c.x <= 1.0 && 0.0 <= c.y <= 1.0
  {
    var x := touch.x / bounds.width;
    var y := touch.y / bounds.height;
    assert 0.0 <= x <= 1.0 by { assert x * bounds.width == touch.x; }
    assert 0.0 <= y <= 1.0 by { assert y * bounds.height == touch.y; }
    var c := RippleCentre(touch, bounds, eased);
    var keep, dx, dy := 1.0 - eased, x - 0.5, y - 0.5;
    assert -0.5 <= dx <= 0.5 && -0.5 <= dy <= 0.5;
    assert c.x == 0.5 + keep * dx && c.y == 0.5 + keep * dy;
    Shrink(keep, dx);
    Shrink(keep, dy);
  }

  /** Scaling by a fraction in [0, 1] moves a number towards 0 and never past it. */
  lemma Shrink(s: real, d: real)
    requires 0.0 <= s <= 1.0
    ensures d >= 0.0 ==> 0.0 <= s * d <= d
    ensures d <= 0.0 ==> d <= s * d <= 0.0
  {
    var rest := 1.0 - s;
    assert d - s * d == rest * d;
    if d >= 0.0 {
      assert rest * d >= 0.0;
    } else {
      var m := -d;
      assert s * m >= 0.0 && rest * m >= 0.0;
      assert s * d == -(s * m) && rest * d == -(rest * m);
    }
  }

  /** The overlay layer's decisions: the state layer at the given opacity, and
      a ripple only while ripple-in has begun and ripple-out has not finished,
      whose inner stop fades from .12 to 0 as ripple-out advances. */
  function OverlayFor(stateLayerColor: Color, opacity: real, touch: Point, bounds: Rect,
                      progressIn: real, progressOut: real, eased: real): (r: OverlayPaint)
    requires progressIn != 0.0 && progressOut != 1.0 ==> bounds.width > 0.0 && bounds.height > 0.0
    ensures r.stateLayer == stateLayerColor.WithAlpha(opacity)
    ensures r.ripple.Some? <==> progressIn != 0.0 && progressOut != 1.0
    ensures r.ripple.Some? ==>
      && r.ripple.value.center == RippleCentre(touch, bounds, eased)
      && r.ripple.value.radius == eased
      && r.ripple.value.inner.offset == 0.5 && r.ripple.value.outer == GradientStop(1.0, stateLayerColor.WithAlpha(0.0))
      && r.ripple.value.inner.color == stateLayerColor.WithAlpha((1.0 - progressOut) * 0.12)
      && (0.0 <= progressOut <= 1.0 ==> 0.0 <= r.ripple.value.inner.color.alpha <= 0.12)
  {
    var stateLayer := stateLayerColor.WithAlpha(opacity);
    if progressIn == 0.0 || progressOut == 1.0 then OverlayPaint(stateLayer, None)
    else
      var ripple := RipplePaint(
        RippleCentre(touch, bounds, eased),
        eased * 1.0,
        GradientStop(0.5, stateLayerColor.WithAlpha((1.0 - progressOut) * 0.12)),
        GradientStop(1.0, stateLayerColor.WithAlpha(0.0)));
      OverlayPaint(stateLayer, Some(ripple))
  }

  /** The bounds the background is drawn in: the view's rectangle inset by 40 on every side. */
  function BackgroundBounds(dirtyRect: Rect): (r: Rect)
    ensures r.Left() == dirtyRect.Left() + 40.0 && r.Right() == dirtyRect.Right() - 40.0
    ensures r.Top() == dirtyRect.Top() + 40.0 && r.Bottom() == dirtyRect.Bottom() - 40.0
  {
    Inflate(dirtyRect, -40.0, -40.0)
  }

  class Material {
    const kind: SurfaceKind
    /** Built for a touch-only platform (Android, iOS): no hover after a release. */
    const touchPlatform: bool
    const elevation: Animated
    const stateOverlayOpacity: Animated

    var state: Option<MaterialState>
    var interactable: bool
    var touchPoint: Point
    var rippleProgressIn: real
    var rippleProgressOut: real
    /** A "rippleIn" / "rippleOut" run is in flight. */
    var rippleInRunning: bool
    var rippleOutRunning: bool
    /** How many touch views have been created, and how often OnClick fired. */
    var touchViewsCreated: nat
    var clicks: nat
    /** How often the ripple runs invalidated the overlay layer. */
    var overlayInvalidations: nat
    /** The ripple and retarget calls made by state changes, in order. */
    ghost var calls: seq<HostCall>

    ghost predicate Valid()
      reads this, elevation, stateOverlayOpacity
    {
      && elevation != stateOverlayOpacity
      && elevation.Valid() && stateOverlayOpacity.Valid()
      && 0.0 <= rippleProgressIn <= 1.0 && 0.0 <= rippleProgressOut <= 1.0
    }

    constructor (kind: SurfaceKind, touchPlatform: bool)
      ensures Valid() && fresh(elevation) && fresh(stateOverlayOpacity)
      ensures this.kind == kind && this.touchPlatform == touchPlatform
      ensures state == None && !interactable && touchPoint == Point(0.0, 0.0)
      ensures rippleProgressIn == 0.0 && rippleProgressOut == 0.0 && !rippleInRunning && !rippleOutRunning
      ensures touchViewsCreated == 0 && clicks == 0 && overlayInvalidations == 0 && calls == []
      ensures elevation.current == 0.0 && !elevation.hasBeenUsed && elevation.driver == None
      ensures elevation.runsStarted == 0 && elevation.length == 180
      ensures stateOverlayOpacity.current == 0.0 && !stateOverlayOpacity.hasBeenUsed
      ensures stateOverlayOpacity.driver == None && stateOverlayOpacity.runsStarted == 0
      ensures stateOverlayOpacity.length == 180
    {
      this.kind := kind;
      this.touchPlatform := touchPlatform;
      elevation := new Animated("elevation", 0.0, 0.0, 0.0, 180);
      stateOverlayOpacity := new Animated("stateOverlayOpacity", 0.0, 0.0, 0.0, 180);
      state := None;
      interactable := false;
      touchPoint := Point(0.0, 0.0);
      rippleProgressIn := 0.0;
      rippleProgressOut := 0.0;
      rippleInRunning := false;
      rippleOutRunning := false;
      touchViewsCreated := 0;
      clicks := 0;
      overlayInvalidations := 0;
      calls := [];
    }

    /** The `Elevation` getter: reads, and so activates, the elevation tween. */
    method GetElevation() returns (v: real)
      requires Valid()
      modifies elevation`hasBeenUsed
      ensures Valid() && elevation.hasBeenUsed && v == elevation.current
    {
      v := elevation.GetCurrent();
    }

    /** The `Elevation` setter: retargets the elevation tween. */
    method SetElevation(value: real)
      requires Valid()
      modifies elevation
      ensures Valid() && elevation.Retargeted(value)
    {
      elevation.SetTarget(value);
    }

    /** Button's `ElevationProperty` change callback: forwards the new value to `Elevation`. */
    method ElevationPropertyChanged(value: real)
      requires Valid()
      modifies elevation
      ensures Valid() && elevation.Retargeted(value)
    {
      SetElevation(value);
    }

    /** The `Interactable` setter: a no-op for the current value; switching it
        on creates a new touch view, switching it off detaches the views. */
    method SetInteractable(value: bool)
      requires Valid()
      modifies this`interactable, this`touchViewsCreated
      ensures Valid() && interactable == value
      ensures touchViewsCreated == old(touchViewsCreated) + (if value && !old(interactable) then 1 else 0)
    {
      if interactable == value {
        return;
      }
      interactable := value;
      if interactable {
        touchViewsCreated := touchViewsCreated + 1;
      }
    }

    /** The ripple and retarget effects of the surface's own `OnStateChanged`. */
    twostate predicate BaseStateChanged(previous: Option<MaterialState>)
      reads this, stateOverlayOpacity
    {
      && calls == old(calls) + BaseStateChangeCalls(previous, state)
      && rippleProgressIn == old(rippleProgressIn)
      && (if state == Some(Pressed) then
            !rippleOutRunning && rippleInRunning && rippleProgressOut == 0.0
          else
            && rippleInRunning == old(rippleInRunning)
            && rippleProgressOut == old(rippleProgressOut)
            && rippleOutRunning == (old(rippleOutRunning) || previous == Some(Pressed)))
      && stateOverlayOpacity.Retargeted(StateOverlayOpacity(state))
    }

    /** The effects of the `OnStateChanged` that runs for this surface's kind. */
    twostate predicate StateChanged(previous: Option<MaterialState>)
      reads this, elevation, stateOverlayOpacity
    {
      && calls == old(calls) + StateChangeCalls(kind, previous, state)
      && rippleProgressIn == old(rippleProgressIn)
      && (if state == Some(Pressed) then
            !rippleOutRunning && rippleInRunning && rippleProgressOut == 0.0
          else
            && rippleInRunning == old(rippleInRunning)
            && rippleProgressOut == old(rippleProgressOut)
            && rippleOutRunning == (old(rippleOutRunning) || previous == Some(Pressed)))
      && stateOverlayOpacity.Retargeted(StateOverlayOpacity(state))
      && if kind == ButtonSurface then elevation.Retargeted(Button.ElevationForState(state))
         else unchanged(elevation)
    }

    /** The surface's own `OnStateChanged`: ripple bookkeeping, then the
        state-layer opacity target. */
    method MaterialOnStateChanged(previous: Option<MaterialState>)
      requires Valid()
      modifies this`rippleProgressOut, this`rippleInRunning, this`rippleOutRunning, this`calls, stateOverlayOpacity
      ensures Valid() && BaseStateChanged(previous)
    {
      if state == Some(Pressed) {
        rippleOutRunning := false;
        calls := calls + [AbortRippleOut];
        rippleProgressOut := 0.0;
        calls := calls + [ResetRippleOut];
        rippleInRunning := true;
        calls := calls + [StartRippleIn];
      } else if previous == Some(Pressed) {
        rippleOutRunning := true;
        calls := calls + [StartRippleOut];
      }
      var opacity := StateOverlayOpacity(state);
      stateOverlayOpacity.SetTarget(opacity);
      calls := calls + [RetargetOverlayOpacity(opacity)];
    }

    /** `OnStateChanged` as dispatched: the surface's own, and for a button
        then the elevation its new state asks for. */
    method OnStateChanged(previous: Option<MaterialState>)
      requires Valid()
      modifies this`rippleProgressOut, this`rippleInRunning, this`rippleOutRunning, this`calls
      modifies elevation, stateOverlayOpacity
      ensures Valid() && StateChanged(previous)
    {
      MaterialOnStateChanged(previous);
      if kind == ButtonSurface {
        var e := Button.ElevationForState(state);
        elevation.SetTarget(e);
        calls := calls + [RetargetElevation(e)];
      }
    }

    /** The `State` setter: store the new state, then run `OnStateChanged`
        with the previous one. */
    method SetState(value: Option<MaterialState>)
      requires Valid()
      modifies this`state, this`rippleProgressOut, this`rippleInRunning, this`rippleOutRunning, this`calls
      modifies elevation, stateOverlayOpacity
      ensures Valid() && state == value && StateChanged(old(state))
    {
      var previous := state;
      state := value;
      OnStateChanged(previous);
    }

    /** The pointer started hovering over the surface. */
    method StartHoverInteraction()
      requires Valid() && interactable
      modifies this`state, this`rippleProgressOut, this`rippleInRunning, this`rippleOutRunning, this`calls
      modifies elevation, stateOverlayOpacity
      ensures Valid() && state == Some(Hovered) && StateChanged(old(state))
    {
      SetState(Some(Hovered));
    }

    /** The pointer left the surface. */
    method EndHoverInteraction()
      requires Valid() && interactable
      modifies this`state, this`rippleProgressOut, this`rippleInRunning, this`rippleOutRunning, this`calls
      modifies elevation, stateOverlayOpacity
      ensures Valid() && state == None && StateChanged(old(state))
    {
      SetState(None);
    }

    /** A press began: remember the last touch point and enter Pressed. */
    method StartInteraction(touches: seq<Point>)
      requires Valid() && interactable && |touches| > 0
      modifies this`touchPoint, this`state, this`rippleProgressOut, this`rippleInRunning, this`rippleOutRunning, this`calls
      modifies elevation, stateOverlayOpacity
      ensures Valid() && touchPoint == touches[|touches| - 1]
      ensures state == Some(Pressed) && StateChanged(old(state))
    {
      touchPoint := touches[|touches| - 1];
      SetState(Some(Pressed));
    }

    /** The state a release leaves the surface in. */
    function ReleasedState(isInsideBounds: bool): (r: Option<MaterialState>)
      reads this
      ensures r == None || r == Some(Hovered)
      ensures r == Some(Hovered) <==> !touchPlatform && isInsideBounds
    {
      if touchPlatform then None
      else if isInsideBounds then Some(Hovered)
      else None
    }

    /** A press ended: a click when it ends inside the surface after a press,
        then the state a release leaves. */
    method EndInteraction(isInsideBounds: bool)
      requires Valid() && interactable
      modifies this`clicks, this`state, this`rippleProgressOut, this`rippleInRunning, this`rippleOutRunning, this`calls
      modifies elevation, stateOverlayOpacity
      ensures Valid()
      ensures clicks == old(clicks) + (if isInsideBounds && old(state) == Some(Pressed) then 1 else 0)
      ensures state == ReleasedState(isInsideBounds) && StateChanged(old(state))
    {
      if isInsideBounds && state == Some(Pressed) {
        clicks := clicks + 1;
      }
      SetState(ReleasedState(isInsideBounds));
    }

    /** The host cancelled the interaction. */
    method CancelInteraction()
      requires Valid() && interactable
      modifies this`state, this`rippleProgressOut, this`rippleInRunning, this`rippleOutRunning, this`calls
      modifies elevation, stateOverlayOpacity
      ensures Valid() && state == None && StateChanged(old(state))
    {
      SetState(None);
    }

    /** A callback of the "rippleIn" run with its progress `p`. */
    method RippleInTick(p: real)
      requires Valid() && rippleInRunning && 0.0 <= p <= 1.0
      modifies this`rippleProgressIn, this`overlayInvalidations
      ensures Valid() && rippleProgressIn == p && overlayInvalidations == old(overlayInvalidations) + 1
    {
      rippleProgressIn := p;
      overlayInvalidations := overlayInvalidations + 1;
    }

    /** A callback of the "rippleOut" run with its progress `p`. */
    method RippleOutTick(p: real)
      requires Valid() && rippleOutRunning && 0.0 <= p <= 1.0
      modifies this`rippleProgressOut, this`overlayInvalidations
      ensures Valid() && rippleProgressOut == p && overlayInvalidations == old(overlayInvalidations) + 1
    {
      rippleProgressOut := p;
      overlayInvalidations := overlayInvalidations + 1;
    }

    /** The background layer for the view's rectangle `dirtyRect`, given the
        current fill, shadow and tint colours. It reads `Elevation`, and so
        activates the elevation tween, unless the fill is fully transparent. */
    method DrawBackground(color: Color, shadowColor: Color, surfaceTint: Option<Color>, dirtyRect: Rect)
      returns (paint: Option<BackgroundPaint>)
      requires Valid()
      modifies elevation`hasBeenUsed
      ensures Valid()
      ensures elevation.hasBeenUsed == (old(elevation.hasBeenUsed) || color.alpha != 0.0)
      ensures paint == BackgroundFor(color, shadowColor, surfaceTint, elevation.current, BackgroundBounds(dirtyRect))
    {
      var bounds := BackgroundBounds(dirtyRect);
      if color.alpha == 0.0 {
        return None;
      }
      var e := GetElevation();
      paint := BackgroundFor(color, shadowColor, surfaceTint, e, bounds);
    }

    /** The overlay layer for `bounds`, given the current state-layer colour
        and `eased`, the square root of the ripple-in progress. It reads, and
        so activates, the state-layer opacity tween. */
    method DrawOverlay(stateLayerColor: Color, bounds: Rect, eased: real) returns (paint: OverlayPaint)
      requires Valid()
      requires rippleProgressIn != 0.0 && rippleProgressOut != 1.0 ==> bounds.width > 0.0 && bounds.height > 0.0
      requires eased >= 0.0 && eased * eased == rippleProgressIn
      modifies stateOverlayOpacity`hasBeenUsed
      ensures Valid() && stateOverlayOpacity.hasBeenUsed
      ensures paint == OverlayFor(stateLayerColor, stateOverlayOpacity.current, touchPoint, bounds,
                                  rippleProgressIn, rippleProgressOut, eased)
    {
      var opacity := stateOverlayOpacity.GetCurrent();
      paint := OverlayFor(stateLayerColor, opacity, touchPoint, bounds, rippleProgressIn, rippleProgressOut, eased);
    }

    /** The surface was recycled for new data: every tween is reset. */
    method OnBindingContextChanged()
      requires Valid()
      modifies elevation`hasBeenUsed, stateOverlayOpacity`hasBeenUsed
      ensures Valid()
      ensures elevation.driver.Some? ==> elevation.hasBeenUsed == old(elevation.hasBeenUsed)
      ensures stateOverlayOpacity.driver.Some? ==> stateOverlayOpacity.hasBeenUsed == old(stateOverlayOpacity.hasBeenUsed)
    {
      elevation.Reset();
      stateOverlayOpacity.Reset();
    }
  }

  // ---------------------------------------------------------------------------
  // What the host can observe of a fresh surface

  /** Press then release: one click exactly when the release is inside; the
      surface ends hovered only off touch platforms and inside the bounds. */
  method PressThenRelease(kind: SurfaceKind, touchPlatform: bool, touch: Point, isInsideBounds: bool)
    returns (clicks: nat, finalState: Option<MaterialState>, rippleOut: bool)
    ensures clicks == (if isInsideBounds then 1 else 0)
    ensures finalState == (if !touchPlatform && isInsideBounds then Some(Hovered) else None)
    ensures rippleOut
  {
    var m := new Material(kind, touchPlatform);
    m.SetInteractable(true);
    m.StartInteraction([touch]);
    m.EndInteraction(isInsideBounds);
    clicks := m.clicks;
    finalState := m.state;
    rippleOut := m.rippleOutRunning;
  }

  /** A release that follows no press (hover, then release) never clicks. */
  method ReleaseWithoutPress(kind: SurfaceKind, touchPlatform: bool, isInsideBounds: bool) returns (clicks: nat)
    ensures clicks == 0
  {
    var m := new Material(kind, touchPlatform);
    m.SetInteractable(true);
    m.StartHoverInteraction();
    m.EndInteraction(isInsideBounds);
    clicks := m.clicks;
  }

  /** Ripple across two presses: releasing keeps the ripple-in progress and
      starts ripple-out; the second press zeroes ripple-out again. */
  method RippleAcrossPresses(touch: Point, p: real, q: real)
    returns (inAfterRelease: real, outRunningAfterRelease: bool, outAfterSecondPress: real, outRunningAfterSecondPress: bool)
    requires 0.0 <= p <= 1.0 && 0.0 <= q <= 1.0
    ensures inAfterRelease == p && outRunningAfterRelease
    ensures outAfterSecondPress == 0.0 && !outRunningAfterSecondPress
  {
    var m := new Material(PlainSurface, true);
    m.SetInteractable(true);
    m.StartInteraction([touch]);
    m.RippleInTick(p);
    m.EndInteraction(true);
    inAfterRelease := m.rippleProgressIn;
    outRunningAfterRelease := m.rippleOutRunning;
    m.RippleOutTick(q);
    m.StartInteraction([touch]);
    outAfterSecondPress := m.rippleProgressOut;
    outRunningAfterSecondPress := m.rippleOutRunning;
  }

  /** A button that has never been drawn takes the pressed elevation at once;
      one whose background was drawn with a visible fill animates towards it
      from its resting elevation. */
  method ButtonPressElevation(drawn: bool, touch: Point, dirtyRect: Rect, color: Color, shadowColor: Color)
    returns (elevationNow: real, elevationTarget: real, runs: nat)
    requires color.alpha != 0.0
    ensures elevationTarget == 12.0
    ensures drawn ==> elevationNow == 0.0 && runs == 1
    ensures !drawn ==> elevationNow == 12.0 && runs == 0
  {
    var m := new Material(ButtonSurface, false);
    m.SetInteractable(true);
    if drawn {
      var _ := m.DrawBackground(color, shadowColor, None, dirtyRect);
    }
    m.StartInteraction([touch]);
    elevationNow := m.elevation.current;
    elevationTarget := m.elevation.target;
    runs := m.elevation.runsStarted;
  }
}
