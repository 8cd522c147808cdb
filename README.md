# Maui.Material surface engine, modelled in Dafny

This project models the engine behind Maui.Material's animated Material surface. It has four parts:

- **Elevation overlay** (`elevation_overlay.dfy`, module `ElevationOverlay`). This is Material's tonal elevation. A fixed table of (elevation, opacity) breakpoints says how much surface tint goes into a surface's fill. `SurfaceTintOpacityForElevation` walks the table in a `while` loop, kept as a method. It is proved equal to an independent reference polyline `Curve`. The facts about the table are proved about that polyline: the clamp, exact hits, the last entry, interpolation, the range [0, .14] and monotonicity.
- **Shadow geometry** (`shadow.dfy`, module `Shadow`). A point light at height 600 with radius 800 sits at offset (-200, -400). It turns an elevation into a shadow offset of (e/3, 2e/3) and a blur radius, the smaller of the two penumbra extents. It also gives a penumbra bounding box. There is no shadow at elevation 0.
- **Tween cell** (`animated.dfy`, class `Animation.Animated`). This is a lazily activated animated value. Reading `Current` activates it. A target assigned before the first read is taken over at once. After activation, each assignment freezes `Start` at the live value and starts a run of the host's animation driver under the tween's fixed id. The driver is modelled as `Tick(v)` calls that deliver values between `Start` and the target. The model keeps a count of invalidate callbacks and a count of runs started.
- **Surface** (`material.dfy`, class `MaterialSurface.Material`; `button.dfy`, module `Button`). This is the interaction state machine: hover, press, release and cancel handlers, the `State` setter and the `Interactable` guard. `OnStateChanged` does the ripple bookkeeping, with abort-then-reset ordering, and retargets the state-layer opacity. A button adds its state→elevation override on top. The drawing decisions of the two layers are pure functions:
  - background: the shadow gate and the tinted fill;
  - overlay: the state layer, the ripple gate, the ripple centre and the fade.

  A ghost trace records the ripple and retarget calls in order, so that ordering can be stated.

The C# `float` arithmetic is modelled over exact `real`. So `.05f` is exactly 0.05 here, with no rounding. Nullable values (`MaterialState?`, `SKColor?`) use `Graphics.Option`.

Three facts about the code are worth stating up front:
- The `Target` setter has no equality short-cut. Assigning the target it already has, after activation, starts a new run. `Animation.SameTargetTwice` proves that two such assignments start two runs.
- No handler aborts a press when the pointer moves beyond a drag threshold. Only hover start/end, press, release and cancel change the state.
- The ripple-in run lasts 400 ms and the ripple-out run 700 ms, and the ripple radius is the eased progress itself, with no extra multiplier.

## Model

| member | source | states |
|---|---|---|
| ElevationOverlay.SurfaceTintOpacityForElevation | Maui.Material/ElevationOverlay.cs:21-45 | The loop clamps below the first entry, returns an exact hit or the last entry, and otherwise interpolates. Its result equals the reference polyline `Opacity` for every elevation. Its invariants keep `index` in bounds and `index - 1` valid. |
| ElevationOverlay.Opacity | Maui.Material/ElevationOverlay.cs:8-16 | The opacity the table prescribes lies in [0, .14] for every elevation. |
| ElevationOverlay.ApplySurfaceTint | Maui.Material/ElevationOverlay.cs:18-19 | With no tint, the colour comes back unchanged. With a tint, it is blended towards the tint by exactly the table's opacity `Opacity(elevation)`, which is in [0, .14]. |
| ElevationOverlay.Lerp | Maui.Material/ElevationOverlay.cs:40-44 | The interpolation line passes through both breakpoints: at the lower elevation it gives the lower opacity, at the upper elevation the upper one. |
| ElevationOverlay.TableWellFormed | Maui.Material/ElevationOverlay.cs:8-16 | The table has six entries, with strictly ascending elevations and non-decreasing opacities. |
| ElevationOverlay.CurveAt | Maui.Material/ElevationOverlay.cs:33-35 | In any strictly ascending table, the polyline at a breakpoint's elevation is that breakpoint's opacity. |
| ElevationOverlay.CurveBeyond | Maui.Material/ElevationOverlay.cs:33-35 | From the last breakpoint on, the polyline is the last opacity. |
| ElevationOverlay.CurveBetween | Maui.Material/ElevationOverlay.cs:40-44 | Above breakpoint k-1 and up to breakpoint k, the polyline is the line through those two breakpoints. |
| ElevationOverlay.LerpWithin | Maui.Material/ElevationOverlay.cs:41-44 | Between two breakpoints, the interpolated opacity stays between their opacities. |
| ElevationOverlay.LerpMonotone | Maui.Material/ElevationOverlay.cs:41-44 | The interpolated opacity does not decrease as the elevation rises. |
| ElevationOverlay.CurveWithin | Maui.Material/ElevationOverlay.cs:23-44 | For every elevation, the polyline lies between the first and the last opacity. |
| ElevationOverlay.CurveMonotone | Maui.Material/ElevationOverlay.cs:23-44 | The polyline of a table with non-decreasing opacities is non-decreasing. |
| ElevationOverlay.OpacityBelowFirst | Maui.Material/ElevationOverlay.cs:23-26 | Below elevation 0, the opacity is the first entry's, 0. |
| ElevationOverlay.OpacityAtBreakpoints | Maui.Material/ElevationOverlay.cs:8-16 | f(0)=0, f(1)=.05, f(3)=.08, f(6)=.11, f(8)=.12 and f(12)=.14. |
| ElevationOverlay.OpacityFromLast | Maui.Material/ElevationOverlay.cs:33-35 | From elevation 12 on, the opacity is .14. |
| ElevationOverlay.OpacityBetween | Maui.Material/ElevationOverlay.cs:40-44 | Strictly between neighbouring breakpoints, the opacity is lower + s·(upper − lower), with s strictly between 0 and 1. |
| ElevationOverlay.OpacityAtTwo | Maui.Material/ElevationOverlay.cs:41-44 | f(2) = .065. |
| ElevationOverlay.OpacityMonotone | Maui.Material/ElevationOverlay.cs:21-45 | e1 ≤ e2 implies f(e1) ≤ f(e2), for all real elevations. |
| Shadow.ComputeShadowOffset | Maui.Material/Shadow.cs:10-17 | The offset is (e/3, 2e/3), which is zero at elevation 0. |
| Shadow.PenumbraTangent | Maui.Material/Shadow.cs:24-26 | The penumbra tangent along an axis is 4/3 + extent/1200, the light's radius plus half the extent over the light's height. |
| Shadow.ComputePenumbraBounds | Maui.Material/Shadow.cs:19-38 | At elevation 0 the shape comes back unchanged. Otherwise the width grows by 2e·tx and the height by 2e·ty. The left and top edges move out by e·tx and e·ty and then by the offset. |
| Shadow.BlurRadius | Maui.Material/Shadow.cs:44-48 | The blur radius is the smaller of e·tx and e·ty. |
| Shadow.ComputeShadow | Maui.Material/Shadow.cs:40-49 | The result is null exactly at elevation 0. Otherwise it carries the blur radius and the offset. |
| Shadow.ToShadowColor | Maui.Material/Shadow.cs:51 | The colour channels are kept and alpha is multiplied by .3, so alpha never grows and is 0 only when it was 0. |
| Shadow.TangentAtLeast | Maui.Material/Shadow.cs:44-45 | For a non-negative extent, the penumbra tangent is at least 4/3. |
| Shadow.OffsetMonotone | Maui.Material/Shadow.cs:10-17 | For e ≥ 0, both offset components are non-negative and non-decreasing in e. |
| Shadow.BlurRadiusMonotone | Maui.Material/Shadow.cs:44-48 | For e ≥ 0 and a non-negative shape size, the blur radius is non-negative and non-decreasing in e. |
| Shadow.BlurFollowsShorterSide | Maui.Material/Shadow.cs:44-48 | For e ≥ 0, the blur follows the tangent of the shorter side. |
| Shadow.ShadowPositive | Maui.Material/Shadow.cs:40-49 | At a positive elevation there is a shadow, with a positive blur and an offset positive in both components. |
| Shadow.PenumbraEnclosesShape | Maui.Material/Shadow.cs:19-38 | At a positive elevation, the penumbra box strictly encloses the shape moved by the offset. |
| Animation.Animated.constructor | Maui.Material/Animated.cs:17-31 | A new tween holds the initial value, is not activated, and has no run. Start and target hold C#'s default 0. |
| Animation.Animated.GetCurrent | Maui.Material/Animated.cs:35-42 | Reading `Current` sets the activation flag and returns the live value. It changes nothing else. |
| Animation.Animated.SetTarget | Maui.Material/Animated.cs:44-69 | Before activation it snaps: start = current = target = value, one invalidate, no run. After activation, start is the live value and a run from start to the value is started under `id`. There is no equality short-cut. |
| Animation.Animated.Tick | Maui.Material/Animated.cs:56-60 | A driver callback stores the delivered value and invalidates once. Only `current` changes, so the target and the activation flag stay as they were. The live value stays between start and target. |
| Animation.Animated.Finish | Maui.Material/Animated.cs:56-60 | The last callback of a run delivers its end value, which is the target, invalidates once, and leaves no run in flight. |
| Animation.Animated.Reset | Maui.Material/Material.cs:213 | Reset keeps every value and may clear the activation flag only while no run is in flight. |
| Animation.SnapBeforeFirstRead | Maui.Material/Animated.cs:62-67 | A target set before any read is what the first read returns. No run is started and there is exactly one invalidate. |
| Animation.RedirectMidFlight | Maui.Material/Animated.cs:51-60 | The `Target` getter shows the last assignment mid-flight. A retarget mid-flight starts its run from the last delivered value, not from the old target. |
| Animation.RunToCompletion | Maui.Material/Animated.cs:51-60 | After activation, a run that completes leaves the live value at the target with no run in flight: one run, two invalidates. |
| Animation.SameTargetTwice | Maui.Material/Animated.cs:47-60 | After activation, assigning the same value twice starts two runs. |
| Button.ElevationForState | Maui.Material/Button.cs:70-75 | A button's elevation target is one of 12, 1 and 0, and it is 1 exactly when Hovered. |
| Button.ElevationLevels | Maui.Material/Button.cs:70-75 | A button's elevation target is 12 exactly when Pressed, positive exactly when Hovered or Pressed, and 0 otherwise, including Focused and null. |
| Button.TintForState | Maui.Material/Button.cs:70-75 | At its target elevation, a pressed button takes tint opacity .14, a hovered one .05 and any other 0. |
| Button.ShadowForState | Maui.Material/Button.cs:70-75 | At its target elevation, a button casts a shadow exactly when Hovered or Pressed. The pressed blur is at least the hovered blur. |
| MaterialSurface.StateOverlayOpacity | Maui.Material/Material.cs:154-160 | The state-layer opacity is one of .12, .08 and 0: .12 exactly for Pressed or Focused, .08 exactly for Hovered. |
| MaterialSurface.StateOverlayLevels | Maui.Material/Material.cs:154-160 | The state layer shows exactly for Hovered (.08), Focused and Pressed (.12). It is never above .12. |
| MaterialSurface.StateChangeRipples | Maui.Material/Material.cs:135-152 | Ripple-in starts and ripple-out is reset exactly on entering Pressed. Ripple-out starts exactly on leaving Pressed. The abort and the reset come before ripple-in starts. |
| MaterialSurface.StateChangeRetargets | Maui.Material/Button.cs:67-76 | Every state change retargets the state-layer opacity to the table's value. Only a button retargets its elevation, and that is the very last call, after the surface's own logic. |
| MaterialSurface.BackgroundFor | Maui.Material/Material.cs:163-178 | Nothing is drawn when the fill alpha is 0. The shadow is drawn exactly when elevation > 0 and the shadow alpha ≠ 0; then `ComputeShadow` is non-null and supplies offset, blur and the .3-alpha colour. The fill is the surface-tinted colour. |
| MaterialSurface.RippleCentre | Maui.Material/Material.cs:187-191 | The centre's distance from (.5, .5) is the normalised touch point's distance multiplied by (1 − p). |
| MaterialSurface.RippleCentreTravels | Maui.Material/Material.cs:187-191 | At p = 0 the centre is the normalised touch point, and at p = 1 it is (.5, .5). For a touch inside the bounds, the centre stays inside them throughout. |
| MaterialSurface.OverlayFor | Maui.Material/Material.cs:180-205 | Positive bounds are needed only when a ripple is drawn. The state layer is drawn at the current opacity. A ripple is drawn exactly when progress-in ≠ 0 and progress-out ≠ 1. Its radius is p. Its inner stop at .5 has alpha (1 − progress-out)·.12, within [0, .12], and its outer stop is transparent. |
| MaterialSurface.BackgroundBounds | Maui.Material/Material.cs:229 | Each edge of the background's rectangle lies 40 inside the view's rectangle. |
| MaterialSurface.Material.constructor | Maui.Material/Material.cs:22-38 | A new surface has no state, is not interactable, has zero ripple progress and holds two fresh, unactivated tweens at 0 with length 180. |
| MaterialSurface.Material.GetElevation | Maui.Material/Material.cs:42 | Reading `Elevation` activates the elevation tween and returns its live value. |
| MaterialSurface.Material.SetElevation | Maui.Material/Material.cs:43 | Setting `Elevation` retargets the elevation tween, as `SetTarget` does. |
| MaterialSurface.Material.ElevationPropertyChanged | Maui.Material/Button.cs:15-17 | A change of Button's `ElevationProperty` is forwarded to `Material.Elevation`. |
| MaterialSurface.Material.SetInteractable | Maui.Material/Material.cs:87-126 | Setting the current value changes nothing. Switching on creates exactly one new touch view. |
| MaterialSurface.Material.MaterialOnStateChanged | Maui.Material/Material.cs:133-161 | On entering Pressed: ripple-out is aborted and zeroed, then ripple-in starts. On leaving Pressed: ripple-out starts. Ripple-in progress is never touched. The state-layer opacity is then retargeted. |
| MaterialSurface.Material.OnStateChanged | Maui.Material/Button.cs:67-76 | The surface's own logic runs first. A button then retargets its elevation to the state's level, and a plain surface leaves elevation untouched. |
| MaterialSurface.Material.SetState | Maui.Material/Material.cs:76-85 | The new state is stored, then `OnStateChanged` runs with the previous one. |
| MaterialSurface.Material.StartHoverInteraction | Maui.Material/Material.cs:98 | Hover start enters Hovered. |
| MaterialSurface.Material.EndHoverInteraction | Maui.Material/Material.cs:99 | Hover end enters null. |
| MaterialSurface.Material.StartInteraction | Maui.Material/Material.cs:100-104 | A press records the last touch point and enters Pressed. |
| MaterialSurface.Material.EndInteraction | Maui.Material/Material.cs:105-113 | A click fires exactly when the release is inside the bounds and the state was Pressed. The state becomes null on touch platforms; elsewhere it becomes Hovered if inside and null if not. |
| MaterialSurface.Material.ReleasedState | Maui.Material/Material.cs:108-112 | A release leaves the surface null or Hovered, and Hovered exactly off touch platforms with an inside release. |
| MaterialSurface.Material.CancelInteraction | Maui.Material/Material.cs:114 | Cancel enters null. |
| MaterialSurface.Material.RippleInTick | Maui.Material/Material.cs:139-143 | A ripple-in callback stores its progress and invalidates the overlay. |
| MaterialSurface.Material.RippleOutTick | Maui.Material/Material.cs:147-151 | A ripple-out callback stores its progress and invalidates the overlay. |
| MaterialSurface.Material.DrawBackground | Maui.Material/Material.cs:163-178 | The background is drawn in the view's rectangle inset by 40. Drawing reads `Elevation`, which activates its tween, exactly when the fill alpha is not 0. The result is `BackgroundFor` at the live elevation. |
| MaterialSurface.Material.DrawOverlay | Maui.Material/Material.cs:180-205 | Drawing reads, and so activates, the state-layer opacity tween. The result is `OverlayFor` at its live value, with p the square root of the ripple-in progress. |
| MaterialSurface.Material.OnBindingContextChanged | Maui.Material/Material.cs:210-221 | The tweens are reset. The surface's state, ripple progress and touch point are unchanged. |
| MaterialSurface.PressThenRelease | Maui.Material/Material.cs:100-113 | Press then release gives exactly one click when the release is inside, and none otherwise. The surface ends Hovered only off touch platforms with an inside release, and ripple-out is running. |
| MaterialSurface.ReleaseWithoutPress | Maui.Material/Material.cs:105-107 | A release after a hover, with no press, never clicks. |
| MaterialSurface.RippleAcrossPresses | Maui.Material/Material.cs:135-151 | A release keeps the ripple-in progress and starts ripple-out. The next press zeroes ripple-out progress and aborts its run. |
| MaterialSurface.ButtonPressElevation | Maui.Material/Material.cs:163-168 | A button never drawn snaps to elevation 12 on press, with no run started. A button once drawn with a visible fill keeps its live elevation 0 and starts one run towards 12. |

## Left out

- Host animation timers (`Animate`, `AbortAnimation`): a run is an `Option<Run>` or a running flag. Its callbacks are the `Tick`/`RippleInTick`/`RippleOutTick` methods. The model assumes that a new run under the same id supersedes the old one, and that a run delivers only values between its two ends (progress in [0, 1] for the ripples). Easing curves and durations are not modelled beyond the stored length.
- Canvas and view plumbing (graphics views, `Add`/`Remove`, `SetShadow`, `SetFillPaint`, `RadialGradientPaint`, `FillRoundedRectangle`, corner radii): the drawing methods return what they would paint. Invalidation is a counter, and the overlay view's null check is not modelled.
- `MathF.Pow(progress, .5f)`: `DrawOverlay` takes the eased value p as an input with p ≥ 0 and p·p = progress-in.
- The colour blend of `ApplySurfaceTint` is a call into a colour library that is not part of this model. Only the null-tint branch and the opacity argument are modelled.
- The colour, corner-radius and shadow-colour tweens (`AnimatedColor`, `AnimatedCornerRadius`) and `AnimatedFloat` are not part of this model. The surface's elevation and state-layer opacity tweens are modelled with `Animated`. The current colours are parameters of the drawing methods, so reading them does not activate anything here.
- Animation.Animated.Reset: its source is not part of this model. It is treated as opaque: it may clear the activation flag only when no run is in flight, and it leaves every value alone. A run is in flight from a retarget after activation until its last callback (`Finish`), so a tween can be reset to snapping again once its run has completed, but the model does not promise that it is.
- MaterialSurface.Material.OnBindingContextChanged: it resets only the two modelled tweens. What `Reset` does is opaque (see above), so the contract states only what stays unchanged.
- Material.LayoutManager.cs and MaterialLayout.cs (host layout), BindableMaterial.cs (property forwarding), Extensions.cs (a canvas helper) and the Playground consumers are outside the engine. Their Hovered→1 elevation policy is not modelled.
- The other Button property forwarders (colour, corner radius, tint, shadow colour, content colour) target the unmodelled colour and corner tweens.
- MaterialSurface.Material.StartInteraction: requires at least one touch. The host always reports the touch that started the interaction, and the code's `Touches[^1]` would throw on an empty list.
- MaterialSurface.Material.DrawOverlay: requires positive bounds while a ripple is drawn. With zero-width or zero-height bounds the code divides by zero in `float` and paints with infinite or NaN coordinates, which the model over exact reals cannot express.
- Floating point: NaN elevations, rounding and `float`/`double` conversions are not modelled; everything is an exact real. The `#if ANDROID || IOS` split is the constant `touchPlatform`.
- The tween's `min`/`max` bounds are stored but unused, as in the source, where the line using them is commented out.
