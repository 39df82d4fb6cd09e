/**
 * The zoom controls of the pinch-zoom component: the zoom-in and zoom-out
 * buttons step the engine's scale by `zoomControlScale`, and which buttons are
 * shown, and where, is decided from the options.
 */
module ZoomControl {
  import opened JsValues

  /** What the component reads from the gesture engine: its current scale and its zoom limit. */
  datatype EngineView = EngineView(scale: real, maxScale: real) {

    /** isZoomedIn: the view is magnified. */
    predicate IsZoomedIn() {
      scale > 1.0
    }

    /** isZoomLimitReached: the scale is at (or beyond) the engine's limit. */
    predicate IsZoomLimitReached() {
      scale >= maxScale
    }
  }

  /** A call the component makes on the gesture engine. */
  datatype Command =
    | SetZoom(scale: real, center: Option<seq<real>>)
    | SetTransform(x: Option<real>, y: Option<real>, newScale: Option<real>, transitionDuration: Option<real>)
    | ResetScale
    | ToggleZoom
    | PollLimitZoom
    | Destroy

  /**
   * zoomIn: nothing once the limit is reached; otherwise a zoom to one step
   * further, clamped to the limit.
   */
  function ZoomInRequest(view: EngineView, step: real): (r: Option<Command>)
    ensures r.None? <==> view.IsZoomLimitReached()
    ensures r.Some? ==> r.value.SetZoom? && r.value.center.None?
    ensures r.Some? ==> r.value.scale <= view.maxScale && r.value.scale <= view.scale + step
    ensures r.Some? ==> r.value.scale == view.maxScale || r.value.scale == view.scale + step
    ensures r.Some? && step > 0.0 ==> r.value.scale > view.scale
  {
    if view.IsZoomLimitReached() then None
    else
      var newScale := view.scale + step;
      Some(SetZoom(if newScale > view.maxScale then view.maxScale else newScale, None))
  }

  /**
   * zoomOut: nothing unless zoomed in; a reset when one step back would reach
   * scale 1 or below; otherwise a zoom to one step back, which stays above 1.
   */
  function ZoomOutRequest(view: EngineView, step: real): (r: Option<Command>)
    ensures r.None? <==> !view.IsZoomedIn()
    ensures r.Some? ==> (r.value.ResetScale? <==> view.scale - step <= 1.0)
    ensures r.Some? && !r.value.ResetScale? ==> r.value.SetZoom? && r.value.center.None?
    ensures r.Some? && r.value.SetZoom? ==> r.value.scale == view.scale - step && r.value.scale > 1.0
  {
    if !view.IsZoomedIn() then None
    else
      var newScale := view.scale - step;
      if newScale <= 1.0 then Some(ResetScale) else Some(SetZoom(newScale, None))
  }

  /** The engine calls a request amounts to: none, or the one requested. */
  function Issued(r: Option<Command>): seq<Command> {
    if r.Some? then [r.value] else []
  }

  /**
   * The engine state after a zoom request, for an engine that honours it
   * exactly: setZoom moves to the requested scale, resetScale back to 1.
   */
  function Honour(view: EngineView, r: Option<Command>): EngineView {
    match r
    case Some(SetZoom(s, _)) => view.(scale := s)
    case Some(ResetScale) => view.(scale := 1.0)
    case _ => view
  }

  /** The engine state after pressing the zoom-in button `n` times. */
  function ZoomInTimes(view: EngineView, step: real, n: nat): EngineView
    decreases n
  {
    if n == 0 then view else ZoomInTimes(Honour(view, ZoomInRequest(view, step)), step, n - 1)
  }

  /** The engine state after pressing the zoom-out button `n` times. */
  function ZoomOutTimes(view: EngineView, step: real, n: nat): EngineView
    decreases n
  {
    if n == 0 then view else ZoomOutTimes(Honour(view, ZoomOutRequest(view, step)), step, n - 1)
  }

  function Min(a: real, b: real): real {
    if a <= b then a else b
  }

  function Max(a: real, b: real): real {
    if a >= b then a else b
  }

  /** n presses of zoom-in climb `n * step`, but never past the zoom limit. */
  lemma {:induction false} ZoomInClimbsToLimit(view: EngineView, step: real, n: nat)
    requires step > 0.0 && view.scale <= view.maxScale
    ensures ZoomInTimes(view, step, n).maxScale == view.maxScale
    ensures ZoomInTimes(view, step, n).scale == Min(view.scale + n as real * step, view.maxScale)
    decreases n
  {
    if n > 0 {
      var next := Honour(view, ZoomInRequest(view, step));
      ZoomInClimbsToLimit(next, step, n - 1);
      assert (n - 1) as real * step + step == n as real * step;
    }
  }

  /** n presses of zoom-out from a zoomed-in view descend `n * step`, but never below scale 1. */
  lemma {:induction false} ZoomOutDescendsToOne(view: EngineView, step: real, n: nat)
    requires step > 0.0 && view.IsZoomedIn()
    ensures ZoomOutTimes(view, step, n).scale == Max(view.scale - n as real * step, 1.0)
    decreases n
  {
    if n > 0 {
      var next := Honour(view, ZoomOutRequest(view, step));
      assert (n - 1) as real * step + step == n as real * step;
      if view.scale - step <= 1.0 {
        assert next.scale == 1.0;
        ZoomOutStaysAtOne(next, step, n - 1);
        assert (n - 1) as real * step >= 0.0;
      } else {
        ZoomOutDescendsToOne(next, step, n - 1);
      }
    }
  }

  /** Enough presses of zoom-in always reach the zoom limit, after which zoom-in is inert. */
  lemma ZoomInReachesLimit(view: EngineView, step: real, n: nat)
    requires step > 0.0 && view.scale <= view.maxScale
    requires n as real * step >= view.maxScale - view.scale
    ensures ZoomInTimes(view, step, n).IsZoomLimitReached()
    ensures ZoomInRequest(ZoomInTimes(view, step, n), step).None?
  {
    ZoomInClimbsToLimit(view, step, n);
  }

  /** Enough presses of zoom-out always bring a zoomed-in view back to scale 1, after which zoom-out is inert. */
  lemma ZoomOutReachesOne(view: EngineView, step: real, n: nat)
    requires step > 0.0 && view.IsZoomedIn()
    requires n as real * step >= view.scale - 1.0
    ensures ZoomOutTimes(view, step, n).scale == 1.0
    ensures ZoomOutRequest(ZoomOutTimes(view, step, n), step).None?
  {
    ZoomOutDescendsToOne(view, step, n);
  }

  /** Zoom-out does nothing to a view that is not zoomed in. */
  lemma {:induction false} ZoomOutStaysAtOne(view: EngineView, step: real, n: nat)
    requires !view.IsZoomedIn()
    ensures ZoomOutTimes(view, step, n) == view
  {
    if n > 0 {
      ZoomOutStaysAtOne(view, step, n - 1);
    }
  }

  /** Away from the limit and above scale 1, zoom-out takes back exactly what zoom-in added. */
  lemma ZoomOutUndoesZoomIn(view: EngineView, step: real)
    requires step > 0.0 && view.IsZoomedIn() && view.scale + step <= view.maxScale
    ensures ZoomOutRequest(Honour(view, ZoomInRequest(view, step)), step) == Some(SetZoom(view.scale, None))
  {
  }

  /** Above one step over scale 1 and within the limit, zoom-in takes back exactly what zoom-out removed. */
  lemma ZoomInUndoesZoomOut(view: EngineView, step: real)
    requires step > 0.0 && view.scale - step > 1.0 && view.scale <= view.maxScale
    ensures ZoomInRequest(Honour(view, ZoomOutRequest(view, step)), step) == Some(SetZoom(view.scale, None))
  {
  }

  /** The button layouts the template can render. */
  datatype ControlMode = OneButton | TwoButtons {
    /** The `zoomControl` option value that selects this layout. */
    function Name(): string {
      match this
      case OneButton => "one-button"
      case TwoButtons => "two-buttons"
    }
  }

  /**
   * isControl: whether the buttons of `mode` are shown. Never when the
   * component is disabled, when the controls are disabled, or on a touch
   * screen with `disableZoomControl` set to 'auto'; otherwise exactly when
   * `zoomControl` names this mode.
   */
  function IsControl(props: Options, touchScreen: bool, mode: ControlMode): (r: bool)
    ensures Truthy(Get(props, "disabled")) ==> !r
    ensures Get(props, "disableZoomControl") == Str("disable") ==> !r
    ensures touchScreen && Get(props, "disableZoomControl") == Str("auto") ==> !r
    ensures r ==> Get(props, "zoomControl") == Str(mode.Name())
    ensures (&& !Truthy(Get(props, "disabled"))
             && Get(props, "disableZoomControl") != Str("disable")
             && !(touchScreen && Get(props, "disableZoomControl") == Str("auto"))
             && Get(props, "zoomControl") == Str(mode.Name())) ==> r
  {
    if Truthy(Get(props, "disabled")) then false
    else if Get(props, "disableZoomControl") == Str("disable") then false
    else if touchScreen && Get(props, "disableZoomControl") == Str("auto") then false
    else Get(props, "zoomControl") == Str(mode.Name())
  }

  /** The one-button and two-button controls are never both shown. */
  lemma ControlsExclusive(props: Options, touchScreen: bool)
    ensures !(IsControl(props, touchScreen, OneButton) && IsControl(props, touchScreen, TwoButtons))
  {
  }

  const PositionPrefix := "pz-zoom-control-position-"

  /** `zoomControlPosition`, when set, holds a string (its declared type is a union of strings). */
  predicate PositionIsString(props: Options) {
    Truthy(Get(props, "zoomControlPosition")) ==> Get(props, "zoomControlPosition").Str?
  }

  /**
   * getZoomControlPositionClass: an explicit position wins; otherwise one
   * button sits at the bottom and two buttons at the right; otherwise there is
   * no class (undefined).
   */
  function ZoomControlPositionClass(props: Options): (r: Option<string>)
    requires PositionIsString(props)
    ensures Truthy(Get(props, "zoomControlPosition")) ==> r == Some(PositionPrefix + Get(props, "zoomControlPosition").s)
    ensures !Truthy(Get(props, "zoomControlPosition")) && Get(props, "zoomControl") == Str("one-button") ==>
              r == Some(PositionPrefix + "bottom")
    ensures !Truthy(Get(props, "zoomControlPosition")) && Get(props, "zoomControl") == Str("two-buttons") ==>
              r == Some(PositionPrefix + "right")
    ensures r.None? <==> !Truthy(Get(props, "zoomControlPosition"))
                         && Get(props, "zoomControl") != Str("one-button")
                         && Get(props, "zoomControl") != Str("two-buttons")
    ensures r.Some? ==> PositionPrefix <= r.value
  {
    var position := Get(props, "zoomControlPosition");
    if Truthy(position) then Some(PositionPrefix + position.s)
    else if Get(props, "zoomControl") == Str("one-button") then Some(PositionPrefix + "bottom")
    else if Get(props, "zoomControl") == Str("two-buttons") then Some(PositionPrefix + "right")
    else None
  }

  /** Shown controls always get a position class: the explicit one, or their layout's default side. */
  lemma ShownControlIsPlaced(props: Options, touchScreen: bool, mode: ControlMode)
    requires PositionIsString(props)
    requires IsControl(props, touchScreen, mode)
    ensures ZoomControlPositionClass(props).Some?
    ensures !Truthy(Get(props, "zoomControlPosition")) ==>
              ZoomControlPositionClass(props) == Some(PositionPrefix + (if mode == OneButton then "bottom" else "right"))
  {
  }
}
