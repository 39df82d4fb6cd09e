# Pinch-zoom component: a Dafny model

This project models the Angular wrapper `PinchZoomComponent` of the pinch-zoom
library (`src/app/pinch-zoom/pinch-zoom.component.ts`). The wrapper does three
things, and all three are modelled:

1. **Option pipeline.** Angular reports changed inputs to `ngOnChanges`. The
   change set is first flattened into one option object (`getProperties`). A
   `properties` input replaces everything gathered before it. Legacy option
   names are then renamed through a backward-compatibility table
   (`renameProperties`). Finally the result is laid over the default options
   (`applyOptionsDefault`) and stored through the `properties` setter, which
   ignores falsy values.
2. **Zoom-control stepping.** The zoom-in and zoom-out buttons (`zoomIn`,
   `zoomOut`) step the engine's scale by `zoomControlScale`. Zoom-in is clamped
   to the engine's `maxScale`. Zoom-out turns into a `resetScale` once it would
   reach scale 1.
3. **Zoom-control presentation.** `isControl` decides whether the one-button
   or the two-button control is shown. `getZoomControlPositionClass` picks the
   CSS class that places it.

The gesture engine (`IvyPinch`) is not part of this model. The component sees
it as an `EngineView` (its current `scale` and `maxScale`) and talks to it by
calls, which the model records as a log of `Command`s. The default-options
table and the backward-compatibility table are not part of this model either.
Every operation that needs them takes them as parameters.

Files:

- `js_values.dfy` (module `JsValues`): JavaScript values (`Value`), truthiness
  (`Truthy`) and property reads that yield `undefined` for a missing property
  (`Get`).
- `options.dfy` (module `PinchZoomOptions`): `GetProperties`,
  `RenameProperties` and `WithDefaults`, with the lemmas behind them.
- `zoom_control.dfy` (module `ZoomControl`): the engine view and its flags
  `IsZoomedIn` and `IsZoomLimitReached`, the zoom requests, repeated button
  presses, `IsControl` and `ZoomControlPositionClass`.
- `component.dfy` (module `PinchZoom`): the class `PinchZoomComponent`. Its
  fields are the option object, the engine view and the log of engine calls.

Modelling choices:

- Class bodies are strict-mode JavaScript. In `getProperties`, writing an input
  onto a `properties` value that is not an object (say `undefined`) therefore
  throws a TypeError. `GetProperties` returns `TypeError` exactly then.
  `OnChanges` then reports `ok == false` and leaves the options untouched.
- The enumeration order of a change set is the order of the `changes`
  sequence. `RenameProperties` visits option names in an order it leaves open
  (`:|` choice). Its contract holds for every such order.
- When two legacy options share one new name, the surviving value is that of
  one of them (whichever was visited last). The contract says "one of them",
  and it says "exactly that value" when the new name has only one source.
- `Honour` describes an engine that carries out a zoom request exactly
  (`setZoom(s)` moves to `s`, `resetScale` moves to 1). The lemmas about
  repeated button presses assume such an engine.
- Numbers are `real`s.

## Model

| member | source | states |
|---|---|---|
| `PinchZoomOptions.GetProperties` | src/app/pinch-zoom/pinch-zoom.component.ts:167-179 | It throws exactly when the `properties` value is not an object and inputs follow it. Otherwise the result is that value (or `{}` without one) with every later input written on top under its own name. Keys of the base that no later input names keep their values, and inputs before `properties` are lost. |
| `PinchZoomOptions.RenameProperties` | src/app/pinch-zoom/pinch-zoom.component.ts:181-190 | The key set loses every legacy name and gains the new names. An option that is neither legacy nor a new name keeps its value. A new name holds the value of one of its legacy sources, and exactly that value when there is only one source. |
| `PinchZoomOptions.WithDefaults` | src/app/pinch-zoom/pinch-zoom.component.ts:192-194 | The merged object has the keys of the defaults and the options. An option overrides the default of the same name, and every other default is kept. |
| `ZoomControl.ZoomInRequest` | src/app/pinch-zoom/pinch-zoom.component.ts:252-265 | No call exactly when `isZoomLimitReached` (`scale >= maxScale`). Otherwise one `setZoom` without a centre, to the smaller of `scale + zoomControlScale` and `maxScale`. The target is above the current scale when the step is positive. |
| `ZoomControl.ZoomOutRequest` | src/app/pinch-zoom/pinch-zoom.component.ts:267-281 | No call exactly when not `isZoomedIn` (`scale <= 1`). Otherwise `resetScale` exactly when `scale - zoomControlScale <= 1`. Failing that, `setZoom` to `scale - zoomControlScale`, which is then above 1. |
| `ZoomControl.EngineView.IsZoomedIn` | src/app/pinch-zoom/pinch-zoom.component.ts:116-118 | True exactly when the engine's scale is above 1. It is the guard of zoom-out: `ZoomOutRequest` requests nothing exactly when it is false. |
| `ZoomControl.EngineView.IsZoomLimitReached` | src/app/pinch-zoom/pinch-zoom.component.ts:128-130 | True exactly when the engine's scale is at or above its `maxScale`. It is the guard of zoom-in: `ZoomInRequest` requests nothing exactly when it is true. |
| `ZoomControl.ZoomInClimbsToLimit` | src/app/pinch-zoom/pinch-zoom.component.ts:252-265 | After n zoom-in presses the scale is `min(scale + n * step, maxScale)`, so it never passes the limit. |
| `ZoomControl.ZoomInReachesLimit` | src/app/pinch-zoom/pinch-zoom.component.ts:128-130 | Once `n * step` covers the distance to `maxScale`, n presses reach `isZoomLimitReached`, and further presses request nothing. |
| `ZoomControl.ZoomOutDescendsToOne` | src/app/pinch-zoom/pinch-zoom.component.ts:267-281 | After n zoom-out presses from a zoomed-in view the scale is `max(scale - n * step, 1)`, so it never goes below 1. |
| `ZoomControl.ZoomOutReachesOne` | src/app/pinch-zoom/pinch-zoom.component.ts:116-118 | Once `n * step` covers the distance to 1, n zoom-out presses bring the scale to 1, where `isZoomedIn` is false and zoom-out requests nothing. |
| `ZoomControl.ZoomOutStaysAtOne` | src/app/pinch-zoom/pinch-zoom.component.ts:267-270 | Zoom-out leaves a view that is not zoomed in unchanged, however often it is pressed. |
| `ZoomControl.ZoomOutUndoesZoomIn` | src/app/pinch-zoom/pinch-zoom.component.ts:252-281 | Above scale 1 and below the limit, zoom-out returns to the scale that zoom-in started from. This is a fact of exact arithmetic. |
| `ZoomControl.ZoomInUndoesZoomOut` | src/app/pinch-zoom/pinch-zoom.component.ts:252-281 | When one step back stays above 1, zoom-in returns to the scale that zoom-out started from. This is a fact of exact arithmetic. |
| `ZoomControl.IsControl` | src/app/pinch-zoom/pinch-zoom.component.ts:200-217 | False when `disabled` is truthy, or `disableZoomControl` is 'disable', or the screen is a touch screen and `disableZoomControl` is 'auto'. Otherwise true exactly when `zoomControl` names the mode. |
| `ZoomControl.ControlsExclusive` | src/app/pinch-zoom/pinch-zoom.component.ts:200-217 | The one-button and the two-button controls are never both shown. |
| `ZoomControl.ZoomControlPositionClass` | src/app/pinch-zoom/pinch-zoom.component.ts:219-233 | A truthy `zoomControlPosition` gives `pz-zoom-control-position-` followed by it. Otherwise 'one-button' gives `…-bottom` and 'two-buttons' gives `…-right`. Anything else gives no class, and every class starts with the prefix. |
| `ZoomControl.ShownControlIsPlaced` | src/app/pinch-zoom/pinch-zoom.component.ts:200-233 | A shown control always gets a position class. Without an explicit position it is the bottom for one button and the right for two buttons. |
| `PinchZoom.PinchZoomComponent.constructor` | src/app/pinch-zoom/pinch-zoom.component.ts:132-134 | The component starts with exactly the default options and no engine calls. |
| `PinchZoom.PinchZoomComponent.SetProperties` | src/app/pinch-zoom/pinch-zoom.component.ts:32-36 | A truthy value (an object) replaces the options, and a falsy value leaves them as they were. |
| `PinchZoom.PinchZoomComponent.ApplyOptionsDefault` | src/app/pinch-zoom/pinch-zoom.component.ts:192-194 | The stored options become the merge of the defaults and the options, since the merged object is always truthy. |
| `PinchZoom.PinchZoomComponent.OnChanges` | src/app/pinch-zoom/pinch-zoom.component.ts:143-148 | It fails, leaving the options unchanged, exactly when getProperties throws. Otherwise the stored options are exactly the defaults overlaid with the renamed result of getProperties. That result is a flattening of the change set, renamed as renameProperties promises (`IsRenaming`). The old options play no part, so a change set without `properties` drops every option an earlier `properties` object set. As consequences, every default name is present and no legacy name survives unless it is a default. An option that is neither legacy nor the new name of a legacy option in this change set is stored with its value. This covers the inputs after `properties` and the options of the `properties` object that no later input names. A default that no such option overrides keeps its value. |
| `PinchZoom.PinchZoomComponent.ZoomIn` | src/app/pinch-zoom/pinch-zoom.component.ts:252-265 | The engine log grows by exactly the calls `ZoomInRequest` gives for the current engine view and `zoomControlScale`. |
| `PinchZoom.PinchZoomComponent.ZoomOut` | src/app/pinch-zoom/pinch-zoom.component.ts:267-281 | The engine log grows by exactly the calls `ZoomOutRequest` gives for the current engine view and `zoomControlScale`. |
| `PinchZoom.PinchZoomComponent.SetZoom` | src/app/pinch-zoom/pinch-zoom.component.ts:248-250 | It forwards one `setZoom` call with the given scale and centre. |
| `PinchZoom.PinchZoomComponent.SetTransform` | src/app/pinch-zoom/pinch-zoom.component.ts:239-246 | It forwards one `setTransform` call with the given partial transform. |
| `PinchZoom.PinchZoomComponent.Reset` | src/app/pinch-zoom/pinch-zoom.component.ts:283-285 | It forwards one `resetScale` call. |
| `PinchZoom.PinchZoomComponent.ToggleZoom` | src/app/pinch-zoom/pinch-zoom.component.ts:196-198 | It forwards one `toggleZoom` call. |
| `PinchZoom.PinchZoomComponent.PollLimitZoom` | src/app/pinch-zoom/pinch-zoom.component.ts:235-237 | It forwards one `pollLimitZoom` call. |
| `PinchZoom.PinchZoomComponent.Destroy` | src/app/pinch-zoom/pinch-zoom.component.ts:287-289 | It forwards one `destroy` call. |

## Left out

- The gesture engine `IvyPinch` (`./ivypinch`) is not part of this model: gestures, geometry, animation, listeners, `isDragging`, and the `scale`, `moveX`, `moveY` and `maxScale` getters that read it. It appears only as the `EngineView` the component reads and as the log of calls made on it.
- The tables `defaultProperties` and `backwardCompatibilityProperties` (`./properties`) are not part of this model. Both are parameters.
- `isTouchScreen` queries `window` and `matchMedia`. Its result is the `touchScreen` parameter of `IsControl`.
- `scaleLevel` rounds a floating-point quotient with `Math.round`. Floating point is not modelled.
- `initPinchZoom`, `ngOnInit` and `ngOnDestroy` are left out. `initPinchZoom` returns early when `disabled` is truthy. Otherwise it looks up a DOM element, stores it and the event emitter in the options, sets the position class and creates the engine. The model takes the engine as given at construction.
- A component whose `disabled` option was truthy at initialisation has no engine. Its `zoomIn`, `zoomOut`, `setZoom`, `setTransform`, `reset`, `toggleZoom`, `pollLimitZoom` and `destroy` then throw a TypeError, `ngOnInit` (through `pollLimitZoom`) and `ngOnDestroy` (through `destroy`) included. The model always has an engine and does not capture these throws.
- ZoomInRequest: the engine's `maxScale` is undefined while the image size is unknown. Then both `scale >= maxScale` and `newScale > maxScale` are false, so `zoomIn` requests `setZoom(scale + zoomControlScale)` without any clamp. `EngineView.maxScale` is a `real`, so the model does not capture this unclamped case.
- The host bindings `hostOverflow` and `hostBackgroundColor`, the `@Input` field defaults and the `EventEmitter` are Angular plumbing and are left out.
- `src/app/app.module.ts` (a module declaration) and `src/app/app.component.ts` (a demo that calls `setTransform`) are not part of this model.
- RenameProperties: the contract assumes that no new name is itself a legacy name (`TargetsNotLegacy`). JavaScript leaves open whether `for…in` visits properties added during the loop, and this assumption makes the question moot.
- RenameProperties: a legacy name is looked up in the table's own entries only. Names inherited from `Object.prototype` (such as `constructor`) are not modelled.
- RenameProperties: the source renames the caller's object in place. That object can be the host's own `properties` object, and this aliasing is not modelled: the method returns a new map.
- GetProperties: when the change set has a `properties` input holding an object, the source writes every later input into that object, which is the host's own. This update in place and aliasing are not modelled: the method builds a new value, and the host's object stays unchanged in the model.
- OnChanges: the `properties` input must be an object or a falsy value, as its declared type says. A truthy primitive would be spread by `Object.assign` (a string becomes indexed characters) and is not modelled.
- ZoomIn: requires `zoomControlScale` to be a number, as its declared type says. `NaN` and string concatenation from other types are not modelled.
- ZoomOut: requires `zoomControlScale` to be a number, for the same reason.
- ZoomControlPositionClass: requires a truthy `zoomControlPosition` to be a string, as its declared type says. The string conversion of other truthy values is not modelled.
- What the engine does with the calls it receives is not modelled, apart from the idealised `Honour` used by the lemmas about repeated presses. In particular, the engine may clamp or animate a requested zoom differently.
- ZoomOutUndoesZoomIn: holds in exact real arithmetic only. With the source's floating-point numbers, a step can round away the starting scale. An example is scale 1.0000000000000002 with step 3: zoom-in goes to 4, and zoom-out from 4 reaches 1 and resets.
- ZoomInUndoesZoomOut: holds in exact real arithmetic only, for the same reason.
