# Business-card overlay: drag rotation, reveal sequence and face buttons

A Dafny model of the three stateful pieces of an A-Frame/MindAR business-card overlay:

- **Drag-rotation controller** (`CubeControl`, `cube_controller.dfy`). This is the
  `CubeController` class of `src/cubeController.js` and the `interacting` gate of its
  pointer listeners. A press starts a drag. Each move turns the cube by 0.01 rad per pixel
  of travel since the previous point (horizontal travel about Y, vertical travel about
  -X). A release ends the drag. The tap test at time `now` holds when less than 200 ms
  have passed since the press.
- **Reveal sequencer** (`Reveal`, `reveal.dfy`). This is the `DOMContentLoaded` closure of
  `src/main.js`:
  - the get-or-create `layer` helper and the six-layer depth stack;
  - the triangle decoration;
  - `startSequence`/`stopSequence` on `targetFound`/`targetLost`, with their single
    `fadeTimer`;
  - the HUD's `active` class.
- **Face-button registry** (`CubeFacesModel`, `cube_faces.dfy`). This is the `faces` list
  of `src/cubeFaces.js`: append, first-match lookup, relabelling, bulk visibility, the two
  side buttons `createFaceLabels` creates, and the static `faceConfig`.

Each source class or closure is a Dafny `class` with the source's fields, and its methods
change those fields in place. `Model()` (or `View()`) reads the fields into a value. Each
method's postcondition ties the new value to a pure transition function of the old one
(`Started`, `Moved`, `Found`, `Lost`, `Fire`, `Relabeled`, ...). The lemmas state what
the source promises about those functions and about runs of them.

Time (`Date.now()`) is a parameter. Timers are a map from pending handle to due time,
and the environment fires a handle by an explicit step. DOM events are explicit calls.
`options.dfy` holds the shared `Option` type.

## Model

| member | source | states |
|---|---|---|
| CubeControl.Initial | src/cubeController.js:7-13 | a new controller is unloaded, not dragging, with rotation (0, 0) and nothing written to the 3D object |
| CubeControl.StartProperties | src/cubeController.js:78-83 | `startRotation(p)` at `now` sets dragging, the previous point to `p` and the start time to `now`, and leaves the rotation alone |
| CubeControl.MoveAppliesDelta | src/cubeController.js:85-94 | while dragging with the model loaded, a move to `q` turns y by 0.01·(q.x − prev.x) and x by −0.01·(q.y − prev.y), writes that rotation to the object and makes `q` the previous point |
| CubeControl.MoveIgnoredWhenIdle | src/cubeController.js:86 | a mouse or touch move when not dragging or not loaded changes nothing |
| CubeControl.TouchMoveAgrees | src/cubeController.js:96-109 | a touch move is a mouse move to the first touch point, and a no-op when there is no touch point |
| CubeControl.DragTelescopes | src/cubeController.js:88-93 | over any sequence of moves the rotation changes by 0.01 times the distance from the start point to the last point; the drag stays on and the start time is kept |
| CubeControl.DragPathIndependent | src/cubeController.js:111-117 | two drags from the same point to the same last point give the same rotation, whatever the path |
| CubeControl.DragIgnoredWhenIdle | src/cubeController.js:86 | with no drag in progress or no loaded model, any sequence of moves leaves the controller unchanged |
| CubeControl.StopProperties | src/cubeController.js:128-134 | `stopRotation` always ends the drag, keeps the rotation and the start time, and a second call changes nothing |
| CubeControl.ResetProperties | src/cubeController.js:143-148 | `resetRotation` zeroes the rotation whether or not the model is loaded, and writes (0, 0) to the object only if it exists |
| CubeControl.DispatchKeepsGate | src/cubeController.js:27-73 | every handler keeps "interacting implies dragging" and never changes whether the model is loaded |
| CubeControl.IdleEventsIgnored | src/cubeController.js:48-73 | move and release events that arrive while not interacting change nothing |
| CubeControl.ReleaseStops | src/cubeController.js:61-73 | a mouseup or touchend while interacting clears the flag and runs `stopRotation` |
| CubeControl.RunAppend | src/cubeController.js:27-73 | running two event sequences one after the other equals running their concatenation |
| CubeControl.RunMovesIsDrag | src/cubeController.js:48-52 | while interacting, the mouse-move handler drives the controller exactly as the move sequence does |
| CubeControl.MouseSession | src/cubeController.js:30-35 | press at `p0` and time `at`, any moves, release: the rotation changes by 0.01 times the press-to-last-point distance, both flags end cleared, and the later tap test holds iff `now − at < 200` |
| CubeControl.CubeController.constructor | src/cubeController.js:7-13 | the new object's state is `Initial()` |
| CubeControl.CubeController.OnModelLoaded | src/cubeController.js:16-20 | the model becomes loaded and nothing else changes |
| CubeControl.CubeController.StartRotation | src/cubeController.js:78-83 | the new state is `Started(old state, point, now)` |
| CubeControl.CubeController.HandleMouseMove | src/cubeController.js:85-94 | the new state is `Moved(old state, client)` |
| CubeControl.CubeController.HandleTouchMove | src/cubeController.js:96-109 | the new state is `TouchMoved(old state, touch)` |
| CubeControl.CubeController.RotateByDelta | src/cubeController.js:111-126 | on a loaded model the rotation becomes (x − 0.01·dy, y + 0.01·dx) and is written to the object |
| CubeControl.CubeController.StopRotation | src/cubeController.js:128-134 | the new state is `Stopped(old state)` |
| CubeControl.CubeController.WasQuickTap | src/cubeController.js:137-140 | the answer is true iff `now − dragStartTime < 200` |
| CubeControl.CubeController.ResetRotation | src/cubeController.js:143-148 | the new state is `Zeroed(old state)` |
| CubeControl.CubeController.GetRotation | src/cubeController.js:151-153 | returns a value equal to the current rotation |
| CubeControl.PointerRouter.constructor | src/cubeController.js:23-27 | the listeners share one controller and start not interacting |
| CubeControl.PointerRouter.OnMouseDown | src/cubeController.js:30-35 | sets interacting and starts a rotation at the pointer |
| CubeControl.PointerRouter.OnTouchStart | src/cubeController.js:38-45 | with a touch point, sets interacting and starts a rotation there; without one, nothing changes |
| CubeControl.PointerRouter.OnMouseMove | src/cubeController.js:48-52 | forwards the move to the controller only while interacting |
| CubeControl.PointerRouter.OnTouchMove | src/cubeController.js:54-58 | forwards the touch move to the controller only while interacting |
| CubeControl.PointerRouter.OnMouseUp | src/cubeController.js:61-66 | only while interacting: clears the flag and stops the rotation |
| CubeControl.PointerRouter.OnTouchEnd | src/cubeController.js:68-73 | only while interacting: clears the flag and stops the rotation |
| Reveal.LayersOrdered | src/main.js:34-39 | the six layers have strictly increasing depth (base < text < tri1 < tri2 < tri3 < tri4) and six distinct ids |
| Reveal.FindId | src/main.js:20 | a found position holds an element with that id |
| Reveal.FindIdFirst | src/main.js:20 | the found element is the first with the id, and nothing is found iff no element has it |
| Reveal.Layered | src/main.js:19-31 | get-or-create: an existing element is returned and nothing changes; otherwise exactly one new element with that id and depth is appended and returned |
| Reveal.LayeredIdempotent | src/main.js:19-31 | asking again for a layer that now exists returns it and adds nothing, whatever depth is asked |
| Reveal.StackAllIds | src/main.js:34-39 | after the sequence of `layer` calls, each returned position holds the layer asked for there |
| Reveal.StackAllFresh | src/main.js:19-39 | on a page with none of the (distinct) ids, the layers are appended in order at consecutive positions |
| Reveal.SixCalls | src/main.js:34-39 | the six `layer` calls, one after another, are the stack of `Layers` |
| Reveal.StackedLaid | src/main.js:34-39 | after the six calls, base, text and the four triangles sit at the positions returned for them |
| Reveal.LaidDistinct | src/main.js:34-39 | the six laid layers are six different elements: the triangles are pairwise distinct and neither base nor text is a triangle |
| Reveal.DecoratedKeepsIds | src/main.js:50-67 | decorating the triangles keeps every element's id, depth and pulse state |
| Reveal.DecoratedEffect | src/main.js:50-67 | with distinct triangle positions, the i-th triangle ends with opacity 0.5 and the i-th pulse delay and is otherwise unchanged, and every element that is not a triangle is untouched |
| Reveal.LaidDecorated | src/main.js:50-67 | once the laid layers are decorated, base and text are exactly as before and each triangle is its earlier self with opacity 0.5 and its pulse delay |
| Reveal.FreshLayersStacked | src/main.js:33-39 | on a fresh page the six layers are appended in order and their depths strictly increase in stacking order |
| Reveal.Found | src/main.js:72-82 | `targetFound`: text opacity 1, all four triangles pulsing, exactly one timer pending (the new handle, due at now + 10000), HUD active; nothing happens if not wired |
| Reveal.Lost | src/main.js:84-89 | `targetLost`: no timer pending, `fadeTimer` null, pulses stopped, text opacity 1, HUD inactive |
| Reveal.Fire | src/main.js:81 | a pending timer fires once and leaves the text at opacity 0; a cleared or fired handle does nothing |
| Reveal.AtMostOnePending | src/main.js:80-81 | at most one fade timer is ever pending |
| Reveal.LostIdempotent | src/main.js:84-89 | a second `stopSequence` leaves the same state as the first |
| Reveal.Run | src/main.js:91-92 | any run of marker signals and timer firings keeps the sequencer's invariant and its wiring |
| Reveal.PendingOnlyFromLatestFound | src/main.js:80-85 | from a state with nothing pending, any pending timer after a run is the last handle issued, armed by the latest marker signal, which is a `targetFound`, and due 10000 ms after it |
| Reveal.FadeOnlyAfterLatestFound | src/main.js:80-85 | a fade occurs only from the timer of the latest `targetFound` with no `targetLost` after it, and it leaves the text at opacity 0 |
| Reveal.NoFadeAfterLoss | src/main.js:85 | after `stopSequence`, timer firings before the next `targetFound` change nothing |
| Reveal.Overlay.constructor | src/main.js:9-67 | with no marker root nothing is wired, the registry is the page as it was and no timer is pending; otherwise base, text and the triangles are the positions the six get-or-create calls return, the registry is their result with only the triangles decorated, base and text are as those calls left them, and each triangle has opacity 0.5 and its pulse delay (0, 200, 400, 600 ms); the HUD is as found |
| Reveal.Overlay.Wire | src/main.js:33-67 | the layers are laid, their positions are those the six get-or-create calls return, and the registry is their result with the four triangles decorated and nothing else changed |
| Reveal.Overlay.CreateLayers | src/main.js:34-39 | the registry and the returned positions are those of the six `layer` calls |
| Reveal.Overlay.DecorateTriangles | src/main.js:50-67 | the new registry is the old one with the four triangles decorated, in order, and the layers stay laid |
| Reveal.Overlay.Layer | src/main.js:19-31 | the registry and the returned element follow `Layered` |
| Reveal.Overlay.EmitPulses | src/main.js:77 | every triangle, and nothing else, gets the pulse state |
| Reveal.Overlay.TargetFound | src/main.js:72-82 | both `targetFound` listeners (HUD, then `startSequence`): the new state is `Found(old state, now)` |
| Reveal.Overlay.TargetLost | src/main.js:84-89 | both `targetLost` listeners (HUD, then `stopSequence`): the new state is `Lost(old state)` |
| Reveal.Overlay.FireTimer | src/main.js:81 | the new state is `Fire(old state, h)` |
| CubeFacesModel.FaceConfigDistinct | src/cubeFaces.js:15-22 | `faceConfig` has six entries with pairwise-distinct names |
| CubeFacesModel.Find | src/cubeFaces.js:101-103 | the first face with the name, or nothing iff no face has it |
| CubeFacesModel.RelabelMissing | src/cubeFaces.js:106-108 | relabelling a name not in the list changes nothing |
| CubeFacesModel.RelabelPresent | src/cubeFaces.js:107-111 | relabelling a present name changes the label and text of the first match only; every other face and the length stay the same |
| CubeFacesModel.RelabelThenFind | src/cubeFaces.js:106-111 | after relabelling, the name finds the same position, now carrying the new label |
| CubeFacesModel.VisibilityOnlyTouchesVisible | src/cubeFaces.js:115-119 | `setVisible(v)` gives every face visibility `v` and changes no name, label or placement |
| CubeFacesModel.FindAppend | src/cubeFaces.js:95 | appending keeps every earlier match; the new entry is found only when nothing earlier matches |
| CubeFacesModel.SideButtonsFound | src/cubeFaces.js:51-56 | once the two side buttons exist, `getFace('left')` and `getFace('right')` both succeed |
| CubeFacesModel.CubeFaces.constructor | src/cubeFaces.js:7-22 | the list starts empty and `faceConfig` is the six-face table |
| CubeFacesModel.CubeFaces.CreateFaceLabels | src/cubeFaces.js:31-41 | arms the deferred creation and creates nothing yet |
| CubeFacesModel.CubeFaces.FireDeferredLabels | src/cubeFaces.js:41-60 | the deferred step appends exactly the left button (x = −16, rotation −90) and the right button (x = 16, rotation 90), both size 24 |
| CubeFacesModel.CubeFaces.CreateImageButton | src/cubeFaces.js:63-98 | appends exactly one entry `{name, label}` and keeps every earlier one |
| CubeFacesModel.CubeFaces.GetFace | src/cubeFaces.js:101-103 | returns a face iff one has the name, and then the first such face |
| CubeFacesModel.CubeFaces.UpdateFaceLabel | src/cubeFaces.js:106-112 | the list becomes `Relabeled(old list, name, label)` |
| CubeFacesModel.CubeFaces.SetVisible | src/cubeFaces.js:115-119 | the list becomes `WithVisibility(old list, visible)` |

## Left out

- Rendering and the DOM are not modelled: A-Frame entities, `setAttribute` strings,
  textures and asset URLs, `window.AR_BASE_PATH` and the button press animation. An
  element is reduced to its id, depth, opacity, pulse delay and pulse state. A face
  button is reduced to its placement, size, visibility and text value.
- The fade and pulse animations (easing, the 1200 ms fade, the 900 ms pulse loop) are
  not modelled. `start-fade` is taken at its end value, text opacity 0. A pulse is
  running or stopped.
- Floating point: rotations, points and depths are `real`, so rounding of `delta*0.01`
  is not modelled.
- `Date.now()`, `setTimeout` and `clearTimeout` are not modelled as a clock. Time is a
  parameter. A timer is a handle in a pending map that fires by an explicit step. The
  1000 ms deferral in `createFaceLabels` is a counter of pending creations.
- Console logging, event-listener registration, `model-loaded` and `DOMContentLoaded`
  are not modelled as an event system. They become the constructor, `OnModelLoaded` and
  explicit handler calls. `preventDefault` in the touch handler has no modelled effect.
- CubeControl.CubeController.RotateByDelta: requires a loaded model. The source
  dereferences `cubeObject3D` without a check and would throw before it loads; its only
  callers check first.
- CubeFacesModel.CubeFaces.GetFace: returns a copy of the face. The source returns the
  shared object, so aliasing through it is not modelled. The element's text attribute
  written by `updateFaceLabel` is folded into the face as `text`.
- Markup elements other than the six layers and the HUD are not modelled, including the
  HUD buttons `btn-1`..`btn-3`, which only log. `src/assets/main.js` and `vite.config.js`
  are not part of this model.
- A tap is judged by duration alone, as the code does. There is no distance tolerance.
