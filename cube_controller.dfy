/**
 * Drag-rotation controller of the business-card cube (src/cubeController.js).
 *
 * `CubeController` keeps a dragging flag, the last pointer point, the accumulated
 * (x, y) rotation and the time the drag started; `PointerRouter` is the closure built
 * by `setupInteraction`, whose `interacting` flag gates the move and release handlers.
 * Time is an explicit parameter in place of `Date.now()`, and pointer events are
 * explicit calls in place of DOM listeners.
 */
module CubeControl {
  import opened Options

  /** A pointer position in CSS pixels (`clientX`, `clientY`). */
  datatype Point = Point(x: real, y: real)

  /** Euler angles about the X and Y axes; the Z angle is always written as 0. */
  datatype Euler = Euler(x: real, y: real)

  /** Radians of rotation per pixel of pointer travel. */
  const Sensitivity: real := 0.01

  /** A press shorter than this many milliseconds counts as a tap. */
  const TapThresholdMs: int := 200

  /**
   * The controller's state. `loaded` stands for `cubeObject3D != null`; `written` is
   * the last (x, y) passed to the Three.js object's `rotation.set`, `None` before any.
   */
  datatype Controller = Controller(
    loaded: bool,
    dragging: bool,
    prev: Point,
    rotation: Euler,
    startTime: int,
    written: Option<Euler>)

  const Origin: Point := Point(0.0, 0.0)
  const Upright: Euler := Euler(0.0, 0.0)

  /** The state the constructor builds, before the model has loaded. */
  function Initial(): (c: Controller)
    ensures !c.loaded && !c.dragging && c.rotation == Upright && c.written == None
  {
    Controller(false, false, Origin, Upright, 0, None)
  }

  // ---------------------------------------------------------------------------
  // Transitions, one per method of the source class

  /** `startRotation(point)` at time `now`. */
  function Started(c: Controller, p: Point, now: int): Controller
  {
    c.(dragging := true, prev := p, startTime := now)
  }

  /** `rotateByDelta(dx, dy)`: horizontal travel turns about Y, vertical travel about -X. */
  function Rotated(c: Controller, dx: real, dy: real): Controller
  {
    var r := Euler(c.rotation.x - dy * Sensitivity, c.rotation.y + dx * Sensitivity);
    c.(rotation := r, written := Some(r))
  }

  /** `handleMouseMove` with the pointer at `q`. */
  function Moved(c: Controller, q: Point): Controller
  {
    if !c.dragging || !c.loaded then c
    else Rotated(c, q.x - c.prev.x, q.y - c.prev.y).(prev := q)
  }

  /** `handleTouchMove`, where `touch` is `event.touches[0]` if there is one. */
  function TouchMoved(c: Controller, touch: Option<Point>): Controller
  {
    if !c.dragging || !c.loaded then c
    else match touch
      case None => c
      case Some(q) => Rotated(c, q.x - c.prev.x, q.y - c.prev.y).(prev := q)
  }

  /** `stopRotation()`. */
  function Stopped(c: Controller): Controller
  {
    c.(dragging := false)
  }

  /** `resetRotation()`: the rotation is zeroed, and written to the object only if it exists. */
  function Zeroed(c: Controller): Controller
  {
    c.(rotation := Upright, written := if c.loaded then Some(Upright) else c.written)
  }

  /** `wasQuickTap()` at time `now`. */
  function IsQuickTap(c: Controller, now: int): bool
  {
    now - c.startTime < TapThresholdMs
  }

  // ---------------------------------------------------------------------------
  // A drag as a sequence of moves

  /** The state after the pointer visits `moves` in order. */
  function Drag(c: Controller, moves: seq<Point>): Controller
    decreases |moves|
  {
    if moves == [] then c else Drag(Moved(c, moves[0]), moves[1..])
  }

  /** Where the pointer ends up: the last move, or `p0` if there was none. */
  function Last(p0: Point, moves: seq<Point>): Point
  {
    if moves == [] then p0 else moves[|moves| - 1]
  }

  /** The rotation a drag from `from` to `to` produces, starting at `r`. */
  function Turned(r: Euler, from: Point, to: Point): Euler
  {
    Euler(r.x - (to.y - from.y) * Sensitivity, r.y + (to.x - from.x) * Sensitivity)
  }

  /** A press starts a drag from `p` at `now` and leaves the rotation alone. */
  lemma StartProperties(c: Controller, p: Point, now: int)
    ensures Started(c, p, now).dragging && Started(c, p, now).prev == p
    ensures Started(c, p, now).startTime == now
    ensures Started(c, p, now).rotation == c.rotation && Started(c, p, now).written == c.written
  {
  }

  /** One move applies the difference from the previous point and remembers the new one. */
  lemma MoveAppliesDelta(c: Controller, q: Point)
    requires c.dragging && c.loaded
    ensures Moved(c, q).rotation == Turned(c.rotation, c.prev, q)
    ensures Moved(c, q).prev == q && Moved(c, q).written == Some(Moved(c, q).rotation)
    ensures Moved(c, q).dragging && Moved(c, q).startTime == c.startTime
  {
  }

  /** A move while not dragging, or before the model has loaded, changes nothing. */
  lemma MoveIgnoredWhenIdle(c: Controller, q: Point, touch: Option<Point>)
    requires !c.dragging || !c.loaded
    ensures Moved(c, q) == c && TouchMoved(c, touch) == c
  {
  }

  /** A touch move is a mouse move to the first touch point, and nothing without one. */
  lemma TouchMoveAgrees(c: Controller, touch: Option<Point>)
    ensures touch.Some? ==> TouchMoved(c, touch) == Moved(c, touch.value)
    ensures touch.None? ==> TouchMoved(c, touch) == c
  {
  }

  /**
   * The deltas telescope: over any sequence of moves the rotation changes by the
   * sensitivity times the distance from the first point to the last, whatever path
   * the pointer took in between.
   */
  lemma {:induction false} DragTelescopes(c: Controller, moves: seq<Point>)
    requires c.dragging && c.loaded
    ensures Drag(c, moves).rotation == Turned(c.rotation, c.prev, Last(c.prev, moves))
    ensures Drag(c, moves).prev == Last(c.prev, moves)
    ensures Drag(c, moves).dragging && Drag(c, moves).loaded
    ensures Drag(c, moves).startTime == c.startTime
    decreases |moves|
  {
    if moves != [] {
      var c' := Moved(c, moves[0]);
      DragTelescopes(c', moves[1..]);
      assert Last(moves[0], moves[1..]) == Last(c.prev, moves);
    }
  }

  /** Two drags that start and end at the same points leave the same rotation. */
  lemma DragPathIndependent(c: Controller, m1: seq<Point>, m2: seq<Point>)
    requires c.dragging && c.loaded
    requires Last(c.prev, m1) == Last(c.prev, m2)
    ensures Drag(c, m1).rotation == Drag(c, m2).rotation
  {
    DragTelescopes(c, m1);
    DragTelescopes(c, m2);
  }

  /** Without a drag in progress (or a loaded model) a whole sequence of moves is inert. */
  lemma {:induction false} DragIgnoredWhenIdle(c: Controller, moves: seq<Point>)
    requires !c.dragging || !c.loaded
    ensures Drag(c, moves) == c
    decreases |moves|
  {
    if moves != [] {
      DragIgnoredWhenIdle(Moved(c, moves[0]), moves[1..]);
    }
  }

  /** Stopping ends the drag, keeps the rotation and start time, and is idempotent. */
  lemma StopProperties(c: Controller)
    ensures !Stopped(c).dragging
    ensures Stopped(c).rotation == c.rotation && Stopped(c).startTime == c.startTime
    ensures Stopped(Stopped(c)) == Stopped(c)
  {
  }

  /** Resetting zeroes the rotation whether or not the model has loaded. */
  lemma ResetProperties(c: Controller)
    ensures Zeroed(c).rotation == Upright
    ensures c.loaded ==> Zeroed(c).written == Some(Upright)
    ensures !c.loaded ==> Zeroed(c).written == c.written
  {
  }

  // ---------------------------------------------------------------------------
  // The pointer handlers of setupInteraction

  /** The DOM events the handlers listen to; a press carries its time. */
  datatype PointerEvent =
    | MouseDown(p: Point, at: int)
    | TouchStart(touch: Option<Point>, at: int)
    | MouseMove(p: Point)
    | TouchDrag(touch: Option<Point>)
    | MouseUp
    | TouchEnd

  /** The `interacting` flag of the handler closure together with the controller. */
  datatype Gesture = Gesture(interacting: bool, ctrl: Controller)

  /** The handler run for one event. */
  function Dispatch(g: Gesture, e: PointerEvent): Gesture
  {
    match e
    case MouseDown(p, at) => Gesture(true, Started(g.ctrl, p, at))
    case TouchStart(touch, at) =>
      if touch.Some? then Gesture(true, Started(g.ctrl, touch.value, at)) else g
    case MouseMove(p) => if g.interacting then g.(ctrl := Moved(g.ctrl, p)) else g
    case TouchDrag(touch) => if g.interacting then g.(ctrl := TouchMoved(g.ctrl, touch)) else g
    case MouseUp => if g.interacting then Gesture(false, Stopped(g.ctrl)) else g
    case TouchEnd => if g.interacting then Gesture(false, Stopped(g.ctrl)) else g
  }

  /** The state after the handlers have run for `events` in order. */
  function Run(g: Gesture, events: seq<PointerEvent>): Gesture
    decreases |events|
  {
    if events == [] then g else Run(Dispatch(g, events[0]), events[1..])
  }

  /** Mouse moves to each point of `moves`. */
  function MouseMoves(moves: seq<Point>): seq<PointerEvent>
  {
    seq(|moves|, i requires 0 <= i < |moves| => MouseMove(moves[i]))
  }

  /** While the handlers are interacting, the flag implies a drag in progress. */
  ghost predicate Gated(g: Gesture)
  {
    g.interacting ==> g.ctrl.dragging
  }

  /** Every handler keeps the gate consistent with the controller, and never unloads it. */
  lemma DispatchKeepsGate(g: Gesture, e: PointerEvent)
    requires Gated(g)
    ensures Gated(Dispatch(g, e))
    ensures Dispatch(g, e).ctrl.loaded == g.ctrl.loaded
  {
  }

  /** Moves and releases that arrive while not interacting are ignored. */
  lemma IdleEventsIgnored(g: Gesture, e: PointerEvent)
    requires !g.interacting
    requires e.MouseMove? || e.TouchDrag? || e.MouseUp? || e.TouchEnd?
    ensures Dispatch(g, e) == g
  {
  }

  /** A release while interacting stops the rotation and clears the flag. */
  lemma ReleaseStops(g: Gesture, e: PointerEvent)
    requires g.interacting && (e.MouseUp? || e.TouchEnd?)
    ensures Dispatch(g, e) == Gesture(false, Stopped(g.ctrl))
  {
  }

  /** Handling two event lists one after the other is handling their concatenation. */
  lemma {:induction false} RunAppend(g: Gesture, a: seq<PointerEvent>, b: seq<PointerEvent>)
    ensures Run(g, a + b) == Run(Run(g, a), b)
    decreases |a|
  {
    if a == [] {
      assert a + b == b;
    } else {
      assert (a + b)[1..] == a[1..] + b;
      RunAppend(Dispatch(g, a[0]), a[1..], b);
    }
  }

  /** While interacting, the mouse-move handler drives the controller exactly as `Drag`. */
  lemma {:induction false} RunMovesIsDrag(g: Gesture, moves: seq<Point>)
    requires g.interacting && g.ctrl.dragging && g.ctrl.loaded
    ensures Run(g, MouseMoves(moves)) == Gesture(true, Drag(g.ctrl, moves))
    decreases |moves|
  {
    if moves != [] {
      var g' := Dispatch(g, MouseMove(moves[0]));
      assert MouseMoves(moves)[1..] == MouseMoves(moves[1..]);
      MoveAppliesDelta(g.ctrl, moves[0]);
      RunMovesIsDrag(g', moves[1..]);
    }
  }

  /**
   * A whole mouse session: press at `p0` at time `at`, move through `moves`, release.
   * The rotation changes by the sensitivity times the press-to-last-point distance,
   * the drag and the gate end cleared, and the tap test afterwards depends only on `at`.
   */
  lemma MouseSession(g: Gesture, p0: Point, at: int, moves: seq<Point>, now: int)
    requires g.ctrl.loaded
    ensures var h := Run(g, [MouseDown(p0, at)] + MouseMoves(moves) + [MouseUp]);
      && h.ctrl.rotation == Turned(g.ctrl.rotation, p0, Last(p0, moves))
      && !h.interacting && !h.ctrl.dragging
      && h.ctrl.startTime == at
      && (IsQuickTap(h.ctrl, now) <==> now - at < TapThresholdMs)
  {
    var g1 := Dispatch(g, MouseDown(p0, at));
    assert Run(g, [MouseDown(p0, at)]) == g1;
    RunAppend(g, [MouseDown(p0, at)], MouseMoves(moves));
    RunMovesIsDrag(g1, moves);
    DragTelescopes(g1.ctrl, moves);
    RunAppend(g, [MouseDown(p0, at)] + MouseMoves(moves), [MouseUp]);
  }

  // ---------------------------------------------------------------------------
  // The source class, updated in place

  class CubeController {
    /** `cubeObject3D != null`: set once the model has loaded. */
    var loaded: bool
    var isDragging: bool
    var previousTouch: Point
    var rotation: Euler
    var dragStartTime: int
    /** The last (x, y) written to the Three.js object's rotation. */
    var written: Option<Euler>

    function Model(): Controller
      reads this
    {
      Controller(loaded, isDragging, previousTouch, rotation, dragStartTime, written)
    }

    constructor ()
      ensures Model() == Initial()
    {
      loaded, isDragging := false, false;
      previousTouch, rotation := Origin, Upright;
      dragStartTime, written := 0, None;
    }

    /** The `model-loaded` listener: the Three.js object becomes available. */
    method OnModelLoaded()
      modifies this
      ensures Model() == old(Model()).(loaded := true)
    {
      loaded := true;
    }

    method StartRotation(point: Point, now: int)
      modifies this
      ensures Model() == Started(old(Model()), point, now)
    {
      isDragging := true;
      previousTouch := Point(point.x, point.y);
      dragStartTime := now;
    }

    method HandleMouseMove(client: Point)
      modifies this
      ensures Model() == Moved(old(Model()), client)
    {
      if !isDragging || !loaded {
        return;
      }
      var deltaX := client.x - previousTouch.x;
      var deltaY := client.y - previousTouch.y;
      RotateByDelta(deltaX, deltaY);
      previousTouch := Point(client.x, client.y);
    }

    method HandleTouchMove(touch: Option<Point>)
      modifies this
      ensures Model() == TouchMoved(old(Model()), touch)
    {
      if !isDragging || !loaded {
        return;
      }
      if touch.None? {
        return;
      }
      var t := touch.value;
      var deltaX := t.x - previousTouch.x;
      var deltaY := t.y - previousTouch.y;
      RotateByDelta(deltaX, deltaY);
      previousTouch := Point(t.x, t.y);
    }

    /** The source dereferences the Three.js object here without a check. */
    method RotateByDelta(deltaX: real, deltaY: real)
      requires loaded
      modifies this
      ensures Model() == Rotated(old(Model()), deltaX, deltaY)
    {
      rotation := Euler(rotation.x - deltaY * Sensitivity, rotation.y + deltaX * Sensitivity);
      written := Some(Euler(rotation.x, rotation.y));
    }

    method StopRotation()
      modifies this
      ensures Model() == Stopped(old(Model()))
    {
      isDragging := false;
    }

    method WasQuickTap(now: int) returns (quick: bool)
      ensures quick <==> now - dragStartTime < TapThresholdMs
    {
      var duration := now - dragStartTime;
      quick := duration < TapThresholdMs;
    }

    method ResetRotation()
      modifies this
      ensures Model() == Zeroed(old(Model()))
    {
      rotation := Upright;
      if loaded {
        written := Some(Upright);
      }
    }

    /** A copy of the accumulated rotation. */
    method GetRotation() returns (r: Euler)
      ensures r == rotation
    {
      r := Euler(rotation.x, rotation.y);
    }
  }

  /** The listeners installed by `setupInteraction`, sharing the `interacting` flag. */
  class PointerRouter {
    var interacting: bool
    const controller: CubeController

    function View(): Gesture
      reads this, controller
    {
      Gesture(interacting, controller.Model())
    }

    /** `setupInteraction` runs from the `model-loaded` listener, so the model is loaded. */
    constructor (c: CubeController)
      requires c.loaded
      ensures controller == c && !interacting
    {
      controller := c;
      interacting := false;
    }

    method OnMouseDown(client: Point, now: int)
      modifies this, controller
      ensures View() == Dispatch(old(View()), MouseDown(client, now))
    {
      interacting := true;
      controller.StartRotation(client, now);
    }

    method OnTouchStart(touch: Option<Point>, now: int)
      modifies this, controller
      ensures View() == Dispatch(old(View()), TouchStart(touch, now))
    {
      if touch.Some? {
        interacting := true;
        controller.StartRotation(touch.value, now);
      }
    }

    method OnMouseMove(client: Point)
      modifies controller
      ensures View() == Dispatch(old(View()), MouseMove(client))
    {
      if interacting {
        controller.HandleMouseMove(client);
      }
    }

    method OnTouchMove(touch: Option<Point>)
      modifies controller
      ensures View() == Dispatch(old(View()), TouchDrag(touch))
    {
      if interacting {
        controller.HandleTouchMove(touch);
      }
    }

    method OnMouseUp()
      modifies this, controller
      ensures View() == Dispatch(old(View()), MouseUp)
    {
      if interacting {
        interacting := false;
        controller.StopRotation();
      }
    }

    method OnTouchEnd()
      modifies this, controller
      ensures View() == Dispatch(old(View()), TouchEnd)
    {
      if interacting {
        interacting := false;
        controller.StopRotation();
      }
    }
  }
}
