/**
  The image preview dialog's view state: zoom, rotation and panning, driven by
  button, mouse and wheel events. Scale is counted in quarter steps (4 is 1x).
 */
module ImagePreview {

  datatype Point = Point(x: int, y: int)

  /** Zoom limits in quarter steps: 0.5x to 3x. */
  const MinScale: int := 2
  const MaxScale: int := 12
  const UnitScale: int := 4

  datatype View = View(scale: int, rotation: int, position: Point, isDragging: bool, dragStart: Point)

  datatype Event =
    | ZoomIn
    | ZoomOut
    | Rotate
    | Reset
    | MouseDown(client: Point)
    | MouseMove(client: Point)
    | MouseUp             // also what leaving the image area does
    | Wheel(deltaY: int)

  /** The state the dialog starts in. */
  const Initial: View := View(UnitScale, 0, Point(0, 0), false, Point(0, 0))

  function Min(a: int, b: int): int { if a <= b then a else b }
  function Max(a: int, b: int): int { if a >= b then a else b }

  function ZoomedIn(v: View): View
  {
    v.(scale := Min(v.scale + 1, MaxScale))
  }

  function ZoomedOut(v: View): View
  {
    v.(scale := Max(v.scale - 1, MinScale))
  }

  /** The state after one event. */
  function Step(v: View, e: Event): View
  {
    match e
    case ZoomIn => ZoomedIn(v)
    case ZoomOut => ZoomedOut(v)
    case Rotate => v.(rotation := (v.rotation + 90) % 360)
    case Reset => v.(scale := UnitScale, rotation := 0, position := Point(0, 0))
    case MouseDown(c) => v.(isDragging := true, dragStart := Point(c.x - v.position.x, c.y - v.position.y))
    case MouseMove(c) =>
      if v.isDragging then v.(position := Point(c.x - v.dragStart.x, c.y - v.dragStart.y)) else v
    case MouseUp => v.(isDragging := false)
    case Wheel(deltaY) => if deltaY < 0 then ZoomedIn(v) else ZoomedOut(v)
  }

  /** The state after a sequence of events. */
  function Run(v: View, events: seq<Event>): View
    decreases |events|
  {
    if events == [] then v else Run(Step(v, events[0]), events[1..])
  }

  /** Scale within [0.5x, 3x] and a rotation that is a multiple of 90 degrees below 360. */
  predicate Valid(v: View)
  {
    MinScale <= v.scale <= MaxScale && v.rotation in {0, 90, 180, 270}
  }

  lemma StepKeepsValid(v: View, e: Event)
    requires Valid(v)
    ensures Valid(Step(v, e))
  {
  }

  /** From the initial state, whatever the events, scale and rotation stay in range. */
  lemma {:induction false} RunKeepsValid(v: View, events: seq<Event>)
    requires Valid(v)
    ensures Valid(Run(v, events))
    decreases |events|
  {
    if events != [] {
      StepKeepsValid(v, events[0]);
      RunKeepsValid(Step(v, events[0]), events[1..]);
    }
  }

  lemma InitialIsValid()
    ensures Valid(Initial)
  {
  }

  /** Zooming in adds a quarter up to 3x; zooming out removes one down to 0.5x; nothing else moves. */
  lemma ZoomIsClamped(v: View)
    requires Valid(v)
    ensures Step(v, ZoomIn) == v.(scale := if v.scale < MaxScale then v.scale + 1 else MaxScale)
    ensures Step(v, ZoomOut) == v.(scale := if v.scale > MinScale then v.scale - 1 else MinScale)
  {
  }

  /** Four rotations bring the image back to where it was. */
  lemma FourRotationsAreIdentity(v: View)
    requires Valid(v)
    ensures Run(v, [Rotate, Rotate, Rotate, Rotate]) == v
  {
    var once := Step(v, Rotate);
    var twice := Step(once, Rotate);
    var thrice := Step(twice, Rotate);
    assert [Rotate, Rotate, Rotate, Rotate][1..] == [Rotate, Rotate, Rotate];
    assert [Rotate, Rotate, Rotate][1..] == [Rotate, Rotate];
    assert [Rotate, Rotate][1..] == [Rotate];
    assert Run(v, [Rotate, Rotate, Rotate, Rotate]) == Run(thrice, [Rotate]);
  }

  /** Reset restores scale 1x, rotation 0 and position (0, 0), leaving the drag state alone. */
  lemma ResetRestoresView(v: View)
    ensures var r := Step(v, Reset);
      r.scale == Initial.scale && r.rotation == Initial.rotation && r.position == Initial.position
      && r.isDragging == v.isDragging && r.dragStart == v.dragStart
  {
  }

  /** A move without a drag in progress changes nothing; mouse-up ends any drag. */
  lemma MoveWithoutDragIsIgnored(v: View, c: Point)
    requires !v.isDragging
    ensures Step(v, MouseMove(c)) == v
    ensures !Step(v, MouseUp).isDragging
  {
  }

  /**
    Pressing at one point and moving to another pans the image by the pointer's
    displacement; moving back to the press point leaves the image where it was.
   */
  lemma DragPansByDisplacement(v: View, down: Point, moves: seq<Point>)
    requires moves != []
    ensures var events := [MouseDown(down)] + seq(|moves|, i requires 0 <= i < |moves| => MouseMove(moves[i]));
      var last := moves[|moves| - 1];
      Run(v, events).position == Point(v.position.x + last.x - down.x, v.position.y + last.y - down.y)
  {
    var events := [MouseDown(down)] + seq(|moves|, i requires 0 <= i < |moves| => MouseMove(moves[i]));
    var pressed := Step(v, MouseDown(down));
    assert Run(v, events) == Run(pressed, events[1..]);
    DraggingFollowsPointer(pressed, moves);
  }

  lemma {:induction false} DraggingFollowsPointer(v: View, moves: seq<Point>)
    requires v.isDragging && moves != []
    ensures var r := Run(v, seq(|moves|, i requires 0 <= i < |moves| => MouseMove(moves[i])));
      var last := moves[|moves| - 1];
      r.isDragging && r.dragStart == v.dragStart
      && r.position == Point(last.x - v.dragStart.x, last.y - v.dragStart.y)
    decreases |moves|
  {
    var events := seq(|moves|, i requires 0 <= i < |moves| => MouseMove(moves[i]));
    var next := Step(v, events[0]);
    if |moves| > 1 {
      DraggingFollowsPointer(next, moves[1..]);
      assert events[1..] == seq(|moves[1..]|, i requires 0 <= i < |moves[1..]| => MouseMove(moves[1..][i]));
    } else {
      assert Run(next, events[1..]) == next;
    }
  }

  /** The wheel zooms in when scrolled up (negative deltaY) and out otherwise. */
  lemma WheelZooms(v: View, deltaY: int)
    ensures Step(v, Wheel(deltaY)) == if deltaY < 0 then Step(v, ZoomIn) else Step(v, ZoomOut)
  {
  }

  /** The dialog's state fields, changed by its event handlers. */
  class ImagePreviewDialog {
    var scale: int
    var rotation: int
    var position: Point
    var isDragging: bool
    var dragStart: Point

    function Current(): View
      reads this
    {
      View(scale, rotation, position, isDragging, dragStart)
    }

    constructor()
      ensures Current() == Initial
    {
      scale := UnitScale;
      rotation := 0;
      position := Point(0, 0);
      isDragging := false;
      dragStart := Point(0, 0);
    }

    method HandleZoomIn()
      modifies this
      ensures Current() == Step(old(Current()), ZoomIn)
    {
      scale := Min(scale + 1, MaxScale);
    }

    method HandleZoomOut()
      modifies this
      ensures Current() == Step(old(Current()), ZoomOut)
    {
      scale := Max(scale - 1, MinScale);
    }

    method HandleRotate()
      modifies this
      ensures Current() == Step(old(Current()), Rotate)
    {
      rotation := (rotation + 90) % 360;
    }

    method HandleReset()
      modifies this
      ensures Current() == Step(old(Current()), Reset)
    {
      scale := UnitScale;
      rotation := 0;
      position := Point(0, 0);
    }

    method HandleMouseDown(client: Point)
      modifies this
      ensures Current() == Step(old(Current()), MouseDown(client))
    {
      isDragging := true;
      dragStart := Point(client.x - position.x, client.y - position.y);
    }

    method HandleMouseMove(client: Point)
      modifies this
      ensures Current() == Step(old(Current()), MouseMove(client))
    {
      if isDragging {
        position := Point(client.x - dragStart.x, client.y - dragStart.y);
      }
    }

    method HandleMouseUp()
      modifies this
      ensures Current() == Step(old(Current()), MouseUp)
    {
      isDragging := false;
    }

    method HandleWheel(deltaY: int)
      modifies this
      ensures Current() == Step(old(Current()), Wheel(deltaY))
    {
      if deltaY < 0 {
        HandleZoomIn();
      } else {
        HandleZoomOut();
      }
    }
  }
}
