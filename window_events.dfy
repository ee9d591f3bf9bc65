/** The window's event handlers as transition functions on its state: the
    Idle/Resizing machine driven by the mouse and the Shift key, and the drag
    strip's own dragging machine. The classes in module Widget are proved to
    follow these functions; the lemmas here are about whole event sequences. */
module WindowEvents {
  import opened QtRect
  import opened ResizeGeometry

  datatype MouseButton = LeftButton | RightButton | MiddleButton

  datatype Key = ShiftKey | OtherKey

  /** Everything the resize handlers read or write. `resizing` is the
      Idle/Resizing state; `resizeEdge`, `startPos` (global pointer position at
      the press) and `startGeometry` (the window rectangle at the press) are the
      gesture's session; `handleGeometry` is where the drag strip sits, in window
      coordinates. */
  datatype WindowState = WindowState(
    geometry: Rect,
    resizing: bool,
    resizeEdge: Option<Edge>,
    startPos: Option<Point>,
    startGeometry: Option<Rect>,
    maintainAspectRatio: bool,
    cursor: Cursor,
    handleGeometry: Rect)

  /** A gesture in progress has an edge and a snapshot; when idle there is no edge. */
  predicate SessionConsistent(s: WindowState) {
    (s.resizing <==> s.resizeEdge.Some?) &&
    (s.resizing ==> s.startPos.Some? && s.startGeometry.Some?)
  }

  /** The drag strip spans the top inner edge of the current window width. */
  predicate HandleAligned(s: WindowState) {
    s.handleGeometry == HandleLayout(Width(s.geometry))
  }

  predicate Valid(s: WindowState) {
    SessionConsistent(s) && HandleAligned(s)
  }

  /** The state once the window is built and its stored geometry applied. The
      geometry is taken as it comes: nothing checks it against the size limits
      or the screen. */
  function Initial(geometry: Rect): (s: WindowState)
    ensures Valid(s)
    ensures s.geometry == geometry && !s.resizing && !s.maintainAspectRatio && s.cursor == ArrowCursor
  {
    WindowState(geometry, false, None, None, None, false, ArrowCursor, HandleLayout(Width(geometry)))
  }

  /** Mouse press on the window: a left press over a border region starts a
      gesture, recording the edge, the global pointer position and a snapshot of
      the window rectangle; any other press changes nothing. */
  function MousePress(s: WindowState, button: MouseButton, local: Point, global: Point): (r: WindowState)
    requires Valid(s)
    ensures Valid(r)
    ensures var edge := ResizeEdgeAt(local, Width(s.geometry), Height(s.geometry));
            if button == LeftButton && edge.Some? then
              r.resizing && r.resizeEdge == edge && r.startPos == Some(global) &&
              r.startGeometry == Some(s.geometry) &&
              r.geometry == s.geometry && r.maintainAspectRatio == s.maintainAspectRatio &&
              r.cursor == s.cursor && r.handleGeometry == s.handleGeometry
            else r == s
  {
    if button == LeftButton then
      var edge := ResizeEdgeAt(local, Width(s.geometry), Height(s.geometry));
      if edge.Some? then
        s.(resizing := true, resizeEdge := edge, startPos := Some(global),
           startGeometry := Some(FromPosSize(Pos(s.geometry), Width(s.geometry), Height(s.geometry))))
      else s
    else s
  }

  /** The candidate a resizing move to `global` asks for: it depends only on the
      session and the Shift state, never on the current geometry. */
  function Candidate(s: WindowState, global: Point): Rect
    requires Valid(s) && s.resizing
  {
    CalculateNewGeometry(s.startGeometry.value, s.resizeEdge.value,
                         Sub(global, s.startPos.value), s.maintainAspectRatio)
  }

  /** Mouse move over the window. When idle only the cursor changes, to the one
      for the border region under the pointer. When resizing, the candidate is
      applied if it is valid and dropped otherwise; the cursor and the session
      stay as they are. The geometry never changes except to a valid rectangle
      during a gesture. */
  function MouseMove(s: WindowState, local: Point, global: Point, screen: Rect): (r: WindowState)
    requires Valid(s)
    ensures Valid(r)
    ensures r.resizing == s.resizing && r.resizeEdge == s.resizeEdge && r.startPos == s.startPos &&
            r.startGeometry == s.startGeometry && r.maintainAspectRatio == s.maintainAspectRatio
    ensures !s.resizing ==>
              r.geometry == s.geometry &&
              r.cursor == CursorForEdge(ResizeEdgeAt(local, Width(s.geometry), Height(s.geometry)))
    ensures s.resizing ==>
              r.cursor == s.cursor &&
              (if IsValidGeometry(Candidate(s, global), screen) then r.geometry == Candidate(s, global)
               else r.geometry == s.geometry)
    ensures r.geometry != s.geometry ==> s.resizing && IsValidGeometry(r.geometry, screen)
  {
    if !s.resizing then
      var edge := ResizeEdgeAt(local, Width(s.geometry), Height(s.geometry));
      s.(cursor := CursorForEdge(edge))
    else
      var delta := Sub(global, s.startPos.value);
      var newGeometry := CalculateNewGeometry(s.startGeometry.value, s.resizeEdge.value, delta, s.maintainAspectRatio);
      if IsValidGeometry(newGeometry, screen) then
        s.(geometry := newGeometry, handleGeometry := HandleLayout(Width(newGeometry)))
      else s
  }

  /** Mouse release: a left release ends any gesture and resets the cursor. */
  function MouseRelease(s: WindowState, button: MouseButton): (r: WindowState)
    requires Valid(s)
    ensures Valid(r)
    ensures button == LeftButton ==>
              !r.resizing && r.resizeEdge.None? && r.cursor == ArrowCursor &&
              r.(resizing := s.resizing, resizeEdge := s.resizeEdge, cursor := s.cursor) == s
    ensures button != LeftButton ==> r == s
  {
    if button == LeftButton then s.(resizing := false, resizeEdge := None, cursor := ArrowCursor)
    else s
  }

  /** Key press: Shift turns the aspect-ratio mode on; other keys change nothing. */
  function KeyPress(s: WindowState, key: Key): (r: WindowState)
    requires Valid(s)
    ensures Valid(r)
    ensures r.maintainAspectRatio <==> key == ShiftKey || s.maintainAspectRatio
    ensures r.(maintainAspectRatio := s.maintainAspectRatio) == s
  {
    if key == ShiftKey then s.(maintainAspectRatio := true) else s
  }

  /** Key release: releasing Shift turns the aspect-ratio mode off; other keys
      change nothing. */
  function KeyRelease(s: WindowState, key: Key): (r: WindowState)
    requires Valid(s)
    ensures Valid(r)
    ensures r.maintainAspectRatio <==> key != ShiftKey && s.maintainAspectRatio
    ensures r.(maintainAspectRatio := s.maintainAspectRatio) == s
  {
    if key == ShiftKey then s.(maintainAspectRatio := false) else s
  }

  /** The drag strip's state: whether a drag is in progress, the global pointer
      position at its press and the window position at that moment. */
  datatype DragState = DragState(dragging: bool, startPos: Option<Point>, windowStartPos: Option<Point>)

  predicate DragConsistent(d: DragState) {
    d.dragging ==> d.startPos.Some? && d.windowStartPos.Some?
  }

  function InitialDrag(): (d: DragState)
    ensures DragConsistent(d) && !d.dragging
  {
    DragState(false, None, None)
  }

  /** Press on the drag strip: only a left press starts dragging, recording the
      pointer and the window position. */
  function HandlePress(d: DragState, win: WindowState, button: MouseButton, global: Point): (r: DragState)
    ensures DragConsistent(d) ==> DragConsistent(r)
    ensures button == LeftButton ==>
              r.dragging && r.startPos == Some(global) && r.windowStartPos == Some(Pos(win.geometry))
    ensures button != LeftButton ==> r == d
  {
    if button == LeftButton then DragState(true, Some(global), Some(Pos(win.geometry))) else d
  }

  /** Move over the drag strip: while dragging, the window is placed at its start
      position plus the pointer's displacement since the press, keeping its size,
      with no size or screen check. Otherwise nothing changes. */
  function HandleMove(d: DragState, win: WindowState, global: Point): (r: WindowState)
    requires DragConsistent(d)
    requires Valid(win)
    ensures Valid(r)
    ensures d.dragging ==>
              Pos(r.geometry) == Add(d.windowStartPos.value, Sub(global, d.startPos.value)) &&
              Width(r.geometry) == Width(win.geometry) && Height(r.geometry) == Height(win.geometry) &&
              r.(geometry := win.geometry) == win
    ensures !d.dragging ==> r == win
  {
    if d.dragging then
      var delta := Sub(global, d.startPos.value);
      win.(geometry := MovedTo(win.geometry, Add(d.windowStartPos.value, delta)))
    else win
  }

  /** Release on the drag strip: only a left release stops dragging. */
  function HandleRelease(d: DragState, button: MouseButton): (r: DragState)
    ensures DragConsistent(d) ==> DragConsistent(r)
    ensures button == LeftButton ==> !r.dragging && r.startPos == d.startPos && r.windowStartPos == d.windowStartPos
    ensures button != LeftButton ==> r == d
  {
    if button == LeftButton then d.(dragging := false) else d
  }

  /** The input events the window and its drag strip receive. Positions named
      `local` are relative to the window, `global` ones are screen coordinates. */
  datatype Event =
    | MousePressed(button: MouseButton, local: Point, global: Point)
    | MouseMoved(local: Point, global: Point)
    | MouseReleased(button: MouseButton)
    | KeyPressed(key: Key)
    | KeyReleased(key: Key)
    | HandlePressed(button: MouseButton, global: Point)
    | HandleMoved(global: Point)
    | HandleReleased(button: MouseButton)

  datatype System = System(window: WindowState, handle: DragState)

  predicate SystemValid(sys: System) {
    Valid(sys.window) && DragConsistent(sys.handle)
  }

  /** One event delivered to its handler. */
  function Dispatch(sys: System, e: Event, screen: Rect): (r: System)
    requires SystemValid(sys)
    ensures SystemValid(r)
    // only a drag moves the window outside a resize gesture's checks
    ensures !e.HandleMoved? && r.window.geometry != sys.window.geometry ==>
              IsValidGeometry(r.window.geometry, screen)
  {
    match e
    case MousePressed(button, local, global) => sys.(window := MousePress(sys.window, button, local, global))
    case MouseMoved(local, global) => sys.(window := MouseMove(sys.window, local, global, screen))
    case MouseReleased(button) => sys.(window := MouseRelease(sys.window, button))
    case KeyPressed(key) => sys.(window := KeyPress(sys.window, key))
    case KeyReleased(key) => sys.(window := KeyRelease(sys.window, key))
    case HandlePressed(button, global) => sys.(handle := HandlePress(sys.handle, sys.window, button, global))
    case HandleMoved(global) => sys.(window := HandleMove(sys.handle, sys.window, global))
    case HandleReleased(button) => sys.(handle := HandleRelease(sys.handle, button))
  }

  /** A sequence of events delivered in order. Every state it passes through
      keeps the session and drag-strip invariants. */
  function Run(sys: System, events: seq<Event>, screen: Rect): (r: System)
    requires SystemValid(sys)
    ensures SystemValid(r)
    decreases |events|
  {
    if events == [] then sys else Run(Dispatch(sys, events[0], screen), events[1..], screen)
  }

  /** Without drag-strip moves, a window that starts inside the size limits and
      the screen stays there, whatever the presses, moves, releases and keys. */
  lemma {:induction false} ResizeKeepsBounds(sys: System, events: seq<Event>, screen: Rect)
    requires SystemValid(sys)
    requires IsValidGeometry(sys.window.geometry, screen)
    requires forall i :: 0 <= i < |events| ==> !events[i].HandleMoved?
    ensures IsValidGeometry(Run(sys, events, screen).window.geometry, screen)
    decreases |events|
  {
    if events != [] {
      var next := Dispatch(sys, events[0], screen);
      assert !events[0].HandleMoved?;
      forall i | 0 <= i < |events[1..]| ensures !events[1..][i].HandleMoved? {
        assert events[1..][i] == events[i + 1];
      }
      ResizeKeepsBounds(next, events[1..], screen);
    }
  }

  /** The gesture's session is untouched by any number of mouse moves. */
  lemma {:induction false} MovesKeepSession(sys: System, moves: seq<Event>, screen: Rect)
    requires SystemValid(sys)
    requires forall i :: 0 <= i < |moves| ==> moves[i].MouseMoved?
    ensures var w := Run(sys, moves, screen).window;
            w.resizing == sys.window.resizing && w.resizeEdge == sys.window.resizeEdge &&
            w.startPos == sys.window.startPos && w.startGeometry == sys.window.startGeometry &&
            w.maintainAspectRatio == sys.window.maintainAspectRatio
    decreases |moves|
  {
    if moves != [] {
      forall i | 0 <= i < |moves[1..]| ensures moves[1..][i].MouseMoved? {
        assert moves[1..][i] == moves[i + 1];
      }
      MovesKeepSession(Dispatch(sys, moves[0], screen), moves[1..], screen);
    }
  }

  /** Running two sequences one after the other is running their concatenation. */
  lemma {:induction false} RunAppend(sys: System, first: seq<Event>, second: seq<Event>, screen: Rect)
    requires SystemValid(sys)
    ensures Run(sys, first + second, screen) == Run(Run(sys, first, screen), second, screen)
    decreases |first|
  {
    if first == [] {
      assert first + second == second;
    } else {
      assert (first + second)[0] == first[0];
      assert (first + second)[1..] == first[1..] + second;
      RunAppend(Dispatch(sys, first[0], screen), first[1..], second, screen);
    }
  }

  /** The outcome of a resize does not depend on the path the pointer took: after
      any number of intermediate moves, a move to `global` whose candidate is
      valid leaves exactly that candidate, the same one the first move there
      would have produced. */
  lemma PathIndependentResize(sys: System, moves: seq<Event>, local: Point, global: Point, screen: Rect)
    requires SystemValid(sys) && sys.window.resizing
    requires forall i :: 0 <= i < |moves| ==> moves[i].MouseMoved?
    requires IsValidGeometry(Candidate(sys.window, global), screen)
    ensures Run(sys, moves + [MouseMoved(local, global)], screen).window.geometry == Candidate(sys.window, global)
  {
    RunAppend(sys, moves, [MouseMoved(local, global)], screen);
    MovesKeepSession(sys, moves, screen);
    var mid := Run(sys, moves, screen);
    assert Candidate(mid.window, global) == Candidate(sys.window, global);
  }

  /** Two moves to the same position in a row give the same state as one. */
  lemma MoveIdempotent(s: WindowState, local: Point, global: Point, screen: Rect)
    requires Valid(s)
    ensures MouseMove(MouseMove(s, local, global, screen), local, global, screen) == MouseMove(s, local, global, screen)
  {
  }

  /** Any sequence of events that ends in a left release, a press-move-release
      gesture included, leaves no resize session open. */
  lemma GestureEndsIdle(sys: System, events: seq<Event>, screen: Rect)
    requires SystemValid(sys)
    ensures var r := Run(sys, events + [MouseReleased(LeftButton)], screen);
            !r.window.resizing && r.window.resizeEdge.None? && r.window.cursor == ArrowCursor
  {
    RunAppend(sys, events, [MouseReleased(LeftButton)], screen);
  }

  /** Example: a 1024 x 576 window at (100, 100) on a 1920 x 1080
      screen; a press at local (1020, 300) is on the right border, and a move
      50 pixels to the right makes it 1074 wide with everything else unchanged. */
  lemma RightEdgeScenario()
    ensures var screen := Rect(0, 0, 1919, 1079);
            var s0 := Initial(FromPosSize(Point(100, 100), 1024, 576));
            var s1 := MousePress(s0, LeftButton, Point(1020, 300), Point(1120, 400));
            var s2 := MouseMove(s1, Point(1070, 300), Point(1170, 400), screen);
            s1.resizeEdge == Some(Right) &&
            s2.geometry == FromPosSize(Point(100, 100), 1074, 576)
  {
    var screen := Rect(0, 0, 1919, 1079);
    var s0 := Initial(FromPosSize(Point(100, 100), 1024, 576));
    assert s0.geometry == Rect(100, 100, 1123, 675);
    assert ResizeEdgeAt(Point(1020, 300), 1024, 576) == Some(Right);
    var s1 := MousePress(s0, LeftButton, Point(1020, 300), Point(1120, 400));
    assert s1.resizing && s1.startGeometry == Some(s0.geometry) && s1.startPos == Some(Point(1120, 400));
    var g := MoveSides(s0.geometry, Right, Point(50, 0));
    assert g == Rect(100, 100, 1173, 675);
    assert Candidate(s1, Point(1170, 400)) == g;
    ValidGeometryBounds(g, screen);
  }

  /** A drag is not checked against the screen. Dragging a 1024 x 576 window at
      (100, 100) by 1900 pixels to the right puts it at (2000, 100) ... */
  lemma DragExample()
    ensures var w := Initial(Rect(100, 100, 1123, 675));
            var d := HandlePress(InitialDrag(), w, LeftButton, Point(500, 110));
            HandleMove(d, w, Point(2400, 110)).geometry == Rect(2000, 100, 3023, 675)
  {
  }

  /** ... which is partly off a 1920 x 1080 screen, although it started inside it. */
  lemma DragExampleOffScreen()
    ensures IsValidGeometry(Rect(100, 100, 1123, 675), Rect(0, 0, 1919, 1079))
    ensures !IsValidGeometry(Rect(2000, 100, 3023, 675), Rect(0, 0, 1919, 1079))
  {
  }
}
