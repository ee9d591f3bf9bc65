/** The two widgets whose event handlers update their fields in place: the
    frameless window (resize gestures, Shift, cursor, drag-strip layout) and its
    drag strip (moving the window). Each handler is proved to leave the object
    in the state the matching function of module WindowEvents gives. */
module Widget {
  import opened QtRect
  import opened ResizeGeometry
  import opened WindowEvents

  class FramelessWindow {
    /** The window rectangle in screen coordinates. */
    var geometry: Rect
    var resizing: bool
    var resizeEdge: Option<Edge>
    var startPos: Option<Point>
    var startGeometry: Option<Rect>
    var maintainAspectRatio: bool
    var cursor: Cursor
    /** Where the drag strip is laid out, in window coordinates. */
    var handleGeometry: Rect

    function State(): WindowState
      reads this
    {
      WindowState(geometry, resizing, resizeEdge, startPos, startGeometry,
                  maintainAspectRatio, cursor, handleGeometry)
    }

    predicate Valid()
      reads this
    {
      WindowEvents.Valid(State())
    }

    /** A new window with the geometry restored at start-up, applied unchecked. */
    constructor (initial: Rect)
      ensures Valid() && State() == Initial(initial)
    {
      geometry := initial;
      resizing := false;
      resizeEdge := None;
      startPos := None;
      startGeometry := None;
      maintainAspectRatio := false;
      cursor := ArrowCursor;
      handleGeometry := HandleLayout(Width(initial));
    }

    /** Lays the drag strip out along the top inner edge of the current width. */
    method UpdateDragHandle()
      modifies this`handleGeometry
      ensures handleGeometry == HandleLayout(Width(geometry))
    {
      handleGeometry := FromPosSize(Point(BorderWidth, BorderWidth),
                                    Width(geometry) - 2 * BorderWidth, HandleHeight);
    }

    /** QWidget::setGeometry; the resize event it raises lays the drag strip out again. */
    method SetGeometry(g: Rect)
      modifies this`geometry, this`handleGeometry
      ensures geometry == g && handleGeometry == HandleLayout(Width(g))
    {
      geometry := g;
      UpdateDragHandle();
    }

    /** QWidget::move: new position, same size, so the drag strip stays put. */
    method Move(pos: Point)
      requires Valid()
      modifies this`geometry
      ensures Valid()
      ensures geometry == MovedTo(old(geometry), pos)
    {
      geometry := FromPosSize(pos, Width(geometry), Height(geometry));
    }

    method MousePressEvent(button: MouseButton, local: Point, global: Point)
      requires Valid()
      modifies this
      ensures Valid()
      ensures State() == MousePress(old(State()), button, local, global)
    {
      if button == LeftButton {
        var edge := ResizeEdgeAt(local, Width(geometry), Height(geometry));
        if edge.Some? {
          resizing := true;
          resizeEdge := edge;
          startPos := Some(global);
          startGeometry := Some(FromPosSize(Pos(geometry), Width(geometry), Height(geometry)));
        }
      }
    }

    method MouseMoveEvent(local: Point, global: Point, screen: Rect)
      requires Valid()
      modifies this
      ensures Valid()
      ensures State() == MouseMove(old(State()), local, global, screen)
    {
      if !resizing {
        var edge := ResizeEdgeAt(local, Width(geometry), Height(geometry));
        cursor := CursorForEdge(edge);
        return;
      }
      var delta := Sub(global, startPos.value);
      var newGeometry := CalculateNewGeometry(startGeometry.value, resizeEdge.value, delta, maintainAspectRatio);
      if IsValidGeometry(newGeometry, screen) {
        SetGeometry(newGeometry);
        UpdateDragHandle();
      }
    }

    method MouseReleaseEvent(button: MouseButton)
      requires Valid()
      modifies this
      ensures Valid()
      ensures State() == MouseRelease(old(State()), button)
    {
      if button == LeftButton {
        resizing := false;
        resizeEdge := None;
        cursor := ArrowCursor;
      }
    }

    method KeyPressEvent(key: Key)
      requires Valid()
      modifies this
      ensures Valid()
      ensures State() == KeyPress(old(State()), key)
    {
      if key == ShiftKey {
        maintainAspectRatio := true;
      }
    }

    method KeyReleaseEvent(key: Key)
      requires Valid()
      modifies this
      ensures Valid()
      ensures State() == KeyRelease(old(State()), key)
    {
      if key == ShiftKey {
        maintainAspectRatio := false;
      }
    }
  }

  /** The invisible strip along the top of the window that drags it around. */
  class DragHandle {
    /** The top-level window the strip belongs to and moves. */
    const window: FramelessWindow
    var dragging: bool
    var startPos: Option<Point>
    var windowStartPos: Option<Point>

    function State(): DragState
      reads this
    {
      DragState(dragging, startPos, windowStartPos)
    }

    predicate Valid()
      reads this
    {
      DragConsistent(State())
    }

    constructor (window: FramelessWindow)
      ensures Valid() && State() == InitialDrag() && this.window == window
    {
      this.window := window;
      dragging := false;
      startPos := None;
      windowStartPos := None;
    }

    method MousePressEvent(button: MouseButton, global: Point)
      requires Valid()
      modifies this
      ensures Valid()
      ensures State() == HandlePress(old(State()), window.State(), button, global)
    {
      if button == LeftButton {
        dragging := true;
        startPos := Some(global);
        windowStartPos := Some(Pos(window.geometry));
      }
    }

    method MouseMoveEvent(global: Point)
      requires Valid() && window.Valid()
      modifies window
      ensures window.Valid()
      ensures window.State() == HandleMove(State(), old(window.State()), global)
    {
      if dragging {
        var delta := Sub(global, startPos.value);
        window.Move(Add(windowStartPos.value, delta));
      }
    }

    method MouseReleaseEvent(button: MouseButton)
      requires Valid()
      modifies this
      ensures Valid()
      ensures State() == HandleRelease(old(State()), button)
    {
      if button == LeftButton {
        dragging := false;
      }
    }
  }
}
