# Frameless window resize and drag controller

This project models the interactive geometry controller of the STALCRAFT map
widget. The widget is a borderless Qt window that the user resizes by its 8-pixel
border and moves by an invisible strip along its top. The model covers:

- **Edge classification.** A pointer position local to the window is mapped to
  one of eight border regions, or to none.
- **Candidate geometry.** The rectangle a resize gesture asks for is computed
  from the rectangle at the press and the total pointer displacement since then.
  A corner moves one dominant side per event. While Shift is held, a 16:9
  correction is applied.
- **Validation.** A candidate is applied only if it is between 300×200 and
  1920×1080 and lies inside the screen rectangle, edges included.
- **The Idle/Resizing state machine** of the window's mouse and key handlers,
  and the drag strip's dragging state machine.
- **The layout rule** that keeps the drag strip along the top inner edge.

Modules, one per concern:

- `QtRect` (`qrect.dfy`): `QPoint` and `QRect` with Qt's inclusive right and
  bottom edges (`width = right - left + 1`). Also `QRect::contains` with Qt's
  null-rectangle test, with the edges of a rectangle of negative size swapped.
- `ResizeGeometry` (`resize_geometry.dfy`): the pure rules: `ResizeEdgeAt`,
  `CursorForEdge`, `MoveSides`, `MaintainAspectRatio`, `CalculateNewGeometry`,
  `IsValidGeometry` and `HandleLayout`.
- `WindowEvents` (`window_events.dfy`): every event handler as a transition
  function on an explicit state value, and `Run` over event sequences. It also
  holds the lemmas about whole sequences: bounds kept without dragging, the
  resize outcome independent of the pointer's path, and the gesture closed by
  a release.
- `Widget` (`widget.dfy`): the classes `FramelessWindow` and `DragHandle`, whose
  fields are the ones the handlers update in place. Each handler is proved to
  leave its object in the state the matching `WindowEvents` function gives, and
  to keep the object invariant. The invariants are: a gesture in progress has an
  edge and a snapshot, and the drag strip matches the window width.

Modelling assumptions:

- **Aspect-ratio arithmetic.** `int(width / ratio)` and `int(height * ratio)`,
  with the float ratio `16/9`, are modelled exactly on integers as
  `TruncDiv(9 * width, 16)` and `TruncDiv(16 * height, 9)`. `TruncDiv`
  truncates toward zero, like Python's `int()`, for negative sizes too.
- **Screen.** The screen rectangle is a parameter of every resizing move.
- **Window position.** The window is frameless, so its position is the top-left
  corner of its geometry.

Behaviour worth knowing, as the code has it:

- **Border tests.** The tests are strict on the low side (`x < 8`) and on the
  high side (`x > width - 8`). The interior is therefore `8 <= x <= width - 8`.
- **Corners.** A corner needs one horizontal and one vertical border. If the
  window is narrower than 15 pixels (width <= 14), both horizontal tests can hold. Corners are
  tried in the order top-left, top-right, bottom-left, bottom-right.
- **Dominant axis.** A corner drag moves only the horizontal side when
  `|dx| > |dy|`. Otherwise, ties included, it moves only the vertical side.
- **Aspect correction.** The recomputed dimension is `trunc(...) + 1`, because
  `setTop`/`setBottom`/`setLeft`/`setRight` work on inclusive edges. The
  corrected rectangle is therefore never exactly 16:9. It is within one pixel
  (`-16 <= 16h - 9w <= 16`).
- **Containment.** It is checked against the whole primary-screen geometry. The
  area without the task bar is not used.
- **Start-up geometry.** The geometry restored at start-up is applied without
  any check. The bounds are therefore not an invariant of the window. They are
  kept only by resize moves, and only when they held before (see
  `ResizeKeepsBounds`). A drag can always take the window off screen.
- **Cursor updates.** A mouse move updates the cursor whenever no gesture is in
  progress. This is not limited to moves with no button held.

## Model

| member | source | states |
|---|---|---|
| QtRect.Sub | stalcraft_widget.py:273 | the pointer displacement added to the start position gives the current position |
| QtRect.FromPosSize | stalcraft_widget.py:261 | `QRect(pos, size)` has that top-left corner, width and height (right = x + w - 1) |
| QtRect.MovedTo | stalcraft_widget.py:56 | a moved window has the new top-left corner and the same width and height; its right and bottom edges shift by the same amount |
| QtRect.Contains | stalcraft_widget.py:411 | `screen.contains(geometry)`: a contained rectangle is never wider or taller than its container, edges swapped where a size is negative; the exact edge comparison is ContainsInclusive |
| QtRect.ContainsInclusive | stalcraft_widget.py:411 | for a screen of non-negative size and a non-empty candidate, `contains` holds exactly when all four candidate edges lie on or inside the screen's edges |
| ResizeGeometry.TruncDiv | stalcraft_widget.py:385 | `int()` of a quotient truncates toward zero: for n >= 0, q·d <= n < q·d + d; for n < 0, q·d - d < n <= q·d <= 0 |
| ResizeGeometry.ResizeEdgeAt | stalcraft_widget.py:297-317 | none exactly when 8 <= x <= w-8 and 8 <= y <= h-8; each of the eight results holds exactly on its closed-form region, with corners taking precedence in the order top-left, top-right, bottom-left, bottom-right; a corner exactly when a horizontal and a vertical border are both near |
| ResizeGeometry.CursorForEdge | stalcraft_widget.py:319-332 | the arrow exactly when there is no edge; a horizontal or vertical double arrow exactly for a left/right or top/bottom side; on a corner, the falling diagonal for top-left and bottom-right and the rising one for the other two |
| ResizeGeometry.MoveSides | stalcraft_widget.py:334-370 | from the start rectangle, a side edge moves only its own side, by dx for left/right and by dy for top/bottom; a corner moves only its horizontal side by dx when abs(dx) > abs(dy), and otherwise only its vertical side by dy; the other three sides equal the start rectangle's |
| ResizeGeometry.MaintainAspectRatio | stalcraft_widget.py:377-397 | when the width changed more than the height since the start, left and right are kept and the height becomes trunc(9w/16)+1, anchored at the bottom for a top handle and at the top otherwise; else top and bottom are kept and the width becomes trunc(16h/9)+1, anchored at the right for a left handle and at the left otherwise |
| ResizeGeometry.CalculateNewGeometry | stalcraft_widget.py:334-375 | the corner or side opposite the active handle is where it was at the press, with or without Shift; with Shift the result is never exactly 16:9, and for non-negative sizes -16 <= 16h - 9w <= 16 |
| ResizeGeometry.IsValidGeometry | stalcraft_widget.py:399-414 | the size checks, then screen containment, in the handler's order; a valid candidate has 300 <= width <= 1920, 200 <= height <= 1080 and lies within the screen's edges (the iff is ValidGeometryBounds) |
| ResizeGeometry.ValidGeometryBounds | stalcraft_widget.py:399-414 | a candidate is valid exactly when 300 <= width <= 1920, 200 <= height <= 1080 and it lies inside the screen, edges inclusive |
| ResizeGeometry.HandleLayout | stalcraft_widget.py:230-238 | the drag strip starts at (8, 8), ends 8 pixels before the right edge, and is 20 pixels high |
| ResizeGeometry.HandleClearOfBorders | stalcraft_widget.py:230-238 | in a window at least 35 high, whatever its width, no point of the drag strip is in a resize border region |
| WindowEvents.Initial | stalcraft_widget.py:110-119 | the window starts idle, without Shift, with the arrow cursor and the given geometry, which is not checked |
| WindowEvents.MousePress | stalcraft_widget.py:254-261 | a left press over a border region enters Resizing and records the edge, the global pointer position and the current rectangle, changing nothing else; any other press leaves the state unchanged |
| WindowEvents.MouseMove | stalcraft_widget.py:263-281 | the session and the Shift state never change; when idle the geometry stays and the cursor is the one for the region under the pointer; when resizing the geometry becomes the candidate if it is valid and stays otherwise; the geometry only ever changes to a valid rectangle during a gesture |
| WindowEvents.MouseRelease | stalcraft_widget.py:283-287 | a left release leaves Resizing, clears the edge and resets the cursor, and keeps every other field (geometry, press position, snapshot, Shift state, strip); other buttons change nothing |
| WindowEvents.KeyPress | stalcraft_widget.py:289-291 | Shift sets the aspect-ratio mode, other keys leave it, and nothing else changes |
| WindowEvents.KeyRelease | stalcraft_widget.py:293-295 | releasing Shift clears the aspect-ratio mode, other keys leave it, and nothing else changes |
| WindowEvents.InitialDrag | stalcraft_widget.py:27-28 | the drag strip starts not dragging |
| WindowEvents.HandlePress | stalcraft_widget.py:47-51 | only a left press starts dragging, recording the global pointer position and the window position |
| WindowEvents.HandleMove | stalcraft_widget.py:53-56 | while dragging, the window's position is its start position plus the pointer displacement since the press, with its size and all other state unchanged and no bounds check; otherwise nothing changes |
| WindowEvents.HandleRelease | stalcraft_widget.py:58-60 | only a left release stops dragging |
| WindowEvents.Dispatch | stalcraft_widget.py:254-295 | each event keeps the invariants, and only a drag-strip move can change the geometry to something invalid |
| WindowEvents.Run | stalcraft_widget.py:254-295 | after any event sequence, a gesture in progress still has its edge and snapshot, the idle state has no edge, and the drag strip matches the window width |
| WindowEvents.ResizeKeepsBounds | stalcraft_widget.py:278-281 | with no drag-strip moves, a window inside the limits and the screen stays inside them after any sequence of events |
| WindowEvents.MovesKeepSession | stalcraft_widget.py:263-281 | any number of mouse moves leaves the gesture's edge, start position, start rectangle and Shift state as they were |
| WindowEvents.PathIndependentResize | stalcraft_widget.py:272-276 | after any intermediate moves, a move to a position whose candidate is valid yields exactly the candidate computed from the press, so the pointer's path does not matter |
| WindowEvents.MoveIdempotent | stalcraft_widget.py:263-281 | two moves to the same position in a row have the effect of one |
| WindowEvents.GestureEndsIdle | stalcraft_widget.py:283-287 | any sequence of events ending in a left release, a whole press-move-release gesture included, leaves no resize session open and the arrow cursor set |
| WindowEvents.RightEdgeScenario | stalcraft_widget.py:254-281 | a press at (1020, 300) in a 1024×576 window at (100, 100) is on the right edge, and a 50-pixel move right makes the window 1074×576 at the same place |
| WindowEvents.DragExample | stalcraft_widget.py:53-56 | dragging a 1024×576 window at (100, 100) by 1900 pixels to the right puts it at (2000, 100) with its size kept |
| WindowEvents.DragExampleOffScreen | stalcraft_widget.py:399-414 | that dragged rectangle fails validation on a 1920×1080 screen although the starting one passes, so a drag can take the window where no resize could |
| Widget.FramelessWindow.constructor | stalcraft_widget.py:99-119 | the new window is in the initial state with the given geometry and satisfies the invariant |
| Widget.FramelessWindow.UpdateDragHandle | stalcraft_widget.py:230-238 | the drag strip is laid out for the current width |
| Widget.FramelessWindow.SetGeometry | stalcraft_widget.py:222-224 | the geometry is the new rectangle and the resize event lays the drag strip out for its width |
| Widget.FramelessWindow.Move | stalcraft_widget.py:56 | the window is at the new position with the same size, and the invariant still holds |
| Widget.FramelessWindow.MousePressEvent | stalcraft_widget.py:254-261 | the new state is `MousePress` of the old one and the invariant is kept |
| Widget.FramelessWindow.MouseMoveEvent | stalcraft_widget.py:263-281 | the new state is `MouseMove` of the old one and the invariant is kept |
| Widget.FramelessWindow.MouseReleaseEvent | stalcraft_widget.py:283-287 | the new state is `MouseRelease` of the old one and the invariant is kept |
| Widget.FramelessWindow.KeyPressEvent | stalcraft_widget.py:289-291 | the new state is `KeyPress` of the old one |
| Widget.FramelessWindow.KeyReleaseEvent | stalcraft_widget.py:293-295 | the new state is `KeyRelease` of the old one |
| Widget.DragHandle.constructor | stalcraft_widget.py:21-28 | a new strip belongs to the given window and is not dragging |
| Widget.DragHandle.MousePressEvent | stalcraft_widget.py:47-51 | the strip's new state is `HandlePress` of the old one and the window's position |
| Widget.DragHandle.MouseMoveEvent | stalcraft_widget.py:53-56 | the window's new state is `HandleMove` of its old state, and the window invariant is kept |
| Widget.DragHandle.MouseReleaseEvent | stalcraft_widget.py:58-60 | the strip's new state is `HandleRelease` of the old one |

## Left out

- Painting (`paintEvent` of the window and of the drag strip): Qt rendering, with no state.
- The embedded web view, its fixed URL and its zoom factor: an external engine, plus float arithmetic.
- Settings persistence (`saveSettings`, `loadSettings`, `closeEvent`): key-value I/O through the OS. The restored geometry is the constructor's parameter, and it is not checked.
- The settings dialog, `showSettings`, the tray icon and its menu, and the always-on-top window flag: widget configuration through Qt.
- Hiding the console on Windows, and `main`: foreign calls and process start-up.
- `QApplication.primaryScreen()`: the screen rectangle is a parameter instead.
- Qt's event delivery: which widget receives a pointer event, and when move events arrive. Each handler is modelled as called with its event.
- The drag strip's fixed `SizeAllCursor`: a constant set once, with no logic.
- The `hasattr` guard in `updateDragHandle`: it only matters while the constructor runs.
- `showEvent`: it only calls `updateDragHandle`, which is already modelled.
- Keys other than Shift are a single `OtherKey`. Mouse buttons are left, right and middle.
- ResizeGeometry.TruncDiv: models `int(width / (16/9))` and `int(height * 16/9)` on exact rationals, not on IEEE doubles. The double nearest 16/9 is 16/9 - (4/9)·2⁻⁵². The model assumes that, at the sizes a screen can have, this rounding never changes the truncated result.
- ResizeGeometry.HandleLayout: Qt clamps a negative widget width to zero, and this is not modelled. A window narrower than 16 pixels can only come from a restored geometry.
