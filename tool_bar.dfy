/** Dragging the floating tool bar (Eink.js:3105-3150): `handleToolBarMoveStart`
    records where inside the bar it was grabbed, `handleToolBarMove` moves it with
    the pointer as far as the window allows, axis by axis, and
    `handleToolBarMoveEnd` lets go. Positions are the bar's `style.top` and
    `style.left` in whole pixels; the bar's size and the window's are parameters. */
module ToolBar {
  import opened Wrappers

  datatype Pointer = Mouse | Pen | Touch

  /** The bar's `clientWidth`/`clientHeight` and the window's `innerWidth`/`innerHeight`. */
  datatype Geometry = Geometry(width: int, height: int, innerWidth: int, innerHeight: int)

  /** The bar's position, the grab offsets `x0`/`y0` (`null` is `None`) and
      `mouseMoved`. */
  datatype BarState = BarState(top: int, left: int, x0: Option<int>, y0: Option<int>, mouseMoved: bool)

  function Abs(x: int): int {
    if x < 0 then -x else x
  }

  /** The bar lies wholly inside the window. */
  predicate Inside(st: BarState, g: Geometry) {
    0 <= st.top && st.top + g.height <= g.innerHeight &&
    0 <= st.left && st.left + g.width <= g.innerWidth
  }

  /** `handleToolBarMoveStart`: a touch, or a press of the primary button, records
      the pointer's offset from the bar's corner. */
  function MoveStart(st: BarState, pointer: Pointer, buttons: int, clientX: int, clientY: int): BarState {
    if pointer == Touch || buttons == 1 then st.(x0 := Some(clientX - st.left), y0 := Some(clientY - st.top)) else st
  }

  /** `handleToolBarMoveEnd` */
  function MoveEnd(st: BarState): BarState {
    st.(x0 := None, y0 := None)
  }

  /** `if (this.x0 && this.y0)` as written: JavaScript truthiness, so a grab offset
      of 0 counts as no grab at all. */
  predicate GrabbedAsWritten(st: BarState) {
    st.x0.Some? && st.x0.value != 0 && st.y0.Some? && st.y0.value != 0
  }

  /** What the test is for: a grab is in progress. */
  predicate Grabbed(st: BarState) {
    st.x0.Some? && st.y0.Some?
  }

  /** The body of `handleToolBarMove` once the grab test has said `grabbed`. For the
      mouse the move counts only with the primary button down and the pointer more
      than 5 px from the grab offset on some axis (the comparison is with `x0`/`y0`
      as written). Each axis moves to its new position only if the bar then still
      fits the window on that axis. */
  function MoveStep(st: BarState, grabbed: bool, pointer: Pointer, buttons: int, clientX: int, clientY: int, g: Geometry): BarState
    requires grabbed ==> st.x0.Some? && st.y0.Some?
  {
    if !grabbed then st
    else if pointer == Mouse && !((Abs(clientX - st.x0.value) > 5 || Abs(clientY - st.y0.value) > 5) && buttons == 1) then st
    else
      var st' := if pointer == Mouse then st.(mouseMoved := true) else st;
      var newTop := clientY - st.y0.value;
      var newLeft := clientX - st.x0.value;
      var st'' := if newTop >= 0 && newTop + g.height <= g.innerHeight then st'.(top := newTop) else st';
      if newLeft >= 0 && newLeft + g.width <= g.innerWidth then st''.(left := newLeft) else st''
  }

  function MoveAsWritten(st: BarState, pointer: Pointer, buttons: int, clientX: int, clientY: int, g: Geometry): BarState {
    MoveStep(st, GrabbedAsWritten(st), pointer, buttons, clientX, clientY, g)
  }

  /** `handleToolBarMove` with the grab test corrected. */
  function Move(st: BarState, pointer: Pointer, buttons: int, clientX: int, clientY: int, g: Geometry): BarState {
    MoveStep(st, Grabbed(st), pointer, buttons, clientX, clientY, g)
  }

  /** A bar that starts inside the window stays inside: each axis is either left
      alone or moved to a position that fits. The grab and the release do not move
      it. */
  lemma MoveKeepsInside(st: BarState, pointer: Pointer, buttons: int, clientX: int, clientY: int, g: Geometry)
    requires Inside(st, g)
    ensures Inside(Move(st, pointer, buttons, clientX, clientY, g), g)
    ensures Inside(MoveStart(st, pointer, buttons, clientX, clientY), g)
    ensures Inside(MoveEnd(st), g)
  {
  }

  /** The move changes `top` only to the pointer's position less the grab offset,
      and only when that fits the window; likewise `left`. The grab offsets stay. */
  lemma MoveChangesOnlyToFittingPositions(st: BarState, pointer: Pointer, buttons: int, clientX: int, clientY: int, g: Geometry)
    ensures var r := Move(st, pointer, buttons, clientX, clientY, g);
      r.x0 == st.x0 && r.y0 == st.y0 &&
      (r.top != st.top ==> Grabbed(st) && r.top == clientY - st.y0.value && 0 <= r.top && r.top + g.height <= g.innerHeight) &&
      (r.left != st.left ==> Grabbed(st) && r.left == clientX - st.x0.value && 0 <= r.left && r.left + g.width <= g.innerWidth)
  {
  }

  /** A touch drag carries the bar with the finger: grabbed at one point and moved
      to another, the bar is displaced by the pointer's displacement on every axis
      where it still fits. */
  lemma TouchDragFollowsPointer(st: BarState, x0: int, y0: int, x1: int, y1: int, g: Geometry)
    ensures var r := Move(MoveStart(st, Touch, 0, x0, y0), Touch, 0, x1, y1, g);
      var top := st.top + (y1 - y0);
      var left := st.left + (x1 - x0);
      (0 <= top && top + g.height <= g.innerHeight ==> r.top == top) &&
      (!(0 <= top && top + g.height <= g.innerHeight) ==> r.top == st.top) &&
      (0 <= left && left + g.width <= g.innerWidth ==> r.left == left) &&
      (!(0 <= left && left + g.width <= g.innerWidth) ==> r.left == st.left)
  {
  }

  /** After the release, moves do nothing until the next grab. */
  lemma ReleasedBarStays(st: BarState, pointer: Pointer, buttons: int, clientX: int, clientY: int, g: Geometry)
    ensures Move(MoveEnd(st), pointer, buttons, clientX, clientY, g) == MoveEnd(st)
  {
  }

  /** As written, a bar grabbed at its very left edge (`x0 == 0`) ignores the drag:
      grabbed at (100, 150) with its corner at (100, 100) and dragged by (100, 100),
      it stays where it was, where the corrected test moves it along. */
  lemma GrabAtEdgeIgnoredAsWritten()
    ensures var g := Geometry(100, 100, 1000, 1000);
      var s := MoveStart(BarState(100, 100, None, None, false), Touch, 0, 100, 150);
      MoveAsWritten(s, Touch, 0, 200, 250, g) == s &&
      Move(s, Touch, 0, 200, 250, g).top == 200 && Move(s, Touch, 0, 200, 250, g).left == 200
  {
    var s := MoveStart(BarState(100, 100, None, None, false), Touch, 0, 100, 150);
    assert s.x0 == Some(0) && s.y0 == Some(50);
  }

  /** The corrected test differs from the written one only for a zero offset. */
  lemma GrabTestsAgreeOffZero(st: BarState)
    requires st.x0 != Some(0) && st.y0 != Some(0)
    ensures Grabbed(st) <==> GrabbedAsWritten(st)
  {
  }

  /** The source's object starts with `x0 = y0 = 0` (Eink.js:2900-2901). The written
      test reads that as no grab, but under the corrected `!= null` test a touch move
      before any press would carry the bar to the pointer; with the corrected test
      the offsets must start at `null`, which leaves such a move without effect. */
  lemma ZeroStartGrabbedOnceCorrected(top: int, left: int, clientX: int, clientY: int, g: Geometry)
    requires 0 <= clientY && clientY + g.height <= g.innerHeight
    ensures var s := BarState(top, left, Some(0), Some(0), false);
      MoveAsWritten(s, Touch, 0, clientX, clientY, g) == s && Move(s, Touch, 0, clientX, clientY, g).top == clientY
    ensures var s := BarState(top, left, None, None, false);
      Move(s, Touch, 0, clientX, clientY, g) == s
  {
  }

  /** The floating tool bar's drag state. */
  class FloatToolBar {
    var top: int
    var left: int
    var x0: Option<int>
    var y0: Option<int>
    var mouseMoved: bool

    function State(): BarState
      reads this
    {
      BarState(top, left, x0, y0, mouseMoved)
    }

    /** A bar not yet grabbed: the offsets start at `null`, the start the corrected
        grab test needs (see `ZeroStartGrabbedOnceCorrected`). */
    constructor(top: int, left: int)
      ensures State() == BarState(top, left, None, None, false)
    {
      this.top, this.left := top, left;
      x0, y0, mouseMoved := None, None, false;
    }

    /** `handleToolBarMoveStart` */
    method HandleToolBarMoveStart(pointer: Pointer, buttons: int, clientX: int, clientY: int)
      modifies this
      ensures State() == MoveStart(old(State()), pointer, buttons, clientX, clientY)
    {
      if pointer == Touch || buttons == 1 {
        x0 := Some(clientX - left);
        y0 := Some(clientY - top);
      }
    }

    /** `handleToolBarMove` */
    method HandleToolBarMove(pointer: Pointer, buttons: int, clientX: int, clientY: int, g: Geometry)
      modifies this
      ensures State() == Move(old(State()), pointer, buttons, clientX, clientY, g)
    {
      if x0.Some? && y0.Some? {
        if pointer == Mouse {
          if (Abs(clientX - x0.value) > 5 || Abs(clientY - y0.value) > 5) && buttons == 1 {
            mouseMoved := true;
          } else {
            return;
          }
        }
        var newTop := clientY - y0.value;
        var newLeft := clientX - x0.value;
        var newBottom := newTop + g.height;
        var newRight := newLeft + g.width;
        if newTop >= 0 && newBottom <= g.innerHeight {
          top := newTop;
        }
        if newLeft >= 0 && newRight <= g.innerWidth {
          left := newLeft;
        }
      }
    }

    /** `handleToolBarMoveEnd` */
    method HandleToolBarMoveEnd()
      modifies this
      ensures State() == MoveEnd(old(State()))
    {
      x0, y0 := None, None;
    }
  }
}
