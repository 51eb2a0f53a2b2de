/** When a book lays its pages out again. Mutations of the document reach
    `#checkForLayoutChanges` (Book.js:2358-2403), which first consults the
    `ignoreMutation` guard and then classifies them; window resizes and visibility
    changes reach `#handleResizeOrVisibility` (Book.js:2059-2115), through the window
    resize handler (Book.js:905-918) or a resize observer. A requested page reset
    (`resetPages`, Book.js:1884-1917) is postponed while the book is hidden, and a
    reset done while it is visible settles any postponed one. The
    250ms debounce timer is a flag that `OnResizeTimer` consumes; what a reset does
    to the pages is not part of this model, only how often one happens. */
module Reflow {
  import opened Suppression

  // ---------------------------------------------------------------------------
  // the book's viewport

  datatype Orientation = Landscape | Portrait

  /** The container's client size and computed `visibility`, and the window's inner size. */
  datatype View = View(clientWidth: int, clientHeight: int, cssVisible: bool, innerWidth: int, innerHeight: int)

  /** `get isVisible()` (Book.js:203-206) */
  predicate IsVisible(v: View) {
    v.clientWidth != 0 && v.clientHeight != 0 && v.cssVisible
  }

  /** `Book.getOrientationState()` (Book.js:264-266) */
  function OrientationOf(v: View): Orientation {
    if v.innerWidth > v.innerHeight then Landscape else Portrait
  }

  /** `get scrollLengthChanged()` (Book.js:228-235): more than 2px of change, and only
      for a visible book. */
  function ScrollLengthChanged(v: View, scrollLength: int, oldScrollLength: int): (r: bool)
    ensures r <==> IsVisible(v) && (scrollLength > oldScrollLength + 2 || scrollLength < oldScrollLength - 2)
  {
    if IsVisible(v) then
      var d := scrollLength - oldScrollLength;
      (if d < 0 then -d else d) > 2
    else false
  }

  // ---------------------------------------------------------------------------
  // the gate's state

  /** The fields the gate reads and writes; `resets` counts the page resets done and
      `resizePending` is whether the debounce timer is armed. */
  datatype GateState = GateState(
    ignoreMutation: Guard,
    containerWidth: int,
    containerHeight: int,
    resetWhenVisible: bool,
    isWindowResizeEvent: bool,
    resizeCount: nat,
    orientation: Orientation,
    resets: nat,
    resizePending: bool)

  /** `#updateContainerDimension()` (Book.js:178-190) */
  function UpdateDimension(st: GateState, v: View, fullScreen: bool): (r: GateState)
    ensures r.(containerWidth := st.containerWidth, containerHeight := st.containerHeight) == st
    ensures !IsVisible(v) ==> r.containerWidth == 0 && r.containerHeight == 0
    ensures IsVisible(v) && !fullScreen ==> r.containerWidth == v.clientWidth && r.containerHeight == v.clientHeight
  {
    if IsVisible(v) then
      if fullScreen then st.(containerWidth := v.innerWidth, containerHeight := v.innerHeight)
      else st.(containerWidth := v.clientWidth, containerHeight := v.clientHeight)
    else st.(containerWidth := 0, containerHeight := 0)
  }

  /** `resetPages()`: a hidden book only remembers to reset once visible; a visible
      one resets and drops any reset it had been keeping for later. */
  function ResetPages(st: GateState, v: View): (r: GateState)
    ensures IsVisible(v) ==> r == st.(resets := st.resets + 1, resetWhenVisible := false)
    ensures !IsVisible(v) ==> r == st.(resetWhenVisible := true)
  {
    if !IsVisible(v) then st.(resetWhenVisible := true) else st.(resets := st.resets + 1, resetWhenVisible := false)
  }

  /** `#handleResize()` (Book.js:2117-2121) */
  function HandleResize(st: GateState, v: View, fullScreen: bool): GateState {
    ResetPages(UpdateDimension(st, v, fullScreen).(ignoreMutation := Off), v)
  }

  // ---------------------------------------------------------------------------
  // #handleResizeOrVisibility (Book.js:2059-2115)

  datatype ResizeDecision =
    | ScrollModeSkip
    | BecameHidden
    | BecameVisible(reset: bool)
    | SizeUnchanged
    | ResizeNow
    | ResizeDebounced

  /** Whether an event gets past the visibility checks to the resize handling: a
      window resize always does; an observer event does unless the book was just
      hidden, just shown, or kept its size. */
  predicate ReachesResize(st: GateState, v: View) {
    st.isWindowResizeEvent ||
    !((!IsVisible(v) && st.containerWidth != 0 && st.containerHeight != 0) ||
      (IsVisible(v) && st.containerWidth == 0 && st.containerHeight == 0) ||
      (st.containerWidth == v.clientWidth && st.containerHeight == v.clientHeight))
  }

  function ResizeOrVisibility(st: GateState, scrollMode: bool, v: View, fullScreen: bool): (r: (ResizeDecision, GateState))
    ensures r.0 == ScrollModeSkip <==> scrollMode
    ensures r.0 == ResizeNow <==>
      !scrollMode && ReachesResize(st, v) && st.orientation != OrientationOf(v) && st.resizeCount < 5
    ensures r.0 == ResizeDebounced <==>
      !scrollMode && ReachesResize(st, v) && !(st.orientation != OrientationOf(v) && st.resizeCount < 5)
    ensures r.0 == BecameHidden ==> r.1 == st.(containerWidth := 0, containerHeight := 0)
    ensures r.0.BecameVisible? ==> !r.1.resetWhenVisible && r.1.resets == st.resets + (if st.resetWhenVisible then 1 else 0)
    ensures r.0 == ResizeNow ==>
      r.1.resizeCount == 0 && r.1.orientation == OrientationOf(v) && r.1.ignoreMutation == Off && !r.1.isWindowResizeEvent
    ensures r.0 == ResizeDebounced ==> r.1.resizePending && !r.1.isWindowResizeEvent
  {
    if scrollMode then (ScrollModeSkip, st)
    else if !st.isWindowResizeEvent && !IsVisible(v) && st.containerWidth != 0 && st.containerHeight != 0 then
      (BecameHidden, st.(containerWidth := 0, containerHeight := 0))
    else if !st.isWindowResizeEvent && IsVisible(v) && st.containerWidth == 0 && st.containerHeight == 0 then
      var st1 := UpdateDimension(st, v, fullScreen);
      if st1.resetWhenVisible then (BecameVisible(true), ResetPages(st1.(resetWhenVisible := false), v))
      else (BecameVisible(false), st1)
    else if !st.isWindowResizeEvent && st.containerWidth == v.clientWidth && st.containerHeight == v.clientHeight then
      (SizeUnchanged, st)
    else
      // `clearTimeout(this.#resizeTimer)`
      var st1 := st.(isWindowResizeEvent := false, resizePending := false);
      if st.orientation != OrientationOf(v) && st.resizeCount < 5 then
        (ResizeNow, HandleResize(st1, v, fullScreen).(orientation := OrientationOf(v), resizeCount := 0))
      else
        (ResizeDebounced, st1.(resizePending := true))
  }

  /** The window `resize` handler in Eink mode (Book.js:905-918): the event is
      counted, marked as a window resize, and a visible book ignores every mutation
      until it has been laid out again. */
  function OnWindowResize(st: GateState, scrollMode: bool, v: View, fullScreen: bool): (ResizeDecision, GateState) {
    if scrollMode then (ScrollModeSkip, st)
    else
      var st1 := st.(resizeCount := st.resizeCount + 1, isWindowResizeEvent := true,
                     ignoreMutation := if IsVisible(v) then Forever else st.ignoreMutation);
      ResizeOrVisibility(st1, false, v, fullScreen)
  }

  /** The debounce timer fires (Book.js:2110-2113). */
  function OnResizeTimer(st: GateState, v: View, fullScreen: bool): (r: GateState)
    ensures !st.resizePending ==> r == st
    ensures st.resizePending ==> r.resizeCount == 0 && !r.resizePending && r.ignoreMutation == Off
  {
    if st.resizePending then HandleResize(st.(resizeCount := 0, resizePending := false), v, fullScreen) else st
  }

  /** A window resize resets the pages at once only for an orientation change, and
      only while fewer than five window resizes (this one included) have arrived
      since the last reset; any other one is debounced. */
  lemma WindowResizeImmediateIffOrientation(st: GateState, v: View, fullScreen: bool)
    ensures var (d, _) := OnWindowResize(st, false, v, fullScreen);
      (d == ResizeNow <==> st.orientation != OrientationOf(v) && st.resizeCount + 1 < 5) &&
      (d == ResizeNow || d == ResizeDebounced)
  {
  }

  /** A window resize of a visible book ignores mutations until the pages are laid
      out again: at once, or when the debounce timer fires. */
  lemma WindowResizeSuppressesUntilLayout(st: GateState, v: View, fullScreen: bool)
    requires IsVisible(v)
    ensures var (d, st1) := OnWindowResize(st, false, v, fullScreen);
      (d == ResizeNow ==> st1.ignoreMutation == Off && st1.resets == st.resets + 1) &&
      (d == ResizeDebounced ==>
        st1.ignoreMutation == Forever && st1.resets == st.resets &&
        OnResizeTimer(st1, v, fullScreen).ignoreMutation == Off && OnResizeTimer(st1, v, fullScreen).resets == st.resets + 1)
  {
  }

  /** A book that was hidden while a reset was requested resets exactly once when it
      becomes visible again, and forgets the request. */
  lemma HiddenResetHappensWhenVisible(st: GateState, hidden: View, shown: View, fullScreen: bool)
    requires !st.isWindowResizeEvent && st.containerWidth != 0 && st.containerHeight != 0
    requires !IsVisible(hidden) && IsVisible(shown)
    ensures var (d1, st1) := ResizeOrVisibility(st, false, hidden, fullScreen);
      var st2 := ResetPages(st1, hidden);
      var (d3, st3) := ResizeOrVisibility(st2, false, shown, fullScreen);
      d1 == BecameHidden && st2.resets == st.resets &&
      d3 == BecameVisible(true) && st3.resets == st.resets + 1 && !st3.resetWhenVisible
  {
    var (d1, st1) := ResizeOrVisibility(st, false, hidden, fullScreen);
    assert st1 == st.(containerWidth := 0, containerHeight := 0);
    var st2 := ResetPages(st1, hidden);
    assert st2.resetWhenVisible && st2.containerWidth == 0 && st2.containerHeight == 0;
  }

  /** A reset done while the book is visible settles a reset kept for later: hiding
      the book and showing it again does not reset a second time. */
  lemma VisibleResetSettlesPending(st: GateState, shown: View, hidden: View, fullScreen: bool)
    requires !st.isWindowResizeEvent && st.containerWidth != 0 && st.containerHeight != 0
    requires IsVisible(shown) && !IsVisible(hidden)
    ensures var st1 := ResetPages(st, shown);
      var (d2, st2) := ResizeOrVisibility(st1, false, hidden, fullScreen);
      var (d3, st3) := ResizeOrVisibility(st2, false, shown, fullScreen);
      d2 == BecameHidden && d3 == BecameVisible(false) && st3.resets == st.resets + 1
  {
  }

  // ---------------------------------------------------------------------------
  // #checkForLayoutChanges (Book.js:2358-2403)

  /** One mutation record: whether its target lies in this book rather than in a
      book nested inside it, whether its target is a valid node, and the validity of
      each added and removed node. */
  datatype Mutation = Mutation(inThisBook: bool, targetValid: bool, addedValid: seq<bool>, removedValid: seq<bool>)

  predicate IsTreeChange(m: Mutation) {
    |m.addedValid| > 0 || |m.removedValid| > 0
  }

  /** `mutationsIncludeValidNode`'s test of one mutation. */
  predicate HasValidNode(m: Mutation) {
    m.targetValid &&
    ((exists i :: 0 <= i < |m.addedValid| && m.addedValid[i]) || (exists i :: 0 <= i < |m.removedValid| && m.removedValid[i]))
  }

  datatype LayoutVerdict =
    | ScrollModeIgnored
    | Suppressed
    | OtherBooksOnly
    | NoValidNodes
    | ResetForTree
    | ResetForScrollLength
    | NoLayoutChange

  /** As written: the valid-node test runs over every mutation, those of nested books
      included, although the comment in front of it speaks of the mutations specific
      to this book. */
  function ClassifyAsWritten(ms: seq<Mutation>, scrollLengthChanged: bool): LayoutVerdict {
    if exists i :: 0 <= i < |ms| && IsTreeChange(ms[i]) then
      if forall i :: 0 <= i < |ms| ==> !ms[i].inThisBook then OtherBooksOnly
      else if !exists i :: 0 <= i < |ms| && HasValidNode(ms[i]) then NoValidNodes
      else ResetForTree
    else if scrollLengthChanged then ResetForScrollLength
    else NoLayoutChange
  }

  /** The valid-node test restricted to this book's mutations. */
  function Classify(ms: seq<Mutation>, scrollLengthChanged: bool): (r: LayoutVerdict)
    ensures r == ResetForTree <==> exists i :: 0 <= i < |ms| && ms[i].inThisBook && HasValidNode(ms[i])
    ensures r == ResetForScrollLength <==> scrollLengthChanged && forall i :: 0 <= i < |ms| ==> !IsTreeChange(ms[i])
    ensures r == OtherBooksOnly ==> forall i :: 0 <= i < |ms| ==> !ms[i].inThisBook
  {
    if exists i :: 0 <= i < |ms| && IsTreeChange(ms[i]) then
      if forall i :: 0 <= i < |ms| ==> !ms[i].inThisBook then OtherBooksOnly
      else if !exists i :: 0 <= i < |ms| && ms[i].inThisBook && HasValidNode(ms[i]) then NoValidNodes
      else ResetForTree
    else if scrollLengthChanged then ResetForScrollLength
    else NoLayoutChange
  }

  /** The two tests agree whenever the valid nodes, if any, come from this book. */
  lemma ClassifyAgreesWithoutNestedValidNodes(ms: seq<Mutation>, scrollLengthChanged: bool)
    requires forall i :: 0 <= i < |ms| && HasValidNode(ms[i]) ==> ms[i].inThisBook
    ensures ClassifyAsWritten(ms, scrollLengthChanged) == Classify(ms, scrollLengthChanged)
  {
  }

  /** A nested book's valid node makes this book reset although nothing valid
      changed in it. */
  lemma NestedValidNodeResetsAsWritten()
    ensures var ms := [Mutation(false, true, [true], []), Mutation(true, true, [false], [])];
      ClassifyAsWritten(ms, false) == ResetForTree && Classify(ms, false) == NoValidNodes
  {
    var ms := [Mutation(false, true, [true], []), Mutation(true, true, [false], [])];
    assert ms[0].addedValid[0];
    assert IsTreeChange(ms[0]) && ms[1].inThisBook && HasValidNode(ms[0]);
    assert !HasValidNode(ms[1]) by {
      assert ms[1].removedValid == [] && ms[1].addedValid == [false];
    }
  }

  /** The whole handler: the mode, then the guard, then the classification; a reset
      verdict resets the pages. */
  function CheckForLayoutChanges(st: GateState, scrollMode: bool, ms: seq<Mutation>, scrollLengthChanged: bool, v: View): (r: (LayoutVerdict, GateState))
    ensures scrollMode ==> r == (ScrollModeIgnored, st)
    ensures !scrollMode && Notify(st.ignoreMutation).0 ==> r == (Suppressed, st.(ignoreMutation := Notify(st.ignoreMutation).1))
    ensures !scrollMode && !Notify(st.ignoreMutation).0 ==>
      r.0 == Classify(ms, scrollLengthChanged) &&
      r.1 == (if r.0 == ResetForTree || r.0 == ResetForScrollLength then ResetPages(st, v) else st)
  {
    if scrollMode then (ScrollModeIgnored, st)
    else
      var (swallowed, g) := Notify(st.ignoreMutation);
      if swallowed then (Suppressed, st.(ignoreMutation := g))
      else
        var verdict := Classify(ms, scrollLengthChanged);
        if verdict == ResetForTree || verdict == ResetForScrollLength then (verdict, ResetPages(st, v))
        else (verdict, st)
  }

  /** The verdicts of a run of mutation batches, and the state after them. */
  function CheckRun(st: GateState, batches: seq<seq<Mutation>>, v: View): (r: (seq<LayoutVerdict>, GateState))
    ensures |r.0| == |batches|
    decreases |batches|
  {
    if batches == [] then ([], st)
    else
      var (verdict, st1) := CheckForLayoutChanges(st, false, batches[0], false, v);
      var (rest, final) := CheckRun(st1, batches[1..], v);
      ([verdict] + rest, final)
  }

  /** With `ignoreMutation` set to a count `n`, the next `n` batches are suppressed
      whatever they hold, and the batches after them are classified. */
  lemma {:induction false} CountSuppressesNextBatches(st: GateState, n: nat, batches: seq<seq<Mutation>>, v: View)
    requires st.ignoreMutation == Count(n)
    ensures forall i :: 0 <= i < |batches| ==>
      CheckRun(st, batches, v).0[i] == if i < n then Suppressed else Classify(batches[i], false)
    decreases |batches|
  {
    if batches != [] {
      var (verdict, st1) := CheckForLayoutChanges(st, false, batches[0], false, v);
      var (rest, final) := CheckRun(st1, batches[1..], v);
      if n == 0 {
        assert verdict == Classify(batches[0], false);
        assert st1.ignoreMutation == Off by {
          assert st1 == st || st1 == ResetPages(st, v);
        }
        CountSuppressesNextBatches(st1, 0, batches[1..], v);
      } else {
        assert verdict == Suppressed && st1.ignoreMutation == Count(n - 1);
        CountSuppressesNextBatches(st1, n - 1, batches[1..], v);
      }
      assert CheckRun(st, batches, v).0 == [verdict] + rest;
      forall i | 1 <= i < |batches|
        ensures CheckRun(st, batches, v).0[i] == rest[i - 1]
      {
      }
    }
  }

  // ---------------------------------------------------------------------------
  // the gate as an object

  /** The book's reflow fields. */
  class ReflowGate {
    var ignoreMutation: Guard
    var containerWidth: int
    var containerHeight: int
    var resetWhenVisible: bool
    var isWindowResizeEvent: bool
    var resizeCount: nat
    var orientation: Orientation
    var resets: nat
    var resizePending: bool

    function State(): GateState
      reads this
    {
      GateState(ignoreMutation, containerWidth, containerHeight, resetWhenVisible, isWindowResizeEvent,
                resizeCount, orientation, resets, resizePending)
    }

    method SetState(st: GateState)
      modifies this
      ensures State() == st
    {
      ignoreMutation := st.ignoreMutation;
      containerWidth := st.containerWidth;
      containerHeight := st.containerHeight;
      resetWhenVisible := st.resetWhenVisible;
      isWindowResizeEvent := st.isWindowResizeEvent;
      resizeCount := st.resizeCount;
      orientation := st.orientation;
      resets := st.resets;
      resizePending := st.resizePending;
    }

    /** A new book records its dimension and orientation (Book.js:165-166). */
    constructor(v: View, fullScreen: bool)
      ensures State() == UpdateDimension(GateState(Off, 0, 0, false, false, 0, OrientationOf(v), 0, false), v, fullScreen)
    {
      ignoreMutation := Off;
      resetWhenVisible := false;
      isWindowResizeEvent := false;
      resizeCount := 0;
      orientation := OrientationOf(v);
      resets := 0;
      resizePending := false;
      if IsVisible(v) {
        if fullScreen {
          containerWidth, containerHeight := v.innerWidth, v.innerHeight;
        } else {
          containerWidth, containerHeight := v.clientWidth, v.clientHeight;
        }
      } else {
        containerWidth, containerHeight := 0, 0;
      }
    }

    method ResetPagesNow(v: View)
      modifies this
      ensures State() == ResetPages(old(State()), v)
    {
      if !IsVisible(v) {
        resetWhenVisible := true;
      } else {
        resets := resets + 1;
        resetWhenVisible := false;
      }
    }

    method CheckLayout(scrollMode: bool, ms: seq<Mutation>, scrollLengthChanged: bool, v: View) returns (verdict: LayoutVerdict)
      modifies this
      ensures (verdict, State()) == CheckForLayoutChanges(old(State()), scrollMode, ms, scrollLengthChanged, v)
    {
      if scrollMode {
        return ScrollModeIgnored;
      }
      if ignoreMutation == Forever {
        return Suppressed;
      } else if ignoreMutation.n != 0 {
        ignoreMutation := Count(ignoreMutation.n - 1);
        return Suppressed;
      }
      verdict := Classify(ms, scrollLengthChanged);
      if verdict == ResetForTree || verdict == ResetForScrollLength {
        ResetPagesNow(v);
      }
    }

    method HandleResizeOrVisibility(scrollMode: bool, v: View, fullScreen: bool) returns (d: ResizeDecision)
      modifies this
      ensures (d, State()) == ResizeOrVisibility(old(State()), scrollMode, v, fullScreen)
    {
      var r := ResizeOrVisibility(State(), scrollMode, v, fullScreen);
      d := r.0;
      SetState(r.1);
    }

    method WindowResized(scrollMode: bool, v: View, fullScreen: bool) returns (d: ResizeDecision)
      modifies this
      ensures (d, State()) == OnWindowResize(old(State()), scrollMode, v, fullScreen)
    {
      if scrollMode {
        return ScrollModeSkip;
      }
      resizeCount := resizeCount + 1;
      isWindowResizeEvent := true;
      if IsVisible(v) {
        ignoreMutation := Forever;
      }
      d := HandleResizeOrVisibility(false, v, fullScreen);
    }

    method ResizeTimerFired(v: View, fullScreen: bool)
      modifies this
      ensures State() == OnResizeTimer(old(State()), v, fullScreen)
    {
      if resizePending {
        resizeCount := 0;
        resizePending := false;
        SetState(HandleResize(State(), v, fullScreen));
      }
    }
  }
}
