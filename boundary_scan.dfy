/** Finding the first and the last piece of content on the current page
    (`getPageStarter` and `getPageEnder`, Book.js:268-368). The browser's hit test
    and layout queries are given as a `Layout` of oracle functions; nodes are
    numbered. A catch point near the top (bottom) of the page is hit-tested; if it
    lands on no text and more than one page away from the current page, the page
    is rescanned in 30-pixel steps, then vertical mode steps over filler siblings. */
module BoundaryScan {
  import opened Wrappers
  import opened JsStrings

  type NodeRef = nat

  /** A caret position: a node and an offset in it (`{offsetNode, offset}`). */
  datatype Caret = Caret(node: NodeRef, offset: int)

  /** What the model asks of the browser. `nextSiblings(n)` and `previousSiblings(n)`
      list the siblings after and before `n`, nearest first; `className(n)` is
      `None` for nodes without a class name (text nodes). */
  datatype Layout = Layout(
    locate: (int, int) -> Option<Caret>,
    pageOf: NodeRef -> int,
    isText: NodeRef -> bool,
    isValid: NodeRef -> bool,
    className: NodeRef -> Option<string>,
    textLength: NodeRef -> nat,
    nextSiblings: NodeRef -> seq<NodeRef>,
    previousSiblings: NodeRef -> seq<NodeRef>)

  datatype PagingMethod = Vertical | Column

  const ScanStep: int := 30

  /** Two hits are at the same node (`offsetNode === invalidNode`); two misses are too. */
  predicate SameNode(a: Option<Caret>, b: Option<Caret>) {
    if a.Some? && b.Some? then a.value.node == b.value.node else a.None? && b.None?
  }

  /** A hit more than one page away from the current page. A miss counts as far, so
      that it is rescanned (the correction of the finding below). */
  predicate Far(layout: Layout, hit: Option<Caret>, current: int) {
    hit.None? || layout.pageOf(hit.value.node) - current > 1 || current - layout.pageOf(hit.value.node) > 1
  }

  /** The rescan test of Book.js:272 and 322 as written: `getPageNumByItem(null)`
      evaluates `"starter" in null`, which throws a `TypeError`, so a miss at the
      catch point aborts the whole call. */
  function NeedsRescanAsWritten(layout: Layout, hit: Option<Caret>, current: int): (r: Result<bool>)
    ensures r.Err? <==> hit.None?
    ensures r.Ok? ==> (r.value <==> !layout.isText(hit.value.node) && Far(layout, hit, current))
  {
    if hit.None? then Err(TypeError)
    else Ok(!layout.isText(hit.value.node) && Far(layout, hit, current))
  }

  /** The rescan test as intended: a miss, like a non-text hit far from the current
      page, sends the scan on. */
  function NeedsRescan(layout: Layout, hit: Option<Caret>, current: int): (r: bool)
    ensures r <==> (hit.None? || !layout.isText(hit.value.node)) && Far(layout, hit, current)
    ensures hit.Some? ==> NeedsRescanAsWritten(layout, hit, current) == Ok(r)
  {
    hit.None? || (!layout.isText(hit.value.node) && Far(layout, hit, current))
  }

  /** A miss at the catch point throws as written, but rescans once corrected. */
  lemma MissAtCatchPoint(layout: Layout, current: int)
    ensures NeedsRescanAsWritten(layout, None, current) == Err(TypeError)
    ensures NeedsRescan(layout, None, current)
  {
  }

  // ---------------------------------------------------------------------------
  // the rasters

  /** The starter's raster: right by 30, wrapping to the left edge of the next row
      once past the page width (Book.js:281-285). */
  function ForwardStep(x: int, y: int, width: int): (int, int) {
    if x + ScanStep > width then (0, y + ScanStep) else (x + ScanStep, y)
  }

  /** The `k`-th point of the starter's raster after `(x, y)`. */
  function ForwardPoint(x: int, y: int, width: int, k: nat): (int, int) {
    if k == 0 then (x, y)
    else
      var p := ForwardPoint(x, y, width, k - 1);
      ForwardStep(p.0, p.1, width)
  }

  /** Steps left in the current row of the starter's raster. */
  function ColumnsLeft(x: int, width: nat): nat {
    if x > width then 0 else (width - x) / ScanStep + 1
  }

  /** Row wraps left before the starter's raster passes the page height. */
  function RowsLeft(y: int, height: int): nat {
    if y + ScanStep > height then 0 else (height - y) / ScanStep
  }

  /** A bound on the number of points the starter's raster visits. */
  function ForwardBound(x: int, y: int, width: nat, height: int): nat {
    RowsLeft(y, height) * (width / ScanStep + 2) + ColumnsLeft(x, width)
  }

  lemma ForwardBoundDecreases(x: int, y: int, width: nat, height: int)
    requires x + ScanStep <= width || y + ScanStep <= height
    ensures ForwardBound(ForwardStep(x, y, width).0, ForwardStep(x, y, width).1, width, height)
      < ForwardBound(x, y, width, height)
  {
    var k := width / ScanStep + 2;
    if x + ScanStep > width {
      assert RowsLeft(y + ScanStep, height) == RowsLeft(y, height) - 1;
      assert RowsLeft(y, height) * k == RowsLeft(y + ScanStep, height) * k + k;
    }
  }

  /** The ender's raster: left by 30, wrapping to the right edge of the row above
      once past the left edge (Book.js:334-342). */
  function BackwardStep(x: int, y: int, width: int): (int, int) {
    if x - ScanStep < 0 then (width, y - ScanStep) else (x - ScanStep, y)
  }

  /** The `k`-th point of the ender's raster after `(x, y)`. */
  function BackwardPoint(x: int, y: int, width: int, k: nat): (int, int) {
    if k == 0 then (x, y)
    else
      var p := BackwardPoint(x, y, width, k - 1);
      BackwardStep(p.0, p.1, width)
  }

  function ColumnsLeftBackward(x: int): nat {
    if x < 0 then 0 else x / ScanStep + 1
  }

  function RowsLeftBackward(y: int): nat {
    if y - ScanStep < 0 then 0 else y / ScanStep
  }

  /** A bound on the number of points the ender's raster visits. */
  function BackwardBound(x: int, y: int, width: nat): nat {
    RowsLeftBackward(y) * (width / ScanStep + 2) + ColumnsLeftBackward(x)
  }

  lemma BackwardBoundDecreases(x: int, y: int, width: nat)
    requires x - ScanStep >= 0 || y - ScanStep >= 0
    ensures BackwardBound(BackwardStep(x, y, width).0, BackwardStep(x, y, width).1, width)
      < BackwardBound(x, y, width)
  {
    var k := width / ScanStep + 2;
    if x - ScanStep < 0 {
      assert RowsLeftBackward(y - ScanStep) == RowsLeftBackward(y) - 1;
      assert RowsLeftBackward(y) * k == RowsLeftBackward(y - ScanStep) * k + k;
    }
  }

  // ---------------------------------------------------------------------------
  // the rescans

  /** The starter's rescan (Book.js:278-297) from the rejected hit `rejected` at
      `(x0, y0)` settled on `hit` after hit-testing `steps` points: within the bound,
      `hit` is the last point tested, every point passed over hit the rejected node
      far from the current page, and the scan stopped at a hit on another node or
      near the current page, at a miss, or when the raster passed the page height. */
  predicate ForwardRescanned(layout: Layout, current: int, rejected: Option<Caret>, x0: int, y0: int, width: nat, height: int,
                             hit: Option<Caret>, steps: nat)
  {
    steps <= ForwardBound(x0, y0, width, height) &&
    (steps == 0 ==> hit == rejected) &&
    (steps > 0 ==> hit == layout.locate(ForwardPoint(x0, y0, width, steps).0, ForwardPoint(x0, y0, width, steps).1)) &&
    (forall j :: 0 < j < steps ==>
      var p := ForwardPoint(x0, y0, width, j);
      SameNode(layout.locate(p.0, p.1), rejected) && Far(layout, layout.locate(p.0, p.1), current) && layout.locate(p.0, p.1).Some?) &&
    (!SameNode(hit, rejected) || !Far(layout, hit, current) || (steps > 0 && hit.None?) ||
      (ForwardPoint(x0, y0, width, steps).0 + ScanStep > width && ForwardPoint(x0, y0, width, steps).1 + ScanStep > height))
  }

  /** The starter's rescan loop: it returns the hit it stopped at and the number of
      points it hit-tested. */
  method RescanForward(layout: Layout, current: int, rejected: Option<Caret>, x0: int, y0: int, width: nat, height: int)
    returns (hit: Option<Caret>, steps: nat)
    ensures ForwardRescanned(layout, current, rejected, x0, y0, width, height, hit, steps)
  {
    var x, y := x0, y0;
    hit, steps := rejected, 0;
    while SameNode(hit, rejected) && Far(layout, hit, current)
      invariant (x, y) == ForwardPoint(x0, y0, width, steps)
      invariant steps + ForwardBound(x, y, width, height) <= ForwardBound(x0, y0, width, height)
      invariant steps == 0 ==> hit == rejected
      invariant steps > 0 ==> hit == layout.locate(x, y) && hit.Some?
      invariant forall j :: 0 < j < steps ==>
        var p := ForwardPoint(x0, y0, width, j);
        SameNode(layout.locate(p.0, p.1), rejected) && Far(layout, layout.locate(p.0, p.1), current) && layout.locate(p.0, p.1).Some?
      decreases ForwardBound(x, y, width, height)
    {
      if x + ScanStep > width && y + ScanStep > height {
        break;
      }
      ForwardBoundDecreases(x, y, width, height);
      x, y := ForwardStep(x, y, width).0, ForwardStep(x, y, width).1;
      hit := layout.locate(x, y);
      steps := steps + 1;
      if hit.None? {
        break;
      }
    }
  }

  /** The ender's rescan (Book.js:331-345) settled on `hit` after `steps` points: as
      the starter's, right to left and bottom to top, stopping when the raster passes
      the top of the page; there is no separate stop at a miss (a miss is not the
      rejected node, so the loop test ends it). */
  predicate BackwardRescanned(layout: Layout, current: int, rejected: Option<Caret>, x0: int, y0: int, width: nat,
                              hit: Option<Caret>, steps: nat)
  {
    steps <= BackwardBound(x0, y0, width) &&
    (steps == 0 ==> hit == rejected) &&
    (steps > 0 ==> hit == layout.locate(BackwardPoint(x0, y0, width, steps).0, BackwardPoint(x0, y0, width, steps).1)) &&
    (forall j :: 0 < j < steps ==>
      var p := BackwardPoint(x0, y0, width, j);
      SameNode(layout.locate(p.0, p.1), rejected) && Far(layout, layout.locate(p.0, p.1), current)) &&
    (!SameNode(hit, rejected) || !Far(layout, hit, current) ||
      (BackwardPoint(x0, y0, width, steps).0 - ScanStep < 0 && BackwardPoint(x0, y0, width, steps).1 - ScanStep < 0))
  }

  /** The ender's rescan loop. */
  method RescanBackward(layout: Layout, current: int, rejected: Option<Caret>, x0: int, y0: int, width: nat)
    returns (hit: Option<Caret>, steps: nat)
    ensures BackwardRescanned(layout, current, rejected, x0, y0, width, hit, steps)
  {
    var x, y := x0, y0;
    hit, steps := rejected, 0;
    while SameNode(hit, rejected) && Far(layout, hit, current)
      invariant (x, y) == BackwardPoint(x0, y0, width, steps)
      invariant steps + BackwardBound(x, y, width) <= BackwardBound(x0, y0, width)
      invariant steps == 0 ==> hit == rejected
      invariant steps > 0 ==> hit == layout.locate(x, y)
      invariant forall j :: 0 < j < steps ==>
        var p := BackwardPoint(x0, y0, width, j);
        SameNode(layout.locate(p.0, p.1), rejected) && Far(layout, layout.locate(p.0, p.1), current)
      decreases BackwardBound(x, y, width)
    {
      if x - ScanStep < 0 && y - ScanStep < 0 {
        break;
      }
      BackwardBoundDecreases(x, y, width);
      x, y := BackwardStep(x, y, width).0, BackwardStep(x, y, width).1;
      hit := layout.locate(x, y);
      steps := steps + 1;
    }
  }

  // ---------------------------------------------------------------------------
  // stepping over fillers

  /** `className?.includes("filler")` */
  predicate IsFiller(className: Option<string>) {
    className.Some? && Contains(className.value, "filler")
  }

  /** `n` is the first node of `chain` that is not a filler. */
  predicate FirstNonFiller(layout: Layout, chain: seq<NodeRef>, n: NodeRef) {
    exists i :: 0 <= i < |chain| && chain[i] == n && !IsFiller(layout.className(chain[i])) && AllFillers(layout, chain[..i])
  }

  predicate AllFillers(layout: Layout, chain: seq<NodeRef>) {
    forall j :: 0 <= j < |chain| ==> IsFiller(layout.className(chain[j]))
  }

  /** `while (target.className?.includes("filler")) target = <sibling>` over `chain`,
      the start node followed by its siblings in walking order: the first non-filler,
      or a `TypeError` when the walk runs past the last sibling onto `null`. */
  method SkipFillers(layout: Layout, chain: seq<NodeRef>) returns (r: Result<NodeRef>)
    ensures r.Ok? ==> FirstNonFiller(layout, chain, r.value)
    ensures r.Err? <==> AllFillers(layout, chain)
    ensures r.Err? ==> r.error == TypeError
  {
    var i := 0;
    while i < |chain| && IsFiller(layout.className(chain[i]))
      invariant 0 <= i <= |chain|
      invariant forall j :: 0 <= j < i ==> IsFiller(layout.className(chain[j]))
    {
      i := i + 1;
    }
    if i == |chain| {
      return Err(TypeError);
    }
    assert chain[..i] == chain[..i];
    return Ok(chain[i]);
  }

  // ---------------------------------------------------------------------------
  // the two entry points

  /** `getPageStarter(x0, y0)` with the correction below: `hit` is the caret the
      rescan settled on and `r` the page starter built from it. Column mode returns
      the hit; vertical mode steps forward over fillers from a valid node and starts
      at offset 0; everything else falls back to the start of the contents. */
  method GetPageStarter(layout: Layout, paging: PagingMethod, current: int, contents: NodeRef,
                        x0: int, y0: int, width: nat, height: int)
    returns (hit: Option<Caret>, steps: nat, r: Result<Caret>)
    ensures var first := layout.locate(x0, y0);
      !NeedsRescan(layout, first, current) ==> hit == first && steps == 0
    ensures var first := layout.locate(x0, y0);
      NeedsRescan(layout, first, current) ==> ForwardRescanned(layout, current, first, x0, y0, width, height, hit, steps)
    ensures hit.None? ==> r == Ok(Caret(contents, 0))
    ensures hit.Some? && paging == Column ==> r == Ok(hit.value)
    ensures hit.Some? && paging == Vertical && !layout.isValid(hit.value.node) ==> r == Ok(Caret(contents, 0))
    ensures hit.Some? && paging == Vertical && layout.isValid(hit.value.node) ==>
      var chain := [hit.value.node] + layout.nextSiblings(hit.value.node);
      (r.Err? <==> AllFillers(layout, chain)) &&
      (r.Ok? ==> r.value.offset == 0 && FirstNonFiller(layout, chain, r.value.node))
  {
    hit, steps := layout.locate(x0, y0), 0;
    if NeedsRescan(layout, hit, current) {
      hit, steps := RescanForward(layout, current, hit, x0, y0, width, height);
    }
    if hit.None? {
      return hit, steps, Ok(Caret(contents, 0));
    }
    if paging == Column {
      return hit, steps, Ok(hit.value);
    }
    if !layout.isValid(hit.value.node) {
      return hit, steps, Ok(Caret(contents, 0));
    }
    var target := SkipFillers(layout, [hit.value.node] + layout.nextSiblings(hit.value.node));
    if target.Err? {
      return hit, steps, Err(target.error);
    }
    r := Ok(Caret(target.value, 0));
  }

  /** `getPageEnder(x0, y0)` with the same correction: vertical mode steps backward
      over fillers from a valid node and ends after its text; the fallback is the end
      of the contents, which has `contentsChildCount` child nodes. */
  method GetPageEnder(layout: Layout, paging: PagingMethod, current: int, contents: NodeRef, contentsChildCount: nat,
                      x0: int, y0: int, width: nat)
    returns (hit: Option<Caret>, steps: nat, r: Result<Caret>)
    ensures var first := layout.locate(x0, y0);
      !NeedsRescan(layout, first, current) ==> hit == first && steps == 0
    ensures var first := layout.locate(x0, y0);
      NeedsRescan(layout, first, current) ==> BackwardRescanned(layout, current, first, x0, y0, width, hit, steps)
    ensures hit.None? ==> r == Ok(Caret(contents, contentsChildCount))
    ensures hit.Some? && paging == Column ==> r == Ok(hit.value)
    ensures hit.Some? && paging == Vertical && !layout.isValid(hit.value.node) ==> r == Ok(Caret(contents, contentsChildCount))
    ensures hit.Some? && paging == Vertical && layout.isValid(hit.value.node) ==>
      var chain := [hit.value.node] + layout.previousSiblings(hit.value.node);
      (r.Err? <==> AllFillers(layout, chain)) &&
      (r.Ok? ==> r.value.offset == layout.textLength(r.value.node) && FirstNonFiller(layout, chain, r.value.node))
  {
    hit, steps := layout.locate(x0, y0), 0;
    if NeedsRescan(layout, hit, current) {
      hit, steps := RescanBackward(layout, current, hit, x0, y0, width);
    }
    if hit.None? {
      return hit, steps, Ok(Caret(contents, contentsChildCount));
    }
    if paging == Column {
      return hit, steps, Ok(hit.value);
    }
    if !layout.isValid(hit.value.node) {
      return hit, steps, Ok(Caret(contents, contentsChildCount));
    }
    var target := SkipFillers(layout, [hit.value.node] + layout.previousSiblings(hit.value.node));
    if target.Err? {
      return hit, steps, Err(target.error);
    }
    r := Ok(Caret(target.value, layout.textLength(target.value)));
  }
}
