/** What the book does with content that crosses a page boundary: a page item
    (Book.js:1783-1812) or a book item in column paging (Book.js:1464-1528) either
    has its media resized to fit, or is pushed to the next page. In vertical paging
    the push is a filler `div` (Book.js:1821-1850), and a filler that lands right
    after another one detected at the same point ends the paging loop
    (Book.js:1175-1180). Positions are whole pixels relative to the top of the page
    being laid out. */
module Overflow {
  import opened Wrappers
  import opened JsStrings
  import StyleLog

  /** The slack, in pixels, the book allows between a resized item and the page end. */
  const ErrorTolerance: int := 3

  function Abs(x: int): nat {
    if x < 0 then -x else x
  }

  // ---------------------------------------------------------------------------
  // #handleCrossPageItem (Book.js:1783-1812)

  /** Either the media is given height `mediaHeight` and the item a bottom margin of
      `itemMarginBottom`, or a filler of height `fillerHeight`, detected at
      `detectPoint`, is put in front of the item. */
  datatype ItemAction =
    | ResizeMedia(mediaHeight: int, itemMarginBottom: int)
    | ShiftItem(fillerHeight: int, detectPoint: int)

  /** The page-item decision for an item whose top is at `itemTop`, `itemHeight` tall,
      holding media `mediaHeight` tall; the page is `pageLength` long (and
      `pageHeight` high) with the given upper and lower margins. An item that is not
      itself an image, video or iframe and holds none has no media (`None`), and
      reading the height of `null` is a `TypeError`. */
  function CrossPageItemAction(pageLength: int, pageHeight: int, upperMargin: int, lowerMargin: int,
                               minImgHeight: int, itemTop: int, itemHeight: int, mediaHeight: Option<int>): (r: Result<ItemAction>)
    ensures r.Err? <==> mediaHeight.None?
    ensures r.Err? ==> r.error == TypeError
    ensures mediaHeight.Some? ==>
      var spaceLeft := pageLength - lowerMargin - itemTop;
      var extra := itemHeight - mediaHeight.value;
      var blankPage := pageLength - (upperMargin + lowerMargin);
      (r.value.ResizeMedia? <==> (spaceLeft >= minImgHeight + extra || Abs(spaceLeft - blankPage) <= ErrorTolerance)) &&
      // a resized item ends `ErrorTolerance` above the lower margin
      (r.value.ResizeMedia? ==>
        itemTop + extra + r.value.mediaHeight == pageLength - lowerMargin - ErrorTolerance &&
        r.value.itemMarginBottom == upperMargin + lowerMargin) &&
      // the media keeps the minimum height, up to the tolerance, unless it fills a blank page
      (r.value.ResizeMedia? && spaceLeft >= minImgHeight + extra ==>
        r.value.mediaHeight >= minImgHeight - ErrorTolerance) &&
      // a shifted item starts at the upper margin of the next page
      (r.value.ShiftItem? ==>
        itemTop + r.value.fillerHeight == pageLength + upperMargin && r.value.detectPoint == pageHeight - lowerMargin)
  {
    match mediaHeight
    case None => Err(TypeError)
    case Some(mh) =>
      var spaceLeft := pageLength - lowerMargin - itemTop;
      var blankPage := pageLength - (upperMargin + lowerMargin);
      var extraSpaceNeeded := itemHeight - mh;
      var minSpaceRequired := minImgHeight + extraSpaceNeeded;
      if spaceLeft >= minSpaceRequired || Abs(spaceLeft - blankPage) <= 3 then
        Ok(ResizeMedia(spaceLeft - extraSpaceNeeded - ErrorTolerance, upperMargin + lowerMargin))
      else
        Ok(ShiftItem(spaceLeft + upperMargin + lowerMargin, pageHeight - lowerMargin))
  }

  /** An item pushed to the next page is resized there rather than pushed again, so
      no item is shifted twice. */
  lemma ShiftedItemIsResizedNext(pageLength: int, pageHeight: int, upperMargin: int, lowerMargin: int,
                                 minImgHeight: int, itemTop: int, itemHeight: int, mediaHeight: int)
    requires CrossPageItemAction(pageLength, pageHeight, upperMargin, lowerMargin, minImgHeight, itemTop, itemHeight, Some(mediaHeight)).value.ShiftItem?
    ensures var shift := CrossPageItemAction(pageLength, pageHeight, upperMargin, lowerMargin, minImgHeight, itemTop, itemHeight, Some(mediaHeight)).value;
      CrossPageItemAction(pageLength, pageHeight, upperMargin, lowerMargin, minImgHeight,
                          itemTop + shift.fillerHeight - pageLength, itemHeight, Some(mediaHeight)).value.ResizeMedia?
  {
  }

  // ---------------------------------------------------------------------------
  // #handleCrossPageBookItem (Book.js:1464-1528)

  /** A book item's media: its current and its recorded original height. */
  datatype Media = Media(clientHeight: int, originalHeight: int)

  /** The height the media of a column-crossing book item gets: fitted into the
      space left in this column, shrunk to fit a blank column, or kept at its
      original height when it already fits one. */
  datatype ColumnAction =
    | FitHere(mediaHeight: int)
    | NextColumnShrunk(mediaHeight: int)
    | NextColumnOriginal(mediaHeight: int)

  function Min(a: int, b: int): int {
    if a <= b then a else b
  }

  /** The decision for a book item `itemOriginalHeight` tall whose first fragment
      leaves `spaceLeft` in a column `blankPage` high. A book item without media
      makes every branch dereference `null`: a `TypeError`. */
  function CrossPageBookItemAction(spaceLeft: int, blankPage: int, minImgHeight: int,
                                   itemOriginalHeight: int, media: Option<Media>): (r: Result<ColumnAction>)
    ensures r.Err? <==> media.None?
    ensures r.Err? ==> r.error == TypeError
    ensures media.Some? ==>
      var extra := itemOriginalHeight - Min(media.value.clientHeight, media.value.originalHeight);
      (r.value.FitHere? <==> (spaceLeft >= minImgHeight + extra || Abs(spaceLeft - blankPage) <= ErrorTolerance)) &&
      (r.value.FitHere? ==> extra + r.value.mediaHeight == spaceLeft - ErrorTolerance) &&
      (r.value.NextColumnShrunk? ==> itemOriginalHeight > blankPage && extra + r.value.mediaHeight == blankPage - ErrorTolerance) &&
      (r.value.NextColumnOriginal? ==> itemOriginalHeight <= blankPage && r.value.mediaHeight == media.value.originalHeight)
  {
    match media
    case None => Err(TypeError)
    case Some(m) =>
      var extraSpaceNeeded := itemOriginalHeight - Min(m.clientHeight, m.originalHeight);
      var minSpaceRequired := minImgHeight + extraSpaceNeeded;
      if spaceLeft >= minSpaceRequired || Abs(spaceLeft - blankPage) <= ErrorTolerance then
        Ok(FitHere(spaceLeft - extraSpaceNeeded - ErrorTolerance))
      else if itemOriginalHeight > blankPage then
        Ok(NextColumnShrunk(blankPage - extraSpaceNeeded - ErrorTolerance))
      else
        Ok(NextColumnOriginal(m.originalHeight))
  }

  /** A book item moved to the next column fits in it, provided its media had not
      been shrunk below its original height. */
  lemma MovedBookItemFitsAColumn(spaceLeft: int, blankPage: int, minImgHeight: int, itemOriginalHeight: int, m: Media)
    requires m.clientHeight >= m.originalHeight
    requires CrossPageBookItemAction(spaceLeft, blankPage, minImgHeight, itemOriginalHeight, Some(m)).Ok?
    ensures var r := CrossPageBookItemAction(spaceLeft, blankPage, minImgHeight, itemOriginalHeight, Some(m)).value;
      !r.FitHere? ==> itemOriginalHeight - m.originalHeight + r.mediaHeight <= blankPage
  {
  }

  /** One book item of the column layout. `crossing` is whether it has more than one
      client rectangle; `parents` are its media's ancestors below the item. */
  datatype BookItem = BookItem(
    crossing: bool,
    spaceLeft: int,
    originalHeight: int,
    media: Option<(StyleLog.ElemId, Media)>,
    parents: seq<StyleLog.ElemId>)

  function MediaOf(item: BookItem): Option<Media> {
    if item.media.Some? then Some(item.media.value.1) else None
  }

  /** The top margin and padding of `parents` zeroed, one after the other. */
  function ZeroTopSpacing(st: StyleLog.EditorState, parents: seq<StyleLog.ElemId>): StyleLog.EditorState {
    if parents == [] then st
    else
      StyleLog.AfterChangeStyle(ZeroTopSpacing(st, parents[..|parents| - 1]), parents[|parents| - 1],
                                [("marginTop", "0px"), ("paddingTop", "0px")], false)
  }

  /** The edits for one book item: `None` when the item throws. */
  function BookItemEdit(st: StyleLog.EditorState, item: BookItem, blankPage: int, minImgHeight: int): Option<StyleLog.EditorState> {
    if !item.crossing then Some(st)
    else
      match CrossPageBookItemAction(item.spaceLeft, blankPage, minImgHeight, item.originalHeight, MediaOf(item))
      case Err(_) => None
      case Ok(action) =>
        var resized := StyleLog.AfterChangeStyle(st, item.media.value.0,
                                                 [("height", StyleLog.Px(action.mediaHeight)), ("width", "auto")], false);
        Some(ZeroTopSpacing(resized, item.parents))
  }

  /** The state after the items are processed in order, and whether one of them
      threw; processing stops at the first that does. */
  function BookItemEdits(st: StyleLog.EditorState, items: seq<BookItem>, blankPage: int, minImgHeight: int): (StyleLog.EditorState, bool) {
    if items == [] then (st, false)
    else
      var (before, threw) := BookItemEdits(st, items[..|items| - 1], blankPage, minImgHeight);
      if threw then (before, true)
      else
        match BookItemEdit(before, items[|items| - 1], blankPage, minImgHeight)
        case None => (before, true)
        case Some(after) => (after, false)
  }

  /** A book item that does not cross a column edge is left alone. */
  lemma {:induction false} BookItemEditsSkipNonCrossing(st: StyleLog.EditorState, items: seq<BookItem>, blankPage: int, minImgHeight: int)
    requires forall i :: 0 <= i < |items| ==> !items[i].crossing
    ensures BookItemEdits(st, items, blankPage, minImgHeight) == (st, false)
    decreases |items|
  {
    if items != [] {
      BookItemEditsSkipNonCrossing(st, items[..|items| - 1], blankPage, minImgHeight);
    }
  }

  /** Processing throws exactly when a crossing item without media is reached. */
  lemma {:induction false} BookItemEditsThrow(st: StyleLog.EditorState, items: seq<BookItem>, blankPage: int, minImgHeight: int)
    ensures BookItemEdits(st, items, blankPage, minImgHeight).1 <==>
      exists i :: 0 <= i < |items| && items[i].crossing && items[i].media.None?
    decreases |items|
  {
    if items != [] {
      var init := items[..|items| - 1];
      BookItemEditsThrow(st, init, blankPage, minImgHeight);
      var last := items[|items| - 1];
      if exists i :: 0 <= i < |init| && init[i].crossing && init[i].media.None? {
        var i :| 0 <= i < |init| && init[i].crossing && init[i].media.None?;
        assert items[i] == init[i];
      } else if last.crossing && last.media.None? {
      } else {
        forall i | 0 <= i < |items|
          ensures !(items[i].crossing && items[i].media.None?)
        {
          if i < |init| {
            assert items[i] == init[i];
          }
        }
      }
    }
  }

  // ---------------------------------------------------------------------------
  // Book.#addFiller (Book.js:1821-1850) and the vertical paging loop

  /** `"filler_" + n` */
  function FillerName(n: int): string {
    "filler_" + IntToString(n)
  }

  /** A filler `div`: its `id`, its class, its height and whether it stays in the
      document. Its top and bottom margins are "0px". */
  datatype Filler = Filler(id: string, className: string, height: string, attached: bool)

  /** Where the filler goes: wrapped around a collapsed text range, or in front of an
      element, whose top margin and those of its first-child chain (`chain` starts
      with the element) are zeroed. */
  datatype FillerTarget = AroundRange | BeforeElement(chain: seq<StyleLog.ElemId>)

  function TargetChain(target: FillerTarget): seq<StyleLog.ElemId> {
    match target
    case AroundRange => []
    case BeforeElement(chain) => chain
  }

  /** The filler's previous sibling once the filler is in place: none (or not an
      element), another element with its class list, or one of the pager's own
      fillers, by its position in `fillers`. */
  datatype Sibling = NoElement | OtherElement(classes: set<string>) | PagerFiller(index: nat)

  /** `filler.previousSibling?.classList?.contains("filler_" + detectPoint)` */
  function Adjacent(fillers: seq<Filler>, previous: Sibling, detectPoint: int): bool
    requires previous.PagerFiller? ==> previous.index < |fillers|
  {
    match previous
    case NoElement => false
    case OtherElement(classes) => FillerName(detectPoint) in classes
    case PagerFiller(k) => fillers[k].className == FillerName(detectPoint)
  }

  /** The fillers once an adjacent earlier filler of the pager is removed. */
  function DetachAdjacent(fillers: seq<Filler>, previous: Sibling, adjacent: bool): (r: seq<Filler>)
    requires previous.PagerFiller? ==> previous.index < |fillers|
    ensures |r| == |fillers|
    ensures forall i :: 0 <= i < |r| ==> r[i].id == fillers[i].id && r[i].className == fillers[i].className
    ensures forall i :: 0 <= i < |r| && !(adjacent && previous == PagerFiller(i)) ==> r[i] == fillers[i]
    ensures adjacent && previous.PagerFiller? ==> !r[previous.index].attached
  {
    if adjacent && previous.PagerFiller? then
      fillers[previous.index := fillers[previous.index].(attached := false)]
    else fillers
  }

  /** Distinct filler numbers give distinct ids. */
  lemma FillerNamesDistinct(m: nat, n: nat)
    requires m != n
    ensures FillerName(m) != FillerName(n)
  {
    if FillerName(m) == FillerName(n) {
      var a := IntToString(m);
      var b := IntToString(n);
      assert a == FillerName(m)[7..] && b == FillerName(n)[7..];
      DigitsOfNatToString(m);
      DigitsOfNatToString(n);
      assert false;
    }
  }

  /** The n-th filler (from 1) has the id "filler_n". */
  ghost predicate NumberedFillers(fillers: seq<Filler>) {
    forall i :: 0 <= i < |fillers| ==> fillers[i].id == FillerName(i + 1)
  }

  /** Appending the filler numbered one past the last keeps the numbering. */
  lemma NumberedFillersAppend(fillers: seq<Filler>, f: Filler)
    requires NumberedFillers(fillers) && f.id == FillerName(|fillers| + 1)
    ensures NumberedFillers(fillers + [f])
  {
    var all := fillers + [f];
    forall i | 0 <= i < |all|
      ensures all[i].id == FillerName(i + 1)
    {
      if i < |fillers| {
        assert all[i] == fillers[i];
      }
    }
  }

  /** Removing a filler from the document keeps the numbering. */
  lemma NumberedFillersDetach(fillers: seq<Filler>, previous: Sibling, adjacent: bool)
    requires NumberedFillers(fillers)
    requires previous.PagerFiller? ==> previous.index < |fillers|
    ensures NumberedFillers(DetachAdjacent(fillers, previous, adjacent))
  {
    var r := DetachAdjacent(fillers, previous, adjacent);
    forall i | 0 <= i < |r|
      ensures r[i].id == FillerName(i + 1)
    {
      assert r[i].id == fillers[i].id;
    }
  }

  /** The part of a book that vertical paging updates: the fillers it made and the
      `#pageEndReached` flag. */
  class VerticalPager {
    var fillers: seq<Filler>
    var pageEndReached: bool

    ghost predicate Valid()
      reads this
    {
      NumberedFillers(fillers)
    }

    constructor()
      ensures fillers == [] && !pageEndReached && Valid()
    {
      fillers := [];
      pageEndReached := false;
    }

    /** A sibling the document can hold: one of the pager's fillers that is still
        in the document. */
    predicate InDocument(previous: Sibling)
      reads this
    {
      previous.PagerFiller? ==> previous.index < |fillers| && fillers[previous.index].attached
    }

    /** `#addFiller(elem, height, detectPoint)`. `previous` is the filler's previous
        sibling once it is in place. When that sibling is a filler of the same
        class both are removed from the document and the page end is reached. */
    method AddFiller(editor: StyleLog.BookEditor, target: FillerTarget, height: int, detectPoint: int,
                     previous: Sibling) returns (r: Option<Filler>)
      requires Valid() && InDocument(previous)
      modifies this, editor
      ensures Valid()
      ensures height <= 0 ==>
        r == None && fillers == old(fillers) && pageEndReached == old(pageEndReached) &&
        editor.State() == old(editor.State())
      ensures height > 0 ==>
        var adjacent := Adjacent(old(fillers), previous, detectPoint);
        r == Some(Filler(FillerName(|old(fillers)| + 1), FillerName(detectPoint), StyleLog.Px(height), !adjacent)) &&
        fillers == DetachAdjacent(old(fillers), previous, adjacent) + [r.value] &&
        pageEndReached == (old(pageEndReached) || adjacent) &&
        editor.State() == StyleLog.ZeroTopMargins(old(editor.State()), TargetChain(target))
      // two adjacent fillers of the pager both leave the document
      ensures height > 0 && previous.PagerFiller? && Adjacent(old(fillers), previous, detectPoint) ==>
        !fillers[previous.index].attached && !fillers[|fillers| - 1].attached
      ensures editor.classes == old(editor.classes) && editor.failedCount == old(editor.failedCount)
    {
      if height <= 0 {
        return None;
      }
      var className := FillerName(detectPoint);
      var adjacent := Adjacent(fillers, previous, detectPoint);
      var filler := Filler(FillerName(|fillers| + 1), className, StyleLog.Px(height), !adjacent);
      var kept := DetachAdjacent(fillers, previous, adjacent);
      NumberedFillersDetach(fillers, previous, adjacent);
      NumberedFillersAppend(kept, filler);
      fillers := kept + [filler];
      editor.ZeroMargins(TargetChain(target));
      if adjacent {
        pageEndReached := true;
      }
      r := Some(filler);
    }

    /** `#handleCrossPageItem(pageItem)`: the decision, applied through the editor or
        by a filler in front of the item. `media` is the item's media element and its
        height, `None` when it has none; `chain` is the item followed by its
        first-element-child chain. `threw` reports the `TypeError` of an item without
        media, which changes nothing. */
    method HandleCrossPageItem(editor: StyleLog.BookEditor, media: Option<(StyleLog.ElemId, int)>, item: StyleLog.ElemId,
                               chain: seq<StyleLog.ElemId>, previous: Sibling,
                               pageLength: int, pageHeight: int, upperMargin: int, lowerMargin: int,
                               minImgHeight: int, itemTop: int, itemHeight: int)
      returns (threw: bool)
      requires Valid() && InDocument(previous)
      requires |chain| > 0 && chain[0] == item
      modifies this, editor
      ensures Valid()
      ensures threw <==> media.None?
      ensures media.None? ==>
        fillers == old(fillers) && pageEndReached == old(pageEndReached) && editor.State() == old(editor.State())
      ensures media.Some? ==>
        match CrossPageItemAction(pageLength, pageHeight, upperMargin, lowerMargin, minImgHeight, itemTop, itemHeight, Some(media.value.1)).value
        case ResizeMedia(h, mb) =>
          var resized := StyleLog.AfterChangeStyle(old(editor.State()), media.value.0, [("height", StyleLog.Px(h)), ("width", "auto")], false);
          editor.State() == StyleLog.AfterChangeStyle(resized, item, [("margin-Bottom", StyleLog.Px(mb))], false) &&
          fillers == old(fillers) && pageEndReached == old(pageEndReached)
        case ShiftItem(fh, dp) =>
          var adjacent := Adjacent(old(fillers), previous, dp);
          (fh <= 0 ==> fillers == old(fillers) && editor.State() == old(editor.State()) && pageEndReached == old(pageEndReached)) &&
          (fh > 0 ==>
            fillers == DetachAdjacent(old(fillers), previous, adjacent) +
              [Filler(FillerName(|old(fillers)| + 1), FillerName(dp), StyleLog.Px(fh), !adjacent)] &&
            editor.State() == StyleLog.ZeroTopMargins(old(editor.State()), chain) &&
            pageEndReached == (old(pageEndReached) || adjacent))
    {
      var action := CrossPageItemAction(pageLength, pageHeight, upperMargin, lowerMargin, minImgHeight, itemTop, itemHeight,
                                        if media.Some? then Some(media.value.1) else None);
      if action.Err? {
        return true;
      }
      threw := false;
      match action.value
      case ResizeMedia(h, mb) =>
        editor.ChangeStyle(media.value.0, [("height", StyleLog.Px(h)), ("width", "auto")], false);
        editor.ChangeStyle(item, [("margin-Bottom", StyleLog.Px(mb))], false);
      case ShiftItem(fh, dp) =>
        var _ := AddFiller(editor, BeforeElement(chain), fh, dp, previous);
    }
  }

  /** The top spacing of the media's ancestors zeroed by the editor. */
  method ZeroParents(editor: StyleLog.BookEditor, parents: seq<StyleLog.ElemId>)
    modifies editor
    ensures editor.State() == ZeroTopSpacing(old(editor.State()), parents)
    ensures editor.classes == old(editor.classes) && editor.failedCount == old(editor.failedCount)
  {
    ghost var st0 := editor.State();
    var i := 0;
    while i < |parents|
      invariant 0 <= i <= |parents|
      invariant editor.State() == ZeroTopSpacing(st0, parents[..i])
      invariant editor.classes == old(editor.classes) && editor.failedCount == old(editor.failedCount)
    {
      editor.ChangeStyle(parents[i], [("marginTop", "0px"), ("paddingTop", "0px")], false);
      assert parents[..i + 1][..i] == parents[..i];
      i := i + 1;
    }
    assert parents[..i] == parents;
  }

  /** `#handleCrossPageBookItem()`: every book item crossing a column edge gets its
      media resized and its media's ancestors' top spacing zeroed; `threw` is set
      when an item without media stops the walk. */
  method HandleCrossPageBookItems(editor: StyleLog.BookEditor, items: seq<BookItem>, blankPage: int, minImgHeight: int)
    returns (threw: bool)
    modifies editor
    ensures (editor.State(), threw) == BookItemEdits(old(editor.State()), items, blankPage, minImgHeight)
  {
    ghost var st0 := editor.State();
    var i := 0;
    threw := false;
    while i < |items|
      invariant 0 <= i <= |items|
      invariant (editor.State(), false) == BookItemEdits(st0, items[..i], blankPage, minImgHeight)
    {
      BookItemEditsNext(st0, items, i, blankPage, minImgHeight);
      var item := items[i];
      if item.crossing {
        var action := CrossPageBookItemAction(item.spaceLeft, blankPage, minImgHeight, item.originalHeight, MediaOf(item));
        if action.Err? {
          threw := true;
          BookItemEditsAfterThrow(st0, items, i + 1, blankPage, minImgHeight);
          return;
        }
        editor.ChangeStyle(item.media.value.0, [("height", StyleLog.Px(action.value.mediaHeight)), ("width", "auto")], false);
        ZeroParents(editor, item.parents);
      }
      i := i + 1;
    }
    assert items[..i] == items;
  }

  /** One more item, processed after the ones before it, which did not throw. */
  lemma BookItemEditsNext(st: StyleLog.EditorState, items: seq<BookItem>, n: nat, blankPage: int, minImgHeight: int)
    requires n < |items|
    requires !BookItemEdits(st, items[..n], blankPage, minImgHeight).1
    ensures var before := BookItemEdits(st, items[..n], blankPage, minImgHeight).0;
      BookItemEdits(st, items[..n + 1], blankPage, minImgHeight) ==
        match BookItemEdit(before, items[n], blankPage, minImgHeight)
        case None => (before, true)
        case Some(after) => (after, false)
  {
    assert items[..n + 1][..n] == items[..n];
  }

  /** Once processing has thrown, later items change nothing. */
  lemma {:induction false} BookItemEditsAfterThrow(st: StyleLog.EditorState, items: seq<BookItem>, n: nat, blankPage: int, minImgHeight: int)
    requires n <= |items|
    requires BookItemEdits(st, items[..n], blankPage, minImgHeight).1
    ensures BookItemEdits(st, items, blankPage, minImgHeight) == BookItemEdits(st, items[..n], blankPage, minImgHeight)
    decreases |items| - n
  {
    if n < |items| {
      assert items[..n + 1][..n] == items[..n];
      assert BookItemEdits(st, items[..n + 1], blankPage, minImgHeight) == BookItemEdits(st, items[..n], blankPage, minImgHeight);
      BookItemEditsAfterThrow(st, items, n + 1, blankPage, minImgHeight);
    } else {
      assert items[..n] == items;
    }
  }
}
