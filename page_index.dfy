/** Page bookkeeping of a paged book (Book.js): which page the reader is on, how
    a requested page number is clamped, how a scroll offset maps to a page, how
    many pages the laid-out content has, and the input handlers that turn pages
    (clicks, keys, scroll events). Page numbers start at 1. */
module PageIndex {
  import opened Wrappers
  import opened JsStrings
  import opened Suppression

  datatype PagingMethod = Vertical | Column

  /** The `direction` of a "pagechange" event. */
  datatype Direction = Next | Prev | Jump

  /** The detail of a "pagechange" event. */
  datatype PageChange = PageChange(startPageNum: int, endPageNum: int, direction: Direction)

  /** A number handed to the `currentPage` setter; `None` stands for `NaN`, which is
      what `parseInt` yields for a missing or non-numeric stored page. */
  type PageRequest = Option<int>

  /** Where the `currentPage` setter lands and whether it raises the end-of-book
      flag (Book.js:665-683). A `NaN` request fails every comparison and lands on 1. */
  function Clamp(request: PageRequest, total: int): (r: (int, bool))
    ensures total >= 1 ==> 1 <= r.0 <= total
    ensures r.1 <==> request.Some? && request.value >= total
    ensures r.1 ==> r.0 == total
    ensures request.Some? && 1 <= request.value <= total ==> r.0 == request.value
    ensures (request.None? || request.value < 1) && 1 < total ==> r.0 == 1 && !r.1
  {
    match request
    case None => (1, false)
    case Some(n) =>
      if 1 <= n < total then (n, false)
      else if n >= total then (total, true)
      else (1, false)
  }

  /** The direction reported with a "pagechange" event: it compares the requested
      number, not the landed page, with the page before (Book.js:717-720). */
  function MoveDirection(request: PageRequest, previous: int): Direction {
    match request
    case None => Jump
    case Some(n) => if n - previous == 1 then Next else if n - previous == -1 then Prev else Jump
  }

  /** The scroll offset the setter writes for a page (Book.js:685). The browser
      clamps the negative offset that a zero-page book would ask for to 0. */
  function ScrollOffset(page: int, pageLength: nat): nat {
    if page >= 1 then pageLength * (page - 1) else 0
  }

  /** The setter returns at once when the requested page is the current page and the
      container sits exactly on a page boundary (Book.js:664); with a zero page
      length the remainder is `NaN` and the test fails. */
  predicate Settled(request: PageRequest, current: int, scrollPos: nat, pageLength: nat) {
    request == Some(current) && pageLength > 0 && scrollPos % pageLength == 0
  }

  /** The page a scroll offset lies on (Book.js:2279-2281). */
  function PageNumByScrollPos(pos: int, pageLength: int): (page: int)
    requires pageLength > 0
    ensures (page - 1) * pageLength <= pos < page * pageLength
  {
    pos / pageLength + 1
  }

  /** The 3-pixel snapping of a scroll offset onto the nearest page boundary before
      it is turned into a page number (Book.js:1110-1118). */
  function Snap(pos: nat, pageLength: nat): (r: nat)
    ensures pageLength > 0 ==> r == pos || r % pageLength == 0
    ensures pos - 3 < r < pos + 3
    ensures pageLength > 0 && pos % pageLength == 0 ==> r == pos
    ensures pageLength > 0 && pos % pageLength < 3 ==>
      r % pageLength == 0 && r / pageLength == pos / pageLength && r <= pos
    ensures pageLength > 0 && 3 <= pos % pageLength && pos % pageLength > pageLength - 3 ==>
      r % pageLength == 0 && r / pageLength == pos / pageLength + 1 && r > pos
    ensures pageLength > 0 && 3 <= pos % pageLength <= pageLength - 3 ==> r == pos
  {
    if pageLength == 0 then pos
    else
      DivModOf(pos - pos % pageLength, pageLength, pos / pageLength, 0);
      DivModOf(pos - pos % pageLength + pageLength, pageLength, pos / pageLength + 1, 0);
      if pos % pageLength < 3 then pos - pos % pageLength
      else if pos % pageLength > pageLength - 3 then pos - pos % pageLength + pageLength
      else pos
  }

  lemma {:induction false} MulAtLeast(b: int, d: int)
    requires b > 0 && d >= 1
    ensures b * d >= b
    decreases d
  {
    if d > 1 {
      MulAtLeast(b, d - 1);
      assert b * d == b * (d - 1) + b;
    }
  }

  /** Euclidean division is determined by quotient and remainder. */
  lemma DivModOf(a: int, b: int, q: int, m: int)
    requires b > 0 && 0 <= m < b && a == b * q + m
    ensures a / b == q && a % b == m
  {
    var q', m' := a / b, a % b;
    assert a == b * q' + m';
    if q' > q {
      assert b * (q' - q) == b * q' - b * q;
      MulAtLeast(b, q' - q);
    } else if q' < q {
      assert b * (q - q') == b * q - b * q';
      MulAtLeast(b, q - q');
    }
  }

  /** The offset the setter writes for page `p`, read back by the scroll handler with
      any shift of at most `pageLength - 3` (the column layout adds the left margin),
      gives page `p` again, and the setter then finds the book settled: turning a page
      does not set off a further turn (Book.js:664, 685, 1108-1131). */
  lemma ScrollRoundTrip(page: int, pageLength: nat, shift: nat)
    requires page >= 1 && pageLength > 0 && shift + 3 <= pageLength
    ensures PageNumByScrollPos(Snap(ScrollOffset(page, pageLength) + shift, pageLength), pageLength) == page
    ensures Settled(Some(page), page, ScrollOffset(page, pageLength), pageLength)
  {
    var off := ScrollOffset(page, pageLength);
    DivModOf(off + shift, pageLength, page - 1, shift);
    DivModOf(off, pageLength, page - 1, 0);
  }

  /** A scroll that stops off a page boundary but within the current page while
      further than the 3-pixel tolerance from both ends names the current page again,
      and the setter does not find the book settled, so it puts the container back on
      the page boundary (Book.js:664, 685, 1110-1131). */
  lemma ScrollWithinPageSnapsBack(page: int, pageLength: nat, shift: nat)
    requires page >= 1 && 3 <= shift && shift + 3 <= pageLength
    ensures var pos := ScrollOffset(page, pageLength) + shift;
      PageNumByScrollPos(Snap(pos, pageLength), pageLength) == page &&
      !Settled(Some(page), page, pos, pageLength)
  {
    DivModOf(ScrollOffset(page, pageLength) + shift, pageLength, page - 1, shift);
  }

  /** The position the scroll handler reads (Book.js:654-658): the container's
      offset along the paging direction, plus the left margin in column mode. */
  function ScrollReading(paging: PagingMethod, offset: nat, leftMargin: nat): (r: nat)
    ensures paging == Vertical ==> r == offset
    ensures paging == Column ==> r - offset == leftMargin
  {
    match paging
    case Vertical => offset
    case Column => offset + leftMargin
  }

  /** Column geometry (Book.js:118, 128, 1427): the gap between columns is twice the
      left margin, the right margin is made equal to the left one and a page is one
      column plus one gap. */
  datatype ColumnGeometry = ColumnGeometry(columnGap: nat, rightMargin: nat, pageLength: nat)

  function ColumnGeometryOf(leftMargin: nat, contentsWidth: nat): ColumnGeometry {
    ColumnGeometry(2 * leftMargin, leftMargin, contentsWidth + 2 * leftMargin)
  }

  /** In column mode the scroll handler reads `scrollLeft + leftMargin`
      (Book.js:656); because the gap is twice the margin, that reading still names
      the page the setter scrolled to. */
  lemma ColumnScrollRoundTrip(page: int, leftMargin: nat, contentsWidth: nat)
    requires page >= 1 && contentsWidth + leftMargin >= 3
    ensures var L := ColumnGeometryOf(leftMargin, contentsWidth).pageLength;
      PageNumByScrollPos(Snap(ScrollOffset(page, L) + leftMargin, L), L) == page
  {
    ScrollRoundTrip(page, ColumnGeometryOf(leftMargin, contentsWidth).pageLength, leftMargin);
  }

  /** `Math.ceil(a / b)` for a positive divisor. */
  function CeilDiv(a: int, b: int): (r: int)
    requires b > 0
    ensures (r - 1) * b < a <= r * b
  {
    (a + b - 1) / b
  }

  /** What the end of the book gets after paging: nothing, a spacer so that the last
      page can be scrolled to its top, or one blank column. */
  datatype EndFiller = NoFiller | Spacer(height: int) | BlankColumn

  /** The page count and the ending filler chosen by `handleBookEnd`
      (Book.js:1852-1882). In vertical mode the pages must reach the end of the last
      laid-out page (`pageEnd`) plus the lower margin; in column mode the extra
      blank column is not counted as a page. */
  function BookEnd(paging: PagingMethod, scrollLength: int, pageEnd: int, lowerMargin: int, pageLength: int): (r: (int, EndFiller))
    requires pageLength > 0
    ensures paging == Vertical && scrollLength < pageEnd + lowerMargin ==>
      r.1 == Spacer(pageEnd + lowerMargin - scrollLength) && r.1.height > 0 &&
      (r.0 - 1) * pageLength < pageEnd <= r.0 * pageLength
    ensures paging == Vertical && scrollLength >= pageEnd + lowerMargin ==>
      r.1 == NoFiller && (r.0 - 1) * pageLength < scrollLength <= r.0 * pageLength
    ensures paging == Column ==>
      r.1 == BlankColumn && r.0 * pageLength < scrollLength <= (r.0 + 1) * pageLength
  {
    match paging
    case Vertical =>
      if scrollLength < pageEnd + lowerMargin then
        (CeilDiv(pageEnd, pageLength), Spacer(pageEnd + lowerMargin - scrollLength))
      else (CeilDiv(scrollLength, pageLength), NoFiller)
    case Column => (CeilDiv(scrollLength, pageLength) - 1, BlankColumn)
  }

  /** The page a key asks for while the book is in eink mode (Book.js:2031-2057). */
  function KeyRequest(key: string, current: int, total: int): Option<int> {
    if key == "ArrowRight" || key == "AudioVolumeDown" then Some(current + 1)
    else if key == "ArrowLeft" || key == "AudioVolumeUp" then Some(current - 1)
    else if key == "ArrowUp" then Some(1)
    else if key == "ArrowDown" then Some(total)
    else None
  }

  /** What the keys do to a book whose page is in range: forward keys stop at the last
      page and raise the end flag on reaching it, backward keys stop at page 1,
      ArrowUp goes to page 1 and ArrowDown to the last page. */
  lemma KeyLanding(key: string, current: int, total: int)
    requires 1 <= current <= total
    ensures key == "ArrowRight" || key == "AudioVolumeDown" ==>
      Clamp(KeyRequest(key, current, total), total) ==
        (if current < total then current + 1 else total, current + 1 >= total)
    ensures key == "ArrowLeft" || key == "AudioVolumeUp" ==>
      Clamp(KeyRequest(key, current, total), total) ==
        (if current > 1 then current - 1 else 1, current - 1 >= total)
    ensures key == "ArrowUp" ==> Clamp(KeyRequest(key, current, total), total) == (1, total <= 1)
    ensures key == "ArrowDown" ==> Clamp(KeyRequest(key, current, total), total) == (total, true)
  {
  }

  /** The click handler turns back on the left half of the container and forward on
      the right half (Book.js:2146-2151); `clientX < left + width / 2` is compared
      without fractions. */
  function ClickRequest(clientX: int, leftBorder: int, clientWidth: int, current: int): int {
    if 2 * clientX < 2 * leftBorder + clientWidth then current - 1 else current + 1
  }

  /** The two flags shared by all books for turning pages with the volume keys under
      EinkBro, where a key press arrives as a scroll of the document: `pageFlipped`
      swallows the scroll event caused by resetting the scroll position, and
      `preventEvent` (`#preventVolumnKeyEvent`) swallows the one caused by a window resize. */
  datatype VolumeFlags = VolumeFlags(pageFlipped: bool, preventEvent: bool)

  /** A document scroll with the focused book in eink mode (Book.js:2176-2199): the
      new flags, the page step, and whether `scrollTop` is put back to the middle of
      the 2-pixel scroll buffer. */
  function VolumeStep(flags: VolumeFlags, scrollTop: int): (VolumeFlags, int, bool) {
    if flags.preventEvent then (VolumeFlags(flags.pageFlipped, false), 0, true)
    else if flags.pageFlipped then (VolumeFlags(false, false), 0, false)
    else if scrollTop > 1 then (VolumeFlags(true, false), 1, true)
    else if scrollTop < 1 then (VolumeFlags(true, false), -1, true)
    else (VolumeFlags(false, false), 0, true)
  }

  /** The scroll buffer reset after a page turn is itself a scroll event; it is
      swallowed, so one key press never turns two pages, and the press after it is
      served again. */
  lemma VolumeKeyTurnsOncePerPress(flags: VolumeFlags, t1: int, t2: int, t3: int)
    requires VolumeStep(flags, t1).1 != 0
    ensures VolumeStep(VolumeStep(flags, t1).0, t2).1 == 0
    ensures VolumeStep(VolumeStep(VolumeStep(flags, t1).0, t2).0, t3).1 == (if t3 > 1 then 1 else if t3 < 1 then -1 else 0)
  {
  }

  /** The scroll outcome of `#handleScroll` (Book.js:1106-1138). */
  datatype ScrollOutcome =
    | Restored(change: Option<PageChange>)
    | JumpedToAnchor(change: Option<PageChange>)
    | Followed(change: Option<PageChange>, bookStart: bool)
    | EndConfirmed

  /** The page state of one book. `scrollPos` is the rounded scroll offset along the
      paging direction (`scrollTop` in vertical mode, `scrollLeft` in column mode);
      `storedPage` is the book's entry in session storage. */
  class Book {
    const pagingMethod: PagingMethod
    var einkMode: bool
    var pageLength: nat
    var totalPages: int
    var currentPage: int
    var isEndOfPage: bool
    var scrollPos: nat
    var storedPage: string
    var preventFlip: Guard
    var correctScroll: bool

    /** A fresh book (Book.js:30-84): page 1 of 1, nothing laid out yet, in scroll
        mode; `stored` is whatever session storage held from an earlier load. */
    constructor (paging: PagingMethod, stored: string)
      ensures pagingMethod == paging && !einkMode && pageLength == 0
      ensures totalPages == 1 && currentPage == 1 && !isEndOfPage && scrollPos == 0
      ensures storedPage == stored && preventFlip == Off && !correctScroll
    {
      pagingMethod := paging;
      einkMode := false;
      pageLength := 0;
      totalPages := 1;
      currentPage := 1;
      isEndOfPage := false;
      scrollPos := 0;
      storedPage := stored;
      preventFlip := Off;
      correctScroll := false;
    }

    /** What the `currentPage` setter did between the old state and this one, with
        the container at offset `from` when it was called, asked for `request` and
        reporting `change`: nothing when the book was settled on the request;
        otherwise landed on the clamped page, scrolled to it, stored it, and reported
        the move. */
    twostate predicate PageSetFrom(from: nat, request: PageRequest, new change: Option<PageChange>)
      reads this
    {
      if Settled(request, old(currentPage), from, old(pageLength)) then
        change.None? && currentPage == old(currentPage) && isEndOfPage == old(isEndOfPage) &&
        scrollPos == from && storedPage == old(storedPage)
      else
        (currentPage, isEndOfPage) == Clamp(request, old(totalPages)) &&
        scrollPos == ScrollOffset(currentPage, old(pageLength)) &&
        storedPage == IntToString(currentPage) &&
        change == Some(PageChange(old(currentPage), currentPage, MoveDirection(request, old(currentPage))))
    }

    /** The setter called with the container where the old state left it. */
    twostate predicate PageSetAs(request: PageRequest, new change: Option<PageChange>)
      reads this
    {
      PageSetFrom(old(scrollPos), request, change)
    }

    /** The `currentPage` setter (Book.js:661-723): unless the book is already settled
        on the requested page, land on the clamped page, scroll to it, remember it in
        session storage and report a "pagechange". */
    method SetCurrentPage(request: PageRequest) returns (change: Option<PageChange>)
      modifies this`currentPage, this`isEndOfPage, this`scrollPos, this`storedPage
      ensures Settled(request, old(currentPage), old(scrollPos), pageLength) ==>
        change.None? && unchanged(this)
      ensures !Settled(request, old(currentPage), old(scrollPos), pageLength) ==>
        (currentPage, isEndOfPage) == Clamp(request, totalPages) &&
        scrollPos == ScrollOffset(currentPage, pageLength) &&
        storedPage == IntToString(currentPage) &&
        change == Some(PageChange(old(currentPage), currentPage, MoveDirection(request, old(currentPage))))
    {
      if Settled(request, currentPage, scrollPos, pageLength) {
        return None;
      }
      var previous := currentPage;
      var landing := Clamp(request, totalPages);
      currentPage, isEndOfPage := landing.0, landing.1;
      scrollPos := ScrollOffset(currentPage, pageLength);
      storedPage := IntToString(currentPage);
      change := Some(PageChange(previous, currentPage, MoveDirection(request, previous)));
    }

    /** `handleBookEnd` (Book.js:1852-1882): sets the page count for the laid-out
        content and says which ending filler the editor appends. */
    method HandleBookEnd(scrollLength: int, pageEnd: int, lowerMargin: int) returns (filler: EndFiller)
      requires pageLength > 0
      modifies this`totalPages
      ensures (totalPages, filler) == BookEnd(pagingMethod, scrollLength, pageEnd, lowerMargin, pageLength)
    {
      var r := BookEnd(pagingMethod, scrollLength, pageEnd, lowerMargin, pageLength);
      totalPages, filler := r.0, r.1;
    }

    /** `#handleScroll` (Book.js:1106-1138) for a scroll event at `timeStamp`
        milliseconds after load, the user or the browser having scrolled the
        container to `offset` along the paging direction; `leftMargin` is the
        configured left margin. `anchorPage` is the page `#jumpToAnchor`
        (Book.js:745-755) goes to: `Number` of the stored page for a `null` anchor,
        otherwise the anchor's page. The setter's settled test reads the container,
        so every page setting here starts from `offset`. */
    method HandleScroll(timeStamp: int, offset: nat, leftMargin: nat, anchorPage: PageRequest) returns (outcome: ScrollOutcome)
      requires pageLength > 0
      modifies this`currentPage, this`isEndOfPage, this`scrollPos, this`storedPage, this`correctScroll
      ensures timeStamp < 3000 ==>
        outcome.Restored? && PageSetFrom(offset, ParseInt(old(storedPage)), outcome.change) &&
        correctScroll == old(correctScroll)
      ensures timeStamp >= 3000 && old(correctScroll) ==>
        outcome.JumpedToAnchor? && PageSetFrom(offset, anchorPage, outcome.change) && !correctScroll
      ensures timeStamp >= 3000 && !old(correctScroll) && old(isEndOfPage) ==>
        outcome == EndConfirmed && !isEndOfPage && correctScroll == old(correctScroll) && scrollPos == offset &&
        unchanged(this`currentPage, this`storedPage)
      ensures timeStamp >= 3000 && !old(correctScroll) && !old(isEndOfPage) ==>
        outcome.Followed? && outcome.bookStart == (currentPage == 1) && correctScroll == old(correctScroll) &&
        PageSetFrom(offset, Some(PageNumByScrollPos(Snap(ScrollReading(pagingMethod, offset, leftMargin), pageLength), pageLength)), outcome.change)
    {
      scrollPos := offset;
      var adjusted := Snap(ScrollReading(pagingMethod, offset, leftMargin), pageLength);
      if timeStamp < 3000 {
        var change := SetCurrentPage(ParseInt(storedPage));
        outcome := Restored(change);
      } else if correctScroll {
        var change := SetCurrentPage(anchorPage);
        correctScroll := false;
        outcome := JumpedToAnchor(change);
      } else if !isEndOfPage {
        var change := SetCurrentPage(Some(PageNumByScrollPos(adjusted, pageLength)));
        outcome := Followed(change, currentPage == 1);
      } else {
        isEndOfPage := false;
        outcome := EndConfirmed;
      }
    }

    /** `#flipPage` (Book.js:2134-2152): a click turns a page unless text is selected
        or `preventFlip` swallows it. */
    method FlipPage(selection: string, clientX: int, leftBorder: int, clientWidth: int) returns (change: Option<PageChange>)
      modifies this`currentPage, this`isEndOfPage, this`scrollPos, this`storedPage, this`preventFlip
      ensures Trim(selection) != "" ==> change.None? && unchanged(this)
      ensures Trim(selection) == "" && Notify(old(preventFlip)).0 ==>
        change.None? && preventFlip == Notify(old(preventFlip)).1 &&
        unchanged(this`currentPage, this`isEndOfPage, this`scrollPos, this`storedPage)
      ensures Trim(selection) == "" && !Notify(old(preventFlip)).0 ==>
        preventFlip == old(preventFlip) &&
        PageSetAs(Some(ClickRequest(clientX, leftBorder, clientWidth, old(currentPage))), change)
    {
      if Trim(selection) != "" {
        return None;
      }
      var (swallowed, next) := Notify(preventFlip);
      if swallowed {
        preventFlip := next;
        return None;
      }
      change := SetCurrentPage(Some(ClickRequest(clientX, leftBorder, clientWidth, currentPage)));
    }

    /** `#handleKeyDown` (Book.js:2031-2057) on the focused book. */
    method HandleKey(key: string) returns (change: Option<PageChange>)
      modifies this`currentPage, this`isEndOfPage, this`scrollPos, this`storedPage
      ensures (!einkMode || KeyRequest(key, old(currentPage), totalPages).None?) ==> change.None? && unchanged(this)
      ensures einkMode && KeyRequest(key, old(currentPage), totalPages).Some? ==>
        PageSetAs(KeyRequest(key, old(currentPage), totalPages), change)
    {
      change := None;
      if einkMode {
        var request := KeyRequest(key, currentPage, totalPages);
        if request.Some? {
          change := SetCurrentPage(request);
        }
      }
    }
  }

  /** The volume-key flags, which the source keeps as static fields of `Book`. */
  class VolumeKeys {
    var flags: VolumeFlags

    constructor ()
      ensures flags == VolumeFlags(false, false)
    {
      flags := VolumeFlags(false, false);
    }

    /** A window resize arms `preventEvent` (Book.js:910-917). */
    method OnWindowResize()
      modifies this`flags
      ensures flags == VolumeFlags(old(flags).pageFlipped, true)
    {
      flags := VolumeFlags(flags.pageFlipped, true);
    }

    /** `#handleVolumeKeyPageFlip` (Book.js:2176-2199) for a scroll of the document
        with `book` focused and the document at `scrollTop`; a scroll whose target is
        the document itself is ignored. `reset` says whether the document is scrolled
        back to 1. */
    method OnDocumentScroll(book: Book, targetIsDocument: bool, scrollTop: int) returns (change: Option<PageChange>, reset: bool)
      modifies this, book`currentPage, book`isEndOfPage, book`scrollPos, book`storedPage
      ensures (targetIsDocument || !book.einkMode) ==> change.None? && !reset && unchanged(this, book)
      ensures !targetIsDocument && book.einkMode ==>
        (flags, reset) == (VolumeStep(old(flags), scrollTop).0, VolumeStep(old(flags), scrollTop).2) &&
        (VolumeStep(old(flags), scrollTop).1 == 0 ==> change.None? && unchanged(book)) &&
        (VolumeStep(old(flags), scrollTop).1 != 0 ==>
          book.PageSetAs(Some(old(book.currentPage) + VolumeStep(old(flags), scrollTop).1), change))
    {
      change, reset := None, false;
      if targetIsDocument || !book.einkMode {
        return;
      }
      var (f, step, r) := VolumeStep(flags, scrollTop);
      assert step == VolumeStep(old(flags), scrollTop).1;
      if step != 0 {
        change := book.SetCurrentPage(Some(book.currentPage + step));
      }
      flags, reset := f, r;
    }
  }
}
