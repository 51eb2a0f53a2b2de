# Eink-Module pagination core, modelled in Dafny

Eink-Module turns an HTML page into a paged book for e-ink readers. A `Book`
(Book.js) lays its contents out page by page, either in vertical pages or in CSS
columns. It keeps track of the current page. It finds the first and the last
content on a page by probing the browser. It resizes media or inserts filler
`div`s where content would cross a page edge. It logs every inline style it
changes so that the edits can be undone. It decides when a mutation, a resize
or a visibility change calls for a new layout. `Eink` (Eink.js) owns the books:
it reads their configuration from `@media eink` style rules, runs the font-size
buttons, the manual, the floating tool bar with its colour tables, and the
highlighter that splits a selection into per-text-node pieces.

This project models those parts on integers, sequences, maps and small
datatypes. The browser's hit test and its layout answers are parameters (an
oracle `locate(x, y)`, the page a node lies on, node lengths, element sizes),
and coordinates are whole pixels, as the source rounds them. Where the source
changes state in place, the model is a class whose methods are proved against a
specification function of the old state. The properties of that function are
proved as lemmas.

Modules, one per file:

- `Wrappers`: `Option` and `Result`.
- `JsStrings`: the JavaScript string built-ins the code relies on (`split`,
  `join`, `indexOf`, `lastIndexOf`, `trim`, `toUpperCase`, `parseInt`, number
  printing).
- `Suppression`: the `ignoreMutation` / `preventFlip` guard.
- `PageIndex`: the `currentPage` setter, scroll snapping, page counts, keys,
  clicks and volume keys.
- `BoundaryScan`: `getPageStarter` / `getPageEnder`.
- `StyleLog`: `BookEditor` (`toCamelCase`, `changeStyle`, `recoverAllEdits`,
  `addFiller`).
- `Overflow`: `#handleCrossPageItem`, `#handleCrossPageBookItem`, `#addFiller`.
- `Reflow`: `#checkForLayoutChanges`, `#handleResizeOrVisibility` and their
  state.
- `BookEvents`: the book-event registry.
- `ContentTree`: `isElementEmpty`, `rangeTool.createRange`.
- `Formats`: the `#fileString`, canvas id and note id formats and their parsers.
- `ContentsTable`: the table-of-contents list string.
- `FontSize`, `BookConfig`, `MediaRules`, `ManualGrid`, `Colors`,
  `HighlightRanges`, `ToolBar`: the Eink.js parts.

## Model

| member | source | states |
|---|---|---|
| Suppression.CountSwallowsExactly | Book.js:2361-2366 | a count `n` swallows exactly the first `n` of any run of notifications, lets the rest through, and is left at `n - k` or 0 |
| Suppression.OffLetsAllThrough | Book.js:2361-2366 | `false`/0 lets every notification through and stays 0 |
| Suppression.ForeverSwallowsAll | Book.js:2361-2366 | `true` swallows every notification and is never cleared by them |
| Suppression.NegativeCountSwallowsAll | Book.js:2361-2366 | a negative count is truthy and never reaches 0, so it swallows every notification |
| PageIndex.Clamp | Book.js:665-683 | with at least one page the landed page is in `[1, totalPages]`; the end flag is set exactly for a request at or past the last page, which lands on the last page; a request in range lands on itself; below 1 or `NaN` lands on 1 |
| PageIndex.PageNumByScrollPos | Book.js:2279-2281 | the page returned is the one whose span `[(p-1)L, pL)` holds the offset |
| PageIndex.Snap | Book.js:1110-1118 | an offset less than 3 past a page boundary snaps down to that boundary; one more than `L - 3` past it snaps up to the next boundary; any other offset is kept; the result is within 3 of the offset |
| PageIndex.ScrollRoundTrip | Book.js:1108-1131 | the offset the setter writes for page `p`, read back with any shift of at most `L - 3`, gives page `p`, and the setter then finds the book settled on `p` |
| PageIndex.ColumnScrollRoundTrip | Book.js:656 | in column mode, with a gap of twice the left margin, the reading `scrollLeft + leftMargin` names the page the setter scrolled to |
| PageIndex.BookEnd | Book.js:1852-1882 | vertical mode counts pages up to the last laid-out page plus the lower margin, adding a spacer of exactly the missing height when the content is shorter; column mode counts all columns but the blank one it adds |
| PageIndex.KeyLanding | Book.js:2031-2057 | forward keys stop at the last page and raise the end flag there, backward keys stop at page 1, ArrowUp lands on 1 and ArrowDown on the last page |
| PageIndex.VolumeKeyTurnsOncePerPress | Book.js:2176-2199 | the scroll caused by resetting the scroll buffer after a turn is swallowed, so one volume-key press turns one page, and the next press is served again |
| PageIndex.Book.constructor | Book.js:30-84 | a new book is on page 1 of 1 with nothing laid out and no guard set |
| PageIndex.Book.SetCurrentPage | Book.js:661-723 | a request for the current page on a page boundary changes nothing; any other lands on the clamped page, scrolls to `L(p-1)`, stores the page and reports previous page, new page and `next`/`prev`/`jump` |
| PageIndex.Book.HandleBookEnd | Book.js:1852-1882 | sets the page count and the ending filler to what `BookEnd` gives |
| PageIndex.Book.HandleScroll | Book.js:1106-1138 | the container is first where it was scrolled to; a scroll in the first 3 s sets the page to the parsed stored page; a pending anchor correction sets the page to the anchor's and is cleared; at the end of the book only the end flag is cleared and the container stays put; otherwise the page is set to the one of the snapped reading (`scrollLeft + leftMargin` in column mode), and the book-start flag says whether that is page 1; each page setting lands, scrolls, stores and reports exactly as the setter does when it finds the container at the scrolled-to offset (`PageSetFrom`), so an off-boundary offset is put back on the page boundary |
| PageIndex.ScrollWithinPageSnapsBack | Book.js:1110-1131 | a scroll that stops inside the current page, more than 3 px from both ends, names the current page and is not settled, so the setter puts the container back on the page boundary |
| PageIndex.ScrollReading | Book.js:654-658 | the handler reads the offset in vertical mode and the offset plus the left margin in column mode |
| PageIndex.Book.FlipPage | Book.js:2134-2152 | a click with text selected does nothing; a click swallowed by `preventFlip` only counts the guard down; any other sets the page one back on the left half and one forward on the right half, with the setter's landing, scroll offset, stored page and report |
| PageIndex.Book.HandleKey | Book.js:2031-2057 | outside eink mode or for other keys nothing changes; otherwise the page is set to the one the key asks for, with the setter's landing, scroll offset, stored page and report |
| PageIndex.VolumeKeys.OnWindowResize | Book.js:910-917 | a window resize arms the flag that swallows the next document scroll |
| PageIndex.VolumeKeys.OnDocumentScroll | Book.js:2176-2199 | scrolls of the document itself or outside eink mode do nothing; otherwise the flags step as `VolumeStep` says; a zero step leaves the book alone, and a non-zero one sets the focused book's page one up or down with the setter's landing, scroll offset, stored page and report |
| BoundaryScan.NeedsRescanAsWritten | Book.js:272 | the rescan test as written throws exactly on a miss, and otherwise asks for a rescan exactly on a non-text hit more than one page away |
| BoundaryScan.NeedsRescan | Book.js:272 | the corrected test also rescans after a miss, and agrees with the written test on every hit |
| BoundaryScan.MissAtCatchPoint | Book.js:270-272 | a miss at the first probe throws as written but rescans once corrected |
| BoundaryScan.ForwardBoundDecreases | Book.js:281-285 | each step of the starter's raster (30 px right, wrapping to the next row) lowers a bound on the points left to visit |
| BoundaryScan.BackwardBoundDecreases | Book.js:334-342 | each step of the ender's raster (30 px left, wrapping to the row above) lowers a bound on the points left to visit |
| BoundaryScan.RescanForward | Book.js:278-297 | the starter's rescan takes at most the raster's bound of steps, returns the located point of its last step, every earlier hit was rejected, and it stops only at a new node, a node within a page, a miss or the page's end |
| BoundaryScan.RescanBackward | Book.js:331-345 | the same for the ender's rescan, right to left and bottom to top |
| BoundaryScan.SkipFillers | Book.js:307-313 | the first sibling in the chain that is not a filler, or a `TypeError` exactly when every one is a filler |
| BoundaryScan.GetPageStarter | Book.js:268-320 | with the corrected rescan test of the Findings row Book.js:272 (a first-probe miss is rescanned instead of throwing): an accepted first probe is the hit, and a rejected one is rescanned to the point `RescanForward` settles on, with the number of steps it took; a miss gives the start of the contents; column mode gives the hit; in vertical mode an invalid node gives the start of the contents and a valid one the first non-filler at or after it, at offset 0 |
| BoundaryScan.GetPageEnder | Book.js:322-368 | with the corrected rescan test of the Findings row Book.js:272: an accepted first probe is the hit, and a rejected one is rescanned to the point `RescanBackward` settles on; a miss gives the end of the contents; column mode gives the hit; in vertical mode an invalid node gives the end of the contents and a valid one the last non-filler at or before it, at its text length |
| Overflow.CrossPageItemAction | Book.js:1783-1812 | an item without media is a `TypeError`; otherwise media is resized exactly when the space left holds the minimum image height plus the rest of the item, or the item fills a blank page; a resized item ends 3 px above the lower margin; a shifted item's filler puts it at the next page's upper margin |
| Overflow.ShiftedItemIsResizedNext | Book.js:1783-1812 | an item pushed to the next page is resized there, never pushed again |
| Overflow.CrossPageBookItemAction | Book.js:1464-1528 | an item without media throws; otherwise it is fitted into the rest of the column under the same test, or moved to the next column shrunk to a column's height when taller than one, or at its original height |
| Overflow.MovedBookItemFitsAColumn | Book.js:1464-1528 | a book item moved to the next column fits in it |
| Overflow.BookItemEditsSkipNonCrossing | Book.js:1468-1469 | book items that cross no column edge are left alone |
| Overflow.BookItemEditsThrow | Book.js:1464-1528 | processing throws exactly when a crossing item without media is reached |
| Overflow.BookItemEditsAfterThrow | Book.js:1464-1528 | once processing has thrown, later items change nothing |
| Overflow.FillerNamesDistinct | Book.js:1821-1850 | distinct filler numbers give distinct ids |
| Overflow.VerticalPager.constructor | Book.js:1821-1850 | a new pager has no fillers and has not reached the page end |
| Overflow.DetachAdjacent | Book.js:1844-1848 | removing the adjacent sibling takes exactly that filler of the pager out of the document, keeping every filler's id and class and leaving every other filler as it was; when the sibling is not adjacent, or not one of the pager's fillers, nothing changes |
| Overflow.VerticalPager.AddFiller | Book.js:1821-1850 | a height of 0 or less adds nothing; otherwise the n-th filler gets id `filler_n`, the detect point's class and the height, and the top margins of its target chain are zeroed; a previous sibling with the same class marks the page end, and the new filler and, when it is one of the pager's, that earlier filler both leave the document |
| Overflow.VerticalPager.HandleCrossPageItem | Book.js:1783-1812 | an item without media throws and changes nothing; otherwise applies `CrossPageItemAction` through the style log (media height and width, item bottom margin) or by a filler in front of the item, zeroing the top margins of the item and its first-child chain |
| Overflow.ZeroParents | Book.js:1513-1525 | the top margin and padding of every parent is zeroed through the style log |
| Overflow.HandleCrossPageBookItems | Book.js:1464-1528 | the editor ends in the state `BookItemEdits` gives, and reports whether an item threw |
| StyleLog.Capitalize | Book.js:3128-3130 | capitalising keeps the length and adds no hyphen |
| StyleLog.CamelJoin | Book.js:3128-3130 | joining hyphen-free pieces gives a hyphen-free property name |
| StyleLog.CamelCase | Book.js:3128-3130 | the property a rule key writes holds no hyphen, and a key without one is written as it is |
| StyleLog.CamelCaseIdempotent | Book.js:3128-3130 | converting twice is converting once |
| StyleLog.CamelCaseOfMarginTop | Book.js:3128-3130 | "margin-top" writes the property "marginTop" |
| StyleLog.WithStyle | Book.js:3190-3198 | writing one property of one element changes that property only |
| StyleLog.ChangeRule | Book.js:3181-3201 | one rule changes nothing outside its element, and leaves other elements' records alone |
| StyleLog.ChangeRules | Book.js:3181-3201 | the same for all the rules of one call |
| StyleLog.Restore | Book.js:3328-3330 | writing a record back changes nothing outside its element |
| StyleLog.RecoverOne | Book.js:3309-3335 | undoing one logged element touches no other element |
| StyleLog.RecoverSeq | Book.js:3306-3342 | processing log entries leaves the log list itself alone |
| StyleLog.AfterRecovery | Book.js:3306-3342 | recovery empties the change log |
| StyleLog.ChangeRuleFaithful | Book.js:3181-3201 | after one rule the element's record still holds the value each recorded property had before the first change |
| StyleLog.ChangeRulesFaithful | Book.js:3181-3201 | the same after all the rules of one call |
| StyleLog.ChangeKeepsTouchedFaithful | Book.js:3171-3207 | the element a `changeStyle` call touches keeps a faithful record |
| StyleLog.ChangeLeavesOthers | Book.js:3171-3207 | elements a call does not touch keep their styles, record and flag |
| StyleLog.ChangePreservesLogInv | Book.js:3171-3207 | each call keeps the log invariant: every logged element is logged once, with the flag of its first call and a faithful record |
| StyleLog.ApplyAllLogInv | Book.js:3171-3207 | any sequence of calls from a clean log satisfies the log invariant |
| StyleLog.RestoreFaithful | Book.js:3326-3333 | writing back a faithful record restores every recorded property and leaves the others as they are |
| StyleLog.RecoverSeqEffect | Book.js:3306-3342 | processing entries that include an element undoes it, and elements not among them are untouched |
| StyleLog.UndoRoundTrip | Book.js:3306-3342 | from a clean log, any sequence of `changeStyle` calls and then `recoverAllEdits` empties the log, removes every element first changed as new, and restores every other element's every property |
| StyleLog.ChangeRulesExtendRecord | Book.js:3183-3199 | later rules only append to an element's record |
| StyleLog.RecordsOnlyGrow | Book.js:3171-3207 | a recorded original is never overwritten by a later call |
| StyleLog.AfterChangeStyleAsWritten | Book.js:3183-3199 | the undo record keyed by the rule key, as written (used by the finding below) |
| StyleLog.MixedSpellingsAsWritten | Book.js:3183-3199 | as written, "margin-top" and then "marginTop" on one element leave the intermediate value after recovery |
| StyleLog.RecoverSeqRemovesCreated | Book.js:3318-3324 | an element marked as created is out of the document after recovery |
| StyleLog.RecoverSeqKeepsOther | Book.js:3306-3342 | log entries other than an element leave its presence, flag and record alone |
| StyleLog.GrownHeightOfPixels | Book.js:3380-3381 | a filler `h` px tall grows to `h + 5` px |
| StyleLog.RetryStep | Book.js:3376-3392 | each retry counts the failure, and returns the filler exactly while fewer than five failures came before |
| StyleLog.RetriesGrowByFive | Book.js:3376-3392 | successive retries return the filler 5 px taller each time while fewer than five failures came before, and nothing after |
| StyleLog.RetriesGiveUp | Book.js:3376-3392 | past five failures every retry gives up |
| StyleLog.Retries | Book.js:3376-3392 | the first of successive retries is the single retry `RetryStep` describes |
| StyleLog.FreshFillerRetries | Book.js:3376-3392 | a fresh filler is returned by the first five retries at 5, 10, ... 25 px taller, and by none after |
| StyleLog.BookEditor.constructor | Book.js:3120-3127 | a new editor has an empty log |
| StyleLog.BookEditor.ChangeStyle | Book.js:3171-3207 | the document and log end as `AfterChangeStyle` says, with the record keyed by the property written (corrected, Findings row Book.js:3183-3199) |
| StyleLog.BookEditor.RestoreRecord | Book.js:3328-3330 | the loop over a record writes it back as `Restore` says |
| StyleLog.BookEditor.RecoverElement | Book.js:3309-3335 | one log entry is undone as `RecoverOne` says |
| StyleLog.BookEditor.RecoverAllEdits | Book.js:3306-3342 | the document and log end as `AfterRecovery` says |
| StyleLog.BookEditor.RetryFiller | Book.js:3376-3392 | the failure count and the filler's height change as `RetryStep` says, and the filler is returned exactly while it has failed fewer than five times |
| StyleLog.BookEditor.InsertFiller | Book.js:3396-3431 | a new filler gets the filler rules, its top margin and the given class, is logged as new, is in the document, and the chain's margins are zeroed |
| StyleLog.BookEditor.ZeroMargins | Book.js:3425-3431 | the top margins of the chain are zeroed one after the other |
| StyleLog.BookEditor.AddFiller | Book.js:3373-3434 | with a filler of the class already in front, the call is a retry; otherwise a new filler with the given class and height is created and logged as new |
| Reflow.ScrollLengthChanged | Book.js:228-235 | true exactly for a visible book whose scroll length moved by more than 2 px |
| Reflow.UpdateDimension | Book.js:178-190 | a hidden book records size 0; a visible one not in full screen its client size; nothing else changes |
| Reflow.ResetPages | Book.js:1884-1917 | a visible book resets now and drops any postponed reset; a hidden one postpones the reset until it is visible |
| Reflow.ResizeOrVisibility | Book.js:2059-2115 | scroll mode skips; a book just hidden records size 0; a book just shown does a postponed reset once; an orientation change with fewer than five resizes resets at once and clears the guard; any other resize is debounced |
| Reflow.OnResizeTimer | Book.js:2110-2113 | the debounce timer, if pending, resets the pages, the resize count and the guard |
| Reflow.WindowResizeImmediateIffOrientation | Book.js:2097-2114 | a window resize resets at once exactly for an orientation change with fewer than five resizes so far, and is debounced otherwise |
| Reflow.WindowResizeSuppressesUntilLayout | Book.js:905-918 | a window resize of a visible book ignores mutations until the pages are laid out again, at once or when the timer fires |
| Reflow.VisibleResetSettlesPending | Book.js:1884-1917 | after a reset of the visible book, hiding and showing it again does not reset a second time |
| Reflow.HiddenResetHappensWhenVisible | Book.js:2064-2083 | a reset asked for while hidden happens exactly once when the book is shown again |
| Reflow.ClassifyAsWritten | Book.js:2369-2401 | the mutation classification as written, which also reacts to nested books' targets (used by the finding below) |
| Reflow.Classify | Book.js:2369-2401 | a tree change of this book with a valid node resets the pages; with no tree change at all a scroll-length change resets them; only other books' mutations are ignored |
| Reflow.ClassifyAgreesWithoutNestedValidNodes | Book.js:2369-2401 | the corrected and written classifications agree unless a nested book's mutation has a valid node |
| Reflow.NestedValidNodeResetsAsWritten | Book.js:2375-2401 | as written, a valid node in a nested book's mutation resets this book |
| Reflow.CheckForLayoutChanges | Book.js:2358-2403 | scroll mode ignores everything; a swallowed notification only counts the guard down; otherwise the batch is classified by the corrected `Classify` (Findings row Book.js:2375-2401) and a reset verdict resets the pages |
| Reflow.CheckRun | Book.js:2358-2403 | a run of batches gives one verdict per batch |
| Reflow.CountSuppressesNextBatches | Book.js:2361-2366 | with the guard at `n`, the next `n` batches are suppressed whatever they hold and the later ones classified |
| Reflow.ReflowGate.constructor | Book.js:165-166 | a new book records its size and orientation |
| Reflow.ReflowGate.ResetPagesNow | Book.js:1884-1917 | the state changes as `ResetPages` says |
| Reflow.ReflowGate.CheckLayout | Book.js:2358-2403 | verdict and state as `CheckForLayoutChanges` says, with the corrected classification |
| Reflow.ReflowGate.HandleResizeOrVisibility | Book.js:2059-2115 | decision and state as `ResizeOrVisibility` says |
| Reflow.ReflowGate.WindowResized | Book.js:905-918 | decision and state as `OnWindowResize` says |
| Reflow.ReflowGate.ResizeTimerFired | Book.js:2110-2113 | state as `OnResizeTimer` says |
| BookEvents.Registered | Book.js:2153-2174 | `addEventListener` registers its handler only under book-event names from the list |
| BookEvents.Without | Book.js:2242-2254 | removal keeps every registration it does not drop, and drops only registrations of a book event with a matching handler |
| BookEvents.HandlersFor | Book.js:2201-2208 | the handlers run for an event are registrations of that event |
| BookEvents.HandlersForAppend | Book.js:2201-2208 | handlers registered later run after the earlier ones |
| BookEvents.HandlersAfterRemoveOther | Book.js:2242-2254 | removing one book event leaves every other event's handlers as they were |
| BookEvents.HandlersAfterRemoveAll | Book.js:2242-2254 | removing a book event without a handler leaves it no handler |
| BookEvents.HandlersAfterRemoveOne | Book.js:2242-2254 | removing one handler takes exactly that handler out of the event's handlers |
| BookEvents.AddThenRemove | Book.js:2242-2254 | registering a handler and removing it again gives the registry without it, and the original registry when it was not registered before |
| BookEvents.WithoutNothing | Book.js:2242-2254 | removing a handler that is not registered changes nothing |
| BookEvents.RegisterOne | Book.js:2153-2174 | a single book-event name registers exactly once |
| BookEvents.EventRegistry.constructor | Book.js:74 | a new book has no event handlers |
| BookEvents.EventRegistry.AddEventListener | Book.js:2153-2174 | appends the registrations for the space-separated names |
| BookEvents.EventRegistry.RemoveEventListener | Book.js:2216-2273 | an empty name changes nothing; otherwise every named event is removed in turn |
| BookEvents.EventRegistry.ExecuteBookEvent | Book.js:2201-2208 | calls the `on<event>` property first, then the registered handlers in order |
| ContentTree.BlankConcat | Book.js:500-519 | text is blank exactly when both its parts are |
| ContentTree.IsElementEmptyMeaning | Book.js:500-519 | an element is empty exactly when its subtree holds no `img`, `canvas`, `svg`, `input` or other element of that list, and its text is blank |
| ContentTree.ChildrenEmptyMeaning | Book.js:512-516 | the children loop says empty exactly when no child's subtree holds such an element |
| ContentTree.ToUint32 | Book.js:3089-3098 | offsets are taken modulo 2^32, and ones in range are kept |
| ContentTree.CreateRange | Book.js:3089-3098 | negative offsets count as 0; a start past its node throws `IndexSizeError`; an end past its node is clamped to the node's end; an end before the start collapses the range |
| ContentTree.CreateRangeWithinNode | Book.js:3089-3098 | offsets `0 <= a <= b <= length` inside one node give exactly the range from `a` to `b` |
| Formats.JsSlice | Book.js:2961-2963 | `slice` with indices in range is the subsequence |
| Formats.NumberOf | Book.js:3014 | `Number` of the parsed strings is never negative |
| Formats.NumberOfNatToString | Book.js:3014 | `Number` reads a printed number back |
| Formats.ParseIntOfPrinted | Book.js:1639 | `parseInt` reads a printed integer back |
| Formats.FileStringFields | Book.js:390 | splitting the file string at "_" gives exactly its five printed numbers |
| Formats.ParseFileStringOfFileString | Book.js:390 | the file string determines its layout: it reads back, field by field, to the instance id, sizes, font size and scroll length it was made from |
| Formats.ContainerHeightRestored | Book.js:1655-1659 | leaving print mode gives the container back the height recorded in the file string |
| Formats.CanvasIdSeparators | Book.js:459 | a canvas id has its "w" at 3 and its first "_" right after the page number |
| Formats.CanvasPageIndexOfCanvasId | Book.js:1639 | the canvas for page `p` is placed at page index `p - 1`, at `left = (p - 1) L` |
| Formats.CanvasBelongsAsWrittenKeepsOwn | Book.js:1632-1642 | the filter as written keeps every canvas of the book |
| Formats.CanvasFilterTakesOtherBookAsWritten | Book.js:1632-1642 | as written, book 1 also takes the canvases of book 11 with the same layout numbers |
| Formats.CanvasBelongsIff | Book.js:1632-1642 | the corrected filter keeps a canvas exactly when it was made with this file string |
| Formats.NoteIdSeparators | Book.js:2802 | a note id's first "_" ends the prefix and its last "_" ends the note number |
| Formats.NoteNumberOfNoteId | Book.js:3014 | the note number a note id was made with is read back from it, as text and as a number |
| Formats.CheckNotedTextFindsItsNote | Book.js:2961-2963 | the check button of note `n` finds the button and the text of note `n` of the same book |
| Formats.NoteIdsDistinct | Book.js:2942 | distinct notes of a book get distinct ids |
| ContentsTable.SelectHeaders | Book.js:2418-2423 | the headers entered are exactly those other than the book's title, within the level range, valid and not marked to be left out |
| ContentsTable.SelectedIndices | Book.js:2418-2423 | the selected positions, increasing, each selected, and every selected position among them |
| ContentsTable.SelectHeadersInOrder | Book.js:2418-2423 | the filter keeps document order and multiplicity: the `j`-th header entered is the one at the `j`-th selected position |
| ContentsTable.TopicIds | Book.js:2484-2485 | header `i` gets the id `book<instance>_topic<i>`, which its entry links to |
| ContentsTable.DepthAppend | Book.js:2478-2516 | the list depth of a concatenation is the sum of the depths |
| ContentsTable.HeaderPiecesDepth | Book.js:2478-2516 | each header's pieces move the list depth by the level step to the next header |
| ContentsTable.DepthBeforeHeader | Book.js:2478-2516 | before header `n`, `1 + level(n) - level(0)` lists are open |
| ContentsTable.ListDepth | Book.js:2478-2516 | the finished list string closes `level(0) - 1` more lists than it opens, so it is balanced exactly when the first header is `h1` |
| ContentsTable.TopicIdsDistinct | Book.js:2478-2516 | every header gets a distinct id |
| ContentsTable.Append | Book.js:2478-2516 | each write to the list string appends that piece's text |
| ContentsTable.AppendRepeat | Book.js:2493-2519 | the inner loops append `k` copies of one piece |
| ContentsTable.AppendSublists | Book.js:2492-2504 | after an entry whose next header is `k` levels deeper, the fold icon and `k` new lists are appended |
| ContentsTable.AppendHeader | Book.js:2478-2516 | one turn of the outer loop appends header `i`'s entry and the lists it opens or closes |
| ContentsTable.BuildList | Book.js:2425-2521 | with at most three headers there is no table; otherwise the list string is the rendering of every header's pieces and header `i` gets id `i` |
| FontSize.IconsShowLimits | Eink.js:1772-1785 | the increase button is disabled exactly at 10, the decrease button exactly at 0, and `disable` disables both |
| FontSize.HandlersKeepValid | Eink.js:1735-1770 | the total stays even and in `[0, 10]` under every handler |
| FontSize.StepsMoveByTwo | Eink.js:1735-1770 | increase acts only below 10 and decrease only above 0, by 2, and the pending adjustment moves by the same amount |
| FontSize.BusyIgnoresButtons | Eink.js:1735-1770 | while a change is applied the buttons do nothing |
| FontSize.PressesSaturate | Eink.js:1735-1752 | `k` presses of increase reach `min(total + 2k, 10)` |
| FontSize.ApplyCarriesTotal | Eink.js:1576-1644 | applying a change leaves the books changed by the whole total and no adjustment pending |
| FontSize.FontSizeControl.constructor | Eink.js:23-33 | the counter starts at 0, valid |
| FontSize.FontSizeControl.UpdateFontSizeButtons | Eink.js:1772-1785 | the icons become the ones `IncreaseIcon`/`DecreaseIcon` name |
| FontSize.FontSizeControl.IncreaseText | Eink.js:1735-1752 | state as `Increase` says |
| FontSize.FontSizeControl.DecreaseText | Eink.js:1754-1770 | state as `Decrease` says |
| FontSize.FontSizeControl.ChangeBookFontSize | Eink.js:1576-1644 | state as `ApplyAdjustment` says |
| BookConfig.UseContentTableFalseAsWritten | Eink.js:453-460 | as written, `--useContentTable: false` is kept as the truthy string "false" |
| BookConfig.FlagKeysDecodeToTheirText | Eink.js:453 | once corrected, every flag key is on exactly when its trimmed value is "true" |
| BookConfig.DecodeValueChangesOnlyUseContentTable | Eink.js:453-460 | the correction changes no key but `useContentTable` |
| BookConfig.DecodedMeaning | Eink.js:449-461 | a key is in the config exactly when it is one of the keys read with a non-empty CSS value, and then holds its decoded value |
| BookConfig.BookConfigMeaning | Eink.js:446-462 | every key of the prototype's configuration, `allowDraw` and `allowHighlight` (added by the `Eink` constructor, Eink.js:381-382) included, holds its CSS value decoded with the corrected `DecodeValue` (Findings row Eink.js:453-460), and a missing `lang` takes the Eink instance's |
| BookConfig.OnlyBookConfigKeysAreRead | Eink.js:446-462 | keys outside the prototype's configuration, with the two `Eink` keys, never enter the config |
| BookConfig.EinkKeysTurnOff | Eink.js:381-382 | `--allowDraw: false` or `--allowHighlight: false` gives the boolean `false`, which turns drawing or highlighting off |
| BookConfig.CreateBookConfig | Eink.js:442-465 | the loop over the prototype's keys, `allowDraw` and `allowHighlight` included, builds exactly `BookConfigOf`, with the corrected flag decoding |
| MediaRules.WithRole | Eink.js:663-680 | the rules filtered for a role are rules of the list with that role |
| MediaRules.Selectors | Eink.js:663-680 | the selector of every rule, in order |
| MediaRules.LastMain | Eink.js:668-670 | the main-book rule kept is the last `mainBook` rule seen |
| MediaRules.RoleListMeaning | Eink.js:655-683 | each selector list grows by the selectors of exactly the rules with its role, in order |
| MediaRules.BookListMeaning | Eink.js:664-667 | the book list grows by exactly the `book` rules |
| MediaRules.MainMeaning | Eink.js:668-670 | the main book selector is the last `mainBook` rule, or the earlier one if none |
| MediaRules.StyleMeaning | Eink.js:655-657 | every rule's text is added to the eink style, and the rules list is left alone |
| MediaRules.AddInnersMeaning | Eink.js:655-683 | the pass over inner rules means every field as the lemmas above state |
| MediaRules.IgnoredRules | Eink.js:646-689 | other rules and unreadable sheets contribute nothing |
| MediaRules.AddSheetsIsAddInners | Eink.js:642-691 | the whole pass is the pass over every rule inside `@media eink`, in document order |
| MediaRules.ProcessMeaning | Eink.js:642-691 | only rules inside `@media eink` count; `book`, `book-content`, `book-item` and `book-UI` append their selectors in order, `mainBook` keeps the last, any other value only adds style text |
| MediaRules.EinkRules.constructor | Eink.js:25-30 | the lists start empty |
| MediaRules.EinkRules.VisitInner | Eink.js:656-682 | state as `AddInner` says |
| MediaRules.EinkRules.VisitSheet | Eink.js:648-685 | state as `AddRules` says |
| MediaRules.EinkRules.ProcessEinkMediaQueries | Eink.js:642-691 | state as `AddSheets` says |
| ManualGrid.LangSetting | Eink.js:1194 | the Chinese text is chosen exactly when the language is `zh-TW`, the English text otherwise |
| ManualGrid.Texts | Eink.js:1202-1211 | one instruction per item, in item order, each in the chosen language |
| ManualGrid.ItemNumberOfColumns | Eink.js:1200 | columns 1 and 2 of row `i` show item `2i`, columns 3 and 4 item `2i + 1` |
| ManualGrid.PairsPositions | Eink.js:1196-1216 | in the reference layout item `t` is at `2t` as icon and `2t + 1` as text |
| ManualGrid.RowPrefixIsRow | Eink.js:1199-1217 | the four columns of row `i` hold item `2i` and then item `2i + 1`, icon before text, skipping items past the end |
| ManualGrid.FullRow | Eink.js:1199-1217 | a row whose two items both exist adds exactly those two items to the reference layout |
| ManualGrid.HalfRow | Eink.js:1199-1217 | a row with only its first item present adds only that item |
| ManualGrid.RowsHoldPairs | Eink.js:1196-1216 | `k` full rows hold the first `2k` items, in order |
| ManualGrid.OddCells | Eink.js:1196-1216 | with an odd number of items the last row holds only the last item |
| ManualGrid.FlattenRowsNext | Eink.js:1196-1219 | the table's cells are its rows' cells, row after row: one more row appends exactly that row's cells |
| ManualGrid.CellsHoldPairs | Eink.js:1196-1216 | the rows hold every item exactly once as icon and once as text, in order, for even and odd counts |
| ManualGrid.LandscapeLayout | Eink.js:1196-1216 | `ceil(n/2)` rows in which every item appears once as icon and once as text, in order |
| ManualGrid.RenderRow | Eink.js:1199-1217 | the inner loop builds row `i` of the reference layout |
| ManualGrid.RenderLandscapeView | Eink.js:1193-1221 | the nested loops build those rows |
| Colors.GetColorName | Eink.js:2904-2912 | a code has a name exactly when it is one of the four table codes |
| Colors.GetColorCode | Eink.js:2914-2922 | a name has a code exactly when it is one of the four table names |
| Colors.CodesDistinct | Eink.js:2904-2922 | the four codes are distinct, and black is not among them |
| Colors.NameCodeInverse | Eink.js:2904-2922 | a code has a name exactly when that name has the code |
| Colors.CodeOfNameOfCode | Eink.js:2904-2922 | `getColorCode(getColorName(c)) = c` for the four codes |
| Colors.NameOfCodeOfName | Eink.js:2904-2922 | `getColorName(getColorCode(n)) = n` for red, blue, green and gray |
| Colors.HighlightColorsAreNamed | Eink.js:2556-2564 | two to five fingers pick green, red, blue and gray, each a named colour; other counts keep the colour |
| Colors.HighlightCountsDistinct | Eink.js:2556-2564 | different finger counts pick different highlight colours |
| Colors.PenColorNames | Eink.js:2028-2036 | two to four fingers give named pen colours; five give black, which has no name |
| HighlightRanges.NextNode | Eink.js:2620-2633 | the walker's next node is the first accepted one from `k` on |
| HighlightRanges.Between | Eink.js:2618-2633 | the nodes strictly between two nodes, in order |
| HighlightRanges.AcceptedNodes | Eink.js:2620-2626 | the walker accepts no node outside the range's nodes, every node after the start node up to the end node, and the start node exactly when the range starts at its offset 0 |
| HighlightRanges.NothingBefore | Eink.js:2620-2628 | no node before the start node is accepted |
| HighlightRanges.FindCompleteTextNodesInTheRange | Eink.js:2618-2633 | exactly the text nodes strictly between the start and the end node, in order |
| HighlightRanges.NodePiece | Eink.js:2611-2615 | a range within one node from `a` to `b` |
| HighlightRanges.NothingSelectedOutside | Eink.js:2605-2637 | the range selects nothing outside its start and end node |
| HighlightRanges.PiecesCover | Eink.js:2605-2637 | the start piece, the whole pieces of the nodes between and the end piece cover the range exactly |
| HighlightRanges.ModifyTextNodeRanges | Eink.js:2605-2637 | one piece per text node from the start node to the end node, in order: `[startOffset, length]` of the start node, `[0, length]` of each node between, `[0, endOffset]` of the end node (the range itself within one node), together selecting exactly the characters the range selects |
| HighlightRanges.WithinThePageIsInsideContainer | Eink.js:2530-2535 | an accepted point lies inside the container, and points within the margin or the 10 px tolerance of the right or bottom edge are refused |
| ToolBar.MoveKeepsInside | Eink.js:3115-3144 | a bar inside the window stays inside through a grab, a move and a release |
| ToolBar.MoveChangesOnlyToFittingPositions | Eink.js:3135-3142 | a move changes `top` only to the pointer less the grab offset and only when that fits, and likewise `left` |
| ToolBar.TouchDragFollowsPointer | Eink.js:3105-3144 | a touch drag moves the bar by the pointer's displacement on each axis where it still fits |
| ToolBar.ReleasedBarStays | Eink.js:3146-3150 | after the release moves do nothing |
| ToolBar.GrabAtEdgeIgnoredAsWritten | Eink.js:3117 | as written, a bar grabbed at offset 0 ignores the drag |
| ToolBar.GrabTestsAgreeOffZero | Eink.js:3117 | the corrected grab test differs from the written one only for a zero offset |
| ToolBar.ZeroStartGrabbedOnceCorrected | Eink.js:2900-2901 | the source's 0/0 start counts as no grab only under the written test; under the corrected test a move from it carries the bar, and from a `null` start it does nothing |
| ToolBar.FloatToolBar.constructor | Eink.js:2900-2901 | the bar starts where it is placed, not grabbed, with `null` offsets (corrected start, Findings row Eink.js:3117; the source starts at 0/0) |
| ToolBar.FloatToolBar.HandleToolBarMoveStart | Eink.js:3105-3113 | state as `MoveStart` says |
| ToolBar.FloatToolBar.HandleToolBarMove | Eink.js:3115-3144 | state as `Move` says, with the corrected grab test of the Findings row Eink.js:3117 |
| ToolBar.FloatToolBar.HandleToolBarMoveEnd | Eink.js:3146-3150 | state as `MoveEnd` says |

## Left out

- Browser hit testing and layout (`caretPositionFromPoint`, `elementFromPoint`, `getBoundingClientRect`, `getComputedStyle`, element sizes): these are parameters of the model (the `Layout` oracle, node lengths, sizes), not modelled code.
- Print sectioning's DOM surgery (cloning, `replaceWith`, `extractContents`, unwrapping, moving the container): it is tree editing with no arithmetic. Only its id formats are modelled.
- `MutationObserver`, `ResizeObserver`, `setTimeout`/`setInterval` and `Promise` flows: the model keeps the decisions only. A timer firing is a method call (`ResizeTimerFired`), and `ChangeBookFontSize` is the state once its promise has settled.
- `sessionStorage`: the stored page is the string field `storedPage` of the book, which the page setter writes and `HandleScroll` reads back.
- `#jumpToAnchor`'s target page (`getPageNumByItem(anchor)`, or `Number` of the stored page for a `null` anchor) is a parameter of `HandleScroll`. `#correctScroll` is set only in commented-out code (Book.js:2124), so in the source as it stands that branch never runs; it is modelled all the same.
- The vertical paging loop of `#setupPages` (Book.js:1175-1180) and `#repositionBookContents`: only the `#pageEndReached` flag that stops the loop is modelled, as `VerticalPager.AddFiller` sets it.
- AddFiller: a filler wrapped around a text range (`surroundContents`, Book.js:1834) takes the range's content with it when it is removed as adjacent; the model has no text nodes, so only the filler's own `attached` flag records the removal. A previous sibling that carries the detect point's class but is not one of the pager's fillers (a `BookEditor` filler, say) is removed by the source as well (Book.js:1844-1848); the model records that it marks the page end but not its removal.
- PageIndex.Book.SetCurrentPage: in column mode the setter also moves the container's other children to the new page through `BookEditor.changeStyle` (Book.js:687-707), which enters those writes in the edit log, and puts `scrollTop` back to 0 (Book.js:709); in every mode it refreshes `pageStarter` (Book.js:712). The model keeps none of these: it has no layout children, tracks only the offset along the paging direction and has no page starter, so the edit log after a column-mode page turn and the page `resetPages` returns to through the page starter (Book.js:1902-1910) are not captured; `Reflow.ResetPages` counts the reset but does not move the reader.
- jQuery CSS writes other than those through `BookEditor`, and `BookEditor`'s `cssSelector` branch of `changeStyle`: stylesheet access is not modelled.
- `removeSupport`/`insertSupport`, focus and blur handling, and the events that only fire other events: they hold no logic beyond calling the browser.
- UI builders (manual, control panel, popups, hint box, note window, loading window) and the `painter` canvas drawing: they only build DOM. Of the manual only the landscape grid is modelled; cloning the icon images is left out.
- Floating-point maths (font and line-height rescaling, `#getDistance`, `adjustRowHeights`, vh/vw conversions): not integer code. All positions are whole pixels.
- The preview book's font-size change in `#changeBookFontSize`: only the counter and the button state are modelled.
- Formats.NumberOf: models `Number()` only for blank strings and decimal digits, the only forms these ids contain. Other forms such as hex, exponents and `Infinity` are left out.
- Note extraction by tree walking, `getAllSelectors`/`getStylesheetPropertyValue` and user-agent sniffing.
- `isElementEmpty` and `textContent` see elements and text nodes only. Comments and other node kinds are left out.
- HighlightRanges.ValidRange: assumes node lengths below 2^32, which the DOM guarantees for strings the browser can hold.
- HighlightRanges.ModifyTextNodeRanges: returns the pieces instead of calling the modifier on each. The modifier's own effect on the document is outside the model.
- ToolBar.MoveStep: the mouse's 5 px tolerance compares the pointer with the grab offsets `x0`/`y0`, as the source does, not with the press position. No property about that tolerance is claimed.
- ContentsTable.BuildList: the title and the DOM insertion of the table (Book.js:2519-2520) are not modelled beyond `TableHtml`. The list is modelled as written, so it is unbalanced when the first header is not `h1` (`ListDepth`).

## Findings

| source | as written | input that shows it | evidently intended | confidence | as-written member | corrected member |
|---|---|---|---|---|---|---|
| Book.js:272 | `getPageNumByItem(hit.offsetNode)` is called on a miss, where `hit` is `null`, and throws | the first probe of `getPageStarter` lands on no content | a miss is rescanned like a far non-text hit | not executed | BoundaryScan.NeedsRescanAsWritten, BoundaryScan.MissAtCatchPoint | BoundaryScan.NeedsRescan |
| Book.js:3183-3199 | the undo record is keyed by the rule key, but the style is written under `toCamelCase(key)` | `changeStyle(e, {"margin-top": "0px"})`, then `changeStyle(e, {"marginTop": "5px"})`, then `recoverAllEdits()` on an element whose top margin was "10px" leaves "0px" | the record is keyed by the property actually written, so recovery gives back "10px" | not executed | StyleLog.AfterChangeStyleAsWritten, StyleLog.MixedSpellingsAsWritten | StyleLog.AfterChangeStyle, StyleLog.UndoRoundTrip |
| Book.js:2375-2401 | a valid added or removed node resets the pages even when the mutation's target lies in a nested book | a batch with a nested book's mutation adding a valid node and this book's mutation adding none | only this book's own mutations reset its pages | not executed | Reflow.ClassifyAsWritten, Reflow.NestedValidNodeResetsAsWritten | Reflow.Classify, Reflow.ClassifyAgreesWithoutNestedValidNodes |
| Book.js:1632-1642 | canvases are picked by `id.includes(fileString)` | book 1 and book 11 with the same layout numbers: book 11's canvas ids contain book 1's file string | a canvas belongs to the book whose file string follows its page number | not executed | Formats.CanvasBelongsAsWritten, Formats.CanvasFilterTakesOtherBookAsWritten | Formats.CanvasBelongs, Formats.CanvasBelongsIff |
| Eink.js:453-460 | `useContentTable` is not among the boolean keys, so its value stays a trimmed string | `--useContentTable: false` gives the truthy string "false", and Book.js:169 still builds the table | `useContentTable` decodes like the other flag keys | not executed | BookConfig.DecodeValueAsWritten, BookConfig.UseContentTableFalseAsWritten | BookConfig.DecodeValue, BookConfig.FlagKeysDecodeToTheirText |
| Eink.js:3117 | `if (this.x0 && this.y0)` tests the grab offsets for truthiness | the bar's corner at (100, 100), grabbed at (100, 150) so `x0 = 0`, dragged to (200, 250): the bar does not move | the test asks whether a grab is in progress (`!= null`); for that the offsets must also start at `null` rather than at the source's 0/0 (Eink.js:2900-2901), which the corrected test would read as a grab | not executed | ToolBar.GrabbedAsWritten, ToolBar.MoveAsWritten, ToolBar.GrabAtEdgeIgnoredAsWritten | ToolBar.Grabbed, ToolBar.Move, ToolBar.GrabTestsAgreeOffZero, ToolBar.ZeroStartGrabbedOnceCorrected, ToolBar.FloatToolBar.constructor |
