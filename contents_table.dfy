/** `Book.setupContentTable` (Book.js:2405-2521): the headers that enter a book's
    table of contents, and the nested `<ul>` list string built from their levels. */
module ContentsTable {
  import opened Wrappers
  import opened JsStrings

  /** A header element of the book: `level` is the `n` of `<hn>`; `expand` and
      `ignoreTable` are its attributes of those names, if set; `valid` is what
      `isValidNode` answers for it; `isTitle` says it is the book's title
      (`this.bookTitle`). */
  datatype Header = Header(level: nat, text: string, expand: Option<string>, ignoreTable: Option<string>,
                           valid: bool, isTitle: bool)

  /** The filter of Book.js:2418-2423: the book's title is dropped, and so is a
      header marked `ignoreTable="true"`, one `isValidNode` rejects, or one outside
      the level range. */
  predicate Selected(h: Header, minLevel: nat, maxLevel: nat) {
    !h.isTitle && h.ignoreTable != Some("true") && h.valid && minLevel <= h.level <= maxLevel
  }

  /** The headers that enter the table, in document order. */
  function SelectHeaders(hs: seq<Header>, minLevel: nat, maxLevel: nat): (r: seq<Header>)
    ensures |r| <= |hs|
    ensures forall h :: h in r <==> h in hs && Selected(h, minLevel, maxLevel)
  {
    if hs == [] then []
    else
      var init := SelectHeaders(hs[..|hs| - 1], minLevel, maxLevel);
      var last := hs[|hs| - 1];
      assert hs == hs[..|hs| - 1] + [last];
      if Selected(last, minLevel, maxLevel) then init + [last] else init
  }

  /** The positions of the selected headers: increasing, each selected, and every
      selected position among them. */
  function SelectedIndices(hs: seq<Header>, minLevel: nat, maxLevel: nat): (idx: seq<nat>)
    ensures forall j :: 0 <= j < |idx| ==> idx[j] < |hs| && Selected(hs[idx[j]], minLevel, maxLevel)
    ensures forall j, k :: 0 <= j < k < |idx| ==> idx[j] < idx[k]
    ensures forall i :: 0 <= i < |hs| && Selected(hs[i], minLevel, maxLevel) ==> i in idx
  {
    if hs == [] then []
    else
      var init := SelectedIndices(hs[..|hs| - 1], minLevel, maxLevel);
      assert forall j :: 0 <= j < |init| ==> hs[init[j]] == hs[..|hs| - 1][init[j]];
      assert forall i :: 0 <= i < |hs| - 1 ==> hs[i] == hs[..|hs| - 1][i];
      if Selected(hs[|hs| - 1], minLevel, maxLevel) then init + [|hs| - 1] else init
  }

  /** The filter keeps order and multiplicity: the `j`-th header entered is the
      header at the `j`-th selected position. */
  lemma {:induction false} SelectHeadersInOrder(hs: seq<Header>, minLevel: nat, maxLevel: nat)
    ensures var r := SelectHeaders(hs, minLevel, maxLevel);
      var idx := SelectedIndices(hs, minLevel, maxLevel);
      |r| == |idx| && forall j :: 0 <= j < |r| ==> r[j] == hs[idx[j]]
  {
    if hs != [] {
      var init := hs[..|hs| - 1];
      SelectHeadersInOrder(init, minLevel, maxLevel);
      var r0 := SelectHeaders(init, minLevel, maxLevel);
      var idx0 := SelectedIndices(init, minLevel, maxLevel);
      var r := SelectHeaders(hs, minLevel, maxLevel);
      var idx := SelectedIndices(hs, minLevel, maxLevel);
      var last := hs[|hs| - 1];
      if Selected(last, minLevel, maxLevel) {
        assert r == r0 + [last] && idx == idx0 + [|hs| - 1];
      } else {
        assert r == r0 && idx == idx0;
      }
      forall j | 0 <= j < |r|
        ensures r[j] == hs[idx[j]]
      {
        if j < |r0| {
          assert r[j] == r0[j] && idx[j] == idx0[j];
          assert hs[idx0[j]] == init[idx0[j]];
        }
      }
    }
  }

  const UnfoldIcon: string := "https://blogger.googleusercontent.com/img/b/R29vZ2xl/AVvXsEh61PrcDdc05urR5s9YBt-zsRGyk51SKcunC0Ha8sYECZK9aEX_EYKv5fe5au4ERFc83wYtbe5-G4tkM9bTtih-AzGh7-0GHBrm_xixoaBR0eSO2zuLWkQooXIaHims2Mk1g6_KKyoIrw/s320/25223.png"
  const FoldIcon: string := "https://blogger.googleusercontent.com/img/b/R29vZ2xl/AVvXsEhLS0VMZ5HkQS6wSuNLbo1a8uYSiiysarkQCKxLrH31AdFKDcC1_0klWP9FGtsa9_1tKu-NEX7SniBnDSIhzLBuvMpZ1vy8HIja-OKm6wXQme057NMMF1lJ8UJLklsP9VnRd2BspzQXAA/s200/25623.png"

  /** The pieces the list string is made of. */
  datatype Piece =
    | ListOpen             // "<ul>"
    | HiddenListOpen       // "<ul style=\"display:none;\">"
    | ListClose            // "</ul>"
    | Entry(index: nat, text: string)
    | EntryClose           // "</li>"
    | Icon(unfold: bool)

  /** The `id` given to the `i`-th header and the `href` of its entry. */
  function TopicId(instanceID: nat, i: nat): string {
    "book" + NatToString(instanceID) + "_topic" + NatToString(i)
  }

  /** The ids of the first `n` headers. */
  function TopicIds(instanceID: nat, n: nat): (r: seq<string>)
    ensures |r| == n && forall i :: 0 <= i < n ==> r[i] == TopicId(instanceID, i)
  {
    if n == 0 then [] else TopicIds(instanceID, n - 1) + [TopicId(instanceID, n - 1)]
  }

  /** What the rendering of a piece depends on: the book's `instanceID`, which the
      entries' links carry, and the two fold-icon sources. */
  datatype ListContext = ListContext(instanceID: nat, unfoldIcon: string, foldIcon: string)

  /** The context `setupContentTable` renders with. */
  function BookContext(instanceID: nat): ListContext {
    ListContext(instanceID, UnfoldIcon, FoldIcon)
  }

  function PieceText(ctx: ListContext, p: Piece): string {
    match p
    case ListOpen => "<ul>"
    case HiddenListOpen => "<ul style=\"display:none;\">"
    case ListClose => "</ul>"
    case Entry(i, text) => "<li><a href=\"#" + TopicId(ctx.instanceID, i) + "\">" + text + "</a>"
    case EntryClose => "</li>"
    case Icon(unfold) => "<img class=\"foldIcon\" src=\"" + (if unfold then ctx.unfoldIcon else ctx.foldIcon) + "\" width=\"12px\"/>"
  }

  function Render(ctx: ListContext, ps: seq<Piece>): string {
    if ps == [] then "" else Render(ctx, ps[..|ps| - 1]) + PieceText(ctx, ps[|ps| - 1])
  }

  function Repeat(p: Piece, k: nat): (r: seq<Piece>)
    ensures |r| == k && forall i :: 0 <= i < k ==> r[i] == p
  {
    if k == 0 then [] else Repeat(p, k - 1) + [p]
  }

  /** What the loop appends for header `i`: its entry and, from the next header's
      level, the sublists opened or closed; after the last header, `level` closes. */
  function HeaderPieces(hs: seq<Header>, i: nat, expandSubLists: bool): seq<Piece>
    requires i < |hs|
  {
    var cur := hs[i].level;
    [Entry(i, hs[i].text)] +
    if i == |hs| - 1 then Repeat(ListClose, cur)
    else
      var next := hs[i + 1].level;
      if cur < next then
        var unfold := expandSubLists || hs[i].expand == Some("true");
        [Icon(unfold), EntryClose, if unfold then ListOpen else HiddenListOpen] + Repeat(ListOpen, next - cur - 1)
      else if cur > next then [EntryClose] + Repeat(ListClose, cur - next)
      else [EntryClose]
  }

  /** After an entry whose next header is `k` levels deeper: the fold icon, the
      entry's end and `k` sublists, the first of them hidden unless `unfold`. */
  function SublistPieces(unfold: bool, k: nat): seq<Piece>
    requires k >= 1
  {
    [Icon(unfold), EntryClose, if unfold then ListOpen else HiddenListOpen] + Repeat(ListOpen, k - 1)
  }

  /** The pieces after header `i`'s entry. */
  function HeaderTail(hs: seq<Header>, i: nat, expandSubLists: bool): seq<Piece>
    requires i < |hs|
  {
    var cur := hs[i].level;
    if i == |hs| - 1 then Repeat(ListClose, cur)
    else
      var next := hs[i + 1].level;
      if cur < next then SublistPieces(expandSubLists || hs[i].expand == Some("true"), next - cur)
      else if cur > next then [EntryClose] + Repeat(ListClose, cur - next)
      else [EntryClose]
  }

  lemma HeaderPiecesSplit(hs: seq<Header>, i: nat, expandSubLists: bool)
    requires i < |hs|
    ensures HeaderPieces(hs, i, expandSubLists) == [Entry(i, hs[i].text)] + HeaderTail(hs, i, expandSubLists)
  {
  }

  /** The pieces after the first `n` headers. */
  function PiecesUpTo(hs: seq<Header>, n: nat, expandSubLists: bool): seq<Piece>
    requires n <= |hs|
  {
    if n == 0 then [ListOpen] else PiecesUpTo(hs, n - 1, expandSubLists) + HeaderPieces(hs, n - 1, expandSubLists)
  }

  /** What a piece does to the number of open lists. */
  function Delta(p: Piece): int {
    if p.ListOpen? || p.HiddenListOpen? then 1 else if p.ListClose? then -1 else 0
  }

  /** Lists opened minus lists closed. */
  function Depth(ps: seq<Piece>): int {
    if ps == [] then 0 else Depth(ps[..|ps| - 1]) + Delta(ps[|ps| - 1])
  }

  lemma DepthSingle(p: Piece)
    ensures Depth([p]) == Delta(p)
  {
    assert [p][..0] == [];
  }

  lemma {:induction false} DepthAppend(a: seq<Piece>, b: seq<Piece>)
    ensures Depth(a + b) == Depth(a) + Depth(b)
    decreases |b|
  {
    if b == [] {
      assert a + b == a;
    } else {
      DepthAppend(a, b[..|b| - 1]);
      assert (a + b)[..|a + b| - 1] == a + b[..|b| - 1];
    }
  }

  /** `k` copies of an opening piece open `k` lists; `k` closings close `k`. */
  lemma {:induction false} DepthRepeat(p: Piece, k: nat)
    ensures Depth(Repeat(p, k)) == if Delta(p) == 1 then k else if Delta(p) == -1 then -(k as int) else 0
  {
    if k > 0 {
      DepthRepeat(p, k - 1);
      DepthAppend(Repeat(p, k - 1), [p]);
      DepthSingle(p);
    }
  }

  lemma SublistPiecesDepth(unfold: bool, k: nat)
    requires k >= 1
    ensures Depth(SublistPieces(unfold, k)) == k
  {
    var opener := if unfold then ListOpen else HiddenListOpen;
    var head: seq<Piece> := [Icon(unfold), EntryClose, opener];
    assert Depth(head) == 1 by {
      DepthSingle(Icon(unfold));
      DepthSingle(opener);
      DepthAppend([Icon(unfold)], [EntryClose]);
      DepthAppend([Icon(unfold), EntryClose], [opener]);
      assert head == [Icon(unfold), EntryClose] + [opener];
    }
    DepthRepeat(ListOpen, k - 1);
    DepthAppend(head, Repeat(ListOpen, k - 1));
  }

  lemma ClosingPiecesDepth(k: nat)
    ensures Depth([EntryClose] + Repeat(ListClose, k)) == -(k as int)
  {
    DepthSingle(EntryClose);
    DepthRepeat(ListClose, k);
    DepthAppend([EntryClose], Repeat(ListClose, k));
  }

  lemma HeaderTailDepth(hs: seq<Header>, i: nat, expandSubLists: bool)
    requires i < |hs|
    ensures Depth(HeaderTail(hs, i, expandSubLists)) ==
      if i == |hs| - 1 then -(hs[i].level as int) else hs[i + 1].level as int - hs[i].level as int
  {
    var cur := hs[i].level;
    if i == |hs| - 1 {
      DepthRepeat(ListClose, cur);
    } else {
      var next := hs[i + 1].level;
      if cur < next {
        SublistPiecesDepth(expandSubLists || hs[i].expand == Some("true"), next - cur);
      } else if cur > next {
        ClosingPiecesDepth(cur - next);
      } else {
        DepthSingle(EntryClose);
      }
    }
  }

  /** Each header but the last moves the depth by the level step to the next one;
      the last closes `level` lists. */
  lemma HeaderPiecesDepth(hs: seq<Header>, i: nat, expandSubLists: bool)
    requires i < |hs|
    ensures Depth(HeaderPieces(hs, i, expandSubLists)) ==
      if i == |hs| - 1 then -(hs[i].level as int) else hs[i + 1].level as int - hs[i].level as int
  {
    HeaderPiecesSplit(hs, i, expandSubLists);
    DepthSingle(Entry(i, hs[i].text));
    HeaderTailDepth(hs, i, expandSubLists);
    DepthAppend([Entry(i, hs[i].text)], HeaderTail(hs, i, expandSubLists));
  }

  /** Each header's pieces add their depth to the depth before them. */
  lemma DepthUpToStep(hs: seq<Header>, n: nat, expandSubLists: bool)
    requires 1 <= n <= |hs|
    ensures Depth(PiecesUpTo(hs, n, expandSubLists)) ==
      Depth(PiecesUpTo(hs, n - 1, expandSubLists)) + Depth(HeaderPieces(hs, n - 1, expandSubLists))
  {
    DepthAppend(PiecesUpTo(hs, n - 1, expandSubLists), HeaderPieces(hs, n - 1, expandSubLists));
  }

  /** Before the `n`-th header's pieces are appended, `1 + level(n) - level(0)` lists
      are open. */
  lemma {:induction false} DepthBeforeHeader(hs: seq<Header>, n: nat, expandSubLists: bool)
    requires n < |hs|
    ensures Depth(PiecesUpTo(hs, n, expandSubLists)) == 1 + hs[n].level - hs[0].level
  {
    if n == 0 {
      DepthSingle(ListOpen);
    } else {
      calc {
        Depth(PiecesUpTo(hs, n, expandSubLists));
      == { DepthUpToStep(hs, n, expandSubLists); }
        Depth(PiecesUpTo(hs, n - 1, expandSubLists)) + Depth(HeaderPieces(hs, n - 1, expandSubLists));
      == { DepthBeforeHeader(hs, n - 1, expandSubLists); HeaderPiecesDepth(hs, n - 1, expandSubLists); }
        (1 + hs[n - 1].level - hs[0].level) + (hs[n].level as int - hs[n - 1].level as int);
      }
    }
  }

  /** The finished list closes `level(0) - 1` more lists than it opens, so it is
      balanced exactly when the first header is an `h1`; the HTML parser drops the
      surplus `</ul>`s. */
  lemma ListDepth(hs: seq<Header>, expandSubLists: bool)
    requires |hs| >= 1
    ensures Depth(PiecesUpTo(hs, |hs|, expandSubLists)) == 1 - hs[0].level
    ensures Depth(PiecesUpTo(hs, |hs|, expandSubLists)) == 0 <==> hs[0].level == 1
  {
    var n := |hs| - 1;
    DepthBeforeHeader(hs, n, expandSubLists);
    HeaderPiecesDepth(hs, n, expandSubLists);
    DepthUpToStep(hs, |hs|, expandSubLists);
  }

  /** Every entry links to the id its header is given, and those ids are
      different for different headers. */
  lemma TopicIdsDistinct(instanceID: nat, i: nat, j: nat)
    requires i != j
    ensures TopicId(instanceID, i) != TopicId(instanceID, j)
  {
    var p := "book" + NatToString(instanceID) + "_topic";
    if TopicId(instanceID, i) == TopicId(instanceID, j) {
      assert TopicId(instanceID, i)[|p|..] == NatToString(i);
      assert TopicId(instanceID, j)[|p|..] == NatToString(j);
      DigitsOfNatToString(i);
      DigitsOfNatToString(j);
    }
  }

  /** What the table holds: its title and then the list. */
  function TableHtml(lang: string, list: string): string {
    "<h3 ignoreTable=\"true\">" + (if lang == "zh-TW" then "目錄" else "Table of Content") + "</h3>" + list
  }

  lemma AppendAssociates(a: seq<Piece>, b: seq<Piece>, c: seq<Piece>)
    ensures (a + b) + c == a + (b + c)
  {
  }

  /** Appending one piece, the step every write to `htmlContent` takes. */
  method Append(ctx: ListContext, html: string, ghost ps: seq<Piece>, p: Piece) returns (html': string, ghost ps': seq<Piece>)
    requires html == Render(ctx, ps)
    ensures ps' == ps + [p] && html' == Render(ctx, ps')
  {
    html' := html + PieceText(ctx, p);
    ps' := ps + [p];
    assert ps'[..|ps'| - 1] == ps;
  }

  /** The inner `for (let j ...)` loops: `k` copies of one piece. */
  method AppendRepeat(ctx: ListContext, html: string, ghost ps: seq<Piece>, p: Piece, k: nat) returns (html': string, ghost ps': seq<Piece>)
    requires html == Render(ctx, ps)
    ensures ps' == ps + Repeat(p, k) && html' == Render(ctx, ps')
  {
    html', ps' := html, ps;
    var j := 0;
    while j < k
      invariant 0 <= j <= k
      invariant ps' == ps + Repeat(p, j) && html' == Render(ctx, ps')
    {
      html', ps' := Append(ctx, html', ps', p);
      AppendAssociates(ps, Repeat(p, j), [p]);
      j := j + 1;
    }
  }

  /** The pieces after an entry whose next header is deeper. */
  method AppendSublists(ctx: ListContext, html: string, ghost ps: seq<Piece>, unfold: bool, k: nat)
    returns (html': string, ghost ps': seq<Piece>)
    requires k >= 1 && html == Render(ctx, ps)
    ensures ps' == ps + SublistPieces(unfold, k) && html' == Render(ctx, ps')
  {
    var opener := if unfold then ListOpen else HiddenListOpen;
    html', ps' := Append(ctx, html, ps, Icon(unfold));
    html', ps' := Append(ctx, html', ps', EntryClose);
    html', ps' := Append(ctx, html', ps', opener);
    assert ps' == ps + [Icon(unfold), EntryClose, opener];
    html', ps' := AppendRepeat(ctx, html', ps', ListOpen, k - 1);
    AppendAssociates(ps, [Icon(unfold), EntryClose, opener], Repeat(ListOpen, k - 1));
  }

  /** The pieces after an entry whose next header is `k` levels higher. */
  method AppendClosings(ctx: ListContext, html: string, ghost ps: seq<Piece>, k: nat)
    returns (html': string, ghost ps': seq<Piece>)
    requires html == Render(ctx, ps)
    ensures ps' == ps + ([EntryClose] + Repeat(ListClose, k)) && html' == Render(ctx, ps')
  {
    html', ps' := Append(ctx, html, ps, EntryClose);
    html', ps' := AppendRepeat(ctx, html', ps', ListClose, k);
    AppendAssociates(ps, [EntryClose], Repeat(ListClose, k));
  }

  /** The pieces after header `i`'s entry. */
  method AppendTail(ctx: ListContext, html: string, ghost ps: seq<Piece>, hs: seq<Header>, i: nat, expandSubLists: bool)
    returns (html': string, ghost ps': seq<Piece>)
    requires i < |hs| && html == Render(ctx, ps)
    ensures ps' == ps + HeaderTail(hs, i, expandSubLists) && html' == Render(ctx, ps')
  {
    var cur := hs[i].level;
    ghost var tail := HeaderTail(hs, i, expandSubLists);
    if i == |hs| - 1 {
      assert tail == Repeat(ListClose, cur);
      html', ps' := AppendRepeat(ctx, html, ps, ListClose, cur);
    } else {
      var next := hs[i + 1].level;
      if cur < next {
        var unfold := expandSubLists || hs[i].expand == Some("true");
        assert tail == SublistPieces(unfold, next - cur);
        html', ps' := AppendSublists(ctx, html, ps, unfold, next - cur);
      } else if cur > next {
        assert tail == [EntryClose] + Repeat(ListClose, cur - next);
        html', ps' := AppendClosings(ctx, html, ps, cur - next);
      } else {
        assert tail == [EntryClose];
        html', ps' := Append(ctx, html, ps, EntryClose);
      }
    }
  }

  /** One turn of the outer loop: header `i`'s entry and the sublists after it. */
  method AppendHeader(ctx: ListContext, html: string, ghost ps: seq<Piece>, hs: seq<Header>, i: nat, expandSubLists: bool)
    returns (html': string, ghost ps': seq<Piece>)
    requires i < |hs| && html == Render(ctx, ps)
    ensures ps' == ps + HeaderPieces(hs, i, expandSubLists) && html' == Render(ctx, ps')
  {
    var e := Entry(i, hs[i].text);
    html', ps' := Append(ctx, html, ps, e);
    html', ps' := AppendTail(ctx, html', ps', hs, i, expandSubLists);
    AppendAssociates(ps, [e], HeaderTail(hs, i, expandSubLists));
    HeaderPiecesSplit(hs, i, expandSubLists);
  }

  /** The outer loop over the headers, after the opening `<ul>`: the list string
      and the ids given to the headers. */
  method ListLoop(ctx: ListContext, hs: seq<Header>, expandSubLists: bool) returns (html: string, ids: seq<string>)
    ensures html == Render(ctx, PiecesUpTo(hs, |hs|, expandSubLists))
    ensures ids == TopicIds(ctx.instanceID, |hs|)
  {
    html := "<ul>";
    ghost var ps: seq<Piece> := [ListOpen];
    assert ps[..0] == [];
    assert Render(ctx, ps) == Render(ctx, []) + PieceText(ctx, ListOpen);
    ids := [];
    var i := 0;
    while i < |hs|
      invariant 0 <= i <= |hs|
      invariant ps == PiecesUpTo(hs, i, expandSubLists) && html == Render(ctx, ps)
      invariant ids == TopicIds(ctx.instanceID, i)
    {
      html, ps := AppendHeader(ctx, html, ps, hs, i, expandSubLists);
      assert TopicIds(ctx.instanceID, i + 1) == ids + [TopicId(ctx.instanceID, i)];
      ids := ids + [TopicId(ctx.instanceID, i)];
      i := i + 1;
    }
  }

  /** The list string and the header ids of Book.js:2478-2516, for the selected
      headers; `None` when there are at most three of them (Book.js:2426). */
  method BuildList(instanceID: nat, hs: seq<Header>, expandSubLists: bool) returns (list: Option<string>, ids: seq<string>)
    ensures |hs| <= 3 ==> list == None && ids == []
    ensures |hs| > 3 ==> list == Some(Render(BookContext(instanceID), PiecesUpTo(hs, |hs|, expandSubLists)))
    ensures |hs| > 3 ==> |ids| == |hs| && forall i :: 0 <= i < |hs| ==> ids[i] == TopicId(instanceID, i)
  {
    if |hs| <= 3 {
      return None, [];
    }
    var html;
    html, ids := ListLoop(BookContext(instanceID), hs, expandSubLists);
    list := Some(html);
  }
}
