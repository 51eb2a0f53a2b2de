/** `highlighter.modifyTextNodeRanges` and its `findCompleteTextNodesInTheRange`
    (Eink.js:2605-2637): a range over several text nodes is handed to the modifier
    one text node at a time. The text nodes below the range's common ancestor are
    numbered in document order and known by their lengths; the tree walker's
    `nextNode` is the next of them whose offset 0 lies within the range. */
module HighlightRanges {
  import opened Wrappers
  import opened ContentTree

  /** A range from offset `startOffset` of text node `startNode` to offset
      `endOffset` of text node `endNode`. */
  datatype TextRange = TextRange(startNode: nat, startOffset: nat, endNode: nat, endOffset: nat)

  /** A range a selection can hold: start not after end, offsets within their nodes,
      and DOM lengths below 2^32. */
  predicate ValidRange(lengths: seq<nat>, r: TextRange) {
    r.startNode <= r.endNode < |lengths| &&
    r.startOffset <= lengths[r.startNode] && r.endOffset <= lengths[r.endNode] &&
    (r.startNode == r.endNode ==> r.startOffset <= r.endOffset) &&
    forall k :: 0 <= k < |lengths| ==> lengths[k] < TwoTo32
  }

  /** The point (k, o) is at or after the range's start, and at or before its end. */
  predicate AfterStart(r: TextRange, k: nat, o: nat) {
    r.startNode < k || (r.startNode == k && r.startOffset <= o)
  }

  predicate BeforeEnd(r: TextRange, k: nat, o: nat) {
    k < r.endNode || (k == r.endNode && o <= r.endOffset)
  }

  /** `range.comparePoint(node, 0) === 0`: the walker's filter accepts the node. */
  predicate Accepted(r: TextRange, k: nat) {
    AfterStart(r, k, 0) && BeforeEnd(r, k, 0)
  }

  /** Character `o` of text node `k` is selected by the range. */
  predicate InRange(r: TextRange, k: nat, o: nat) {
    AfterStart(r, k, o) && (k < r.endNode || (k == r.endNode && o < r.endOffset))
  }

  /** `walker.nextNode()` from text node `k` on: the first accepted one. */
  function NextNode(lengths: seq<nat>, r: TextRange, k: nat): (n: Option<nat>)
    ensures n.Some? ==> k <= n.value < |lengths| && Accepted(r, n.value)
    ensures Accepted(r, k) && k < |lengths| ==> n == Some(k)
    ensures n.None? && k <= r.endNode < |lengths| ==> !Accepted(r, r.endNode)
    decreases |lengths| - k
  {
    if k >= |lengths| then None
    else if Accepted(r, k) then Some(k)
    else NextNode(lengths, r, k + 1)
  }

  /** The text nodes strictly between `a` and `c`, in order. */
  function Between(a: nat, c: nat): (s: seq<nat>)
    ensures |s| == if c <= a then 0 else c - a - 1
    ensures forall i :: 0 <= i < |s| ==> s[i] == a + 1 + i
  {
    if c <= a + 1 then [] else Between(a, c - 1) + [c - 1]
  }

  /** The walker accepts exactly the nodes of the range that start inside it: none
      before the start node, and every node after it up to the end node. */
  lemma AcceptedNodes(lengths: seq<nat>, r: TextRange, k: nat)
    requires ValidRange(lengths, r)
    ensures Accepted(r, k) ==> r.startNode <= k <= r.endNode
    ensures r.startNode < k <= r.endNode ==> Accepted(r, k)
    ensures k == r.startNode ==> (Accepted(r, k) <==> r.startOffset == 0)
  {
  }

  /** `findCompleteTextNodesInTheRange`: the nodes strictly between the start and the
      end node, whose text the range selects whole. */
  method FindCompleteTextNodesInTheRange(lengths: seq<nat>, r: TextRange) returns (nodes: seq<nat>)
    requires ValidRange(lengths, r)
    ensures nodes == Between(r.startNode, r.endNode)
  {
    nodes := [];
    var cur := NextNode(lengths, r, 0);
    if r.startOffset == 0 {
      AcceptedNodes(lengths, r, r.startNode);
      assert NextNode(lengths, r, 0) == Some(r.startNode) by {
        NothingBefore(lengths, r, 0);
      }
    } else if r.startNode < r.endNode {
      AcceptedNodes(lengths, r, r.startNode + 1);
      assert NextNode(lengths, r, 0) == Some(r.startNode + 1) by {
        NothingBefore(lengths, r, 0);
      }
    } else {
      assert cur.None? by {
        NothingBefore(lengths, r, 0);
        AcceptedNodes(lengths, r, r.startNode);
      }
    }
    while cur.Some? && cur.value != r.endNode
      invariant cur.Some? ==> r.startNode <= cur.value <= r.endNode && nodes == Between(r.startNode, cur.value)
      invariant cur.None? ==> r.startNode == r.endNode && nodes == []
      decreases if cur.Some? then |lengths| - cur.value else 0
    {
      if cur.value != r.startNode {
        nodes := nodes + [cur.value];
      }
      AcceptedNodes(lengths, r, cur.value + 1);
      cur := NextNode(lengths, r, cur.value + 1);
    }
  }

  /** No node before the range's first accepted node is accepted, so the walker's
      first answer is that node. */
  lemma {:induction false} NothingBefore(lengths: seq<nat>, r: TextRange, k: nat)
    requires ValidRange(lengths, r) && k <= r.startNode
    ensures NextNode(lengths, r, k) == NextNode(lengths, r, r.startNode)
    decreases r.startNode - k
  {
    if k < r.startNode {
      AcceptedNodes(lengths, r, k);
      NothingBefore(lengths, r, k + 1);
    }
  }

  /** `Book.rangeTool.createRange(node, node, a, b)` for offsets within the node. */
  function NodePiece(lengths: seq<nat>, k: nat, a: nat, b: nat): (p: Range)
    requires k < |lengths| && a <= b <= lengths[k] < TwoTo32
    ensures p == Range(Boundary(k, a), Boundary(k, b))
  {
    CreateRangeWithinNode(k, lengths[k], a, b);
    CreateRange(k, lengths[k], k, lengths[k], a, b, false).value
  }

  predicate Selects(p: Range, o: nat) {
    p.start.offset <= o < p.end.offset
  }

  /** The pieces handed to the modifier cover the range exactly: one piece per text
      node from the start node to the end node, in document order, each inside its
      node, and a character of such a node lies in its piece exactly when the range
      selects it. No piece overlaps another, and nodes outside the span have no
      selected character. */
  predicate CoversExactly(lengths: seq<nat>, r: TextRange, pieces: seq<Range>)
    requires ValidRange(lengths, r)
  {
    |pieces| == r.endNode - r.startNode + 1 &&
    (forall t :: 0 <= t < |pieces| ==>
      pieces[t].start.node == r.startNode + t && pieces[t].end.node == r.startNode + t &&
      pieces[t].start.offset <= pieces[t].end.offset <= lengths[r.startNode + t]) &&
    (forall t, o :: 0 <= t < |pieces| && o < lengths[r.startNode + t] ==>
      (Selects(pieces[t], o) <==> InRange(r, r.startNode + t, o)))
  }

  lemma NothingSelectedOutside(lengths: seq<nat>, r: TextRange, k: nat, o: nat)
    requires ValidRange(lengths, r) && InRange(r, k, o)
    ensures r.startNode <= k <= r.endNode
  {
  }

  /** The piece for node `startNode + t`: from the start offset on the start node,
      to the end offset on the end node, the whole text elsewhere. */
  predicate IsPieceOf(lengths: seq<nat>, r: TextRange, t: nat, p: Range)
    requires ValidRange(lengths, r) && r.startNode + t <= r.endNode
  {
    var k := r.startNode + t;
    p == Range(Boundary(k, if t == 0 then r.startOffset else 0), Boundary(k, if k == r.endNode then r.endOffset else lengths[k]))
  }

  lemma PiecesCover(lengths: seq<nat>, r: TextRange, pieces: seq<Range>)
    requires ValidRange(lengths, r)
    requires |pieces| == r.endNode - r.startNode + 1
    requires forall t :: 0 <= t < |pieces| ==> IsPieceOf(lengths, r, t, pieces[t])
    ensures CoversExactly(lengths, r, pieces)
  {
  }

  /** `modifyTextNodeRanges(range, modifier)`; the result is the sequence of ranges
      the modifier receives. A range within one node is passed as it is. */
  method ModifyTextNodeRanges(lengths: seq<nat>, r: TextRange) returns (pieces: seq<Range>)
    requires ValidRange(lengths, r)
    ensures |pieces| == r.endNode - r.startNode + 1
    ensures forall t :: 0 <= t < |pieces| ==> IsPieceOf(lengths, r, t, pieces[t])
    ensures CoversExactly(lengths, r, pieces)
  {
    var completeTextNodes := FindCompleteTextNodesInTheRange(lengths, r);
    if r.startNode == r.endNode {
      pieces := [Range(Boundary(r.startNode, r.startOffset), Boundary(r.endNode, r.endOffset))];
    } else {
      pieces := [NodePiece(lengths, r.startNode, r.startOffset, lengths[r.startNode])];
      var i := 0;
      while i < |completeTextNodes|
        invariant 0 <= i <= |completeTextNodes|
        invariant |pieces| == i + 1
        invariant forall t :: 0 <= t < |pieces| ==> IsPieceOf(lengths, r, t, pieces[t])
      {
        var node := completeTextNodes[i];
        pieces := pieces + [NodePiece(lengths, node, 0, lengths[node])];
        i := i + 1;
      }
      pieces := pieces + [NodePiece(lengths, r.endNode, 0, r.endOffset)];
    }
    PiecesCover(lengths, r, pieces);
  }

  /** The book container's `getBoundingClientRect()`, in whole pixels. */
  datatype Rect = Rect(left: int, right: int, top: int, bottom: int)

  /** The book's four margins from its configuration. */
  datatype Margins = Margins(upper: int, lower: int, left: int, right: int)

  const ErrorTolerance: int := 10

  /** `pointWithinThePage(book, x, y)` (Eink.js:2530-2535): strictly inside the
      container less its margins, and at least 10 px more away from the right and
      bottom edges. */
  predicate PointWithinThePage(rect: Rect, m: Margins, x: int, y: int) {
    x > rect.left + m.left && x < rect.right - m.right - ErrorTolerance &&
    y > rect.top + m.upper && y < rect.bottom - m.lower - ErrorTolerance
  }

  /** With margins that are not negative, an accepted point lies inside the
      container; points at the content's right or bottom edge, or within the
      tolerance of it, are refused. */
  lemma WithinThePageIsInsideContainer(rect: Rect, m: Margins, x: int, y: int)
    requires m.upper >= 0 && m.lower >= 0 && m.left >= 0 && m.right >= 0
    ensures PointWithinThePage(rect, m, x, y) ==>
      rect.left < x < rect.right - ErrorTolerance && rect.top < y < rect.bottom - ErrorTolerance
    ensures rect.right - m.right - ErrorTolerance <= x ==> !PointWithinThePage(rect, m, x, y)
    ensures rect.bottom - m.lower - ErrorTolerance <= y ==> !PointWithinThePage(rect, m, x, y)
  {
  }
}
