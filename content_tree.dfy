/** Two helpers of `Book` that work on the content tree: `Book.isElementEmpty`
    (Book.js:500-519) and `Book.rangeTool.createRange` (Book.js:3089-3098). The tree
    holds elements and text nodes; comments and other node kinds are not part of
    this model. */
module ContentTree {
  import opened Wrappers
  import opened JsStrings

  datatype Node = Text(data: string) | Element(nodeName: string, childNodes: seq<Node>)

  /** `node.textContent`: the text of every text node below, in document order. */
  function TextContent(n: Node): string
    decreases n, 1, 0
  {
    match n
    case Text(d) => d
    case Element(_, _) => ChildrenText(n, 0)
  }

  /** The text content of the children of `n` from the `i`-th on. */
  function ChildrenText(n: Node, i: nat): string
    requires n.Element? && i <= |n.childNodes|
    decreases n, 0, |n.childNodes| - i
  {
    if i == |n.childNodes| then "" else TextContent(n.childNodes[i]) + ChildrenText(n, i + 1)
  }

  /** The element names that count as content although they hold no text. */
  const ContentElements: seq<string> :=
    ["img", "canvas", "svg", "input", "iframe", "area", "base", "col", "embed", "hr", "link", "source", "param"]

  predicate IsContentElement(n: Node) {
    n.Element? && LowerCase(n.nodeName) in ContentElements
  }

  // ---------------------------------------------------------------------------
  // isElementEmpty as written

  /** `Book.isElementEmpty(elem)`: not a content element, blank text, and every
      element child empty (text children are skipped by `elem.children`). */
  function IsElementEmpty(n: Node): bool
    requires n.Element?
    decreases n, 1, 0
  {
    if LowerCase(n.nodeName) in ContentElements then false
    else if Trim(TextContent(n)) != "" then false
    else ChildrenEmpty(n, 0)
  }

  /** The `for (let child of elem.children)` loop from the `i`-th child on. */
  function ChildrenEmpty(n: Node, i: nat): bool
    requires n.Element? && i <= |n.childNodes|
    decreases n, 0, |n.childNodes| - i
  {
    i == |n.childNodes| ||
    ((n.childNodes[i].Text? || IsElementEmpty(n.childNodes[i])) && ChildrenEmpty(n, i + 1))
  }

  // ---------------------------------------------------------------------------
  // the reference definition

  /** Whether a content element occurs anywhere in the subtree of `n`. */
  predicate HasContentElement(n: Node)
    decreases n, 1, 0
  {
    IsContentElement(n) || (n.Element? && AnyChildHasContentElement(n, 0))
  }

  predicate AnyChildHasContentElement(n: Node, i: nat)
    requires n.Element? && i <= |n.childNodes|
    decreases n, 0, |n.childNodes| - i
  {
    i < |n.childNodes| && (HasContentElement(n.childNodes[i]) || AnyChildHasContentElement(n, i + 1))
  }

  lemma BlankConcat(a: string, b: string)
    ensures IsBlank(a + b) <==> IsBlank(a) && IsBlank(b)
  {
    if IsBlank(a + b) {
      forall i | 0 <= i < |a| ensures IsJsWhitespace(a[i]) {
        assert a[i] == (a + b)[i];
      }
      forall i | 0 <= i < |b| ensures IsJsWhitespace(b[i]) {
        assert b[i] == (a + b)[|a| + i];
      }
    }
    if IsBlank(a) && IsBlank(b) {
      forall i | 0 <= i < |a + b| ensures IsJsWhitespace((a + b)[i]) {
        if i < |a| {
          assert (a + b)[i] == a[i];
        } else {
          assert (a + b)[i] == b[i - |a|];
        }
      }
    }
  }

  /** An element is empty exactly when its subtree holds no content element and
      only whitespace text. */
  lemma {:induction false} IsElementEmptyMeaning(n: Node)
    requires n.Element?
    ensures IsElementEmpty(n) <==> !HasContentElement(n) && IsBlank(TextContent(n))
    decreases n, 1, 0
  {
    TrimEmptyIffBlank(TextContent(n));
    if !IsContentElement(n) && IsBlank(TextContent(n)) {
      ChildrenEmptyMeaning(n, 0);
    }
  }

  lemma {:induction false} ChildrenEmptyMeaning(n: Node, i: nat)
    requires n.Element? && i <= |n.childNodes|
    requires IsBlank(ChildrenText(n, i))
    ensures ChildrenEmpty(n, i) <==> !AnyChildHasContentElement(n, i)
    decreases n, 0, |n.childNodes| - i
  {
    if i < |n.childNodes| {
      var c := n.childNodes[i];
      BlankConcat(TextContent(c), ChildrenText(n, i + 1));
      ChildrenEmptyMeaning(n, i + 1);
      if c.Element? {
        IsElementEmptyMeaning(c);
      } else {
        assert !HasContentElement(c);
      }
    }
  }

  // ---------------------------------------------------------------------------
  // rangeTool.createRange (Book.js:3089-3098)

  type NodeRef = nat

  /** `2^32`: `setStart`/`setEnd` take their offset as a WebIDL `unsigned long`. */
  const TwoTo32: int := 0x1_0000_0000

  /** WebIDL's conversion of a number to `unsigned long` (ToUint32). */
  function ToUint32(x: int): (r: int)
    ensures 0 <= r < TwoTo32
    ensures 0 <= x < TwoTo32 ==> r == x
  {
    x % TwoTo32
  }

  datatype Boundary = Boundary(node: NodeRef, offset: nat)

  datatype Range = Range(start: Boundary, end: Boundary)

  /** `createRange(startContainer, endContainer, startPos, endPos)` on containers of
      length `startLength` and `endLength` (characters for a text node, child nodes
      for an element). `endBeforeStart` says whether, for different containers, the
      requested end lies before the start in document order; setting such an end
      collapses the range onto it. A start offset past the container's length throws
      `IndexSizeError`; an end offset past it is caught and replaced by the length. */
  function CreateRange(startNode: NodeRef, startLength: nat, endNode: NodeRef, endLength: nat,
                       startPos: int, endPos: int, endBeforeStart: bool): (r: Result<Range>)
    requires startLength < TwoTo32 && endLength < TwoTo32
    requires startNode == endNode ==> startLength == endLength
    ensures r.Err? <==> ToUint32(if startPos < 0 then 0 else startPos) > startLength
    ensures r.Err? ==> r.error == IndexSizeError
    ensures r.Ok? ==> r.value.end.node == endNode && r.value.end.offset <= endLength
    ensures r.Ok? && 0 <= endPos <= endLength ==> r.value.end.offset == endPos
    ensures r.Ok? && (endLength < endPos < TwoTo32 || endLength - TwoTo32 < endPos < 0) ==>
      r.value.end.offset == endLength
    ensures r.Ok? && 0 <= startPos <= startLength ==>
      r.value.start == Boundary(startNode, startPos) || r.value.start == r.value.end
    ensures r.Ok? && startPos < 0 ==>
      r.value.start == Boundary(startNode, 0) || r.value.start == r.value.end
    ensures r.Ok? && startNode == endNode ==> r.value.start.offset <= r.value.end.offset
    ensures r.Ok? && startNode != endNode ==> (r.value.start == r.value.end <==> endBeforeStart)
  {
    var s := ToUint32(if startPos < 0 then 0 else startPos);
    if s > startLength then Err(IndexSizeError)
    else
      var start := Boundary(startNode, s);
      var e0 := ToUint32(endPos);
      var e := if e0 > endLength then endLength else e0;
      var end := Boundary(endNode, e);
      var before := if startNode == endNode then e < s else endBeforeStart;
      if before then Ok(Range(end, end)) else Ok(Range(start, end))
  }

  /** The common call `createRange(node, node, a, b)` with `0 <= a <= b <= length`
      selects exactly `[a, b)`; a negative start is read as 0. */
  lemma CreateRangeWithinNode(node: NodeRef, length: nat, a: int, b: int)
    requires a <= b && 0 <= b <= length < TwoTo32
    ensures CreateRange(node, length, node, length, a, b, false) ==
      Ok(Range(Boundary(node, if a < 0 then 0 else a), Boundary(node, b)))
  {
  }
}
