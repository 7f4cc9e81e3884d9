/** `applyHighlight`, the recursive copy that a big condition's selected
    fragment goes through before it is put back into the document: every text
    node becomes a highlight span holding the same text, every element is
    rebuilt with its tag, its attributes and its highlighted children, and
    every other kind of node is dropped. */
module Highlight {
  import opened Strings

  datatype Attr = Attr(name: string, value: string)

  /** The part of a DOM tree the copy looks at: text nodes, elements, and any
      other kind of node (comments, processing instructions, ...). */
  datatype Node =
    | TextNode(data: string)
    | ElementNode(tagName: string, attributes: seq<Attr>, childNodes: seq<Node>)
    | OtherNode

  /** The `span` that wraps a text node. */
  function HighlightSpan(data: string): Node {
    ElementNode("span", [], [TextNode(data)])
  }

  predicate IsHighlightSpan(n: Node) {
    n.ElementNode? && n.tagName == "span" && n.attributes == [] &&
    |n.childNodes| == 1 && n.childNodes[0].TextNode?
  }

  /** The copy of one node; `None` is the source's `null`. */
  function ApplyHighlight(n: Node): (r: Option<Node>)
    ensures r.None? <==> n.OtherNode?
    ensures n.TextNode? ==> r == Some(HighlightSpan(n.data))
    ensures n.ElementNode? ==> r.value.ElementNode? && r.value.tagName == n.tagName &&
                               r.value.attributes == n.attributes
    decreases n, 1
  {
    match n
    case TextNode(data) => Some(HighlightSpan(data))
    case ElementNode(tagName, attributes, childNodes) =>
      Some(ElementNode(tagName, attributes, ApplyHighlightAll(childNodes)))
    case OtherNode => None
  }

  /** `childNodes.forEach(child => { const c = applyHighlight(child); if (c) append(c) })` */
  function ApplyHighlightAll(ns: seq<Node>): (r: seq<Node>)
    ensures |r| <= |ns|
    decreases ns, 0
  {
    if ns == [] then []
    else
      var rest := ApplyHighlightAll(ns[1..]);
      match ApplyHighlight(ns[0])
      case Some(m) => [m] + rest
      case None => rest
  }

  // ------------------------------------------------------------ text content

  /** `textContent`: the text of all descendant text nodes, in document
      order; comments and processing instructions contribute nothing. */
  function TextContent(n: Node): string
    decreases n, 1
  {
    match n
    case TextNode(data) => data
    case ElementNode(_, _, childNodes) => TextContentAll(childNodes)
    case OtherNode => ""
  }

  function TextContentAll(ns: seq<Node>): string
    decreases ns, 0
  {
    if ns == [] then "" else TextContent(ns[0]) + TextContentAll(ns[1..])
  }

  /** The highlighted copy reads exactly like the original. */
  lemma {:induction false} ApplyHighlightPreservesText(n: Node)
    ensures TextContent(n) == match ApplyHighlight(n) case Some(m) => TextContent(m) case None => ""
    decreases n, 1
  {
    match n
    case TextNode(data) =>
      assert TextContentAll([TextNode(data)]) == data + TextContentAll([]);
    case ElementNode(_, _, childNodes) =>
      ApplyHighlightAllPreservesText(childNodes);
    case OtherNode =>
  }

  lemma {:induction false} ApplyHighlightAllPreservesText(ns: seq<Node>)
    ensures TextContentAll(ApplyHighlightAll(ns)) == TextContentAll(ns)
    decreases ns, 0
  {
    if ns != [] {
      ApplyHighlightPreservesText(ns[0]);
      ApplyHighlightAllPreservesText(ns[1..]);
      match ApplyHighlight(ns[0])
      case Some(m) =>
        var ms := [m] + ApplyHighlightAll(ns[1..]);
        assert ms[0] == m && ms[1..] == ApplyHighlightAll(ns[1..]);
      case None =>
    }
  }

  // --------------------------------------------------- structure preserved

  /** The original tree with the dropped kinds of node removed. */
  function Prune(n: Node): Option<Node>
    decreases n, 1
  {
    match n
    case TextNode(_) => Some(n)
    case ElementNode(tagName, attributes, childNodes) =>
      Some(ElementNode(tagName, attributes, PruneAll(childNodes)))
    case OtherNode => None
  }

  function PruneAll(ns: seq<Node>): seq<Node>
    decreases ns, 0
  {
    if ns == [] then []
    else
      var rest := PruneAll(ns[1..]);
      match Prune(ns[0])
      case Some(m) => [m] + rest
      case None => rest
  }

  /** Replaces every highlight span by the text node it wraps. */
  function Unwrap(n: Node): Node
    decreases n, 1
  {
    if IsHighlightSpan(n) then n.childNodes[0]
    else match n
      case ElementNode(tagName, attributes, childNodes) =>
        ElementNode(tagName, attributes, UnwrapAll(childNodes))
      case _ => n
  }

  function UnwrapAll(ns: seq<Node>): (r: seq<Node>)
    ensures |r| == |ns|
    decreases ns, 0
  {
    if ns == [] then [] else [Unwrap(ns[0])] + UnwrapAll(ns[1..])
  }

  /** Removing the highlight spans again gives the original tree without its
      dropped nodes: tags, attributes, texts and the order of children are
      all kept, and nothing but the dropped kinds is lost. */
  lemma {:induction false} UnwrapApplyHighlight(n: Node)
    ensures ApplyHighlight(n).None? <==> Prune(n).None?
    ensures ApplyHighlight(n).Some? ==> Unwrap(ApplyHighlight(n).value) == Prune(n).value
    decreases n, 1
  {
    match n
    case TextNode(_) =>
    case ElementNode(tagName, attributes, childNodes) =>
      var m := ApplyHighlight(n).value;
      UnwrapApplyHighlightAll(childNodes);
      // a rebuilt element never looks like a highlight span: a text child
      // of it would have been wrapped
      ApplyHighlightAllHasNoText(childNodes);
      assert !IsHighlightSpan(m);
    case OtherNode =>
  }

  lemma {:induction false} UnwrapApplyHighlightAll(ns: seq<Node>)
    ensures UnwrapAll(ApplyHighlightAll(ns)) == PruneAll(ns)
    decreases ns, 0
  {
    if ns != [] {
      UnwrapApplyHighlight(ns[0]);
      UnwrapApplyHighlightAll(ns[1..]);
      match ApplyHighlight(ns[0])
      case Some(m) =>
        var ms := [m] + ApplyHighlightAll(ns[1..]);
        assert ms[0] == m && ms[1..] == ApplyHighlightAll(ns[1..]);
      case None =>
    }
  }

  /** The copy contains no bare text node at its top level. */
  lemma {:induction false} ApplyHighlightAllHasNoText(ns: seq<Node>)
    ensures forall i :: 0 <= i < |ApplyHighlightAll(ns)| ==> ApplyHighlightAll(ns)[i].ElementNode?
    decreases ns
  {
    if ns != [] {
      ApplyHighlightAllHasNoText(ns[1..]);
    }
  }

  // ------------------------------------------------- every text highlighted

  /** Every text node of the tree sits directly inside a highlight span, and
      the tree holds no node of the dropped kinds. */
  predicate FullyHighlighted(n: Node)
    decreases n
  {
    match n
    case TextNode(_) => false
    case ElementNode(_, _, childNodes) =>
      IsHighlightSpan(n) || forall i :: 0 <= i < |childNodes| ==> FullyHighlighted(childNodes[i])
    case OtherNode => false
  }

  lemma {:induction false} ApplyHighlightIsFull(n: Node)
    ensures ApplyHighlight(n).Some? ==> FullyHighlighted(ApplyHighlight(n).value)
    decreases n, 1
  {
    match n
    case TextNode(_) =>
    case ElementNode(_, _, childNodes) =>
      ApplyHighlightAllIsFull(childNodes);
    case OtherNode =>
  }

  lemma {:induction false} ApplyHighlightAllIsFull(ns: seq<Node>)
    ensures forall i :: 0 <= i < |ApplyHighlightAll(ns)| ==> FullyHighlighted(ApplyHighlightAll(ns)[i])
    decreases ns, 0
  {
    if ns != [] {
      ApplyHighlightIsFull(ns[0]);
      ApplyHighlightAllIsFull(ns[1..]);
    }
  }
}
