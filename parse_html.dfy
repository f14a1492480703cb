/**
 * The HTML/XML extractor: the tree lxml builds, walked in document order,
 * keeping each element's stripped non-blank text and then its stripped
 * non-blank tail. Reading the file and the two lxml parsers are
 * parameters: their results, or the message of the exception they raised.
 */
module ParseHtml {
  import opened Wrappers
  import opened Text
  import opened Seqs

  type Bytes = seq<int>

  /**
   * An element: its .text, its .tail, and its children in document order.
   * A missing text or tail (None) is the empty string here: the walk skips
   * both alike.
   */
  datatype Element = Element(text: string, tail: string, children: seq<Element>)

  /** tree.iter(): the element, then each child's subtree, in document order. */
  function Iter(e: Element): (r: seq<Element>)
    ensures |r| >= 1 && r[0] == e
    decreases e, 1
  {
    [e] + IterChildren(e, |e.children|)
  }

  /** The subtrees of the first n children. */
  function IterChildren(e: Element, n: nat): seq<Element>
    requires n <= |e.children|
    decreases e, 0, n
  {
    if n == 0 then [] else IterChildren(e, n - 1) + Iter(e.children[n - 1])
  }

  /** Every element of a child's subtree is visited in the parent's walk. */
  lemma {:induction false} SubtreesVisited(e: Element, n: nat, j: nat)
    requires j < n <= |e.children|
    ensures forall x :: x in Iter(e.children[j]) ==> x in IterChildren(e, n)
    decreases n
  {
    if j < n - 1 {
      SubtreesVisited(e, n - 1, j);
    }
  }

  lemma ChildrenVisited(e: Element, j: nat)
    requires j < |e.children|
    ensures forall x :: x in Iter(e.children[j]) ==> x in Iter(e)
  {
    SubtreesVisited(e, |e.children|, j);
  }

  /** A non-blank string, stripped. */
  function Part(s: string): seq<string>
  {
    if AllSpace(s) then [] else [Strip(s)]
  }

  /** One element's parts: its text, then its tail. */
  function ElementParts(e: Element): seq<string>
  {
    Part(e.text) + Part(e.tail)
  }

  /** The parts of the elements, in order. */
  function Parts(elements: seq<Element>): seq<string>
  {
    FlatMap(elements, ElementParts)
  }

  const NullTreeMessage: string := "Error reading HTML/XML: could not parse file"

  /** etree.HTML, falling back to etree.fromstring when it raises. */
  function ParseTree(raw: Bytes, html: Bytes -> Result<Option<Element>>, xml: Bytes -> Result<Option<Element>>)
    : Result<Option<Element>>
  {
    if html(raw).Ok? then html(raw) else xml(raw)
  }

  /** extract_text_from_html */
  function ExtractHtml(read: Result<Bytes>, html: Bytes -> Result<Option<Element>>, xml: Bytes -> Result<Option<Element>>)
    : (r: string)
    ensures read.Err? ==> r == "Error reading HTML/XML: " + read.message
    ensures read.Ok? && ParseTree(read.value, html, xml) == Ok(None) ==> r == NullTreeMessage
    ensures read.Ok? && ParseTree(read.value, html, xml).Err? ==>
      r == "Error reading HTML/XML: " + ParseTree(read.value, html, xml).message
  {
    match read
    case Err(e) => "Error reading HTML/XML: " + e
    case Ok(raw) =>
      match ParseTree(raw, html, xml)
      case Err(e) => "Error reading HTML/XML: " + e
      case Ok(None) => NullTreeMessage
      case Ok(Some(tree)) => Join(Parts(Iter(tree)), "\n")
  }

  lemma PartStripped(s: string)
    ensures |Part(s)| <= 1
    ensures forall i :: 0 <= i < |Part(s)| ==> Stripped(Part(s)[i])
  {
    if !AllSpace(s) {
      StripNonBlank(s);
    }
  }

  /** Each part of an element is non-empty, with no whitespace at either end. */
  lemma ElementPartsStripped(e: Element)
    ensures |ElementParts(e)| <= 2
    ensures forall i :: 0 <= i < |ElementParts(e)| ==> Stripped(ElementParts(e)[i])
  {
    PartStripped(e.text);
    PartStripped(e.tail);
    var a, b := Part(e.text), Part(e.tail);
    forall i | 0 <= i < |a + b| ensures Stripped((a + b)[i]) {
      if i >= |a| { assert (a + b)[i] == b[i - |a|]; }
    }
  }

  /** No part is empty or has whitespace at either end, and there are at most two per element. */
  lemma PartsStripped(elements: seq<Element>)
    ensures |Parts(elements)| <= 2 * |elements|
    ensures forall i :: 0 <= i < |Parts(elements)| ==> Stripped(Parts(elements)[i])
  {
    forall i | 0 <= i < |elements|
      ensures |ElementParts(elements[i])| <= 2 && forall j :: 0 <= j < |ElementParts(elements[i])| ==> Stripped(ElementParts(elements[i])[j])
    {
      ElementPartsStripped(elements[i]);
    }
    FlatMapAll(elements, ElementParts, Stripped, 2);
  }

  /** The root's own text and tail come first, before anything from its children. */
  lemma RootFirst(tree: Element)
    ensures Parts(Iter(tree)) == ElementParts(tree) + Parts(IterChildren(tree, |tree.children|))
  {
    FlatMapCons(tree, IterChildren(tree, |tree.children|), ElementParts);
  }

  /** A parsed tree gives its parts joined with newlines: none empty, none with edge whitespace, at most two per element. */
  lemma ParsedTreeText(raw: Bytes, html: Bytes -> Result<Option<Element>>, xml: Bytes -> Result<Option<Element>>, tree: Element)
    requires ParseTree(raw, html, xml) == Ok(Some(tree))
    ensures exists parts ::
      && ExtractHtml(Ok(raw), html, xml) == Join(parts, "\n")
      && |parts| <= 2 * |Iter(tree)|
      && forall i :: 0 <= i < |parts| ==> Stripped(parts[i])
  {
    PartsStripped(Iter(tree));
    assert ExtractHtml(Ok(raw), html, xml) == Join(Parts(Iter(tree)), "\n");
  }

  /** The XML parser is used only when the HTML parser raises. */
  lemma XmlOnlyAsFallback(raw: Bytes, html: Bytes -> Result<Option<Element>>, xml: Bytes -> Result<Option<Element>>)
    ensures html(raw).Ok? ==> ParseTree(raw, html, xml) == html(raw)
    ensures html(raw).Err? ==> ParseTree(raw, html, xml) == xml(raw)
  {
  }

  /** One iteration of the walk: the element's stripped text, then its stripped tail, when not empty. */
  method VisitElement(element: Element) returns (more: seq<string>)
    ensures more == ElementParts(element)
  {
    more := [];
    var text := Strip(element.text);
    StripEmpty(element.text);
    if text != "" {
      more := more + [text];
    }
    assert more == Part(element.text);
    ghost var first := more;
    var tail := Strip(element.tail);
    StripEmpty(element.tail);
    if tail != "" {
      more := more + [tail];
    }
    assert more == first + Part(element.tail);
  }

  /** The walk over `tree.iter()`, appending to `parts`. */
  method CollectParts(elements: seq<Element>) returns (parts: seq<string>)
    ensures parts == Parts(elements)
  {
    parts := [];
    for i := 0 to |elements|
      invariant parts == Parts(elements[..i])
    {
      assert elements[..i + 1][..i] == elements[..i];
      var more := VisitElement(elements[i]);
      parts := parts + more;
    }
    assert elements[..|elements|] == elements;
  }

  /** extract_text_from_html as the source runs it. */
  method ExtractHtmlText(read: Result<Bytes>, html: Bytes -> Result<Option<Element>>, xml: Bytes -> Result<Option<Element>>)
    returns (text: string)
    ensures text == ExtractHtml(read, html, xml)
  {
    if read.Err? {
      return "Error reading HTML/XML: " + read.message;
    }
    var tree := html(read.value);
    if tree.Err? {
      tree := xml(read.value);
    }
    if tree.Err? {
      return "Error reading HTML/XML: " + tree.message;
    }
    if tree.value.None? {
      return NullTreeMessage;
    }
    var parts := CollectParts(Iter(tree.value.value));
    text := Join(parts, "\n");
  }
}
