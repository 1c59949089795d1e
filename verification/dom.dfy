/**
 * The tree abstraction of namespace `xml::dom` (xmldom.hpp): the parsed
 * document as the parser hands it over, the wrapper nodes the binding engine
 * works with, the factory that picks a wrapper by node type, and the
 * parser's outcome.
 */
module Dom {
  import opened Wrappers
  import opened Support

  /** The node types a DOM node reports through `getNodeType`. */
  datatype NodeType =
    | ElementNode | AttributeNode | TextNode | CDataSectionNode
    | EntityReferenceNode | EntityNode | ProcessingInstructionNode | CommentNode
    | DocumentNode | DocumentTypeNode | DocumentFragmentNode | NotationNode

  /**
   * A node of the parsed document: its type, its name, its own value (the
   * character data of a text node) and its children in document order.
   */
  datatype DomNode = DomNode(nodeType: NodeType, nodeName: string, nodeValue: string, children: seq<DomNode>)

  /** The three wrapper classes derived from `dom::node`. */
  datatype WrapperClass = Element | Attribute | TextWrapper

  /**
   * A wrapper (`dom::node`): the name and text value taken from the DOM node
   * when it was built, and the wrapped DOM node itself (`xerces_node()`),
   * None for a null pointer.
   */
  datatype Node = Node(cls: WrapperClass, name: string, value: string, source: Option<DomNode>)

  /** The text of the first child that is a text node; empty when there is none. */
  function FirstText(children: seq<DomNode>): string {
    if children == [] then ""
    else if children[0].nodeType == TextNode then children[0].nodeValue
    else FirstText(children[1..])
  }

  /**
   * The value of a node is the text of its first TEXT child, and only that:
   * text children after it are ignored; without a text child it is empty.
   */
  lemma {:induction false} FirstTextIsFirstTextChild(children: seq<DomNode>)
    ensures (forall i | 0 <= i < |children| :: children[i].nodeType != TextNode) ==> FirstText(children) == ""
    ensures forall i | 0 <= i < |children| && children[i].nodeType == TextNode
                   && (forall j | 0 <= j < i :: children[j].nodeType != TextNode)
              :: FirstText(children) == children[i].nodeValue
  {
    if children != [] && children[0].nodeType != TextNode {
      FirstTextIsFirstTextChild(children[1..]);
      forall i | 0 < i < |children| && children[i].nodeType == TextNode
                 && (forall j | 0 <= j < i :: children[j].nodeType != TextNode)
        ensures FirstText(children) == children[i].nodeValue
      {
        assert children[1..][i - 1] == children[i];
        assert forall j | 0 <= j < i - 1 :: children[1..][j] == children[j + 1];
      }
      if forall i | 0 <= i < |children| :: children[i].nodeType != TextNode {
        assert forall i | 0 <= i < |children[1..]| :: children[1..][i] == children[i + 1];
      }
    }
  }

  /** The wrapper the constructor of class `cls` builds for the DOM pointer `x`. */
  function Wrap(cls: WrapperClass, x: Option<DomNode>): (n: Node)
    ensures n.cls == cls && n.source == x
    ensures x.None? ==> n.name == "" && n.value == ""
    ensures x.Some? ==> n.name == x.value.nodeName
    ensures x.Some? && (forall i | 0 <= i < |x.value.children| :: x.value.children[i].nodeType != TextNode) ==> n.value == ""
    ensures x.Some? ==> forall i | 0 <= i < |x.value.children| && x.value.children[i].nodeType == TextNode
                           && (forall j | 0 <= j < i :: x.value.children[j].nodeType != TextNode)
                        :: n.value == x.value.children[i].nodeValue
  {
    match x
    case None => Node(cls, "", "", None)
    case Some(d) =>
      FirstTextIsFirstTextChild(d.children);
      Node(cls, d.nodeName, FirstText(d.children), x)
  }

  /**
   * The `dom::node` constructor: a null pointer gives an empty name and value;
   * otherwise the name is the DOM node's name, and the loop over the children
   * stops at the first text node and takes its text as the value.
   */
  method NewNode(cls: WrapperClass, x: Option<DomNode>) returns (n: Node)
    ensures n == Wrap(cls, x)
  {
    if x.None? {
      return Node(cls, "", "", None);
    }
    var d := x.value;
    var value := "";
    var i := 0;
    while i < |d.children|
      invariant 0 <= i <= |d.children|
      invariant FirstText(d.children[i..]) == FirstText(d.children)
      invariant value == ""
    {
      if d.children[i].nodeType == TextNode {
        value := d.children[i].nodeValue;
        break;
      }
      assert d.children[i..][1..] == d.children[i + 1..];
      i := i + 1;
    }
    n := Node(cls, d.nodeName, value, x);
  }

  /** The node types the factory has a wrapper class for. */
  predicate Wrapped(t: NodeType) {
    t == ElementNode || t == AttributeNode || t == TextNode
  }

  function ClassOf(t: NodeType): WrapperClass
    requires Wrapped(t)
  {
    match t
    case ElementNode => Element
    case AttributeNode => Attribute
    case TextNode => TextWrapper
  }

  /**
   * `node_factory::create`: null for a null pointer; an `element`,
   * `attribute` or `text_node` wrapper for those three node types; null for
   * any other type.
   */
  function Create(x: Option<DomNode>): (r: Option<Node>)
    ensures x.None? ==> r.None?
    ensures x.Some? ==> (r.Some? <==> Wrapped(x.value.nodeType))
    ensures r.Some? ==> r.value.source == x && r.value.name == x.value.nodeName
    ensures r.Some? && x.value.nodeType == ElementNode ==> r.value.cls == Element
    ensures r.Some? && x.value.nodeType == AttributeNode ==> r.value.cls == Attribute
    ensures r.Some? && x.value.nodeType == TextNode ==> r.value.cls == TextWrapper
  {
    match x
    case None => None
    case Some(d) => if Wrapped(d.nodeType) then Some(Wrap(ClassOf(d.nodeType), x)) else None
  }

  /**
   * What the DOM parser did with the content: built a document (whose
   * document element may be missing), or threw one of the exceptions
   * `parse` catches.
   */
  datatype ParseOutcome =
    | Document(documentElement: Option<DomNode>)
    | OutOfMemory
    | XmlError
    | OtherError

  /** `dom::parser`: keeps the wrapper of the last parsed document element. */
  class Parser {
    var root: Option<Node>

    constructor ()
      ensures root == None
    {
      root := None;
    }

    /**
     * `parse`: on a document, wrap its document element as an `element`,
     * store it as the root and answer true; on any caught exception answer
     * false and keep the earlier root. `err` is not written (it is not in
     * the frame): the handlers only carry a comment about it.
     */
    method Parse(err: ErrorCode, outcome: ParseOutcome) returns (ok: bool)
      modifies this
      ensures ok == outcome.Document?
      ensures ok ==> root == Some(Wrap(Element, outcome.documentElement))
      ensures !ok ==> root == old(root)
    {
      match outcome {
        case Document(elem) =>
          var n := NewNode(Element, elem);
          root := Some(n);
          ok := true;
        case _ =>
          ok := false;
      }
    }

    /** `root()`: the wrapper of the last parsed document element, null before any successful parse. */
    function Root(): (r: Option<Node>)
      reads this
      ensures r == root
    {
      root
    }
  }
}
