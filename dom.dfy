/**
 * The XML nodes the converter reads. A node carries the attributes of the
 * `Node` interface of the Document Object Model Level 2 Core (section 1.2)
 * that the conversion looks at; `prefix` and `namespaceURI` are "" where the
 * DOM has null. The node type codes are the ones that interface defines.
 */
module Dom {
  import opened Wrappers

  const ELEMENT_NODE: nat := 1
  const ATTRIBUTE_NODE: nat := 2
  const TEXT_NODE: nat := 3
  const CDATA_SECTION_NODE: nat := 4
  const COMMENT_NODE: nat := 8
  const DOCUMENT_NODE: nat := 9

  datatype Node = Node(
    nodeType: nat,
    nodeName: string,
    localName: string,
    prefix: string,
    namespaceURI: string,
    nodeValue: string,
    attributes: seq<Node>,
    childNodes: seq<Node>)

  /** `document.documentElement`: the first element among a document's children, if any. */
  function DocumentElement(children: seq<Node>): (r: Option<Node>)
    ensures r.Some? ==> r.value in children && r.value.nodeType == ELEMENT_NODE
    ensures r.None? ==> forall i :: 0 <= i < |children| ==> children[i].nodeType != ELEMENT_NODE
  {
    if children == [] then None
    else if children[0].nodeType == ELEMENT_NODE then Some(children[0])
    else DocumentElement(children[1..])
  }

  /** A measure that decreases from a node to each of its children. */
  function NodeSize(n: Node): nat
  {
    1 + NodesSize(n.childNodes)
  }

  function NodesSize(ns: seq<Node>): nat
  {
    if ns == [] then 0 else NodesSize(ns[..|ns| - 1]) + NodeSize(ns[|ns| - 1])
  }

  lemma {:induction false} NodesSizePrefix(ns: seq<Node>, j: nat)
    requires j < |ns|
    ensures NodesSize(ns[..j]) + NodeSize(ns[j]) <= NodesSize(ns[..j + 1])
    ensures NodesSize(ns[..j + 1]) <= NodesSize(ns)
    decreases |ns|
  {
    assert ns[..j + 1][..j] == ns[..j];
    if j + 1 < |ns| {
      NodesSizePrefix(ns[..|ns| - 1], j);
      assert ns[..|ns| - 1][..j + 1] == ns[..j + 1];
    } else {
      assert ns[..j + 1] == ns;
    }
  }

  /** A name without the characters JXON reserves as markers ('@', '#', '*'), as XML names are. */
  predicate XmlName(s: string)
  {
    '@' !in s && '#' !in s && '*' !in s
  }

  predicate NamedNode(n: Node)
  {
    XmlName(n.prefix) && XmlName(n.localName) && XmlName(n.nodeName)
  }

  /** A tree as the DOM builds one: no document node below its root. */
  predicate Tree(n: Node)
  {
    forall i :: 0 <= i < |n.childNodes| ==>
      n.childNodes[i].nodeType != DOCUMENT_NODE && Tree(n.childNodes[i])
  }

  /**
   * A tree whose element and attribute names are XML names, which never
   * contain the characters JXON uses as markers.
   */
  predicate WellFormed(n: Node)
  {
    Tree(n)
    && (n.nodeType == ELEMENT_NODE ==> NamedNode(n))
    && (n.nodeType == ATTRIBUTE_NODE ==> NamedNode(n))
    && (forall i :: 0 <= i < |n.attributes| ==> NamedNode(n.attributes[i]))
    && (forall i :: 0 <= i < |n.childNodes| ==> WellFormed(n.childNodes[i]))
  }
}
