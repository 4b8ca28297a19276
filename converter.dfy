/**
 * The converter (JXON.js:33-43, 91-191, 434-454): it walks a DOM node and
 * builds the verbose JXON object,
 *   an element      -> {qname: {"@attr": value, "#NAMESPACE": {alias: uri}, "children": [...]}}
 *   an attribute    -> {"@qname": value}
 *   text/CDATA/comment -> {"#TEXT" | "#CDATA" | "#COMMENT": raw value}
 * Namespace declarations (`xmlns`, `xmlns:a`) go to "#NAMESPACE" and, when the
 * caller passed one, into a namespace map shared by the whole walk. That map is
 * a single mutable object in the source; here it is threaded through the walk
 * and returned, which is what the later siblings and descendants observe.
 */
module Converter {
  import opened Wrappers
  import opened Json
  import opened JsText
  import opened Dom

  /** The namespace map (alias -> URI, in insertion order), or `None` when the caller passed none. */
  type Namespaces = Option<seq<Field>>

  /** Position of the first alias whose URI is `uri` (`for (prefix in namespaces)` with `break`), or `|ns|`. */
  function AliasIndex(ns: seq<Field>, uri: string): (i: nat)
    ensures i <= |ns|
    ensures i < |ns| ==> ns[i].val == Str(uri)
    ensures forall j :: 0 <= j < i ==> ns[j].val != Str(uri)
  {
    if ns == [] then 0
    else if ns[0].val == Str(uri) then 0
    else 1 + AliasIndex(ns[1..], uri)
  }

  /**
   * `getPrefix` (lines 434-454): the node's own prefix; else, when its name
   * differs from its local name, the text before the first ':' of the name;
   * else, for a namespaced node and a passed map, the first alias bound to
   * its namespace URI. "" stands for `undefined` (no prefix).
   */
  function GetPrefix(node: Node, ns: Namespaces): string
  {
    if node.prefix != "" then node.prefix
    else if node.nodeName != node.localName then Split(node.nodeName, ':')[0]
    else if node.namespaceURI != "" && ns.Some? then
      var i := AliasIndex(ns.value, node.namespaceURI);
      if i < |ns.value| then ns.value[i].key else ""
    else ""
  }

  /** `prefix && (name += prefix + ":"); name += localName`. */
  function QualifiedName(prefix: string, localName: string): string
  {
    if prefix != "" then prefix + ":" + localName else localName
  }

  /** The one field of a converted attribute: `"@" + qualified name` -> value (lines 145-155). */
  function AttributeField(node: Node, ns: Namespaces): Field
  {
    Field("@" + QualifiedName(GetPrefix(node, ns), node.localName), Str(node.nodeValue))
  }

  /** converters["#ATTRIBUTE"]. */
  function ConvertAttribute(node: Node, ns: Namespaces): (r: Json)
    ensures r.Obj? && |r.fields| == 1
    ensures |r.fields[0].key| > 0 && r.fields[0].key[0] == '@' && r.fields[0].val == Str(node.nodeValue)
    ensures node.prefix != "" ==> r.fields[0].key == "@" + node.prefix + ":" + node.localName
  {
    Obj([AttributeField(node, ns)])
  }

  /**
   * converters["#TEXT"], ["#CDATA"] and ["#COMMENT"] (lines 157-179): the raw
   * value, untrimmed, under the marker of the node's kind.
   */
  function ConvertCharacterData(marker: string, node: Node): (r: Json)
    requires marker in {"#TEXT", "#CDATA", "#COMMENT"}
    ensures r.Obj? && |r.fields| == 1 && r.fields[0].key == marker
    ensures Get(r.fields, marker) == Some(Str(node.nodeValue))
  {
    Obj([Field(marker, Str(node.nodeValue))])
  }

  /** The marker of a character-data node type, or "" for the other types. */
  function CharacterDataMarker(nodeType: nat): string
  {
    if nodeType == TEXT_NODE then "#TEXT"
    else if nodeType == CDATA_SECTION_NODE then "#CDATA"
    else if nodeType == COMMENT_NODE then "#COMMENT"
    else ""
  }

  /** The alias a declaration attribute key declares: the text after ':' in "@xmlns:a", else "" (`alias || ""`). */
  function DeclaredAlias(name: string): string
  {
    match Part(Split(name, ':'), 1)
    case Some(alias) => alias
    case None => ""
  }

  /** The namespace declarations gathered so far ("#NAMESPACE" is created empty at the first one). */
  function Declarations(props: seq<Field>): seq<Field>
  {
    match Get(props, "#NAMESPACE")
    case Some(Obj(decls)) => decls
    case _ => []
  }

  /**
   * One attribute of an element (lines 108-123): a key starting with
   * "@xmlns" is a namespace declaration, recorded in "#NAMESPACE" and in the
   * passed map; any other key is copied into the properties. The attribute
   * converter is called without a namespace map.
   */
  function AddAttribute(props: seq<Field>, ns: Namespaces, attribute: Node): (seq<Field>, Namespaces)
  {
    var f := AttributeField(attribute, None);
    if StartsWith(f.key, "@xmlns") then
      var alias := DeclaredAlias(f.key);
      (Set(props, "#NAMESPACE", Obj(Set(Declarations(props), alias, f.val))),
       if ns.Some? then Some(Set(ns.value, alias, f.val)) else None)
    else
      (Set(props, f.key, f.val), ns)
  }

  /** The properties and the namespace map after the attributes `attrs`, in order. */
  function Attributes(attrs: seq<Node>, ns: Namespaces): (seq<Field>, Namespaces)
  {
    if attrs == [] then ([], ns)
    else
      var (props, ns1) := Attributes(attrs[..|attrs| - 1], ns);
      AddAttribute(props, ns1, attrs[|attrs| - 1])
  }

  /**
   * The converted children `cs`, in document order, and the namespace map
   * after them (lines 128-137): a child whose node type has no converter is
   * skipped; a converted child is never an empty object, so every converted
   * child is kept.
   */
  function Children(cs: seq<Node>, ns: Namespaces): (seq<Json>, Namespaces)
    requires forall i :: 0 <= i < |cs| ==> cs[i].nodeType != DOCUMENT_NODE && Tree(cs[i])
    decreases NodesSize(cs), 1
  {
    if cs == [] then ([], ns)
    else
      assert NodesSize(cs) == NodesSize(cs[..|cs| - 1]) + NodeSize(cs[|cs| - 1]);
      var (done, ns1) := Children(cs[..|cs| - 1], ns);
      var c := cs[|cs| - 1];
      if c.nodeType == ELEMENT_NODE then
        var (r, ns2) := Element(c, ns1);
        (done + [r], ns2)
      else if c.nodeType == ATTRIBUTE_NODE then
        (done + [ConvertAttribute(c, ns1)], ns1)
      else if CharacterDataMarker(c.nodeType) != "" then
        (done + [ConvertCharacterData(CharacterDataMarker(c.nodeType), c)], ns1)
      else
        (done, ns1)
  }

  /**
   * converters["#ELEMENT"] (lines 99-143): the element's qualified name
   * (prefix resolved before its own declarations are read) holding its
   * attributes, declarations and, when it has child nodes, "children".
   */
  function Element(node: Node, ns: Namespaces): (Json, Namespaces)
    requires Tree(node)
    decreases NodeSize(node), 0
  {
    var name := QualifiedName(GetPrefix(node, ns), node.localName);
    var (props, ns1) := Attributes(node.attributes, ns);
    if node.childNodes == [] then
      (Obj([Field(name, Obj(props))]), ns1)
    else
      var (children, ns2) := Children(node.childNodes, ns1);
      (Obj([Field(name, Obj(Set(props, "children", Arr(children))))]), ns2)
  }

  /**
   * converters["#ELEMENT"] as the source runs it (lines 99-143): the
   * element's name, then its attributes and its child nodes, each in order
   * (`y.forEach`); "children" is set only when there are child nodes.
   */
  method ConvertElement(node: Node, ns: Namespaces) returns (r: Json, namespaces: Namespaces)
    requires Tree(node)
    ensures (r, namespaces) == Element(node, ns)
    decreases NodeSize(node), 2
  {
    var name := QualifiedName(GetPrefix(node, ns), node.localName);
    var properties;
    properties, namespaces := ConvertAttributes(node.attributes, ns);
    if node.childNodes != [] {
      var children;
      children, namespaces := ConvertChildren(node.childNodes, namespaces);
      properties := Set(properties, "children", Arr(children));
    }
    r := Obj([Field(name, Obj(properties))]);
  }

  /**
   * The attribute loop of the element converter (lines 108-124): each
   * attribute is converted to a one-key object, whose one key `forOwn`
   * visits; a declaration goes to "#NAMESPACE" and to the namespace map.
   */
  method ConvertAttributes(attributes: seq<Node>, ns: Namespaces) returns (properties: seq<Field>, namespaces: Namespaces)
    ensures (properties, namespaces) == Attributes(attributes, ns)
  {
    properties := [];
    namespaces := ns;
    var i := 0;
    assert attributes[..0] == [];
    while i < |attributes|
      invariant i <= |attributes|
      invariant properties == Attributes(attributes[..i], ns).0
      invariant namespaces == Attributes(attributes[..i], ns).1
    {
      ghost var done := attributes[..i + 1];
      assert done[..i] == attributes[..i] && done[i] == attributes[i];
      ghost var next := Attributes(done, ns);
      var f := ConvertAttribute(attributes[i], None).fields[0];
      if StartsWith(f.key, "@xmlns") {
        var alias := DeclaredAlias(f.key);
        properties := Set(properties, "#NAMESPACE", Obj(Set(Declarations(properties), alias, f.val)));
        if namespaces.Some? {
          namespaces := Some(Set(namespaces.value, alias, f.val));
        }
      } else {
        properties := Set(properties, f.key, f.val);
      }
      assert properties == next.0 && namespaces == next.1;
      i := i + 1;
      assert attributes[..i] == done;
    }
    assert attributes[..i] == attributes;
  }

  /**
   * The child loop of the element converter (lines 126-140): each child
   * whose node type has a converter is converted with the current
   * namespace map and pushed; the others are passed over.
   */
  method ConvertChildren(cs: seq<Node>, ns: Namespaces) returns (children: seq<Json>, namespaces: Namespaces)
    requires forall i :: 0 <= i < |cs| ==> cs[i].nodeType != DOCUMENT_NODE && Tree(cs[i])
    ensures (children, namespaces) == Children(cs, ns)
    decreases NodesSize(cs), 3
  {
    children := [];
    namespaces := ns;
    var j := 0;
    while j < |cs|
      invariant j <= |cs|
      invariant (children, namespaces) == Children(cs[..j], ns)
    {
      var child := cs[j];
      NodesSizePrefix(cs, j);
      if child.nodeType == ELEMENT_NODE {
        var converted;
        converted, namespaces := ConvertElement(child, namespaces);
        children := children + [converted];
      } else if child.nodeType == ATTRIBUTE_NODE {
        children := children + [ConvertAttribute(child, namespaces)];
      } else if CharacterDataMarker(child.nodeType) != "" {
        children := children + [ConvertCharacterData(CharacterDataMarker(child.nodeType), child)];
      }
      assert cs[..j + 1][..j] == cs[..j];
      j := j + 1;
    }
    assert cs[..j] == cs;
  }
}
