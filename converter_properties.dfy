/**
 * What the element converter (JXON.js:99-155, 434-454) promises about the
 * object it builds:
 *   - a declaration attribute ("@xmlns", "@xmlns:a") ends up in
 *     "#NAMESPACE" under its alias (or ""), and in the passed namespace map;
 *   - any other attribute ends up under its "@" key, the last one of a key
 *     winning;
 *   - "children" is there exactly when the node has child nodes, and holds
 *     the converted children in document order, those without a converter
 *     left out;
 *   - the object of a tree whose names are XML names is a verbose object,
 *     which is what the compactor expects.
 */
module ConverterProperties {
  import opened Wrappers
  import opened Json
  import opened JsText
  import opened Dom
  import opened Converter
  import opened Compactor

  // ---------------------------------------------------------------------
  // Attributes and declarations
  // ---------------------------------------------------------------------

  /** An attribute key that declares a namespace (`name.indexOf("@xmlns") === 0`). */
  predicate Declaring(key: string)
  {
    StartsWith(key, "@xmlns")
  }

  /** The value of the last attribute of `attrs` stored under the key `k`, if any. */
  function LastAttribute(attrs: seq<Node>, k: string): Option<Json>
  {
    if attrs == [] then None
    else
      var f := AttributeField(attrs[|attrs| - 1], None);
      if !Declaring(f.key) && f.key == k then Some(f.val)
      else LastAttribute(attrs[..|attrs| - 1], k)
  }

  /** The URI of the last declaration of the alias `alias` among `attrs`, if any. */
  function LastDeclaration(attrs: seq<Node>, alias: string): Option<Json>
  {
    if attrs == [] then None
    else
      var f := AttributeField(attrs[|attrs| - 1], None);
      if Declaring(f.key) && DeclaredAlias(f.key) == alias then Some(f.val)
      else LastDeclaration(attrs[..|attrs| - 1], alias)
  }

  /** Some attribute of `attrs` declares a namespace. */
  predicate Declares(attrs: seq<Node>)
  {
    exists i :: 0 <= i < |attrs| && Declaring(AttributeField(attrs[i], None).key)
  }

  /** A converted attribute's key starts with '@', so it is neither "#NAMESPACE" nor "children". */
  lemma AttributeKeyAt(attribute: Node)
    ensures var key := AttributeField(attribute, None).key;
      StartsWith(key, "@") && key != "#NAMESPACE" && key != "children"
  {
    var key := AttributeField(attribute, None).key;
    assert key[0] == '@' && key[..1] == "@";
    assert "#NAMESPACE"[0] == '#' && "children"[0] == 'c';
  }

  /** The properties of the attribute loop after one more attribute. */
  lemma AttributesSnoc(attrs: seq<Node>, ns: Namespaces)
    requires attrs != []
    ensures var before := Attributes(attrs[..|attrs| - 1], ns).0;
      var f := AttributeField(attrs[|attrs| - 1], None);
      Attributes(attrs, ns).0 ==
        if Declaring(f.key) then Set(before, "#NAMESPACE", Obj(Set(Declarations(before), DeclaredAlias(f.key), f.val)))
        else Set(before, f.key, f.val)
  {
  }

  /**
   * The attribute loop (lines 108-124) builds an object whose keys are
   * "#NAMESPACE" and the "@" keys of the attributes that do not declare.
   */
  lemma {:induction false} AttributesKeys(attrs: seq<Node>, ns: Namespaces)
    ensures var props := Attributes(attrs, ns).0;
      && Unique(props)
      && (forall k :: k in Keys(props) ==> k == "#NAMESPACE" || (StartsWith(k, "@") && !Declaring(k)))
      && (Get(props, "#NAMESPACE").Some? ==>
            Get(props, "#NAMESPACE").value.Obj? && Unique(Get(props, "#NAMESPACE").value.fields))
    decreases |attrs|
  {
    if attrs != [] {
      var init := attrs[..|attrs| - 1];
      AttributesKeys(init, ns);
      AttributesSnoc(attrs, ns);
      AttributeKeyAt(attrs[|attrs| - 1]);
      var before := Attributes(init, ns).0;
      var props := Attributes(attrs, ns).0;
      forall k | k in Keys(props) ensures k == "#NAMESPACE" || (StartsWith(k, "@") && !Declaring(k)) {
        assert Get(props, k).Some?;
        if k != "#NAMESPACE" && k != AttributeField(attrs[|attrs| - 1], None).key {
          assert Get(before, k).Some?;
        }
      }
    }
  }

  /** Every attribute that does not declare is stored under its "@" key, the last one of a key winning. */
  lemma {:induction false} AttributesLast(attrs: seq<Node>, ns: Namespaces)
    ensures forall k :: k != "#NAMESPACE" ==> Get(Attributes(attrs, ns).0, k) == LastAttribute(attrs, k)
    decreases |attrs|
  {
    if attrs != [] {
      AttributesLast(attrs[..|attrs| - 1], ns);
      AttributesSnoc(attrs, ns);
      AttributeKeyAt(attrs[|attrs| - 1]);
    }
  }

  /** Every declaration is stored in "#NAMESPACE" under its alias, the last one of an alias winning. */
  lemma {:induction false} AttributesDeclare(attrs: seq<Node>, ns: Namespaces)
    ensures forall a :: Get(Declarations(Attributes(attrs, ns).0), a) == LastDeclaration(attrs, a)
    decreases |attrs|
  {
    if attrs != [] {
      AttributesDeclare(attrs[..|attrs| - 1], ns);
      AttributesSnoc(attrs, ns);
      AttributeKeyAt(attrs[|attrs| - 1]);
    }
  }

  /** Some of `attrs` declares exactly when some before the last does, or the last does. */
  lemma DeclaresSnoc(attrs: seq<Node>)
    requires attrs != []
    ensures Declares(attrs) <==>
      Declares(attrs[..|attrs| - 1]) || Declaring(AttributeField(attrs[|attrs| - 1], None).key)
  {
    var init := attrs[..|attrs| - 1];
    if Declares(init) {
      var i :| 0 <= i < |init| && Declaring(AttributeField(init[i], None).key);
      assert attrs[i] == init[i];
    }
    if Declares(attrs) {
      var i :| 0 <= i < |attrs| && Declaring(AttributeField(attrs[i], None).key);
      if i < |init| {
        assert attrs[i] == init[i];
      }
    }
  }

  /** "#NAMESPACE" is there exactly when some attribute declares a namespace. */
  lemma {:induction false} AttributesNamespace(attrs: seq<Node>, ns: Namespaces)
    ensures Get(Attributes(attrs, ns).0, "#NAMESPACE").Some? <==> Declares(attrs)
    decreases |attrs|
  {
    if attrs != [] {
      AttributesNamespace(attrs[..|attrs| - 1], ns);
      AttributesSnoc(attrs, ns);
      AttributeKeyAt(attrs[|attrs| - 1]);
      DeclaresSnoc(attrs);
    }
  }

  /**
   * The namespace map after the attribute loop: absent when none was
   * passed; otherwise each alias is bound to its last declaration among
   * `attrs`, or to what the map held before.
   */
  lemma {:induction false} NamespacesDeclared(attrs: seq<Node>, ns: Namespaces)
    ensures var ns' := Attributes(attrs, ns).1;
      && (ns'.Some? <==> ns.Some?)
      && (ns.Some? ==>
            (forall a :: Get(ns'.value, a) ==
               if LastDeclaration(attrs, a).Some? then LastDeclaration(attrs, a) else Get(ns.value, a)))
    decreases |attrs|
  {
    if attrs != [] {
      NamespacesDeclared(attrs[..|attrs| - 1], ns);
    }
  }

  // ---------------------------------------------------------------------
  // Children
  // ---------------------------------------------------------------------

  /** A node type the converter table has an entry for (lines 182-187), the document aside. */
  predicate Convertible(c: Node)
  {
    c.nodeType == ELEMENT_NODE || c.nodeType == ATTRIBUTE_NODE || CharacterDataMarker(c.nodeType) != ""
  }

  /** The children of `cs` that have a converter, in document order. */
  function ConvertibleChildren(cs: seq<Node>): (r: seq<Node>)
    ensures |r| <= |cs|
    ensures forall i :: 0 <= i < |r| ==> r[i] in cs && Convertible(r[i])
  {
    if cs == [] then []
    else
      var init := ConvertibleChildren(cs[..|cs| - 1]);
      assert forall x :: x in cs[..|cs| - 1] ==> x in cs;
      if Convertible(cs[|cs| - 1]) then init + [cs[|cs| - 1]] else init
  }

  /** One child, converted on its own, without a namespace map. */
  function ConvertedChild(c: Node): Json
    requires Convertible(c) && Tree(c)
  {
    if c.nodeType == ELEMENT_NODE then Element(c, None).0
    else if c.nodeType == ATTRIBUTE_NODE then ConvertAttribute(c, None)
    else ConvertCharacterData(CharacterDataMarker(c.nodeType), c)
  }

  /** Each of `cs` converted on its own. */
  function ConvertedEach(cs: seq<Node>): (r: seq<Json>)
    requires forall i :: 0 <= i < |cs| ==> Convertible(cs[i]) && Tree(cs[i])
    ensures |r| == |cs|
  {
    if cs == [] then [] else ConvertedEach(cs[..|cs| - 1]) + [ConvertedChild(cs[|cs| - 1])]
  }

  /** Without a namespace map, the attribute loop passes none on. */
  lemma {:induction false} AttributesKeepNone(attrs: seq<Node>)
    ensures Attributes(attrs, None).1 == None
    decreases |attrs|
  {
    if attrs != [] {
      AttributesKeepNone(attrs[..|attrs| - 1]);
    }
  }

  /** Without a namespace map, converting an element passes none on. */
  lemma {:induction false} ElementKeepsNone(node: Node)
    requires Tree(node)
    ensures Element(node, None).1 == None
    decreases NodeSize(node), 1
  {
    AttributesKeepNone(node.attributes);
    if node.childNodes != [] {
      ChildrenKeepNone(node.childNodes);
    }
  }

  /** Without a namespace map, converting children passes none on. */
  lemma {:induction false} ChildrenKeepNone(cs: seq<Node>)
    requires forall i :: 0 <= i < |cs| ==> cs[i].nodeType != DOCUMENT_NODE && Tree(cs[i])
    ensures Children(cs, None).1 == None
    decreases NodesSize(cs), 2
  {
    if cs != [] {
      assert NodesSize(cs) == NodesSize(cs[..|cs| - 1]) + NodeSize(cs[|cs| - 1]);
      ChildrenKeepNone(cs[..|cs| - 1]);
      if cs[|cs| - 1].nodeType == ELEMENT_NODE {
        ElementKeepsNone(cs[|cs| - 1]);
      }
    }
  }

  /**
   * The child loop (lines 126-140), as `convert` runs it, without a
   * namespace map: the children with a converter, each converted, in
   * document order; the others are left out.
   */
  lemma {:induction false} ChildrenInOrder(cs: seq<Node>)
    requires forall i :: 0 <= i < |cs| ==> cs[i].nodeType != DOCUMENT_NODE && Tree(cs[i])
    ensures Children(cs, None).0 == ConvertedEach(ConvertibleChildren(cs))
    decreases |cs|
  {
    if cs != [] {
      var init := cs[..|cs| - 1];
      var c := cs[|cs| - 1];
      ChildrenInOrder(init);
      ChildrenKeepNone(init);
      assert forall i :: 0 <= i < |init| ==> init[i] == cs[i];
      var filtered := ConvertibleChildren(init);
      if Convertible(c) {
        assert ConvertibleChildren(cs) == filtered + [c];
        assert (filtered + [c])[..|filtered|] == filtered;
      }
    }
  }

  // ---------------------------------------------------------------------
  // The element
  // ---------------------------------------------------------------------

  /** Properties keyed by "#NAMESPACE" and '@' keys hold no "children". */
  lemma NotChildren(props: seq<Field>)
    requires forall k :: k in Keys(props) ==> k == "#NAMESPACE" || (StartsWith(k, "@") && !Declaring(k))
    ensures "children" !in Keys(props) && Get(props, "children").None?
  {
    NotStartsWith("children", "@");
  }

  /**
   * converters["#ELEMENT"] (lines 99-143): one key, the qualified name;
   * "children" exactly when the node has child nodes, holding its
   * converted children; every other key as the attribute loop left it.
   */
  lemma ElementShape(node: Node, ns: Namespaces)
    requires Tree(node)
    ensures var r := Element(node, ns).0;
      && r.Obj? && |r.fields| == 1
      && r.fields[0].key == QualifiedName(GetPrefix(node, ns), node.localName)
      && r.fields[0].val.Obj?
    ensures var props := Element(node, ns).0.fields[0].val.fields;
      var (attributes, declared) := Attributes(node.attributes, ns);
      && (Get(props, "children").Some? <==> node.childNodes != [])
      && (node.childNodes != [] ==> Get(props, "children") == Some(Arr(Children(node.childNodes, declared).0)))
      && (forall k :: k != "children" ==> Get(props, k) == Get(attributes, k))
  {
    AttributesKeys(node.attributes, ns);
    NotChildren(Attributes(node.attributes, ns).0);
  }

  // ---------------------------------------------------------------------
  // The converted object is verbose
  // ---------------------------------------------------------------------

  /** The text before the first ':' of a name has only characters of the name. */
  lemma SplitHeadNamed(s: string)
    requires XmlName(s)
    ensures XmlName(Split(s, ':')[0])
  {
    var i := IndexOf(s, ':');
    assert Split(s, ':')[0] == s[..i];
    assert forall x :: x in s[..i] ==> x in s;
  }

  /** Without a namespace map, the prefix of a named node is an XML name. */
  lemma PrefixNamed(node: Node)
    requires NamedNode(node)
    ensures XmlName(GetPrefix(node, None))
  {
    if node.prefix == "" && node.nodeName != node.localName {
      SplitHeadNamed(node.nodeName);
    }
  }

  /** A qualified name of XML names has none of the marker characters. */
  lemma QualifiedNamed(p: string, local: string)
    requires XmlName(p) && XmlName(local)
    ensures XmlName(QualifiedName(p, local))
  {
    assert forall x :: x in p + ":" + local ==> x in p || x == ':' || x in local;
  }

  /** The key of a converted attribute of a named node is an attribute key. */
  lemma AttributeKeyNamed(attribute: Node)
    requires NamedNode(attribute)
    ensures AttrKey(AttributeField(attribute, None).key)
  {
    var name := QualifiedName(GetPrefix(attribute, None), attribute.localName);
    PrefixNamed(attribute);
    QualifiedNamed(GetPrefix(attribute, None), attribute.localName);
    var key := "@" + name;
    assert key[1..] == name;
    assert key[..1] == "@";
    assert name != "*" by { assert '*' in "*"; }
    assert !StartsWith(name, "#") by {
      assert |name| == 0 || name[0] in name;
    }
  }

  /** The attribute loop over named attributes builds verbose properties, children aside. */
  lemma AttributesVerbose(attrs: seq<Node>)
    requires forall i :: 0 <= i < |attrs| ==> NamedNode(attrs[i])
    ensures var props := Attributes(attrs, None).0;
      && Unique(props)
      && (forall k :: k in Keys(props) ==> k == "#NAMESPACE" || AttrKey(k))
      && (Get(props, "#NAMESPACE").Some? ==>
            Get(props, "#NAMESPACE").value.Obj? && Unique(Get(props, "#NAMESPACE").value.fields))
      && Get(props, "children").None?
  {
    AttributesKeys(attrs, None);
    AttributesLast(attrs, None);
    var props := Attributes(attrs, None).0;
    forall k | k in Keys(props) && k != "#NAMESPACE" ensures AttrKey(k) {
      assert Get(props, k) == LastAttribute(attrs, k);
      LastAttributeNamed(attrs, k);
    }
    NotChildren(props);
  }

  /** An attribute stored under `k` holds the text of an attribute node. */
  lemma {:induction false} LastAttributeText(attrs: seq<Node>, k: string)
    ensures LastAttribute(attrs, k).Some? ==> LastAttribute(attrs, k).value.Str?
    decreases |attrs|
  {
    if attrs != [] {
      LastAttributeText(attrs[..|attrs| - 1], k);
    }
  }

  /** An attribute stored under `k` comes from a named attribute, so `k` is an attribute key. */
  lemma {:induction false} LastAttributeNamed(attrs: seq<Node>, k: string)
    requires forall i :: 0 <= i < |attrs| ==> NamedNode(attrs[i])
    requires LastAttribute(attrs, k).Some?
    ensures AttrKey(k)
    decreases |attrs|
  {
    var attribute := attrs[|attrs| - 1];
    if AttributeField(attribute, None).key == k && !Declaring(k) {
      AttributeKeyNamed(attribute);
    } else {
      LastAttributeNamed(attrs[..|attrs| - 1], k);
    }
  }

  /**
   * The object `convert` builds for a well-formed element is a verbose
   * object (the compactor's "should not be compacted already"): its name
   * is not a '#' marker, its attribute keys are attribute keys, and its
   * children are verbose in turn.
   */
  lemma {:induction false} ConvertedIsVerbose(node: Node)
    requires WellFormed(node) && node.nodeType == ELEMENT_NODE
    ensures Verbose(Element(node, None).0)
    ensures Kind(Element(node, None).0.fields) == "#ELEMENT"
    decreases NodeSize(node), 1
  {
    var r := Element(node, None).0;
    ElementShape(node, None);
    AttributesVerbose(node.attributes);
    AttributesKeepNone(node.attributes);
    var name := QualifiedName(GetPrefix(node, None), node.localName);
    PrefixNamed(node);
    QualifiedNamed(GetPrefix(node, None), node.localName);
    assert Kind(r.fields) == "#ELEMENT" by {
      assert |name| == 0 || name[0] in name;
    }
    var props := r.fields[0].val.fields;
    var attributes := Attributes(node.attributes, None).0;
    if node.childNodes != [] {
      ChildrenVerboseOf(node);
      assert props == Set(attributes, "children", Arr(Children(node.childNodes, None).0));
      WithChildrenVerbose(attributes, Children(node.childNodes, None).0);
    } else {
      assert props == attributes;
      WithoutChildrenVerbose(attributes);
    }
    SizeOfFirst(r.fields);
  }

  /** Attribute properties without children are verbose properties. */
  lemma WithoutChildrenVerbose(props: seq<Field>)
    requires Unique(props) && Get(props, "children").None?
    requires forall k :: k in Keys(props) ==> k == "#NAMESPACE" || AttrKey(k)
    requires Get(props, "#NAMESPACE").Some? ==>
      Get(props, "#NAMESPACE").value.Obj? && Unique(Get(props, "#NAMESPACE").value.fields)
    ensures PropsVerbose(props)
  {
  }

  /** Attribute properties with a list of verbose children added are verbose properties. */
  lemma WithChildrenVerbose(props: seq<Field>, items: seq<Json>)
    requires Unique(props) && Get(props, "children").None?
    requires forall k :: k in Keys(props) ==> k == "#NAMESPACE" || AttrKey(k)
    requires Get(props, "#NAMESPACE").Some? ==>
      Get(props, "#NAMESPACE").value.Obj? && Unique(Get(props, "#NAMESPACE").value.fields)
    requires ChildrenVerbose(items)
    ensures PropsVerbose(Set(props, "children", Arr(items)))
  {
    var ps := Set(props, "children", Arr(items));
    assert "#NAMESPACE" != "children" by { assert |"#NAMESPACE"| != |"children"|; }
    forall k | k in Keys(ps) ensures k == "children" || k == "#NAMESPACE" || AttrKey(k) {
      assert Get(ps, k).Some?;
    }
  }

  /** The converted children of a well-formed element are verbose. */
  lemma {:induction false} ChildrenVerboseOf(node: Node)
    requires WellFormed(node) && node.childNodes != []
    ensures ChildrenVerbose(Children(node.childNodes, None).0)
    decreases NodeSize(node), 0
  {
    var cs := node.childNodes;
    ChildrenInOrder(cs);
    var filtered := ConvertibleChildren(cs);
    var converted := Children(cs, None).0;
    forall i | 0 <= i < |converted| ensures Verbose(converted[i]) {
      ConvertedEachAt(filtered, i);
      var c := filtered[i];
      var j :| 0 <= j < |cs| && cs[j] == c;
      if c.nodeType == ELEMENT_NODE {
        NodesSizePrefix(cs, j);
        ConvertedIsVerbose(c);
      } else if c.nodeType == ATTRIBUTE_NODE {
        assert ConvertAttribute(c, None).fields[0].key[0] == '@';
      }
    }
    forall i | 0 <= i < |converted| ensures (SizeOfItem(converted, i); Verbose(converted[i])) {
    }
  }

  /** `ConvertedEach` converts the child at each position. */
  lemma {:induction false} ConvertedEachAt(cs: seq<Node>, i: nat)
    requires forall j :: 0 <= j < |cs| ==> Convertible(cs[j]) && Tree(cs[j])
    requires i < |cs|
    ensures ConvertedEach(cs)[i] == ConvertedChild(cs[i])
    decreases |cs|
  {
    if i < |cs| - 1 {
      ConvertedEachAt(cs[..|cs| - 1], i);
    }
  }
}
