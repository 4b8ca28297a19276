/**
 * `JXON.convert` (JXON.js:33-43): the converter registered for the node's
 * type builds the verbose object, which is compacted unless the `compact`
 * argument is given and falsy. A node type without a converter throws
 * "Unsupported node type"; a document without a root element throws a
 * TypeError when the element converter reads `null.prefix`.
 */
module Jxon {
  import opened Wrappers
  import opened Json
  import opened JsText
  import opened Dom
  import opened Converter
  import opened Compactor
  import opened ConverterProperties
  import opened ElementCompaction
  import opened Detector

  /** The node types `converters` has an entry for (lines 182-187). */
  predicate Registered(nodeType: nat)
  {
    nodeType in {ELEMENT_NODE, ATTRIBUTE_NODE, TEXT_NODE, CDATA_SECTION_NODE, COMMENT_NODE, DOCUMENT_NODE}
  }

  /**
   * `compact || !y.isDefined(compact)`: `None` is an omitted or undefined
   * argument, `Some(b)` one whose truthiness is `b`.
   */
  predicate Compacting(flag: Option<bool>)
  {
    flag.None? || flag.value
  }

  /** A converted attribute is a verbose element whose value is a string. */
  lemma AttributeVerbose(node: Node)
    ensures Verbose(ConvertAttribute(node, None))
  {
  }

  /**
   * `converters[node.nodeType](node)`: the verbose object, or what is thrown
   * (lines 34-40, 95-97 and 182-187). It fails exactly for a type without
   * a converter and for a document without a root element.
   */
  function Verbatim(node: Node): (r: Result<Json, Failure>)
    requires WellFormed(node)
    ensures r == Err(UnsupportedNodeType(node.nodeType)) <==> !Registered(node.nodeType)
    ensures r == Err(TypeError) <==> node.nodeType == DOCUMENT_NODE && DocumentElement(node.childNodes).None?
    ensures r.Ok? ==> Verbose(r.value)
  {
    if node.nodeType == ELEMENT_NODE then
      ConvertedIsVerbose(node);
      Ok(Element(node, None).0)
    else if node.nodeType == ATTRIBUTE_NODE then
      AttributeVerbose(node);
      Ok(ConvertAttribute(node, None))
    else if CharacterDataMarker(node.nodeType) != "" then
      Ok(ConvertCharacterData(CharacterDataMarker(node.nodeType), node))
    else if node.nodeType == DOCUMENT_NODE then
      match DocumentElement(node.childNodes)
      case Some(root) =>
        ConvertedIsVerbose(root);
        Ok(Element(root, None).0)
      case None => Err(TypeError)
    else
      Err(UnsupportedNodeType(node.nodeType))
  }

  /**
   * What `convert(node, compact)` returns or throws; `reading` selects how
   * the compactor merges the texts of mixed content (line 223), and
   * `AsWritten` is `convert` as the source has it.
   */
  function Conversion(node: Node, flag: Option<bool>, reading: Reading): Result<Json, Failure>
    requires WellFormed(node)
  {
    match Verbatim(node)
    case Err(e) => Err(e)
    case Ok(verbose) => Ok(if Compacting(flag) then Compacted(verbose, reading) else verbose)
  }

  /** `convert` as the source runs it, under either reading of the compactor. */
  method Convert(node: Node, flag: Option<bool>, reading: Reading) returns (r: Result<Json, Failure>)
    requires WellFormed(node)
    ensures r == Conversion(node, flag, reading)
    ensures r.Ok? && !Compacting(flag) ==> Verbose(r.value)
  {
    var verbose: Json;
    var namespaces: Namespaces;
    if node.nodeType == ELEMENT_NODE {
      verbose, namespaces := ConvertElement(node, None);
    } else if node.nodeType == ATTRIBUTE_NODE {
      verbose := ConvertAttribute(node, None);
    } else if CharacterDataMarker(node.nodeType) != "" {
      verbose := ConvertCharacterData(CharacterDataMarker(node.nodeType), node);
    } else if node.nodeType == DOCUMENT_NODE {
      var root := DocumentElement(node.childNodes);
      if root.None? {
        return Err(TypeError);
      }
      verbose, namespaces := ConvertElement(root.value, None);
    } else {
      return Err(UnsupportedNodeType(node.nodeType));
    }
    assert Verbatim(node) == Ok(verbose);
    if Compacting(flag) {
      verbose := Compact(verbose, reading);
    }
    r := Ok(verbose);
  }

  /**
   * `compact(convert(node, false))` is `convert(node)`: converting without
   * compacting and compacting later gives the default conversion.
   */
  lemma CompactLater(node: Node, flag: Option<bool>, reading: Reading)
    requires WellFormed(node) && !Compacting(flag) && Conversion(node, flag, reading).Ok?
    ensures Verbose(Conversion(node, flag, reading).value)
    ensures Compacted(Conversion(node, flag, reading).value, reading) == Conversion(node, None, reading).value
  {
  }

  /** Every attribute of a converted element holds the attribute's text. */
  lemma ConvertedTextAttributes(node: Node)
    requires Tree(node)
    ensures TextAttributes(Element(node, None).0.fields[0].val.fields)
  {
    ElementShape(node, None);
    AttributesLast(node.attributes, None);
    var props := Element(node, None).0.fields[0].val.fields;
    NotStartsWith("children", "@");
    assert "#NAMESPACE"[0] != '@';
    NotStartsWith("#NAMESPACE", "@");
    forall k | k in Keys(props) && AttrKey(k) ensures Get(props, k).Some? && Get(props, k).value.Str? {
      LastAttributeText(node.attributes, k);
    }
  }

  /**
   * `isCompact` takes the default conversion of an element for compact,
   * unless the element collapsed to a string, on which it throws.
   */
  lemma ConvertedIsCompact(node: Node, reading: Reading)
    requires WellFormed(node) && node.nodeType == ELEMENT_NODE
    ensures var c := Conversion(node, None, reading);
      c.Ok? && c.value.Obj? && |c.value.fields| == 1
      && Compactness(c.value.fields) == (if c.value.fields[0].val.Obj? then Ok(true) else Err(TypeError))
  {
    var verbose := Element(node, None).0;
    ConvertedIsVerbose(node);
    ElementShape(node, None);
    ConvertedTextAttributes(node);
    CompactedIsCompact(verbose.fields, reading);
    CompactedElementShape(verbose.fields, reading);
  }
}
