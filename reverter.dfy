/**
 * The reverters (JXON.js:329-432): they rebuild a node tree from a JXON
 * object in either form. The element reverter asks `isCompact` which form
 * it has, then creates the element (in the namespace the object names),
 * reverts and appends its children in order, turns every other property
 * into an attribute and re-declares every named namespace alias. The DOM
 * factory is replaced by the `Out` nodes below.
 *
 * Three places of the source do not do what they evidently mean to, and
 * `Reading` (AsWritten or Intended) selects between the two behaviours:
 *   - the alias loop (line 393) runs `for ... in` over the namespace value
 *     even when it is a string, which visits the string's indices;
 *   - the dispatch (lines 372-375) finds no reverter for the compact
 *     "#D" and "#C" objects, which the CDATA and comment reverters read;
 *   - the dispatch sends a compacted text, a string left in a "*" list, to
 *     the element reverter (its first key is the index "0"), though the
 *     text reverter's `object["#TEXT"] || object` reads a bare string.
 */
module Reverter {
  import opened Wrappers
  import opened Json
  import opened JsText
  import opened Compactor
  import opened Detector

  /** The nodes the reverter creates: `createElement(NS)`, `createTextNode`, `createCDATASection`, `createComment`. */
  datatype Out =
    | OElement(namespaceURI: string, tagName: string, attributes: seq<Field>, childNodes: seq<Out>)
    | OText(data: string)
    | OCData(data: string)
    | OComment(data: string)

  /**
   * The element's tag (lines 339-344): when the text after the first ':'
   * is not empty, the tag is the text before it, ':' and that text.
   */
  function TagName(tag: string): string
  {
    var parts := Split(tag, ':');
    if |parts| > 1 && parts[1] != "" then parts[0] + ":" + parts[1] else tag
  }

  /** The element's namespace (lines 346-355): the value itself when it is a string, else its "" entry. */
  function NamespaceOf(namespaces: Option<Json>): Option<Json>
  {
    if !Truthy(namespaces) then None
    else if namespaces.value.Str? then namespaces
    else Member(namespaces.value, "")
  }

  /** The attribute name of a property key (lines 383-386): a verbose key loses its leading '@'. */
  function AttributeName(key: string, compact: bool): string
  {
    if !compact && StartsWith(key, "@") then key[1..] else key
  }

  /**
   * Whether a property becomes an attribute (line 382): it does not hold
   * the children container (the key `container` names, when the
   * container is the property's value) and does not start with '#'.
   */
  predicate BecomesAttribute(key: string, container: Option<string>)
  {
    container != Some(key) && !StartsWith(key, "#")
  }

  /** `element.setAttribute(name, value)`: the value as a string; an attribute set again keeps its place. */
  function SetAttribute(attrs: seq<Field>, name: string, value: Json): seq<Field>
  {
    Set(attrs, name, Str(StringOf(value)))
  }

  /** The attributes after the property loop (lines 381-390) has visited `entries`. */
  function PropertyAttributes(attrs: seq<Field>, entries: seq<Field>, compact: bool, container: Option<string>): seq<Field>
  {
    if entries == [] then attrs
    else
      var before := PropertyAttributes(attrs, entries[..|entries| - 1], compact, container);
      var e := entries[|entries| - 1];
      if BecomesAttribute(e.key, container) then SetAttribute(before, AttributeName(e.key, compact), e.val)
      else before
  }

  /**
   * What the alias loop (lines 392-395) visits: the entries of the
   * namespace value, which for a string are its indices as written, and
   * nothing when it is not an object as intended.
   */
  function AliasEntries(namespaces: Option<Json>, reading: Reading): seq<Field>
  {
    if namespaces.None? then []
    else if reading == Intended && !namespaces.value.Obj? then []
    else Entries(namespaces.value)
  }

  /** The attributes after the alias loop has visited `aliases`: a named alias `a` is declared as "xmlns:a". */
  function AliasAttributes(attrs: seq<Field>, aliases: seq<Field>): seq<Field>
  {
    if aliases == [] then attrs
    else
      var before := AliasAttributes(attrs, aliases[..|aliases| - 1]);
      var a := aliases[|aliases| - 1];
      if a.key != "" then SetAttribute(before, "xmlns:" + a.key, a.val) else before
  }

  /**
   * Whether converting `v` to a primitive throws: an object with its own
   * `toString` key has no callable method that gives a primitive, and an
   * array converts its items through `join`.
   */
  predicate PrimitiveThrows(v: Json)
  {
    match v
    case Obj(fs) => "toString" in Keys(fs)
    case Arr(items) => exists i :: 0 <= i < |items| && PrimitiveThrows(items[i])
    case _ => false
  }

  /**
   * `0 < v`, for a `v` that converts to a primitive: a string by the number
   * it spells; an array by its `join`, which is "" without items, holds a
   * ',' (NaN) with two or more, and is the string of its only item
   * otherwise; null is 0 and an object is NaN.
   */
  predicate Positive(v: Json)
  {
    match v
    case Str(s) => NumberPositive(Trim(s))
    case Arr(items) => |items| == 1 && Positive(items[0])
    case _ => false
  }

  /**
   * The items the children loop (lines 367-379) visits: an array's items;
   * a non-empty string's first character is dispatched as an element, and
   * `isCompact` throws on it. An object is visited while the index is below
   * its `length` key: without that key there is nothing to visit; a
   * `length` that cannot become a primitive throws in the comparison; a
   * positive one visits `children[0]`, which is undefined unless the
   * object has a key "0", and the dispatch's `type[0]` then throws.
   */
  function ChildItems(children: Json): Result<seq<Json>, Failure>
  {
    match children
    case Arr(items) => Ok(items)
    case Str(s) => if s == "" then Ok([]) else Err(TypeError)
    case Null => Ok([])
    case Obj(fs) =>
      match Get(fs, "length")
      case None => Ok([])
      case Some(n) =>
        if PrimitiveThrows(n) then Err(TypeError)
        else if Positive(n) && "0" !in Keys(fs) then Err(TypeError)
        else Ok([])
  }

  /** The items under a property of the element's properties are smaller than the element. */
  lemma ItemsSmaller(element: seq<Field>, key: string, items: seq<Json>)
    ensures element != [] && Member(element[0].val, key) == Some(Arr(items)) ==>
      SizeSeq(items) < Size(Obj(element))
  {
    if element != [] && Member(element[0].val, key) == Some(Arr(items)) {
      SizeOfFirst(element);
      SizeOfValue(element[0].val.fields, key);
    }
  }

  /**
   * The `type` the dispatch (lines 373-374) settles on for `child`, given
   * the one the previous child left. `type` is declared with `var`, so it is
   * one variable for the whole element reverter: a child without enumerable
   * keys (an empty object, array or string, or null) leaves it unchanged,
   * and `None` is `undefined`, before the first child. A first key not
   * starting with '#' means "#ELEMENT"; the keys of an array or a string are
   * its indices. As intended, a string (a compacted text) goes to the text
   * reverter.
   */
  function DispatchKind(child: Json, previous: Option<string>, reading: Reading): Option<string>
  {
    match child
    case Obj(fs) => if fs == [] then previous else Some(Kind(fs))
    case Arr(items) => if items == [] then previous else Some("#ELEMENT")
    case Str(s) =>
      if reading == Intended then Some("#TEXT")
      else if s == "" then previous else Some("#ELEMENT")
    case Null => previous
  }

  /** The `type` left once the first `n` items have been dispatched. */
  function KindAfter(items: seq<Json>, n: nat, reading: Reading): Option<string>
    requires n <= |items|
  {
    if n == 0 then None else DispatchKind(items[n - 1], KindAfter(items, n - 1, reading), reading)
  }

  /**
   * `reverters[type](child)` (line 376) and the leaf reverters (lines
   * 411-421). An undefined `type` throws at `type[0]`; a `type` without a
   * reverter ("#ATTRIBUTE" is commented out) throws when called; every
   * reverter reads a property of its argument, which throws on null. The
   * element reverter throws in `isCompact` on anything but an object: an
   * array whose first item `isCompact` accepts reaches `createElement("0")`,
   * which rejects the name.
   */
  function RevertedAs(kind: Option<string>, child: Json, reading: Reading): Result<Out, Failure>
    decreases Size(child), 1
  {
    if kind.None? || child.Null? then Err(TypeError)
    else
      var k := kind.value;
      if k == "#ELEMENT" then
        if child.Obj? then RevertedElement(child.fields, reading) else Err(TypeError)
      else if k == "#TEXT" then Ok(OText(ToJsString(Or(Member(child, "#TEXT"), Some(child)))))
      else if k == "#CDATA" || (reading == Intended && k == "#D") then
        Ok(OCData(ToJsString(Or(Member(child, "#D"), Member(child, "#CDATA")))))
      else if k == "#COMMENT" || (reading == Intended && k == "#C") then
        Ok(OComment(ToJsString(Or(Member(child, "#C"), Member(child, "#COMMENT")))))
      else Err(TypeError)
  }

  /** What a child reverts to when its own keys decide its reverter: the first child, or any child with keys. */
  function RevertedChild(child: Json, reading: Reading): Result<Out, Failure>
  {
    RevertedAs(DispatchKind(child, None, reading), child, reading)
  }

  /** Item `i` of the children loop, dispatched with the `type` the items before it left. */
  function RevertedItem(items: seq<Json>, i: nat, reading: Reading): Result<Out, Failure>
    requires i < |items|
    decreases SizeSeq(items), 2
  {
    SizeOfItem(items, i);
    RevertedAs(DispatchKind(items[i], KindAfter(items, i, reading), reading), items[i], reading)
  }

  /** The children loop over the first `n` items: each reverted in order; the first one that throws ends it. */
  function RevertedUpTo(items: seq<Json>, n: nat, reading: Reading): Result<seq<Out>, Failure>
    requires n <= |items|
    decreases SizeSeq(items), 3, n
  {
    if n == 0 then Ok([])
    else
      match RevertedUpTo(items, n - 1, reading)
      case Err(e) => Err(e)
      case Ok(nodes) =>
        match RevertedItem(items, n - 1, reading)
        case Err(e) => Err(e)
        case Ok(node) => Ok(nodes + [node])
  }

  /** The children loop over all the items. */
  function RevertedAll(items: seq<Json>, reading: Reading): Result<seq<Out>, Failure>
    decreases SizeSeq(items), 4
  {
    RevertedUpTo(items, |items|, reading)
  }

  /** The children container: "*" in the compact form, "children" in the verbose one. */
  function ContainerKey(compact: bool): string
  {
    if compact then "*" else "children"
  }

  /** reverters["#ELEMENT"] (lines 333-398). */
  function RevertedElement(element: seq<Field>, reading: Reading): Result<Out, Failure>
    decreases Size(Obj(element)), 0
  {
    match Compactness(element)
    case Err(e) => Err(e)
    case Ok(compact) =>
      var properties := element[0].val;
      var namespaces := Member(properties, if compact then "#N" else "#NAMESPACE");
      var namespace := NamespaceOf(namespaces);
      var uri := if Truthy(namespace) then StringOf(namespace.value) else "";
      var start := if Truthy(namespace) then [Field("xmlns", Str(uri))] else [];
      var key := ContainerKey(compact);
      var held := Truthy(Member(properties, key));
      var container := if held then Some(key) else None;
      var children := if held then Member(properties, key).value else Arr([]);
      match ChildItems(children)
      case Err(e) => Err(e)
      case Ok(items) =>
        ItemsSmaller(element, key, items);
        match RevertedAll(items, reading)
        case Err(e) => Err(e)
        case Ok(nodes) =>
          var attrs := PropertyAttributes(start, Entries(properties), compact, container);
          Ok(OElement(uri, TagName(element[0].key), AliasAttributes(attrs, AliasEntries(namespaces, reading)), nodes))
  }

  /** An item that throws ends the children loop with its error. */
  lemma {:induction false} FailedPrefix(items: seq<Json>, j: nat, n: nat, reading: Reading)
    requires j <= n <= |items| && RevertedUpTo(items, j, reading).Err?
    ensures RevertedUpTo(items, n, reading) == RevertedUpTo(items, j, reading)
    decreases n
  {
    if j < n {
      FailedPrefix(items, j, n - 1, reading);
    }
  }

  // ---------------------------------------------------------------------
  // The reverters as the source runs them
  // ---------------------------------------------------------------------

  /** The call `reverters[type](child)` (lines 375-376) and the leaf reverters (lines 411-421). */
  method RevertChild(kind: Option<string>, child: Json, reading: Reading) returns (r: Result<Out, Failure>)
    ensures r == RevertedAs(kind, child, reading)
    decreases Size(child), 1
  {
    if kind.None? || child.Null? {
      return Err(TypeError);
    }
    var k := kind.value;
    if k == "#ELEMENT" {
      if !child.Obj? {
        return Err(TypeError);
      }
      r := RevertElement(child.fields, reading);
    } else if k == "#TEXT" {
      r := Ok(OText(ToJsString(Or(Member(child, "#TEXT"), Some(child)))));
    } else if k == "#CDATA" || (reading == Intended && k == "#D") {
      r := Ok(OCData(ToJsString(Or(Member(child, "#D"), Member(child, "#CDATA")))));
    } else if k == "#COMMENT" || (reading == Intended && k == "#C") {
      r := Ok(OComment(ToJsString(Or(Member(child, "#C"), Member(child, "#COMMENT")))));
    } else {
      r := Err(TypeError);
    }
  }

  /**
   * reverters["#ELEMENT"] (lines 333-398): the element, its children
   * appended one by one, then the property loop and the alias loop
   * setting attributes.
   */
  method RevertElement(element: seq<Field>, reading: Reading) returns (r: Result<Out, Failure>)
    ensures r == RevertedElement(element, reading)
    decreases Size(Obj(element)), 0
  {
    var compact := IsCompact(element);
    if compact.Err? {
      return Err(compact.error);
    }
    var properties := element[0].val;
    var namespaces := Member(properties, if compact.value then "#N" else "#NAMESPACE");
    var namespace := NamespaceOf(namespaces);
    var uri := "";
    var attrs := [];
    if Truthy(namespace) {
      uri := StringOf(namespace.value);
      attrs := [Field("xmlns", Str(uri))];
    }

    var key := ContainerKey(compact.value);
    var children := Arr([]);
    var container := None;
    if Truthy(Member(properties, key)) {
      children := Member(properties, key).value;
      container := Some(key);
    }
    var items := ChildItems(children);
    if items.Err? {
      return Err(items.error);
    }
    ItemsSmaller(element, key, items.value);
    var nodes := AppendChildren(items.value, reading);
    if nodes.Err? {
      return Err(nodes.error);
    }
    attrs := SetProperties(attrs, Entries(properties), compact.value, container);
    // Register other namespaces:
    attrs := DeclareAliases(attrs, AliasEntries(namespaces, reading));
    r := Ok(OElement(uri, TagName(element[0].key), attrs, nodes.value));
  }

  /**
   * The children loop (lines 367-379): `type` is kept from one item to the
   * next, and each item is reverted and appended in order.
   */
  method AppendChildren(items: seq<Json>, reading: Reading) returns (r: Result<seq<Out>, Failure>)
    ensures r == RevertedAll(items, reading)
    decreases SizeSeq(items), 2
  {
    var nodes := [];
    var kind := None;
    var index := 0;
    while index < |items|
      invariant 0 <= index <= |items|
      invariant kind == KindAfter(items, index, reading)
      invariant RevertedUpTo(items, index, reading) == Ok(nodes)
    {
      SizeOfItem(items, index);
      kind := DispatchKind(items[index], kind, reading);
      var child := RevertChild(kind, items[index], reading);
      if child.Err? {
        FailedPrefix(items, index + 1, |items|, reading);
        return Err(child.error);
      }
      nodes := nodes + [child.value];
      index := index + 1;
    }
    r := Ok(nodes);
  }

  /** The property loop (lines 381-390). */
  method SetProperties(start: seq<Field>, entries: seq<Field>, compact: bool, container: Option<string>)
    returns (attrs: seq<Field>)
    ensures attrs == PropertyAttributes(start, entries, compact, container)
  {
    attrs := start;
    var i := 0;
    assert entries[..0] == [];
    while i < |entries|
      invariant 0 <= i <= |entries|
      invariant attrs == PropertyAttributes(start, entries[..i], compact, container)
    {
      ghost var done := entries[..i + 1];
      assert done[..i] == entries[..i];
      var e := entries[i];
      if BecomesAttribute(e.key, container) {
        attrs := SetAttribute(attrs, AttributeName(e.key, compact), e.val);
      }
      i := i + 1;
      assert entries[..i] == done;
    }
    assert entries[..i] == entries;
  }

  /** The alias loop (lines 392-395). */
  method DeclareAliases(start: seq<Field>, aliases: seq<Field>) returns (attrs: seq<Field>)
    ensures attrs == AliasAttributes(start, aliases)
  {
    attrs := start;
    var j := 0;
    assert aliases[..0] == [];
    while j < |aliases|
      invariant 0 <= j <= |aliases|
      invariant attrs == AliasAttributes(start, aliases[..j])
    {
      ghost var done := aliases[..j + 1];
      assert done[..j] == aliases[..j];
      var a := aliases[j];
      if a.key != "" {
        attrs := SetAttribute(attrs, "xmlns:" + a.key, a.val);
      }
      j := j + 1;
      assert aliases[..j] == done;
    }
    assert aliases[..j] == aliases;
  }
}
