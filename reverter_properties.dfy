/**
 * What the element reverter (JXON.js:333-398) and the leaf reverters
 * (lines 411-421) make of a JXON object: the children reverted in order,
 * the attributes the properties and the namespace aliases turn into, the
 * tag, and the text of the leaf nodes.
 */
module ReverterProperties {
  import opened Wrappers
  import opened Json
  import opened JsText
  import opened Compactor
  import opened Detector
  import opened Reverter

  // ---------------------------------------------------------------------
  // Children
  // ---------------------------------------------------------------------

  /** The children loop over the first `n` items succeeds exactly when each of those items reverts. */
  lemma {:induction false} RevertedUpToSucceeds(items: seq<Json>, n: nat, reading: Reading)
    requires n <= |items|
    ensures RevertedUpTo(items, n, reading).Ok? ==> forall i :: 0 <= i < n ==> RevertedItem(items, i, reading).Ok?
    ensures RevertedUpTo(items, n, reading).Err? ==> exists i :: 0 <= i < n && RevertedItem(items, i, reading).Err?
    decreases n
  {
    if n > 0 {
      RevertedUpToSucceeds(items, n - 1, reading);
      if RevertedUpTo(items, n - 1, reading).Ok? && RevertedItem(items, n - 1, reading).Err? {
        assert 0 <= n - 1 < n && RevertedItem(items, n - 1, reading).Err?;
      }
    }
  }

  /** When the children loop over the first `n` items succeeds, its i-th node is item i reverted. */
  lemma {:induction false} RevertedUpToEach(items: seq<Json>, n: nat, reading: Reading)
    requires n <= |items| && RevertedUpTo(items, n, reading).Ok?
    ensures |RevertedUpTo(items, n, reading).value| == n
    ensures forall i :: 0 <= i < n ==>
      RevertedItem(items, i, reading) == Ok(RevertedUpTo(items, n, reading).value[i])
    decreases n
  {
    if n > 0 {
      RevertedUpToEach(items, n - 1, reading);
    }
  }

  /** Whether a child has keys of its own that set `type`; as intended, a string always does. */
  predicate Keyed(child: Json, reading: Reading)
  {
    DispatchKind(child, None, reading).Some?
  }

  /**
   * The first child, and every child with keys of its own, is dispatched by
   * those keys alone; a later child without keys goes to the reverter of the
   * `type` the items before it left, and leaves `type` as it was.
   */
  lemma ItemDispatch(items: seq<Json>, i: nat, reading: Reading)
    requires i < |items|
    ensures i == 0 || Keyed(items[i], reading) ==> RevertedItem(items, i, reading) == RevertedChild(items[i], reading)
    ensures !Keyed(items[i], reading) ==>
      && RevertedItem(items, i, reading) == RevertedAs(KindAfter(items, i, reading), items[i], reading)
      && KindAfter(items, i + 1, reading) == KindAfter(items, i, reading)
  {
  }

  /** A child without keys throws when it comes first. */
  lemma KeylessFirst(child: Json, reading: Reading)
    requires !Keyed(child, reading)
    ensures RevertedChild(child, reading) == Err(TypeError)
  {
  }

  /**
   * Every item with keys of its own reverts by those keys, whatever came
   * before it; so when all of them have keys, the loop reverts each item
   * on its own.
   */
  lemma {:induction false} AllKeyed(items: seq<Json>, reading: Reading)
    requires forall i :: 0 <= i < |items| ==> Keyed(items[i], reading)
    ensures forall i :: 0 <= i < |items| ==> RevertedItem(items, i, reading) == RevertedChild(items[i], reading)
  {
    forall i | 0 <= i < |items| ensures RevertedItem(items, i, reading) == RevertedChild(items[i], reading) {
      ItemDispatch(items, i, reading);
    }
  }

  /** A child without keys after a text node becomes a text node too: `type` is still "#TEXT". */
  lemma KeylessAfterText(x: string, reading: Reading)
    ensures RevertedAll([Obj([Field("#TEXT", Str(x))]), Obj([])], reading) ==
      Ok([OText(if x != "" then x else "[object Object]"), OText("[object Object]")])
  {
    var items := [Obj([Field("#TEXT", Str(x))]), Obj([])];
    var text := OText(if x != "" then x else "[object Object]");
    TextReverted(x, reading);
    assert RevertedItem(items, 0, reading) == Ok(text) by {
      ItemDispatch(items, 0, reading);
    }
    assert RevertedUpTo(items, 1, reading) == Ok([text]) by {
      assert RevertedUpTo(items, 0, reading) == Ok([]);
      assert [] + [text] == [text];
    }
    assert KindAfter(items, 1, reading) == Some("#TEXT") by {
      assert KindAfter(items, 0, reading) == None;
      assert "#TEXT"[0] == '#';
    }
    assert RevertedItem(items, 1, reading) == Ok(OText("[object Object]"));
    assert [text] + [OText("[object Object]")] == [text, OText("[object Object]")];
  }

  // ---------------------------------------------------------------------
  // Tag
  // ---------------------------------------------------------------------

  /** A tag with at most one ':' is kept as it is. */
  lemma TagNameKept(prefix: string, local: string)
    requires ':' !in prefix && ':' !in local
    ensures TagName(local) == local
    ensures TagName(prefix + ":" + local) == prefix + ":" + local
  {
    SplitWithout(local, ':');
    SplitFirst(prefix, ':', local);
    assert prefix + ":" + local == prefix + [':'] + local;
  }

  /** A tag with a second ':' loses the text from it on. */
  lemma TagNameCut()
    ensures TagName("a:b:c") == "a:b"
  {
    assert "a:b:c" == "a" + [':'] + "b:c";
    SplitFirst("a", ':', "b:c");
    assert "b:c" == "b" + [':'] + "c";
    SplitFirst("b", ':', "c");
    SplitWithout("c", ':');
  }

  // ---------------------------------------------------------------------
  // Attributes from properties
  // ---------------------------------------------------------------------

  /** An attribute after a loop: the text of the last value written to it, or what it was before. */
  function Written(last: Option<Json>, before: Option<Json>): Option<Json>
  {
    match last
    case Some(v) => Some(Str(StringOf(v)))
    case None => before
  }

  /** The property `e` becomes the attribute `n`. */
  predicate Names(e: Field, n: string, compact: bool, container: Option<string>)
  {
    BecomesAttribute(e.key, container) && AttributeName(e.key, compact) == n
  }

  /** The value of the last property that becomes the attribute `n`. */
  function LastProperty(entries: seq<Field>, n: string, compact: bool, container: Option<string>): Option<Json>
  {
    if entries == [] then None
    else if Names(entries[|entries| - 1], n, compact, container) then Some(entries[|entries| - 1].val)
    else LastProperty(entries[..|entries| - 1], n, compact, container)
  }

  /**
   * After the property loop, an attribute holds the text of the last
   * property that names it, and an attribute no property names is as it
   * was before the loop.
   */
  lemma {:induction false} PropertyAttributesLast(start: seq<Field>, entries: seq<Field>, compact: bool, container: Option<string>)
    ensures forall n ::
              Get(PropertyAttributes(start, entries, compact, container), n) ==
              Written(LastProperty(entries, n, compact, container), Get(start, n))
    decreases |entries|
  {
    if entries != [] {
      PropertyAttributesLast(start, entries[..|entries| - 1], compact, container);
    }
  }

  /** The last property naming `n` is one of the properties, and there is one exactly when some property names `n`. */
  lemma {:induction false} LastPropertyFound(entries: seq<Field>, n: string, compact: bool, container: Option<string>)
    ensures LastProperty(entries, n, compact, container).Some? <==>
      exists i :: 0 <= i < |entries| && Names(entries[i], n, compact, container)
    ensures LastProperty(entries, n, compact, container).Some? ==>
      exists i :: 0 <= i < |entries| && Names(entries[i], n, compact, container)
        && entries[i].val == LastProperty(entries, n, compact, container).value
    decreases |entries|
  {
    if entries != [] {
      var front := entries[..|entries| - 1];
      LastPropertyFound(front, n, compact, container);
      assert forall i :: 0 <= i < |front| ==> front[i] == entries[i];
    }
  }

  // ---------------------------------------------------------------------
  // Namespace aliases
  // ---------------------------------------------------------------------

  /** The value of the last named alias declared as the attribute `n`. */
  function LastAlias(aliases: seq<Field>, n: string): Option<Json>
  {
    if aliases == [] then None
    else
      var a := aliases[|aliases| - 1];
      if a.key != "" && "xmlns:" + a.key == n then Some(a.val)
      else LastAlias(aliases[..|aliases| - 1], n)
  }

  /**
   * After the alias loop, "xmlns:a" holds the text of the last alias `a`
   * visited; every other attribute is as it was.
   */
  lemma {:induction false} AliasAttributesLast(start: seq<Field>, aliases: seq<Field>)
    ensures forall n ::
              Get(AliasAttributes(start, aliases), n) ==
              Written(LastAlias(aliases, n), Get(start, n))
    decreases |aliases|
  {
    if aliases != [] {
      AliasAttributesLast(start, aliases[..|aliases| - 1]);
    }
  }

  /** The alias declared as `n` is one of the aliases, named, and "xmlns:" + its name is `n`. */
  lemma {:induction false} LastAliasFound(aliases: seq<Field>, n: string)
    ensures LastAlias(aliases, n).Some? <==>
      exists i :: 0 <= i < |aliases| && aliases[i].key != "" && "xmlns:" + aliases[i].key == n
    ensures LastAlias(aliases, n).Some? ==>
      exists i :: 0 <= i < |aliases| && aliases[i].key != "" && "xmlns:" + aliases[i].key == n
        && aliases[i].val == LastAlias(aliases, n).value
    decreases |aliases|
  {
    if aliases != [] {
      var front := aliases[..|aliases| - 1];
      LastAliasFound(front, n);
      assert forall i :: 0 <= i < |front| ==> front[i] == aliases[i];
    }
  }

  // ---------------------------------------------------------------------
  // Leaf reverters
  // ---------------------------------------------------------------------

  /**
   * reverters["#TEXT"] (lines 411-413): a text node holding the text, or,
   * when the text is empty, the object itself written as a string.
   */
  lemma TextReverted(s: string, reading: Reading)
    ensures RevertedChild(Obj([Field("#TEXT", Str(s))]), reading) ==
      Ok(OText(if s != "" then s else "[object Object]"))
  {
    assert "#TEXT"[0] == '#';
  }

  /** reverters["#CDATA"] and reverters["#COMMENT"] (lines 415-421) on verbose objects: a node holding the text. */
  lemma CharacterDataReverted(s: string, reading: Reading)
    ensures RevertedChild(Obj([Field("#CDATA", Str(s))]), reading) == Ok(OCData(s))
    ensures RevertedChild(Obj([Field("#COMMENT", Str(s))]), reading) == Ok(OComment(s))
  {
    assert "#CDATA"[0] == '#' && "#COMMENT"[0] == '#';
  }

  /**
   * As written, the dispatch (lines 372-375) finds no reverter under "#D"
   * or "#C": a compact CDATA section or comment cannot be reverted.
   */
  lemma CompactCharacterDataAsWritten(s: string)
    ensures RevertedChild(Obj([Field("#D", Str(s))]), AsWritten) == Err(TypeError)
    ensures RevertedChild(Obj([Field("#C", Str(s))]), AsWritten) == Err(TypeError)
  {
    assert "#D"[0] == '#' && "#C"[0] == '#';
  }

  /** The compacted form of a one-key object: the short key alone. */
  lemma CompactedMarker(s: string, marker: string, short: string)
    requires (marker, short) in {("#CDATA", "#D"), ("#COMMENT", "#C")}
    requires !Blank(s)
    ensures CompactCharacterData([Field(marker, Str(s))], marker, short) == Obj([Field(short, Str(Trim(s)))])
  {
    var o := [Field(marker, Str(s))];
    assert Set(o, short, Str(Trim(s))) == [Field(marker, Str(s)), Field(short, Str(Trim(s)))];
  }

  /** As intended, the compact objects under "#D" and "#C" revert to a CDATA section and a comment. */
  lemma ShortReverted(t: string)
    requires t != ""
    ensures RevertedChild(Obj([Field("#D", Str(t))]), Intended) == Ok(OCData(t))
    ensures RevertedChild(Obj([Field("#C", Str(t))]), Intended) == Ok(OComment(t))
  {
    assert "#D"[0] == '#' && "#C"[0] == '#';
  }

  /**
   * As intended, a CDATA section or a comment that the compactor shortened
   * reverts to a node holding its trimmed text.
   */
  lemma CompactCharacterDataIntended(s: string)
    requires !Blank(s)
    ensures RevertedChild(CompactCharacterData([Field("#CDATA", Str(s))], "#CDATA", "#D"), Intended) == Ok(OCData(Trim(s)))
    ensures RevertedChild(CompactCharacterData([Field("#COMMENT", Str(s))], "#COMMENT", "#C"), Intended) == Ok(OComment(Trim(s)))
  {
    CompactedMarker(s, "#CDATA", "#D");
    CompactedMarker(s, "#COMMENT", "#C");
    ShortReverted(Trim(s));
  }

  /**
   * As written, a text the compactor shortened to a string (lines 292-294)
   * and left in a list of children is dispatched as an element: its first
   * key is the index "0". The element reverter's `isCompact` then tests
   * `"*" in` the string, which throws.
   */
  lemma CompactTextAsWritten(s: string)
    requires !Blank(s)
    ensures RevertedChild(CompactText([Field("#TEXT", Str(s))]), AsWritten) == Err(TypeError)
  {
  }

  /** As intended, such a string reverts to a text node holding the trimmed text, by `object["#TEXT"] || object`. */
  lemma CompactTextIntended(s: string)
    requires !Blank(s)
    ensures RevertedChild(CompactText([Field("#TEXT", Str(s))]), Intended) == Ok(OText(Trim(s)))
  {
    var t := CompactText([Field("#TEXT", Str(s))]);
    assert t == Str(Trim(s));
    assert Member(t, "#TEXT") == None;
  }

  /** `{a: {"*": [x, {b: {}}]}}`, the compact form of `<a>x<b/></a>`. */
  function MixedContent(x: string): seq<Field>
  {
    [Field("a", Obj([Field("*", Arr([Str(x), Obj([Field("b", Obj([]))])]))]))]
  }

  /** As written, reverting the compact form of mixed content throws at its text. */
  lemma MixedContentAsWritten(x: string)
    requires x != ""
    ensures RevertedElement(MixedContent(x), AsWritten) == Err(TypeError)
  {
    var items := [Str(x), Obj([Field("b", Obj([]))])];
    assert RevertedItem(items, 0, AsWritten) == Err(TypeError);
    FailedPrefix(items, 1, 2, AsWritten);
    assert "*" in Keys([Field("*", Arr(items))]);
  }

  /** As intended, the children of that element revert to the text x and the empty element `b`. */
  lemma MixedItemsIntended(x: string)
    ensures RevertedAll([Str(x), Obj([Field("b", Obj([]))])], Intended) ==
      Ok([OText(x), OElement("", "b", [], [])])
  {
    var items := [Str(x), Obj([Field("b", Obj([]))])];
    var inner := OElement("", "b", [], []);
    assert RevertedUpTo(items, 1, Intended) == Ok([OText(x)]) by {
      assert RevertedItem(items, 0, Intended) == Ok(OText(x));
      assert RevertedUpTo(items, 0, Intended) == Ok([]);
      assert [] + [OText(x)] == [OText(x)];
    }
    assert RevertedItem(items, 1, Intended) == Ok(inner) by {
      assert "b"[0] != '#';
      TagNameKept("", "b");
      assert Compactness([Field("b", Obj([]))]) == Ok(true);
      assert RevertedAll([], Intended) == Ok([]);
    }
    assert [OText(x)] + [inner] == [OText(x), inner];
  }

  /** As intended, it reverts to the element `a` holding the text and the empty element `b`. */
  lemma MixedContentIntended(x: string)
    ensures RevertedElement(MixedContent(x), Intended) ==
      Ok(OElement("", "a", [], [OText(x), OElement("", "b", [], [])]))
  {
    var items := [Str(x), Obj([Field("b", Obj([]))])];
    var ps := [Field("*", Arr(items))];
    assert MixedContent(x) == [Field("a", Obj(ps))];
    assert CompactInput(ps) && Compactness(MixedContent(x)) == Ok(true) by {
      assert ps[1..] == [] && Keys(ps[1..]) == [] && Unique(ps[1..]);
      assert Unique(ps) && Keys(ps) == ["*"];
      assert Get(ps, "*") == Some(Arr(items)) && Get(ps, "#N") == None;
      assert Entries(Obj(ps)) == ps;
    }
    CompactElementReverted("a", ps);
    MixedItemsIntended(x);
    TagNameKept("", "a");
    assert CompactAttributes(ps) == [] by {
      assert CompactDefault(ps) == None && CompactAliases(ps) == [];
      assert CompactContainer(ps) == Some("*");
      assert ps[..0] == [];
      assert PropertyAttributes([], ps, true, Some("*")) == [];
    }
  }

  /**
   * The compact form of `<a><!--x--><b/></a>`: the comment, shortened to
   * "#C", stays in a list with the element `b`.
   */
  function CommentBeside(x: string): seq<Field>
  {
    [Field("a", Obj([Field("*", Arr([Obj([Field("#C", Str(x))]), Obj([Field("b", Obj([]))])]))]))]
  }

  /** As written, reverting it throws at the comment, for which no reverter is named "#C". */
  lemma CommentBesideAsWritten(x: string)
    ensures RevertedElement(CommentBeside(x), AsWritten) == Err(TypeError)
  {
    var items := [Obj([Field("#C", Str(x))]), Obj([Field("b", Obj([]))])];
    assert RevertedItem(items, 0, AsWritten) == Err(TypeError) by {
      CompactCharacterDataAsWritten(x);
    }
    FailedPrefix(items, 1, 2, AsWritten);
    assert "*" in Keys([Field("*", Arr(items))]);
  }

  /**
   * An element `a` whose "*" was hoisted to a single object (lines 244-245).
   * The children loop reads that object's `length`.
   */
  function Hoisted(child: Json): seq<Field>
  {
    [Field("a", Obj([Field("*", child)]))]
  }

  /**
   * Reverting an element whose "*" is one object throws exactly when the
   * children loop does, and otherwise gives `a` without children: the
   * hoisted child is never reverted.
   */
  lemma HoistedReverted(child: Json, reading: Reading)
    requires child.Obj?
    ensures RevertedElement(Hoisted(child), reading) ==
      if ChildItems(child).Err? then Err(TypeError) else Ok(OElement("", "a", [], []))
  {
    var ps := [Field("*", child)];
    assert Hoisted(child) == [Field("a", Obj(ps))];
    assert Compactness(Hoisted(child)) == Ok(true) by {
      assert "*" in Keys(ps);
    }
    assert Member(Obj(ps), "*") == Some(child);
    assert Member(Obj(ps), "#N") == None;
    TagNameKept("", "a");
    if ChildItems(child).Ok? {
      assert ChildItems(child) == Ok([]);
      assert RevertedAll([], reading) == Ok([]);
      assert Entries(Obj(ps)) == ps;
      assert ps[..0] == [];
      assert PropertyAttributes([], ps, true, Some("*")) == [];
    }
  }

  /**
   * A lone comment child is hoisted to `{a: {"*": {"#C": x}}}`. That object
   * has no `length`, so the comment is silently lost on reverting.
   */
  lemma HoistedComment(x: string, reading: Reading)
    ensures RevertedElement(Hoisted(Obj([Field("#C", Str(x))])), reading) == Ok(OElement("", "a", [], []))
  {
    HoistedReverted(Obj([Field("#C", Str(x))]), reading);
  }

  /**
   * `<a><length>s</length></a>` compacts to `{a: {"*": {length: s}}}`. The
   * children loop then compares 0 with the string s: when s spells a
   * positive number it visits `children[0]`, which is undefined, and
   * `type[0]` throws; otherwise `a` reverts without children.
   */
  lemma HoistedLength(s: string, reading: Reading)
    ensures RevertedElement(Hoisted(Obj([Field("length", Str(s))])), reading) ==
      if NumberPositive(Trim(s)) then Err(TypeError) else Ok(OElement("", "a", [], []))
  {
    var fs := [Field("length", Str(s))];
    assert ChildItems(Obj(fs)).Err? <==> NumberPositive(Trim(s)) by {
      assert Get(fs, "length") == Some(Str(s)) && Keys(fs) == ["length"];
      assert !PrimitiveThrows(Str(s)) && (Positive(Str(s)) <==> NumberPositive(Trim(s)));
    }
    HoistedReverted(Obj(fs), reading);
  }

  /** `<a><length>3</length></a>`, compacted, throws when reverted; `<a><length>0</length></a>` reverts to an empty `a`. */
  lemma HoistedLengthThree(reading: Reading)
    ensures RevertedElement(Hoisted(Obj([Field("length", Str("3"))])), reading) == Err(TypeError)
    ensures RevertedElement(Hoisted(Obj([Field("length", Str("0"))])), reading) == Ok(OElement("", "a", [], []))
  {
    assert DecimalString(3) == "3" && DecimalString(0) == "0";
    DecimalPositive(3);
    DecimalPositive(0);
    assert Trim("3") == "3" && Trim("0") == "0";
    HoistedLength("3", reading);
    HoistedLength("0", reading);
  }



  // ---------------------------------------------------------------------
  // A namespace given as a string
  // ---------------------------------------------------------------------

  /** The parts of reverting `{a: {"#N": "u"}}` that both readings share. */
  lemma LoneDefaultParts()
    ensures Compactness([Field("a", Obj([Field("#N", Str("u"))]))]) == Ok(true)
    ensures TagName("a") == "a"
    ensures PropertyAttributes([Field("xmlns", Str("u"))], [Field("#N", Str("u"))], true, None) == [Field("xmlns", Str("u"))]
  {
    var properties := Obj([Field("#N", Str("u"))]);
    assert "#N"[0] != '@';
    NotStartsWith("#N", "@");
    assert Keys(Entries(properties)) == ["#N"];
    SplitWithout("a", ':');
    assert "#N"[0] == '#';
    assert [Field("#N", Str("u"))][..0] == [];
  }

  /**
   * The compactor writes a lone default namespace as the string under "#N".
   * As written, the alias loop (lines 392-395) then visits the string's
   * indices and declares "xmlns:0" with its first character.
   */
  lemma StringNamespaceAliasesAsWritten()
    ensures RevertedElement([Field("a", Obj([Field("#N", Str("u"))]))], AsWritten) ==
      Ok(OElement("u", "a", [Field("xmlns", Str("u")), Field("xmlns:0", Str("u"))], []))
  {
    LoneDefaultParts();
    assert DecimalString(0) == "0";
    assert Entries(Str("u")) == [Field("0", Str("u"))];
    var start := [Field("xmlns", Str("u"))];
    assert AliasAttributes(start, [Field("0", Str("u"))]) == [Field("xmlns", Str("u")), Field("xmlns:0", Str("u"))] by {
      assert [Field("0", Str("u"))][..0] == [];
      assert "xmlns:" + "0" == "xmlns:0";
    }
  }

  /** As intended, a namespace written as a string declares only "xmlns". */
  lemma StringNamespaceAliasesIntended()
    ensures RevertedElement([Field("a", Obj([Field("#N", Str("u"))]))], Intended) ==
      Ok(OElement("u", "a", [Field("xmlns", Str("u"))], []))
  {
    LoneDefaultParts();
  }

  // ---------------------------------------------------------------------
  // The verbose form
  // ---------------------------------------------------------------------

  /** A key is in an object's keys exactly when some field has it. */
  lemma {:induction false} KeyAt(fs: seq<Field>, k: string)
    ensures k in Keys(fs) <==> exists i :: 0 <= i < |fs| && fs[i].key == k
  {
    if fs != [] {
      KeyAt(fs[1..], k);
      assert forall i :: 1 <= i < |fs| ==> fs[1..][i - 1] == fs[i];
      if k in Keys(fs[1..]) {
        var j :| 0 <= j < |fs[1..]| && fs[1..][j].key == k;
        assert fs[j + 1].key == k;
      }
    }
  }

  /** In an object with distinct keys, every field is what its key reads. */
  lemma {:induction false} UniqueGet(fs: seq<Field>, i: nat)
    requires Unique(fs) && i < |fs|
    ensures Get(fs, fs[i].key) == Some(fs[i].val)
  {
    if i > 0 {
      UniqueGet(fs[1..], i - 1);
    }
  }

  /** `n` is "xmlns:" followed by one of the named aliases. */
  predicate Declared(aliases: seq<Field>, n: string)
  {
    StartsWith(n, "xmlns:") && n[6..] != "" && n[6..] in Keys(aliases)
  }

  /** After the alias loop over distinct aliases, "xmlns:a" holds alias `a` and nothing else is declared. */
  lemma LastAliasDeclared(aliases: seq<Field>, n: string)
    requires Unique(aliases)
    ensures LastAlias(aliases, n) == if Declared(aliases, n) then Get(aliases, n[6..]) else None
  {
    LastAliasFound(aliases, n);
    if |n| >= 6 {
      KeyAt(aliases, n[6..]);
    }
    if LastAlias(aliases, n).Some? {
      var i :| 0 <= i < |aliases| && aliases[i].key != "" && "xmlns:" + aliases[i].key == n
        && aliases[i].val == LastAlias(aliases, n).value;
      assert n[..6] == "xmlns:" && n[6..] == aliases[i].key;
      UniqueGet(aliases, i);
    }
  }

  /** The children container of verbose properties, when they hold one. */
  function VerboseContainer(ps: seq<Field>): Option<string>
  {
    if Get(ps, "children").Some? then Some("children") else None
  }

  /** A verbose attribute key becomes the attribute `n` exactly when it is "@" + `n`. */
  lemma NamesOfAttribute(e: Field, n: string, container: Option<string>)
    requires AttrKey(e.key) && container != Some(e.key)
    ensures Names(e, n, false, container) <==> e.key == "@" + n
  {
    var k := e.key;
    StartsWithHead(k, "@");
    NotStartsWith(k, "#");
    assert k == [k[0]] + k[1..];
  }

  /** A key starting with '#' becomes no attribute, and is no "@" key. */
  lemma NamesOfHash(e: Field, n: string, container: Option<string>)
    requires |e.key| > 0 && e.key[0] == '#'
    ensures !Names(e, n, false, container) && e.key != "@" + n
  {
    assert e.key[..1] == "#";
  }

  /** A field of verbose properties becomes the attribute `n` exactly when its key is "@" + `n`. */
  lemma VerboseNames(ps: seq<Field>, i: nat, n: string)
    requires PropsVerbose(ps) && i < |ps|
    ensures Names(ps[i], n, false, VerboseContainer(ps)) <==> ps[i].key == "@" + n
  {
    var k := ps[i].key;
    KeyAt(ps, k);
    if k == "children" {
      assert VerboseContainer(ps) == Some("children");
      assert ("@" + n)[0] == '@';
    } else if k == "#NAMESPACE" {
      NamesOfHash(ps[i], n, VerboseContainer(ps));
    } else {
      NamesOfAttribute(ps[i], n, VerboseContainer(ps));
    }
  }

  /** The property loop over verbose properties writes attribute `n` from the property "@" + `n`. */
  lemma VerboseLastProperty(ps: seq<Field>, n: string)
    requires PropsVerbose(ps)
    ensures LastProperty(ps, n, false, VerboseContainer(ps)) == Get(ps, "@" + n)
  {
    var container := VerboseContainer(ps);
    LastPropertyFound(ps, n, false, container);
    KeyAt(ps, "@" + n);
    if LastProperty(ps, n, false, container).Some? {
      var i :| 0 <= i < |ps| && Names(ps[i], n, false, container)
        && ps[i].val == LastProperty(ps, n, false, container).value;
      VerboseNames(ps, i, n);
      UniqueGet(ps, i);
    } else if Get(ps, "@" + n).Some? {
      var i :| 0 <= i < |ps| && ps[i].key == "@" + n;
      VerboseNames(ps, i, n);
    }
  }

  /** The aliases named by the object under "#NAMESPACE", if any. */
  function NamespaceFields(ps: seq<Field>): seq<Field>
  {
    match Get(ps, "#NAMESPACE")
    case Some(Obj(fs)) => fs
    case _ => []
  }

  /** The items under "children", if any. */
  function VerboseItems(ps: seq<Field>): seq<Json>
  {
    match Get(ps, "children")
    case Some(Arr(items)) => items
    case _ => []
  }

  /** The default namespace, the alias named "". */
  function DefaultNamespace(ps: seq<Field>): Option<Json>
  {
    Get(NamespaceFields(ps), "")
  }

  function VerboseUri(ps: seq<Field>): string
  {
    if Truthy(DefaultNamespace(ps)) then StringOf(DefaultNamespace(ps).value) else ""
  }

  /** The attributes a verbose element gets: "xmlns", then the properties, then the aliases. */
  function VerboseAttributes(ps: seq<Field>): seq<Field>
  {
    var start := if Truthy(DefaultNamespace(ps)) then [Field("xmlns", Str(VerboseUri(ps)))] else [];
    AliasAttributes(PropertyAttributes(start, ps, false, VerboseContainer(ps)), NamespaceFields(ps))
  }

  /**
   * A verbose element with children or an attribute is reverted in the
   * verbose form: in its default namespace, with its children reverted
   * in order and the attributes above.
   */
  lemma VerboseElementReverted(tag: string, ps: seq<Field>, reading: Reading)
    requires PropsVerbose(ps)
    requires Get(ps, "children").Some? || exists k :: k in Keys(ps) && AttrKey(k)
    ensures RevertedElement([Field(tag, Obj(ps))], reading) ==
      match RevertedAll(VerboseItems(ps), reading)
      case Err(e) => Err(e)
      case Ok(nodes) => Ok(OElement(VerboseUri(ps), TagName(tag), VerboseAttributes(ps), nodes))
  {
    VerboseDetected(tag, ps);
    var properties := Obj(ps);
    assert Member(properties, "#NAMESPACE") == Get(ps, "#NAMESPACE");
    assert NamespaceOf(Get(ps, "#NAMESPACE")) == DefaultNamespace(ps);
    assert AliasEntries(Get(ps, "#NAMESPACE"), reading) == NamespaceFields(ps);
    assert Truthy(Member(properties, "children")) <==> Get(ps, "children").Some?;
  }

  /**
   * The attribute `n` of a reverted verbose element: the alias it declares
   * as "xmlns:a", else the property "@" + `n`, else, for "xmlns", the
   * default namespace; in each case written as a string.
   */
  function AttributeOf(ps: seq<Field>, n: string): Option<Json>
  {
    var aliases := NamespaceFields(ps);
    if Declared(aliases, n) then Some(Str(StringOf(Get(aliases, n[6..]).value)))
    else if Get(ps, "@" + n).Some? then Some(Str(StringOf(Get(ps, "@" + n).value)))
    else if n == "xmlns" && Truthy(DefaultNamespace(ps)) then Some(Str(VerboseUri(ps)))
    else None
  }

  /** The attributes of a reverted verbose element are those `AttributeOf` names, and no other. */
  lemma VerboseAttributeOf(ps: seq<Field>, n: string)
    requires PropsVerbose(ps)
    ensures Get(VerboseAttributes(ps), n) == AttributeOf(ps, n)
  {
    var aliases := NamespaceFields(ps);
    var start := if Truthy(DefaultNamespace(ps)) then [Field("xmlns", Str(VerboseUri(ps)))] else [];
    var container := VerboseContainer(ps);
    var props := PropertyAttributes(start, ps, false, container);
    PropertyAttributesLast(start, ps, false, container);
    AliasAttributesLast(props, aliases);
    LastAliasDeclared(aliases, n);
    VerboseLastProperty(ps, n);
    assert Get(props, n) == Written(Get(ps, "@" + n), Get(start, n));
  }

  /**
   * The element reverter on a verbose element with children or an
   * attribute: it succeeds exactly when every child reverts, and then
   * builds the element in its default namespace, under its tag, with the
   * children reverted in order and exactly the attributes `AttributeOf`
   * names.
   */
  lemma VerboseReverted(tag: string, ps: seq<Field>, reading: Reading)
    requires PropsVerbose(ps)
    requires Get(ps, "children").Some? || exists k :: k in Keys(ps) && AttrKey(k)
    ensures var r := RevertedElement([Field(tag, Obj(ps))], reading);
      var items := VerboseItems(ps);
      && (r.Ok? <==> forall i :: 0 <= i < |items| ==> RevertedItem(items, i, reading).Ok?)
      && (r.Ok? ==>
            && r.value.OElement?
            && r.value.namespaceURI == VerboseUri(ps)
            && r.value.tagName == TagName(tag)
            && |r.value.childNodes| == |items|
            && (forall i :: 0 <= i < |items| ==> RevertedItem(items, i, reading) == Ok(r.value.childNodes[i]))
            && (forall n :: Get(r.value.attributes, n) == AttributeOf(ps, n)))
  {
    var items := VerboseItems(ps);
    VerboseElementReverted(tag, ps, reading);
    RevertedUpToSucceeds(items, |items|, reading);
    if RevertedAll(items, reading).Ok? {
      RevertedUpToEach(items, |items|, reading);
      forall n ensures Get(VerboseAttributes(ps), n) == AttributeOf(ps, n) {
        VerboseAttributeOf(ps, n);
      }
    }
  }

  // ---------------------------------------------------------------------
  // The compact form
  // ---------------------------------------------------------------------

  /** The aliases named by an object under "#N", if any. */
  function CompactAliases(ps: seq<Field>): seq<Field>
  {
    match Get(ps, "#N")
    case Some(Obj(fs)) => fs
    case _ => []
  }

  /** The items under "*", if it holds a list. */
  function CompactItems(ps: seq<Field>): seq<Json>
  {
    match Get(ps, "*")
    case Some(Arr(items)) => items
    case _ => []
  }

  /** The default namespace of a compact element: "#N" itself when it is a non-empty string, else its "" entry. */
  function CompactDefault(ps: seq<Field>): Option<Json>
  {
    match Get(ps, "#N")
    case Some(Str(u)) => if u != "" then Some(Str(u)) else None
    case Some(Obj(fs)) => Get(fs, "")
    case _ => None
  }

  function CompactUri(ps: seq<Field>): string
  {
    if Truthy(CompactDefault(ps)) then StringOf(CompactDefault(ps).value) else ""
  }

  function CompactContainer(ps: seq<Field>): Option<string>
  {
    if Get(ps, "*").Some? then Some("*") else None
  }

  /** The attributes a compact element gets: "xmlns", then the properties, then the aliases. */
  function CompactAttributes(ps: seq<Field>): seq<Field>
  {
    var start := if Truthy(CompactDefault(ps)) then [Field("xmlns", Str(CompactUri(ps)))] else [];
    AliasAttributes(PropertyAttributes(start, ps, true, CompactContainer(ps)), CompactAliases(ps))
  }

  /**
   * The attribute `n` of a reverted compact element: the alias it declares
   * as "xmlns:a", else the property `n` itself when it is neither "*" nor
   * starts with '#', else, for "xmlns", the default namespace.
   */
  function CompactAttributeOf(ps: seq<Field>, n: string): Option<Json>
  {
    var aliases := CompactAliases(ps);
    if Declared(aliases, n) then Some(Str(StringOf(Get(aliases, n[6..]).value)))
    else if n != "*" && !StartsWith(n, "#") && Get(ps, n).Some? then Some(Str(StringOf(Get(ps, n).value)))
    else if n == "xmlns" && Truthy(CompactDefault(ps)) then Some(Str(CompactUri(ps)))
    else None
  }

  /** The preconditions of the compact-form theorems: distinct keys, a list under "*", distinct aliases. */
  predicate CompactInput(ps: seq<Field>)
  {
    && Unique(ps)
    && (Get(ps, "*").Some? ==> Get(ps, "*").value.Arr?)
    && (Get(ps, "#N").Some? && Get(ps, "#N").value.Obj? ==> Unique(Get(ps, "#N").value.fields))
  }

  /** The property loop over compact properties writes attribute `n` from the property `n`, unless it is "*" or starts with '#'. */
  lemma CompactLastProperty(ps: seq<Field>, n: string)
    requires CompactInput(ps)
    ensures LastProperty(ps, n, true, CompactContainer(ps)) ==
      if n != "*" && !StartsWith(n, "#") then Get(ps, n) else None
  {
    var container := CompactContainer(ps);
    LastPropertyFound(ps, n, true, container);
    KeyAt(ps, n);
    if LastProperty(ps, n, true, container).Some? {
      var i :| 0 <= i < |ps| && Names(ps[i], n, true, container)
        && ps[i].val == LastProperty(ps, n, true, container).value;
      UniqueGet(ps, i);
    }
  }

  /** The element reverter on a compact element, as intended, in terms of the functions above. */
  lemma CompactElementReverted(tag: string, ps: seq<Field>)
    requires CompactInput(ps)
    requires Compactness([Field(tag, Obj(ps))]) == Ok(true)
    ensures RevertedElement([Field(tag, Obj(ps))], Intended) ==
      match RevertedAll(CompactItems(ps), Intended)
      case Err(e) => Err(e)
      case Ok(nodes) => Ok(OElement(CompactUri(ps), TagName(tag), CompactAttributes(ps), nodes))
  {
    var properties := Obj(ps);
    assert NamespaceOf(Member(properties, "#N")) == CompactDefault(ps);
    assert AliasEntries(Member(properties, "#N"), Intended) == CompactAliases(ps);
    assert Truthy(Member(properties, "*")) <==> Get(ps, "*").Some?;
  }

  /** The attributes of a reverted compact element are those `CompactAttributeOf` names, and no other. */
  lemma CompactAttributeOfLemma(ps: seq<Field>, n: string)
    requires CompactInput(ps)
    ensures Get(CompactAttributes(ps), n) == CompactAttributeOf(ps, n)
  {
    var aliases := CompactAliases(ps);
    var start := if Truthy(CompactDefault(ps)) then [Field("xmlns", Str(CompactUri(ps)))] else [];
    var container := CompactContainer(ps);
    var props := PropertyAttributes(start, ps, true, container);
    PropertyAttributesLast(start, ps, true, container);
    AliasAttributesLast(props, aliases);
    LastAliasDeclared(aliases, n);
    CompactLastProperty(ps, n);
  }

  /**
   * The element reverter on a compact element whose children are a list,
   * as intended: it succeeds exactly when every child reverts, and then
   * builds the element in the namespace "#N" names, under its tag, with
   * the children reverted in order and exactly the attributes
   * `CompactAttributeOf` names.
   */
  lemma CompactReverted(tag: string, ps: seq<Field>)
    requires CompactInput(ps)
    requires Compactness([Field(tag, Obj(ps))]) == Ok(true)
    ensures var r := RevertedElement([Field(tag, Obj(ps))], Intended);
      var items := CompactItems(ps);
      && (r.Ok? <==> forall i :: 0 <= i < |items| ==> RevertedItem(items, i, Intended).Ok?)
      && (r.Ok? ==>
            && r.value.OElement?
            && r.value.namespaceURI == CompactUri(ps)
            && r.value.tagName == TagName(tag)
            && |r.value.childNodes| == |items|
            && (forall i :: 0 <= i < |items| ==> RevertedItem(items, i, Intended) == Ok(r.value.childNodes[i]))
            && (forall n :: Get(r.value.attributes, n) == CompactAttributeOf(ps, n)))
  {
    var items := CompactItems(ps);
    CompactElementReverted(tag, ps);
    RevertedUpToSucceeds(items, |items|, Intended);
    if RevertedAll(items, Intended).Ok? {
      RevertedUpToEach(items, |items|, Intended);
      forall n ensures Get(CompactAttributes(ps), n) == CompactAttributeOf(ps, n) {
        CompactAttributeOfLemma(ps, n);
      }
    }
  }
}
