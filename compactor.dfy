/**
 * The compactor (JXON.js:49-54, 193-327): it rewrites a verbose JXON object
 * into the compact form.
 *   - "children" becomes "*"; blank text, CDATA and comments are dropped,
 *     adjacent texts and adjacent comments are joined with "\n", and a lone
 *     child is hoisted out of its list;
 *   - "@name" attribute keys lose their '@'; "#NAMESPACE" becomes "#N", a
 *     bare URI when the only declaration is the default one;
 *   - an element without attributes whose content is one text becomes that
 *     string.
 * The source mutates the object it is given; here every compactor returns
 * the rewritten value.
 *
 * The text merge at line 223 appends the original text object rather than
 * its compacted text. `Reading` selects between that code as written and the
 * evidently intended merge; the rest of the model uses `Intended`.
 */
module Compactor {
  import opened Wrappers
  import opened Json
  import opened JsText

  datatype Reading = AsWritten | Intended

  /**
   * The kind a JXON object is dispatched on (`for (type in object) break;`):
   * its first key, where any key not starting with '#' means "#ELEMENT".
   */
  function Kind(fs: seq<Field>): string
    requires |fs| > 0
  {
    var k := fs[0].key;
    if |k| > 0 && k[0] == '#' then k else "#ELEMENT"
  }

  /**
   * An attribute key of a verbose element: '@' then a name without '@', that
   * is neither "*" nor starts with '#' (XML names never do).
   */
  predicate AttrKey(k: string)
  {
    StartsWith(k, "@") && '@' !in k[1..] && k[1..] != "*" && !StartsWith(k[1..], "#")
  }

  /**
   * A verbose JXON object, as the converter builds them and as the compactor
   * expects them ("should not be compacted already", line 46): one key; an
   * element holds either a string or properties; a text, CDATA section or
   * comment holds a string.
   */
  predicate Verbose(j: Json)
    decreases Size(j), 1
  {
    j.Obj? && |j.fields| == 1
    && var v := j.fields[0].val;
    if Kind(j.fields) == "#ELEMENT" then
      v.Str? || (v.Obj? && (SizeOfFirst(j.fields); PropsVerbose(v.fields)))
    else
      Kind(j.fields) in {"#TEXT", "#CDATA", "#COMMENT"} && v.Str?
  }

  /**
   * Properties of a verbose element: attribute keys, "#NAMESPACE" holding
   * an object and "children" holding a list of verbose objects.
   */
  predicate PropsVerbose(ps: seq<Field>)
    decreases Size(Obj(ps)), 0
  {
    Unique(ps)
    && (forall k :: k in Keys(ps) ==> k == "children" || k == "#NAMESPACE" || AttrKey(k))
    && (Get(ps, "#NAMESPACE").Some? ==>
          Get(ps, "#NAMESPACE").value.Obj? && Unique(Get(ps, "#NAMESPACE").value.fields))
    && (Get(ps, "children").Some? ==>
          Get(ps, "children").value.Arr?
          && (SizeOfValue(ps, "children"); ChildrenVerbose(Get(ps, "children").value.items)))
  }

  predicate ChildrenVerbose(items: seq<Json>)
    decreases SizeSeq(items), 2
  {
    forall i :: 0 <= i < |items| ==> (SizeOfItem(items, i); Verbose(items[i]))
  }

  // ---------------------------------------------------------------------
  // Leaf compactors
  // ---------------------------------------------------------------------

  /**
   * compactors["#TEXT"] (lines 292-294): the trimmed text, or null when
   * trimming leaves nothing.
   */
  function CompactText(o: seq<Field>): (r: Json)
    requires Get(o, "#TEXT").Some? && Get(o, "#TEXT").value.Str?
    ensures r.Null? <==> Blank(Get(o, "#TEXT").value.s)
    ensures r.Str? ==> r.s != "" && r.s == Trim(Get(o, "#TEXT").value.s)
    ensures r.Null? || r.Str?
  {
    var text := Trim(Get(o, "#TEXT").value.s);
    if text != "" then Str(text) else Null
  }

  /**
   * compactors["#CDATA"] (lines 296-305) with `marker, short` = "#CDATA", "#D"
   * and compactors["#COMMENT"] (lines 307-316) with "#COMMENT", "#C": when
   * the trimmed text is not empty, it moves to the short key and the long
   * key is deleted; otherwise the result is null.
   */
  function CompactCharacterData(o: seq<Field>, marker: string, short: string): (r: Json)
    requires (marker, short) in {("#CDATA", "#D"), ("#COMMENT", "#C")}
    requires Unique(o)
    requires Get(o, marker).Some? && Get(o, marker).value.Str?
    ensures r.Null? <==> Blank(Get(o, marker).value.s)
    ensures r.Obj? ==>
      && Unique(r.fields)
      && Get(r.fields, short) == Some(Str(Trim(Get(o, marker).value.s)))
      && Get(r.fields, marker).None?
      && (forall k :: k != short && k != marker ==> Get(r.fields, k) == Get(o, k))
    ensures r.Null? || r.Obj?
  {
    var text := Trim(Get(o, marker).value.s);
    if text != "" then
      var withShort := Set(o, short, Str(text));
      Obj(Delete(withShort, marker))
    else Null
  }

  // ---------------------------------------------------------------------
  // The attribute compactor
  // ---------------------------------------------------------------------

  /** `attribute.split("@")[1]`, which is `undefined` (the key "undefined") when there is no '@'. */
  function AttrTarget(attribute: string): string
  {
    match Part(Split(attribute, '@'), 1)
    case Some(name) => name
    case None => "undefined"
  }

  /** `properties[target] = properties[attribute]; delete properties[attribute];` */
  function RenameAttribute(ps: seq<Field>, attribute: string): seq<Field>
    requires attribute in Keys(ps)
  {
    Delete(Set(ps, AttrTarget(attribute), Get(ps, attribute).value), attribute)
  }

  /**
   * compactors["#ATTRIBUTE"] (lines 281-290): the value of `attribute` in
   * the properties under the object's first key moves to the name after
   * its '@'.
   */
  function CompactAttribute(attribute: string, o: seq<Field>): (r: seq<Field>)
    requires |o| > 0 && o[0].val.Obj? && attribute in Keys(o[0].val.fields)
    ensures Get(r, o[0].key).Some? && Get(r, o[0].key).value.Obj?
    ensures forall k :: k != o[0].key ==> Get(r, k) == Get(o, k)
  {
    Set(o, o[0].key, Obj(RenameAttribute(o[0].val.fields, attribute)))
  }

  // ---------------------------------------------------------------------
  // The child pass (lines 202-241)
  // ---------------------------------------------------------------------

  /** The text a text merge appends: the original object (`"\n" + child`) as written, its compacted text as intended. */
  function Joined(child: Json, result: Json, reading: Reading): string
  {
    if reading == AsWritten then StringOf(child) else StringOf(result)
  }

  /**
   * One turn of the child loop: `kept` are the children already handled,
   * `child` the next original child and `result` its compaction.
   */
  function Step(kept: seq<Json>, child: Json, result: Json, reading: Reading): seq<Json>
    requires child.Obj? && |child.fields| > 0
  {
    if !Truthy(Some(result)) then kept
    else
      var previous := if |kept| > 0 then kept[|kept| - 1] else Obj([]);
      if Kind(child.fields) == "#TEXT" then
        if previous.Str? then
          kept[..|kept| - 1] + [Str(previous.s + "\n" + Joined(child, result, reading))]
        else
          kept + [result]
      else if Kind(child.fields) == "#COMMENT" && previous.Obj? && "#C" in Keys(previous.fields) && result.Obj? then
        var comment := ToJsString(Get(previous.fields, "#C")) + "\n" + ToJsString(Get(result.fields, "#C"));
        kept[..|kept| - 1] + [Obj(Set(previous.fields, "#C", Str(comment)))]
      else
        kept + [result]
  }

  /** The children kept after handling `cs` in order, starting from `kept`. */
  function Kept(kept: seq<Json>, cs: seq<Json>, reading: Reading): seq<Json>
    requires ChildrenVerbose(cs)
    decreases SizeSeq(cs), 3
  {
    if cs == [] then kept
    else
      assert Verbose(cs[0]) by { SizeOfItem(cs, 0); }
      assert ChildrenVerbose(cs[1..]) by {
        forall i | 0 <= i < |cs| - 1 ensures Verbose(cs[1..][i]) {
          SizeOfItem(cs, i + 1);
          assert cs[1..][i] == cs[i + 1];
        }
      }
      Kept(Step(kept, cs[0], Compacted(cs[0], reading), reading), cs[1..], reading)
  }

  /** "Take out the first child when it is alone" (lines 243-251). */
  function Hoist(kept: seq<Json>): Json
  {
    if |kept| == 1 then kept[0] else Arr(kept)
  }

  // ---------------------------------------------------------------------
  // The attribute and namespace rewrite (lines 253-271)
  // ---------------------------------------------------------------------

  /** The "#N" value a namespace object becomes: absent when empty, the bare URI for a lone default namespace. */
  function NamespaceValue(decls: seq<Field>): (r: Option<Json>)
    ensures r.Some? <==> decls != []
    ensures (forall i :: 0 <= i < |decls| ==> decls[i].val.Str?) ==>
      ((r.Some? && r.value.Str?) <==> (|decls| == 1 && decls[0].key == ""))
    ensures r.Some? && r.value.Str? ==> r.value == decls[0].val
  {
    if decls == [] then None
    else if |decls| == 1 && decls[0].key == "" then Some(decls[0].val)
    else Some(Obj(decls))
  }

  /** Installs "#N" when the namespace object has declarations. */
  function InstallNamespace(ps: seq<Field>, decls: seq<Field>): seq<Field>
  {
    match NamespaceValue(decls)
    case None => ps
    case Some(v) => Set(ps, "#N", v)
  }

  /**
   * The callback `forOwn` runs on one key. A namespace value that is not an
   * object never reaches it from the converter; it is left alone here.
   */
  function Visit(ps: seq<Field>, key: string): seq<Field>
  {
    if key !in Keys(ps) then ps
    else if StartsWith(key, "@") then RenameAttribute(ps, key)
    else if key == "#NAMESPACE" then
      match Get(ps, key).value
      case Obj(decls) => InstallNamespace(Delete(ps, key), decls)
      case _ => Delete(ps, key)
    else ps
  }

  /**
   * The properties after visiting `keys` (a snapshot of the keys, taken
   * when the loop starts), and the attribute keys met, appended to `attributes`.
   */
  function Rewrite(ps: seq<Field>, keys: seq<string>, attributes: seq<string>): (seq<Field>, seq<string>)
    decreases |keys|
  {
    if keys == [] then (ps, attributes)
    else
      var met := if keys[0] in Keys(ps) && StartsWith(keys[0], "@") then attributes + [keys[0]] else attributes;
      Rewrite(Visit(ps, keys[0]), keys[1..], met)
  }

  // ---------------------------------------------------------------------
  // The element compactor and the dispatch
  // ---------------------------------------------------------------------

  /** The properties once "children" has become "*" (lines 202-251). */
  function StarredProps(ps: seq<Field>, reading: Reading): seq<Field>
    requires PropsVerbose(ps)
    decreases Size(Obj(ps)), 0
  {
    var children := Get(ps, "children");
    var rest := Delete(ps, "children");
    if children.Some? && children.value.items != [] then
      SizeOfValue(ps, "children");
      Set(rest, "*", Hoist(Kept([], children.value.items, reading)))
    else rest
  }

  /** compactors["#ELEMENT"] (lines 197-279). */
  function CompactedElement(fields: seq<Field>, reading: Reading): Json
    requires Verbose(Obj(fields)) && Kind(fields) == "#ELEMENT"
    decreases Size(Obj(fields)), 0
  {
    var tag := fields[0].key;
    var properties := fields[0].val;
    if properties.Str? then Obj(fields)
    else
      SizeOfFirst(fields);
      var starred := StarredProps(properties.fields, reading);
      var (ps, attributes) := Rewrite(starred, Keys(starred), []);
      var star := Get(ps, "*");
      if attributes == [] && star.Some? && star.value.Str? then Obj([Field(tag, star.value)])
      else Obj([Field(tag, Obj(ps))])
  }

  /** `compact` (lines 49-54) and the dispatch at lines 211-214: the compactor of the object's kind. */
  function Compacted(j: Json, reading: Reading): Json
    requires Verbose(j)
    decreases Size(j), 1
  {
    var kind := Kind(j.fields);
    if kind == "#ELEMENT" then CompactedElement(j.fields, reading)
    else if kind == "#TEXT" then CompactText(j.fields)
    else if kind == "#CDATA" then CompactCharacterData(j.fields, "#CDATA", "#D")
    else CompactCharacterData(j.fields, "#COMMENT", "#C")
  }

  // ---------------------------------------------------------------------
  // The compactors as the source runs them
  // ---------------------------------------------------------------------

  /** `compact` (lines 49-54), which is also the dispatch of the child loop (lines 211-214). */
  method Compact(o: Json, reading: Reading) returns (r: Json)
    requires Verbose(o)
    ensures r == Compacted(o, reading)
    decreases Size(o), 1
  {
    var kind := Kind(o.fields);
    if kind == "#ELEMENT" {
      r := CompactElement(o.fields, reading);
    } else if kind == "#TEXT" {
      r := CompactText(o.fields);
    } else if kind == "#CDATA" {
      r := CompactCharacterData(o.fields, "#CDATA", "#D");
    } else {
      r := CompactCharacterData(o.fields, "#COMMENT", "#C");
    }
  }

  /** compactors["#ELEMENT"] (lines 197-279). */
  method CompactElement(fields: seq<Field>, reading: Reading) returns (r: Json)
    requires Verbose(Obj(fields)) && Kind(fields) == "#ELEMENT"
    ensures r == CompactedElement(fields, reading)
    decreases Size(Obj(fields)), 0
  {
    var tag := fields[0].key;
    var properties := fields[0].val;
    if properties.Str? {
      return Obj(fields);
    }
    SizeOfFirst(fields);
    var ps := StarChildren(properties.fields, reading);
    var attributes;
    ps, attributes := RewriteAttributes(ps);

    // Compact even more when there is no attribute and the only child is a text:
    var star := Get(ps, "*");
    if attributes == [] && star.Some? && star.value.Str? {
      r := Obj([Field(tag, star.value)]);
    } else {
      r := Obj([Field(tag, Obj(ps))]);
    }
  }

  /** Lines 201-251: "children" is deleted and its compacted children, if any, become "*". */
  method StarChildren(verbose: seq<Field>, reading: Reading) returns (ps: seq<Field>)
    requires PropsVerbose(verbose)
    ensures ps == StarredProps(verbose, reading)
    decreases Size(Obj(verbose)), 1
  {
    // Free the "children" key before attributes are rewritten:
    ps := verbose;
    var children := Get(ps, "children");
    ps := Delete(ps, "children");
    if children.Some? && children.value.items != [] {
      SizeOfValue(verbose, "children");
      var kept := CompactChildren(children.value.items, reading);
      ps := Set(ps, "*", Hoist(kept));
    }
  }

  /**
   * Lines 253-271: `forOwn` over the keys present when it starts, renaming
   * the attributes and turning "#NAMESPACE" into "#N"; `attributes` lists
   * the attribute keys met.
   */
  method RewriteAttributes(starred: seq<Field>) returns (ps: seq<Field>, attributes: seq<string>)
    ensures (ps, attributes) == Rewrite(starred, Keys(starred), [])
  {
    ps := starred;
    var keys := Keys(ps);
    attributes := [];
    var i := 0;
    while i < |keys|
      invariant 0 <= i <= |keys|
      invariant Rewrite(ps, keys[i..], attributes) == Rewrite(starred, keys, [])
    {
      var key := keys[i];
      assert keys[i..][1..] == keys[i + 1..];
      ghost var before, met := ps, attributes;
      if key in Keys(ps) {
        if StartsWith(key, "@") {
          attributes := attributes + [key];
          ps := RenameAttribute(ps, key);
        } else if key == "#NAMESPACE" {
          var value := Get(ps, key).value;
          ps := Delete(ps, key);
          if value.Obj? && value.fields != [] {
            ps := Set(ps, "#N", value);
            if |value.fields| == 1 && value.fields[0].key == "" {
              SetTwice(Delete(before, key), "#N", value, value.fields[0].val);
              ps := Set(ps, "#N", value.fields[0].val);
            }
          }
          assert value.Obj? ==> ps == InstallNamespace(Delete(before, key), value.fields);
        }
      }
      assert ps == Visit(before, key);
      assert Rewrite(before, keys[i..], met) == Rewrite(ps, keys[i + 1..], attributes);
      i := i + 1;
    }
  }

  /**
   * The child loop (lines 207-241) over a copy of the children: it splices
   * out dropped and merged children and replaces the others by their
   * compaction, without advancing the index after a removal.
   */
  method CompactChildren(items: seq<Json>, reading: Reading) returns (kept: seq<Json>)
    requires ChildrenVerbose(items)
    ensures kept == Kept([], items, reading)
    decreases SizeSeq(items), 2
  {
    var children := items;
    var index := 0;
    ghost var next := 0;
    while index < |children|
      invariant 0 <= index <= |children|
      invariant 0 <= next <= |items|
      invariant children[index..] == items[next..]
      invariant ChildrenVerbose(children[index..])
      invariant Kept(children[..index], children[index..], reading) == Kept([], items, reading)
      decreases |children| - index
    {
      var child := children[index];
      assert child == items[next];
      SizeOfItem(items, next);
      VerboseSuffix(children[index..], 1);
      assert children[index..][1..] == children[index + 1..];
      var result := Compact(child, reading);
      ghost var prefix, rest := children[..index], children[index..];
      children, index := Splice(children, index, result, reading);
      next := next + 1;
    }
    assert children[..index] == children;
    kept := children;
  }

  /**
   * The body of the child loop once `result`, the compaction of
   * `children[index]`, is known: the handled prefix grows by one `Step` and
   * the unhandled children lose their first element.
   */
  method Splice(children: seq<Json>, index: nat, result: Json, reading: Reading)
    returns (spliced: seq<Json>, next: nat)
    requires index < |children| && children[index].Obj? && |children[index].fields| > 0
    ensures next <= |spliced|
    ensures spliced[..next] == Step(children[..index], children[index], result, reading)
    ensures spliced[next..] == children[index + 1..]
  {
    var child := children[index];
    ghost var prefix := children[..index];
    spliced, next := children, index;
    if !Truthy(Some(result)) {
      spliced := spliced[..index] + spliced[index + 1..];
      assert spliced[..next] == prefix;
    } else {
      var previous := if index > 0 then spliced[index - 1] else Obj([]);
      assert previous == if |prefix| > 0 then prefix[|prefix| - 1] else Obj([]);
      if Kind(child.fields) == "#TEXT" {
        if previous.Str? {
          // Combine texts:
          var merged := Str(previous.s + "\n" + Joined(child, result, reading));
          spliced := spliced[..index - 1] + [merged] + spliced[index + 1..];
          assert spliced[..next] == prefix[..|prefix| - 1] + [merged];
        } else {
          spliced := spliced[index := result];
          next := index + 1;
          assert spliced[..next] == prefix + [result];
        }
      } else if Kind(child.fields) == "#COMMENT" && previous.Obj? && "#C" in Keys(previous.fields) && result.Obj? {
        // Combine comments:
        var comment := ToJsString(Get(previous.fields, "#C")) + "\n" + ToJsString(Get(result.fields, "#C"));
        var merged := Obj(Set(previous.fields, "#C", Str(comment)));
        spliced := spliced[index - 1 := merged];
        spliced := spliced[..index] + spliced[index + 1..];
        assert spliced[..next] == prefix[..|prefix| - 1] + [merged];
      } else {
        spliced := spliced[index := result];
        next := index + 1;
        assert spliced[..next] == prefix + [result];
      }
    }
  }

  /** A suffix of verbose children is verbose. */
  lemma VerboseSuffix(items: seq<Json>, n: nat)
    requires n <= |items| && ChildrenVerbose(items)
    ensures ChildrenVerbose(items[n..])
  {
    forall i | 0 <= i < |items| - n ensures Verbose(items[n..][i]) {
      SizeOfItem(items, n + i);
      assert items[n..][i] == items[n + i];
    }
  }
}
