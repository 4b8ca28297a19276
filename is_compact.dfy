/**
 * `isCompact` (JXON.js:56-88): whether the element `{tag: properties}` is in
 * the compact form. It is when "*" is a key of the properties; otherwise it
 * is verbose when "children" holds an array or some key starts with '@';
 * otherwise it is compact. The "Uh, oh!" error at lines 83-85 is never
 * thrown. Properties that are not an object or an array make the `in`
 * operator throw a TypeError, as does an object without keys (its
 * "properties" are `undefined`).
 */
module Detector {
  import opened Wrappers
  import opened Json
  import opened JsText
  import opened Compactor
  import opened ElementCompaction

  /**
   * The properties `for ... in` and `Object.keys` visit on a value, in order:
   * an object's fields; the indices of an array or a string, each with the
   * item or the character there; nothing on null.
   */
  function Entries(v: Json): (es: seq<Field>)
    ensures v.Obj? ==> es == v.fields
    ensures v.Null? ==> es == []
    ensures v.Arr? ==> |es| == |v.items|
    ensures v.Str? ==> |es| == |v.s|
    ensures forall i :: 0 <= i < |es| && !v.Obj? ==> es[i].key == DecimalString(i)
  {
    match v
    case Obj(fs) => fs
    case Arr(items) => seq(|items|, i requires 0 <= i < |items| => Field(DecimalString(i), items[i]))
    case Str(s) => seq(|s|, i requires 0 <= i < |s| => Field(DecimalString(i), Str([s[i]])))
    case Null => []
  }

  /**
   * `v[k]` for a name `k` that is not an index and not "length": the value
   * under `k` on an object, `undefined` on anything else.
   */
  function Member(v: Json, k: string): Option<Json>
  {
    if v.Obj? then Get(v.fields, k) else None
  }

  /** `y.isArray(properties["children"])`. */
  predicate ChildrenArray(properties: Json)
  {
    Member(properties, "children").Some? && Member(properties, "children").value.Arr?
  }

  /** Some key of the properties starts with '@'. */
  predicate Attributed(properties: Json)
  {
    exists k :: k in Keys(Entries(properties)) && StartsWith(k, "@")
  }

  /**
   * What `isCompact` answers for the object whose first field is
   * `{tag: properties}`, by the rule its comments state.
   */
  function Compactness(element: seq<Field>): Result<bool, Failure>
  {
    if element == [] then Err(TypeError)
    else
      var properties := element[0].val;
      if !(properties.Obj? || properties.Arr?) then Err(TypeError)
      else Ok("*" in Keys(Entries(properties)) || !(ChildrenArray(properties) || Attributed(properties)))
  }

  lemma AtHead(k: string)
    ensures StartsWith(k, "@") <==> |k| > 0 && k[0] == '@'
  {
    if |k| > 0 && k[0] == '@' {
      assert k[..1] == "@";
    }
  }

  /**
   * `isCompact` as the source runs it: the "*" test, the "children" test,
   * then a scan of the keys with a `determined` flag; a scan that finds no
   * '@' key settles on compact, so the "Uh, oh!" branch is dead.
   */
  method IsCompact(element: seq<Field>) returns (r: Result<bool, Failure>)
    ensures r == Compactness(element)
  {
    if element == [] {
      return Err(TypeError);
    }
    var properties := element[0].val;
    if !(properties.Obj? || properties.Arr?) {
      return Err(TypeError);
    }
    var keys := Keys(Entries(properties));
    var compact := "*" in keys;
    var determined := compact;

    if !determined {
      if ChildrenArray(properties) {
        determined := true;
      }
      var index := 0;
      while !determined && index < |keys|
        invariant 0 <= index <= |keys|
        invariant !compact
        invariant determined <==>
          ChildrenArray(properties) || exists i :: 0 <= i < index && StartsWith(keys[i], "@")
      {
        AtHead(keys[index]);
        if |keys[index]| > 0 && keys[index][0] == '@' {
          determined := true;
        }
        index := index + 1;
      }
      if !determined {
        compact := true;
        determined := true;
      }
    }

    // The "Uh, oh!" exception of lines 83-85 is never reached.
    assert determined;
    r := Ok(compact);
  }

  // ---------------------------------------------------------------------
  // The cases of test/suites/XMLSuite.js:197-200 (the number 1 of the third
  // case is written as the string "1"; the answer does not look at values)
  // ---------------------------------------------------------------------

  lemma SuiteExamples()
    ensures Compactness([Field("tag", Obj([Field("*", Arr([]))]))]) == Ok(true)
    ensures Compactness([Field("tag", Obj([Field("children", Arr([]))]))]) == Ok(false)
    ensures Compactness([Field("tag", Obj([
      Field("#N", Str("not supposed to exist")), Field("@a", Str("1")), Field("children", Arr([]))]))]) == Ok(false)
    ensures Compactness([Field("tag", Obj([Field("children", Obj([Field("something", Str("different"))]))]))]) == Ok(true)
  {
    var star := Obj([Field("*", Arr([]))]);
    assert "*" in Keys(Entries(star));
    var third := Obj([Field("#N", Str("not supposed to exist")), Field("@a", Str("1")), Field("children", Arr([]))]);
    assert ChildrenArray(third);
    var fourth := Obj([Field("children", Obj([Field("something", Str("different"))]))]);
    assert Keys(Entries(fourth)) == ["children"];
    NotStartsWith("children", "@");
    assert "children" != "*";
  }

  /**
   * A verbose element (as the converter builds them) is taken for verbose
   * exactly when it has "children" or an attribute: one with neither, such
   * as `<a/>` or `<a xmlns="u"/>`, is taken for compact.
   */
  lemma VerboseDetected(tag: string, ps: seq<Field>)
    requires PropsVerbose(ps)
    ensures Compactness([Field(tag, Obj(ps))]) ==
      Ok(!(Get(ps, "children").Some? || exists k :: k in Keys(ps) && AttrKey(k)))
  {
    var p := Obj(ps);
    assert !ChildrenArray(p) ==> Get(ps, "children").None?;
    NotStartsWith("children", "@");
    assert "#NAMESPACE"[0] != '@';
    NotStartsWith("#NAMESPACE", "@");
    assert "*"[0] != '@';
    NotStartsWith("*", "@");
    assert Attributed(p) <==> exists k :: k in Keys(ps) && AttrKey(k) by {
      forall k | k in Keys(ps) ensures StartsWith(k, "@") <==> AttrKey(k) {
        if StartsWith(k, "@") {
          assert k != "children" && k != "#NAMESPACE";
        }
      }
    }
  }

  /** Every attribute of verbose properties holds a string, as the converter's attributes do. */
  predicate TextAttributes(ps: seq<Field>)
  {
    forall k :: k in Keys(ps) && AttrKey(k) ==> Get(ps, k).Some? && Get(ps, k).value.Str?
  }

  /** "children" is a name an attribute key can turn into. */
  lemma ChildrenPlain()
    ensures Plain("children")
  {
    assert "children"[0] != '#';
    NotStartsWith("children", "#");
  }

  /** Properties with only "*", "#N" and plain names, none an array under "children", are compact. */
  lemma PlainPropsCompact(tag: string, v: Json)
    requires v.Obj? && forall k :: k in Keys(v.fields) ==> k == "*" || k == "#N" || Plain(k)
    requires Get(v.fields, "children").None? || Get(v.fields, "children").value.Str?
    ensures Compactness([Field(tag, v)]) == Ok(true)
  {
    forall k | k in Keys(v.fields) ensures !StartsWith(k, "@") {
      PlainNotAt(k);
    }
    assert !Attributed(v);
  }

  /**
   * `isCompact` takes every element the compactor returns for compact: true
   * when its properties are an object, and a TypeError when the element
   * collapsed to a string (or was a string already).
   */
  lemma CompactedIsCompact(fields: seq<Field>, reading: Reading)
    requires Verbose(Obj(fields)) && Kind(fields) == "#ELEMENT"
    requires fields[0].val.Obj? ==> TextAttributes(fields[0].val.fields)
    ensures var c := CompactedElement(fields, reading);
      c.Obj? && Compactness(c.fields) == (if c.fields[0].val.Obj? then Ok(true) else Err(TypeError))
  {
    CompactedElementShape(fields, reading);
    var c := CompactedElement(fields, reading);
    var v := c.fields[0].val;
    if fields[0].val.Obj? && v.Obj? {
      var ps := fields[0].val.fields;
      ChildrenPlain();
      AtName("children");
      assert Get(v.fields, "children") == Get(ps, "@" + "children");
      assert c.fields == [Field(c.fields[0].key, v)];
      PlainPropsCompact(c.fields[0].key, v);
    }
  }
}
