/**
 * What the element compactor (JXON.js:197-279) makes of the properties of a
 * verbose element, key by key:
 *   - every "@name" attribute becomes "name", with the same value;
 *   - "#NAMESPACE" disappears; "#N" holds the declarations when there are
 *     any, and the bare URI when the only one is the default namespace;
 *   - "*" holds the kept children, and the lone kept child itself;
 *   - with no attribute and a string under "*", the element is that string.
 * The attribute pass visits a snapshot of the keys taken before it starts
 * (lodash `forOwn`), while the visits rename and add keys; the lemmas below
 * follow that pass one key at a time.
 */
module ElementCompaction {
  import opened Wrappers
  import opened Json
  import opened JsText
  import opened Compactor

  /** A name an attribute key can turn into: no '@', not "*", not a '#' marker. */
  predicate Plain(n: string)
  {
    '@' !in n && n != "*" && !StartsWith(n, "#")
  }

  /** A key that is neither an '@' key, nor a namespace key, nor a plain name ("*", say). */
  predicate Other(k: string)
  {
    !StartsWith(k, "@") && k != "#NAMESPACE" && k != "#N" && !Plain(k)
  }

  /** Every '@' key of the properties is an attribute key. */
  predicate AttrsNamed(ps: seq<Field>)
  {
    forall k :: k in Keys(ps) && StartsWith(k, "@") ==> AttrKey(k)
  }

  /** The element has no '@' key: nothing for the attribute pass to rename. */
  predicate NoAttributes(ps: seq<Field>)
  {
    forall k :: k in Keys(ps) ==> !StartsWith(k, "@")
  }

  /** What "#N" becomes when "#NAMESPACE" is visited in `ps`. */
  function NsAfter(ps: seq<Field>): Option<Json>
  {
    match Get(ps, "#NAMESPACE")
    case Some(Obj(decls)) => if NamespaceValue(decls).Some? then NamespaceValue(decls) else Get(ps, "#N")
    case _ => Get(ps, "#N")
  }

  /** The "#N" of a compacted element, read off its verbose properties. */
  function NsValueOf(ps: seq<Field>): Option<Json>
  {
    match Get(ps, "#NAMESPACE")
    case Some(Obj(decls)) => NamespaceValue(decls)
    case _ => None
  }

  /** `"@" + name` is the attribute key of a plain name. */
  lemma AtName(n: string)
    ensures StartsWith("@" + n, "@") && ("@" + n)[1..] == n
    ensures Plain(n) ==> AttrKey("@" + n)
  {
    assert ("@" + n)[..1] == "@";
  }

  /** A plain name does not start with '@'; an '@' key is not plain. */
  lemma PlainNotAt(k: string)
    ensures StartsWith(k, "@") ==> !Plain(k) && k != "#N" && k != "#NAMESPACE" && k != "*" && k != "children"
  {
    if StartsWith(k, "@") {
      assert k[0] == '@';
    }
  }

  /** `attribute.split("@")[1]` of an attribute key is the name after its '@'. */
  lemma {:induction false} AttrTargetOf(k: string)
    requires AttrKey(k)
    ensures k == "@" + k[1..] && Plain(k[1..]) && AttrTarget(k) == k[1..]
  {
    assert k[0] == '@';
    assert k == [] + ['@'] + k[1..];
    SplitFirst([], '@', k[1..]);
    SplitWithout(k[1..], '@');
    assert Split(k, '@') == [[], k[1..]];
  }

  /**
   * The attribute compactor (lines 281-290) on an attribute key: the value
   * moves from "@name" to "name"; every other property, and every other
   * key of the object, stays as it was.
   */
  lemma CompactAttributeMoves(attribute: string, o: seq<Field>)
    requires |o| > 0 && o[0].val.Obj? && attribute in Keys(o[0].val.fields)
    requires Unique(o[0].val.fields) && AttrKey(attribute)
    ensures var r := CompactAttribute(attribute, o);
      var ps := Get(r, o[0].key).value.fields;
      && Unique(ps)
      && Get(ps, attribute[1..]) == Get(o[0].val.fields, attribute)
      && Get(ps, attribute).None?
      && (forall k :: k != attribute && k != attribute[1..] ==> Get(ps, k) == Get(o[0].val.fields, k))
  {
    AttrTargetOf(attribute);
    assert attribute != attribute[1..] by { PlainNotAt(attribute); }
  }

  /** How one visit of the attribute pass changes the properties `ps` into `v`, key class by key class. */
  ghost predicate VisitedAs(ps: seq<Field>, v: seq<Field>, key: string)
  {
    && Unique(v) && AttrsNamed(v)
    && (forall a :: StartsWith(a, "@") ==> Get(v, a) == if a == key then None else Get(ps, a))
    && Get(v, "#NAMESPACE") == (if key == "#NAMESPACE" then None else Get(ps, "#NAMESPACE"))
    && Get(v, "#N") == (if key == "#NAMESPACE" then NsAfter(ps) else Get(ps, "#N"))
    && (forall n :: Plain(n) ==>
          Get(v, n) == if key == "@" + n && key in Keys(ps) then Get(ps, key) else Get(ps, n))
    && (forall k :: Other(k) ==> Get(v, k) == Get(ps, k))
  }

  /** `v` has its '@' keys named when every '@' key it holds was one of `ps` (or is `key`, gone). */
  lemma NamedFrom(ps: seq<Field>, v: seq<Field>, key: string)
    requires AttrsNamed(ps)
    requires forall a :: StartsWith(a, "@") ==> Get(v, a) == if a == key then None else Get(ps, a)
    ensures AttrsNamed(v)
  {
    forall k | k in Keys(v) && StartsWith(k, "@") ensures AttrKey(k) {
      assert Get(v, k).Some?;
    }
  }

  /** Renaming an attribute key touches only that key and its target. */
  lemma RenameElsewhere(ps: seq<Field>, key: string, k: string)
    requires key in Keys(ps) && StartsWith(key, "@") && k != key && k != AttrTarget(key)
    ensures Get(Visit(ps, key), k) == Get(ps, k)
  {
  }

  /** Visiting a present attribute key renames it to its plain name. */
  lemma VisitAttribute(ps: seq<Field>, key: string)
    requires Unique(ps) && AttrsNamed(ps) && key in Keys(ps) && StartsWith(key, "@")
    ensures VisitedAs(ps, Visit(ps, key), key)
  {
    AttrTargetOf(key);
    PlainNotAt(key);
    var t := key[1..];
    var v := Visit(ps, key);
    assert v == Delete(Set(ps, t, Get(ps, key).value), key);
    forall a | StartsWith(a, "@") ensures Get(v, a) == if a == key then None else Get(ps, a) {
      PlainNotAt(a);
      if a != key {
        RenameElsewhere(ps, key, a);
      }
    }
    NamedFrom(ps, v, key);
    forall n | Plain(n)
      ensures Get(v, n) == if key == "@" + n && key in Keys(ps) then Get(ps, key) else Get(ps, n)
    {
      AtName(n);
      if n != t {
        RenameElsewhere(ps, key, n);
      }
    }
    assert t != "#N" && t != "#NAMESPACE" by {
      assert !StartsWith(t, "#");
    }
    RenameElsewhere(ps, key, "#N");
    RenameElsewhere(ps, key, "#NAMESPACE");
    forall k | Other(k) ensures Get(v, k) == Get(ps, k) {
      RenameElsewhere(ps, key, k);
    }
  }

  /** Visiting "#NAMESPACE" touches only "#NAMESPACE" and "#N". */
  lemma NamespaceElsewhere(ps: seq<Field>, k: string)
    requires "#NAMESPACE" in Keys(ps) && k != "#NAMESPACE" && k != "#N"
    ensures Get(Visit(ps, "#NAMESPACE"), k) == Get(ps, k)
  {
    assert "#NAMESPACE"[0] == '#';
    NotStartsWith("#NAMESPACE", "@");
  }

  /** Visiting "#NAMESPACE" removes it and sets "#N" as `NsAfter` says. */
  lemma NamespaceInstalled(ps: seq<Field>)
    requires Unique(ps) && "#NAMESPACE" in Keys(ps)
    ensures Get(Visit(ps, "#NAMESPACE"), "#NAMESPACE").None?
    ensures Get(Visit(ps, "#NAMESPACE"), "#N") == NsAfter(ps)
    ensures Unique(Visit(ps, "#NAMESPACE"))
  {
    assert !StartsWith("#NAMESPACE", "@") by {
      assert "#NAMESPACE"[0] == '#';
      PlainNotAt("#NAMESPACE");
    }
  }

  /** Visiting "#NAMESPACE" deletes it and installs "#N". */
  lemma VisitNamespace(ps: seq<Field>)
    requires Unique(ps) && AttrsNamed(ps) && "#NAMESPACE" in Keys(ps)
    ensures VisitedAs(ps, Visit(ps, "#NAMESPACE"), "#NAMESPACE")
  {
    var v := Visit(ps, "#NAMESPACE");
    NamespaceInstalled(ps);
    forall a | StartsWith(a, "@") ensures Get(v, a) == Get(ps, a) {
      PlainNotAt(a);
      NamespaceElsewhere(ps, a);
    }
    NamedFrom(ps, v, "#NAMESPACE");
    forall n | Plain(n) ensures Get(v, n) == Get(ps, n) {
      assert n != "#N" && n != "#NAMESPACE" by {
        assert StartsWith("#N", "#") && StartsWith("#NAMESPACE", "#");
      }
      NamespaceElsewhere(ps, n);
    }
    forall k | Other(k) ensures Get(v, k) == Get(ps, k) {
      NamespaceElsewhere(ps, k);
    }
  }

  /** One visit of the attribute pass, key class by key class. */
  lemma VisitEffect(ps: seq<Field>, key: string)
    requires Unique(ps) && AttrsNamed(ps)
    ensures VisitedAs(ps, Visit(ps, key), key)
  {
    if key !in Keys(ps) {
      forall n | Plain(n) ensures key == "@" + n ==> key !in Keys(ps) { }
    } else if StartsWith(key, "@") {
      VisitAttribute(ps, key);
    } else if key == "#NAMESPACE" {
      VisitNamespace(ps);
    } else {
      forall n | Plain(n) ensures key != "@" + n { AtName(n); }
    }
  }

  /** The attribute pass keeps the properties an object with attribute keys only under '@'. */
  lemma {:induction false} RewriteKeepsShape(ps: seq<Field>, keys: seq<string>, met: seq<string>)
    requires Unique(ps) && AttrsNamed(ps)
    ensures Unique(Rewrite(ps, keys, met).0) && AttrsNamed(Rewrite(ps, keys, met).0)
    decreases |keys|
  {
    if keys != [] {
      VisitEffect(ps, keys[0]);
      var met' := if keys[0] in Keys(ps) && StartsWith(keys[0], "@") then met + [keys[0]] else met;
      RewriteKeepsShape(Visit(ps, keys[0]), keys[1..], met');
    }
  }

  /** After the pass, a visited '@' key is gone and an unvisited one is untouched. */
  lemma {:induction false} RewriteAtKeys(ps: seq<Field>, keys: seq<string>, met: seq<string>)
    requires Unique(ps) && AttrsNamed(ps)
    ensures forall a :: StartsWith(a, "@") ==>
      Get(Rewrite(ps, keys, met).0, a) == if a in keys then None else Get(ps, a)
    decreases |keys|
  {
    if keys != [] {
      VisitEffect(ps, keys[0]);
      var met' := if keys[0] in Keys(ps) && StartsWith(keys[0], "@") then met + [keys[0]] else met;
      var v := Visit(ps, keys[0]);
      RewriteAtKeys(v, keys[1..], met');
      forall a | StartsWith(a, "@")
        ensures Get(Rewrite(ps, keys, met).0, a) == if a in keys then None else Get(ps, a)
      {
        assert a in keys <==> a == keys[0] || a in keys[1..];
      }
    }
  }

  /** After the pass, "#NAMESPACE" is gone when visited and "#N" is what that visit made of it. */
  lemma {:induction false} RewriteNamespace(ps: seq<Field>, keys: seq<string>, met: seq<string>)
    requires Unique(ps) && AttrsNamed(ps) && Distinct(keys)
    ensures var r := Rewrite(ps, keys, met).0;
      && Get(r, "#NAMESPACE") == (if "#NAMESPACE" in keys then None else Get(ps, "#NAMESPACE"))
      && Get(r, "#N") == (if "#NAMESPACE" in keys then NsAfter(ps) else Get(ps, "#N"))
    decreases |keys|
  {
    if keys != [] {
      VisitEffect(ps, keys[0]);
      var met' := if keys[0] in Keys(ps) && StartsWith(keys[0], "@") then met + [keys[0]] else met;
      var v := Visit(ps, keys[0]);
      RewriteNamespace(v, keys[1..], met');
      assert "#NAMESPACE" in keys <==> keys[0] == "#NAMESPACE" || "#NAMESPACE" in keys[1..];
      if keys[0] == "#NAMESPACE" {
        assert "#NAMESPACE" !in keys[1..];
        assert NsAfter(v) == Get(v, "#N");
      } else {
        assert NsAfter(v) == NsAfter(ps);
      }
    }
  }

  /** After the pass, a plain name holds the value of its visited attribute key, if any. */
  lemma {:induction false} RewritePlain(ps: seq<Field>, keys: seq<string>, met: seq<string>)
    requires Unique(ps) && AttrsNamed(ps) && Distinct(keys)
    ensures forall n :: Plain(n) ==>
      Get(Rewrite(ps, keys, met).0, n)
        == if "@" + n in keys && "@" + n in Keys(ps) then Get(ps, "@" + n) else Get(ps, n)
    decreases |keys|
  {
    if keys != [] {
      VisitEffect(ps, keys[0]);
      var met' := if keys[0] in Keys(ps) && StartsWith(keys[0], "@") then met + [keys[0]] else met;
      var v := Visit(ps, keys[0]);
      RewritePlain(v, keys[1..], met');
      forall n | Plain(n)
        ensures Get(Rewrite(ps, keys, met).0, n)
          == if "@" + n in keys && "@" + n in Keys(ps) then Get(ps, "@" + n) else Get(ps, n)
      {
        AtName(n);
        var a := "@" + n;
        assert a in keys <==> a == keys[0] || a in keys[1..];
        if a != keys[0] {
          assert Get(v, a) == Get(ps, a);
          assert a in Keys(v) <==> a in Keys(ps) by {
            assert Get(v, a).Some? <==> Get(ps, a).Some?;
          }
        } else {
          assert a !in keys[1..];
        }
      }
    }
  }

  /** After the pass, the other keys ("*" among them) hold what they held. */
  lemma {:induction false} RewriteOther(ps: seq<Field>, keys: seq<string>, met: seq<string>)
    requires Unique(ps) && AttrsNamed(ps)
    ensures forall k :: Other(k) ==> Get(Rewrite(ps, keys, met).0, k) == Get(ps, k)
    decreases |keys|
  {
    if keys != [] {
      VisitEffect(ps, keys[0]);
      var met' := if keys[0] in Keys(ps) && StartsWith(keys[0], "@") then met + [keys[0]] else met;
      RewriteOther(Visit(ps, keys[0]), keys[1..], met');
    }
  }

  /** The attribute list the pass builds stays empty exactly when it meets no '@' key. */
  lemma {:induction false} RewriteMet(ps: seq<Field>, keys: seq<string>, met: seq<string>)
    requires Unique(ps) && AttrsNamed(ps) && Distinct(keys)
    ensures Rewrite(ps, keys, met).1 == [] <==>
      met == [] && forall k :: k in keys && k in Keys(ps) ==> !StartsWith(k, "@")
    decreases |keys|
  {
    if keys != [] {
      VisitEffect(ps, keys[0]);
      var met' := if keys[0] in Keys(ps) && StartsWith(keys[0], "@") then met + [keys[0]] else met;
      var v := Visit(ps, keys[0]);
      RewriteMet(v, keys[1..], met');
      forall k | k in keys[1..] && StartsWith(k, "@") ensures k in Keys(v) <==> k in Keys(ps) {
        assert k != keys[0];
        assert Get(v, k).Some? <==> Get(ps, k).Some?;
      }
      assert forall k :: k in keys <==> k == keys[0] || k in keys[1..];
    }
  }

  /** The '@' keys of verbose properties are attribute keys. */
  lemma PropsNamed(ps: seq<Field>)
    requires PropsVerbose(ps)
    ensures AttrsNamed(ps)
  {
    forall k | k in Keys(ps) && StartsWith(k, "@") ensures AttrKey(k) {
      PlainNotAt(k);
    }
  }

  /** Verbose properties hold no "*" key. */
  lemma NoStarYet(ps: seq<Field>)
    requires PropsVerbose(ps)
    ensures "*" !in Keys(ps)
  {
    assert !StartsWith("*", "@") by { assert "*"[0] == '*'; PlainNotAt("*"); }
  }

  /** "children" becoming "*" touches no other key. */
  lemma StarredElsewhere(ps: seq<Field>, reading: Reading, k: string)
    requires PropsVerbose(ps) && k != "*" && k != "children"
    ensures Get(StarredProps(ps, reading), k) == Get(ps, k)
  {
  }

  /**
   * "children" becoming "*" (lines 202-251): "*" is present exactly when
   * the element had children, and holds the kept children, the lone one
   * hoisted.
   */
  lemma StarredStar(ps: seq<Field>, reading: Reading)
    requires PropsVerbose(ps)
    ensures var s := StarredProps(ps, reading);
      && Unique(s)
      && Get(s, "children").None?
      && (Get(s, "*").Some? <==> Get(ps, "children").Some? && Get(ps, "children").value.items != [])
      && (Get(s, "*").Some? ==> Get(s, "*") == Some(Hoist(Kept([], Get(ps, "children").value.items, reading))))
  {
    NoStarYet(ps);
  }

  /** "children" becoming "*" leaves the attribute keys as they were. */
  lemma StarredAttributes(ps: seq<Field>, reading: Reading)
    requires PropsVerbose(ps)
    ensures var s := StarredProps(ps, reading);
      && Unique(s) && AttrsNamed(s)
      && (forall a :: StartsWith(a, "@") ==> Get(s, a) == Get(ps, a))
  {
    var s := StarredProps(ps, reading);
    StarredStar(ps, reading);
    forall a | StartsWith(a, "@") ensures Get(s, a) == Get(ps, a) {
      PlainNotAt(a);
      StarredElsewhere(ps, reading, a);
    }
    PropsNamed(ps);
    NamedFrom(ps, s, "");
  }

  /**
   * "children" becoming "*" keeps "#NAMESPACE", and leaves no "#N", no plain
   * name and no other key than "*".
   */
  lemma StarredNames(ps: seq<Field>, reading: Reading)
    requires PropsVerbose(ps)
    ensures var s := StarredProps(ps, reading);
      && Get(s, "#NAMESPACE") == Get(ps, "#NAMESPACE")
      && Get(s, "#N").None?
      && (forall n :: Plain(n) ==> Get(s, n).None?)
      && (forall k :: Other(k) && k != "*" ==> Get(s, k).None?)
  {
    var s := StarredProps(ps, reading);
    StarredStar(ps, reading);
    StarredElsewhere(ps, reading, "#NAMESPACE");
    StarredElsewhere(ps, reading, "#N");
    forall n | Plain(n) ensures Get(s, n).None? {
      if n != "children" {
        StarredElsewhere(ps, reading, n);
        assert n !in Keys(ps) by {
          if n in Keys(ps) { PlainNotAt(n); }
        }
      }
    }
    forall k | Other(k) && k != "*" ensures Get(s, k).None? {
      StarredElsewhere(ps, reading, k);
    }
  }

  /** The attribute pass over the starred properties meets an attribute exactly when the element has one. */
  lemma RewrittenAttributes(ps: seq<Field>, reading: Reading)
    requires PropsVerbose(ps)
    ensures var starred := StarredProps(ps, reading);
      Rewrite(starred, Keys(starred), []).1 == [] <==> NoAttributes(ps)
  {
    var starred := StarredProps(ps, reading);
    StarredStar(ps, reading);
    StarredAttributes(ps, reading);
    UniqueKeysDistinct(starred);
    RewriteMet(starred, Keys(starred), []);
    forall k | StartsWith(k, "@") ensures k in Keys(starred) <==> k in Keys(ps) {
      assert Get(starred, k).Some? <==> Get(ps, k).Some?;
    }
  }

  /** The attribute pass over the starred properties keeps the keys distinct. */
  lemma RewrittenUnique(ps: seq<Field>, reading: Reading)
    requires PropsVerbose(ps)
    ensures var starred := StarredProps(ps, reading);
      Unique(Rewrite(starred, Keys(starred), []).0)
  {
    var starred := StarredProps(ps, reading);
    StarredAttributes(ps, reading);
    RewriteKeepsShape(starred, Keys(starred), []);
  }

  /** The attribute pass over the starred properties leaves "*" as it was. */
  lemma RewrittenStar(ps: seq<Field>, reading: Reading)
    requires PropsVerbose(ps)
    ensures var starred := StarredProps(ps, reading);
      Get(Rewrite(starred, Keys(starred), []).0, "*") == Get(starred, "*")
  {
    var starred := StarredProps(ps, reading);
    StarredAttributes(ps, reading);
    RewriteOther(starred, Keys(starred), []);
    PlainNotAt("*");
    assert "*"[0] != '@';
    NotStartsWith("*", "@");
    assert Other("*");
  }

  /** The attribute pass over the starred properties removes every '@' key. */
  lemma RewrittenAtGone(ps: seq<Field>, reading: Reading, k: string)
    requires PropsVerbose(ps)
    ensures var starred := StarredProps(ps, reading);
      StartsWith(k, "@") ==> Get(Rewrite(starred, Keys(starred), []).0, k).None?
  {
    var starred := StarredProps(ps, reading);
    StarredAttributes(ps, reading);
    RewriteAtKeys(starred, Keys(starred), []);
  }

  /** The attribute pass over the starred properties removes "#NAMESPACE". */
  lemma RewrittenNamespaceGone(ps: seq<Field>, reading: Reading)
    requires PropsVerbose(ps)
    ensures var starred := StarredProps(ps, reading);
      Get(Rewrite(starred, Keys(starred), []).0, "#NAMESPACE").None?
  {
    var starred := StarredProps(ps, reading);
    StarredAttributes(ps, reading);
    UniqueKeysDistinct(starred);
    RewriteNamespace(starred, Keys(starred), []);
  }

  /** After the attribute pass over the starred properties, no key but "*" is neither an '@' key, a namespace key nor a plain name. */
  lemma RewrittenOtherGone(ps: seq<Field>, reading: Reading, k: string)
    requires PropsVerbose(ps)
    ensures var starred := StarredProps(ps, reading);
      Other(k) && k != "*" ==> Get(Rewrite(starred, Keys(starred), []).0, k).None?
  {
    var starred := StarredProps(ps, reading);
    StarredAttributes(ps, reading);
    StarredNames(ps, reading);
    RewriteOther(starred, Keys(starred), []);
  }

  /** After the attribute pass over the starred properties, the keys are "*", "#N" and plain names only. */
  lemma RewrittenNames(ps: seq<Field>, reading: Reading)
    requires PropsVerbose(ps)
    ensures var starred := StarredProps(ps, reading);
      forall k :: k in Keys(Rewrite(starred, Keys(starred), []).0) ==> k == "*" || k == "#N" || Plain(k)
  {
    var starred := StarredProps(ps, reading);
    var r := Rewrite(starred, Keys(starred), []).0;
    RewrittenNamespaceGone(ps, reading);
    forall k | k in Keys(r) ensures k == "*" || k == "#N" || Plain(k) {
      assert Get(r, k).Some?;
      RewrittenAtGone(ps, reading, k);
      RewrittenOtherGone(ps, reading, k);
    }
  }

  /**
   * The properties after the attribute pass over the starred properties
   * hold only "*", "#N" and plain names, and "*" is unchanged.
   */
  lemma RewrittenKeys(ps: seq<Field>, reading: Reading)
    requires PropsVerbose(ps)
    ensures var starred := StarredProps(ps, reading);
      var r := Rewrite(starred, Keys(starred), []).0;
      && Unique(r)
      && (forall k :: k in Keys(r) ==> k == "*" || k == "#N" || Plain(k))
      && Get(r, "*") == Get(starred, "*")
  {
    RewrittenUnique(ps, reading);
    RewrittenStar(ps, reading);
    RewrittenNames(ps, reading);
  }

  /**
   * After the attribute pass over the starred properties, "name" holds
   * what "@name" held and "#N" holds the declarations.
   */
  lemma RewrittenValues(ps: seq<Field>, reading: Reading)
    requires PropsVerbose(ps)
    ensures var starred := StarredProps(ps, reading);
      var r := Rewrite(starred, Keys(starred), []).0;
      && Get(r, "#N") == NsValueOf(ps)
      && (forall n :: Plain(n) ==> Get(r, n) == Get(ps, "@" + n))
  {
    var starred := StarredProps(ps, reading);
    var keys := Keys(starred);
    StarredStar(ps, reading);
    StarredAttributes(ps, reading);
    StarredNames(ps, reading);
    UniqueKeysDistinct(starred);
    var r := Rewrite(starred, keys, []).0;
    RewriteNamespace(starred, keys, []);
    RewritePlain(starred, keys, []);
    assert Get(r, "#N") == NsValueOf(ps) by {
      if "#NAMESPACE" in keys {
        assert Get(starred, "#N").None?;
      } else {
        assert Get(ps, "#NAMESPACE").None?;
      }
    }
    forall n | Plain(n) ensures Get(r, n) == Get(ps, "@" + n) {
      AtName(n);
      PlainNotAt("@" + n);
    }
  }

  /**
   * The element compactor on the verbose element `{tag: properties}`: the
   * tag is kept; a string element is left as it is; otherwise the element
   * becomes the string under "*" exactly when it has no attribute and its
   * children came down to one text (its namespace declarations are dropped
   * then), and else an object with "*", "#N" and plain names only, where
   * "name" holds what "@name" held, "*" holds the kept children and "#N"
   * the declarations.
   */
  lemma CompactedElementShape(fields: seq<Field>, reading: Reading)
    requires Verbose(Obj(fields)) && Kind(fields) == "#ELEMENT"
    ensures var r := CompactedElement(fields, reading);
      && r.Obj? && |r.fields| == 1 && r.fields[0].key == fields[0].key
      && (fields[0].val.Str? ==> r == Obj(fields))
    ensures fields[0].val.Obj? ==>
      var ps := fields[0].val.fields;
      var star := Get(StarredProps(ps, reading), "*");
      var v := CompactedElement(fields, reading).fields[0].val;
      && (v.Str? || v.Obj?)
      && (v.Str? <==> NoAttributes(ps) && star.Some? && star.value.Str?)
      && (v.Str? ==> star == Some(v))
      && (v.Obj? ==>
            && Unique(v.fields)
            && (forall k :: k in Keys(v.fields) ==> k == "*" || k == "#N" || Plain(k))
            && Get(v.fields, "*") == star
            && Get(v.fields, "#N") == NsValueOf(ps)
            && (forall n :: Plain(n) ==> Get(v.fields, n) == Get(ps, "@" + n)))
  {
    if fields[0].val.Obj? {
      var ps := fields[0].val.fields;
      SizeOfFirst(fields);
      RewrittenAttributes(ps, reading);
      RewrittenKeys(ps, reading);
      RewrittenValues(ps, reading);
    }
  }
}
