/**
 * Reverting the verbose `contact` object of test/suites/XMLSuite.js:142-153
 * gives back the element it was converted from: the same namespace, tag
 * and attributes, with the declaration restored as "xmlns".
 */
module RevertExamples {
  import opened Wrappers
  import opened Json
  import opened JsText
  import opened Compactor
  import opened Reverter
  import opened ReverterProperties
  import opened Dom
  import opened ConvertExamples

  /** The `contact` element as the reverter creates it. */
  function RevertedContact(): Out
  {
    OElement(Uri, "contact",
      [Field("xmlns", Str(Uri)), Field("firstName", Str("John")), Field("lastName", Str("Bird"))], [])
  }

  /** The keys of a three-field object, and when it has distinct keys. */
  lemma ThreeKeys(a: Field, b: Field, c: Field)
    ensures Keys([a, b, c]) == [a.key, b.key, c.key]
    ensures Unique([a, b, c]) <==> a.key != b.key && a.key != c.key && b.key != c.key
  {
    assert [a, b, c][1..] == [b, c];
    assert [b, c][1..] == [c];
    assert [c][1..] == [];
    assert Keys([c]) == [c.key];
    assert Keys([b, c]) == [b.key, c.key];
    assert Unique([c]);
    assert Unique([b, c]) <==> b.key != c.key;
  }

  /** The property loop visits one more property. */
  lemma PropertySnoc(start: seq<Field>, entries: seq<Field>, e: Field)
    ensures PropertyAttributes(start, entries + [e], false, None) ==
      if BecomesAttribute(e.key, None) then SetAttribute(PropertyAttributes(start, entries, false, None), AttributeName(e.key, false), e.val)
      else PropertyAttributes(start, entries, false, None)
  {
    assert (entries + [e])[..|entries|] == entries;
  }

  /** The property loop over a declaration and two verbose attributes. */
  lemma ThreeProperties(start: seq<Field>, ns: Field, first: Field, last: Field)
    requires StartsWith(ns.key, "#")
    requires BecomesAttribute(first.key, None) && BecomesAttribute(last.key, None)
    ensures PropertyAttributes(start, [ns, first, last], false, None) ==
      SetAttribute(SetAttribute(start, AttributeName(first.key, false), first.val), AttributeName(last.key, false), last.val)
  {
    PropertySnoc(start, [], ns);
    assert [] + [ns] == [ns];
    PropertySnoc(start, [ns], first);
    assert [ns] + [first] == [ns, first];
    PropertySnoc(start, [ns, first], last);
    assert [ns, first] + [last] == [ns, first, last];
  }

  /** Verbose properties declaring the default namespace `u` and holding the attributes `a` and `b`. */
  function DeclaredPair(u: string, a: string, va: string, b: string, vb: string): seq<Field>
  {
    [Field("#NAMESPACE", Obj([Field("", Str(u))])), Field("@" + a, Str(va)), Field("@" + b, Str(vb))]
  }

  lemma PairKeys(u: string, a: string, va: string, b: string, vb: string)
    requires a != b
    ensures Keys(DeclaredPair(u, a, va, b, vb)) == ["#NAMESPACE", "@" + a, "@" + b]
    ensures Unique(DeclaredPair(u, a, va, b, vb))
  {
    var ps := DeclaredPair(u, a, va, b, vb);
    ThreeKeys(ps[0], ps[1], ps[2]);
    assert ("@" + a)[1..] == a && ("@" + b)[1..] == b;
    assert "#NAMESPACE"[0] != ("@" + a)[0] && "#NAMESPACE"[0] != ("@" + b)[0];
  }

  lemma PairVerbose(u: string, a: string, va: string, b: string, vb: string)
    requires a != b && a != "" && b != "" && a[0] != '#' && b[0] != '#' && '@' !in a && '@' !in b && a != "*" && b != "*"
    ensures PropsVerbose(DeclaredPair(u, a, va, b, vb))
    ensures AttrKey("@" + a)
  {
    var ps := DeclaredPair(u, a, va, b, vb);
    PairKeys(u, a, va, b, vb);
    assert ("@" + a)[..1] == "@" && ("@" + b)[..1] == "@";
    assert ("@" + a)[1..] == a && ("@" + b)[1..] == b;
    NotStartsWith(a, "#");
    NotStartsWith(b, "#");
    assert "children"[0] != ("@" + a)[0] && "children"[0] != ("@" + b)[0];
    assert Get(ps, "children").None?;
  }

  /** A key new to a one-field object is appended. */
  lemma SetAfterOne(x: Field, a: string, va: Json)
    requires x.key != a
    ensures Set([x], a, va) == [x, Field(a, va)]
  {
    assert [x][1..] == [];
  }

  /** A key new to a two-field object is appended. */
  lemma SetAfterTwo(x: Field, y: Field, b: string, vb: Json)
    requires x.key != b && y.key != b
    ensures Set([x, y], b, vb) == [x, y, Field(b, vb)]
  {
    assert [x, y][1..] == [y];
    SetAfterOne(y, b, vb);
  }

  /** Two new keys assigned after `x` follow it in order. */
  lemma TwoSets(x: Field, a: string, va: Json, b: string, vb: Json)
    requires x.key != a && x.key != b && a != b
    ensures Set(Set([x], a, va), b, vb) == [x, Field(a, va), Field(b, vb)]
  {
    SetAfterOne(x, a, va);
    SetAfterTwo(x, Field(a, va), b, vb);
  }

  /** An alias named "" declares nothing. */
  lemma DefaultAliasOnly(attrs: seq<Field>, v: Json)
    ensures AliasAttributes(attrs, [Field("", v)]) == attrs
  {
    assert [Field("", v)][..0] == [];
  }

  /** The namespace and container of `DeclaredPair`. */
  lemma PairNamespace(u: string, a: string, va: string, b: string, vb: string)
    requires u != "" && a != b
    ensures var ps := DeclaredPair(u, a, va, b, vb);
      && VerboseContainer(ps) == None && VerboseItems(ps) == []
      && NamespaceFields(ps) == [Field("", Str(u))]
      && Truthy(DefaultNamespace(ps)) && VerboseUri(ps) == u
  {
    PairKeys(u, a, va, b, vb);
    assert "children"[0] != ("@" + a)[0] && "children"[0] != ("@" + b)[0];
    assert "children"[0] != "#NAMESPACE"[0];
  }

  /** The property loop over `DeclaredPair`, from the "xmlns" declaration. */
  lemma PairProperties(u: string, a: string, va: string, b: string, vb: string)
    requires a != b && a != "xmlns" && b != "xmlns"
    ensures PropertyAttributes([Field("xmlns", Str(u))], DeclaredPair(u, a, va, b, vb), false, None) ==
      [Field("xmlns", Str(u)), Field(a, Str(va)), Field(b, Str(vb))]
  {
    var ps := DeclaredPair(u, a, va, b, vb);
    assert "#NAMESPACE"[..1] == "#";
    assert ("@" + a)[..1] == "@" && ("@" + b)[..1] == "@";
    assert ("@" + a)[1..] == a && ("@" + b)[1..] == b;
    NotStartsWith("@" + a, "#");
    NotStartsWith("@" + b, "#");
    ThreeProperties([Field("xmlns", Str(u))], ps[0], ps[1], ps[2]);
    TwoSets(Field("xmlns", Str(u)), a, Str(va), b, Str(vb));
  }

  lemma PairAttributes(u: string, a: string, va: string, b: string, vb: string)
    requires u != "" && a != b && a != "xmlns" && b != "xmlns"
    ensures VerboseAttributes(DeclaredPair(u, a, va, b, vb)) ==
      [Field("xmlns", Str(u)), Field(a, Str(va)), Field(b, Str(vb))]
  {
    PairNamespace(u, a, va, b, vb);
    PairProperties(u, a, va, b, vb);
    DefaultAliasOnly([Field("xmlns", Str(u)), Field(a, Str(va)), Field(b, Str(vb))], Str(u));
  }

  /** The properties of the converted `contact`. */
  function ContactProps(): seq<Field>
  {
    DeclaredPair(Uri, "firstName", "John", "lastName", "Bird")
  }

  /** The object the conversion test expects holds `ContactProps` under "contact". */
  lemma ExpectedProps()
    ensures Expected() == Obj([Field("contact", Obj(ContactProps()))])
  {
    assert "@" + "firstName" == "@firstName" && "@" + "lastName" == "@lastName";
  }

  /** The properties of `contact` are verbose, with an attribute. */
  lemma ContactVerbose()
    ensures PropsVerbose(ContactProps())
    ensures AttrKey("@" + "firstName") && "@" + "firstName" in Keys(ContactProps())
  {
    assert '@' !in "firstName" && '@' !in "lastName";
    assert "firstName"[0] != '#' && "lastName"[0] != '#' && "firstName" != "lastName";
    PairVerbose(Uri, "firstName", "John", "lastName", "Bird");
    PairKeys(Uri, "firstName", "John", "lastName", "Bird");
  }

  /** The attributes, children and namespace `contact` reverts to. */
  lemma ContactParts()
    ensures VerboseAttributes(ContactProps()) == RevertedContact().attributes
    ensures VerboseItems(ContactProps()) == [] && VerboseUri(ContactProps()) == Uri
  {
    assert "firstName" != "lastName" && "firstName" != "xmlns" && "lastName" != "xmlns";
    PairAttributes(Uri, "firstName", "John", "lastName", "Bird");
    PairNamespace(Uri, "firstName", "John", "lastName", "Bird");
  }

  /** Reverting the verbose `contact` object gives the element back. */
  lemma ContactReverted(reading: Reading)
    ensures RevertedElement([Field("contact", Obj(ContactProps()))], reading) == Ok(RevertedContact())
  {
    ContactVerbose();
    ContactParts();
    TagNameKept("", "contact");
    VerboseElementReverted("contact", ContactProps(), reading);
  }

  /** Converting `contact` without compaction and reverting the result gives the element back. */
  lemma ContactRoundTrip(reading: Reading)
    ensures WellFormed(Contact()) && var c := Jxon.Conversion(Contact(), Some(false), reading);
      c.Ok? && c.value.Obj? && RevertedElement(c.value.fields, reading) == Ok(RevertedContact())
  {
    ContactExample(reading);
    ExpectedProps();
    ContactReverted(reading);
  }
}
