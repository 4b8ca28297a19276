/**
 * The conversion case of test/suites/XMLSuite.js:142-153: the `contact`
 * element of the user fixture, which declares the default namespace and
 * has two attributes, converted without compaction.
 */
module ConvertExamples {
  import opened Wrappers
  import opened Json
  import opened JsText
  import opened Dom
  import opened Converter
  import opened Jxon
  import Compactor

  const Uri: string := "http://being.here/"

  /** The `xmlns` attribute as the DOM reports it: no prefix, local name "xmlns". */
  function Xmlns(): Node
  {
    Node(ATTRIBUTE_NODE, "xmlns", "xmlns", "", "http://www.w3.org/2000/xmlns/", Uri, [], [])
  }

  function Plain(name: string, value: string): Node
  {
    Node(ATTRIBUTE_NODE, name, name, "", "", value, [], [])
  }

  /** `<contact xmlns="http://being.here/" firstName="John" lastName="Bird"/>`. */
  function Contact(): Node
  {
    Node(ELEMENT_NODE, "contact", "contact", "", Uri, "",
      [Xmlns(), Plain("firstName", "John"), Plain("lastName", "Bird")], [])
  }

  /** The object the test expects. */
  function Expected(): Json
  {
    Obj([Field("contact", Obj([
      Field("#NAMESPACE", Obj([Field("", Str(Uri))])),
      Field("@firstName", Str("John")),
      Field("@lastName", Str("Bird"))]))])
  }

  lemma DiffersAt(s: string, p: string, i: nat)
    requires i < |s| && i < |p| && s[i] != p[i]
    ensures !StartsWith(s, p)
  {
    if |p| <= |s| {
      assert s[..|p|][i] == s[i];
    }
  }

  /** The declaration goes to "#NAMESPACE" under the default alias. */
  lemma DeclarationStep()
    ensures AddAttribute([], None, Xmlns()) ==
      ([Field("#NAMESPACE", Obj([Field("", Str(Uri))]))], None)
  {
    var f := AttributeField(Xmlns(), None);
    assert f == Field("@xmlns", Str(Uri));
    assert StartsWith(f.key, "@xmlns") by {
      assert f.key[..|"@xmlns"|] == "@xmlns";
    }
    assert DeclaredAlias(f.key) == "" by {
      SplitWithout("@xmlns", ':');
    }
    assert Declarations([]) == [];
  }

  /** The names of the element and its attributes are XML names. */
  lemma ContactWellFormed()
    ensures WellFormed(Contact())
  {
    assert XmlName("contact") by {
      assert forall i :: 0 <= i < |"contact"| ==> "contact"[i] in "contact";
    }
    assert XmlName("xmlns");
    assert XmlName("firstName");
    assert XmlName("lastName");
    var attrs := Contact().attributes;
    assert forall i :: 0 <= i < |attrs| ==> NamedNode(attrs[i]);
  }

  /** "firstName" is copied under "@firstName", after "#NAMESPACE". */
  lemma FirstNameStep(ns: Field)
    requires ns.key == "#NAMESPACE"
    ensures AddAttribute([ns], None, Plain("firstName", "John")) ==
      ([ns, Field("@firstName", Str("John"))], None)
  {
    var key := "@firstName";
    assert AttributeField(Plain("firstName", "John"), None) == Field(key, Str("John"));
    assert key[1] == 'f' && "@xmlns"[1] == 'x';
    DiffersAt(key, "@xmlns", 1);
    assert key != ns.key by { assert key[0] != ns.key[0]; }
    assert [ns][1..] == [];
    assert Set([ns], key, Str("John")) == [ns, Field(key, Str("John"))];
    assert !StartsWith(AttributeField(Plain("firstName", "John"), None).key, "@xmlns");
  }

  /** "lastName" is copied under "@lastName", after "@firstName". */
  lemma LastNameStep(ns: Field, first: Field)
    requires ns.key == "#NAMESPACE" && first.key == "@firstName"
    ensures AddAttribute([ns, first], None, Plain("lastName", "Bird")) ==
      ([ns, first, Field("@lastName", Str("Bird"))], None)
  {
    var key := "@lastName";
    assert AttributeField(Plain("lastName", "Bird"), None) == Field(key, Str("Bird"));
    assert key[1] == 'l' && "@xmlns"[1] == 'x';
    DiffersAt(key, "@xmlns", 1);
    assert key != ns.key by { assert key[0] != ns.key[0]; }
    assert key != first.key by { assert |key| != |first.key|; }
    assert [ns, first][1..] == [first];
    assert [first][1..] == [];
    assert Set([first], key, Str("Bird")) == [first, Field(key, Str("Bird"))];
    assert Set([ns, first], key, Str("Bird")) == [ns, first, Field(key, Str("Bird"))];
    assert !StartsWith(AttributeField(Plain("lastName", "Bird"), None).key, "@xmlns");
  }

  /** The attribute loop over three attributes, one after the other. */
  lemma ThreeAttributes(a: Node, b: Node, c: Node)
    ensures Attributes([a, b, c], None).0 ==
      AddAttribute(AddAttribute(AddAttribute([], None, a).0, None, b).0, None, c).0
  {
    assert [a][..0] == [];
    assert Attributes([a][..0], None) == ([], None);
    var one := Attributes([a], None);
    assert one == AddAttribute([], None, a);
    assert one.1 == None;
    assert [a, b][..1] == [a];
    assert Attributes([a, b][..1], None) == one;
    var two := Attributes([a, b], None);
    assert two == AddAttribute(one.0, None, b);
    assert two.1 == None;
    assert [a, b, c][..2] == [a, b];
    assert Attributes([a, b, c][..2], None) == two;
  }

  /** `convert(contact, false)` is the verbose object the test expects. */
  lemma ContactExample(reading: Compactor.Reading)
    ensures WellFormed(Contact()) && Conversion(Contact(), Some(false), reading) == Ok(Expected())
  {
    ContactWellFormed();
    var ns := Field("#NAMESPACE", Obj([Field("", Str(Uri))]));
    var first := Field("@firstName", Str("John"));
    var attrs := Contact().attributes;
    DeclarationStep();
    FirstNameStep(ns);
    LastNameStep(ns, first);
    ThreeAttributes(Xmlns(), Plain("firstName", "John"), Plain("lastName", "Bird"));
    assert Attributes(attrs, None).0 == [ns, first, Field("@lastName", Str("Bird"))];
    assert GetPrefix(Contact(), None) == "";
  }
}
