/**
 * The compactor cases of test/suites/XMLSuite.js, stated on the model: the
 * leaf compactors on a padded and on a blank value (lines 166-181), and the
 * attribute compactor on the converted `contact` element (lines 140-158).
 */
module CompactorExamples {
  import opened Wrappers
  import opened Json
  import opened JsText
  import opened Compactor

  /** A value with line breaks, a tab and spaces around "???". */
  const Padded: string := "\r\n??? \t"

  /** A value made of white space only. */
  const Spaces: string := "\n\t \r"

  lemma PaddedTrims()
    ensures Trim(Padded) == "???"
  {
    assert LeadingSpaces(Padded) == 2;
    assert TrailingStart(Padded) == 5;
  }

  lemma SpacesBlank()
    ensures Blank(Spaces)
  {
  }

  /** `compactors["#TEXT"]` trims a text, and a blank text becomes null. */
  lemma TextExamples()
    ensures CompactText([Field("#TEXT", Str(Padded))]) == Str("???")
    ensures CompactText([Field("#TEXT", Str(Spaces))]) == Null
  {
    PaddedTrims();
    SpacesBlank();
  }

  /** `compactors["#CDATA"]` moves the trimmed text to "#D", and a blank section becomes null. */
  lemma CDataExamples()
    ensures CompactCharacterData([Field("#CDATA", Str(Padded))], "#CDATA", "#D") == Obj([Field("#D", Str("???"))])
    ensures CompactCharacterData([Field("#CDATA", Str(Spaces))], "#CDATA", "#D") == Null
  {
    PaddedTrims();
    SpacesBlank();
    var long := Field("#CDATA", Str(Padded));
    var short := Field("#D", Str("???"));
    assert "#CDATA" != "#D" by { assert |"#CDATA"| != |"#D"|; }
    assert Set([long], "#D", Str("???")) == [long, short];
    assert Delete([long, short], "#CDATA") == [short];
  }

  /** `compactors["#COMMENT"]` moves the trimmed text to "#C", and a blank comment becomes null. */
  lemma CommentExamples()
    ensures CompactCharacterData([Field("#COMMENT", Str(Padded))], "#COMMENT", "#C") == Obj([Field("#C", Str("???"))])
    ensures CompactCharacterData([Field("#COMMENT", Str(Spaces))], "#COMMENT", "#C") == Null
  {
    PaddedTrims();
    SpacesBlank();
    var long := Field("#COMMENT", Str(Padded));
    var short := Field("#C", Str("???"));
    assert "#COMMENT" != "#C" by { assert |"#COMMENT"| != |"#C"|; }
    assert Set([long], "#C", Str("???")) == [long, short];
    assert Delete([long, short], "#COMMENT") == [short];
  }

  /** The `contact` element the attribute compactor test starts from. */
  function Contact(): seq<Field>
  {
    [Field("contact", Obj([
      Field("#NAMESPACE", Obj([Field("", Str("http://being.here/"))])),
      Field("@firstName", Str("John")),
      Field("@lastName", Str("Bird"))]))]
  }

  lemma FirstNameTarget()
    ensures AttrTarget("@firstName") == "firstName"
  {
    var a := "@firstName";
    assert '@' !in a[1..] by {
      assert a[1..] == "firstName";
      assert forall i :: 0 <= i < |a[1..]| ==> a[1..][i] != '@';
    }
    assert a == [] + ['@'] + a[1..];
    SplitFirst([], '@', a[1..]);
    SplitWithout(a[1..], '@');
  }

  lemma FirstNameSet(ns: Field, first: Field, last: Field, moved: Field)
    requires ns.key == "#NAMESPACE" && first.key == "@firstName" && last.key == "@lastName"
    requires moved.key == "firstName"
    ensures Set([ns, first, last], moved.key, moved.val) == [ns, first, last, moved]
  {
    assert moved.key != ns.key && moved.key != first.key by {
      assert |moved.key| != |ns.key| && |moved.key| != |first.key|;
    }
    assert moved.key != last.key by { assert moved.key[0] != last.key[0]; }
    assert [last][1..] == [];
    assert Set([last], moved.key, moved.val) == [last, moved];
    assert [first, last][1..] == [last];
    assert Set([first, last], moved.key, moved.val) == [first, last, moved];
    assert [ns, first, last][1..] == [first, last];
  }

  lemma FirstNameDelete(ns: Field, first: Field, last: Field, moved: Field)
    requires ns.key == "#NAMESPACE" && first.key == "@firstName"
    ensures Delete([ns, first, last, moved], first.key) == [ns, last, moved]
  {
    assert first.key != ns.key by { assert first.key[0] != ns.key[0]; }
    assert [ns, first, last, moved][1..] == [first, last, moved];
  }

  /** `compactors["#ATTRIBUTE"]("@firstName", contact)` moves "John" to "firstName". */
  lemma AttributeExample()
    ensures CompactAttribute("@firstName", Contact()) ==
      [Field("contact", Obj([
        Field("#NAMESPACE", Obj([Field("", Str("http://being.here/"))])),
        Field("@lastName", Str("Bird")),
        Field("firstName", Str("John"))]))]
  {
    var ns := Field("#NAMESPACE", Obj([Field("", Str("http://being.here/"))]));
    var first := Field("@firstName", Str("John"));
    var last := Field("@lastName", Str("Bird"));
    var moved := Field("firstName", Str("John"));
    FirstNameTarget();
    FirstNameSet(ns, first, last, moved);
    FirstNameDelete(ns, first, last, moved);
  }
}
