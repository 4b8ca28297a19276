/**
 * Properties of the compactor's child pass (JXON.js:202-241): what is kept
 * of an element's children once each has been compacted, dropped or merged
 * into the child before it.
 */
module ChildPass {
  import opened Wrappers
  import opened Json
  import opened JsText
  import opened Compactor

  /** No kept child is falsy: null results are spliced out. */
  predicate AllTruthy(kept: seq<Json>)
  {
    forall i :: 0 <= i < |kept| ==> Truthy(Some(kept[i]))
  }

  /** No two texts side by side: a text after a text is merged into it. */
  predicate NoAdjacentTexts(kept: seq<Json>)
  {
    forall i :: 0 <= i < |kept| - 1 ==> !(kept[i].Str? && kept[i + 1].Str?)
  }

  /** An object holding the "#C" key, as a compacted comment does. */
  predicate HoldsComment(j: Json)
  {
    j.Obj? && "#C" in Keys(j.fields)
  }

  /** No two comments side by side: a comment after a comment is merged into it. */
  predicate NoAdjacentComments(kept: seq<Json>)
  {
    forall i :: 0 <= i < |kept| - 1 ==> !(HoldsComment(kept[i]) && HoldsComment(kept[i + 1]))
  }

  /**
   * What compacting one verbose child gives: a text becomes a string or
   * null; anything else an object or null, which holds "#C" exactly when
   * the child is a comment.
   */
  lemma ResultShape(child: Json, reading: Reading)
    requires Verbose(child)
    ensures var r := Compacted(child, reading);
      && (Kind(child.fields) == "#TEXT" ==> r.Null? || r.Str?)
      && (Kind(child.fields) != "#TEXT" ==> r.Null? || r.Obj?)
      && (r.Obj? ==> (HoldsComment(r) <==> Kind(child.fields) == "#COMMENT"))
  {
    var r := Compacted(child, reading);
    var kind := Kind(child.fields);
    if kind == "#ELEMENT" {
      var tag := child.fields[0].key;
      assert r == CompactedElement(child.fields, reading);
      assert r.Obj? && |r.fields| == 1 && r.fields[0].key == tag;
      assert Keys(r.fields) == [tag];
      assert tag != "#C";
    } else if kind == "#CDATA" && r.Obj? {
      assert Get(child.fields, "#C") == None;
      assert Get(r.fields, "#C") == None;
    } else if kind == "#COMMENT" && r.Obj? {
      assert Get(r.fields, "#C").Some?;
    }
  }

  lemma FirstVerbose(cs: seq<Json>)
    requires cs != [] && ChildrenVerbose(cs)
    ensures Verbose(cs[0]) && cs[0].Obj? && |cs[0].fields| > 0
    ensures ChildrenVerbose(cs[1..])
  {
    SizeOfItem(cs, 0);
    VerboseSuffix(cs, 1);
  }

  /** One turn of the child pass, unfolded. */
  lemma KeptCons(kept: seq<Json>, cs: seq<Json>, reading: Reading)
    requires cs != [] && ChildrenVerbose(cs)
    ensures Verbose(cs[0]) && cs[0].Obj? && |cs[0].fields| > 0 && ChildrenVerbose(cs[1..])
    ensures Kept(kept, cs, reading) == Kept(Step(kept, cs[0], Compacted(cs[0], reading), reading), cs[1..], reading)
  {
    FirstVerbose(cs);
  }

  /** The list never grows. */
  lemma {:induction false} KeptNeverGrows(kept: seq<Json>, cs: seq<Json>, reading: Reading)
    requires ChildrenVerbose(cs)
    ensures |Kept(kept, cs, reading)| <= |kept| + |cs|
    decreases |cs|
  {
    if cs != [] {
      KeptCons(kept, cs, reading);
      var next := Step(kept, cs[0], Compacted(cs[0], reading), reading);
      assert |next| <= |kept| + 1;
      KeptNeverGrows(next, cs[1..], reading);
    }
  }

  /** One turn keeps only truthy children. */
  lemma StepKeepsTruthy(kept: seq<Json>, child: Json, result: Json, reading: Reading)
    requires child.Obj? && |child.fields| > 0 && AllTruthy(kept)
    ensures AllTruthy(Step(kept, child, result, reading))
  {
    var next := Step(kept, child, result, reading);
    if Truthy(Some(result)) {
      var n := |kept|;
      var previous := if n > 0 then kept[n - 1] else Obj([]);
      if next != kept + [result] {
        assert next == kept[..n - 1] + [next[n - 1]];
        assert next[..n - 1] == kept[..n - 1];
      }
    }
  }

  /** Children whose compaction is falsy are dropped: every kept child is truthy. */
  lemma {:induction false} KeptTruthy(kept: seq<Json>, cs: seq<Json>, reading: Reading)
    requires ChildrenVerbose(cs) && AllTruthy(kept)
    ensures AllTruthy(Kept(kept, cs, reading))
    decreases |cs|
  {
    if cs != [] {
      KeptCons(kept, cs, reading);
      var result := Compacted(cs[0], reading);
      StepKeepsTruthy(kept, cs[0], result, reading);
      KeptTruthy(Step(kept, cs[0], result, reading), cs[1..], reading);
    }
  }

  /** One turn keeps texts apart. */
  lemma StepKeepsTextsApart(kept: seq<Json>, child: Json, result: Json, reading: Reading)
    requires child.Obj? && |child.fields| > 0 && NoAdjacentTexts(kept)
    requires Kind(child.fields) == "#TEXT" ==> result.Null? || result.Str?
    requires Kind(child.fields) != "#TEXT" ==> result.Null? || result.Obj?
    ensures NoAdjacentTexts(Step(kept, child, result, reading))
  {
    var next := Step(kept, child, result, reading);
    if Truthy(Some(result)) {
      var n := |kept|;
      var previous := if n > 0 then kept[n - 1] else Obj([]);
      if Kind(child.fields) == "#TEXT" && previous.Str? {
        assert next == kept[..n - 1] + [next[n - 1]];
        assert next[..n - 1] == kept[..n - 1];
        assert n >= 2 ==> !next[n - 2].Str?;
      } else if Kind(child.fields) == "#COMMENT" && previous.Obj? && "#C" in Keys(previous.fields) && result.Obj? {
        assert next == kept[..n - 1] + [next[n - 1]];
        assert next[..n - 1] == kept[..n - 1];
        assert !next[n - 1].Str?;
      } else {
        assert next == kept + [result];
        assert result.Str? ==> !previous.Str?;
      }
    }
  }

  /** Adjacent texts are merged, under either reading of the merge. */
  lemma {:induction false} KeptNoAdjacentTexts(kept: seq<Json>, cs: seq<Json>, reading: Reading)
    requires ChildrenVerbose(cs) && NoAdjacentTexts(kept)
    ensures NoAdjacentTexts(Kept(kept, cs, reading))
    decreases |cs|
  {
    if cs != [] {
      KeptCons(kept, cs, reading);
      var result := Compacted(cs[0], reading);
      ResultShape(cs[0], reading);
      StepKeepsTextsApart(kept, cs[0], result, reading);
      KeptNoAdjacentTexts(Step(kept, cs[0], result, reading), cs[1..], reading);
    }
  }

  /** One turn keeps comments apart. */
  lemma StepKeepsCommentsApart(kept: seq<Json>, child: Json, result: Json, reading: Reading)
    requires child.Obj? && |child.fields| > 0 && NoAdjacentComments(kept)
    requires Kind(child.fields) == "#TEXT" ==> result.Null? || result.Str?
    requires Kind(child.fields) != "#TEXT" ==> result.Null? || result.Obj?
    requires result.Obj? ==> (HoldsComment(result) <==> Kind(child.fields) == "#COMMENT")
    ensures NoAdjacentComments(Step(kept, child, result, reading))
  {
    var next := Step(kept, child, result, reading);
    if Truthy(Some(result)) {
      var n := |kept|;
      var previous := if n > 0 then kept[n - 1] else Obj([]);
      if Kind(child.fields) == "#TEXT" && previous.Str? {
        assert next == kept[..n - 1] + [next[n - 1]];
        assert next[..n - 1] == kept[..n - 1];
        assert !HoldsComment(next[n - 1]);
      } else if Kind(child.fields) == "#TEXT" {
        assert next == kept + [result];
        assert !HoldsComment(result);
      } else if Kind(child.fields) == "#COMMENT" && previous.Obj? && "#C" in Keys(previous.fields) && result.Obj? {
        assert next == kept[..n - 1] + [next[n - 1]];
        assert next[..n - 1] == kept[..n - 1];
        assert n >= 2 ==> !HoldsComment(next[n - 2]);
      } else {
        assert next == kept + [result];
        assert HoldsComment(result) ==> !HoldsComment(previous);
      }
    }
  }

  /** Adjacent comments are merged. */
  lemma {:induction false} KeptNoAdjacentComments(kept: seq<Json>, cs: seq<Json>, reading: Reading)
    requires ChildrenVerbose(cs) && NoAdjacentComments(kept)
    ensures NoAdjacentComments(Kept(kept, cs, reading))
    decreases |cs|
  {
    if cs != [] {
      KeptCons(kept, cs, reading);
      var result := Compacted(cs[0], reading);
      ResultShape(cs[0], reading);
      StepKeepsCommentsApart(kept, cs[0], result, reading);
      KeptNoAdjacentComments(Step(kept, cs[0], result, reading), cs[1..], reading);
    }
  }

  // ---------------------------------------------------------------------
  // Texts only: a reference definition of the merge
  // ---------------------------------------------------------------------

  /** A verbose text object. */
  predicate IsText(j: Json)
  {
    j.Obj? && |j.fields| == 1 && j.fields[0].key == "#TEXT" && j.fields[0].val.Str?
  }

  predicate AllTexts(cs: seq<Json>)
  {
    forall i :: 0 <= i < |cs| ==> IsText(cs[i])
  }

  /** The trimmed texts of `cs` that are not blank, in order. */
  function NonBlankTexts(cs: seq<Json>): seq<string>
    requires AllTexts(cs)
  {
    if cs == [] then []
    else
      var s := cs[0].fields[0].val.s;
      (if Blank(s) then [] else [Trim(s)]) + NonBlankTexts(cs[1..])
  }

  /** `ts` joined with "\n". */
  function JoinLines(ts: seq<string>): string
    requires ts != []
  {
    if |ts| == 1 then ts[0] else ts[0] + "\n" + JoinLines(ts[1..])
  }

  /** The kept list holding the texts `ts` merged into one string, or nothing. */
  function Lines(ts: seq<string>): seq<Json>
  {
    if ts == [] then [] else [Str(JoinLines(ts))]
  }

  lemma {:induction false} JoinLinesSnoc(ts: seq<string>, t: string)
    requires ts != []
    ensures JoinLines(ts + [t]) == JoinLines(ts) + "\n" + t
    decreases |ts|
  {
    if |ts| > 1 {
      assert (ts + [t])[1..] == ts[1..] + [t];
      JoinLinesSnoc(ts[1..], t);
    }
  }

  lemma TextsVerbose(cs: seq<Json>)
    requires AllTexts(cs)
    ensures ChildrenVerbose(cs)
  {
    forall i | 0 <= i < |cs| ensures Verbose(cs[i]) {
      assert Kind(cs[i].fields) == "#TEXT";
    }
  }

  function TextObject(s: string): Json
  {
    Obj([Field("#TEXT", Str(s))])
  }

  /** A text object compacts to its trimmed text, or null when blank. */
  lemma CompactedText(s: string, reading: Reading)
    ensures Verbose(TextObject(s)) && Kind(TextObject(s).fields) == "#TEXT"
    ensures Compacted(TextObject(s), reading) == if Blank(s) then Null else Str(Trim(s))
  {
    assert Kind(TextObject(s).fields) == "#TEXT";
  }

  /** As intended, a text either is dropped or extends the merged string. */
  lemma TextStepIntended(prior: seq<string>, s: string)
    ensures (CompactedText(s, Intended);
      Step(Lines(prior), TextObject(s), Compacted(TextObject(s), Intended), Intended)
      == Lines(prior + if Blank(s) then [] else [Trim(s)]))
  {
    CompactedText(s, Intended);
    if !Blank(s) && prior != [] {
      JoinLinesSnoc(prior, Trim(s));
    }
    if Blank(s) {
      assert prior + [] == prior;
    }
  }

  /** The trimmed text of a text object, as a list of at most one line. */
  function NonBlankText(c: Json): seq<string>
    requires IsText(c)
  {
    var s := c.fields[0].val.s;
    if Blank(s) then [] else [Trim(s)]
  }

  lemma AppendAssociates(a: seq<string>, b: seq<string>, c: seq<string>)
    ensures (a + b) + c == a + (b + c)
  {
  }

  lemma TextsSuffix(cs: seq<Json>)
    requires cs != [] && AllTexts(cs)
    ensures AllTexts(cs[1..]) && ChildrenVerbose(cs) && ChildrenVerbose(cs[1..])
    ensures NonBlankTexts(cs) == NonBlankText(cs[0]) + NonBlankTexts(cs[1..])
  {
    TextsVerbose(cs);
    TextsVerbose(cs[1..]);
  }

  /** As intended, the first text of the list is dropped or merged into the texts before it. */
  lemma FirstTextKept(prior: seq<string>, cs: seq<Json>)
    requires cs != [] && AllTexts(cs)
    ensures (TextsSuffix(cs);
      Kept(Lines(prior), cs, Intended) == Kept(Lines(prior + NonBlankText(cs[0])), cs[1..], Intended))
  {
    TextsSuffix(cs);
    var s := cs[0].fields[0].val.s;
    assert cs[0] == TextObject(s);
    KeptCons(Lines(prior), cs, Intended);
    TextStepIntended(prior, s);
  }

  /**
   * As intended, the child pass over texts keeps one string: the
   * non-blank texts, trimmed and joined with "\n" (after the texts already
   * merged into `prior`), or nothing when every text is blank.
   */
  lemma {:induction false} AllTextsKept(prior: seq<string>, cs: seq<Json>)
    requires AllTexts(cs)
    ensures (TextsVerbose(cs); Kept(Lines(prior), cs, Intended) == Lines(prior + NonBlankTexts(cs)))
    decreases |cs|
  {
    TextsVerbose(cs);
    if cs == [] {
      assert prior + [] == prior;
    } else {
      TextsSuffix(cs);
      var first, rest := NonBlankText(cs[0]), NonBlankTexts(cs[1..]);
      FirstTextKept(prior, cs);
      AllTextsKept(prior + first, cs[1..]);
      AppendAssociates(prior, first, rest);
    }
  }

  // ---------------------------------------------------------------------
  // The text merge at line 223
  // ---------------------------------------------------------------------

  lemma TrimWord(s: string)
    requires s == "a" || s == "b"
    ensures !Blank(s) && Trim(s) == s
  {
    assert !IsJsSpace(s[0]);
    assert LeadingSpaces(s) == 0;
    assert TrailingStart(s) == 1;
    assert s[0..1] == s;
  }

  /** The first text of the pair starts the kept list. */
  lemma FirstOfPair(reading: Reading)
    ensures (TextsVerbose([TextObject("a"), TextObject("b")]); TextsVerbose([TextObject("b")]);
      Kept([], [TextObject("a"), TextObject("b")], reading) == Kept([Str("a")], [TextObject("b")], reading))
  {
    var cs := [TextObject("a"), TextObject("b")];
    assert AllTexts(cs) && AllTexts([TextObject("b")]);
    TextsVerbose(cs);
    TextsVerbose([TextObject("b")]);
    TrimWord("a");
    CompactedText("a", reading);
    KeptCons([], cs, reading);
    assert Step([], cs[0], Str("a"), reading) == [Str("a")];
    assert cs[1..] == [TextObject("b")];
  }

  /** As written, the second text appends the string form of its object. */
  lemma SecondOfPairAsWritten()
    ensures (TextsVerbose([TextObject("b")]);
      Kept([Str("a")], [TextObject("b")], AsWritten) == [Str("a" + "\n" + "[object Object]")])
  {
    var cs := [TextObject("b")];
    var first := [Str("a")];
    assert AllTexts(cs);
    TextsVerbose(cs);
    TrimWord("b");
    CompactedText("b", AsWritten);
    KeptCons(first, cs, AsWritten);
    assert Joined(TextObject("b"), Str("b"), AsWritten) == "[object Object]";
    assert first[..0] == [];
    assert Step(first, TextObject("b"), Str("b"), AsWritten) == [Str("a" + "\n" + "[object Object]")];
    assert cs[1..] == [];
  }

  /**
   * As written, merging the texts "a" and "b" appends the string form of the
   * second text object, "[object Object]", instead of "b".
   */
  lemma TextMergeAsWritten()
    ensures (TextsVerbose([TextObject("a"), TextObject("b")]);
      Kept([], [TextObject("a"), TextObject("b")], AsWritten) == [Str("a" + "\n" + "[object Object]")])
  {
    FirstOfPair(AsWritten);
    SecondOfPairAsWritten();
  }

  /** The empty comment of `<e>a<!---->b</e>`, converted. */
  function EmptyComment(): Json
  {
    Obj([Field("#COMMENT", Str(""))])
  }

  /** An empty comment between two texts is verbose, compacts to null and is dropped. */
  lemma EmptyCommentDropped(kept: seq<Json>, t: Json, reading: Reading)
    requires Verbose(t)
    ensures ChildrenVerbose([EmptyComment(), t]) && ChildrenVerbose([t])
    ensures Kept(kept, [EmptyComment(), t], reading) == Kept(kept, [t], reading)
  {
    var comment := EmptyComment();
    assert Kind(comment.fields) == "#COMMENT";
    assert ChildrenVerbose([comment, t]);
    KeptCons(kept, [comment, t], reading);
    assert Compacted(comment, reading) == Null by {
      assert Blank("");
    }
    assert [comment, t][1..] == [t];
  }

  /** A leading text "a" starts the kept list. */
  lemma LeadingText(rest: seq<Json>, reading: Reading)
    requires ChildrenVerbose(rest)
    ensures ChildrenVerbose([TextObject("a")] + rest)
    ensures Kept([], [TextObject("a")] + rest, reading) == Kept([Str("a")], rest, reading)
  {
    var cs := [TextObject("a")] + rest;
    CompactedText("a", reading);
    assert cs[1..] == rest;
    assert ChildrenVerbose(cs) by {
      forall i | 0 <= i < |cs| ensures Verbose(cs[i]) {
        if i > 0 {
          assert cs[i] == rest[i - 1];
        }
      }
    }
    TrimWord("a");
    KeptCons([], cs, reading);
    assert Step([], cs[0], Str("a"), reading) == [Str("a")];
  }

  /**
   * The pair arises from markup: in `<e>a<!---->b</e>` the empty comment
   * compacts to null and is dropped, leaving the texts "a" and "b" side by
   * side, so as written the element's text is "a\n[object Object]".
   */
  lemma EmptyCommentBetweenAsWritten()
    ensures var cs := [TextObject("a"), EmptyComment(), TextObject("b")];
      ChildrenVerbose(cs) && Kept([], cs, AsWritten) == [Str("a" + "\n" + "[object Object]")]
  {
    var rest := [EmptyComment(), TextObject("b")];
    var cs := [TextObject("a"), EmptyComment(), TextObject("b")];
    assert ChildrenVerbose(cs) && Kept([], cs, AsWritten) == Kept([Str("a")], rest, AsWritten) by {
      CompactedText("b", AsWritten);
      assert ChildrenVerbose(rest) by {
        EmptyCommentDropped([Str("a")], TextObject("b"), AsWritten);
      }
      LeadingText(rest, AsWritten);
      assert [TextObject("a")] + rest == cs;
    }
    assert Kept([Str("a")], rest, AsWritten) == Kept([Str("a")], [TextObject("b")], AsWritten) by {
      CompactedText("b", AsWritten);
      EmptyCommentDropped([Str("a")], TextObject("b"), AsWritten);
    }
    SecondOfPairAsWritten();
  }

  /** The two texts are kept, trimmed, in order. */
  lemma PairTexts()
    ensures AllTexts([TextObject("a"), TextObject("b")])
    ensures NonBlankTexts([TextObject("a"), TextObject("b")]) == ["a", "b"]
  {
    var cs := [TextObject("a"), TextObject("b")];
    assert AllTexts(cs);
    TrimWord("a");
    TrimWord("b");
    assert cs[1..] == [TextObject("b")];
    assert cs[1..][1..] == [];
  }

  /** As intended, the same two texts merge into "a\nb". */
  lemma TextMergeIntended()
    ensures (TextsVerbose([TextObject("a"), TextObject("b")]);
      Kept([], [TextObject("a"), TextObject("b")], Intended) == [Str("a\nb")])
  {
    var cs := [TextObject("a"), TextObject("b")];
    PairTexts();
    AllTextsKept([], cs);
    assert Lines([]) == [];
    assert [] + ["a", "b"] == ["a", "b"];
    assert JoinLines(["a", "b"]) == "a\nb" by {
      assert ["a", "b"][1..] == ["b"];
    }
  }
}
