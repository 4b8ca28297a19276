# JXON in Dafny

A model of JXON from `source/JXON.js` in xml.js, with proofs about it. JXON maps an XML node tree to plain JavaScript objects and back. It has three phases:

- **Converter** (`convert`, `converters`, `getPrefix`). It walks a DOM node and builds the *verbose* object:
  - an element becomes `{qname: {"@attr": value, "#NAMESPACE": {alias: uri}, "children": [...]}}`;
  - an attribute becomes `{"@qname": value}`;
  - text, CDATA and comment nodes become `{"#TEXT" | "#CDATA" | "#COMMENT": raw value}`.
  Namespace declarations go to `#NAMESPACE`. They also go into the namespace map the caller passed, which `getPrefix` searches.
- **Compactor** (`compact`, `compactors`). It rewrites a verbose object into the *compact* form:
  - `children` becomes `*`;
  - blank texts, CDATA sections and comments are dropped;
  - adjacent texts and adjacent comments are joined with `"\n"`;
  - a lone child is hoisted out of its list;
  - attribute keys lose their `@`;
  - `#NAMESPACE` becomes `#N`, which is a bare URI when the only declaration is the default one;
  - an element with no attributes whose content is one text becomes that string.
- **Detector and reverter** (`isCompact`, `reverters`). The detector decides which form an element object is in. The reverter rebuilds a node tree from either form.

Modules and files:

| module | file | contents |
|---|---|---|
| `Wrappers` | wrappers.dfy | `Option`, `Result` |
| `Json` | json.dfy | JavaScript values with insertion-ordered keys; assignment (`Set`), `delete` (`Delete`), lookup (`Get`), truthiness and string conversion |
| `JsText` | js_text.dfy | `String.prototype.trim` over the ECMAScript white space and line terminators, `indexOf`, `split` |
| `Dom` | dom.dfy | DOM nodes and the `nodeType` codes of section 1.2 of W3C DOM Level 2 Core |
| `Converter` | converter.dfy | `getPrefix`, the converters, and the element converter as a method |
| `ConverterProperties` | converter_properties.dfy | what the element converter builds |
| `Compactor` | compactor.dfy | the compactors, and the element compactor's child loop and rewrite loop as methods |
| `ChildPass` | child_pass.dfy | invariants of the child loop, and the text-merge finding |
| `ElementCompaction` | element_compaction.dfy | the attribute and namespace rewrite, and the shape of a compacted element |
| `Detector` | is_compact.dfy | `isCompact` |
| `Jxon` | jxon.dfy | `convert` |
| `Reverter` | reverter.dfy | the reverters, with abstract output nodes in place of the DOM factory |
| `ReverterProperties` | reverter_properties.dfy | what the element reverter builds from each form |
| `ConvertExamples`, `CompactorExamples`, `RevertExamples` | convert_examples.dfy, compactor_examples.dfy, revert_examples.dfy | the cases of `test/suites/XMLSuite.js`, and a round trip of its `contact` element |

Where the source mutates an object in place, the model returns the new value. Where the source iterates, a `method` with a `while` loop is proved equal to the function that specifies it. The function's properties are then proved as lemmas.

Four places in the source do not do what they evidently mean to (see "## Findings"). A `Reading` parameter (`AsWritten` or `Intended`) selects between the code as written and the evident intent. The as-written behaviour is exhibited by a lemma. `convert` takes the reading as a parameter: `Jxon.Conversion(node, flag, AsWritten)` is `convert` as the source has it. The theorems about the compact form use `Intended`.

## Model

| member | source | states |
|---|---|---|
| Json.Get | source/JXON.js:113 | a property lookup finds a value exactly when the key is present, and the value found is the one stored under that key |
| Json.Set | source/JXON.js:121 | after an assignment the key holds the new value; every other key is unchanged; unique keys stay unique |
| Json.Delete | source/JXON.js:203 | after `delete`, every other key is unchanged and the deleted key is gone; deleting an absent key changes nothing |
| Json.KeysOfSet | source/JXON.js:286 | assigning to an existing key keeps the key order; assigning to a new key appends it at the end |
| Json.SetTwice | source/JXON.js:117 | assigning the same key twice equals assigning only the second value |
| JsText.Trim | source/JXON.js:293 | the trimmed text is empty exactly when the text is blank; it is the input with the leading and trailing white space removed, and it neither starts nor ends with white space |
| JsText.TrimIdempotent | source/JXON.js:293 | trimming twice equals trimming once |
| JsText.Split | source/JXON.js:112 | `split` yields at least one part; no part contains the separator; the first part is the text before the first separator |
| JsText.SplitFirst | source/JXON.js:339 | splitting at the first separator gives the text before it, followed by the parts of the rest |
| Dom.DocumentElement | source/JXON.js:95-97 | a document's root is one of its children and is an element; when there is none, no child is an element |
| Converter.AliasIndex | source/JXON.js:442-447 | `getPrefix` picks the first alias, in insertion order, bound to the node's namespace URI: every alias before it is bound elsewhere |
| Converter.ConvertAttribute | source/JXON.js:145-155 | a converted attribute is one key: '@' followed by the qualified name, holding the attribute's value |
| Converter.ConvertCharacterData | source/JXON.js:157-179 | a text, CDATA or comment node converts to its marker holding the raw, untrimmed value |
| Converter.ConvertElement | source/JXON.js:99-143 | the element converter step by step (name, then attributes, then children) computes the element function and the namespace map after it |
| Converter.ConvertAttributes | source/JXON.js:108-124 | the attribute loop computes the properties and the namespace map the attribute function specifies |
| Converter.ConvertChildren | source/JXON.js:126-140 | the children loop computes the converted children and the namespace map the children function specifies |
| ConverterProperties.AttributeKeyAt | source/JXON.js:145-155 | a converted attribute key starts with '@', so it is never "#NAMESPACE" or "children" |
| ConverterProperties.AttributesSnoc | source/JXON.js:108-124 | one more attribute either records a declaration in "#NAMESPACE" under its alias (the text after ':', else "") or stores its value under its key |
| ConverterProperties.AttributesKeys | source/JXON.js:108-124 | the properties have unique keys; each key is "#NAMESPACE" or a non-declaration '@' key; "#NAMESPACE" holds an object with unique aliases |
| ConverterProperties.AttributesLast | source/JXON.js:121 | each attribute key holds the value of the last attribute with that key |
| ConverterProperties.AttributesDeclare | source/JXON.js:111-117 | each alias in "#NAMESPACE" holds the URI of the last declaration of that alias |
| ConverterProperties.AttributesNamespace | source/JXON.js:113-115 | "#NAMESPACE" exists exactly when some attribute is a declaration |
| ConverterProperties.NamespacesDeclared | source/JXON.js:118 | a passed namespace map gains every declaration; later declarations win; other aliases are kept; no map stays no map |
| ConverterProperties.ConvertibleChildren | source/JXON.js:130-131 | the children kept are child nodes that have a converter, and there are no more of them than child nodes |
| ConverterProperties.AttributesKeepNone | source/JXON.js:118 | without a passed map, the attributes record nothing in a map |
| ConverterProperties.ElementKeepsNone | source/JXON.js:40 | a conversion started without a map never creates one |
| ConverterProperties.ChildrenKeepNone | source/JXON.js:132 | the children, converted without a map, create none |
| ConverterProperties.ChildrenInOrder | source/JXON.js:128-137 | "children" holds every child that has a converter, converted, in document order; none is skipped as empty |
| ConverterProperties.ElementShape | source/JXON.js:99-143 | the element converts to one key, the qualified name, holding the attribute properties; "children" is present exactly when the node has child nodes, and then holds the converted children |
| ConverterProperties.PrefixNamed | source/JXON.js:434-454 | without a map, the prefix `getPrefix` finds is an XML name or none |
| ConverterProperties.AttributeKeyNamed | source/JXON.js:148-151 | a named attribute converts to an '@' key the compactor accepts |
| ConverterProperties.AttributesVerbose | source/JXON.js:108-124 | the attributes of named nodes give verbose properties without "children" |
| ConverterProperties.LastAttributeText | source/JXON.js:152 | every attribute property holds a string |
| ConverterProperties.ConvertedIsVerbose | source/JXON.js:99-143 | every converted well-formed element is in the verbose form the compactor expects, and is dispatched as an element |
| ConverterProperties.ChildrenVerboseOf | source/JXON.js:126-139 | the converted children of a well-formed element are all verbose |
| Compactor.CompactText | source/JXON.js:292-294 | the text compactor gives null exactly when the text is blank; otherwise it gives the non-empty trimmed text |
| Compactor.CompactCharacterData | source/JXON.js:296-316 | the CDATA and comment compactors give null exactly when the text is blank; otherwise "#D"/"#C" holds the trimmed text, the long marker is gone, and every other key is unchanged |
| Compactor.CompactAttribute | source/JXON.js:281-290 | the attribute compactor changes only the element's properties |
| Compactor.NamespaceValue | source/JXON.js:262-269 | "#N" is installed exactly when the namespace object has declarations; it is a bare URI exactly when the only key is "", and then it is that URI |
| Compactor.Compact | source/JXON.js:49-54 | `compact` step by step computes the compaction function |
| Compactor.CompactElement | source/JXON.js:197-279 | the element compactor step by step computes the compacted element |
| Compactor.StarChildren | source/JXON.js:201-252 | the children step, as a method, computes the properties with "children" replaced by "*" |
| Compactor.RewriteAttributes | source/JXON.js:254-271 | the rewrite loop over a snapshot of the keys computes the rewritten properties and the list of attributes it met |
| Compactor.CompactChildren | source/JXON.js:207-241 | the child loop, which splices with a manual index, computes the kept-children function |
| Compactor.Splice | source/JXON.js:214-240 | one turn of the child loop: the children before the new index are one step of the kept children; the children after it are the untouched rest |
| ChildPass.ResultShape | source/JXON.js:214 | a compacted text is null or a string; any other compacted child is null or an object; an object holds "#C" exactly when it came from a comment |
| ChildPass.KeptNeverGrows | source/JXON.js:215-239 | the child loop never yields more children than it was given |
| ChildPass.KeptTruthy | source/JXON.js:215-217 | every child the loop keeps is truthy: a falsy compaction is spliced out |
| ChildPass.KeptNoAdjacentTexts | source/JXON.js:220-225 | after the child loop, no two adjacent children are strings |
| ChildPass.KeptNoAdjacentComments | source/JXON.js:232-236 | after the child loop, no two adjacent children hold "#C" |
| ChildPass.CompactedText | source/JXON.js:292-294 | a text object compacts to null when blank, else to its trimmed text |
| ChildPass.TextStepIntended | source/JXON.js:220-231 | under the intended merge, a text child extends the last kept line with its trimmed text, or is dropped when blank |
| ChildPass.AllTextsKept | source/JXON.js:220-231 | under the intended merge, a run of texts becomes one string: the non-blank trimmed texts joined with "\n" |
| ChildPass.TextMergeAsWritten | source/JXON.js:223 | as written, merging the texts "a" and "b" gives "a\n[object Object]" |
| ChildPass.EmptyCommentBetweenAsWritten | source/JXON.js:214-225 | as written, the children of `<e>a<!---->b</e>` compact to "a\n[object Object]": the empty comment is dropped and the texts "a" and "b" meet |
| ChildPass.TextMergeIntended | source/JXON.js:223 | as intended, merging the texts "a" and "b" gives "a\nb" |
| ElementCompaction.CompactAttributeMoves | source/JXON.js:286-287 | the attribute compactor moves the value from "@name" to "name", deletes "@name", and leaves every other property unchanged |
| ElementCompaction.VisitEffect | source/JXON.js:256-271 | one visit of the rewrite loop renames an '@' key or replaces "#NAMESPACE" by "#N", and leaves the other keys unchanged |
| ElementCompaction.RewriteAtKeys | source/JXON.js:257-259 | after the rewrite loop, every '@' key in the snapshot is gone |
| ElementCompaction.RewriteNamespace | source/JXON.js:261-269 | after the rewrite loop, "#NAMESPACE" is deleted and "#N" holds its compacted value |
| ElementCompaction.RewritePlain | source/JXON.js:286 | after the rewrite loop, a plain name holds the value of its '@' attribute |
| ElementCompaction.RewriteMet | source/JXON.js:255-258 | the rewrite loop meets no attribute exactly when the snapshot holds no '@' key |
| ElementCompaction.StarredStar | source/JXON.js:202-251 | after the children step, "children" is gone; "*" is present exactly when the children list was non-empty; "*" holds the kept children, hoisted when alone |
| ElementCompaction.StarredAttributes | source/JXON.js:202-205 | the children step leaves every '@' key unchanged |
| ElementCompaction.RewrittenAttributes | source/JXON.js:274 | the attribute list stays empty exactly when the verbose properties have no attribute |
| ElementCompaction.RewrittenKeys | source/JXON.js:254-271 | after the rewrite, keys are unique and each is "*", "#N" or a plain name; "*" is unchanged |
| ElementCompaction.RewrittenValues | source/JXON.js:261-269 | after the rewrite, "#N" holds the compacted namespace value and each plain name holds its former '@' attribute |
| ElementCompaction.CompactedElementShape | source/JXON.js:197-279 | the compacted element keeps its tag. Its value is a bare string exactly when there is no attribute and "*" is a string, and then it is that string. Otherwise it is properties whose keys are "*", "#N" and the attribute names without '@', with their values |
| Detector.Entries | source/JXON.js:68 | `Object.keys` visits an object's keys, and the indices of an array or a string |
| Detector.IsCompact | source/JXON.js:56-88 | `isCompact`, step by step, with its flag and index loop, gives the detector function; the "Uh, oh!" branch is never reached |
| Detector.SuiteExamples | test/suites/XMLSuite.js:197-200 | the four answers the suite expects from `isCompact` |
| Detector.VerboseDetected | source/JXON.js:60-80 | a verbose element is compact exactly when it has neither "children" nor an attribute |
| Detector.PlainPropsCompact | source/JXON.js:60-80 | properties with only "*", "#N" and plain names are detected as compact |
| Detector.CompactedIsCompact | source/JXON.js:56-88 | the compactor's output is detected as compact; a collapsed bare-string element makes `isCompact` throw |
| Jxon.Verbatim | source/JXON.js:34-40 | conversion throws "Unsupported node type" exactly for an unregistered node type, and a TypeError exactly for a document without a root element; otherwise the object is verbose |
| Jxon.Convert | source/JXON.js:33-43 | `convert` step by step gives the conversion function, under either reading of the compactor; without compaction the result is verbose |
| Jxon.CompactLater | source/JXON.js:42 | `compact(convert(node, false))` equals `convert(node)`, under either reading |
| Jxon.ConvertedIsCompact | source/JXON.js:42 | `convert(element)` has one key and is detected as compact, unless it collapsed to a bare string; under either reading |
| ConvertExamples.ContactExample | test/suites/XMLSuite.js:145-155 | `convert(contact, false)` is the verbose object the suite expects |
| CompactorExamples.TextExamples | test/suites/XMLSuite.js:166-167 | the text compactor cases of the suite |
| CompactorExamples.CDataExamples | test/suites/XMLSuite.js:173-174 | the CDATA compactor cases of the suite |
| CompactorExamples.CommentExamples | test/suites/XMLSuite.js:180-181 | the comment compactor cases of the suite |
| CompactorExamples.AttributeExample | test/suites/XMLSuite.js:156-158 | compacting "@firstName" of the contact gives the object the suite expects |
| Reverter.RevertChild | source/JXON.js:375-376 | the call `reverters[type](child)` step by step gives the reverter function for that `type`, including the throw for an undefined `type` or one without a reverter |
| Reverter.RevertElement | source/JXON.js:333-398 | the element reverter step by step gives the element reverter function |
| Reverter.AppendChildren | source/JXON.js:367-379 | the children loop step by step, with `type` carried from one item to the next, gives the reverted children, or the first error |
| Reverter.SetProperties | source/JXON.js:381-390 | the property loop step by step gives the property attributes |
| Reverter.DeclareAliases | source/JXON.js:392-395 | the alias loop step by step gives the declared aliases |
| Reverter.FailedPrefix | source/JXON.js:376 | a child that throws ends the children loop with its error |
| ReverterProperties.RevertedUpToSucceeds | source/JXON.js:369-379 | the children loop succeeds exactly when every item reverts, each dispatched with the `type` the items before it left |
| ReverterProperties.RevertedUpToEach | source/JXON.js:376-377 | on success, the element has one output child per item, each the reversion of that item, in order |
| ReverterProperties.ItemDispatch | source/JXON.js:373-376 | the first item, and every item with keys of its own, reverts by those keys alone; a later item without keys goes to the reverter of the `type` left by the items before it, and leaves `type` unchanged |
| ReverterProperties.KeylessFirst | source/JXON.js:373-374 | a child without keys throws when it comes first: `type` is still undefined |
| ReverterProperties.AllKeyed | source/JXON.js:373-376 | when every item has keys, each item reverts on its own, whatever comes before it |
| ReverterProperties.KeylessAfterText | source/JXON.js:373-376 | `[{"#TEXT": x}, {}]` reverts to two text nodes, the second "[object Object]", since `type` is still "#TEXT" |
| ReverterProperties.TagNameKept | source/JXON.js:339-344 | a tag with at most one ':' is kept as it is |
| ReverterProperties.TagNameCut | source/JXON.js:339-344 | a tag with two ':' is cut after its second part ("a:b:c" gives "a:b") |
| ReverterProperties.PropertyAttributesLast | source/JXON.js:381-390 | each attribute holds the last property that names it, as a string; an attribute no property names keeps its earlier value |
| ReverterProperties.LastPropertyFound | source/JXON.js:382-385 | an attribute is set exactly when some property names it, and then holds that property's value |
| ReverterProperties.AliasAttributesLast | source/JXON.js:393-394 | each "xmlns:a" attribute holds the URI of the last declaration of alias a |
| ReverterProperties.LastAliasFound | source/JXON.js:394 | "xmlns:a" is declared exactly when some non-empty alias a is declared |
| ReverterProperties.TextReverted | source/JXON.js:411-413 | a text object reverts to a text node of its text; an empty text gives "[object Object]" |
| ReverterProperties.CharacterDataReverted | source/JXON.js:415-421 | a "#CDATA" or "#COMMENT" object reverts to a CDATA section or comment of its text |
| ReverterProperties.CompactCharacterDataAsWritten | source/JXON.js:372-376 | as written, a compact "#D" or "#C" child has no reverter and the element reverter throws |
| ReverterProperties.CompactCharacterDataIntended | source/JXON.js:415-421 | as intended, a compacted CDATA section or comment reverts to its trimmed text |
| ReverterProperties.CompactTextAsWritten | source/JXON.js:373-376 | as written, a non-blank text compacted to a string is dispatched as an element and throws |
| ReverterProperties.CompactTextIntended | source/JXON.js:411-413 | as intended, a non-blank text compacted to a string reverts to a text node of its trimmed text |
| ReverterProperties.MixedContentAsWritten | source/JXON.js:373-376 | as written, `{a: {"*": [x, {b: {}}]}}` with a non-empty x throws when reverted |
| ReverterProperties.MixedContentIntended | source/JXON.js:367-379 | as intended, `{a: {"*": [x, {b: {}}]}}` reverts to the element a holding the text x and the empty element b |
| ReverterProperties.CommentBesideAsWritten | source/JXON.js:370-376 | as written, `{a: {"*": [{"#C": x}, {b: {}}]}}`, the compact form of `<a><!--x--><b/></a>`, throws at the comment |
| ReverterProperties.HoistedReverted | source/JXON.js:367-379 | an element whose "*" is a single object throws exactly when the children loop over that object's `length` throws, and otherwise reverts to `a` without children: the hoisted child itself is never reverted |
| ReverterProperties.HoistedComment | source/JXON.js:367-371 | a lone comment hoisted to `{a: {"*": {"#C": x}}}` has no `length`, so `a` reverts without it |
| ReverterProperties.HoistedLength | source/JXON.js:367-374 | `{a: {"*": {length: s}}}`, the compact form of `<a><length>s</length></a>`, throws exactly when s converts to a positive number (`children[0]` is undefined and `type[0]` throws), and otherwise reverts to an empty `a` |
| ReverterProperties.HoistedLengthThree | source/JXON.js:367-374 | with `length` "3" reverting throws; with "0" it gives an empty `a` |
| JsText.DecimalDigits | source/JXON.js:370 | the decimal form of a natural number is all digits, with a non-zero digit exactly when the number is not 0 |
| JsText.DecimalPositive | source/JXON.js:370 | a natural number written in decimal compares greater than 0 exactly when it is not 0 |
| ReverterProperties.StringNamespaceAliasesAsWritten | source/JXON.js:393-394 | as written, `{a: {"#N": "u"}}` also gets the attribute "xmlns:0" |
| ReverterProperties.StringNamespaceAliasesIntended | source/JXON.js:393-394 | as intended, `{a: {"#N": "u"}}` gets only "xmlns" |
| ReverterProperties.LastAliasDeclared | source/JXON.js:393-394 | with unique aliases, "xmlns:a" holds the URI declared for a, if any |
| ReverterProperties.VerboseLastProperty | source/JXON.js:381-386 | in the verbose form, attribute n comes from "@n" and from no other property |
| ReverterProperties.VerboseAttributeOf | source/JXON.js:346-395 | a reverted verbose element's attribute n is: the declared alias URI for "xmlns:a"; else the value of "@n"; else the default namespace for "xmlns" |
| ReverterProperties.VerboseReverted | source/JXON.js:333-398 | reverting a verbose element succeeds exactly when every child reverts, each dispatched with the `type` the children before it left. Then it is an element with the tag, in the default namespace, with its children reverted in order and its attributes as above |
| ReverterProperties.CompactAttributeOfLemma | source/JXON.js:381-395 | a reverted compact element's attribute n is: the declared alias URI for "xmlns:a"; else property n, when n is not "*" and does not start with '#'; else the namespace for "xmlns" |
| ReverterProperties.CompactReverted | source/JXON.js:333-398 | as intended, reverting a compact element whose "*" holds a list succeeds exactly when every child reverts, each dispatched with the `type` the children before it left. Then it is an element with the tag, in the "#N" namespace, with its children reverted in order and its attributes as above |
| RevertExamples.ContactReverted | source/JXON.js:333-398 | the suite's verbose contact object reverts to `<contact xmlns="http://being.here/" firstName="John" lastName="Bird"/>` |
| RevertExamples.ContactRoundTrip | test/suites/XMLSuite.js:143-155 | converting the suite's contact element without compaction, then reverting it, gives back its name, namespace and attributes |

## Left out

- `JXON.load` (XMLHttpRequest loading), `source/XML.js`, `source/XPath.js` and `source/Utility.js` are I/O or host-library wrappers. The module wiring (`define`, the AMD template, the Gruntfile) has no behaviour. None of them is part of this model.
- The DOM document factory of the reverter is replaced by the abstract `Out` nodes. The DOM input is a `Node` record whose `prefix`, `nodeName`, `localName` and `namespaceURI` are given, not derived. `hasChildNodes()` is "child nodes are not empty".
- In-place mutation and aliasing are not modelled. Every compactor returns the rewritten value instead of changing the caller's object. The shared namespace map of the converter is threaded through the walk and returned, which is what later siblings and descendants observe.
- JavaScript objects enumerate integer-like keys before other keys. The model enumerates every key in insertion order. XML names never look like integers, so only hand-built objects differ.
- Attribute values are strings. The number `1` of the third detector case in the suite is written as the string "1"; the detector does not look at values.
- The `compact` argument of `convert` is an `Option<bool>`: `None` is "not given" and `Some(b)` is a value whose truthiness is `b`.
- Compactor.Compacted: its domain is the verbose form, which the converter produces and the source's own comment demands ("should not be compacted already"). Compacting an already-compact object is not modelled. In the source that is not idempotent: the attributes of an element whose `*` collapsed to a string are lost on a second pass.
- Compactor.Visit: a namespace value that is not an object is deleted without installing "#N". The converter never produces one.
- Compactor.RewriteAttributes: `forOwn` works on a snapshot of the keys. For a key deleted during the loop it still calls the callback, with the value `undefined`; for an '@' key that would set the new name to `undefined`. The model visits the snapshot and treats a missing key as a no-op. Renaming deletes only the key being visited, never one visited later, so the difference is not observable on the verbose form.
- Compactor.CompactAttribute: the new name is `attribute.split("@")[1]` exactly (Compactor.AttrTarget): the text between the first and the second '@', or "undefined" when the key holds no '@'. Attribute keys of the verbose form hold one '@', at the head (XML names cannot hold one), so there it is the key without its '@'.
- Converter.AddAttribute: any key starting with "@xmlns" is a declaration, as the `indexOf` test says. So an attribute named "xmlnsfoo" declares the default namespace.
- Reverter.TagName: a tag "a:b:c" becomes "a:b", as the `split(":")` code does. This is shown by ReverterProperties.TagNameCut.
- Reverter.ChildItems: an object holding both a positive `length` and a key "0" is array-like in the source, which reverts `children[0]`, `children[1]`, … while the index is below the length. The model reverts no children of it. The compactor never produces such an object, since "0" is not an XML name. Every other object is modelled: without `length` it reverts no children; with a positive `length` and no "0" it throws. A non-empty string dispatches its first character and throws.
- JsText.NumberPositive: the number a string spells is read without floating point. A numeral that underflows to 0 (such as "1e-400") counts as positive.
- Reverter.RevertedAs: every error the element reverter raises is a TypeError in the model. A non-empty array child is sent to the element reverter, where the source throws either in `isCompact` (a TypeError) or in `createElement("0")` (a DOM exception); the model does not tell the two apart. Number and boolean children are not modelled.
- ReverterProperties.CompactReverted: stated for the intended reading only, and for a "*" that holds a list. A `*` hoisted to a single object or a bare string does not round-trip in the source; a bare-string element makes `isCompact` throw. CompactedIsCompact, Reverter.ChildItems and ReverterProperties.HoistedReverted state what happens then.
- ReverterProperties.VerboseReverted: requires "children" or an attribute. A verbose element with neither (`<a/>`, or `<a xmlns="u"/>`) is detected as compact by `isCompact`. Its "#NAMESPACE" is then not read, and such an element reverts without its namespace.
- Detector.Compactness: an element object without keys makes `properties` undefined, and the model answers TypeError. Properties that are a string, null or a number also give TypeError, as the `in` operator throws on them.

## Findings

| source | as written | input that shows it | evidently intended | confidence | as-written member | corrected member |
|---|---|---|---|---|---|---|
| source/JXON.js:223 | `children[index - 1] += "\n" + child` appends the original text object, which becomes "[object Object]" | an element whose children are the texts "a" and "b" compacts to "a\n[object Object]"; `<e>a<!---->b</e>` gives that pair once its empty comment is dropped (ChildPass.EmptyCommentBetweenAsWritten) | append the compacted text (`result`), giving "a\nb" | not executed | ChildPass.TextMergeAsWritten | ChildPass.AllTextsKept |
| source/JXON.js:393-394 | `for (alias in namespaces)` also runs when the namespace is a string, and visits its character indices | `{a: {"#N": "u"}}` reverts with the extra attribute `xmlns:0="u"` | declare aliases only from a namespace object | not executed | ReverterProperties.StringNamespaceAliasesAsWritten | ReverterProperties.CompactReverted |
| source/JXON.js:372-376 | the dispatch takes the first key "#D" or "#C" as the reverter's name, and no reverter has that name, although the CDATA and comment reverters read "#D" and "#C" | `<a><!--x--><b/></a>` compacts to `{a: {"*": [{"#C": "x"}, {b: {}}]}}`, which throws a TypeError when reverted (ReverterProperties.CommentBesideAsWritten). A lone comment is hoisted to `{a: {"*": {"#C": "x"}}}` instead and silently lost (ReverterProperties.HoistedComment) | dispatch "#D" to the CDATA reverter and "#C" to the comment reverter | not executed | ReverterProperties.CompactCharacterDataAsWritten | ReverterProperties.CompactCharacterDataIntended |
| source/JXON.js:373-376 | `for (var type in child) break` gives a string its first index "0" as `type`, so a compacted text left in a list goes to the element reverter, whose `isCompact` throws on `"*" in` a string | `{a: {"*": ["x", {b: {}}]}}`, the compact form of `<a>x<b/></a>`, throws a TypeError when reverted | dispatch a string to the text reverter, whose `object["#TEXT"] \|\| object` reads a bare string | not executed | ReverterProperties.MixedContentAsWritten | ReverterProperties.MixedContentIntended |
