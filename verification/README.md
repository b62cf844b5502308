# Verified model of qt-json-query

A Dafny model of the document engines of qt-json-query: JSON Pointer reading, writing and text (RFC 6901), JSON Patch
(RFC 6902), JSON Merge Patch (RFC 7386), the leaf algorithms of JSONPath (RFC 9535) and the recursion of the JSON Schema
validator (draft 2020-12). `dafny verify dfyconfig.toml` checks the whole project.

The library's loops are methods with loops; documents passed by reference are cells (`JsonRef`) that the write and patch
methods modify; the validation context and its evaluation trackers are classes. Each of these methods is proved equal to a
function of its inputs or of the old state, and the laws below are proved about those functions. Qt's JSON containers are
copy-on-write values, so immutable values held in variables and fields have the same observable behaviour.

| module | models |
|---|---|
| `JsonValue`, `Decimal`, `Utf16` | JSON values, decimal text, UTF-16 text |
| `PointerEvaluation` | tokens and `evaluatePointerImpl` |
| `PointerWrite`, `PointerWriteLaws` | `writePointer` and `unwind`; what a write does, seen through reads |
| `PointerCodec`, `PointerParsing` | pointer text: the codec and its laws; the parsing and printing loops |
| `JsonEquality`, `JsonPatch`, `PatchFormat` | `jsonDeepEquals`; the patch interpreter; patch documents |
| `MergePatch` | `merge_patch` |
| `ArraySlice`, `StringOrder`, `QuotedName` | slices, string order, quoted names |
| `SingularQuery`, `SingularGrammar` | singular queries of filters: parsing and resolving them; the grammar the parser accepts |
| `Comparison` | comparisons in filters: finding the operator, comparing the operands |
| `TopLevelSplit`, `NestedText` | the top-level splitters; what they do to text with quotes and brackets nested in it |
| `SchemaGraph`, `SchemaValidator` | the compiled graph and what a run does; the validator's methods on its mutable context |
| `SchemaLaws`, `SchemaTermination`, `SchemaEntry` | laws of all runs, termination, entry points |
| `SchemaPlaces` | where in the instance the errors are, and where a fail-fast run stops |
| `SchemaReading`, `SchemaMeaning` | the logical reading of schemas, as specified and as the validator has it; the validator decides the latter |
| `SchemaLeak` | where the two readings agree |
| `SchemaGuard`, `SchemaBound` | the reference guard, measured by the same recursion without it; how deep a run gets that returns |
| `SchemaScope` | the dynamic scope, and runs that do not depend on it |
| `SchemaKeywords`, `SchemaKeywordLaws`, `SchemaCompiled` | the keywords of a schema object, their meaning, and schemas made of them |
| `SchemaLoops`, `SchemaExamples` | loops the guard does not see; concrete schemas, compiled from their keywords |

## What the proofs found

Properties that the library's comments or documentation suggest and that do not hold without a condition. Each has a
concrete input, proved to fail, and the exact condition, but for two conditions that are sufficient and marked so:

- The reading loop numbers tokens with a 16-bit counter that wraps: a pointer of more than 65535 tokens never evaluates,
  although writes and removals through it work (`LongPointerIsLost`, `RemoveIffEvaluate`, `EvaluateIsLookup`).
- Array indices are read with `QString::toLongLong`, which accepts signs and surrounding blanks (`ArrayIndexSpells`):
  `/+5` addresses element 5 and prints as `/5`. Text and token list round-trip exactly when index tokens are plain
  digits (`PrintOfParse`, `SignedIndexDoesNotRoundTrip`), the prefix test of `move` is exact on printed keys, and
  `toJson` round-trips exactly for canonical pointers (`PatchRoundTrip`).
- An array read through "-" fails with TypeMismatchArray, where ADR-007 announces IndexOutOfRange; writes report
  IndexOutOfRange exactly there, and elsewhere the error of the read (`AppendTokenIsNamedTwice`, `TargetMustExist`). The
  model follows the code.
- `move` and `test` failures truncate the operation index to 16 bits while pointer failures clamp it: a test that fails
  after 65536 that pass is reported as the first operation (`LateFailureLooksFirst`, `FailureHasPlace`).
- A slice start above 2^31 - 1 (with a negative step, an end) is clamped to the value that means "omitted", so
  `[3000000000:]` selects from the first element on (`LargeStartIsLost`, `ClampingOutcome`).
- `isValidQuotedKey` accepts decimal digits of any script in `\uXXXX`; `unescapeQuotedKey` then copies the escape
  verbatim, Arabic-Indic 0041 for instance (`UnescapeIsExact`, `ForeignDigitsAreCopied`).
- A singular query is trimmed with `QString::trimmed`, which also removes white space beyond ASCII; RFC 9535 allows such
  units in member names, so `@.a` followed by U+00A0 reads as `@.a` (`TrailingSpaceIsLost`, `NoBreakSpaceIsLost`).
- An index in brackets is trimmed in the same way, so `[` U+00A0 `1]` is accepted. Every integer literal of RFC 9535 is
  read as its value, and the texts accepted beyond them are exactly those with white space at an end (`IndexIsLiteral`,
  `SpacedIndexIsAccepted`).
- `splitTopLevelMultiple` cuts overlapping occurrences of a delimiter of several characters each
  (`OverlappingDelimiter`). It agrees with splitting again and again exactly when no two top-level occurrences overlap
  (`MultipleAgreesWhenApart`); its callers pass ",".
- The splitters only count brackets: text without quotes is cut at the first delimiter up to which as many of each kind
  open as close, nested or not, so that behind an unmatched closer the inside of the next group is top level
  (`UnquotedIsCounted`; for operators of filters `UnquotedOperator`, where parentheses and brackets count together).
- The reference-cycle guard of the schema validator does not reach through anyOf, oneOf, not and if, which start fresh
  contexts: `{"not": {"$ref": "#"}}` recurs without end (`NotItselfNeverReturns`), and so does a way back that takes
  several references (`NotThroughReferencesNeverReturns`). Exactly: validation returns if and only if it returns within
  a depth that the number of nodes and the height of the instance give (`KeywordsReturnIff`, `ReturnsIffWithinBound`).
  That it never returns shows in the keywords if schema objects and references form a loop in which every step tries a
  node of the loop, or visits or refers to one of lower rank (`LeadingBackNeverReturns`, `CompiledLoopNeverReturns`);
  that it always does, if levels fall wherever a subschema is tried (`KeywordsReturn`), as on every graph without anyOf,
  oneOf, not and if, however cyclic its references (`ReferenceCyclesReturn`). An earlier alternative that always matches
  shields a cycle (`EarlierAlternativeReturns`).
- The same guard compares instance paths, and `propertyNames` visits a name at the path of its object. If references are
  met only where the path stands for the value it leads to, and none is dynamic, what the guard reports is real: without
  it the recursion has no result (`ReportedCycleIsReal`, `CycleReportedIff`), and where the recursion has one the guard
  changes nothing (`GuardChangesNothing`). This condition is sufficient. Compiled keywords meet it exactly if the
  subschemas of propertyNames come to no reference at the name (`SteadyIffNamesMeetNoReference`). Where they do, a
  recursion that ends there can be reported as a cycle (`MemberNameLooksLikeCycle`).
- Under unevaluatedProperties and unevaluatedItems the tracker of the enclosing object or array stays attached while its
  members or elements are looked at, so what is evaluated inside one of them counts for its later siblings:
  `{"unevaluatedProperties": {"type": "object", "properties": {"b": true}}}` accepts `{"a": {"b": null}, "b": null}`,
  and would not if it came to "b" first (`LeakedEvaluation`). The validator decides the reading with this leak exactly
  (`ValidatorDecides`). A place is hidden if it is left unevaluated by the keywords, does not satisfy the subschema, and
  is marked by the visit of an earlier sibling. The two readings agree on all that validation can come to exactly when
  nowhere there hidden places are all that a value fails by (`ReadingsAgreeIff`). Where they are at the root, and the
  readings agree below, the validator errs, by accepting (`ErrsExactlyWhenHidden`). With the boolean schemas that mostly
  stand there nothing is hidden (`BooleansDecide`).
- A subschema tried in a context of its own starts without the dynamic scope around it: an anyOf of one `$dynamicRef`
  accepts what it would reject if it inherited the scope, as an allOf of it does (`DynamicScopeIsLost`). A reference
  goes elsewhere for it exactly if it is resolved dynamically and the outermost entry that is lost and declares its
  anchor names another node (`OuterScopeMattersNot`). No run depends on the scope if every resource that declares the
  anchor of such a reference declares it at the static target (`ScopeMakesNoDifference`), which is exactly when every
  reference goes there in every scope (`StaticInEveryScope`); for whole runs this condition is sufficient.

## Model

| member | source | states |
|---|---|---|
| PointerEvaluation.EvaluatePointer | include/json-query/json-pointer/JSONPointerEvaluation.hpp:54-83 | the 16-bit loop computes `Evaluate`, which is RFC resolution up to 65535 tokens, and succeeds exactly when resolution does and the pointer has at most that many tokens |
| PointerEvaluation.EvaluateIsLookup | include/json-query/json-pointer/JSONPointerEvaluation.hpp:60-82 | same result as step-by-step resolution up to 65535 tokens; beyond, failure on every document |
| PointerEvaluation.LookupConcat | include/json-query/json-pointer/JSONPointerEvaluation.hpp:54-83 | resolving a concatenated pointer is resolving its parts in turn, with the failing token renumbered |
| PointerEvaluation.StepArray | include/json-query/json-pointer/JSONPointerEvaluation.hpp:31-44 | steps exactly to an existing element of an array, otherwise leaves the value alone |
| PointerWrite.WritePointer | src/json-query/json-pointer/JSONPointerWrite.cpp:96-234 | descent and unwind give exactly the recursive update, its removed value, and on failure its error and (clamped) token index with the root unchanged; what the update does is said by the rows of `PointerWriteLaws` |
| PointerWrite.Unwind | src/json-query/json-pointer/JSONPointerWrite.cpp:69-92 | the bottom-up loop plugs the leaf container into the recorded spine |
| PointerWrite.WriteTypedRoot | src/json-query/json-pointer/JSONPointerWrite.cpp:266-293 | a fixed-kind root keeps its kind; any error, RootTypeMismatch included, leaves it untouched |
| PointerWrite.WriteDocument | src/json-query/json-pointer/JSONPointerWrite.cpp:299-315 | a document never ends up with a scalar root; any error leaves it untouched |
| PointerWriteLaws.WriteReadBack | src/json-query/json-pointer/JSONPointerWrite.cpp:104-228 | after any successful add, replace or set, reading the resolved location, or below it, gives the stored value (null for Undefined) |
| PointerWriteLaws.ResolvedIsSame | src/json-query/json-pointer/JSONPointerWrite.cpp:40-43 | without a "-" token the resolved location is the pointer itself |
| PointerWriteLaws.Frame | src/json-query/json-pointer/JSONPointerWrite.cpp:132-228 | every location outside the written one holds what it held, found or not, array siblings shifted by exactly one where elements were inserted or removed |
| PointerWriteLaws.TargetMustExist | src/json-query/json-pointer/JSONPointerWrite.cpp:146-159 | remove and replace succeed exactly when the location exists, remove returns what was there, and a failure is that of the read, but for IndexOutOfRange at "-" in an array |
| PointerWriteLaws.AppendTokenIsNamedTwice | include/json-query/json-pointer/JSONPointerEvaluation.hpp:31-44 | reading "-" in an array is TypeMismatchArray, replacing there IndexOutOfRange |
| PointerWriteLaws.RemoveIffEvaluate | src/json-query/json-pointer/JSONPointerWrite.cpp:203-211 | removal and the reading loop succeed together, with the same value, up to 65535 tokens |
| PointerWriteLaws.SetFailsOnlyWhenBlocked | src/json-query/json-pointer/JSONPointerWrite.cpp:126-228 | with createIntermediates a set fails exactly when an existing solid scalar, a non-index at an array, or an index past the end stands in the way, and reports that token with the matching error |
| PointerWriteLaws.SetFromNull | src/json-query/json-pointer/JSONPointerWrite.cpp:48-59 | with createIntermediates a set into null never fails |
| PointerWriteLaws.MissingIsMade | src/json-query/json-pointer/JSONPointerWrite.cpp:48-59 | wherever a successful set with createIntermediates found nothing or null, there is now a container with one child: an array if index 0 or "-" is applied to it, an object otherwise |
| PointerWriteLaws.ResolvedIsSpots | src/json-query/json-pointer/JSONPointerWrite.cpp:104-228 | the location such a set goes to: the pointer, with "-" read as the end of the array found there, or as index 0 where nothing was |
| PointerWriteLaws.LongPointerIsLost | include/json-query/json-pointer/JSONPointerEvaluation.hpp:60-82 | a set through a pointer of 65536 tokens succeeds, the value is where resolution finds it, and the reading loop fails |
| PointerWriteLaws.AddNeedsParent | src/json-query/json-pointer/JSONPointerWrite.cpp:141-197 | add fails as reading its parent fails, at the same token and, but for "-" in an array, with the same error; otherwise it succeeds exactly when the parent is a container with room at the place, and the error names the last token and the reason |
| PointerWriteLaws.AddUndoesRemove | src/json-query/json-pointer/JSONPointerWrite.cpp:203-211 | adding a removed value back restores the document |
| PointerWriteLaws.RemoveUndoesAdd | src/json-query/json-pointer/JSONPointerWrite.cpp:193-197 | removing an added value returns it, and restores the document exactly when the add overwrote no member |
| PointerWriteLaws.LastReplaceWins | src/json-query/json-pointer/JSONPointerWrite.cpp:146-150 | of two replacements at one place the second counts; replacing by the old value restores the document |
| PointerWriteLaws.ReplacesCommute | src/json-query/json-pointer/JSONPointerWrite.cpp:198-202 | replacements at locations that part from each other give the same document in either order |
| PointerWriteLaws.ReplaceAt | src/json-query/json-pointer/JSONPointerWrite.cpp:198-202 | a replacement succeeds exactly if the location exists; it then holds the value, and every location apart from it holds what it held |
| PointerCodec.KeysOfEncode | include/json-query/json-pointer/JSONPointerUtils.hpp:23-37 | escaped and slash-joined keys are a valid pointer that decodes to the same keys |
| PointerCodec.EncodeOfKeys | include/json-query/json-pointer/JSONPointerParsing.hpp:49-65 | the valid pointers are exactly the encodings of key lists |
| PointerCodec.EncodingIsSpelled | include/json-query/json-pointer/JSONPointerUtils.hpp:23-37 | the encoding is "/" and the escaped key for each key, "~0" for a tilde and "~1" for a slash |
| PointerCodec.ParseOfPrint | src/json-query/json-pointer/JSONPointer.cpp:97-166 | printing and parsing gives a token list back exactly when it is canonical |
| PointerCodec.PrintOfParse | include/json-query/json-pointer/JSONPointerParsing.hpp:107-174 | parsing and printing gives a valid pointer back exactly when its index tokens are plain digits |
| PointerCodec.SignedIndexDoesNotRoundTrip | include/json-query/json-pointer/JSONPointerParsing.hpp:119-124 | "/+5" parses as index 5 and prints as "/5" |
| PointerCodec.ArrayIndexSpells | include/json-query/json-pointer/JSONPointerParsing.hpp:107-125 | a text is read as an index exactly when it spells it: the trimming and number parsing come down to that grammar |
| PointerCodec.PlainArrayIndex | include/json-query/json-pointer/JSONPointerParsing.hpp:107-125 | a digit string is an index exactly without leading zeros and within 64 bits, and then is the text of its value |
| PointerCodec.PrefixTestIsExact | src/json-query/json-patch/JSONPatch.cpp:115-123 | the string test holds exactly when the printed keys (canonical tokens: the tokens) of `from` are a proper prefix of those of `path` |
| PointerParsing.ValidatePointerSyntax | include/json-query/json-pointer/JSONPointerParsing.hpp:49-65 | accepts exactly "" and slash-led text whose every '~' starts "~0" or "~1", with the right error otherwise |
| PointerParsing.DecodeToken | include/json-query/json-pointer/JSONPointerParsing.hpp:67-105 | the in-buffer loop unescapes the token and never leaves a buffer of the token's length |
| PointerParsing.ParseArrayIndex | include/json-query/json-pointer/JSONPointerParsing.hpp:107-125 | succeeds with an index exactly on the texts that spell it: blanks around an optional sign and digits within 64 bits, a leading zero only in "0" |
| PointerParsing.ParsePointer | include/json-query/json-pointer/JSONPointerParsing.hpp:128-174 | the scanning loop computes the parse the round-trip laws are about |
| PointerParsing.EscapeToken | include/json-query/json-pointer/JSONPointerUtils.hpp:23-37 | the appending loop is the escape function of the codec |
| PointerParsing.ToString | src/json-query/json-pointer/JSONPointer.cpp:97-166 | the single-buffer encoder prints '/' plus the escaped token per token and stays within the computed capacity |
| PointerParsing.AppendedKey | src/json-query/json-pointer/JSONPointer.cpp:70-83 | appending classifies like the parser, keeps canonicity exactly for plain indices, and prints as base, slash, escaped key |
| PointerParsing.AppendedIndex | src/json-query/json-pointer/JSONPointer.cpp:85-95 | an appended index keeps a pointer canonical; a negative one becomes a member name |
| JsonEquality.JsonDeepEquals | src/json-query/json-patch/JSONPatch.cpp:77-110 | the recursive scan decides deep equality |
| JsonEquality.DeepEqualIsStructural | src/json-query/json-patch/JSONPatch.cpp:79-109 | deep equality is structural equality once number storage is normalised |
| JsonEquality.DeepEqualIsEquivalence | src/json-query/json-patch/JSONPatch.cpp:83-97 | it is reflexive, symmetric and transitive |
| JsonPatch.IsProperPrefixOf | src/json-query/json-patch/JSONPatch.cpp:118-123 | decides the prefix relation of printed pointers, of canonical token lists exactly |
| JsonPatch.RunOp | src/json-query/json-patch/JSONPatch.cpp:212-257 | one turn of the switch performs the operation of the reference semantics on the working copy; the rows from `ReplaceOnly` to `TestOnlyLooks` say what that is for each kind |
| JsonPatch.ApplyOps | src/json-query/json-patch/JSONPatch.cpp:207-260 | the interpreter loop computes the reference run of these operations, error and reported index included |
| JsonPatch.ApplyConcat | src/json-query/json-patch/JSONPatch.cpp:207-260 | applying a concatenated patch is applying its parts in turn |
| JsonPatch.FirstFailureDecides | src/json-query/json-patch/JSONPatch.cpp:207-260 | an operation that is reached and fails decides the error of the run |
| JsonPatch.FailureHasPlace | src/json-query/json-patch/JSONPatch.cpp:207-260 | every failing run has such an operation, and the reported index is its own exactly up to 65535; beyond, pointer failures report 65535 and the others the index modulo 65536 |
| JsonPatch.LateFailureLooksFirst | src/json-query/json-patch/JSONPatch.cpp:200-205 | a failing test after 65536 passing ones is reported at index 0 |
| JsonPatch.IndexShift | src/json-query/json-patch/JSONPatch.cpp:200-205 | renumbering changes only the reported index, by exactly the offset while indices fit 16 bits |
| JsonPatch.ApplyInPlaceTyped | src/json-query/json-patch/JSONPatch.cpp:323-343 | in-place application to an object or array is all or nothing and keeps the root kind |
| JsonPatch.ApplyInPlaceDocument | src/json-query/json-patch/JSONPatch.cpp:301-321 | in-place application to a document is all or nothing |
| JsonPatch.ReplaceOnly | src/json-query/json-patch/JSONPatch.cpp:218-221 | replace succeeds exactly if the location exists; it then holds the value, all other locations keep theirs with no shift, and a failure is that of the read |
| JsonPatch.RemoveOnly | src/json-query/json-patch/JSONPatch.cpp:222-225 | remove succeeds exactly if the location exists and is not the root; its container is without it, later elements one down, and nothing else changes |
| JsonPatch.AddOnly | src/json-query/json-patch/JSONPatch.cpp:214-217 | add replaces the document at the root; elsewhere it succeeds exactly if the parent is an object, or an array with room at the place, and changes that container alone |
| JsonPatch.CopyIsAdd | src/json-query/json-patch/JSONPatch.cpp:226-234 | copy is an add of what its source holds, and fails as reading the source fails |
| JsonPatch.CopyKeepsSource | src/json-query/json-patch/JSONPatch.cpp:226-234 | after a copy the destination reads as the source did, and the source still does where the add shifted it to |
| JsonPatch.MoveIsRemoveThenAdd | src/json-query/json-patch/JSONPatch.cpp:235-247 | a move that is not refused is a remove, and then an add of what was removed |
| JsonPatch.MoveToSelf | src/json-query/json-patch/JSONPatch.cpp:235-247 | moving a location onto itself is the identity for existing non-root locations and fails for all others |
| JsonPatch.MoveCarriesValue | src/json-query/json-patch/JSONPatch.cpp:241-245 | a successful move reads back at its destination the value its source held |
| JsonPatch.MoveGuard | src/json-query/json-patch/JSONPatch.cpp:237-240 | with canonical pointers a move is refused exactly when `from` is a proper prefix of `path` |
| JsonPatch.TestOnlyLooks | src/json-query/json-patch/JSONPatch.cpp:248-256 | a test changes nothing and passes exactly on an existing equal value |
| JsonPatch.ReplaceIsRemoveThenAdd | src/json-query/json-patch/JSONPatch.cpp:218-225 | replacing is removing and adding at the same place, success included |
| PatchFormat.CompileEntry | src/json-query/json-patch/JSONPatch.cpp:137-182 | one turn of the loop computes `ParseEntry`, which the two next rows characterise |
| PatchFormat.CompiledIfValid | src/json-query/json-patch/JSONPatch.cpp:137-182 | an entry is compiled exactly if it is valid: an object, "op" one of the six names, "path" a string that is a pointer, "from" likewise for move and copy, "value" there for add, replace and test; and to the operation these denote |
| PatchFormat.ErrorIsFault | src/json-query/json-patch/JSONPatch.cpp:137-182 | each error is reported exactly for its own fault, where all that is checked before is as it should be |
| PatchFormat.ParsePatch | src/json-query/json-patch/JSONPatch.cpp:127-186 | succeeds exactly if every entry is valid, with the operations they denote, fit for the interpreter; otherwise reports the first invalid entry and its fault |
| PatchFormat.ParseEntriesOutcome | src/json-query/json-patch/JSONPatch.cpp:127-186 | one operation per entry, the one it denotes, exactly when all entries are valid; otherwise the fault of the first that is not |
| PatchFormat.EntryRoundTrip | src/json-query/json-patch/JSONPatch.cpp:264-279 | a written operation compiles again, to itself exactly when its pointers are canonical |
| PatchFormat.EntryIsWritten | src/json-query/json-patch/JSONPatch.cpp:264-279 | a written entry has "op", "path", and exactly the members that its kind of operation needs, with the spelled name and the printed pointers |
| PatchFormat.PatchRoundTrip | include/json-query/json-patch/JSONPatch.hpp:92-100 | a patch written with toJson compiles to itself exactly when all its pointers are canonical |
| PatchFormat.ToJson | src/json-query/json-patch/JSONPatch.cpp:264-279 | the appending loop writes the entries the round trip is about |
| MergePatch.MergeValues | src/json-query/json-patch/JSONMergePatch.cpp:19-36 | the editing loop, in any member order, gives the order-free recursion of section 2 of RFC 7386, which the next four rows characterise |
| MergePatch.MergeFrame | src/json-query/json-patch/JSONMergePatch.cpp:28-34 | at any depth, a path that leaves what the patch names leads to what was there before, or to nothing if nothing was |
| MergePatch.MergeSets | src/json-query/json-patch/JSONMergePatch.cpp:19-36 | whatever the target: at a path by which the patch comes to a value that is neither object nor null, that value is there; at null there is nothing; at an object there is an object |
| MergePatch.MergeIdempotent | src/json-query/json-patch/JSONMergePatch.cpp:19-36 | merging a patch twice is merging it once |
| MergePatch.MergeIntoNothing | src/json-query/json-patch/JSONMergePatch.cpp:21-35 | merging into nothing gives a null-free object, the patch itself exactly when it is null-free |
| ArraySlice.EvalSlice | src/json-query/json-path/JSONPathEvalHelpers.cpp:38-118 | for all 64-bit start, end and step and arrays below 2^31 elements, selects what RFC 9535 selects, without overflow |
| ArraySlice.SelectionMeets | src/json-query/json-path/JSONPathEvalHelpers.cpp:38-118 | the selected indices are, without bounds to clip: those in the array, from the start on and before the end, each counted from the end if negative, at multiples of the step; each once, in the order of the step |
| ArraySlice.AscendingMeets | src/json-query/json-path/JSONPathEvalHelpers.cpp:69-79 | a forward walk meets exactly the indices in range at multiples of the step, in increasing order |
| ArraySlice.DescendingMeets | src/json-query/json-path/JSONPathEvalHelpers.cpp:104-114 | a backward walk likewise, in decreasing order |
| ArraySlice.MakeSlice | src/json-query/json-path/JSONPathParseUtils.cpp:93-123 | the stored slice, or none exactly when a literal is not below 2^53 in magnitude |
| ArraySlice.ClampingOutcome | src/json-query/json-path/JSONPathParseUtils.cpp:71-79 | clamping selects what the exact integers select, except exactly when a clamped first bound reads as omitted and elements lie before the last bound |
| ArraySlice.LargeStartIsLost | src/json-query/json-path/JSONPathParseUtils.cpp:71-79 | [3000000000:] on an array of one element selects otherwise than the integer says |
| StringOrder.LessByScalarValue | src/json-query/json-path/JSONPathSingularQuery.cpp:301-314 | the first-mismatch comparison decides the order, on well-formed text that of the Unicode scalar values |
| StringOrder.LessIsScalarOrder | src/json-query/json-path/JSONPathSingularQuery.cpp:301-314 | lifted code-unit order is lexicographic order of scalar values on well-formed UTF-16 |
| Utf16.EncodeOfDecode | src/json-query/json-path/JSONPathSingularQuery.cpp:301-314 | well-formed text is the encoding of the scalar values it decodes to |
| StringOrder.LessIsStrictTotalOrder | src/json-query/json-path/JSONPathSingularQuery.cpp:304-314 | on all texts it is a strict total order |
| QuotedName.IsValidQuotedKey | src/json-query/json-path/JSONPathParseUtils.cpp:220-328 | the flag automaton accepts exactly the grammar of section 2.3.1 of RFC 9535, with hex digits of any script |
| QuotedName.UnescapeQuotedKey | src/json-query/json-path/JSONPathParseUtils.cpp:130-214 | the loop computes `Unescaped`, fallbacks included |
| QuotedName.UnescapeIsExact | src/json-query/json-path/JSONPathParseUtils.cpp:130-214 | on accepted names unescaping yields the grammar's text exactly when the hex digits are ASCII |
| QuotedName.LetterEscape | src/json-query/json-path/JSONPathParseUtils.cpp:143-178 | a backslash and a letter are an item exactly for the letters of RFC 9535, a quote only between its own, and stand for the unit of its table, for validator and unescaper alike |
| QuotedName.HexEscapeSpells | src/json-query/json-path/JSONPathParseUtils.cpp:179-205 | "\u" and four hexadecimal digits in either case stand for the unit of that number, surrogates apart |
| QuotedName.SurrogatesSpell | src/json-query/json-path/JSONPathParseUtils.cpp:290-316 | an escaped surrogate is an item exactly as a high one followed by a low one |
| QuotedName.PlainUnit | src/json-query/json-path/JSONPathParseUtils.cpp:235-252 | any other unit stands for itself, but control characters and the closing quote are refused |
| QuotedName.ForeignDigitsAreCopied | src/json-query/json-path/JSONPathParseUtils.cpp:130-214 | an accepted escape in Arabic-Indic digits comes out as it is written |
| QuotedName.NameTextWellFormed | src/json-query/json-path/JSONPathParseUtils.cpp:290-316 | accepted well-formed UTF-16 stands for well-formed UTF-16 |
| SingularQuery.Parse | src/json-query/json-path/JSONPathSingularQuery.cpp:129-164 | the scanning loops compute the parse the grammar is proved for, with the errors that `ErrorSaysWhy` gives, and never read outside the text |
| SingularQuery.QuotedNameAt | src/json-query/json-path/JSONPathSingularQuery.cpp:56-73 | finds the first quote no backslash escapes, and validates and unescapes what is before it |
| SingularQuery.Resolve | src/json-query/json-path/JSONPathSingularQuery.cpp:166-194 | the loop resolves the segments in turn, a negative index from the end |
| SingularQuery.SelectedHasPointer | src/json-query/json-path/JSONPathSingularQuery.cpp:166-194 | whatever a query selects is at a JSON Pointer with the same names and positions, negative ones counted from the end of the array met |
| SingularQuery.PointerIsSelected | src/json-query/json-path/JSONPathSingularQuery.cpp:166-194 | conversely, what a JSON Pointer with these names and positions leads to, the query selects |
| SingularQuery.ResolveConcat | src/json-query/json-path/JSONPathSingularQuery.cpp:166-194 | resolving a query in two parts is resolving the second from what the first selects |
| SingularGrammar.ParseIsGrammar | src/json-query/json-path/JSONPathSingularQuery.cpp:129-164 | a query parses to a list of segments exactly when its trimmed text is "@" and, with blanks between them, the texts of segments that stand for them |
| SingularGrammar.ErrorSaysWhy | src/json-query/json-path/JSONPathSingularQuery.cpp:20-164 | a refused text is segments of the grammar up to a place where none begins, and the error says what is wrong there: one fault for each error |
| SingularGrammar.LiteralIsSpelled | src/json-query/json-path/JSONPathSingularQuery.cpp:77-98 | the integer literals are the decimal spellings of the integers below 2^53 in magnitude, "-" before the digits of the negative ones |
| SingularGrammar.IndexTextIsSpelled | src/json-query/json-path/JSONPathSingularQuery.cpp:77-98 | what a bracket may hold as an index is such a spelling in white space, with no blank at an end |
| SingularGrammar.QuoteEndOfName | src/json-query/json-path/JSONPathSingularQuery.cpp:58-64 | in a valid quoted name, whatever its escapes, the scan never stops early |
| SingularGrammar.IndexIsLiteral | src/json-query/json-path/JSONPathSingularQuery.cpp:77-98 | integer literals of RFC 9535 are read as their value, and what is accepted beyond them has white space at an end |
| SingularGrammar.SpacedIndexIsAccepted | src/json-query/json-path/JSONPathSingularQuery.cpp:77-98 | a no-break space before the digit of an index is accepted |
| SingularGrammar.TrailingSpaceIsLost | src/json-query/json-path/JSONPathSingularQuery.cpp:131 | a query that ends in a member name is read as written exactly when the name does not end in white space |
| SingularGrammar.NoBreakSpaceIsLost | src/json-query/json-path/JSONPathSingularQuery.cpp:131 | a no-break space that ends the member name of a query is dropped |
| Comparison.EqualIsDeepEquality | src/json-query/json-path/JSONPathSingularQuery.cpp:316-323 | with deep equality of JSON values, == is that equality on values and sets Nothing apart from all of them, and != is its negation |
| Comparison.NumbersByValue | src/json-query/json-path/JSONPathSingularQuery.cpp:316-334 | numbers are less, equal or greater as their values are, in either storage |
| Comparison.StringsByScalarValue | src/json-query/json-path/JSONPathSingularQuery.cpp:325-334 | well-formed strings are less or greater as their scalar values are in lexicographic order |
| Comparison.Trichotomy | src/json-query/json-path/JSONPathSingularQuery.cpp:325-358 | exactly one of <, ==, > holds for two numbers or two strings; for all else < and > are false and <= and >= mean ==; which one holds is said by the two rows before |
| Comparison.LessEqualIsOrder | src/json-query/json-path/JSONPathSingularQuery.cpp:338-358 | <= is reflexive, transitive and antisymmetric up to == on all values and Nothing, and >= its converse |
| Comparison.SplitTopLevelComparison | src/json-query/json-path/JSONPathSingularQuery.cpp:246-296 | the scanning loop splits at the first operator `FindOperator` meets |
| Comparison.SplitsAtFirst | src/json-query/json-path/JSONPathSingularQuery.cpp:246-296 | nested text is split at the first operator of its own level, longest first, however many its quotes and brackets contain |
| Comparison.FirstIsWritten | src/json-query/json-path/JSONPathSingularQuery.cpp:276-295 | that operator is the first of the six spelled in plain units at the text's own level, and the longest spelled there |
| Comparison.UnquotedOperator | src/json-query/json-path/JSONPathSingularQuery.cpp:246-296 | text without quotes, nested or not, is split at the first operator before which as many parentheses and brackets open as close |
| Comparison.NoOperatorNoSplit | src/json-query/json-path/JSONPathSingularQuery.cpp:276-295 | without an operator of its own level it is not split; a lone "=" or "!" is none |
| TopLevelSplit.SplitTopLevel | include/json-query/json-path/JSONPathHelpers.hpp:33-110 | cuts at the first top-level delimiter; left, delimiter and right make up the input |
| TopLevelSplit.SplitTopLevelMultiple | include/json-query/json-path/JSONPathHelpers.hpp:114-193 | the single pass computes `Pieces`, none without a top-level delimiter |
| TopLevelSplit.MultipleSplit | include/json-query/json-path/JSONPathHelpers.hpp:114-193 | for one-unit plain delimiters: equals repeated splitting, joins back to the input, and leaves no top-level delimiter in any part |
| TopLevelSplit.MultipleAgreesWhenApart | include/json-query/json-path/JSONPathHelpers.hpp:114-193 | for delimiters of any length, the single pass is repeated splitting exactly when no two top-level matches overlap |
| NestedText.SplitOfNested | include/json-query/json-path/JSONPathHelpers.hpp:114-193 | text built from plain units, quoted strings with escapes and bracketed groups comes apart exactly at the plain delimiters of its own level |
| NestedText.SplitsAtRun | include/json-query/json-path/JSONPathHelpers.hpp:33-110 | for delimiters of any length, such as "\|\|": such text is cut at the first run of plain units of its own level that spells the delimiter |
| NestedText.NoRunNoSplit | include/json-query/json-path/JSONPathHelpers.hpp:105-110 | without such a run there is no split, whatever the quotes and groups contain |
| NestedText.UnquotedIsCounted | include/json-query/json-path/JSONPathHelpers.hpp:79-110 | text without quotes, nested or not, is cut at the first delimiter up to which as many brackets of each kind open as close |
| TopLevelSplit.OverlappingDelimiter | include/json-query/json-path/JSONPathHelpers.hpp:176-183 | "\|\|" cuts "\|\|\|" into "", "\|", "" |
| SchemaValidator.ValidateContext.ValidateNode | src/json-query/json-schema/JSONSchemaValidate.cpp:140-240 | the recursion does what `RunNode` says and returns with tracker pointer, dynamic scope and active references as on entry |
| SchemaValidator.ValidateContext.ValidateObjectSchema | src/json-query/json-schema/JSONSchemaValidate.cpp:71-135 | a local tracker sees only this schema's evaluations, is merged into the saved one, and the saved pointer is restored |
| SchemaValidator.ValidateContext.ExpandReference | src/json-query/json-schema/JSONSchemaValidate.cpp:179-200 | a reference active at the path is reported, any other is expanded under both guards, which are then undone |
| SchemaValidator.ValidateContext.TrySubschemas | include/json-query/json-schema/internal/ValidateCombinators.hpp:45-148 | anyOf, oneOf, not, if and contains run subschemas in contexts of their own, stop early and combine as `RunAction` says |
| SchemaValidator.ValidateContext.ResolveDynamicAnchor | include/json-query/json-schema/internal/ValidationContext.hpp:107-118 | finds the outermost scope entry that has the anchor |
| SchemaTermination.ResolvedFromScope | include/json-query/json-schema/internal/ValidationContext.hpp:107-118 | a resolved dynamic anchor is that of the outermost scope entry that has it |
| SchemaLaws.NodeGrows | include/json-query/json-schema/internal/ValidationContext.hpp:21-31 | recorded errors stay, in order; an attached tracker stays attached and keeps its places |
| SchemaPlaces.ActionPlaced | src/json-query/json-schema/JSONSchemaValidate.cpp:71-135 | the errors of one keyword are at or below the place its step leads to, and there is a value there |
| SchemaPlaces.ErrorsHavePlaces | src/json-query/json-schema/JSONSchemaValidate.cpp:244-259 | every collected error of a compiled schema is at a path by which the instance has a value, and of a kind that some node of the schema gives: a false schema, keywords, a reference |
| SchemaPlaces.RefusedValueEnds | src/json-query/json-schema/JSONSchemaValidate.cpp:95-105 | once type, enum or const refuse the value, a fail-fast run ends with that one error and goes to no subschema |
| SchemaPlaces.DecidedTriesNoMore | include/json-query/json-schema/internal/ValidateCombinators.hpp:46-109 | anyOf, oneOf and contains stop trying exactly when their outcome is clear, and without the early exits when a tracker is attached |
| SchemaLaws.NodeMonotone | src/json-query/json-schema/JSONSchemaValidate.cpp:140-240 | a returning run gives the same result under every larger bound on the call depth |
| SchemaLaws.SameVerdict | src/json-query/json-schema/JSONSchemaValidate.cpp:244-276 | on every graph: when the collecting validator returns, so does the fail-fast one, with the same verdict |
| SchemaLaws.ValidFailFastIsCollecting | src/json-query/json-schema/JSONSchemaValidate.cpp:261-276 | a fail-fast run that ends valid is the collecting run |
| SchemaTermination.ValidationReturns | src/json-query/json-schema/JSONSchemaValidate.cpp:177-187 | both validators return on every instance of a stratified schema, however cyclic its references |
| SchemaTermination.ReferenceCyclesReturn | src/json-query/json-schema/JSONSchemaValidate.cpp:177-187 | without anyOf, oneOf, not and if, arbitrary reference cycles return |
| SchemaBound.RunsReturnWithin | src/json-query/json-schema/JSONSchemaValidate.cpp:140-240 | from any state of validation, a run that returns does so within the bound for its instance, with the same result |
| SchemaBound.ReturnsIffWithinBound | src/json-query/json-schema/JSONSchemaValidate.cpp:244-276 | validation returns exactly if it does within the bound that the number of nodes and the height of the instance give |
| SchemaTermination.SelfReferenceIsReported | src/json-query/json-schema/JSONSchemaValidate.cpp:179-186 | {"$ref": "#"} yields exactly one cycle error at the root |
| SchemaLoops.LoopNeverReturns | include/json-query/json-schema/internal/ValidateCombinators.hpp:46-149 | a loop of nodes, references included, each of which comes without an error before to try a node of the loop, or to visit or refer to one of lower rank, exceeds every bound on the call depth |
| SchemaLoops.CompiledLoopNeverReturns | src/json-query/json-schema/JSONSchemaValidate.cpp:71-135 | likewise for references and compiled schema objects whose assertions hold, whose other keywords add no error, and one of whose combinators, allOf included, leads back |
| SchemaLoops.LeadingBackNeverReturns | src/json-query/json-schema/JSONSchemaValidate.cpp:71-135 | a check on the keywords alone by which such a loop shows |
| SchemaExamples.NotItselfNeverReturns | include/json-query/json-schema/internal/ValidateCombinators.hpp:112-116 | {"not": {"$ref": "#"}} hangs both validators on every instance |
| SchemaExamples.NotThroughReferencesNeverReturns | src/json-query/json-schema/JSONSchemaValidate.cpp:177-200 | {"not": {"$ref": "#/$defs/b"}, "$defs": {"b": {"$ref": "#"}}} does, too |
| SchemaExamples.EarlierAlternativeReturns | include/json-query/json-schema/internal/ValidateCombinators.hpp:59-66 | {"anyOf": [true, {"$ref": "#"}]} returns valid on every instance |
| SchemaGuard.GuardChangesNothing | src/json-query/json-schema/JSONSchemaValidate.cpp:177-187 | where the recursion without the guard has a result, both validators have the same one, and report no cycle |
| SchemaGuard.ReportedCycleIsReal | src/json-query/json-schema/JSONSchemaValidate.cpp:179-186 | a reported cycle is one, where names meet no reference: without the guard no bound on the depth is enough |
| SchemaGuard.CycleReportedIff | src/json-query/json-schema/JSONSchemaValidate.cpp:177-187 | where no subschema is tried in a context of its own, a cycle is reported exactly when the recursion without the guard has no result |
| SchemaCompiled.SteadyIffNamesMeetNoReference | include/json-query/json-schema/internal/ValidateObject.hpp:83-90 | these theorems apply to a compiled schema exactly if no reference is dynamic and the subschemas of propertyNames, with what they go on to through allOf, then and else, come to no reference |
| SchemaExamples.MemberNameLooksLikeCycle | include/json-query/json-schema/internal/ValidateObject.hpp:83-90 | with propertyNames a recursion that ends without the guard is reported as a cycle, on every object with one member |
| SchemaScope.OuterScopeMattersNot | include/json-query/json-schema/internal/ValidationContext.hpp:107-118 | a dynamic reference goes to the same node with and without the outer part of its scope exactly if it is not resolved dynamically, or no entry there has the anchor, or the outermost that has it names that node |
| SchemaScope.EnteredInside | include/json-query/json-schema/internal/ValidationContext.hpp:47-62 | entering a resource gives its anchors a node unless an entry further out does |
| SchemaScope.StaticInEveryScope | src/json-query/json-schema/JSONSchemaValidate.cpp:204-222 | a dynamic reference goes to its static target in every scope exactly if no resource declares its anchor elsewhere |
| SchemaScope.ScopeMakesNoDifference | include/json-query/json-schema/internal/ValidateCombinators.hpp:46-149 | where that holds of all dynamic references, runs in which tried subschemas inherit the scope are the library's runs |
| SchemaExamples.DynamicScopeIsLost | include/json-query/json-schema/internal/ValidateCombinators.hpp:51-58 | an anyOf of one dynamic reference accepts every instance, where it would reject all if it inherited the scope, and the allOf does; on compiled keywords with their anchors filed |
| SchemaEntry.ValidateInstance | src/json-query/json-schema/JSONSchemaValidate.cpp:244-259 | returns the errors of the collecting run |
| SchemaEntry.IsInstanceValid | src/json-query/json-schema/JSONSchemaValidate.cpp:261-276 | accepts exactly the instances on which the collecting run returns without an error |
| SchemaEntry.CollectedOnce | src/json-query/json-schema/JSONSchemaValidate.cpp:244-259 | the collected errors are unique: the call-depth bound of the model plays no part |
| SchemaMeaning.ValidatorDecides | src/json-query/json-schema/JSONSchemaValidate.cpp:71-135 | with no cycle back to an instance path and no dynamic reference: no error is collected exactly when the instance satisfies the schema's reading with the leak, unevaluated* included |
| SchemaMeaning.ReadingIsUnique | src/json-query/json-schema/JSONSchemaValidate.cpp:140-240 | the ranks that show the reading well founded play no part in it |
| SchemaMeaning.NodeMeans | src/json-query/json-schema/JSONSchemaValidate.cpp:90-133 | in either mode a node's run stays valid exactly when the instance satisfies the node, and then an attached tracker gains exactly the places the node evaluates |
| SchemaMeaning.BackMeans | include/json-query/json-schema/internal/ValidateObject.hpp:255-282 | the unevaluated* loop passes over the places in the tracker, requires the subschema of all others, and adds them with what is evaluated inside them, which is how `Seen` grows |
| SchemaMeaning.AnyOfConcludes | include/json-query/json-schema/internal/ValidateCombinators.hpp:46-75 | anyOf, with or without early exit, accepts exactly with a satisfied alternative and merges what all satisfied ones evaluate |
| SchemaMeaning.OneOfConcludes | include/json-query/json-schema/internal/ValidateCombinators.hpp:78-109 | oneOf, stopping at the second match, accepts exactly with one satisfied alternative and merges what it evaluates |
| SchemaMeaning.ContainsConcludes | include/json-query/json-schema/internal/ValidateArray.hpp:103-146 | contains, with its shortcut and early exit, accepts exactly by the number of satisfying elements and marks exactly those |
| SchemaLeak.NodeAgreesIff | include/json-query/json-schema/internal/ValidateObject.hpp:255-282 | where the readings agree on all that a node looks at, they agree at it exactly when no place is hidden there, and differ only by the validator accepting |
| SchemaLeak.ReadingsAgreeIff | include/json-query/json-schema/internal/ValidateObject.hpp:255-282 | the two readings agree at every node and value that the reading of a node comes to exactly when nothing is hidden at any of them |
| SchemaLeak.ErrsExactlyWhenHidden | src/json-query/json-schema/JSONSchemaValidate.cpp:86-133 | the validator accepts what the specification rejects exactly when a place is hidden at the root, and never rejects what it accepts, where the readings agree below the root |
| SchemaLeak.NothingHiddenDecides | src/json-query/json-schema/JSONSchemaValidate.cpp:71-135 | where nothing is hidden in the instance, no error is collected exactly when it satisfies the specification's reading |
| SchemaExamples.LeakedEvaluation | include/json-query/json-schema/internal/ValidateObject.hpp:255-282 | an instance that does not satisfy unevaluatedProperties is accepted exactly when the member whose visit marks the other's name comes first |
| SchemaKeywordLaws.ArrayHolds | include/json-query/json-schema/internal/ValidateArray.hpp:25-147 | the array keywords hold, and evaluate a place, exactly as their order-free meaning says |
| SchemaKeywordLaws.MemberHolds | include/json-query/json-schema/internal/ValidateObject.hpp:112-171 | properties and patternProperties apply where they name the member, additionalProperties exactly where properties has no such name and no pattern matches it |
| SchemaKeywordLaws.ObjectHolds | include/json-query/json-schema/internal/ValidateObject.hpp:292-318 | the object keywords, likewise, in any order of the members |
| SchemaKeywordLaws.CombinatorsHold | include/json-query/json-schema/internal/ValidateCombinators.hpp:24-149 | allOf, anyOf, oneOf, not and if/then/else, likewise |
| SchemaKeywordLaws.SatisfiesIsMeaning | src/json-query/json-schema/JSONSchemaValidate.cpp:71-135 | an instance satisfies a compiled schema object exactly when its keywords, unevaluated* included, say so |
| SchemaKeywordLaws.EvaluatedIsPlace | src/json-query/json-schema/JSONSchemaValidate.cpp:86-133 | the places a schema object hands to its parent's tracker are those its keywords and satisfied subschemas evaluate, and all with unevaluated* |
| SchemaCompiled.CompiledFits | src/json-query/json-schema/JSONSchemaCompile.cpp:335-362 | what compilation guarantees, children before parents, makes the termination and meaning theorems apply to every instance |
| SchemaCompiled.KeywordsReturn | src/json-query/json-schema/JSONSchemaValidate.cpp:244-276 | both validators return on schemas of compiled keywords, references and dynamic references whose levels fall where a subschema is tried in a context of its own |
| SchemaCompiled.KeywordsReturnIff | src/json-query/json-schema/JSONSchemaValidate.cpp:244-276 | so on every compiled schema, whatever its references, dynamic ones included, and combinators |
| SchemaCompiled.KeywordsDecide | src/json-query/json-schema/JSONSchemaValidate.cpp:244-259 | for schemas of keywords and references and instances in which nothing is hidden: the validator collects no error exactly when the keywords' meaning, as a recursion over instance and schema, holds |
| SchemaCompiled.BooleansDecide | include/json-query/json-schema/internal/ValidateObject.hpp:262-270 | so with boolean unevaluated*, on every instance |
| SchemaCompiled.ScalarsHaveNoPlaces | include/json-query/json-schema/internal/ValidateObject.hpp:83-90 | propertyNames, whose tracker is not suspended, evaluates no places |

## Left out

- The JSONPath pipeline (`processToken`, unions, recursive descent) and filter compilation, which are compositions over regexes; of operands, `Comparable::parse`, whose number literals are read by Qt.
- Qt's own equality of arrays, objects and scalars: `Comparison` takes it as a parameter of which only `IsEquality` is used.
- Comparison.SplitTopLevelComparison: the operands are left untrimmed.
- Comparison.SplitsAtFirst: no brace groups in the nested text, since this scanner, unlike the splitters, does not know braces.
- Comparison.NoOperatorNoSplit: no brace groups, for the same reason.
- Comparison.UnquotedOperator: text with quotes only where its groups nest (`SplitsAtFirst`).
- NestedText.UnquotedIsCounted: text with quotes only where its groups nest (`SplitsAtRun`, `SplitOfNested`).
- The assertions on types, numbers and strings (bounds, patterns, formats) are functions of the instance; schema compilation is left out but for what it guarantees of the graph (`Compiled`, `Fits`).
- Error messages, schema paths and error nesting; errors carry their instance path and kind.
- ArraySlice.MakeSlice: starts from the integer literals of the three parts, after the regular expression and the split at ':'.
- QuotedName.UnescapeQuotedKey: QString::toUInt beyond four hexadecimal digits (signs, blanks, "0x"), which the validator keeps out of escapes.
- PointerParsing.ToString: the exact digit count stands for `log10` in the capacity estimate.
- SchemaCompiled.CompiledFits: takes from schema compilation, which is not modelled, that subschemas are compiled before their parent.
- Rounding and NaN: numbers are exact reals in one of two storages.
- JSONPatchBuilder, pointer literals, SchemaRegistry, remote references, ArrayPool, logging, memory exhaustion.
- SchemaEntry.ValidateInstance: requires that validation returns, because a method of the model must; `KeywordsReturnIff` and `ReturnsIffWithinBound` say when it does.
- SchemaEntry.IsInstanceValid: likewise, for the fail-fast run.
- SchemaTermination.ValidationReturns: sufficient only; `ReturnsIffWithinBound` is exact.
- SchemaLoops.LoopNeverReturns: sufficient only; `ReturnsIffWithinBound` is exact.
- SchemaGuard.ReportedCycleIsReal: sufficient only: no dynamic references, and names that meet no reference, although the guard may be right where they do.
- SchemaGuard.GuardChangesNothing: likewise.
- SchemaScope.ScopeMakesNoDifference: sufficient only; a lost scope may not change the verdict.
- SchemaMeaning.ValidatorDecides: no dynamic references, whose reading would depend on the path of the validation, and no cycle at one instance path, which has no logical reading.
- SchemaMeaning.NodeMeans: likewise.
- SchemaMeaning.BackMeans: likewise.
- SchemaTermination.ReferenceCyclesReturn: no anyOf, oneOf, not or if at all; with them the levels of `ValidationReturns` are needed.
- ArraySlice.EvalSlice: arrays below 2^31 elements, the range in which the source's index cast to int is exact.
- TopLevelSplit.MultipleSplit: one-unit delimiters that are neither quotes nor brackets, the kind every caller passes.
