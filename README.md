# AngularJS `filter` filter, modelled in Dafny

AngularJS's `filter` filter selects a subset of an array. It takes three inputs:

- the **items**;
- an **expression**: absent, a text or number to search for, a record of expected property values, or a predicate function;
- an optional **comparator**: the default case-insensitive substring test, `true` for strict equality, or a caller-supplied function.

The behaviour modelled here is the one pinned down by `test/ng/filter/filterSpec.js`.

The project is a pure functional model in six modules, plus three modules of proofs about the test's examples:

- `Text` (`text.dfy`): lower-casing, substring search (`indexOf(...) !== -1`, as the existence of a position where the needle occurs) and the decimal text of integers with its parser.
- `Values` (`values.dfy`): JavaScript values.
  - An object is an ordered list of enumerable properties: its own properties, then the inherited ones. A later entry whose name was seen earlier is shadowed, as `for key in` shadows it.
  - `Lookup` reads a property by its literal name (`obj[key]`), so a dotted key is just a name.
- `Comparison` (`comparison.dfy`): the three comparison policies for two leaf values.
  - The default policy lower-cases the text of both values and tests for a substring. An object on either side never matches it, so `[object Object]` is never searched.
  - A missing property (`undefined`) matches only the empty text. The tests leave this case open (see "Left out").
- `Matching` (`matching.dfy`): the recursive matcher between an actual value and an expected one.
  - Leading `!` marks negate: an odd number flips the verdict. The inner match of a negated text may fall back to comparing a searched object as a whole: the restriction a `$` key puts on that fallback is dropped.
  - Arrays match when one element matches.
  - In search mode (a text expression, or the value under a `$` key), an object matches when one of its visible, non-`$` properties matches at any depth.
  - A record expression is the conjunction of its keys. Keys whose value is a function or `undefined` impose nothing. A `$` key searches the actual value at the same level and deeper.
  - A function value matches no record and no text without a leading `!`; a `!` makes it match.
- `Selection` (`selection.dfy`): keeping the items a `(value, index)` test accepts, in order, with the indices that were kept.
- `Filtering` (`filtering.dfy`): `Filter(items, expression, comparator)` and its laws.
- `ScenarioTexts` (`scenario_texts.dfy`) and `ReplayKit` (`replay_kit.dfy`): single facts about the texts of the examples, and small lemmas that put per-item verdicts together.
- `Scenarios` (`scenarios.dfy`): every `expect` of the test file, restated as an equation over `Filter` and proved. Each item is given by its literal value.

The test file fixes strict comparison (comparator `true`) as case-sensitive equality: at lines 348-356, `{key: 'value1'}` keeps the items whose key is `'value1'` and not the one whose key is `'Value1'`. The model follows the tests.

## Model

| member | source | states |
|---|---|---|
| Filtering.Filter | test/ng/filter/filterSpec.js:11-29 | the result is a subsequence of the items: kept items stay in their original order and nothing is invented |
| Filtering.FilterKeepsAccepted | test/ng/filter/filterSpec.js:58-72 | the result is exactly the items at the increasing list of indices whose (item, index, items) verdict is true; an index is listed if and only if its item is accepted |
| Filtering.FilterByDecisions | test/ng/filter/filterSpec.js:11-29 | when each item's verdict is known, the result is the items whose verdict is true, in order |
| Filtering.FilterAbsent | test/ng/filter/filterSpec.js:13-14 | an undefined expression keeps every item, whatever the comparator |
| Filtering.FilterEmptyText | test/ng/filter/filterSpec.js:11-14 | under the default comparator, `''` keeps an item exactly when the item reaches a value that is neither a function nor a record or array, through visible non-`$` properties and array elements; so when every item does, all of them are kept |
| Filtering.FilterNegation | test/ng/filter/filterSpec.js:182-187 | `'!s'` keeps exactly the items `'s'` rejects, so the two results together are as long as the input |
| Filtering.FilterRefines | test/ng/filter/filterSpec.js:342-387 | for a negation-free expression, a comparator that accepts no more leaves than another keeps a subsequence of what the other keeps |
| Filtering.StrictWithinDefault | test/ng/filter/filterSpec.js:342-369 | for a negation-free expression, strict comparison keeps a subsequence of what the default comparator keeps |
| Filtering.FilterRecordConjunction | test/ng/filter/filterSpec.js:75-84 | over records, filtering by a record with two disjoint groups of keys equals filtering by one group and then by the other |
| Filtering.FilterEmptyRecord | test/ng/filter/filterSpec.js:47-55 | a record expression with no constraining key (`{}`, or only functions and undefined) keeps every record |
| Selection.SelectIsSubseq | test/ng/filter/filterSpec.js:11-29 | what a selection keeps is a subsequence of its input |
| Selection.KeptIndicesExact | test/ng/filter/filterSpec.js:64-72 | the kept indices increase strictly, lie in range, and are exactly the positions whose (item, index) test holds |
| Selection.SelectAtKeptIndices | test/ng/filter/filterSpec.js:64-72 | the k-th kept item is the input item at the k-th kept index |
| Selection.SelectComplement | test/ng/filter/filterSpec.js:182-187 | selections by a test and by its negation are together as long as the input |
| Selection.SelectMonotone | test/ng/filter/filterSpec.js:342-369 | a test that implies another keeps a subsequence of what the other keeps |
| Selection.SelectTwice | test/ng/filter/filterSpec.js:75-84 | when the tests do not depend on the index, selecting by one test and then by another is selecting by their conjunction |
| Selection.SelectByDecisions | test/ng/filter/filterSpec.js:11-29 | a selection whose per-item verdicts are known equals choosing the items flagged true |
| Matching.LeadingBangs | test/ng/filter/filterSpec.js:182-187 | counts the `!` marks that open a text: all of the first k characters are `!` and the next one is not |
| Matching.DoubleNegationCancels | test/ng/filter/filterSpec.js:182-187 | two leading `!` marks cancel: `'!!s'` matches exactly where `'s'` does with the `$` restriction on the whole-object fallback lifted |
| Matching.NegationInverts | test/ng/filter/filterSpec.js:108-118 | adding one `!` to an expected text exactly inverts the verdict, for every value, comparator and mode, including inside a deep record; the verdict inverted is the one taken with the `$` restriction on the whole-object fallback lifted |
| Matching.StrictRefinesDefault | test/ng/filter/filterSpec.js:342-369 | on leaves, whatever strict equality accepts the default substring test also accepts |
| Matching.MatchMonotone | test/ng/filter/filterSpec.js:342-387 | for a negation-free expectation, a match under a finer comparator is also a match under a coarser one, through arrays, searches, `$` keys and nested records |
| Matching.CoreMonotone | test/ng/filter/filterSpec.js:342-387 | the same monotonicity for the matcher once its `!` marks are counted |
| Matching.SearchMonotone | test/ng/filter/filterSpec.js:121-167 | monotonicity of the search of an object's properties |
| Matching.RecordMonotone | test/ng/filter/filterSpec.js:75-118 | monotonicity of a record expression, key by key |
| Matching.EmptyTextMatchesSearchable | test/ng/filter/filterSpec.js:11-14 | `''` matches a value if and only if it reaches a value that is neither a function nor a record or array, at any depth, through visible non-`$` properties and array elements |
| Matching.LeafComparison | test/ng/filter/filterSpec.js:342-387 | on a leaf that is not a function, matching is the comparator's verdict on the two values, in every mode |
| Matching.FunctionNeverMatches | test/ng/filter/filterSpec.js:190-222 | a function value matches no record expectation and no leaf expectation without a leading `!` |
| Matching.NegatedTextMatchesFunction | test/ng/filter/filterSpec.js:182-187 | under one `!`, a function value matches every text that has no mark of its own, in every mode and under every comparator |
| Matching.SearchObject | test/ng/filter/filterSpec.js:31-37 | under the built-in comparators, a leaf expectation without `!` matches an object if and only if it matches one of the object's visible, non-`$` properties, at any depth |
| Matching.SearchArray | test/ng/filter/filterSpec.js:11-29 | an array matches a search if and only if one of its elements does |
| Matching.DollarSearchesProperties | test/ng/filter/filterSpec.js:121-130 | for a constraining `v` without a leading `!`, `{$: v}` holds of a record if and only if one of the record's visible, non-`$` properties matches `v` at any depth |
| Matching.SingleKey | test/ng/filter/filterSpec.js:47-55 | a one-key record expression imposes nothing when its value is a function or undefined; otherwise it matches the named property, or searches the whole level for `$` |
| Matching.RecordConjunction | test/ng/filter/filterSpec.js:75-84 | a record whose keys split into two disjoint groups holds exactly when both groups hold |
| Matching.EmptyRecordHoldsOfObjects | test/ng/filter/filterSpec.js:47-55 | a record expression without constraining keys holds of every record |
| Matching.LookupSameEntries | test/ng/filter/filterSpec.js:255-278 | reading a property by name depends only on names and values, not on whether the entry is own or inherited |
| Matching.InheritedItemPropertiesCount | test/ng/filter/filterSpec.js:255-278 | under the built-in comparators, an item's inherited properties count exactly like own ones |
| Matching.InheritedExpressionEntriesCount | test/ng/filter/filterSpec.js:281-302 | under the built-in comparators, an expression's inherited keys count exactly like own ones |
| Matching.HiddenPropertyIgnoredBySearch | test/ng/filter/filterSpec.js:39-44 | appending a function-valued or `$`-named property to an object changes no search verdict |
| Matching.SearchedPropertiesAppendHidden | test/ng/filter/filterSpec.js:39-44 | a function-valued or `$`-named property adds no candidate to an object's searched properties |
| Matching.WholeObjectNotLeaf | test/ng/filter/filterSpec.js:335-339 | under the built-in comparators, a record never matches a leaf expectation as a whole, so `[object Object]` is never matched |
| Matching.FunctionPropertyIgnoredByRecord | test/ng/filter/filterSpec.js:190-222 | a function-valued property in an item leaves every record verdict that does not name it unchanged |
| Matching.FunctionEntryIgnored | test/ng/filter/filterSpec.js:225-252 | a function-valued key in a record expression, own or inherited, changes no verdict |
| Comparison.BooleanExact | test/ng/filter/filterSpec.js:170-179 | under the default comparator, booleans match exactly (no substring of `true`/`false`), and a missing property never matches a boolean |
| Comparison.CaseInsensitive | test/ng/filter/filterSpec.js:16-17 | the default comparator is blind to the case of both sides |
| Comparison.NumberByDecimalText | test/ng/filter/filterSpec.js:26-27 | a number matches a text exactly when the lower-cased text occurs in its decimal digits |
| Comparison.EmptyTextMatchesLeaves | test/ng/filter/filterSpec.js:11-14 | the empty text matches every leaf under the default comparator |
| Comparison.StrictImpliesSubstring | test/ng/filter/filterSpec.js:342-369 | what strict equality accepts, the default comparator accepts |
| Values.IndexOf | test/ng/filter/filterSpec.js:87-93 | the position of the first entry carrying exactly the given name (a dotted name is a name), or -1 when none does |
| Values.Lookup | test/ng/filter/filterSpec.js:87-93 | `obj[name]` is the value of the visible entry of that literal name, or undefined when the object has none |
| Text.Lower | test/ng/filter/filterSpec.js:16-17 | lower-casing keeps the length and maps each character on its own |
| Text.LowerIdempotent | test/ng/filter/filterSpec.js:16-17 | lower-casing twice is lower-casing once |
| Text.IntToString | test/ng/filter/filterSpec.js:26-27 | an integer's text is non-empty, all digits after its first character, starts with a minus exactly for negatives, and has no leading zero (a lone `0` is zero, and a minus is never followed by `0`) |
| Text.IntToStringRoundTrip | test/ng/filter/filterSpec.js:26-27 | parsing an integer's decimal text gives the integer back |
| Text.LowerOfDecimal | test/ng/filter/filterSpec.js:26-27 | lower-casing leaves a number's decimal text unchanged, so a number is searched by its digits |
| Scenarios.SearchByString | test/ng/filter/filterSpec.js:16-27 | on `['MIsKO', {name:'shyam'}, ['adam'], 1234]`, `'iSk'`, `'isk'`, `'yam'`, `'da'` and `'34'` each keep exactly the expected item |
| Scenarios.SearchByStringAllOrNone | test/ng/filter/filterSpec.js:13-29 | on the same items, `''` and undefined keep all four and a missing text keeps none |
| Scenarios.SearchDeepObject | test/ng/filter/filterSpec.js:31-37 | `'me@joan'` and `'joan@example'` each find only Joan, through nested email records |
| Scenarios.PrivatePropertyNotSearched | test/ng/filter/filterSpec.js:39-44 | `{$name: 'misko'}` is not found by `'misko'` |
| Scenarios.SpecificProperty | test/ng/filter/filterSpec.js:47-55 | `{}` and `{name:'a'}` keep both records, `{name:'b'}` keeps only `abc` |
| Scenarios.PredicateOnItem | test/ng/filter/filterSpec.js:58-61 | a predicate reading `done` keeps only the done item |
| Scenarios.PredicateByIndex | test/ng/filter/filterSpec.js:64-72 | a predicate on the index keeps `[0, 2]` out of `[0, 1, 2, 3]` |
| Scenarios.ObjectPredicate | test/ng/filter/filterSpec.js:75-84 | the four first/last record expressions keep both, Misko, none and Misko |
| Scenarios.DottedNames | test/ng/filter/filterSpec.js:87-93 | keys `first.name`/`last.name` are read as literal names: both kept, then only Misko |
| Scenarios.DeepPredicate | test/ng/filter/filterSpec.js:96-105 | `{person:{name:'Jo'}}` keeps John and Joan, in order |
| Scenarios.DeepNegation | test/ng/filter/filterSpec.js:108-118 | `{person:{name:'Jo', email:'!example.com'}}` keeps only Joan |
| Scenarios.DollarTom | test/ng/filter/filterSpec.js:121-130 | `{$:'tom'}` keeps all three people |
| Scenarios.DollarA | test/ng/filter/filterSpec.js:121-130 | `{$:'a'}` keeps the second and third |
| Scenarios.DollarFalse | test/ng/filter/filterSpec.js:121-130 | `{$:false}` keeps only the record with `done: false` |
| Scenarios.DollarTen | test/ng/filter/filterSpec.js:121-130 | `{$:10}` keeps nothing |
| Scenarios.DollarHevery | test/ng/filter/filterSpec.js:121-130 | `{$:'hevery'}` keeps the two Heverys, the first one first |
| Scenarios.NestedDollar | test/ng/filter/filterSpec.js:133-143 | `{person:{$:'net'}}` keeps Annet and Joan |
| Scenarios.DeeperDollar | test/ng/filter/filterSpec.js:146-154 | the same expression finds Joan's `.net` address one level deeper |
| Scenarios.NestingOfDollar | test/ng/filter/filterSpec.js:157-167 | `{$:{$:'me'}}` keeps only Billy: the top-level `supervisor: 'me'` is at the wrong level |
| Scenarios.BooleanProperties | test/ng/filter/filterSpec.js:170-179 | `{current:true}` keeps tom and `{current:false}` keeps demi; a missing `current` matches neither |
| Scenarios.NegatedText | test/ng/filter/filterSpec.js:182-187 | `'!isk'` keeps only `adam` |
| Scenarios.FunctionsInItems | test/ng/filter/filterSpec.js:190-203 | an own function property in an item is ignored: `{text:'hello'}` keeps the first item under the default and strict comparators |
| Scenarios.InheritedFunctionsInItems | test/ng/filter/filterSpec.js:205-221 | the same with the function inherited from the items' prototype, under the default and strict comparators |
| Scenarios.FunctionsInExpression | test/ng/filter/filterSpec.js:225-252 | a function key in the expression, own or inherited, is ignored: under the default and strict comparators the first item is kept |
| Scenarios.InheritedPropertiesInItems | test/ng/filter/filterSpec.js:255-278 | an inherited `doubleL: 'maybe'` makes `doubleL:'perhaps'` keep none and `doubleL:'maybe'` keep the first item, under the default and strict comparators |
| Scenarios.InheritedPropertiesInExpression | test/ng/filter/filterSpec.js:281-302 | an expression inheriting `doubleL: true` keeps only the first item, for `'e'` and, strictly and by default, for `'hello'` |
| Scenarios.PrototypeProperty | test/ng/filter/filterSpec.js:305-330 | with `someProp: 'oo'` on the prototype, `{}` keeps only `goodbye`, `{$:'ll'}` keeps none, and `'ll'` keeps only `hello` |
| Scenarios.ObjectTextNotSearched | test/ng/filter/filterSpec.js:335-339 | `'[object'` does not find `{test: {}}` |
| Scenarios.StrictText | test/ng/filter/filterSpec.js:342-346 | on `['misko', 'adam', 'adamson']`, strict `'adam'` keeps only `adam`, while the default comparator keeps `adam` and `adamson` |
| Scenarios.StrictRecordText | test/ng/filter/filterSpec.js:348-356 | strict `{key:'value1'}` keeps the first and fourth records, and neither `value12` nor `Value1` |
| Scenarios.StrictRecordNumber | test/ng/filter/filterSpec.js:358-365 | strict `{key:1}` keeps only the records whose key is the number 1 |
| Scenarios.StrictNumberSearch | test/ng/filter/filterSpec.js:367-368 | strict search for `12` keeps only the record holding the number 12 |
| Scenarios.GreaterComparator | test/ng/filter/filterSpec.js:372-387 | with a "greater than" comparator, `{key:10}` keeps only the record whose key is 12, and the search `10` keeps that record and the one holding `nonkey: 14` |
| Scenarios.GreaterRecord | test/ng/filter/filterSpec.js:372-383 | `{key:10}` with the "greater than" comparator keeps only the third item |
| Scenarios.GreaterSearch | test/ng/filter/filterSpec.js:385-386 | the search `10` with the "greater than" comparator keeps the third and fourth items |
| Scenarios.DeepDefault | test/ng/filter/filterSpec.js:390-411 | default deep expressions on the users' details: `user@example.com`/`adm` keeps none, `admin@example.com`/`adm` keeps the admin, `user`/`us` keeps both users |
| Scenarios.DeepDefaultWithId | test/ng/filter/filterSpec.js:413-417 | adding `id: 0` to the `user`/`us` expression keeps none, `id: 1` keeps the first user |
| Scenarios.DeepStrict | test/ng/filter/filterSpec.js:404-408 | strict deep expressions: `adm` keeps none, the exact `admin` keeps the admin |
| Scenarios.DeepPrefix | test/ng/filter/filterSpec.js:419-427 | a prefix comparator: `min` keeps none, `adm` keeps the admin |

## Left out

- The dependency-injection and test-runner wiring (lines 3-8) is not modelled: the filter is a function called directly.
- Mutation of `Object.prototype` (lines 306 and 329) is not modelled as mutation. Each object that sees the prototype property carries it as an inherited entry.
- `null` values, and items given as something other than an array, are not modelled: the tests use neither.
- What a missing property (`undefined`) matches under the default comparator is not decided by the tests. The model lets it match only the empty text. JavaScript would render it as the text `"undefined"`, so `{name: 'def'}` would keep an item without `name`; the model rejects it.
- Keys of a record expression whose value is `undefined` impose nothing in the model. The tests never use such a key.
- Array-valued expressions are not tested. The model compares them as leaves and proves nothing about them.
- JavaScript coercion, floating-point numbers (including `NaN` and `-0`), and Unicode case mapping are not modelled. Numbers are integers, and lower-casing maps only `A`-`Z`.
- Exceptions thrown by a predicate or a custom comparator are not modelled: callbacks are total Dafny functions.
- Object identity (`toBe`) is not modelled: values are compared structurally, so `toBe(items[0])` is stated as equality with the item's value.
- The text of a function value is never compared. A function matches no record and no text without a leading `!`; a `!` makes it match.
- Matching.InheritedItemPropertiesCount: proved only for the built-in comparators. A custom comparator may treat a record that carries inherited entries differently from the same record written with own entries.
- Matching.InheritedExpressionEntriesCount: proved only for the built-in comparators, for the same reason.
- Matching.HiddenPropertyIgnoredBySearch: proved only for the built-in comparators, and only where no whole-object fallback against a record applies. A custom comparator sees the whole object and may inspect any property.
- Matching.FunctionPropertyIgnoredByRecord: proved only for the built-in comparators, for the same reason.
- Matching.MatchMonotone: stated for negation-free expectations only. Under `!` the implication reverses.
- Filtering.FilterRefines: stated for text and record expressions without `!` only. Absent and predicate expressions never consult the comparator, and a `!` reverses the implication.
