# TOON encoder, modelled in Dafny

This project models the TOON ("Token-Oriented Object Notation") encoder of
`src/lib/ai-agent/toon.ts`. The encoder turns a JSON-like value tree into a
compact text meant to cost fewer LLM tokens than JSON:

- scalars are printed bare;
- strings are quoted only when they hold a newline, a double quote or a comma;
- an array of objects with the same keys becomes a table: a `[N]{f1,...,fk}:`
  header and CSV rows;
- any other array becomes a bulleted `- ` list;
- an object becomes `key: value` lines.

An optional `#` banner line reports a token estimate of one token per four
UTF-16 code units. The decoder is a stub: it drops comment lines and then always
throws.

The model is pure, as the source is: datatypes, functions over sequences
and lemmas. One module per file:

| module | contents |
|---|---|
| `Wrappers` | `Option`, `Result` |
| `JsText` | the JavaScript string operations the encoder uses: `repeat`, `join`, `split('\n')`, the leading part of `trim`, integer `toString` |
| `ToonValue` | the value tree, `Object.keys`, `obj[key]`, `String(value)` |
| `ToonEscape` | `escapeString` and `escapeCSVValue`, with their inverses |
| `ToonUniform` | `isUniformObjectArray`, including the `.sort()` it calls |
| `ToonTokens` | `estimateTokens` |
| `ToonEncoder` | `encodeToTOON`, `encodeTOONValue`, `encodeArray`, `encodeUniformArray`, `encodeObject` |
| `ToonLayout` | line-by-line shape of each layout, the banner, non-injectivity |
| `ToonDecoder` | `decodeFromTOON` and `parseTOONValue`, which always fail |
| `ToonCompare` | `compareFormats` |
| `ToonExamples` | worked encodings with exact output text |

`JSON.stringify(data)` and the `toFixed(1)` savings text cannot be computed
here. `EncodeToToon` and `CompareFormats` take them as parameters:
`jsonText`, and `formatSavings(jsonTokens, tokens)`.

The model follows the code where the code and its documentation differ.

The header comment (`toon.ts:9`) shows `items[2]{id,name}:\n  1,Alice\n  2,Bob`. The code differs in three ways:
- At the top level there is no `items` name. `ToonExamples.UsersTopLevel` proves the output is `[2]{id,name}:\n1,Alice\n2,Bob`.
- The rows are indented at the caller's depth, not one level deeper. So at the top level they carry no indent, whatever the indent width.
- Under a key, the table follows `key:` with no space (`ToonExamples.UsersUnderKey`).

The code has no decoder, so there is no round-trip law; `ToonLayout.NotInjective` shows none could hold. The code has no cycle or type checks; Dafny values are finite trees.

## Model

| member | source | states |
|---|---|---|
| `JsText.Join` | src/lib/ai-agent/toon.ts:84 | `parts.join(sep)`; its contract is carried by `JsText.JoinAvoids` and `JsText.SplitJoin` |
| `JsText.Spaces` | src/lib/ai-agent/toon.ts:50 | `' '.repeat(n)` is exactly `n` spaces |
| `JsText.JoinAvoids` | src/lib/ai-agent/toon.ts:82-84 | a character in no part and not in the separator is not in the joined text |
| `JsText.Split` | src/lib/ai-agent/toon.ts:42 | `split('\n')` gives at least one piece, no piece holds a newline, and joining the pieces with newlines gives the text back |
| `JsText.SplitSingle` | src/lib/ai-agent/toon.ts:42 | a text without newline splits into itself alone |
| `JsText.SplitAtNewline` | src/lib/ai-agent/toon.ts:42 | splitting `a + "\n" + b`, for `a` without newline, is `a` followed by the pieces of `b` |
| `JsText.SplitJoin` | src/lib/ai-agent/toon.ts:42 | splitting lines that were joined by newlines, none holding a newline, gives the lines back |
| `JsText.TrimStart` | src/lib/ai-agent/toon.ts:42 | the result is a suffix of the text, everything removed is JavaScript white space, and it does not start with white space |
| `JsText.NatToString` | src/lib/ai-agent/toon.ts:97 | the decimal text of a count is non-empty, all digits, and starts with `0` only when it is the single digit for 0 |
| `JsText.NatToStringValue` | src/lib/ai-agent/toon.ts:97 | the decimal text reads back as the number |
| `JsText.NumeralUnique` | src/lib/ai-agent/toon.ts:97 | a digit string without leading zero that reads back as `n` is the decimal text of `n`, so that text is the only one with these properties |
| `JsText.DecimalPositive` | src/lib/ai-agent/toon.ts:97 | a digit string not starting with `0` denotes at least 1 |
| `JsText.IntToString` | src/lib/ai-agent/toon.ts:55 | the text is non-empty and starts with `-` exactly when the integer is negative; after that sign come digits that read back as its absolute value and start with `0` only when they are the single digit for 0; by `JsText.NumeralUnique` they are the decimal text of the absolute value |
| `JsText.IntToStringDigits` | src/lib/ai-agent/toon.ts:55 | after the optional sign, `IntToString` prints exactly the decimal digits of the absolute value, so 0 prints as `0` and never as `00` |
| `JsText.IntToStringPlain` | src/lib/ai-agent/toon.ts:55 | a printed integer never holds a newline, comma or double quote |
| `ToonValue.Keys` | src/lib/ai-agent/toon.ts:96 | `Object.keys` in insertion order; its contract is carried by `ToonValue.LookupUnique` and `ToonUniform.KeysPermutation` |
| `ToonValue.JsToString` | src/lib/ai-agent/toon.ts:104 | `String(value)`; what it gives for arrays and objects is stated by `ToonExamples.ArrayCell` and `ToonExamples.ObjectCell` |
| `ToonValue.Lookup` | src/lib/ai-agent/toon.ts:101 | `obj[field]` is `undefined` for an absent key, and otherwise the value of an entry with that key |
| `ToonValue.LookupUnique` | src/lib/ai-agent/toon.ts:101 | with unique keys, `obj[key]` is the value of the one entry with that key |
| `ToonEscape.BackslashQuotes` | src/lib/ai-agent/toon.ts:167 | `str.replace(/"/g, '\\"')`; its contract is carried by `ToonEscape.BackslashQuotesCounts`, `ToonEscape.DropBackslashesInverse` and `ToonEscape.BackslashQuotesUnique` |
| `ToonEscape.BackslashQuotesCounts` | src/lib/ai-agent/toon.ts:167 | `replace(/"/g, '\\"')` adds one character per quote, and only backslashes |
| `ToonEscape.DropBackslashesInverse` | src/lib/ai-agent/toon.ts:167 | deleting the backslash before each quote undoes the replacement |
| `ToonEscape.DropBackslashesLength` | src/lib/ai-agent/toon.ts:167 | a text is at most as long as what remains after dropping backslashes before quotes plus its quotes |
| `ToonEscape.BackslashQuotesUnique` | src/lib/ai-agent/toon.ts:167 | the only text one character per quote longer than `s` that gives `s` back when its backslashes are dropped is the replacement of `s` |
| `ToonEscape.EscapeString` | src/lib/ai-agent/toon.ts:165-170 | the result equals `s` exactly when `s` has no newline, quote or comma; otherwise it is in double quotes, one character longer per inner quote, and dropping the inserted backslashes from its inside gives `s`; with `BackslashQuotesUnique` this fixes the quoted text |
| `ToonEscape.EscapeStringNewline` | src/lib/ai-agent/toon.ts:165-170 | quoting neither adds nor removes a newline |
| `ToonEscape.DoubleQuotes` | src/lib/ai-agent/toon.ts:177 | `value.replace(/"/g, '""')`; its contract is carried by `ToonEscape.DoubleQuotesCounts`, `ToonEscape.HalveQuotesInverse` and `ToonEscape.DoubleQuotesPaired` |
| `ToonEscape.DoubleQuotesCounts` | src/lib/ai-agent/toon.ts:177 | `replace(/"/g, '""')` adds one character per quote, and only quotes |
| `ToonEscape.DoubleQuotesNoQuote` | src/lib/ai-agent/toon.ts:177 | a text without quotes is left unchanged |
| `ToonEscape.HalveQuotesInverse` | src/lib/ai-agent/toon.ts:177 | turning each doubled quote back into one undoes the replacement |
| `ToonEscape.DoubleQuotesPaired` | src/lib/ai-agent/toon.ts:177 | after doubling, every quote opens a pair, as RFC 4180 section 2 rule 7 requires inside a quoted field |
| `ToonEscape.EscapeCsv` | src/lib/ai-agent/toon.ts:175-180 | the result equals `s` exactly when `s` has no comma, quote or newline; otherwise it is in double quotes around a text whose quotes come in pairs, one character longer per inner quote, and halving the pairs gives `s` |
| `ToonEscape.EscapeCsvWraps` | src/lib/ai-agent/toon.ts:175-180 | a string that needs quoting but has no quote is only wrapped in quotes |
| `ToonEscape.SameTrigger` | src/lib/ai-agent/toon.ts:165-180 | both conventions leave exactly the same strings unchanged |
| `ToonEscape.EscapeCsvNewline` | src/lib/ai-agent/toon.ts:175-180 | CSV quoting neither adds nor removes a newline |
| `ToonUniform.LexTotal` | src/lib/ai-agent/toon.ts:142 | the comparison used by `.sort()` relates every pair of keys |
| `ToonUniform.LexAntisymmetric` | src/lib/ai-agent/toon.ts:142 | keys that compare both ways are equal |
| `ToonUniform.LexTransitive` | src/lib/ai-agent/toon.ts:142 | the comparison is transitive |
| `ToonUniform.Insert` | src/lib/ai-agent/toon.ts:142 | inserting into a sorted list keeps it sorted and adds exactly that key |
| `ToonUniform.SortKeys` | src/lib/ai-agent/toon.ts:142 | `keys.sort()` is sorted and a permutation of the keys |
| `ToonUniform.SortedHeads` | src/lib/ai-agent/toon.ts:142-149 | under an antisymmetric order, sorted lists with the same elements start alike |
| `ToonUniform.SortedTail` | src/lib/ai-agent/toon.ts:142-149 | the tail of a sorted list is sorted |
| `ToonUniform.SortedUniqueBy` | src/lib/ai-agent/toon.ts:142-149 | under any antisymmetric order, two sorted lists with the same elements are equal |
| `ToonUniform.LexIsAntisymmetric` | src/lib/ai-agent/toon.ts:142 | the model's code-point order is antisymmetric |
| `ToonUniform.SortedUnique` | src/lib/ai-agent/toon.ts:142-149 | two lists sorted by code point with the same elements are equal |
| `ToonUniform.SortVerdictAnyOrder` | src/lib/ai-agent/toon.ts:142-149 | for any antisymmetric order and any lists sorted by it that rearrange two key lists, the sorted lists are equal exactly when the key lists have the same keys with multiplicity |
| `ToonUniform.SortKeysEqual` | src/lib/ai-agent/toon.ts:142-149 | two key lists sort to the same list exactly when they have the same keys with multiplicity |
| `ToonUniform.IsUniformObjectArray` | src/lib/ai-agent/toon.ts:136-151 | `isUniformObjectArray`; its contract is carried by `ToonUniform.UniformIff`, `ToonUniform.UniformIffKeySets` and `ToonUniform.ReorderInvariant` |
| `ToonUniform.EveryHasKeysIff` | src/lib/ai-agent/toon.ts:144-150 | `arr.every(...)` holds exactly when every item is an object whose sorted keys are the first object's sorted keys |
| `ToonUniform.UniformIff` | src/lib/ai-agent/toon.ts:136-151 | an array is uniform exactly when it is non-empty, every element is an object, and every element has the first element's keys up to order |
| `ToonUniform.SameKeysIffKeySets` | src/lib/ai-agent/toon.ts:136-151 | for objects with unique keys, having the same keys up to order is having the same key set |
| `ToonUniform.UniformIffKeySets` | src/lib/ai-agent/toon.ts:136-151 | for well-formed elements, uniform means non-empty, all objects, and all with the first element's key set |
| `ToonUniform.KeysPermutation` | src/lib/ai-agent/toon.ts:148 | rearranging an object's entries rearranges its keys the same way |
| `ToonUniform.ReorderInvariant` | src/lib/ai-agent/toon.ts:136-151 | reordering the entries inside any element does not change the verdict |
| `ToonTokens.Utf16Length` | src/lib/ai-agent/toon.ts:188 | `text.length` in UTF-16 code units; its contract is carried by `ToonTokens.Utf16Bounds`, `ToonTokens.Utf16Append` and `ToonTokens.Utf16Bmp` |
| `ToonTokens.Utf16Bounds` | src/lib/ai-agent/toon.ts:188 | `text.length` counts one or two UTF-16 code units per character |
| `ToonTokens.Utf16Append` | src/lib/ai-agent/toon.ts:188 | the length of a concatenation is the sum of the lengths |
| `ToonTokens.Utf16Bmp` | src/lib/ai-agent/toon.ts:188 | for characters below U+10000 the length is the number of characters |
| `ToonTokens.EstimateTokens` | src/lib/ai-agent/toon.ts:186-189 | `t = ceil(len/4)` for `len` the UTF-16 length: `4*t >= len` and `4*(t-1) < len` |
| `ToonTokens.EstimateMonotone` | src/lib/ai-agent/toon.ts:186-189 | a text with more code units never gets a smaller estimate |
| `ToonTokens.EstimateAppend` | src/lib/ai-agent/toon.ts:186-189 | appending text never lowers the estimate |
| `ToonTokens.EstimateZero` | src/lib/ai-agent/toon.ts:186-189 | the estimate is 0 exactly for the empty text |
| `ToonEncoder.EncodeValue` | src/lib/ai-agent/toon.ts:49-67 | `encodeTOONValue`; its contract is carried by `ToonLayout.FixedLiterals`, `ToonLayout.MultiLineIff`, `ToonLayout.SingleLineAnyDepth` and `ToonLayout.NotInjective` |
| `ToonEncoder.EncodeArray` | src/lib/ai-agent/toon.ts:72-87 | `encodeArray`; its contract is carried by `ToonLayout.ContainerStart`, `ToonLayout.UniformLayout` and `ToonLayout.BulletLayout` |
| `ToonEncoder.EncodeUniformArray` | src/lib/ai-agent/toon.ts:92-110 | `encodeUniformArray`; its contract is carried by `ToonLayout.UniformLayout`, `ToonLayout.HeaderLinePlain` and `ToonLayout.UniformCells` |
| `ToonEncoder.Cell` | src/lib/ai-agent/toon.ts:100-105 | one table cell; its contract is carried by `ToonEscape.EscapeCsv`, `ToonLayout.UniformCells`, `ToonExamples.ArrayCell` and `ToonExamples.ObjectCell` |
| `ToonEncoder.EncodeObject` | src/lib/ai-agent/toon.ts:115-131 | `encodeObject`; its contract is carried by `ToonLayout.ObjectLayout`, `ToonLayout.EntrySeparator` and `ToonLayout.MultiLineUnderKey` |
| `ToonEncoder.EncodeToToon` | src/lib/ai-agent/toon.ts:22-35 | `encodeToTOON`; its contract is carried by `ToonLayout.DefaultOptions`, `ToonLayout.PlainLayout` and `ToonLayout.BannerLayout` |
| `ToonLayout.FixedLiterals` | src/lib/ai-agent/toon.ts:52-56 | `null`, `undefined`, `true` and `false` encode as those words, the empty array (line 73) as `[]` and the empty object (line 119) as `{}`, at every depth and indent width |
| `ToonLayout.MultiLineIff` | src/lib/ai-agent/toon.ts:122-127 | an encoding holds a newline exactly when the value is a string with a newline, a non-empty array or a non-empty object |
| `ToonLayout.SingleLineAnyDepth` | src/lib/ai-agent/toon.ts:49-56 | a one-line value encodes the same at every depth and indent width |
| `ToonLayout.ContainerStart` | src/lib/ai-agent/toon.ts:72-87 | a non-empty container starts with `[` exactly when it is a table, and with a newline otherwise |
| `ToonLayout.HeaderLinePlain` | src/lib/ai-agent/toon.ts:97 | the table header line `[N]{fields}:` holds no newline when no field name does |
| `ToonLayout.UniformLayout` | src/lib/ai-agent/toon.ts:92-110 | a table of N objects, with no newline in field names or cells, is N + 1 lines: the header over the first object's keys in insertion order, then per object in order the caller's indent and its cells in header order joined by commas |
| `ToonLayout.UniformCells` | src/lib/ai-agent/toon.ts:96-105 | every object of a table has every header field, so each cell is the cell of one of its own entries |
| `ToonLayout.BulletLayout` | src/lib/ai-agent/toon.ts:80-86 | a non-table array of one-line elements is an empty line, then per element in order the caller's indent, `- ` and its encoding one level deeper |
| `ToonLayout.EntrySeparator` | src/lib/ai-agent/toon.ts:121-127 | an entry is `key: value` for a one-line value and `key:value` for a multi-line one |
| `ToonLayout.ObjectLayout` | src/lib/ai-agent/toon.ts:115-131 | a non-empty object of one-line keys and values is an empty line, then one `key: value` line per entry in insertion order at the caller's indent, each value one level deeper |
| `ToonLayout.MultiLineUnderKey` | src/lib/ai-agent/toon.ts:121-128 | a single entry with a multi-line value is a newline, the indent, `key:` and the value with no space |
| `ToonLayout.DefaultOptions` | src/lib/ai-agent/toon.ts:23 | with no options the indent width is 2 and there is no banner |
| `ToonLayout.PlainLayout` | src/lib/ai-agent/toon.ts:25-34 | with token counting off, the output is the encoding at depth 0 |
| `ToonLayout.BannerLayout` | src/lib/ai-agent/toon.ts:27-32 | with token counting on, the output is one `#` line reporting the estimate, a newline, then exactly the plain encoding; split into lines it is the banner followed by the plain encoding's lines |
| `ToonLayout.BannerOneLine` | src/lib/ai-agent/toon.ts:31 | the banner is one line starting with `#` |
| `ToonLayout.NotInjective` | src/lib/ai-agent/toon.ts:52-55 | `"null"`, `"true"` and `"42"` encode exactly like `null`, `true` and `42` |
| `ToonDecoder.IsCommentLine` | src/lib/ai-agent/toon.ts:42 | a line whose trimmed text starts with `#`; `ToonDecoder.StripComments` and `ToonDecoder.BannerIsDropped` state what it filters |
| `ToonDecoder.StripComments` | src/lib/ai-agent/toon.ts:42 | the kept lines are exactly the lines whose trimmed text does not start with `#` |
| `ToonDecoder.StripCommentsAppend` | src/lib/ai-agent/toon.ts:42 | filtering works line by line: filtering two blocks of lines is filtering each |
| `ToonDecoder.ParseToonValue` | src/lib/ai-agent/toon.ts:156-160 | parsing always throws the "not fully implemented" error |
| `ToonDecoder.DecodeFromToon` | src/lib/ai-agent/toon.ts:40-44 | decoding every text ends in that error |
| `ToonDecoder.NothingDecodes` | src/lib/ai-agent/toon.ts:40-44 | no text decodes to any value |
| `ToonDecoder.BannerIsDropped` | src/lib/ai-agent/toon.ts:40-44 | the banner is a comment line: after comment stripping, the text with a banner leaves the same lines as the text without |
| `ToonCompare.SavingsPercent` | src/lib/ai-agent/toon.ts:204 | the percentage is negative exactly when TOON costs more, zero exactly when both cost the same, and at most 100 |
| `ToonCompare.MoreTokensNegative` | src/lib/ai-agent/toon.ts:204 | whenever the TOON estimate exceeds a positive JSON estimate the savings are defined and negative |
| `ToonCompare.CompareFormats` | src/lib/ai-agent/toon.ts:194-211 | both texts with their estimates, the TOON one at the default options; the savings are defined exactly when the JSON estimate is positive, negative exactly when TOON costs more, zero exactly when both cost the same |
| `ToonCompare.EmptyObjectSavings` | src/lib/ai-agent/toon.ts:204 | `{}` saves exactly 0 |
| `ToonCompare.NegativeSavings` | src/lib/ai-agent/toon.ts:204 | savings are not clamped: two empty arrays cost more in TOON than in JSON |
| `ToonCompare.TwoEmptyArrays` | src/lib/ai-agent/toon.ts:80-86 | `[[], []]` encodes as `\n- []\n- []` |
| `ToonCompare.TwoEmptyArraysLength` | src/lib/ai-agent/toon.ts:186-189 | that text has 10 code units and an estimate of 3 tokens |
| `ToonCompare.TwoEmptyArraysJsonLength` | src/lib/ai-agent/toon.ts:186-189 | its JSON text `[[],[]]` has 7 code units and an estimate of 2 tokens |
| `ToonExamples.UsersUniform` | src/lib/ai-agent/toon.ts:136-151 | `[{id:1,name:a},{id:2,name:b}]` is a table with fields `id,name` |
| `ToonExamples.UsersTable` | src/lib/ai-agent/toon.ts:92-110 | at depth d, that array is `[2]{id,name}:` then its two rows, each at the indent of depth d |
| `ToonExamples.UsersAtTop` | src/lib/ai-agent/toon.ts:92-110 | at depth 0 the rows carry no indent |
| `ToonExamples.UsersTopLevel` | src/lib/ai-agent/toon.ts:22-35 | `encodeToTOON` without a banner gives `[2]{id,name}:\n1,a\n2,b` for every indent width |
| `ToonExamples.SingleEntry` | src/lib/ai-agent/toon.ts:115-131 | a one-entry object is a newline and that entry's line |
| `ToonExamples.TableUnderKey` | src/lib/ai-agent/toon.ts:121-128 | at depth 0, a one-entry object whose value spans several lines is a newline, `key:`, and the value |
| `ToonExamples.UsersUnderKey` | src/lib/ai-agent/toon.ts:121-128 | `{items: users}` is `\nitems:[2]{id,name}:` then the rows one level in |
| `ToonExamples.OneFieldTable` | src/lib/ai-agent/toon.ts:92-110 | a one-object, one-field array is the header `[1]{key}:` and the CSV-escaped cell |
| `ToonExamples.CsvCell` | src/lib/ai-agent/toon.ts:102 | a cell with a comma and no quote is wrapped in double quotes |
| `ToonExamples.MixedObject` | src/lib/ai-agent/toon.ts:115-131 | `{key: m}` at depth 1 is a newline and one `key: m` line at that indent |
| `ToonExamples.ArrayCell` | src/lib/ai-agent/toon.ts:104 | an array cell is its elements joined by unquoted commas, a `null` element as nothing, so it spreads over several cells of its row |
| `ToonExamples.ObjectCell` | src/lib/ai-agent/toon.ts:104 | an object cell is `[object Object]` when the object has no `toString` entry |
| `ToonExamples.MixedArray` | src/lib/ai-agent/toon.ts:80-86 | `[n, s, {key: m}]` is a bulleted list after a newline; the nested object starts a new line right after `- ` |

## Left out

- `JSON.stringify` is not modelled. Its text is the `jsonText` parameter of `EncodeToToon` and `CompareFormats`. `JSON.stringify(undefined)` returns `undefined`, and `.length` then throws; that error is not modelled.
- The savings percentage in the banner uses floating-point division and `toFixed(1)`. It is the `formatSavings` parameter.
- `CompareFormats` computes savings in exact real arithmetic rather than as a double. It gives `None` where JavaScript divides by zero tokens: the result there is `NaN` when both estimates are 0 and `-Infinity` when only the JSON estimate is 0.
- Numbers are integers only. Fractions, exponent notation, `-0`, `NaN` and `Infinity` are floating-point formatting.
- JsText.IntToString: matches `Number.prototype.toString` only for integers of magnitude at most 2^53; larger numbers print rounded, and from 10^21 on in exponent notation, which is floating-point formatting.
- ToonValue.JsToString: `String()` of an object with its own `toString` entry, or of an array holding such an object, throws a `TypeError`, because JSON-like data cannot make that entry a function and the inherited `valueOf` returns the object itself. This error is not modelled: the model prints `[object Object]` for every object.
- Functions, symbols and `bigint` are left out: the value type has no such values, so the `String(value)` fallback at line 66 is not reached.
- `Object.keys` puts integer-like keys first whatever the insertion order. The model uses insertion order, which is right for non-numeric keys.
- ToonUniform.SortedUnique: proved for the model's code-point order only. `.sort()` compares UTF-16 code units instead, and the two orders differ for characters outside the Basic Multilingual Plane. `ToonUniform.SortVerdictAnyOrder` proves that every antisymmetric order gives the same verdict; that the UTF-16 order is antisymmetric (two strings with the same code units are the same string) is argued, not proved, since code units are not modelled.
- JavaScript strings may hold lone surrogate code units. Dafny characters are Unicode scalar values, so such strings are not modelled; every other string has the UTF-16 length `ToonTokens.Utf16Length` gives.
- Indent widths are natural numbers. `repeat` throws a `RangeError` for a negative or infinite count and truncates a fractional one; neither is modelled.
- A working decoder and the round-trip law are left out, because the source has no decoder.
- No other file of the repository is modelled. They are UI, HTTP handlers, agent configuration and network tools, and none of them takes part in the encoding.
