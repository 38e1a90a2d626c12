# tinyserde JSON parser, modelled in Dafny

tinyserde's `src/parser.rs` is a hand-written recursive-descent JSON
parser. A `JsonParser` holds the input text and a cursor. Its methods
work as follows:

- They peek at the character under the cursor, with `'|'` standing for end of input.
- They skip whitespace and consume expected punctuation.
- They dispatch on the first character of a value to the object, array, number, string, boolean or null rule.
- They build a `JsonValue` tree, or stop with a `ParserError`.

`parse` reads one value, skips trailing whitespace, and reports
`ConsumeInputNotFinished(cursor)` if any text is left.

The project has five files:

- `types.dfy`: the modules `JsonTypes` and `JsonDispatch`.
  - `JsonTypes` holds `JsonValue`, `ParserError`, `Result` and the whitespace class.
  - `JsonDispatch` holds `ParseType`, the numeric-character class and `determine_parse_type`.
- `grammar.dfy` (`JsonGrammar`): the reference semantics, as pure functions of a text and a cursor.
  - Each returns `Parsed(result, cursor)`: what the matching source method returns and where it leaves the cursor.
  - The object and array loops are written as recursive functions over the pairs or elements still to read.
- `parser.dfy` (`JsonParsing`): the `JsonParser` class itself.
  - It has an immutable `input`, a mutable `cursor`, and one method per source method, with the source's loops.
  - Each method is proved to return what the matching `JsonGrammar` function gives from the old cursor, and to leave the cursor where that function says.
- `properties.dfy` (`JsonProperties`): what the parser promises, proved over every text. Among the properties:
  - maximal whitespace runs and idempotent skipping;
  - strings copied verbatim, and when they fail;
  - the digit class and the value of a number;
  - the literals;
  - the object and array rules, with last-write-wins keys and elements in order;
  - the top-level check for unread text.
- `examples.dfy` (`JsonExamples`): the source's unit tests, and documents that show where the parser departs from JSON.
  - Each is a lemma about `Parse` over any text with the given characters.

The parse functions and methods take a text of any length. Malformed
input is never excluded by a precondition; every error path of the source
is modelled.

## Where the code departs from JSON

JSON is defined in RFC 8259. The model follows the code, not RFC 8259:

- `{}` is rejected, and `[ ]` (whitespace inside an empty array) makes the parser panic. `[]` is accepted.
- A trailing comma is accepted in arrays (`[1,]`) but is an `InvalidJson` error in objects.
- Numbers have no sign, no fraction and no exponent, and the digit `0` is not counted:
  - `0` and `-` read as `Number(0)` and consume nothing;
  - `10` reads as `Number(1)`, followed by unread text.
- Strings are copied verbatim; escape sequences are not decoded.
- Nesting depth is not bounded.
- The error kinds are the four of the source.
- A nested error is overridden by `ConsumeInputNotFinished` whenever non-whitespace text remains after it.

## Model

| member | source | states |
|---|---|---|
| JsonTypes.IsWhitespace | src/parser.rs:38-46 | True exactly for tab, line feed, carriage return and space, all at or below the space character. |
| JsonDispatch.IsNumericChar | src/parser.rs:48-63 | True exactly for `-` and the ten ASCII digits. |
| JsonDispatch.DetermineParseType | src/parser.rs:65-84 | The source's if-chain, in its order. No closing bracket, comma or colon starts a value: each is Unknown. DispatchTable states every case. |
| JsonDispatch.DispatchTable | src/parser.rs:48-84 | Each value kind is chosen exactly when the first character is one of its characters: `{`, `[`, `-` or a digit, `"`, `t`/`f`, `n`. Every other character is Unknown. |
| JsonGrammar.PeekAt | src/parser.rs:100-108 | Anything other than the `'|'` sentinel is the character under the cursor, within the text. |
| JsonGrammar.SkipWs | src/parser.rs:110-117 | The whitespace skip ends within the text, at its end or on a non-whitespace character. |
| JsonGrammar.SkippedAreWhitespace | src/parser.rs:110-117 | Every character the skip passes over is whitespace. |
| JsonGrammar.HasWordAt | src/parser.rs:219-232 | The slice comparisons of lines 219, 222 and 232: the word stands at the cursor, entirely within the text. The bounds test stands in for the slice panic; BoolWords and NullWord state the outcomes it decides. |
| JsonGrammar.NextQuote | src/parser.rs:132-135 | The scan for the closing quote ends at the end of the text or on a `"`. |
| JsonGrammar.NoQuoteBefore | src/parser.rs:132-135 | No character before the scan's stop is a `"`. |
| JsonGrammar.StringAt | src/parser.rs:127-138 | A string read stays within the text. On success it consumes at least the two quotes. |
| JsonGrammar.LowByte | src/parser.rs:249 | The `as u8` cast: a byte below 256, equal to the code point for characters below 256. |
| JsonGrammar.IsCountedDigit | src/parser.rs:249 | The loop test on the cast byte: '1'..'9', with '0' left out. AsciiDigitClass and WideCharCountsAsDigit state what it accepts. |
| JsonGrammar.DigitValue | src/parser.rs:253 | The byte less `b'0'`: every counted digit is worth 1 to 9, never 0. |
| JsonGrammar.DigitRunEnd | src/parser.rs:247-255 | The digit loop stops within the text, at its end or on a character outside the digit class. |
| JsonGrammar.RunIsDigits | src/parser.rs:247-255 | Every character the digit loop consumes is in the digit class: low byte `'1'`..`'9'`. |
| JsonGrammar.DecimalValue | src/parser.rs:252-253 | The multiply-by-ten-and-add accumulation over a run of digits. The value is zero exactly for the empty run, since no digit is worth zero. |
| JsonGrammar.NumberAt | src/parser.rs:245-257 | `parse_number` never fails and stays within the text. It yields 0 exactly when it consumes nothing. |
| JsonGrammar.BoolAt | src/parser.rs:217-229 | A boolean read yields a Bool and consumes 4 characters for true or 5 for false. It fails only with ParseError and the cursor unchanged. |
| JsonGrammar.NullAt | src/parser.rs:231-238 | A null read yields Null and consumes four characters, or fails with ParseError and the cursor unchanged. |
| JsonGrammar.StringValueAt | src/parser.rs:240-243 | Succeeds exactly when the string read does, wrapping its text in a String value, with the same cursor. |
| JsonGrammar.ValueAt | src/parser.rs:140-152 | The value rule never moves the cursor backwards or past the end. |
| JsonGrammar.ObjectAt | src/parser.rs:154-195 | An object read that succeeds yields an Object, and the cursor stays within the text. |
| JsonGrammar.MembersFrom | src/parser.rs:159-194 | The member loop stays within the text. On success it yields an Object. |
| JsonGrammar.MemberAt | src/parser.rs:160-176 | A pair read stays within the text. On success it consumes at least one character. |
| JsonGrammar.SeparatorAt | src/parser.rs:179-189 | After a pair, "close" is reported only on a `}`. "Next pair" is reported only after consuming the comma. |
| JsonGrammar.ArrayAt | src/parser.rs:197-215 | An array read that succeeds yields an Array, and the cursor stays within the text. |
| JsonGrammar.ElementsFrom | src/parser.rs:202-214 | The element loop stays within the text. On success it yields an Array. |
| JsonGrammar.ElementsStep | src/parser.rs:202-211 | An element followed by `,` or `]` is appended. The loop goes on after a `,`, or at the `]`, which its test then closes. |
| JsonGrammar.Parse | src/parser.rs:87-94 | `parse` on a fresh parser: a success is the value read from the start of the text. |
| JsonGrammar.DocumentAt | src/parser.rs:87-94 | A successful parse has consumed the whole text. |
| JsonParsing.JsonParser.constructor | src/parser.rs:3-7 | A parser over the given text, with the cursor at 0. |
| JsonParsing.JsonParser.Eof | src/parser.rs:96-98 | True exactly when the cursor is at or past the end. |
| JsonParsing.JsonParser.Peek | src/parser.rs:100-108 | The character under the cursor, or the `'|'` sentinel at end of input. |
| JsonParsing.JsonParser.SkipWhitespace | src/parser.rs:110-117 | Moves the cursor to the end of the whitespace run, as SkipWs says. |
| JsonParsing.JsonParser.ConsumeSpecific | src/parser.rs:119-125 | Succeeds exactly when the expected character is under the cursor. It then advances by one, and otherwise leaves the cursor alone. |
| JsonParsing.JsonParser.ConsumeAndUnescapeString | src/parser.rs:127-138 | Returns the result and the new cursor that StringAt gives. |
| JsonParsing.JsonParser.ParseHelper | src/parser.rs:140-152 | Returns the result and the new cursor that ValueAt gives. |
| JsonParsing.JsonParser.ParseObject | src/parser.rs:154-195 | The loop keeps the invariant that the member loop from the cursor, with the pairs read so far, equals ObjectAt from the start. The method returns ObjectAt's result and cursor. |
| JsonParsing.JsonParser.ParseMember | src/parser.rs:160-176 | One pass of the object loop up to the stored value: returns what MemberAt gives. |
| JsonParsing.JsonParser.ParseSeparator | src/parser.rs:179-189 | The end of one pass of the object loop: returns what SeparatorAt gives. |
| JsonParsing.JsonParser.ParseArray | src/parser.rs:197-215 | The loop keeps the invariant that the element loop from the cursor, with the elements read so far, equals ArrayAt from the start. The method returns ArrayAt's result and cursor. |
| JsonParsing.JsonParser.ParseBool | src/parser.rs:217-229 | Returns the result and the new cursor that BoolAt gives. |
| JsonParsing.JsonParser.ParseNull | src/parser.rs:231-238 | Returns the result and the new cursor that NullAt gives. |
| JsonParsing.JsonParser.ParseString | src/parser.rs:240-243 | Returns the result and the new cursor that StringValueAt gives. |
| JsonParsing.JsonParser.ParseNumber | src/parser.rs:245-257 | The loop keeps the value of the digits read so far. Returns the result and the new cursor that NumberAt gives. |
| JsonParsing.JsonParser.Parse | src/parser.rs:87-94 | Returns the result and the new cursor that DocumentAt gives. |
| JsonParsing.ParseText | src/parser.rs:87-94 | Building a parser over a text and calling `parse` gives exactly `Parse(text)`. |
| JsonProperties.SkipWsIsMaximalRun | src/parser.rs:110-117 | The skip from i stops at j exactly when every character in between is whitespace and j is the end or not whitespace. |
| JsonProperties.SkipWsIdempotent | src/parser.rs:110-117 | Skipping whitespace twice is the same as skipping it once. |
| JsonProperties.NextQuoteIsFirst | src/parser.rs:132-135 | The closing-quote scan stops at q exactly when q is the first `"`, or the end if there is none. |
| JsonProperties.StringIsVerbatim | src/parser.rs:127-138 | A string read yields `body` exactly when a quote, `body` (with no quote in it) and a quote stand at the cursor. It then consumes `body` and both quotes. |
| JsonProperties.StringErrors | src/parser.rs:127-138 | A string read fails exactly when there is no opening quote or no closing quote, and the failure is ParseError. With no opening quote the cursor stays; with no closing quote it ends at the end of the text. |
| JsonProperties.DecimalValueBounds | src/parser.rs:245-257 | A run of n digits from the class is worth at least 10^(n-1) and less than 10^n. |
| JsonProperties.NumberFitsI64 | src/parser.rs:246-253 | A run of at most 18 digits fits the source's i64 accumulator. A run of 20 or more never does. |
| JsonProperties.NumberLeadingZeroOrSign | src/parser.rs:245-257 | A number starting with `0` or `-` is `Number(0)` and consumes nothing. |
| JsonProperties.AsciiDigitClass | src/parser.rs:249-253 | On ASCII characters the digit class is exactly `'1'`..`'9'`, each worth its face value. |
| JsonProperties.WideCharCountsAsDigit | src/parser.rs:249-253 | Because of the cast to `u8`, a `'1'` followed by U+0131 reads as the number 11. |
| JsonProperties.NumberIsDigitRun | src/parser.rs:245-257 | A number read consumes exactly the maximal run of digits from the class. Its value is the run's decimal value. |
| JsonProperties.DigitRunIsMaximal | src/parser.rs:247-255 | The digit loop stops at j exactly when every character from the start to j is in the digit class and j is the end or outside it. |
| JsonProperties.BoolWords | src/parser.rs:217-229 | `true` is recognised first, then `false`; anything else is ParseError with the cursor unchanged. Each case holds in both directions. |
| JsonProperties.NullWord | src/parser.rs:231-238 | `null` is recognised exactly when the word stands at the cursor; anything else is ParseError. |
| JsonProperties.ValueSkipsWhitespace | src/parser.rs:140-142 | Leading whitespace does not change the value read. |
| JsonProperties.EmptyObjectRejected | src/parser.rs:155-162 | A `{` followed, after whitespace, by `}` is InvalidJson. |
| JsonProperties.MissingColonRejected | src/parser.rs:167-172 | A key not followed, after whitespace, by `:` is ParseError at that position. |
| JsonProperties.AfterPair | src/parser.rs:179-189 | After a pair: a `}` closes the object with the pair stored. Neither `}` nor `,` is ParseError. A `,` followed by `}` is InvalidJson. |
| JsonProperties.WithPairsCompose | src/parser.rs:177 | Storing one pair and then a map of later pairs equals storing both into the map at once. |
| JsonProperties.MembersOverride | src/parser.rs:158-194 | The member loop's result is the pairs read so far overridden by the pairs read later: a later key wins. |
| JsonProperties.FirstKeyPresent | src/parser.rs:167-177 | The key of the first pair is in the object the loop builds. |
| JsonProperties.WithPrefixCompose | src/parser.rs:205 | Appending one element and then a list of later ones equals appending both. |
| JsonProperties.ElementsInOrder | src/parser.rs:201-214 | The element loop's result is the elements read so far followed by the later ones, in text order. |
| JsonProperties.ArrayElementErrors | src/parser.rs:202-209 | A failing element's error is the array's error. An element followed by neither `,` nor `]` is ParseError there. |
| JsonProperties.ParseIsWholeValue | src/parser.rs:87-94 | `Parse` yields v exactly when the value read from the start is v and only whitespace follows. |
| JsonProperties.TrailingInputReported | src/parser.rs:89-92 | When non-whitespace text is left after the value, that position is reported, whatever the value's own result was. |
| JsonProperties.BlankTextRejected | src/parser.rs:140-150 | Empty or all-whitespace text is ParseHelperFailed. |
| JsonExamples.ObjectWithNumbers | src/parser.rs:260-272 | `{ "foo": 123 \n, "bar":    456 }` is the object foo→123, bar→456. |
| JsonExamples.ObjectWithString | src/parser.rs:275-286 | `{ "foo": "abcde" }` is the object foo→"abcde". |
| JsonExamples.ObjectWithBool | src/parser.rs:289-300 | `{ "foo": false }` is the object foo→false. |
| JsonExamples.ObjectWithNull | src/parser.rs:303-314 | `{ "foo": null }` is the object foo→null. |
| JsonExamples.ObjectsInArray | src/parser.rs:317-352 | The 16-line array parses to its seven elements, in order: three one-pair objects, 345, "efgh", null, false. |
| JsonExamples.EmptyObjectText | src/parser.rs:159-162 | `{}` gives InvalidJson inside, and ConsumeInputNotFinished(1) at the top. |
| JsonExamples.EmptyArrayText | src/parser.rs:197-214 | `[]` is the empty array. |
| JsonExamples.SpacedEmptyArrayText | src/parser.rs:202-204 | `[ ]` reads `]` as a value of unknown kind. In the source this panics at the unwrap of line 204; the model returns the nested ParseHelperFailed, and the top then reports ConsumeInputNotFinished(2). |
| JsonExamples.TrailingCommaArrayText | src/parser.rs:202-210 | `[1,]` is the array [1]. |
| JsonExamples.TenText | src/parser.rs:249-251 | `10` reads as 1, and the `0` is reported unread. |
| JsonExamples.NegativeText | src/parser.rs:245-257 | `-5` reads as 0 with nothing consumed, and position 0 is reported unread. |
| JsonExamples.DuplicateKeyText | src/parser.rs:177 | `{"a":1,"a":2}` is the object a→2. |
| JsonExamples.UnclosedArrayText | src/parser.rs:206-209 | `[1` is ParseError. |
| JsonExamples.UnterminatedStringText | src/parser.rs:132-135 | `"ab` is ParseError, where the source would loop for ever. |

## Left out

- Panics are modelled as returned errors:
  - Where the source calls `unwrap` on a nested result (lines 167, 176, 204, 241), the model returns the nested error.
  - Where a byte slice runs past the end (lines 219, 222, 232), the model returns ParseError with the cursor unchanged.
- JsonGrammar.StringAt: an unterminated string makes the source loop for ever, appending the end-of-input sentinel. The model returns ParseError with the cursor at the end of the text.
- Numbers are unbounded integers, so the i64 overflow of long digit runs is not modelled. `NumberFitsI64` bounds where that matters.
- Text is a sequence of Unicode scalar values with the cursor counting characters, as `chars().nth` does.
  - The byte-indexed slices of `parse_bool` and `parse_null` are read as character slices. They agree on ASCII text.
- JsonParsing.JsonParser.ConsumeSpecific requires an expected character other than the `'|'` sentinel.
  - The source never passes it.
  - At end of input the source would report success without a character to consume.
- Error messages are dropped: `ParseHelperFailed`, `ParseError` and `InvalidJson` carry no text, and `Debug` formatting is not modelled.
- Objects are maps, so HashMap iteration order is not recorded.
- JsonParsing.JsonParser.ParseObject: the loop body is split into the two helper methods ParseMember and ParseSeparator. Their sequence is the source's loop body, statement for statement.
- `src/main.rs` parses a literal sample document, prints the value with `{:?}` and panics on error; it is a caller only and is not part of this model.
