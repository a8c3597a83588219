# Sketch file parsing: coordinate codecs and the archive entry loop

This project models two pieces of a Go package that reads Sketch design files.

A Sketch file is a zip archive of JSON documents. Points in those documents are
not stored as JSON arrays. They are strings:

- a point is written `"{0.5, 0.67}"` (type `PositionCoordinates`);
- a list of points is written `"{{0.5, 0.67},{1, 2}}"` (type `NestedPositionCoordinates`).

Both decoders do the same four things:

1. Turn every `{` into `[` and every `}` into `]`.
2. Unquote the result as a Go string literal.
3. Parse it as a JSON array of numbers, or of number arrays.
4. Take the first two numbers of each array as the X and Y of a point.

The number texts are kept exactly as written (`json.Number`).

`Parse` opens the archive and walks its entries in order:

- an entry under `pages/` is decoded as a page and stored under the page's own `Name`;
- the entry `document.json` is decoded as the document;
- every other entry is ignored;
- the first decoding error ends the walk with that error and no file.

The modules:

- `Wrappers` (wrappers.dfy): `Option` and `Result`.
- `Strconv` (strconv.dfy): `strconv.Quote` and `strconv.Unquote` for the literals the codecs produce and read. The main property is `Unquote(Quote(s)) == Ok(s)`.
- `JsonNumbers` (json_numbers.dfy): the part of `json.Unmarshal` the decoders reach:
  - number literals, by the JSON number grammar;
  - arrays of numbers, and arrays of such arrays;
  - whitespace between tokens;
  - `null` in place of an array.

  This module proves that what it accepts are numbers, and that it parses back the canonical array texts.
- `Coordinates` (coordinates.dfy): the two codec types as classes.
  - `MarshalJSON` of a point is a function of the receiver.
  - `MarshalJSON` of a list is the source's loop.
  - Each `UnmarshalJSON` is a method that updates the receiver.

  A Go index-out-of-range panic is the `Status` value `IndexOutOfRange`, together with the state the receiver is in when the panic happens.
- `Parser` (parser.dfy): `Parse` as a loop over entries.
  - Opening the archive is an input, `Result<seq<Entry>, Failure>`.
  - Decoding an entry (`parseObj`) is an input too: each `Entry` carries the outcome of decoding it as a page and as a document.
  - `Parse` is proved equal to `Collect`, a fold over the entries. The lemmas state what `Collect` yields.

## Model

| member | source | states |
|---|---|---|
| Strconv.UnquoteQuote | types.go:403 | reading back any literal written by `strconv.Quote` gives the original string |
| Strconv.UnescapeQuoteBody | types.go:403 | the escaped body that Quote writes, followed by the closing quote, unescapes to the original string |
| Strconv.UnescapeQuoteChar | types.go:403 | each character's escape reads back as that character, whichever escape form Quote chose |
| Strconv.Quote | types.go:403 | the literal begins and ends with a double quote and is at least two characters longer than the text it holds |
| Strconv.Unquote | types.go:412 | a successful unquote yields no more characters than lie between the two delimiters |
| Strconv.UnescapeShrinks | types.go:412 | every escape stands for one character and the closing quote for none, so the contents are shorter than the text read |
| Strconv.RawContentsShrinks | types.go:412 | the contents of a back-quoted literal are shorter than the text read |
| Strconv.UnescapeVerbatim | types.go:412 | inside a double-quoted literal any character but a quote, a backslash or a newline stands for itself |
| Strconv.UnescapeLetter | types.go:412 | a one-letter escape stands for the character it names |
| Strconv.UnescapeHex | types.go:412 | a `\x` escape with two hex digits below 0x80 stands for the character with that code |
| Strconv.UnescapeUnicode | types.go:412 | a `\u` escape of four hex digits naming a valid code point stands for that character |
| Strconv.UnescapeOctal | types.go:412 | a three-digit octal escape below 0x80 stands for the character with that code |
| Strconv.UnescapeUnicodePlain | types.go:412 | a `\u` escape followed by plain text up to the closing quote reads as that character followed by the text |
| Strconv.UnquoteUnicodeExample | types.go:412 | the literal `"\u0030.5"`, which Quote never writes, unquotes to `0.5` |
| Strconv.HexDigitsRoundTrip | types.go:403 | the two lower-case hex digits written for a control character read back as its code |
| Strconv.QuotePlain | types.go:403 | Quote copies printable ASCII other than `"` and `\` unchanged: the literal is the text between two quotes |
| Strconv.UnquotePlain | types.go:412-416 | Unquote of such a text between double quotes succeeds and gives the text back |
| JsonNumbers.DigitCountDigits | types.go:420 | the counted prefix of a text consists only of digits |
| JsonNumbers.SkipWhitespace | types.go:420 | the text left after skipping JSON whitespace is no longer than the input and does not start with whitespace |
| JsonNumbers.SkipWhitespaceSuffix | types.go:420 | skipping whitespace drops exactly the leading whitespace: the result is a suffix of the input and every dropped character is whitespace |
| JsonNumbers.SkipWhitespaceRun | types.go:420 | a run of whitespace in front of a text is skipped as a whole |
| JsonNumbers.ScanNumber | types.go:420 | a scanned number is a non-empty prefix, and the scanned number plus the rest is the input |
| JsonNumbers.ScanNumberSound | types.go:420 | a scanned number is a JSON number literal, and the character after it cannot continue a number |
| JsonNumbers.NumberRunStops | types.go:420 | the run of number characters ends at the end of the text or at a character that is not a number character |
| JsonNumbers.NumberChars | types.go:420 | a JSON number literal is non-empty and made only of digits, sign, point and exponent characters |
| JsonNumbers.NumberElementsSound | types.go:420 | every element parsed from a number array is a number literal |
| JsonNumbers.NumberArraySound | types.go:420 | every element of a parsed number array (or `null`) is a number literal |
| JsonNumbers.ParseNumberArray | types.go:418-422 | a successful decode into `[]json.Number` yields only number literals |
| JsonNumbers.ArrayElementsSound | types.go:460 | every inner array parsed from an array of arrays holds only number literals |
| JsonNumbers.ArrayOfArraysSound | types.go:460 | every inner array of a parsed array of arrays (or `null`) holds only number literals |
| JsonNumbers.ParseArrayOfArrays | types.go:458-462 | a successful decode into `[][]json.Number` yields only arrays of number literals |
| JsonNumbers.NumberRunOf | types.go:420 | a number followed by a non-number character is scanned as exactly that number |
| JsonNumbers.ScanNumberOf | types.go:420 | scanning a literal followed by a delimiter gives the literal and the delimiter onwards |
| JsonNumbers.NumberElementsOf | types.go:420 | the elements `n1, n2, ...]` parse to exactly n1, n2, ... and leave what follows |
| JsonNumbers.NumberArrayOf | types.go:420 | the array text `[n1, n2, ...]` at the head of a text parses to its numbers |
| JsonNumbers.ParseNumberArrayOf | types.go:418-422 | decoding `[n1, n2, ...]` yields exactly n1, n2, ..., in order and verbatim |
| JsonNumbers.ArrayElementsOf | types.go:460 | the elements `[..],[..]]` parse to exactly those arrays |
| JsonNumbers.ArrayOfArraysOf | types.go:460 | the text `[[..],[..]]` at the head of a text parses to its arrays |
| JsonNumbers.ParseArrayOfArraysOf | types.go:458-462 | decoding `[[..],[..]]` yields exactly those arrays, in order |
| JsonNumbers.NumberElementsSpacing | types.go:420 | whitespace before and after the comma that follows a number does not change the parsed elements |
| JsonNumbers.ArrayElementsSpacing | types.go:460 | whitespace before and after the comma that follows an inner array, as in `}, {`, does not change the parsed arrays |
| JsonNumbers.CommaGap | types.go:420 | after skipping whitespace the parser sees the comma, and after the comma the same text as without the whitespace |
| JsonNumbers.NotAnArray | types.go:418-422 | a text whose first non-whitespace character is not `[` and which is not `null` is rejected by both decoders |
| Coordinates.ReplaceAll | types.go:409-410 | replacing a character keeps the length, turns each occurrence into the new character and keeps every other character |
| Coordinates.BracesToBrackets | types.go:409-410 | after the two replacements each `{` is `[`, each `}` is `]` and every other character is unchanged |
| Coordinates.ArrayTextOf | types.go:409-416 | the text handed to json.Unmarshal is at least two characters shorter than the raw input: the quotes are gone |
| Coordinates.TupleNumbers | types.go:409-422 | the numbers a point decoder obtains are number literals |
| Coordinates.NestedNumbers | types.go:449-462 | the arrays a list decoder obtains hold number literals |
| Coordinates.FirstShort | types.go:464-465 | the first array with fewer than two numbers: all arrays before it have at least two |
| Coordinates.FirstShortAt | types.go:464-465 | that index is the only one with this property |
| Coordinates.ToPoints | types.go:464-465 | one point per array, in order: the i-th point is made of the first two numbers of the i-th array |
| Coordinates.PositionCoordinates.constructor | types.go:394-398 | the zero value: empty X, Y and data |
| Coordinates.TupleText | types.go:402 | the tuple text is the two numbers with four delimiter characters; X sits after the opening brace and Y before the closing one |
| Coordinates.PositionCoordinates.MarshalJSON | types.go:400-405 | the output unquotes to `{X, Y}`; for number texts it is `"{X, Y}"` with nothing escaped |
| Coordinates.PositionCoordinates.UnmarshalJSON | types.go:407-428 | the raw input is stored first. A failed unquote or unmarshal returns its error and leaves X and Y as they were. Otherwise X and Y become the first two numbers, verbatim, and any further numbers are ignored. With one number, X is set and the call panics; with none, it panics and nothing is set |
| Coordinates.NestedPositionCoordinates.constructor | types.go:431-433 | the zero value: no points |
| Coordinates.ListText | types.go:437-445 | the list text starts with `"{` and ends with `}"` |
| Coordinates.NestedPositionCoordinates.MarshalJSON | types.go:435-446 | the output is the tuples `{X, Y}` in order, separated by `,` without a space, inside `"{` and `}"`; no points give `"{}"` |
| Coordinates.NestedPositionCoordinates.UnmarshalJSON | types.go:448-468 | an error leaves Data as it was. Otherwise one point per decoded array is appended to the existing Data, in order. If an array has fewer than two numbers, the call panics after appending the points before it |
| Coordinates.NestedPositionCoordinates.AppendPoints | types.go:464-466 | the append loop: Data grows by the points of the arrays before the first short one, and the call panics exactly when there is a short one |
| Coordinates.TuplesBodySnoc | types.go:438-443 | one more point adds a comma, when there were points before, and then its tuple |
| Coordinates.ToPointsSnoc | types.go:464-466 | one more array adds its point at the end |
| Coordinates.QuotedPlainTuple | types.go:402-403 | when X and Y are plain texts, Quote of the tuple text is that text between two double quotes, with nothing escaped |
| Coordinates.PlainTupleText | types.go:402 | the tuple text of two plain texts is plain, so Quote leaves it as it is |
| Coordinates.JoinNumbersChars | types.go:402 | numbers joined by `, ` contain no braces and no character Quote would escape |
| Coordinates.BracketsOfWrapped | types.go:409-410 | the brace rewrite of `"{body}"` is `"[` + the rewrite of body + `]"` |
| Coordinates.ArrayTextOfWrapped | types.go:409-416 | the rewrite and unquote of `"{body}"` give `[` + rewritten body + `]` |
| Coordinates.TupleListDecodes | types.go:407-422 | the encoded form of any count of numbers decodes to exactly those numbers: the arity is not checked |
| Coordinates.TupleRoundTrip | types.go:400-422 | for two number-literal texts, decoding their encoding gives exactly those two texts |
| Coordinates.BracketsOfTuple | types.go:409-410 | the brace rewrite of a tuple `{x, y}` is the array `[x, y]` |
| Coordinates.BracketsOfTuples | types.go:449-450 | the brace rewrite of a list of tuples is the matching list of arrays |
| Coordinates.ToPointsOfCoords | types.go:464-465 | arrays made from points have no short array and give back the same points |
| Coordinates.ListRoundTrip | types.go:435-462 | for points whose coordinates are number literals, decoding the encoding of the list yields one two-number array per point, in order, and no short array |
| Coordinates.TupleObjectRoundTrip | types.go:400-428 | with number-literal X and Y, a point written by one object and read by a fresh one comes back with the same X and Y and no panic |
| Coordinates.ListObjectRoundTrip | types.go:435-468 | with number-literal coordinates, a list written by one object and read by a fresh one comes back as the same points, in order, without a panic |
| Coordinates.UnquoteEscapedArray | types.go:409-416 | the brace-rewritten text of a point whose X begins with a `\u` escape unquotes to `[`, the escaped character, and the rest |
| Coordinates.TupleEscapedDigit | types.go:407-422 | a point whose X begins with a `\u` escape, such as `"{\u0030.5, 1}"`, decodes to X and Y as Go does |
| Parser.Parse | parser.go:16-47 | a failure to open the archive is returned unchanged; otherwise the result is the fold of the entry loop over the entries in order |
| Parser.Step | parser.go:30-44 | a successful turn removes no page key and keeps every page stored under its own Name |
| Parser.Collect | parser.go:27-45 | every page of a successful walk is stored under its own Name |
| Parser.PathClassesDisjoint | parser.go:30-38 | no entry name is both under `pages/` and equal to `document.json` |
| Parser.StepFails | parser.go:30-44 | one turn fails exactly when the entry's decode under its matching rule fails, and with that error |
| Parser.StepPage | parser.go:30-36 | a page entry stores the page under its own Name and changes nothing else |
| Parser.StepDocument | parser.go:38-44 | a document entry replaces the document and changes nothing else |
| Parser.StepKeepsDocument | parser.go:30-36 | an entry not named `document.json` leaves the document as it was |
| Parser.FailureIsFinal | parser.go:32-42 | after a failing entry, later entries do not change the result |
| Parser.FirstFailureWins | parser.go:27-45 | the walk fails exactly when some entry fails, and then with the first failing entry's error |
| Parser.PagesByLastName | parser.go:27-36 | the page keys are exactly the Name fields of the page entries, and each key holds the last page with that Name |
| Parser.DocumentIsLast | parser.go:38-44 | the document is that of the last `document.json` entry |
| Parser.DocumentAbsent | parser.go:17-19 | without a `document.json` entry the document of a successful walk is the zero value |
| Parser.DocumentAbsentFails | parser.go:17-46 | a missing `document.json` entry is not an error: without one the walk can fail only on a page entry whose decode failed |
| Parser.IgnoredEntry | parser.go:27-45 | an entry matching neither rule changes nothing |
| Parser.NothingMatches | parser.go:17-46 | with no page or document entry the result is the zero document and an empty page map |

## Left out

- The `Archive` codec (types.go:470-510). It relies on base64 decoding and on an external binary property-list parser, and neither is part of this model.
- The record types (types.go:14-391) carry no logic. `Page` and `Document` keep only a few fields, including `Page.Name`, which keys the page map.
- constants.go is made of enumeration tables without logic.
- The zip reader, entry streaming, `Close`, and the JSON decoding of a whole page or document (parser.go:21-25 and 49-59). These are I/O and library calls. Opening the archive and each `parseObj` call are inputs of the model.
- Bytes and UTF-8. Strings are sequences of characters, so invalid UTF-8 and multi-byte characters are not modelled.
- Strconv.Quote: Go writes `\u` escapes for non-printable characters outside ASCII; the model copies every non-ASCII character.
- Strconv.Unquote: `\x` escapes and octal escapes at or above 0x80 stand for raw bytes, which a string of characters cannot hold, so the model rejects them. An escaped single-quoted literal such as `'\n'` is also rejected. MarshalJSON never writes any of these. Go fails on them too, because the unquoted text is never a valid number array, but it reports the unmarshal error where the model reports the unquote error.
- JsonNumbers.ParseNumberArray: Go accepts a JSON string holding a valid number (`["1"]`) and `null` as an element of `[]json.Number`; the model rejects both.
- JsonNumbers.ParseArrayOfArrays: the same two element forms inside the inner arrays are rejected.
- JsonNumbers.ParseNumberArray and JsonNumbers.ParseArrayOfArrays: JSON values other than arrays and `null` are errors. Go also rejects them, with a type error rather than a syntax error.
- Coordinates.NestedPositionCoordinates: Data is a sequence of point values. In Go it is a slice of pointers, so the model does not capture aliasing between lists or nil entries.
- Coordinates.NestedPositionCoordinates.MarshalJSON puts its text between quotes without escaping, as the source does. The round trip is proved for number texts, which need no escaping.
- Parser.Parse returns the decode error unchanged. It does not attach the entry name to the error.
- Parser.Parse: a panic inside an entry's decode is not modelled. A page or the document holding a coordinate with fewer than two numbers makes the Go program crash, because encoding/json does not recover a panic raised by an UnmarshalJSON method; each entry's decode outcome is a value or an error.
- The coordinate decoders do not reject arrays that are longer than two numbers: extra numbers are ignored. A decoder given fewer than two numbers panics rather than returning an error.
- Parser.File: Go's `Pages` map is created empty and is never nil. A Dafny map has no nil value, so nothing is lost.
