# OCR line post-processing of the receipt splitter

This project models the part of the receipt splitter's OCR processor
(`src/lib/ocrProcessor.js`) that turns what the text recognizer returns into
clean line records, and proves what those records look like.

- `processLines` takes the recognizer's per-line entries. It drops null
  entries and entries whose text is missing or trims to nothing. It numbers
  the survivors by position, trims their text, rounds their confidence (a
  missing one counts as 0) and then drops every record whose rounded
  confidence is not above 30. Anything that is not an array gives no lines.
- `createLinesFromText` is the fallback. It splits the raw text on line
  feeds, trims each piece, drops empty pieces and numbers the rest. Every
  record gets the overall confidence and a null box. There is no confidence
  filter.
- `processImage` takes the recognizer's `data` and picks the path. A
  positive `lines.length` goes to `processLines`. Otherwise a raw text that
  is not blank goes to the fallback. Otherwise there are no lines. A missing
  or zero overall confidence becomes 75. An error thrown after the
  recognizer has been started (lines 36-65) gives
  `{rawText: '', lines: [], success: false, error}`.

Modules:

- `JsString` (`js_string.dfy`): JavaScript's `trim()`, with the exact
  whitespace set ECMAScript strips, and `split` on one character with
  `join` as its inverse.
- `JsArray` (`js_array.dfy`): `filter`, `map`, and `map` with an index.
- `OcrProcessor` (`ocr_processor.dfy`): the recognizer's data as plain
  datatypes; `ProcessLines`, `CreateLinesFromText`, `ProcessImage`; and
  two reference definitions. `SinglePass` is `processLines` done as one
  loop with a counter. `TrimmedNonBlank` is the non-blank trimmed pieces.
- `OcrProperties` (`ocr_properties.dfy`): the lemmas.

Modelling choices:

- JavaScript's `x || d` is read literally. A missing value and a zero
  number both take the default. A missing text and the empty text are the
  same.
- A line's confidence is a `real`. `Math.round` is `floor(x + 0.5)`, which
  rounds halves up as JavaScript does. The overall `data.confidence` is an
  integer: the recognizer reports its mean confidence as a whole number.
  Every output confidence is therefore an `int`.
- `data.lines` may be missing, an array (whose entries may be null), or
  some other truthy value with or without a numeric `length`. So
  `processLines`' array guard and `processImage`'s `lines.length > 0` test
  can both be reached.
- Ids are assigned before the confidence filter. Surviving ids therefore
  increase strictly but can have gaps (`IdGap`).

## Model

| member | source | states |
|---|---|---|
| `OcrProcessor.Round` | src/lib/ocrProcessor.js:117 | `Math.round`: the result is the one integer n with n - 1/2 <= x < n + 1/2 |
| `OcrProcessor.ProcessLines` | src/lib/ocrProcessor.js:105-109 | any value that is not an array gives no lines |
| `OcrProcessor.ProcessImage` | src/lib/ocrProcessor.js:66-80 | the result succeeds exactly when the recognizer answered, and carries an error exactly when it failed |
| `OcrProperties.RoundAboveThreshold` | src/lib/ocrProcessor.js:117-120 | a rounded confidence passes the `> 30` filter exactly when the reported one is at least 30.5 |
| `OcrProperties.ProcessLinesWellFormed` | src/lib/ocrProcessor.js:111-120 | every returned record has a non-empty text with no whitespace at either end, and a confidence above 30 |
| `OcrProperties.ProcessLinesIds` | src/lib/ocrProcessor.js:111-120 | each id is the position of the record's entry among the entries with text, and the record is built from that entry; ids increase strictly; a position appears exactly when that entry's rounded confidence is above 30 |
| `OcrProperties.ProcessLinesDropsLowConfidence` | src/lib/ocrProcessor.js:112-120 | every returned record comes from an entry that reported a confidence of at least 30.5; entries with a missing or zero confidence never survive |
| `OcrProperties.ProcessLinesIsSinglePass` | src/lib/ocrProcessor.js:111-120 | the filter/map/filter chain equals a single pass whose counter advances on every entry with text, kept or not |
| `OcrProperties.IdGap` | src/lib/ocrProcessor.js:113-120 | three entries with text whose middle one is unconfident give two records with ids 0 and 2 |
| `OcrProperties.CreateLinesShape` | src/lib/ocrProcessor.js:124-135 | fallback record k has id k, a non-empty one-line text with no whitespace at either end, the overall confidence and no box |
| `OcrProperties.CreateLinesTexts` | src/lib/ocrProcessor.js:126-129 | the fallback's texts are, in order, exactly the trimmed line-feed pieces that are not whitespace only, so there is one record per non-blank piece |
| `OcrProperties.CreateLinesKeepsVisibleText` | src/lib/ocrProcessor.js:126-135 | the non-whitespace characters of the fallback's texts, read in order, are exactly those of the raw text |
| `OcrProperties.ProcessImageSelection` | src/lib/ocrProcessor.js:49-80 | an error thrown after the recognizer has been started gives an empty failed result with its message. Otherwise the result succeeds with the raw text or ''. A non-empty line array goes through `processLines`. A non-array with a positive length gives no lines. With no line data, a non-blank text goes through the fallback with the reported confidence, or 75 when it is missing or 0. A blank text gives no lines |
| `OcrProperties.ProcessImageLinesWellFormed` | src/lib/ocrProcessor.js:57-64 | whichever path is taken, every record has a non-empty trimmed text and a non-zero confidence, and ids increase |
| `OcrProperties.FallbackKeepsLowConfidence` | src/lib/ocrProcessor.js:61-64 | with no line data, a non-blank one-line text comes back as one record with its trimmed text and the reported confidence, however low |
| `JsString.TrimIsSlice` | src/lib/ocrProcessor.js:115 | `trim()` returns a slice of its input with only whitespace before and after it |
| `JsString.TrimEmptyIff` | src/lib/ocrProcessor.js:112 | `trim()` is empty exactly when the string is whitespace only |
| `JsString.TrimPadded` | src/lib/ocrProcessor.js:128 | trimming whitespace-padded trimmed text gives that text back, so `trim()` is fully determined |
| `JsString.TrimKeepsVisible` | src/lib/ocrProcessor.js:128 | `trim()` removes no non-whitespace character |
| `JsString.SplitPiecesHaveNoSeparator` | src/lib/ocrProcessor.js:127 | no piece of `split('\n')` contains a line feed |
| `JsString.JoinSplit` | src/lib/ocrProcessor.js:127 | joining the pieces of `split(sep)` with `sep` gives the input back |
| `JsString.SplitJoin` | src/lib/ocrProcessor.js:127 | splitting a join of separator-free pieces gives the pieces back |
| `JsArray.Filter` | src/lib/ocrProcessor.js:129 | `filter` keeps exactly the elements that satisfy the predicate, and never grows |
| `OcrProcessor.ConfidenceOrZero` | src/lib/ocrProcessor.js:117 | a missing confidence reads as 0; with `Round` it is stated by `ProcessLinesDropsLowConfidence`: an entry with a missing or zero confidence never survives |
| `OcrProcessor.HasText` | src/lib/ocrProcessor.js:112 | the first filter; `ProcessLinesIds` states that the ids are positions among exactly the entries it accepts, and `ProcessLinesWellFormed` that every surviving text is non-empty and trimmed |
| `OcrProcessor.ToProcessed` | src/lib/ocrProcessor.js:113-119 | the numbering map; `ProcessLinesIds` states that output record k is `ToProcessed` of the kept entry at position id |
| `OcrProcessor.IsConfident` | src/lib/ocrProcessor.js:120 | the second filter; `ProcessLinesIds` states that a position appears exactly when its rounded confidence is above 30 |
| `OcrProcessor.CreateLinesFromText` | src/lib/ocrProcessor.js:124-136 | the fallback; stated by `CreateLinesShape`, `CreateLinesTexts` and `CreateLinesKeepsVisibleText` |
| `OcrProcessor.RawText` | src/lib/ocrProcessor.js:49 | the raw text with its default; `ProcessImageSelection` states that a successful result carries the reported text, or '' when it is missing |
| `OcrProcessor.LinesField` | src/lib/ocrProcessor.js:50 | the `lines` field with its default; `ProcessImageSelection` states that missing lines are treated as no line data |
| `OcrProcessor.OverallConfidence` | src/lib/ocrProcessor.js:51 | the overall confidence with its default; `ProcessImageSelection` states that the fallback gets the reported confidence, or 75 when it is missing or 0 |
| `OcrProcessor.HasLineData` | src/lib/ocrProcessor.js:59 | `lines.length > 0`; `ProcessImageSelection` states which `lines` values count as line data |
| `OcrProcessor.SelectLines` | src/lib/ocrProcessor.js:57-64 | the choice of path; stated case by case by `ProcessImageSelection`, and by `ProcessImageLinesWellFormed` for every path |
| `JsString.Trim` | src/lib/ocrProcessor.js:115 | `trim()`: the result neither starts nor ends with whitespace; `TrimIsSlice`, `TrimEmptyIff`, `TrimPadded` and `TrimKeepsVisible` state the rest |
| `JsString.Split` | src/lib/ocrProcessor.js:127 | `split('\n')` always yields at least one piece; `JoinSplit` and `SplitJoin` state that it is the inverse of `join` |
| `JsArray.Map` | src/lib/ocrProcessor.js:128 | `map` keeps the length and puts the callback's value of element i at position i |
| `JsArray.MapIndexed` | src/lib/ocrProcessor.js:130-135 | `map` with an index keeps the length and passes element i together with its index i |

## Left out

- An error in starting the recognizer escapes `processImage`. `initialize` is awaited before the `try` (`src/lib/ocrProcessor.js` lines 32-34) and rethrows (line 27), so the promise rejects instead of resolving to the failed result. The caller in `src/app/page.js` handles that in its own `catch`. `OcrProcessor.ProcessImage` covers only errors thrown inside the `try`.
- The recognizer's lifecycle (`initialize`, the `recognize` call, object URLs, `cleanup`) is left out. It is asynchronous library I/O. The outcome of `recognize` is an input to `ProcessImage` instead.
- `processAndTranslate` and `translateLine` are left out. They fetch from a network translation service. On failure they pass the text through unchanged.
- The progress callback and the console logging are left out.
- Floating point is not modelled. Confidences are exact reals. NaN, which `||` would also treat as falsy, is not represented, and neither are `-0` or the precision of `x + 0.5`.
- Strings are sequences of Unicode scalar values. JavaScript's UTF-16 strings can hold lone surrogates, which this model does not represent. A lone surrogate is never whitespace, so `trim()` would leave it alone.
- `OcrProcessor.ProcessLines` does not model a text field that is some other truthy non-string value. For such a value `trim()` would throw, and the catch block in `processImage` would return the failed result.
- `OcrProcessor.RawText` does not model a `data.text` that is some other truthy non-string value. With no line data, `text.trim()` at line 61 would then throw, and the catch block would return the failed result.
- `processLines` ignores the second argument `processImage` passes to it. The model does not have that argument.
- The receipt-item parsing, the balance computation, the UI in `src/app/page.js`, the PDF export and the theme toggle are not part of this model. None of them is in the OCR processor.
