/** The post-processing half of the OCR processor: turning what the text
    recognizer returns into clean, numbered line records (`processLines`), the
    fallback that builds such records from the raw text (`createLinesFromText`),
    and the choice `processImage` makes between the two, including its
    defaults and its error result. The recognizer itself is not modelled: its
    output (or the error it threw) is the input here. */
module OcrProcessor {
  import opened JsString
  import opened JsArray

  datatype Option<T> = None | Some(value: T)

  /** A line's bounding box, passed through untouched. */
  datatype BBox = BBox(x0: int, y0: int, x1: int, y1: int)

  /** One entry of the recognizer's `data.lines`. A missing field is `None`;
      a null entry of the array is `None` one level up. */
  datatype RecognizedLine = RecognizedLine(text: Option<string>, confidence: Option<real>, bbox: Option<BBox>)

  /** The value found in `data.lines`. */
  datatype LinesValue =
    | Missing                                         // undefined or null
    | LineArray(entries: seq<Option<RecognizedLine>>)
    | NotAnArray(length: Option<int>)                 // any other truthy value, with its numeric `length`, if it has one

  /** The recognizer's `data` object: full text, per-line records, mean confidence. */
  datatype RecognizerData = RecognizerData(text: Option<string>, lines: LinesValue, confidence: Option<int>)

  /** What the awaited recognition produced: a result whose `data` may be
      absent, or the message of an error thrown once the recognizer was
      running (by the recognition itself or by the post-processing). */
  datatype Recognition = Recognized(data: Option<RecognizerData>) | Failed(message: string)

  /** A cleaned line record `{id, text, confidence, bbox}`. */
  datatype ProcessedLine = ProcessedLine(id: nat, text: string, confidence: int, bbox: Option<BBox>)

  /** The object `processImage` returns. */
  datatype OcrResult = OcrResult(rawText: string, lines: seq<ProcessedLine>, success: bool, error: Option<string>)

  /** Lines whose rounded confidence is not above this are dropped. */
  const ConfidenceThreshold: int := 30

  /** Used when the recognizer reports no (or a zero) overall confidence. */
  const DefaultConfidence: int := 75

  /** JavaScript's `Math.round`: the nearest integer, halves rounded up. */
  function Round(x: real): (n: int)
    ensures n as real - 0.5 <= x < n as real + 0.5
  {
    (x + 0.5).Floor
  }

  /** `confidence || 0`: a missing confidence reads as 0 (a zero one is 0 anyway). */
  function ConfidenceOrZero(c: Option<real>): real {
    match c
    case Some(v) => v
    case None => 0.0
  }

  /** The first filter of `processLines`: the entry exists and its text is a
      string that does not trim to nothing. */
  predicate HasText(entry: Option<RecognizedLine>) {
    entry.Some? && entry.value.text.Some? && |Trim(entry.value.text.value)| > 0
  }

  /** The rounded confidence an entry is given. */
  function RoundedConfidence(entry: Option<RecognizedLine>): int {
    match entry
    case Some(line) => Round(ConfidenceOrZero(line.confidence))
    case None => 0
  }

  /** The `map` of `processLines`: number the entry, trim its text, round its
      confidence and keep its box. Only entries that passed `HasText` get here. */
  function ToProcessed(entry: Option<RecognizedLine>, index: nat): ProcessedLine {
    match entry
    case Some(line) =>
      var text := match line.text case Some(t) => t case None => [];
      ProcessedLine(index, Trim(text), RoundedConfidence(entry), line.bbox)
    case None => ProcessedLine(index, [], 0, None)
  }

  /** The second filter of `processLines`. */
  predicate IsConfident(line: ProcessedLine) {
    line.confidence > ConfidenceThreshold
  }

  /** The entries that survive the first filter, in order. */
  function KeptEntries(entries: seq<Option<RecognizedLine>>): seq<Option<RecognizedLine>> {
    Filter(entries, HasText)
  }

  /** The kept entries, numbered by their position among the kept entries. */
  function Numbered(entries: seq<Option<RecognizedLine>>): seq<ProcessedLine> {
    MapIndexed(KeptEntries(entries), ToProcessed, 0)
  }

  /** `processLines(lines)`: anything but an array gives no lines; otherwise
      drop empty entries, number the rest, then drop the unconfident ones
      (so numbering happens before the confidence filter). */
  function ProcessLines(lines: LinesValue): (r: seq<ProcessedLine>)
    ensures !lines.LineArray? ==> r == []
  {
    match lines
    case LineArray(entries) => Filter(Numbered(entries), IsConfident)
    case _ => []
  }

  /** `createLinesFromText(text, overallConfidence)`: split on line feeds,
      trim each piece, drop the empty ones, number the rest and stamp each
      with the overall confidence and a null box. */
  function CreateLinesFromText(text: string, overallConfidence: int): seq<ProcessedLine> {
    var trimmed := Map(Split(text, '\n'), Trim);
    var nonEmpty := Filter(trimmed, (t: string) => |t| > 0);
    MapIndexed(nonEmpty, (t: string, index: nat) => ProcessedLine(index, t, overallConfidence, None), 0)
  }

  /** `result.data?.text || ''`. */
  function RawText(data: Option<RecognizerData>): string {
    if data.Some? && data.value.text.Some? then data.value.text.value else []
  }

  /** `result.data?.lines || []`. */
  function LinesField(data: Option<RecognizerData>): LinesValue {
    if data.None? || data.value.lines.Missing? then LineArray([]) else data.value.lines
  }

  /** `result.data?.confidence || 75`. */
  function OverallConfidence(data: Option<RecognizerData>): int {
    if data.Some? && data.value.confidence.Some? && data.value.confidence.value != 0
    then data.value.confidence.value
    else DefaultConfidence
  }

  /** `lines.length > 0`; a value without a numeric `length` compares false. */
  predicate HasLineData(lines: LinesValue) {
    match lines
    case LineArray(entries) => |entries| > 0
    case NotAnArray(length) => length.Some? && length.value > 0
    case Missing => false
  }

  /** The lines `processImage` returns for a recognition that succeeded. */
  function SelectLines(data: Option<RecognizerData>): seq<ProcessedLine> {
    var text, lines := RawText(data), LinesField(data);
    if HasLineData(lines) then ProcessLines(lines)
    else if |Trim(text)| > 0 then CreateLinesFromText(text, OverallConfidence(data))
    else []
  }

  /** `processImage` after the recognizer has been started: success carries the
      raw text and the selected lines; an error thrown inside the `try` gives
      an empty failed result. */
  function ProcessImage(recognition: Recognition): (r: OcrResult)
    ensures r.success <==> recognition.Recognized?
    ensures r.success <==> r.error.None?
  {
    match recognition
    case Recognized(data) => OcrResult(RawText(data), SelectLines(data), true, None)
    case Failed(message) => OcrResult([], [], false, Some(message))
  }

  // ---------------------------------------------------------------------
  // Reference definitions
  // ---------------------------------------------------------------------

  /** The ids of a sequence of line records, in order. */
  function Ids(lines: seq<ProcessedLine>): seq<nat> {
    Map(lines, (l: ProcessedLine) => l.id)
  }

  /** The texts of a sequence of line records, in order. */
  function Texts(lines: seq<ProcessedLine>): seq<string> {
    Map(lines, (l: ProcessedLine) => l.text)
  }

  /** `processLines` written as one pass with a running counter `next`: an
      entry with text consumes a number whether or not it is then kept. */
  function SinglePass(entries: seq<Option<RecognizedLine>>, next: nat): seq<ProcessedLine> {
    if entries == [] then []
    else if !HasText(entries[0]) then SinglePass(entries[1..], next)
    else
      var line := ToProcessed(entries[0], next);
      (if IsConfident(line) then [line] else []) + SinglePass(entries[1..], next + 1)
  }

  /** The trimmed pieces that contain something other than whitespace. */
  function TrimmedNonBlank(pieces: seq<string>): seq<string> {
    if pieces == [] then []
    else (if AllWhitespace(pieces[0]) then [] else [Trim(pieces[0])]) + TrimmedNonBlank(pieces[1..])
  }

  /** How many pieces contain something other than whitespace. */
  function CountNonBlank(pieces: seq<string>): nat {
    if pieces == [] then 0
    else (if AllWhitespace(pieces[0]) then 0 else 1) + CountNonBlank(pieces[1..])
  }

  function Concat(texts: seq<string>): string {
    if texts == [] then [] else texts[0] + Concat(texts[1..])
  }
}
