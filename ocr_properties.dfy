/** What the OCR post-processing guarantees: the shape of the records
    `processLines` and `createLinesFromText` produce, how their ids relate to
    the input, what the fallback keeps of the raw text, and how `processImage`
    chooses between them. */
module OcrProperties {
  import opened JsString
  import opened JsArray
  import opened OcrProcessor

  /** Every record's id is below every later record's id. */
  predicate IdsIncreasing(lines: seq<ProcessedLine>) {
    forall i, j | 0 <= i < j < |lines| :: lines[i].id < lines[j].id
  }

  // ---------------------------------------------------------------------
  // Rounding and the confidence threshold
  // ---------------------------------------------------------------------

  /** A rounded confidence clears the threshold exactly when the unrounded
      one is at least 30.5. */
  lemma RoundAboveThreshold(x: real)
    ensures Round(x) > ConfidenceThreshold <==> x >= 30.5
  {
  }

  // ---------------------------------------------------------------------
  // processLines
  // ---------------------------------------------------------------------

  /** A numbered record carries the index it was given. */
  lemma NumberedAt(entries: seq<Option<RecognizedLine>>, k: nat)
    requires k < |KeptEntries(entries)|
    ensures |Numbered(entries)| == |KeptEntries(entries)|
    ensures Numbered(entries)[k] == ToProcessed(KeptEntries(entries)[k], k)
    ensures Numbered(entries)[k].id == k
  {
  }

  /** Every record in the numbered sequence has a non-empty trimmed text,
      since only entries with text are numbered. */
  lemma NumberedHasText(entries: seq<Option<RecognizedLine>>, l: ProcessedLine)
    requires l in Numbered(entries)
    ensures l.id < |KeptEntries(entries)| && l == Numbered(entries)[l.id]
    ensures HasText(KeptEntries(entries)[l.id])
    ensures |l.text| > 0 && IsTrimmed(l.text)
    ensures l.confidence == RoundedConfidence(KeptEntries(entries)[l.id])
  {
    var kept := KeptEntries(entries);
    var k :| 0 <= k < |Numbered(entries)| && Numbered(entries)[k] == l;
    NumberedAt(entries, k);
    assert kept[k] in kept;
  }

  /** Each record `processLines` returns has a non-empty text with no
      whitespace at either end, and a whole-number confidence above 30. */
  lemma ProcessLinesWellFormed(lines: LinesValue)
    ensures forall l | l in ProcessLines(lines) ::
      |l.text| > 0 && IsTrimmed(l.text)
      && l.confidence > ConfidenceThreshold
  {
    if lines.LineArray? {
      forall l | l in ProcessLines(lines)
        ensures |l.text| > 0 && IsTrimmed(l.text)
        ensures l.confidence > ConfidenceThreshold
      {
        NumberedHasText(lines.entries, l);
      }
    }
  }

  lemma {:induction false} FilterKeepsIdsIncreasing(lines: seq<ProcessedLine>, p: ProcessedLine -> bool)
    requires IdsIncreasing(lines)
    ensures IdsIncreasing(Filter(lines, p))
  {
    if lines != [] {
      FilterKeepsIdsIncreasing(lines[1..], p);
      var rest := Filter(lines[1..], p);
      forall x | x in rest ensures lines[0].id < x.id {
        var k :| 0 <= k < |lines[1..]| && lines[1..][k] == x;
        assert lines[k + 1] == x;
      }
    }
  }

  /** The ids `processLines` returns: each is the position of its record's
      entry among the entries with text (not among the returned records);
      they increase strictly; and a position appears exactly when that
      entry's rounded confidence is above 30. So the ids can have gaps. */
  lemma ProcessLinesIds(entries: seq<Option<RecognizedLine>>)
    ensures var out, kept := ProcessLines(LineArray(entries)), KeptEntries(entries);
      && (forall k | 0 <= k < |out| :: out[k].id < |kept| && out[k] == ToProcessed(kept[out[k].id], out[k].id))
      && IdsIncreasing(out)
      && (forall j | 0 <= j < |kept| :: j in Ids(out) <==> RoundedConfidence(kept[j]) > ConfidenceThreshold)
  {
    var out, kept, numbered := ProcessLines(LineArray(entries)), KeptEntries(entries), Numbered(entries);
    forall k | 0 <= k < |out| ensures out[k].id < |kept| && out[k] == ToProcessed(kept[out[k].id], out[k].id) {
      assert out[k] in out;
      NumberedHasText(entries, out[k]);
      NumberedAt(entries, out[k].id);
    }
    FilterKeepsIdsIncreasing(numbered, IsConfident);
    forall j | 0 <= j < |kept| ensures j in Ids(out) <==> RoundedConfidence(kept[j]) > ConfidenceThreshold {
      NumberedAt(entries, j);
      assert numbered[j] in numbered;
      if RoundedConfidence(kept[j]) > ConfidenceThreshold {
        assert numbered[j] in out;
        var k :| 0 <= k < |out| && out[k] == numbered[j];
        assert Ids(out)[k] == j;
      }
      if j in Ids(out) {
        var k :| 0 <= k < |out| && Ids(out)[k] == j;
        assert out[k] in out;
        NumberedHasText(entries, out[k]);
      }
    }
  }

  /** No record comes from an entry whose confidence is missing, zero or
      below 30.5: every returned record's entry reported one of at least 30.5. */
  lemma ProcessLinesDropsLowConfidence(entries: seq<Option<RecognizedLine>>)
    ensures var out, kept := ProcessLines(LineArray(entries)), KeptEntries(entries);
      forall l | l in out ::
        l.id < |kept| && kept[l.id].Some? && kept[l.id].value.confidence.Some?
        && kept[l.id].value.confidence.value >= 30.5
  {
    var out, kept := ProcessLines(LineArray(entries)), KeptEntries(entries);
    forall l | l in out
      ensures l.id < |kept| && kept[l.id].Some? && kept[l.id].value.confidence.Some?
      ensures kept[l.id].value.confidence.value >= 30.5
    {
      NumberedHasText(entries, l);
      RoundAboveThreshold(ConfidenceOrZero(kept[l.id].value.confidence));
    }
  }

  lemma {:induction false} SinglePassFrom(entries: seq<Option<RecognizedLine>>, next: nat)
    ensures Filter(MapIndexed(Filter(entries, HasText), ToProcessed, next), IsConfident) == SinglePass(entries, next)
  {
    if entries != [] {
      var e := entries[0];
      var kept, keptRest := Filter(entries, HasText), Filter(entries[1..], HasText);
      if HasText(e) {
        SinglePassFrom(entries[1..], next + 1);
        assert kept[0] == e && kept[1..] == keptRest;
        var numbered := MapIndexed(kept, ToProcessed, next);
        assert numbered[1..] == MapIndexed(keptRest, ToProcessed, next + 1);
      } else {
        SinglePassFrom(entries[1..], next);
        assert kept == keptRest by {
          assert kept == [] + keptRest;
        }
      }
    }
  }

  /** The chain `filter`, `map`, `filter` equals one pass that counts every
      entry with text, kept or not. */
  lemma ProcessLinesIsSinglePass(entries: seq<Option<RecognizedLine>>)
    ensures ProcessLines(LineArray(entries)) == SinglePass(entries, 0)
  {
    SinglePassFrom(entries, 0);
  }

  /** Three lines with text, the middle one not confident enough: the
      survivors keep the ids 0 and 2, not 0 and 1. */
  lemma IdGap(first: RecognizedLine, middle: RecognizedLine, last: RecognizedLine)
    requires HasText(Some(first)) && HasText(Some(middle)) && HasText(Some(last))
    requires RoundedConfidence(Some(first)) > ConfidenceThreshold
    requires RoundedConfidence(Some(middle)) <= ConfidenceThreshold
    requires RoundedConfidence(Some(last)) > ConfidenceThreshold
    ensures var out := ProcessLines(LineArray([Some(first), Some(middle), Some(last)]));
      |out| == 2 && out[0].id == 0 && out[1].id == 2
  {
    ProcessLinesIsSinglePass([Some(first), Some(middle), Some(last)]);
    SinglePassGap(first, middle, last);
  }

  lemma SinglePassGap(first: RecognizedLine, middle: RecognizedLine, last: RecognizedLine)
    requires HasText(Some(first)) && HasText(Some(middle)) && HasText(Some(last))
    requires RoundedConfidence(Some(first)) > ConfidenceThreshold
    requires RoundedConfidence(Some(middle)) <= ConfidenceThreshold
    requires RoundedConfidence(Some(last)) > ConfidenceThreshold
    ensures SinglePass([Some(first), Some(middle), Some(last)], 0)
      == [ToProcessed(Some(first), 0), ToProcessed(Some(last), 2)]
  {
    var entries := [Some(first), Some(middle), Some(last)];
    assert entries[1..] == [Some(middle), Some(last)];
    assert entries[1..][1..] == [Some(last)] && entries[1..][1..][1..] == [];
    var l0, l2 := ToProcessed(Some(first), 0), ToProcessed(Some(last), 2);
    assert SinglePass([Some(last)], 2) == [l2];
    assert SinglePass(entries[1..], 1) == [l2];
  }

  // ---------------------------------------------------------------------
  // createLinesFromText
  // ---------------------------------------------------------------------

  /** Each record of the fallback has the id of its position, a non-empty
      single-line text with no whitespace at either end, the overall
      confidence (whatever it is: there is no threshold here) and no box. */
  lemma CreateLinesShape(text: string, overallConfidence: int)
    ensures var out := CreateLinesFromText(text, overallConfidence);
      forall k | 0 <= k < |out| ::
        && out[k].id == k
        && |out[k].text| > 0 && IsTrimmed(out[k].text) && '\n' !in out[k].text
        && out[k].confidence == overallConfidence && out[k].bbox == None
  {
    var pieces := Split(text, '\n');
    var trimmed := Map(pieces, Trim);
    var nonEmpty := Filter(trimmed, (t: string) => |t| > 0);
    var out := CreateLinesFromText(text, overallConfidence);
    SplitPiecesHaveNoSeparator(text, '\n');
    forall k | 0 <= k < |out|
      ensures out[k].id == k && |out[k].text| > 0 && IsTrimmed(out[k].text) && '\n' !in out[k].text
      ensures out[k].confidence == overallConfidence && out[k].bbox == None
    {
      assert out[k] == ProcessedLine(k, nonEmpty[k], overallConfidence, None);
      assert nonEmpty[k] in nonEmpty;
      var i :| 0 <= i < |trimmed| && trimmed[i] == nonEmpty[k];
      assert pieces[i] in pieces;
      var a, b := TrimIsSlice(pieces[i]);
    }
  }

  lemma {:induction false} TrimmedNonBlankIsFilter(pieces: seq<string>)
    ensures Filter(Map(pieces, Trim), (t: string) => |t| > 0) == TrimmedNonBlank(pieces)
  {
    if pieces != [] {
      TrimmedNonBlankIsFilter(pieces[1..]);
      TrimEmptyIff(pieces[0]);
      assert Map(pieces, Trim)[1..] == Map(pieces[1..], Trim);
    }
  }

  lemma {:induction false} TrimmedNonBlankCount(pieces: seq<string>)
    ensures |TrimmedNonBlank(pieces)| == CountNonBlank(pieces)
  {
    if pieces != [] {
      TrimmedNonBlankCount(pieces[1..]);
    }
  }

  /** The fallback's texts are, in order, exactly the trimmed `'\n'`-separated
      pieces that are not whitespace only; one record per such piece. */
  lemma CreateLinesTexts(text: string, overallConfidence: int)
    ensures Texts(CreateLinesFromText(text, overallConfidence)) == TrimmedNonBlank(Split(text, '\n'))
    ensures |CreateLinesFromText(text, overallConfidence)| == CountNonBlank(Split(text, '\n'))
  {
    var pieces := Split(text, '\n');
    var nonEmpty := Filter(Map(pieces, Trim), (t: string) => |t| > 0);
    TrimmedNonBlankIsFilter(pieces);
    TrimmedNonBlankCount(pieces);
    var out := CreateLinesFromText(text, overallConfidence);
    assert Texts(out) == nonEmpty;
  }

  lemma {:induction false} ConcatAppend(a: seq<string>, b: seq<string>)
    ensures Concat(a + b) == Concat(a) + Concat(b)
  {
    if a != [] {
      assert (a + b)[1..] == a[1..] + b;
      ConcatAppend(a[1..], b);
    } else {
      assert a + b == b;
    }
  }

  lemma {:induction false} VisibleTrimmedNonBlank(pieces: seq<string>)
    requires |pieces| >= 1
    ensures Visible(Concat(TrimmedNonBlank(pieces))) == Visible(Join(pieces, '\n'))
  {
    var head := if AllWhitespace(pieces[0]) then [] else [Trim(pieces[0])];
    assert TrimmedNonBlank(pieces) == head + TrimmedNonBlank(pieces[1..]);
    ConcatAppend(head, TrimmedNonBlank(pieces[1..]));
    VisibleAppend(Concat(head), Concat(TrimmedNonBlank(pieces[1..])));
    assert Visible(Concat(head)) == Visible(pieces[0]) by {
      if AllWhitespace(pieces[0]) {
        VisibleOfBlank(pieces[0]);
        assert Concat(head) == [];
        assert Visible([]) == [];
      } else {
        var t := Trim(pieces[0]);
        assert head == [t] && head[1..] == [];
        assert Concat(head) == t + Concat([]);
        assert Concat(head) == t;
        TrimKeepsVisible(pieces[0]);
      }
    }
    if |pieces| == 1 {
      assert TrimmedNonBlank(pieces[1..]) == [];
    } else {
      VisibleTrimmedNonBlank(pieces[1..]);
      VisibleJoin(pieces, '\n');
    }
  }

  /** Nothing visible is lost, added or reordered by the fallback: the
      non-whitespace characters of its texts, read in order, are those of
      the raw text. */
  lemma CreateLinesKeepsVisibleText(text: string, overallConfidence: int)
    ensures Visible(Concat(Texts(CreateLinesFromText(text, overallConfidence)))) == Visible(text)
  {
    CreateLinesTexts(text, overallConfidence);
    VisibleTrimmedNonBlank(Split(text, '\n'));
    JoinSplit(text, '\n');
  }

  // ---------------------------------------------------------------------
  // processImage
  // ---------------------------------------------------------------------

  /** How `processImage` builds its result. An error thrown once the
      recognizer is running gives an empty failed result carrying the message. Otherwise the result succeeds with
      the raw text, and its lines are: those of `processLines` for a
      non-empty line array; none for a non-array value with a positive
      length (`processLines` rejects it); and, when there is no line data,
      the fallback's, with the reported confidence or 75 when that is
      missing or 0, unless the raw text is whitespace only, which gives none. */
  lemma ProcessImageSelection(recognition: Recognition)
    ensures var r := ProcessImage(recognition);
      && (recognition.Failed? ==> r == OcrResult([], [], false, Some(recognition.message)))
      && (recognition.Recognized? ==>
            var data := recognition.data;
            var text := if data.Some? && data.value.text.Some? then data.value.text.value else [];
            var conf := if data.Some? && data.value.confidence.Some? && data.value.confidence.value != 0
                        then data.value.confidence.value else 75;
            var lines := if data.Some? then data.value.lines else Missing;
            var noLineData := || lines.Missing? || lines == LineArray([])
                              || (lines.NotAnArray? && !(lines.length.Some? && lines.length.value > 0));
            && r.success && r.error == None && r.rawText == text
            && (lines.LineArray? && |lines.entries| > 0 ==> r.lines == ProcessLines(lines))
            && (lines.NotAnArray? && lines.length.Some? && lines.length.value > 0 ==> r.lines == [])
            && (noLineData && AllWhitespace(text) ==> r.lines == [])
            && (noLineData && !AllWhitespace(text) ==> r.lines == CreateLinesFromText(text, conf)))
  {
    if recognition.Recognized? {
      TrimEmptyIff(RawText(recognition.data));
    }
  }

  /** Whichever way the lines were obtained, every record has a non-empty
      trimmed text and a non-zero confidence, and the ids increase. */
  lemma ProcessImageLinesWellFormed(recognition: Recognition)
    ensures var r := ProcessImage(recognition);
      && IdsIncreasing(r.lines)
      && forall l | l in r.lines :: |l.text| > 0 && IsTrimmed(l.text) && l.confidence != 0
  {
    if recognition.Recognized? {
      var data := recognition.data;
      var text, lines := RawText(data), LinesField(data);
      if HasLineData(lines) {
        LineDataWellFormed(lines);
      } else if |Trim(text)| > 0 {
        FallbackWellFormed(text, OverallConfidence(data));
      }
    }
  }

  lemma LineDataWellFormed(lines: LinesValue)
    ensures IdsIncreasing(ProcessLines(lines))
    ensures forall l | l in ProcessLines(lines) :: |l.text| > 0 && IsTrimmed(l.text) && l.confidence != 0
  {
    ProcessLinesWellFormed(lines);
    if lines.LineArray? {
      ProcessLinesIds(lines.entries);
    }
  }

  lemma FallbackWellFormed(text: string, overallConfidence: int)
    requires overallConfidence != 0
    ensures IdsIncreasing(CreateLinesFromText(text, overallConfidence))
    ensures forall l | l in CreateLinesFromText(text, overallConfidence) ::
      |l.text| > 0 && IsTrimmed(l.text) && l.confidence != 0
  {
    CreateLinesShape(text, overallConfidence);
    PositionalIdsIncrease(CreateLinesFromText(text, overallConfidence));
  }

  lemma PositionalIdsIncrease(lines: seq<ProcessedLine>)
    requires forall k | 0 <= k < |lines| :: lines[k].id == k
    ensures IdsIncreasing(lines)
  {
  }

  /** The fallback applies no threshold: with no line data, a one-line
      text that is not blank comes back as one record carrying the reported
      confidence, however low (12, say). */
  lemma FallbackKeepsLowConfidence(text: string, confidence: int)
    requires '\n' !in text && !AllWhitespace(text) && confidence != 0
    ensures ProcessImage(Recognized(Some(RecognizerData(Some(text), LineArray([]), Some(confidence))))).lines
      == [ProcessedLine(0, Trim(text), confidence, None)]
  {
    SplitNoSeparator(text, '\n');
    TrimEmptyIff(text);
    var trimmed := Map([text], Trim);
    assert trimmed == [Trim(text)];
    var nonEmpty := Filter(trimmed, (t: string) => |t| > 0);
    assert nonEmpty == [Trim(text)] by {
      assert trimmed[1..] == [];
    }
    assert MapIndexed(nonEmpty, (t: string, index: nat) => ProcessedLine(index, t, confidence, None), 0)
      == [ProcessedLine(0, Trim(text), confidence, None)];
  }
}
