/**
 * `generate_srt_from_whisper` of mkv_transcribe.py: Whisper's segments are
 * filtered (empty text, annotations such as `(MUSIC)` or `[...]`, texts
 * shorter than three characters), the survivors are numbered from 1 and each
 * is written as an SRT block. Times are whole milliseconds.
 */
module WhisperSrt {
  import opened Text
  import opened SrtTime
  import opened SrtFile

  /** A word of a segment, with the `start` and `end` keys it may carry. */
  datatype Word = Word(start: Option<int>, end: Option<int>)

  /**
   * A Whisper segment. `words` is empty both when the key is absent and when
   * the list is empty: the source treats the two alike.
   */
  datatype Segment = Segment(text: string, start: Option<int>, end: Option<int>, words: seq<Word>)

  /** `skip_patterns`, compared against the upper-cased text. */
  const SkipPatterns: seq<string> := [
    "[", "(MUSIC)", "(LAUGHTER)", "(APPLAUSE)", "(CHEERING)",
    "(SILENCE)", "(NOISE)", "(SOUND)", "(MUSIC PLAYING)",
    "(LAUGHING)", "(CLAPPING)", "(WHISTLING)"
  ]

  /** `any(pattern in text_upper for pattern in skip_patterns)`. */
  predicate Annotation(text: string) {
    exists k :: 0 <= k < |SkipPatterns| && Contains(Upper(text), SkipPatterns[k])
  }

  /** A segment that survives the three filters, tested on its stripped text. */
  predicate Kept(seg: Segment) {
    var text := Strip(seg.text);
    text != [] && !Annotation(text) && !(|text| < 3)
  }

  /** The start time: the first word's, else the segment's, else 0. */
  function StartMs(seg: Segment): int {
    if |seg.words| > 0 then seg.words[0].start.GetOr(seg.start.GetOr(0))
    else seg.start.GetOr(0)
  }

  /** The end time: the last word's, else the segment's, else 0. */
  function EndMs(seg: Segment): int {
    if |seg.words| > 0 then seg.words[|seg.words| - 1].end.GetOr(seg.end.GetOr(0))
    else seg.end.GetOr(0)
  }

  /** The block written for a kept segment numbered `index`. */
  function CueFor(seg: Segment, index: nat): Cue {
    Cue(NatToString(index), Rejoin(FormatSrtTime(StartMs(seg)), FormatSrtTime(EndMs(seg))), Strip(seg.text))
  }

  /** The kept segments, in input order. */
  function Speech(segments: seq<Segment>): seq<Segment> {
    if |segments| == 0 then []
    else
      var init := Speech(segments[..|segments| - 1]);
      if Kept(segments[|segments| - 1]) then init + [segments[|segments| - 1]] else init
  }

  /** The blocks written for the segments: each kept segment numbered one past the blocks before it. */
  function SpeechCues(segments: seq<Segment>): seq<Cue> {
    if |segments| == 0 then []
    else
      var init := SpeechCues(segments[..|segments| - 1]);
      var last := segments[|segments| - 1];
      if Kept(last) then init + [CueFor(last, |init| + 1)] else init
  }

  /** `generate_srt_from_whisper(result, output_path)`: the writes it makes to the file, in order. */
  method GenerateSrtFromWhisper(segments: seq<Segment>) returns (writes: seq<string>)
    ensures writes == WritesOf(SpeechCues(segments))
  {
    writes := [];
    var subtitleIndex: nat := 1;
    for i := 0 to |segments|
      invariant writes == WritesOf(SpeechCues(segments[..i]))
      invariant subtitleIndex == |SpeechCues(segments[..i])| + 1
    {
      var segment := segments[i];
      assert segments[..i + 1][..i] == segments[..i];
      var text := Strip(segment.text);
      if text == [] {
        SkippedStep(segments[..i + 1]);
        continue;
      }
      if Annotation(text) {
        SkippedStep(segments[..i + 1]);
        continue;
      }
      if |text| < 3 {
        SkippedStep(segments[..i + 1]);
        continue;
      }
      var startTime, endTime;
      if |segment.words| > 0 {
        startTime := segment.words[0].start.GetOr(segment.start.GetOr(0));
        endTime := segment.words[|segment.words| - 1].end.GetOr(segment.end.GetOr(0));
      } else {
        startTime := segment.start.GetOr(0);
        endTime := segment.end.GetOr(0);
      }
      ghost var before := writes;
      writes := writes + [NatToString(subtitleIndex) + "\n"];
      writes := writes + [FormatSrtTime(startTime) + Arrow + FormatSrtTime(endTime) + "\n"];
      writes := writes + [text + "\n\n"];
      KeptStep(segments[..i + 1], before, subtitleIndex, startTime, endTime, writes);
      subtitleIndex := subtitleIndex + 1;
    }
    assert segments[..|segments|] == segments;
  }

  /** A skipped segment adds no write and no block. */
  lemma SkippedStep(segments: seq<Segment>)
    requires |segments| > 0 && !Kept(segments[|segments| - 1])
    ensures SpeechCues(segments) == SpeechCues(segments[..|segments| - 1])
  {
  }

  /** A kept segment adds its three writes and one block. */
  lemma KeptStep(segments: seq<Segment>, before: seq<string>, index: nat, startTime: int, endTime: int,
                 writes: seq<string>)
    requires |segments| > 0
    requires var last := segments[|segments| - 1];
      && Kept(last) && startTime == StartMs(last) && endTime == EndMs(last)
    requires before == WritesOf(SpeechCues(segments[..|segments| - 1]))
    requires index == |SpeechCues(segments[..|segments| - 1])| + 1
    requires writes == before + [NatToString(index) + "\n"]
      + [FormatSrtTime(startTime) + Arrow + FormatSrtTime(endTime) + "\n"]
      + [Strip(segments[|segments| - 1].text) + "\n\n"]
    ensures writes == WritesOf(SpeechCues(segments))
    ensures index + 1 == |SpeechCues(segments)| + 1
  {
    var last := segments[|segments| - 1];
    var init := SpeechCues(segments[..|segments| - 1]);
    assert SpeechCues(segments) == init + [CueFor(last, index)];
    WritesSnoc(init, CueFor(last, index));
    CueForWrites(last, index, startTime, endTime);
    AppendThree(before, NatToString(index) + "\n", FormatSrtTime(startTime) + Arrow + FormatSrtTime(endTime) + "\n",
      Strip(last.text) + "\n\n");
  }

  lemma AppendThree<T>(xs: seq<T>, a: T, b: T, c: T)
    ensures xs + [a] + [b] + [c] == xs + ([a] + [b] + [c])
  {
  }

  lemma WritesSnoc(cues: seq<Cue>, c: Cue)
    ensures WritesOf(cues + [c]) == WritesOf(cues) + CueWrites(c)
  {
    assert (cues + [c])[..|cues|] == cues;
  }

  lemma CueForWrites(seg: Segment, index: nat, startTime: int, endTime: int)
    requires startTime == StartMs(seg) && endTime == EndMs(seg)
    ensures CueWrites(CueFor(seg, index)) == [NatToString(index) + "\n"]
      + [FormatSrtTime(startTime) + Arrow + FormatSrtTime(endTime) + "\n"]
      + [Strip(seg.text) + "\n\n"]
  {
  }

  // ---------------------------------------------------------------------------
  // Properties
  // ---------------------------------------------------------------------------

  /** Block `k` is the `k`-th kept segment, numbered `k + 1`: the indices run 1..N in order. */
  lemma {:induction false} SpeechCuesNumbered(segments: seq<Segment>)
    ensures |SpeechCues(segments)| == |Speech(segments)|
    ensures forall k :: 0 <= k < |SpeechCues(segments)| ==>
      SpeechCues(segments)[k] == CueFor(Speech(segments)[k], k + 1)
  {
    if |segments| > 0 {
      var init := segments[..|segments| - 1];
      var last := segments[|segments| - 1];
      SpeechCuesNumbered(init);
      if Kept(last) {
        NumberedSnoc(SpeechCues(init), Speech(init), last, CueFor);
      }
    }
  }

  /** Appending one item keeps a numbering `f(items[k], k + 1)` valid; `f` is left abstract. */
  lemma NumberedSnoc<T, U>(numbered: seq<U>, items: seq<T>, last: T, f: (T, nat) -> U)
    requires |numbered| == |items|
    requires forall k :: 0 <= k < |numbered| ==> numbered[k] == f(items[k], k + 1)
    ensures var numbered', items' := numbered + [f(last, |numbered| + 1)], items + [last];
      forall k :: 0 <= k < |numbered'| ==> numbered'[k] == f(items'[k], k + 1)
  {
    var numbered', items' := numbered + [f(last, |numbered| + 1)], items + [last];
    forall k | 0 <= k < |numbered'| ensures numbered'[k] == f(items'[k], k + 1) {
      if k < |numbered| {
        assert numbered'[k] == numbered[k] && items'[k] == items[k];
      }
    }
  }

  /** The indices written are exactly 1..N, in order. */
  lemma IndicesCount(segments: seq<Segment>)
    ensures forall k :: 0 <= k < |SpeechCues(segments)| ==>
      SpeechCues(segments)[k].index == NatToString(k + 1)
  {
    SpeechCuesNumbered(segments);
  }

  /** The filter keeps input order: the kept segments of a concatenation are concatenated. */
  lemma {:induction false} SpeechAppend(a: seq<Segment>, b: seq<Segment>)
    ensures Speech(a + b) == Speech(a) + Speech(b)
    decreases |b|
  {
    if |b| == 0 {
      assert a + b == a;
    } else {
      var b' := b[..|b| - 1];
      assert (a + b)[..|a + b| - 1] == a + b';
      assert (a + b)[|a + b| - 1] == b[|b| - 1];
      SpeechAppend(a, b');
    }
  }

  /** A segment is kept exactly when it is an input segment that passes the filters. */
  lemma {:induction false} SpeechMembers(segments: seq<Segment>)
    ensures forall seg :: seg in Speech(segments) <==> seg in segments && Kept(seg)
  {
    if |segments| > 0 {
      var init := segments[..|segments| - 1];
      SpeechMembers(init);
      assert segments == init + [segments[|segments| - 1]];
    }
  }

  /**
   * No block has an empty text, a text shorter than three characters, a text
   * with surrounding whitespace, or a text holding an annotation pattern.
   */
  lemma TextsAreSpeech(segments: seq<Segment>)
    ensures forall c :: c in SpeechCues(segments) ==>
      |c.text| >= 3 && IsStripped(c.text) && !Annotation(c.text)
  {
    SpeechCuesNumbered(segments);
    SpeechMembers(segments);
    forall c | c in SpeechCues(segments)
      ensures |c.text| >= 3 && IsStripped(c.text) && !Annotation(c.text)
    {
      var k :| 0 <= k < |SpeechCues(segments)| && SpeechCues(segments)[k] == c;
      assert Speech(segments)[k] in Speech(segments);
    }
  }

  /**
   * The timestamp of a block splits at the arrow into two times that read
   * back as the first word's start and the last word's end when the segment
   * has words, and as the segment's own times otherwise.
   */
  lemma TimestampReadsBack(seg: Segment, index: nat)
    ensures var parts := Split(CueFor(seg, index).timestamp, Arrow);
      && |parts| == 2
      && ParseEnd(parts[0]) == Ms(if |seg.words| > 0 && seg.words[0].start.Some? then seg.words[0].start.value
                                  else seg.start.GetOr(0))
      && ParseEnd(parts[1]) == Ms(if |seg.words| > 0 && seg.words[|seg.words| - 1].end.Some?
                                  then seg.words[|seg.words| - 1].end.value
                                  else seg.end.GetOr(0))
  {
    FormatSrtTimeNoArrow(StartMs(seg));
    RejoinShifted(FormatSrtTime(StartMs(seg)), EndMs(seg));
    ParseFormatSrtTime(StartMs(seg));
  }

  /** The block of a kept segment whose text has no blank line is carried unchanged by the file format. */
  lemma KeptWellFormed(seg: Segment, index: nat)
    requires Kept(seg) && NoBlankLine(Strip(seg.text))
    ensures WellFormed(CueFor(seg, index))
  {
    IndexLine(index);
    TimestampOneLine(StartMs(seg), EndMs(seg));
  }

  /** An index written by the generator is a single line starting with a digit. */
  lemma IndexLine(index: nat)
    ensures |NatToString(index)| > 0 && !IsSpace(NatToString(index)[0]) && '\n' !in NatToString(index)
  {
    assert IsDigit(NatToString(index)[0]);
  }

  lemma TimestampOneLine(startTime: int, endTime: int)
    ensures var t := Rejoin(FormatSrtTime(startTime), FormatSrtTime(endTime)); |t| > 0 && '\n' !in t
  {
    FormatSrtTimeOneLine(startTime);
    FormatSrtTimeOneLine(endTime);
    RejoinOneLine(FormatSrtTime(startTime), FormatSrtTime(endTime));
  }

  /**
   * Reading the generated file back as `translate_srt_content` does gives the
   * blocks written, when no kept text holds a blank line.
   */
  lemma GeneratedReadsBack(segments: seq<Segment>)
    requires forall seg :: seg in segments && Kept(seg) ==> NoBlankLine(Strip(seg.text))
    ensures ParseSrt(Concat(WritesOf(SpeechCues(segments)))) == SpeechCues(segments)
  {
    var cues := SpeechCues(segments);
    forall k | 0 <= k < |cues| ensures WellFormed(cues[k]) {
      BlockWellFormed(segments, k);
    }
    SaveThenParse(cues);
  }

  lemma BlockWellFormed(segments: seq<Segment>, k: nat)
    requires forall seg :: seg in segments && Kept(seg) ==> NoBlankLine(Strip(seg.text))
    requires k < |SpeechCues(segments)|
    ensures WellFormed(SpeechCues(segments)[k])
  {
    SpeechCuesNumbered(segments);
    SpeechMembers(segments);
    var seg := Speech(segments)[k];
    assert seg in Speech(segments);
    KeptWellFormed(seg, k + 1);
  }
}
