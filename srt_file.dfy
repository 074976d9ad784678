/**
 * SubRip files as `mkv_transcribe.py` writes and reads them: the writer
 * `save_translated_srt` (three writes per cue) and the block parser at the
 * start of `translate_srt_content` (`content.strip().split('\n\n')`, then
 * index, timestamp and text from each block of at least three lines).
 */
module SrtFile {
  import opened Text

  /** One subtitle block: the `index`, `timestamp` and `text` entries of a segment. */
  datatype Cue = Cue(index: string, timestamp: string, text: string)

  const BlankLine := "\n\n"

  // ---------------------------------------------------------------------------
  // Writing
  // ---------------------------------------------------------------------------

  /** The three `f.write` calls for one cue. */
  function CueWrites(c: Cue): seq<string> {
    [c.index + "\n", c.timestamp + "\n", c.text + "\n\n"]
  }

  /** Every `f.write` call for the cues, in order. */
  function WritesOf(cues: seq<Cue>): (r: seq<string>)
    ensures |r| == 3 * |cues|
  {
    if |cues| == 0 then [] else WritesOf(cues[..|cues| - 1]) + CueWrites(cues[|cues| - 1])
  }

  /** `save_translated_srt(segments, path)`: the writes it makes to the file, in order. */
  method SaveTranslatedSrt(segments: seq<Cue>) returns (writes: seq<string>)
    ensures writes == WritesOf(segments)
  {
    writes := [];
    var i := 0;
    while i < |segments|
      invariant 0 <= i <= |segments|
      invariant writes == WritesOf(segments[..i])
    {
      var seg := segments[i];
      writes := writes + [seg.index + "\n"];
      writes := writes + [seg.timestamp + "\n"];
      writes := writes + [seg.text + "\n\n"];
      assert segments[..i + 1][..i] == segments[..i];
      i := i + 1;
    }
    assert segments[..i] == segments;
  }

  /** The block of a cue as it stands between blank lines. */
  function BlockOf(c: Cue): string {
    c.index + "\n" + (c.timestamp + "\n" + c.text)
  }

  function BlocksOf(cues: seq<Cue>): (r: seq<string>)
    ensures |r| == |cues|
    ensures forall k :: 0 <= k < |cues| ==> r[k] == BlockOf(cues[k])
  {
    if |cues| == 0 then [] else [BlockOf(cues[0])] + BlocksOf(cues[1..])
  }

  /** The file text: each block followed by a blank line. */
  function SrtText(cues: seq<Cue>): string {
    if |cues| == 0 then "" else Join(BlocksOf(cues), BlankLine) + BlankLine
  }

  // ---------------------------------------------------------------------------
  // Reading
  // ---------------------------------------------------------------------------

  /** `content.strip().split('\n\n')`. */
  function Blocks(content: string): (r: seq<string>)
    ensures |r| >= 1
  {
    Split(Strip(content), BlankLine)
  }

  /**
   * One block: its lines are `block.split('\n')`; a block of at least three
   * lines gives its first line as the index, its second as the timestamp and
   * the rest, joined by newlines, as the text; a shorter block is skipped.
   */
  function ParseBlock(block: string): (r: Option<Cue>)
    ensures r.Some? <==> |Split(block, "\n")| >= 3
  {
    var lines := Split(block, "\n");
    if |lines| >= 3 then Some(Cue(lines[0], lines[1], Join(lines[2..], "\n"))) else None
  }

  /** The cues of the blocks that have at least three lines, in order. */
  function ParseBlocks(blocks: seq<string>): seq<Cue> {
    if |blocks| == 0 then []
    else
      match ParseBlock(blocks[0])
      case Some(c) => [c] + ParseBlocks(blocks[1..])
      case None => ParseBlocks(blocks[1..])
  }

  /** The segments `translate_srt_content` reads from a file's text. */
  function ParseSrt(content: string): seq<Cue> {
    ParseBlocks(Blocks(content))
  }

  /** Parsing blocks one group at a time gives the same cues as parsing them all. */
  lemma {:induction false} ParseBlocksAppend(a: seq<string>, b: seq<string>)
    ensures ParseBlocks(a + b) == ParseBlocks(a) + ParseBlocks(b)
  {
    if |a| == 0 {
      assert a + b == b;
    } else {
      assert (a + b)[0] == a[0];
      assert (a + b)[1..] == a[1..] + b;
      ParseBlocksAppend(a[1..], b);
    }
  }

  // ---------------------------------------------------------------------------
  // Round trip
  // ---------------------------------------------------------------------------

  /** `s` holds no `"\n\n"`. */
  predicate NoBlankLine(s: string) {
    forall i :: 0 <= i < |s| - 1 ==> !(s[i] == '\n' && s[i + 1] == '\n')
  }

  /**
   * A cue the file format carries unchanged: index and timestamp are single
   * non-empty lines (the index not starting with whitespace, which `strip`
   * would remove from the first block), and the text is non-empty, has no
   * surrounding whitespace and no blank line.
   */
  predicate WellFormed(c: Cue) {
    && |c.index| > 0 && !IsSpace(c.index[0]) && '\n' !in c.index
    && |c.timestamp| > 0 && '\n' !in c.timestamp
    && |c.text| > 0 && IsStripped(c.text) && NoBlankLine(c.text)
  }

  /** The file text is the concatenation of the writes. */
  lemma {:induction false} WritesSpellText(cues: seq<Cue>)
    ensures Concat(WritesOf(cues)) == SrtText(cues)
  {
    if |cues| > 0 {
      var init, c := cues[..|cues| - 1], cues[|cues| - 1];
      assert cues == init + [c];
      WritesSpellText(init);
      ConcatAppend(WritesOf(init), CueWrites(c));
      CueWritesText(c);
      BlocksOfSnoc(init, c);
      if |init| == 0 {
        assert BlocksOf(cues) == [BlockOf(c)];
        assert Concat(WritesOf(init)) == "";
      } else {
        JoinSnoc(BlocksOf(init), BlankLine, BlockOf(c));
      }
    }
  }

  lemma CueWritesText(c: Cue)
    ensures Concat(CueWrites(c)) == BlockOf(c) + BlankLine
  {
    var a, b, d := c.index + "\n", c.timestamp + "\n", c.text + "\n\n";
    assert CueWrites(c)[1..] == [b, d];
    assert [b, d][1..] == [d];
    assert [d][1..] == [];
    assert Concat([d]) == d;
    assert Concat([b, d]) == b + d;
    assert a + (b + d) == BlockOf(c) + BlankLine;
  }

  lemma BlocksOfSnoc(cues: seq<Cue>, c: Cue)
    ensures BlocksOf(cues + [c]) == BlocksOf(cues) + [BlockOf(c)]
  {
  }

  /** An occurrence of the blank line is two newlines in a row. */
  lemma OccursBlankLine(s: string, i: nat)
    ensures OccursAt(s, BlankLine, i) <==> i + 2 <= |s| && s[i] == '\n' && s[i + 1] == '\n'
  {
    if i + 2 <= |s| && s[i] == '\n' && s[i + 1] == '\n' {
      assert s[i..i + 2] == BlankLine;
    }
  }

  /** The block of a well-formed cue has no blank line and ends in text. */
  lemma BlockNoBlankLine(c: Cue)
    requires WellFormed(c)
    ensures NoBlankLine(BlockOf(c))
    ensures BlockOf(c)[|BlockOf(c)| - 1] == c.text[|c.text| - 1]
  {
    var b := BlockOf(c);
    var n, m := |c.index|, |c.timestamp|;
    assert b[n] == '\n' && b[n + 1 + m] == '\n';
    assert b[n + 1] == c.timestamp[0];
    assert b[n + 2 + m] == c.text[0];
    forall i | 0 <= i < |b| - 1 ensures !(b[i] == '\n' && b[i + 1] == '\n') {
      if i < n {
        assert b[i] == c.index[i];
      } else if n < i < n + 1 + m {
        assert b[i] == c.timestamp[i - n - 1];
      } else if i > n + 1 + m {
        assert b[i] == c.text[i - n - 2 - m] && b[i + 1] == c.text[i + 1 - n - 2 - m];
      }
    }
  }

  /** The block of a well-formed cue is cut out whole by a split on blank lines. */
  lemma BlockSeparable(c: Cue)
    requires WellFormed(c)
    ensures Separable(BlockOf(c), BlankLine)
  {
    var b := BlockOf(c);
    BlockNoBlankLine(c);
    forall i: nat | i < |b| ensures !OccursAt(b + BlankLine, BlankLine, i) {
      OccursBlankLine(b + BlankLine, i);
      assert (b + BlankLine)[i] == b[i];
      if i < |b| - 1 {
        assert (b + BlankLine)[i + 1] == b[i + 1];
      }
    }
  }

  /** The lines of a well-formed block: index, timestamp, then the lines of the text. */
  lemma BlockLines(c: Cue)
    requires WellFormed(c)
    ensures Split(BlockOf(c), "\n") == [c.index, c.timestamp] + Split(c.text, "\n")
  {
    SeparableByChar(c.index, '\n');
    SplitCons(c.index, "\n", c.timestamp + "\n" + c.text);
    TimestampLine(c.timestamp, c.text);
    assert [c.index] + ([c.timestamp] + Split(c.text, "\n")) == [c.index, c.timestamp] + Split(c.text, "\n");
  }

  lemma TimestampLine(timestamp: string, text: string)
    requires '\n' !in timestamp
    ensures Split(timestamp + "\n" + text, "\n") == [timestamp] + Split(text, "\n")
  {
    SeparableByChar(timestamp, '\n');
    SplitCons(timestamp, "\n", text);
  }

  /** Splitting a well-formed block into lines gives back its cue. */
  lemma ParseBlockOf(c: Cue)
    requires WellFormed(c)
    ensures ParseBlock(BlockOf(c)) == Some(c)
  {
    BlockLines(c);
    var lines := Split(BlockOf(c), "\n");
    assert lines[2..] == Split(c.text, "\n");
    JoinSplit(c.text, "\n");
  }

  lemma {:induction false} ParseBlocksOf(cues: seq<Cue>)
    requires forall k :: 0 <= k < |cues| ==> WellFormed(cues[k])
    ensures ParseBlocks(BlocksOf(cues)) == cues
  {
    if |cues| > 0 {
      var blocks := BlocksOf(cues);
      ParseBlockOf(cues[0]);
      assert blocks[1..] == BlocksOf(cues[1..]);
      assert ParseBlocks(blocks) == [cues[0]] + ParseBlocks(blocks[1..]);
      ParseBlocksOf(cues[1..]);
      assert cues == [cues[0]] + cues[1..];
    }
  }

  /** `strip` takes off the trailing blank line and nothing else. */
  lemma StripTrailingBlankLine(s: string)
    requires |s| > 0 && !IsSpace(s[0]) && !IsSpace(s[|s| - 1])
    ensures Strip(s + BlankLine) == s
  {
    var t := s + BlankLine;
    assert LStrip(t) == t;
    var r := RStrip(t);
    assert t[|s| - 1] == s[|s| - 1];
    assert |r| >= |s|;
    assert r[|r| - 1] == t[|r| - 1];
    assert forall j :: |s| <= j < |t| ==> t[j] == '\n';
    assert r == t[..|s|] == s;
  }

  /** The blocks read from a written file are the blocks of the cues written. */
  lemma BlocksOfText(cues: seq<Cue>)
    requires |cues| > 0
    requires forall k :: 0 <= k < |cues| ==> WellFormed(cues[k])
    ensures Blocks(SrtText(cues)) == BlocksOf(cues)
  {
    var blocks := BlocksOf(cues);
    forall k | 0 <= k < |blocks| ensures Separable(blocks[k], BlankLine) {
      BlockSeparable(cues[k]);
    }
    BlockNoBlankLine(cues[|cues| - 1]);
    JoinEnds(blocks, BlankLine);
    StripTrailingBlankLine(Join(blocks, BlankLine));
    SplitJoin(blocks, BlankLine);
  }

  /**
   * Reading back what `save_translated_srt` wrote gives the cues written,
   * whenever every cue is well formed.
   */
  lemma SaveThenParse(cues: seq<Cue>)
    requires forall k :: 0 <= k < |cues| ==> WellFormed(cues[k])
    ensures ParseSrt(Concat(WritesOf(cues))) == cues
  {
    WritesSpellText(cues);
    if |cues| == 0 {
      ParseEmpty();
    } else {
      BlocksOfText(cues);
      ParseBlocksOf(cues);
    }
  }

  /** An empty file holds no cues. */
  lemma ParseEmpty()
    ensures ParseSrt("") == []
  {
    assert Strip("") == "";
    assert Split("", BlankLine) == [""];
    assert Split("", "\n") == [""];
  }
}
