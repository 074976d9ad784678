/**
 * How the web server decides the language of a subtitle file it lists:
 * from the file name when it reads `name.xx.srt` with a two-letter `xx`,
 * and otherwise by running language detection on a sample of the text
 * lines. The detector enters as a function; reading and decoding the file
 * are not part of the model, so the content is given as a string.
 */
module SrtInfo {
  import opened Text
  import opened Paths

  /** `filename.rsplit('.', 2)`: at most two cuts, at the last two dots. */
  function RSplit2(s: string): (r: seq<string>)
    ensures 1 <= |r| <= 3
    ensures Join(r, ".") == s
    ensures forall k :: 1 <= k < |r| ==> '.' !in r[k]
    ensures |r| < 3 ==> '.' !in r[0]
  {
    var last := RFind(s, '.');
    if last < 0 then [s]
    else
      var left := s[..last];
      var before := RFind(left, '.');
      CutAt(s, last);
      if before < 0 then [left, s[last + 1..]]
      else
        CutAt(left, before);
        [left[..before], left[before + 1..], s[last + 1..]]
  }

  /** Cutting at a dot and joining back with a dot gives the string again. */
  lemma CutAt(s: string, i: int)
    requires 0 <= i < |s| && s[i] == '.'
    ensures s == s[..i] + "." + s[i + 1..]
    ensures Join([s[..i], s[i + 1..]], ".") == s
    ensures forall a :: Join([a, s[..i], s[i + 1..]], ".") == a + "." + s
  {
    assert s == s[..i] + "." + s[i + 1..];
    assert Join([s[..i], s[i + 1..]], ".") == s by {
      assert [s[..i], s[i + 1..]][1..] == [s[i + 1..]];
    }
    forall a ensures Join([a, s[..i], s[i + 1..]], ".") == a + "." + s {
      assert [a, s[..i], s[i + 1..]][1..] == [s[..i], s[i + 1..]];
    }
  }

  /** The language code in the file name: the second-to-last part when there are three and it has two characters. */
  function NameLanguage(filename: string): (r: Option<string>)
    ensures r.Some? ==> |r.value| == 2 && '.' !in r.value
  {
    var parts := RSplit2(filename);
    if |parts| >= 3 && |parts[|parts| - 2]| == 2 then Some(parts[|parts| - 2]) else None
  }

  /** A line that goes into the detection sample: not blank, not a cue number, not a timing line. */
  predicate IsTextLine(line: string) {
    line != [] && !IsDigitString(line) && !Contains(line, "-->")
  }

  /** The stripped text lines among `lines`, in order. */
  function TextLines(lines: seq<string>): seq<string> {
    if |lines| == 0 then []
    else
      TextLines(lines[..|lines| - 1])
        + (if IsTextLine(Strip(lines[|lines| - 1])) then [Strip(lines[|lines| - 1])] else [])
  }

  /** The loop of `read_srt_file` over `content.split('\n')`. */
  method CollectTextLines(content: string) returns (textLines: seq<string>)
    ensures textLines == TextLines(Split(content, "\n"))
  {
    var lines := Split(content, "\n");
    textLines := [];
    for i := 0 to |lines|
      invariant textLines == TextLines(lines[..i])
    {
      assert lines[..i + 1][..i] == lines[..i];
      var line := Strip(lines[i]);
      if IsTextLine(line) {
        textLines := textLines + [line];
      }
    }
    assert lines[..|lines|] == lines;
  }

  const SampleLines := 20

  /** `' '.join(text_lines[:20])` over the given lines. */
  function SampleOf(lines: seq<string>): string {
    var textLines := TextLines(lines);
    Join(textLines[..if |textLines| < SampleLines then |textLines| else SampleLines], " ")
  }

  /** The detection sample of a file's content. */
  function Sample(content: string): string {
    SampleOf(Split(content, "\n"))
  }

  /** The language `read_srt_file` reports for the file at `path` holding `content`. */
  function SrtLanguage(path: string, content: string, detect: string -> string): string {
    match NameLanguage(Basename(path))
    case Some(code) => code
    case None => detect(Sample(content))
  }

  // ---------------------------------------------------------------------------
  // Properties
  // ---------------------------------------------------------------------------

  /** Every sample line passes the filter and is the stripped form of an input line. */
  lemma {:induction false} TextLinesSound(lines: seq<string>)
    ensures forall x :: x in TextLines(lines) ==>
      IsTextLine(x) && IsStripped(x) && exists k :: 0 <= k < |lines| && x == Strip(lines[k])
  {
    if |lines| > 0 {
      var init := lines[..|lines| - 1];
      TextLinesSound(init);
      forall x | x in TextLines(init) ensures exists k :: 0 <= k < |lines| && x == Strip(lines[k]) {
        var k :| 0 <= k < |init| && x == Strip(init[k]);
        assert lines[k] == init[k];
      }
    }
  }

  /** Every input line whose stripped form passes the filter is in the sample lines. */
  lemma {:induction false} TextLinesComplete(lines: seq<string>)
    ensures forall k :: 0 <= k < |lines| && IsTextLine(Strip(lines[k])) ==> Strip(lines[k]) in TextLines(lines)
  {
    if |lines| > 0 {
      var init := lines[..|lines| - 1];
      TextLinesComplete(init);
      forall k | 0 <= k < |lines| - 1 && IsTextLine(Strip(lines[k])) ensures Strip(lines[k]) in TextLines(lines) {
        assert lines[k] == init[k];
      }
    }
  }

  /** The filter keeps order: the lines of a concatenation are the lines of each part, in turn. */
  lemma {:induction false} TextLinesAppend(a: seq<string>, b: seq<string>)
    ensures TextLines(a + b) == TextLines(a) + TextLines(b)
    decreases |b|
  {
    if |b| == 0 {
      assert a + b == a;
    } else {
      var init := b[..|b| - 1];
      assert (a + b)[..|a + b| - 1] == a + init;
      TextLinesAppend(a, init);
    }
  }

  /** A file with at most 20 text lines is sampled whole. */
  lemma ShortSampleIsWhole(lines: seq<string>)
    requires |TextLines(lines)| <= SampleLines
    ensures SampleOf(lines) == Join(TextLines(lines), " ")
  {
    assert TextLines(lines)[..|TextLines(lines)|] == TextLines(lines);
  }

  /** Once 20 text lines have been seen, the lines after them do not change the sample. */
  lemma SampleIgnoresLaterLines(a: seq<string>, b: seq<string>)
    requires |TextLines(a)| >= SampleLines
    ensures SampleOf(a + b) == SampleOf(a)
  {
    TextLinesAppend(a, b);
    assert (TextLines(a) + TextLines(b))[..SampleLines] == TextLines(a)[..SampleLines];
  }

  /** The last dot of `x + "." + code + ".srt"` is the one before `srt`, and the one before it precedes `code`. */
  lemma RSplitSrtName(x: string, code: string)
    requires '.' !in code
    ensures RSplit2(x + "." + code + ".srt") == [x, code, "srt"]
  {
    var s := x + "." + code + ".srt";
    var last := RFind(s, '.');
    assert s[|x| + 1 + |code|] == '.';
    forall k | |x| + 1 + |code| < k < |s| ensures s[k] != '.' {
      assert s[k] == "srt"[k - |x| - 2 - |code|];
    }
    assert last == |x| + 1 + |code|;
    var left := s[..last];
    assert left == x + "." + code;
    var before := RFind(left, '.');
    assert left[|x|] == '.';
    forall k | |x| < k < |left| ensures left[k] != '.' {
      assert left[k] == code[k - |x| - 1];
    }
    assert before == |x|;
    assert left[..before] == x;
    assert left[before + 1..] == code;
    assert s[last + 1..] == "srt";
  }

  /** A file named `stem.xx.srt` with a two-letter code `xx` is taken to be in language `xx`, whatever its content. */
  lemma NameGivesLanguage(dir: string, stem: string, code: string, content: string, detect: string -> string)
    requires |code| == 2 && '.' !in code && '/' !in code && '/' !in stem
    ensures SrtLanguage(JoinPath(dir, stem + "." + code + ".srt"), content, detect) == code
  {
    var name := stem + "." + code + ".srt";
    assert '/' !in name by {
      assert forall k :: 0 <= k < |name| ==> name[k] in stem || name[k] in code || name[k] in ".srt";
    }
    BasenameOfJoin(dir, name);
    RSplitSrtName(stem, code);
  }

  lemma RSplitPlainName(stem: string)
    requires '.' !in stem
    ensures RSplit2(stem + ".srt") == [stem, "srt"]
  {
    var s := stem + ".srt";
    var last := RFind(s, '.');
    assert s[|stem|] == '.';
    forall k | |stem| < k < |s| ensures s[k] != '.' {
      assert s[k] == "srt"[k - |stem| - 1];
    }
    assert last == |stem|;
    assert s[..last] == stem;
    assert s[last + 1..] == "srt";
  }

  /** A file whose name has no dot before `.srt` is detected from its sample. */
  lemma PlainNameDetects(dir: string, stem: string, content: string, detect: string -> string)
    requires '.' !in stem && '/' !in stem
    ensures SrtLanguage(JoinPath(dir, stem + ".srt"), content, detect) == detect(Sample(content))
  {
    var name := stem + ".srt";
    assert '/' !in name by {
      assert forall k :: 0 <= k < |name| ==> name[k] in stem || name[k] in ".srt";
    }
    BasenameOfJoin(dir, name);
    RSplitPlainName(stem);
  }
}
