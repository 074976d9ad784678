/**
 * SubRip times: `format_srt_time` and `adjust_timestamp_for_length` of
 * mkv_transcribe.py, with times held as whole milliseconds.
 */
module SrtTime {
  import opened Text

  const Arrow := " --> "

  /** A time split into the fields of `HH:MM:SS,mmm`; only the hours can be negative. */
  datatype Clock = Clock(hours: int, minutes: nat, seconds: nat, millis: nat)

  /** `(hours * 3600 + minutes * 60 + seconds) * 1000 + milliseconds`. */
  function FieldsMs(hours: int, minutes: int, seconds: int, millis: int): int {
    (hours * 3600 + minutes * 60 + seconds) * 1000 + millis
  }

  function TotalMs(c: Clock): int {
    FieldsMs(c.hours, c.minutes, c.seconds, c.millis)
  }

  /**
   * The fields of a time as the floor divisions and remainders of the source
   * compute them: the fields below the hours are always in range and the
   * fields recombine to the time.
   */
  function ClockOf(ms: int): (c: Clock)
    ensures c.minutes < 60 && c.seconds < 60 && c.millis < 1000
    ensures TotalMs(c) == ms
    ensures ms >= 0 ==> c.hours >= 0
  {
    var hours := ms / 3600000;
    var rest := ms % 3600000;
    Clock(hours, rest / 60000, (rest % 60000) / 1000, rest % 1000)
  }

  /** `f"{hours:02d}:{minutes:02d}:{seconds:02d},{milliseconds:03d}"`. */
  function FormatClock(c: Clock): string {
    FormatInt(c.hours, 2) + ":" + FormatInt(c.minutes, 2) + ":" + FormatInt(c.seconds, 2)
    + "," + FormatInt(c.millis, 3)
  }

  /** `format_srt_time`, for a time given in milliseconds. */
  function FormatSrtTime(ms: int): string {
    FormatClock(ClockOf(ms))
  }

  /** How the end-time parse of `adjust_timestamp_for_length` ends. */
  datatype EndParse =
    | NotThreeFields      // `end_time.split(':')` does not give three fields: end kept
    | Unparsable          // an `int(...)` raised: the whole timestamp is returned
    | Ms(total: int)      // the end time in milliseconds

  /** The parse of the end time (mkv_transcribe.py lines 262-271). */
  function ParseEnd(end: string): EndParse {
    var fields := Split(end, ":");
    if |fields| != 3 then NotThreeFields else ParseFields(fields[0], fields[1], fields[2])
  }

  /** `int()` of the hours, the minutes and the `SS[,mmm]` field. */
  function ParseFields(hours: string, minutes: string, secMs: string): EndParse {
    var sm := Split(secMs, ",");
    var h := ParseInt(hours);
    var m := ParseInt(minutes);
    var s := ParseInt(sm[0]);
    var ms := if |sm| == 2 then ParseInt(sm[1]) else Some(0);
    if h.None? || m.None? || s.None? || ms.None? then Unparsable
    else Ms(FieldsMs(h.value, m.value, s.value, ms.value))
  }

  /**
   * The extension of the end time, or None when the translation is not more
   * than 5% longer. The float ratio `min(t / max(o, 1), 2.0)` and its test
   * `> 1.05` are stated on integers.
   */
  function ExtensionMs(originalLength: nat, translatedLength: nat): (r: Option<nat>)
    ensures r.Some? <==> 100 * translatedLength > 105 * (if originalLength < 1 then 1 else originalLength)
    ensures r.Some? ==> 0 < r.value <= 2000
    ensures r.Some? && translatedLength >= 2 * originalLength ==> r.value == 2000
  {
    var o := if originalLength < 1 then 1 else originalLength;
    if 100 * translatedLength > 105 * o then
      var e := 2000 * (translatedLength - o) / o;
      ExtensionPositive(translatedLength, o);
      Some(if e < 2000 then e else 2000)
    else None
  }

  /** The integer facts behind the bounds of `ExtensionMs`. */
  lemma ExtensionPositive(t: nat, o: nat)
    requires o >= 1 && 100 * t > 105 * o
    ensures t > o
    ensures 2000 * (t - o) / o >= 1
    ensures t >= 2 * o ==> 2000 * (t - o) / o >= 2000
  {
    var a := 2000 * (t - o);
    assert 100 * (t - o) > 5 * o;
    assert a > 100 * o >= o;
    AtLeastQuotient(a, o, 1);
    if t >= 2 * o {
      assert t - o >= o;
      assert a >= 2000 * o;
      AtLeastQuotient(a, o, 2000);
    }
  }

  lemma AtLeastQuotient(a: int, o: int, b: int)
    requires o > 0 && a >= b * o
    ensures a / o >= b
  {
    var q := a / o;
    assert q * o <= a < q * o + o;
    MulGap(q, b, o);
  }

  lemma MulGap(x: int, y: int, o: int)
    requires o > 0
    ensures x < y ==> x * o + o <= y * o
  {
    if x < y {
      MulAtLeast(y - x, o);
      assert (y - x) * o == y * o - x * o;
    }
  }

  lemma MulAtLeast(d: int, o: int)
    requires d >= 1 && o > 0
    ensures d * o >= o
  {
  }

  /** `adjust_timestamp_for_length(timestamp, original_length, translated_length)`. */
  function AdjustTimestamp(timestamp: string, originalLength: nat, translatedLength: nat): string {
    ExtendEnd(timestamp, Split(timestamp, Arrow), ExtensionMs(originalLength, translatedLength))
  }

  /** What becomes of the end time of `start --> end`. */
  datatype EndChange =
    | Kept                // the end is written back as it was
    | Failed              // an `int(...)` raised: the whole timestamp is returned
    | Moved(ms: int)      // the end is rewritten as this time

  /**
   * The end-time decision of `adjust_timestamp_for_length`: kept when there is
   * no extension or the end is not three `:`-separated fields, otherwise
   * moved by the extension, or failed when a field does not parse.
   */
  function NewEnd(end: string, extension: Option<nat>): EndChange {
    match extension
    case None => Kept
    case Some(ext) =>
      match ParseEnd(end)
      case NotThreeFields => Kept
      case Unparsable => Failed
      case Ms(total) => Moved(total + ext)
  }

  /**
   * The rewrite of `start --> end` that `adjust_timestamp_for_length` makes,
   * given the pieces of `timestamp.split(' --> ')` and the extension.
   */
  function ExtendEnd(timestamp: string, parts: seq<string>, extension: Option<nat>): string {
    if |parts| != 2 then timestamp
    else
      match NewEnd(parts[1], extension)
      case Kept => Rejoin(parts[0], parts[1])
      case Failed => timestamp
      case Moved(ms) => Rejoin(parts[0], FormatSrtTime(ms))
  }

  /** `f"{start} --> {end}"`. */
  function Rejoin(start: string, end: string): string {
    start + Arrow + end
  }

  // ---------------------------------------------------------------------------
  // Properties
  // ---------------------------------------------------------------------------

  /** A formatted time holds no ':' or ',' inside its fields and no space. */
  lemma FormatIntNoPunctuation(n: int, width: nat)
    ensures ':' !in FormatInt(n, width) && ',' !in FormatInt(n, width) && ' ' !in FormatInt(n, width)
  {
    FormatIntChars(n, width);
  }

  /** The three `:`-separated fields of a formatted time. */
  lemma SplitClockColons(c: Clock)
    ensures Split(FormatClock(c), ":") ==
      [FormatInt(c.hours, 2), FormatInt(c.minutes, 2), FormatInt(c.seconds, 2) + "," + FormatInt(c.millis, 3)]
  {
    var h, m, s, mi := FormatInt(c.hours, 2), FormatInt(c.minutes, 2),
                       FormatInt(c.seconds, 2), FormatInt(c.millis, 3);
    FormatIntNoPunctuation(c.hours, 2);
    FormatIntNoPunctuation(c.minutes, 2);
    FormatIntNoPunctuation(c.seconds, 2);
    FormatIntNoPunctuation(c.millis, 3);
    var last := s + "," + mi;
    assert ':' !in last by {
      forall k | 0 <= k < |last| ensures last[k] != ':' {
        if k < |s| { assert last[k] == s[k]; }
        else if k > |s| { assert last[k] == mi[k - |s| - 1]; }
      }
    }
    SeparableByChar(h, ':');
    SeparableByChar(m, ':');
    SeparableByChar(last, ':');
    assert [h, m, last][1..] == [m, last] && [m, last][1..] == [last];
    assert Join([m, last], ":") == m + ":" + last;
    assert Join([h, m, last], ":") == h + ":" + Join([m, last], ":");
    assert Join([h, m, last], ":") == FormatClock(c);
    SplitJoin([h, m, last], ":");
  }

  /** The seconds and milliseconds of a formatted time. */
  lemma SplitClockComma(c: Clock)
    ensures Split(FormatInt(c.seconds, 2) + "," + FormatInt(c.millis, 3), ",") ==
      [FormatInt(c.seconds, 2), FormatInt(c.millis, 3)]
  {
    var s, mi := FormatInt(c.seconds, 2), FormatInt(c.millis, 3);
    FormatIntNoPunctuation(c.seconds, 2);
    FormatIntNoPunctuation(c.millis, 3);
    SeparableByChar(s, ',');
    SeparableByChar(mi, ',');
    assert [s, mi][1..] == [mi];
    assert Join([s, mi], ",") == s + "," + mi;
    SplitJoin([s, mi], ",");
  }

  /** The end-time parse reads back every formatted clock. */
  lemma ParseFormatClock(c: Clock)
    ensures ParseEnd(FormatClock(c)) == Ms(TotalMs(c))
  {
    var h, m, s, mi := FormatInt(c.hours, 2), FormatInt(c.minutes, 2),
                       FormatInt(c.seconds, 2), FormatInt(c.millis, 3);
    SplitClockColons(c);
    assert ParseEnd(FormatClock(c)) == ParseFields(h, m, s + "," + mi);
    SplitClockComma(c);
    ParseFormatInt(c.hours, 2);
    ParseFormatInt(c.minutes, 2);
    ParseFormatInt(c.seconds, 2);
    ParseFormatInt(c.millis, 3);
    var sm := Split(s + "," + mi, ",");
    assert sm[0] == s && sm[1] == mi && |sm| == 2;
    assert ParseFields(h, m, s + "," + mi) == Ms(TotalMs(c));
  }

  /** The end-time parse reads back every formatted time. */
  lemma ParseFormatSrtTime(ms: int)
    ensures ParseEnd(FormatSrtTime(ms)) == Ms(ms)
  {
    ParseFormatClock(ClockOf(ms));
  }

  /** A two-piece split of a timestamp rebuilds it. */
  lemma RejoinTwo(timestamp: string)
    requires |Split(timestamp, Arrow)| == 2
    ensures Rejoin(Split(timestamp, Arrow)[0], Split(timestamp, Arrow)[1]) == timestamp
  {
    JoinSplit(timestamp, Arrow);
  }

  /**
   * The timestamp comes back unchanged when it is not `start --> end`, when
   * the translation is not more than 5% longer, and when the end time does
   * not parse.
   */
  lemma AdjustUnchanged(timestamp: string, originalLength: nat, translatedLength: nat)
    requires || |Split(timestamp, Arrow)| != 2
             || 100 * translatedLength <= 105 * (if originalLength < 1 then 1 else originalLength)
             || !ParseEnd(Split(timestamp, Arrow)[1]).Ms?
    ensures AdjustTimestamp(timestamp, originalLength, translatedLength) == timestamp
  {
    if |Split(timestamp, Arrow)| == 2 {
      RejoinTwo(timestamp);
    }
  }

  /** An extended end keeps the start and reads back as the old end plus the extension. */
  lemma ExtendEndShifts(timestamp: string, parts: seq<string>, ext: nat)
    requires |parts| == 2 && Separable(parts[0], Arrow)
    requires ParseEnd(parts[1]).Ms?
    ensures var r := Split(ExtendEnd(timestamp, parts, Some(ext)), Arrow);
      && |r| == 2
      && r[0] == parts[0]
      && ParseEnd(r[1]) == Ms(ParseEnd(parts[1]).total + ext)
  {
    NewEndMoved(parts[1], ext);
    ExtendEndMoved(timestamp, parts, Some(ext));
    RejoinShifted(parts[0], NewEnd(parts[1], Some(ext)).ms);
  }

  lemma ExtendEndMoved(timestamp: string, parts: seq<string>, extension: Option<nat>)
    requires |parts| == 2 && NewEnd(parts[1], extension).Moved?
    ensures ExtendEnd(timestamp, parts, extension)
      == Rejoin(parts[0], FormatSrtTime(NewEnd(parts[1], extension).ms))
  {
  }

  lemma NewEndMoved(end: string, ext: nat)
    requires ParseEnd(end).Ms?
    ensures NewEnd(end, Some(ext)) == Moved(ParseEnd(end).total + ext)
  {
  }

  /** `start --> end` with a formatted end splits back into the start and a time that reads back. */
  lemma RejoinShifted(start: string, ms: int)
    requires Separable(start, Arrow)
    ensures var r := Split(Rejoin(start, FormatSrtTime(ms)), Arrow);
      |r| == 2 && r[0] == start && ParseEnd(r[1]) == Ms(ms)
  {
    FormatSrtTimeNoArrow(ms);
    SplitArrowPair(start, FormatSrtTime(ms));
    ParseFormatSrtTime(ms);
  }

  lemma SplitArrowPair(start: string, end: string)
    requires Separable(start, Arrow) && Separable(end, Arrow)
    ensures Split(Rejoin(start, end), Arrow) == [start, end]
  {
    assert [start, end][1..] == [end];
    assert Join([start, end], Arrow) == Rejoin(start, end);
    SplitJoin([start, end], Arrow);
  }

  /**
   * When the end time is extended, the start is kept as it was and the new
   * end reads back as strictly later than the old end, by at most 2000 ms.
   */
  lemma AdjustExtendsEnd(timestamp: string, originalLength: nat, translatedLength: nat)
    requires |Split(timestamp, Arrow)| == 2
    requires ParseEnd(Split(timestamp, Arrow)[1]).Ms?
    requires 100 * translatedLength > 105 * (if originalLength < 1 then 1 else originalLength)
    ensures var r := Split(AdjustTimestamp(timestamp, originalLength, translatedLength), Arrow);
      && |r| == 2
      && r[0] == Split(timestamp, Arrow)[0]
      && ParseEnd(r[1]).Ms?
      && ParseEnd(Split(timestamp, Arrow)[1]).total < ParseEnd(r[1]).total
      && ParseEnd(r[1]).total <= ParseEnd(Split(timestamp, Arrow)[1]).total + 2000
  {
    var ext := ExtensionMs(originalLength, translatedLength);
    SplitHeadSeparable(timestamp, Arrow);
    ExtendEndShifts(timestamp, Split(timestamp, Arrow), ext.value);
  }

  /** A formatted time is a single non-empty line. */
  lemma FormatSrtTimeOneLine(ms: int)
    ensures |FormatSrtTime(ms)| > 0 && '\n' !in FormatSrtTime(ms)
  {
    var c := ClockOf(ms);
    FormatIntChars(c.hours, 2);
    FormatIntChars(c.minutes, 2);
    FormatIntChars(c.seconds, 2);
    FormatIntChars(c.millis, 3);
  }

  /** Two single lines around the arrow make a single line. */
  lemma RejoinOneLine(start: string, end: string)
    requires '\n' !in start && '\n' !in end
    ensures |Rejoin(start, end)| > 0 && '\n' !in Rejoin(start, end)
  {
  }

  /** A formatted time never contains the arrow (it has no space). */
  lemma FormatSrtTimeNoArrow(ms: int)
    ensures Separable(FormatSrtTime(ms), Arrow)
  {
    var c := ClockOf(ms);
    var f := FormatSrtTime(ms);
    FormatIntNoPunctuation(c.hours, 2);
    FormatIntNoPunctuation(c.minutes, 2);
    FormatIntNoPunctuation(c.seconds, 2);
    FormatIntNoPunctuation(c.millis, 3);
    assert ' ' !in f;
    forall i: nat | i < |f| ensures !OccursAt(f + Arrow, Arrow, i) {
      assert (f + Arrow)[i] == f[i];
      assert Arrow[0] == ' ';
    }
  }
}
