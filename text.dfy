/**
 * The Python string operations the subtitle code relies on, over `seq<char>`:
 * `str.strip`, `str.find`/`in`, `str.split(sep)`, `sep.join(parts)`,
 * `str.upper`, `str.isdigit`, `str.rsplit`, the `{n:0Wd}` format and `int(s)`.
 */
module Text {

  datatype Option<+T> = None | Some(value: T) {
    function GetOr(default: T): T {
      if Some? then value else default
    }
  }

  // ---------------------------------------------------------------------------
  // Whitespace and strip
  // ---------------------------------------------------------------------------

  /** The characters `str.isspace()` accepts, so the ones `str.strip()` removes. */
  predicate IsSpace(c: char) {
    var n := c as int;
    (9 <= n <= 13) || (28 <= n <= 32) || n == 0x85 || n == 0xA0 || n == 0x1680
    || (0x2000 <= n <= 0x200A) || n == 0x2028 || n == 0x2029 || n == 0x202F
    || n == 0x205F || n == 0x3000
  }

  function LStrip(s: string): (r: string)
    ensures |r| <= |s| && r == s[|s| - |r|..]
    ensures forall k :: 0 <= k < |s| - |r| ==> IsSpace(s[k])
    ensures r == [] || !IsSpace(r[0])
  {
    if |s| > 0 && IsSpace(s[0]) then LStrip(s[1..]) else s
  }

  function RStrip(s: string): (r: string)
    ensures |r| <= |s| && r == s[..|r|]
    ensures forall k :: |r| <= k < |s| ==> IsSpace(s[k])
    ensures r == [] || !IsSpace(r[|r| - 1])
  {
    if |s| > 0 && IsSpace(s[|s| - 1]) then RStrip(s[..|s| - 1]) else s
  }

  /** `s.strip()`: leading and trailing whitespace removed. */
  function Strip(s: string): (r: string)
    ensures r == [] || (!IsSpace(r[0]) && !IsSpace(r[|r| - 1]))
    ensures |r| <= |s|
  {
    RStrip(LStrip(s))
  }

  /** A string with no whitespace at either end. */
  predicate IsStripped(s: string) {
    s == [] || (!IsSpace(s[0]) && !IsSpace(s[|s| - 1]))
  }

  lemma StripStripped(s: string)
    requires IsStripped(s)
    ensures Strip(s) == s
  {
  }

  // ---------------------------------------------------------------------------
  // Searching
  // ---------------------------------------------------------------------------

  /** `pat` occurs in `s` at position `i`. */
  predicate OccursAt(s: string, pat: string, i: nat) {
    i + |pat| <= |s| && s[i..i + |pat|] == pat
  }

  lemma OccursAtTail(s: string, pat: string, i: nat)
    requires |s| > 0
    ensures OccursAt(s[1..], pat, i) <==> OccursAt(s, pat, i + 1)
  {
    if i + 1 + |pat| <= |s| {
      assert s[1..][i..i + |pat|] == s[i + 1..i + 1 + |pat|];
    }
  }

  /** `s.find(pat)`: the first position where `pat` occurs, or -1. */
  function Find(s: string, pat: string): (r: int)
    requires |pat| > 0
    ensures r >= -1
    ensures r >= 0 ==> OccursAt(s, pat, r)
    ensures forall i: nat :: (r < 0 || i < r) ==> !OccursAt(s, pat, i)
    decreases |s|
  {
    if |s| < |pat| then -1
    else if s[..|pat|] == pat then 0
    else
      var k := Find(s[1..], pat);
      forall j: nat | j >= 1 ensures OccursAt(s, pat, j) <==> OccursAt(s[1..], pat, j - 1) {
        OccursAtTail(s, pat, j - 1);
      }
      assert !OccursAt(s, pat, 0);
      if k < 0 then -1 else k + 1
  }

  /** `pat in s` for a non-empty `pat`. */
  predicate Contains(s: string, pat: string)
    requires |pat| > 0
  {
    Find(s, pat) >= 0
  }

  // ---------------------------------------------------------------------------
  // split and join
  // ---------------------------------------------------------------------------

  /** `s.split(sep)`: the pieces between successive leftmost occurrences of `sep`. */
  function Split(s: string, sep: string): (r: seq<string>)
    requires |sep| > 0
    ensures |r| >= 1
    decreases |s|
  {
    var k := Find(s, sep);
    if k < 0 then [s] else [s[..k]] + Split(s[k + |sep|..], sep)
  }

  /** `sep.join(parts)`. */
  function Join(parts: seq<string>, sep: string): string {
    if |parts| == 0 then ""
    else if |parts| == 1 then parts[0]
    else parts[0] + sep + Join(parts[1..], sep)
  }

  /** `''.join(parts)`. */
  function Concat(parts: seq<string>): string {
    if |parts| == 0 then "" else parts[0] + Concat(parts[1..])
  }

  lemma {:induction false} ConcatAppend(a: seq<string>, b: seq<string>)
    ensures Concat(a + b) == Concat(a) + Concat(b)
  {
    if |a| > 0 {
      ConcatAppend(a[1..], b);
      assert (a + b)[1..] == a[1..] + b;
    } else {
      assert a + b == b;
    }
  }

  /** Joining one more part appends the separator and that part. */
  lemma {:induction false} JoinSnoc(parts: seq<string>, sep: string, last: string)
    requires |parts| >= 1
    ensures Join(parts + [last], sep) == Join(parts, sep) + sep + last
  {
    if |parts| == 1 {
      assert (parts + [last])[1..] == [last];
    } else {
      JoinSnoc(parts[1..], sep, last);
      assert (parts + [last])[1..] == parts[1..] + [last];
    }
  }

  /** A join starts with its first part and ends with its last. */
  lemma JoinEnds(parts: seq<string>, sep: string)
    requires |parts| >= 1 && |parts[0]| > 0 && |parts[|parts| - 1]| > 0
    ensures var j := Join(parts, sep);
      |j| > 0 && j[0] == parts[0][0] && j[|j| - 1] == parts[|parts| - 1][|parts[|parts| - 1]| - 1]
  {
    if |parts| > 1 {
      var init, last := parts[..|parts| - 1], parts[|parts| - 1];
      assert parts == init + [last];
      JoinSnoc(init, sep, last);
      assert Join(parts, sep)[0] == parts[0][0];
    }
  }

  /** Joining the pieces of a split gives back the string split. */
  lemma {:induction false} JoinSplit(s: string, sep: string)
    requires |sep| > 0
    ensures Join(Split(s, sep), sep) == s
    decreases |s|
  {
    var k := Find(s, sep);
    if k >= 0 {
      var tail := s[k + |sep|..];
      var rest := Split(tail, sep);
      var parts := [s[..k]] + rest;
      assert Split(s, sep) == parts;
      assert parts[0] == s[..k] && parts[1..] == rest && |parts| >= 2;
      calc {
        Join(parts, sep);
        s[..k] + sep + Join(rest, sep);
        { JoinSplit(tail, sep); }
        s[..k] + sep + tail;
        { assert s[k..k + |sep|] == sep; Reassemble(s, k, k + |sep|); }
        s;
      }
    }
  }

  /** A string is its three slices put back together. */
  lemma Reassemble(s: string, i: nat, j: nat)
    requires i <= j <= |s|
    ensures s[..i] + s[i..j] + s[j..] == s
  {
    assert s[..j] == s[..i] + s[i..j];
  }

  /**
   * `p` followed by `sep` has no occurrence of `sep` before the end of `p`,
   * so a split of `p + sep + rest` cuts exactly after `p`.
   */
  predicate Separable(p: string, sep: string) {
    forall i: nat :: i < |p| ==> !OccursAt(p + sep, sep, i)
  }

  lemma FindAfterSeparable(p: string, sep: string, rest: string)
    requires |sep| > 0 && Separable(p, sep)
    ensures Find(p + sep + rest, sep) == |p|
  {
    var s := p + sep + rest;
    assert s[|p|..|p| + |sep|] == sep;
    assert OccursAt(s, sep, |p|);
    forall i: nat | i < |p| ensures !OccursAt(s, sep, i) {
      assert s[i..i + |sep|] == (p + sep)[i..i + |sep|];
      assert !OccursAt(p + sep, sep, i);
    }
  }

  lemma FindSeparableAlone(p: string, sep: string)
    requires |sep| > 0 && Separable(p, sep)
    ensures Find(p, sep) < 0
  {
    forall i: nat | OccursAt(p, sep, i) ensures false {
      assert (p + sep)[i..i + |sep|] == p[i..i + |sep|];
      assert OccursAt(p + sep, sep, i);
    }
  }

  /** A split of `p + sep + rest` cuts exactly after a separable `p`. */
  lemma SplitCons(p: string, sep: string, rest: string)
    requires |sep| > 0 && Separable(p, sep)
    ensures Split(p + sep + rest, sep) == [p] + Split(rest, sep)
  {
    var s := p + sep + rest;
    FindAfterSeparable(p, sep, rest);
    assert s[..|p|] == p;
    assert s[|p| + |sep|..] == rest;
  }

  /**
   * Splitting a join gives back the parts when each part but the last is
   * separable and the last has no occurrence of `sep` (it may still end in a
   * prefix of `sep`).
   */
  lemma {:induction false} SplitJoinLast(parts: seq<string>, sep: string)
    requires |sep| > 0 && |parts| >= 1
    requires forall k :: 0 <= k < |parts| - 1 ==> Separable(parts[k], sep)
    requires Find(parts[|parts| - 1], sep) < 0
    ensures Split(Join(parts, sep), sep) == parts
  {
    if |parts| > 1 {
      SplitCons(parts[0], sep, Join(parts[1..], sep));
      SplitJoinLast(parts[1..], sep);
      assert parts == [parts[0]] + parts[1..];
    }
  }

  /** Splitting a join gives back the parts when each part is separable. */
  lemma SplitJoin(parts: seq<string>, sep: string)
    requires |sep| > 0 && |parts| >= 1
    requires forall k :: 0 <= k < |parts| ==> Separable(parts[k], sep)
    ensures Split(Join(parts, sep), sep) == parts
  {
    FindSeparableAlone(parts[|parts| - 1], sep);
    SplitJoinLast(parts, sep);
  }

  /** The first piece of a split is separable, so it survives a re-split. */
  lemma SplitHeadSeparable(s: string, sep: string)
    requires |sep| > 0 && |Split(s, sep)| >= 2
    ensures Separable(Split(s, sep)[0], sep)
  {
    FindPrefixSeparable(s, sep);
  }

  /** The text before the first occurrence of `sep` is separable. */
  lemma FindPrefixSeparable(s: string, sep: string)
    requires |sep| > 0 && Find(s, sep) >= 0
    ensures Separable(s[..Find(s, sep)], sep)
  {
    var k := Find(s, sep);
    var p := s[..k];
    var ps := p + sep;
    assert ps == s[..k + |sep|];
    forall i: nat | i < |p| ensures !OccursAt(ps, sep, i) {
      assert ps[i..i + |sep|] == s[i..i + |sep|];
      assert !OccursAt(s, sep, i);
    }
  }

  /** A part without the character `c` is separable by `[c]`. */
  lemma SeparableByChar(p: string, c: char)
    requires c !in p
    ensures Separable(p, [c])
  {
    forall i: nat | i < |p| ensures !OccursAt(p + [c], [c], i) {
      assert (p + [c])[i] == p[i];
    }
  }

  // ---------------------------------------------------------------------------
  // Case and digits
  // ---------------------------------------------------------------------------

  /** `str.upper()` on ASCII letters. */
  function Upper(s: string): (r: string)
    ensures |r| == |s|
    ensures forall k :: 0 <= k < |s| ==>
      r[k] == if 'a' <= s[k] <= 'z' then (s[k] as int - 32) as char else s[k]
  {
    if |s| == 0 then "" else Upper(s[..|s| - 1]) + [UpperChar(s[|s| - 1])]
  }

  function UpperChar(c: char): char {
    if 'a' <= c <= 'z' then (c as int - 32) as char else c
  }

  predicate IsDigit(c: char) {
    '0' <= c <= '9'
  }

  predicate AllDigits(s: string) {
    forall k :: 0 <= k < |s| ==> IsDigit(s[k])
  }

  /** `s.isdigit()`: non-empty and every character a decimal digit. */
  predicate IsDigitString(s: string) {
    |s| > 0 && AllDigits(s)
  }

  function DigitChar(d: nat): (c: char)
    requires d < 10
    ensures IsDigit(c)
  {
    (48 + d) as char
  }

  /** `str(n)` for a natural number. */
  function NatToString(n: nat): (r: string)
    ensures IsDigitString(r)
    ensures |r| > 1 ==> r[0] != '0'
  {
    if n < 10 then [DigitChar(n)] else NatToString(n / 10) + [DigitChar(n % 10)]
  }

  /** The value of a string of decimal digits (leading zeros allowed). */
  function DigitsValue(s: string): nat
    requires AllDigits(s)
  {
    if |s| == 0 then 0 else DigitsValue(s[..|s| - 1]) * 10 + (s[|s| - 1] as int - 48)
  }

  lemma {:induction false} NatToStringValue(n: nat)
    ensures DigitsValue(NatToString(n)) == n
  {
    if n >= 10 {
      NatToStringValue(n / 10);
      var s := NatToString(n);
      assert s[..|s| - 1] == NatToString(n / 10);
    }
  }

  function Zeros(n: nat): (r: string)
    ensures |r| == n && forall k :: 0 <= k < n ==> r[k] == '0'
  {
    if n == 0 then "" else Zeros(n - 1) + "0"
  }

  lemma {:induction false} ZerosValue(n: nat, s: string)
    requires AllDigits(s)
    ensures AllDigits(Zeros(n) + s) && DigitsValue(Zeros(n) + s) == DigitsValue(s)
    decreases |s|
  {
    var z := Zeros(n) + s;
    if |s| == 0 {
      assert z == Zeros(n);
      ZerosAreZero(n);
    } else {
      ZerosValue(n, s[..|s| - 1]);
      assert z[..|z| - 1] == Zeros(n) + s[..|s| - 1];
    }
  }

  lemma {:induction false} ZerosAreZero(n: nat)
    ensures AllDigits(Zeros(n)) && DigitsValue(Zeros(n)) == 0
  {
    if n > 0 {
      ZerosAreZero(n - 1);
      assert Zeros(n)[..n - 1] == Zeros(n - 1);
    }
  }

  /** `s` left-padded with zeros to at least `width` characters. */
  function ZeroPad(s: string, width: nat): (r: string)
    ensures |r| >= width && |r| >= |s|
  {
    if |s| >= width then s else Zeros(width - |s|) + s
  }

  /** `f"{n:0{width}d}"`: the sign counts towards the width. */
  function FormatInt(n: int, width: nat): string {
    if n >= 0 then ZeroPad(NatToString(n), width)
    else "-" + ZeroPad(NatToString(-n), if width > 0 then width - 1 else 0)
  }

  /** `int(s)` for a base-10 string: surrounding whitespace, an optional sign, digits. */
  function ParseInt(s: string): Option<int> {
    var t := Strip(s);
    if |t| > 0 && (t[0] == '-' || t[0] == '+') then
      var d := t[1..];
      if IsDigitString(d) then Some(if t[0] == '-' then 0 - DigitsValue(d) else DigitsValue(d))
      else None
    else if IsDigitString(t) then Some(DigitsValue(t))
    else None
  }

  lemma PaddedDigits(n: nat, width: nat)
    ensures IsDigitString(ZeroPad(NatToString(n), width))
    ensures DigitsValue(ZeroPad(NatToString(n), width)) == n
  {
    NatToStringValue(n);
    var s := NatToString(n);
    if |s| < width {
      ZerosValue(width - |s|, s);
    }
  }

  /** `int()` reads back what the `{n:0Wd}` format writes. */
  lemma ParseFormatInt(n: int, width: nat)
    ensures ParseInt(FormatInt(n, width)) == Some(n)
  {
    if n >= 0 {
      PaddedDigits(n, width);
      UnsignedDigits(ZeroPad(NatToString(n), width));
    } else {
      var w := if width > 0 then width - 1 else 0;
      PaddedDigits(-n, w);
      SignedDigits(ZeroPad(NatToString(-n), w));
    }
  }

  /** A digit string is read back as its value. */
  lemma UnsignedDigits(d: string)
    requires IsDigitString(d)
    ensures ParseInt(d) == Some(DigitsValue(d))
  {
    StripStripped(d);
  }

  /** A minus sign before a digit string is read back as the negated value. */
  lemma SignedDigits(d: string)
    requires IsDigitString(d)
    ensures ParseInt("-" + d) == Some(0 - DigitsValue(d))
  {
    var f := "-" + d;
    assert f[1..] == d;
    assert f[|f| - 1] == d[|d| - 1];
    StripStripped(f);
  }

  /** A formatted integer has only digits and a leading minus sign. */
  lemma FormatIntChars(n: int, width: nat)
    ensures |FormatInt(n, width)| > 0
    ensures forall k :: 0 <= k < |FormatInt(n, width)| ==>
      IsDigit(FormatInt(n, width)[k]) || (k == 0 && FormatInt(n, width)[k] == '-')
  {
    var s := if n >= 0 then n else -n;
    var w := if n >= 0 then width else if width > 0 then width - 1 else 0;
    PaddedDigits(s, w);
  }
}
