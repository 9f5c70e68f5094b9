/** The string operations that the audit script uses: `str.strip`, `str.startswith`, `str.endswith`,
    the position of the first colon, and the lines of a text file. */
module Text {
  import opened Wrappers

  /** The characters for which Python's `str.isspace` holds, and which `str.strip` removes. */
  predicate IsSpace(c: char) {
    var i := c as int;
    || 0x09 <= i <= 0x0D
    || 0x1C <= i <= 0x20
    || i == 0x85 || i == 0xA0 || i == 0x1680
    || 0x2000 <= i <= 0x200A
    || i == 0x2028 || i == 0x2029 || i == 0x202F || i == 0x205F || i == 0x3000
  }

  function StripLeft(s: string): string {
    if s != [] && IsSpace(s[0]) then StripLeft(s[1..]) else s
  }

  function StripRight(s: string): string {
    if s != [] && IsSpace(s[|s| - 1]) then StripRight(s[..|s| - 1]) else s
  }

  function Strip(s: string): string {
    StripRight(StripLeft(s))
  }

  /** No white space at either end. */
  predicate Stripped(s: string) {
    s == [] || (!IsSpace(s[0]) && !IsSpace(s[|s| - 1]))
  }

  predicate StartsWith(s: string, prefix: string) {
    prefix <= s
  }

  predicate EndsWith(s: string, suffix: string) {
    |suffix| <= |s| && s[|s| - |suffix|..] == suffix
  }

  /** The position of the first occurrence of `c`, if there is one. */
  function Find(s: string, c: char): (r: Option<nat>)
    ensures r.None? ==> c !in s
    ensures r.Some? ==> r.value < |s| && s[r.value] == c && c !in s[..r.value]
  {
    if s == [] then None
    else if s[0] == c then Some(0)
    else
      match Find(s[1..], c)
      case None => None
      case Some(i) =>
        assert s[..i + 1] == [s[0]] + s[1..][..i];
        Some(i + 1)
  }

  lemma StripOfStripped(s: string)
    requires Stripped(s)
    ensures Strip(s) == s
  {
  }

  lemma {:induction false} StripRightKeepsHead(s: string)
    ensures StripRight(s) <= s
    ensures var r := StripRight(s); r == [] || !IsSpace(r[|r| - 1])
  {
    if s != [] && IsSpace(s[|s| - 1]) {
      StripRightKeepsHead(s[..|s| - 1]);
    }
  }

  lemma {:induction false} StripLeftHead(s: string)
    ensures var r := StripLeft(s); r == [] || !IsSpace(r[0])
  {
    if s != [] && IsSpace(s[0]) {
      StripLeftHead(s[1..]);
    }
  }

  /** Stripping leaves no white space at either end. */
  lemma StripIsStripped(s: string)
    ensures Stripped(Strip(s))
  {
    StripLeftHead(s);
    StripRightKeepsHead(StripLeft(s));
  }

  lemma {:induction false} StripLeftPart(s: string)
    ensures forall c :: c in StripLeft(s) ==> c in s
  {
    if s != [] && IsSpace(s[0]) {
      StripLeftPart(s[1..]);
    }
  }

  /** Stripping adds nothing. */
  lemma StripPart(s: string)
    ensures forall c :: c in Strip(s) ==> c in s
  {
    StripLeftPart(s);
    StripRightKeepsHead(StripLeft(s));
  }

  // ---------------------------------------------------------------- lines of a file

  /** A text file ends its lines with a line feed, a carriage return, or both. */
  predicate OneLine(s: string) {
    '\n' !in s && '\r' !in s
  }

  /** The position of the first line end, or of the end of the text. */
  function LineEnd(text: string): (n: nat)
    ensures n <= |text| && OneLine(text[..n]) && (n < |text| ==> text[n] in {'\n', '\r'})
  {
    if text == [] || text[0] in {'\n', '\r'} then 0
    else
      var n := LineEnd(text[1..]);
      assert text[..n + 1] == [text[0]] + text[1..][..n];
      n + 1
  }

  /** The lines that iterating over the file gives, without their ends. */
  function Lines(text: string): seq<string> {
    if text == [] then []
    else
      var n := LineEnd(text);
      if n == |text| then [text]
      else if text[n] == '\r' && n + 1 < |text| && text[n + 1] == '\n' then [text[..n]] + Lines(text[n + 2..])
      else [text[..n]] + Lines(text[n + 1..])
  }

  /** The text with the given line ends. */
  function EndLines(lines: seq<string>, ends: seq<string>): string
    requires |lines| == |ends|
  {
    if lines == [] then "" else lines[0] + ends[0] + EndLines(lines[1..], ends[1..])
  }

  /** Any mixture of line ends; the last line need not have one. */
  predicate LineEnds(ends: seq<string>) {
    forall i :: 0 <= i < |ends| ==> ends[i] in {"\n", "\r", "\r\n"} || (i == |ends| - 1 && ends[i] == "")
  }

  lemma {:induction false} LinesAreLines(text: string)
    ensures forall line :: line in Lines(text) ==> OneLine(line)
  {
    if text != [] {
      var n := LineEnd(text);
      if n == |text| {
        assert text[..n] == text;
      } else if text[n] == '\r' && n + 1 < |text| && text[n + 1] == '\n' {
        LinesAreLines(text[n + 2..]);
      } else {
        LinesAreLines(text[n + 1..]);
      }
    }
  }

  lemma FirstLineEnd(line: string, rest: string)
    requires OneLine(line) && (rest == "" || rest[0] in {'\n', '\r'})
    ensures LineEnd(line + rest) == |line|
  {
    var text := line + rest;
    assert rest != "" ==> text[|line|] == rest[0];
    assert forall i :: 0 <= i < |line| ==> text[i] == line[i];
  }

  /** One line is cut off the text. */
  lemma FirstLine(line: string, end: string, rest: string)
    requires OneLine(line) && line != ""
    requires end in {"\n", "\r", "\r\n"} || (end == "" && rest == "")
    requires rest != "" ==> rest[0] != '\n'
    ensures Lines(line + end + rest) == [line] + Lines(rest)
  {
    var text, n := line + end + rest, |line|;
    assert text == line + (end + rest);
    FirstLineEnd(line, end + rest);
    assert text[..n] == line && text[n..] == end + rest;
    if end == "" {
      assert text == line;
      return;
    }
    assert text[n] == end[0];
    assert end == "\r\n" ==> text[n + 1] == '\n' && text[n + 2..] == rest;
    assert end != "\r\n" ==> text[n + 1..] == rest;
  }

  /** Splitting undoes joining, for lines that are not empty and any line ends. */
  lemma {:induction false} LinesOfEnded(lines: seq<string>, ends: seq<string>)
    requires |lines| == |ends| && LineEnds(ends)
    requires forall line :: line in lines ==> OneLine(line) && line != ""
    ensures Lines(EndLines(lines, ends)) == lines
    decreases |lines|
  {
    if lines == [] {
      return;
    }
    assert forall i :: 1 <= i < |ends| ==> ends[1..][i - 1] == ends[i];
    LinesOfEnded(lines[1..], ends[1..]);
    if |lines| > 1 {
      assert EndLines(lines[1..], ends[1..])[0] == lines[1][0];
    }
    FirstLine(lines[0], ends[0], EndLines(lines[1..], ends[1..]));
  }

  // ---------------------------------------------------------------- stripping

  /** `strip` removes the white space around a text that has none at its ends. */
  lemma {:induction false} StripPadded(before: string, s: string, after: string)
    requires (forall c :: c in before ==> IsSpace(c)) && (forall c :: c in after ==> IsSpace(c)) && Stripped(s)
    ensures Strip(before + s + after) == s
    decreases |before| + |after|
  {
    var text := before + s + after;
    if before != "" {
      assert text[0] == before[0] && text[1..] == before[1..] + s + after;
      StripPadded(before[1..], s, after);
    } else if s == "" {
      assert text == after;
      StripBlank(after);
    } else {
      assert text[0] == s[0] && StripLeft(text) == text;
      StripTrailing(s, after);
      assert text == s + after;
    }
  }

  lemma {:induction false} StripBlank(s: string)
    requires forall c :: c in s ==> IsSpace(c)
    ensures StripLeft(s) == ""
  {
    if s != "" {
      StripBlank(s[1..]);
    }
  }

  lemma {:induction false} StripTrailing(s: string, after: string)
    requires s != "" && Stripped(s) && forall c :: c in after ==> IsSpace(c)
    ensures StripRight(s + after) == s
    decreases |after|
  {
    if after == "" {
      assert s + after == s;
      return;
    }
    var n := |after| - 1;
    assert (s + after)[..|s| + n] == s + after[..n];
    assert (s + after)[|s| + n] == after[n];
    StripTrailing(s, after[..n]);
  }
}
