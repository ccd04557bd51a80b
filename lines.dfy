/**
 * Text files as lists of lines: `str.splitlines()`, `readlines()`, and the
 * `"\n".join` and `"".join` that write them back. Only '\n' ends a line here.
 */
module Lines {
  import opened Strings

  /** Python's `s.startswith(p)`. */
  predicate StartsWith(s: string, p: string)
  {
    |p| <= |s| && s[..|p|] == p
  }

  /** Python's `"".join(parts)`. */
  function Concat(parts: seq<string>): string
  {
    if |parts| == 0 then "" else parts[0] + Concat(parts[1..])
  }

  /** `text.splitlines()`: the lines without their terminators; a final newline opens no empty line. */
  function SplitLines(text: string): (r: seq<string>)
    ensures forall k :: 0 <= k < |r| ==> '\n' !in r[k]
    ensures text == "" <==> |r| == 0
  {
    if text == "" then []
    else if text[|text| - 1] == '\n' then
      SplitJoin(text[..|text| - 1], '\n');
      Split(text[..|text| - 1], '\n')
    else
      SplitJoin(text, '\n');
      Split(text, '\n')
  }

  /** A line ending in its '\n' terminator and holding no other. */
  predicate Terminated(line: string)
  {
    |line| > 0 && line[|line| - 1] == '\n' && '\n' !in line[..|line| - 1]
  }

  /** `readlines()`: the lines with their terminators; only the last may lack one. */
  function ReadLines(text: string): (r: seq<string>)
    ensures Concat(r) == text
    ensures forall k :: 0 <= k < |r| ==> |r[k]| > 0
    ensures forall k :: 0 <= k < |r| - 1 ==> Terminated(r[k])
    ensures |r| > 0 && text[|text| - 1] == '\n' ==> Terminated(r[|r| - 1])
    decreases |text|
  {
    if text == "" then []
    else if '\n' !in text then [text]
    else
      var i := IndexOf(text, '\n');
      var rest := ReadLines(text[i + 1..]);
      var r := [text[..i + 1]] + rest;
      ReadLinesStep(text, i, rest, r);
      r
  }

  /** The first line up to its '\n', then the lines of the rest, are lines of the whole text. */
  lemma ReadLinesStep(text: string, i: nat, rest: seq<string>, r: seq<string>)
    requires i < |text| && text[i] == '\n' && '\n' !in text[..i]
    requires Concat(rest) == text[i + 1..]
    requires forall k :: 0 <= k < |rest| ==> |rest[k]| > 0
    requires forall k :: 0 <= k < |rest| - 1 ==> Terminated(rest[k])
    requires |rest| > 0 && text[|text| - 1] == '\n' ==> Terminated(rest[|rest| - 1])
    requires r == [text[..i + 1]] + rest
    ensures Concat(r) == text
    ensures forall k :: 0 <= k < |r| ==> |r[k]| > 0
    ensures forall k :: 0 <= k < |r| - 1 ==> Terminated(r[k])
    ensures text[|text| - 1] == '\n' ==> Terminated(r[|r| - 1])
  {
    assert r[1..] == rest;
    assert text[..i + 1] + text[i + 1..] == text;
    assert text[..i + 1][..i] == text[..i];
    assert Terminated(r[0]);
    forall k | 1 <= k < |r|
      ensures r[k] == rest[k - 1]
    {
    }
    if |rest| == 0 {
      assert text[i + 1..] == "";
    }
  }

  /** `"\n".join(lines)` ends with the last line. */
  lemma {:induction false} JoinEnds(lines: seq<string>, sep: string)
    requires |lines| > 0
    ensures EndsWith(Join(lines, sep), lines[|lines| - 1])
    decreases |lines|
  {
    if |lines| > 1 {
      JoinEnds(lines[1..], sep);
      assert lines[1..][|lines[1..]| - 1] == lines[|lines| - 1];
      var j := Join(lines[1..], sep);
      var l := lines[|lines| - 1];
      assert Join(lines, sep) == lines[0] + sep + j;
      assert (lines[0] + sep + j)[|lines[0] + sep + j| - |l|..] == j[|j| - |l|..];
    }
  }

  /** Appending a part appends the separator and the part. */
  lemma {:induction false} JoinAppend(lines: seq<string>, sep: string, last: string)
    requires |lines| > 0
    ensures Join(lines + [last], sep) == Join(lines, sep) + sep + last
    decreases |lines|
  {
    if |lines| == 1 {
      assert (lines + [last])[1..] == [last];
    } else {
      assert (lines + [last])[1..] == lines[1..] + [last];
      JoinAppend(lines[1..], sep, last);
    }
  }

  /** Lines joined by '\n' read back as themselves when the last one is not empty. */
  lemma JoinedLines(lines: seq<string>)
    requires |lines| > 0 && lines[|lines| - 1] != ""
    requires forall k :: 0 <= k < |lines| ==> '\n' !in lines[k]
    ensures SplitLines(Join(lines, "\n")) == lines
  {
    var text := Join(lines, "\n");
    var last := lines[|lines| - 1];
    JoinEnds(lines, "\n");
    assert text[|text| - 1] == last[|last| - 1];
    JoinSplit(lines, '\n');
  }

  /** Lines joined by '\n' after an extra empty line read back as themselves. */
  lemma JoinedLinesNewline(lines: seq<string>)
    requires |lines| > 0
    requires forall k :: 0 <= k < |lines| ==> '\n' !in lines[k]
    ensures SplitLines(Join(lines + [""], "\n")) == lines
  {
    var j := Join(lines, "\n");
    var text := Join(lines + [""], "\n");
    JoinAppend(lines, "\n", "");
    assert text == j + "\n";
    assert text[|text| - 1] == '\n' && text[..|text| - 1] == j;
    JoinSplit(lines, '\n');
    assert SplitLines(text) == Split(j, '\n');
  }

  /** Terminated lines written with `"".join` read back as themselves. */
  lemma {:induction false} ConcatReadLines(lines: seq<string>)
    requires forall k :: 0 <= k < |lines| ==> Terminated(lines[k])
    ensures ReadLines(Concat(lines)) == lines
    decreases |lines|
  {
    if |lines| > 0 {
      var line := lines[0];
      var body := line[..|line| - 1];
      var rest := Concat(lines[1..]);
      var text := Concat(lines);
      assert line == body + ['\n'];
      assert text == body + ['\n'] + rest;
      IndexOfAfterFree(body, '\n', rest);
      assert text[..|body| + 1] == line;
      assert text[|body| + 1..] == rest;
      ConcatReadLines(lines[1..]);
      assert lines == [line] + lines[1..];
    }
  }
}
