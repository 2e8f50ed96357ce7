/** A table file as text and as the lines Rust's `BufRead::lines` reads from
    it: lines end at '\n', a '\r' right before that '\n' is dropped too,
    and a last line needs no terminator. */
module TextLines {

  /** Where the first line of `s` ends: the first '\n', or the end of `s`. */
  function LineEnd(s: string): (i: nat)
    ensures i <= |s| && (i < |s| ==> s[i] == '\n')
    ensures forall k :: 0 <= k < i ==> s[k] != '\n'
  {
    if s == [] || s[0] == '\n' then 0 else 1 + LineEnd(s[1..])
  }

  /** The line without the '\r' of a "\r\n" ending. */
  function DropCr(s: string): string {
    if |s| > 0 && s[|s| - 1] == '\r' then s[..|s| - 1] else s
  }

  /** `BufRead::lines`: the empty text has no lines, and a final '\n' does
      not start another one. */
  function Lines(text: string): seq<string>
    decreases |text|
  {
    if text == [] then []
    else
      var i := LineEnd(text);
      if i == |text| then [text]
      else [DropCr(text[..i])] + Lines(text[i + 1..])
  }

  /** Lines written one after another, each followed by '\n'. */
  function Unlines(lines: seq<string>): string {
    if lines == [] then "" else lines[0] + "\n" + Unlines(lines[1..])
  }

  /** A line that reads back as itself: no '\n', and no '\r' at its end. */
  predicate PlainLine(s: string) {
    && (forall k :: 0 <= k < |s| ==> s[k] != '\n')
    && (|s| == 0 || s[|s| - 1] != '\r')
  }

  lemma {:induction false} LineEndOf(s: string, rest: string)
    requires forall k :: 0 <= k < |s| ==> s[k] != '\n'
    ensures LineEnd(s + "\n" + rest) == |s|
    decreases |s|
  {
    if s != [] {
      assert (s + "\n" + rest)[1..] == s[1..] + "\n" + rest;
      LineEndOf(s[1..], rest);
    }
  }

  /** Reading newline-terminated plain lines gives back exactly those lines. */
  lemma {:induction false} LinesUnlines(lines: seq<string>)
    requires forall i :: 0 <= i < |lines| ==> PlainLine(lines[i])
    ensures Lines(Unlines(lines)) == lines
    decreases |lines|
  {
    if lines != [] {
      var text := Unlines(lines);
      var s := lines[0];
      assert PlainLine(s);
      LineEndOf(s, Unlines(lines[1..]));
      assert text[..|s|] == s;
      assert text[|s| + 1..] == Unlines(lines[1..]);
      LinesUnlines(lines[1..]);
      assert [s] + lines[1..] == lines;
    }
  }

  /** A text without '\r' that is empty or ends with '\n' is exactly its
      lines, each written back with its '\n'. */
  lemma {:induction false} UnlinesLines(text: string)
    requires forall k :: 0 <= k < |text| ==> text[k] != '\r'
    requires text == [] || text[|text| - 1] == '\n'
    ensures Unlines(Lines(text)) == text
    decreases |text|
  {
    if text != [] {
      var i := LineEnd(text);
      EndsInNewline(text);
      var line, rest := text[..i], text[i + 1..];
      FirstLineSplit(text, i, rest);
      LinesFirst(text, i);
      UnlinesLines(rest);
      UnlinesCons(line, Lines(rest));
      JoinAtNewline(text, i);
    }
  }

  lemma {:induction false} EndsInNewline(text: string)
    requires text != [] && text[|text| - 1] == '\n'
    ensures LineEnd(text) < |text|
  {
  }

  /** The first line of a text that has a '\n' and the lines after it. */
  lemma {:induction false} LinesFirst(text: string, i: nat)
    requires i == LineEnd(text) < |text|
    ensures Lines(text) == [DropCr(text[..i])] + Lines(text[i + 1..])
  {
  }

  lemma {:induction false} UnlinesCons(line: string, lines: seq<string>)
    ensures Unlines([line] + lines) == line + "\n" + Unlines(lines)
  {
    assert ([line] + lines)[1..] == lines;
  }

  lemma {:induction false} JoinAtNewline(text: string, i: nat)
    requires i < |text| && text[i] == '\n'
    ensures text == text[..i] + "\n" + text[i + 1..]
  {
  }

  /** Splitting a '\r'-free text at its first '\n' leaves the line as it is
      and a rest that is again '\r'-free and newline-terminated. */
  lemma {:induction false} FirstLineSplit(text: string, i: nat, rest: string)
    requires forall k :: 0 <= k < |text| ==> text[k] != '\r'
    requires text != [] && text[|text| - 1] == '\n'
    requires i < |text| && text[i] == '\n' && rest == text[i + 1..]
    ensures DropCr(text[..i]) == text[..i]
    ensures forall k :: 0 <= k < |rest| ==> rest[k] != '\r'
    ensures rest == [] || rest[|rest| - 1] == '\n'
  {
    if i > 0 {
      assert text[..i][i - 1] == text[i - 1];
    }
    forall k | 0 <= k < |rest|
      ensures rest[k] != '\r'
    {
      assert rest[k] == text[i + 1 + k];
    }
    if rest != [] {
      assert rest[|rest| - 1] == text[|text| - 1];
    }
  }
}
