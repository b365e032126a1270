/**
 * The line splitting of a `bufio.Scanner` with its default split function
 * `bufio.ScanLines`: lines end at '\n', one trailing '\r' is dropped from
 * each line, and a final line without a terminator still counts when it is
 * not empty.
 */
module Bufio {

  /** Index of the first `c` in `s`. */
  function IndexOf(s: string, c: char): (i: nat)
    requires c in s
    ensures i < |s| && s[i] == c && c !in s[..i]
    decreases |s|
  {
    if s[0] == c then 0 else 1 + IndexOf(s[1..], c)
  }

  /** `dropCR`: removes one trailing carriage return. */
  function DropCR(line: string): (r: string)
    ensures r == line || (line == r + "\r")
    ensures '\n' !in line ==> '\n' !in r
  {
    if |line| > 0 && line[|line| - 1] == '\r' then line[..|line| - 1] else line
  }

  /** The lines a scanner yields from `text`, in order. */
  function ScanLines(text: string): (lines: seq<string>)
    ensures forall k :: 0 <= k < |lines| ==> '\n' !in lines[k]
    ensures text == [] <==> lines == []
    decreases |text|
  {
    if text == [] then []
    else if '\n' in text then
      var i := IndexOf(text, '\n');
      [DropCR(text[..i])] + ScanLines(text[i + 1..])
    else [DropCR(text)]
  }

  /** A line as a file stores it: no line feed inside and no carriage return at its end. */
  predicate PlainLine(line: string)
  {
    '\n' !in line && (line == [] || line[|line| - 1] != '\r')
  }

  /** The text of a file whose every line is terminated by '\n'. */
  function Terminated(lines: seq<string>): string
  {
    if lines == [] then [] else lines[0] + "\n" + Terminated(lines[1..])
  }

  /** A plain line and its line feed are read as that line, and scanning goes on after it. */
  lemma ScanConsLine(line: string, rest: string)
    requires PlainLine(line)
    ensures ScanLines(line + "\n" + rest) == [line] + ScanLines(rest)
  {
    var text := line + "\n" + rest;
    assert text[|line|] == '\n';
    assert text[..|line|] == line;
    assert IndexOf(text, '\n') == |line|;
    assert text[|line| + 1..] == rest;
  }

  /** Scanning a file of terminated plain lines yields exactly those lines. */
  lemma {:induction false} ScanTerminated(lines: seq<string>)
    requires forall k :: 0 <= k < |lines| ==> PlainLine(lines[k])
    ensures ScanLines(Terminated(lines)) == lines
    decreases |lines|
  {
    if lines != [] {
      ScanConsLine(lines[0], Terminated(lines[1..]));
      ScanTerminated(lines[1..]);
    }
  }

  /** Whatever follows terminated plain lines is scanned after them, as if on its own. */
  lemma {:induction false} ScanAfterTerminated(lines: seq<string>, tail: string)
    requires forall k :: 0 <= k < |lines| ==> PlainLine(lines[k])
    ensures ScanLines(Terminated(lines) + tail) == lines + ScanLines(tail)
    decreases |lines|
  {
    if lines == [] {
      assert Terminated(lines) + tail == tail;
    } else {
      var rest := Terminated(lines[1..]) + tail;
      TerminatedThen(lines, tail);
      ScanConsLine(lines[0], rest);
      assert ScanLines(rest) == lines[1..] + ScanLines(tail) by {
        ScanAfterTerminated(lines[1..], tail);
      }
      SplitFirst(lines, ScanLines(tail));
    }
  }

  /** A non-empty sequence followed by another is its first element followed by the rest of both. */
  lemma SplitFirst(s: seq<string>, t: seq<string>)
    requires s != []
    ensures s + t == [s[0]] + (s[1..] + t)
  {
  }

  /** The first terminated line, then the rest and what follows them. */
  lemma TerminatedThen(lines: seq<string>, tail: string)
    requires lines != []
    ensures Terminated(lines) + tail == lines[0] + "\n" + (Terminated(lines[1..]) + tail)
  {
  }

  /** Terminated plain lines followed by a final non-empty line without a terminator: the final line is read too. */
  lemma ScanUnterminatedLast(lines: seq<string>, final: string)
    requires forall k :: 0 <= k < |lines| ==> PlainLine(lines[k])
    requires final != [] && PlainLine(final)
    ensures ScanLines(Terminated(lines) + final) == lines + [final]
  {
    ScanAfterTerminated(lines, final);
    ScanSingleLine(final);
  }

  /** A non-empty plain line without a terminator is read back as that one line. */
  lemma ScanSingleLine(line: string)
    requires line != [] && PlainLine(line)
    ensures ScanLines(line) == [line]
  {
  }
}
