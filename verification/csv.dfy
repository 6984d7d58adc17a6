/** The newline-terminated text the probes return, and a reader that
    splits such text back into its lines. */
module Csv {

  predicate NoNewline(s: string) {
    '\n' !in s
  }

  /** Every line followed by a newline, in order. */
  function Lines(lines: seq<string>): (r: string)
    ensures lines != [] ==> lines[0] + "\n" <= r
    ensures lines != [] ==> |r| > 0 && r[|r| - 1] == '\n'
    ensures lines == [] <==> r == ""
  {
    if lines == [] then "" else lines[0] + "\n" + Lines(lines[1..])
  }

  /** Splits text at newlines; a trailing piece without a newline is a
      line of its own. `current` holds the characters of the line read so far. */
  function SplitFrom(s: string, current: string): seq<string>
    decreases |s|
  {
    if s == [] then (if current == [] then [] else [current])
    else if s[0] == '\n' then [current] + SplitFrom(s[1..], [])
    else SplitFrom(s[1..], current + [s[0]])
  }

  function SplitLines(s: string): seq<string> {
    SplitFrom(s, [])
  }

  /** Reading a newline-free line and its newline yields that line. */
  lemma {:induction false} SplitLine(line: string, rest: string, current: string)
    requires NoNewline(line)
    ensures SplitFrom(line + "\n" + rest, current) == [current + line] + SplitFrom(rest, [])
    decreases |line|
  {
    if line == [] {
      assert line + "\n" + rest == "\n" + rest;
      assert ("\n" + rest)[1..] == rest;
      assert current + line == current;
    } else {
      var s := line + "\n" + rest;
      assert s[0] == line[0] && s[1..] == line[1..] + "\n" + rest;
      assert line[0] in line;
      assert NoNewline(line[1..]) by {
        forall c | c in line[1..] ensures c != '\n' { assert c in line; }
      }
      SplitLine(line[1..], rest, current + [line[0]]);
      assert current + [line[0]] + line[1..] == current + line;
    }
  }

  /** Reading back the text `Lines` writes recovers the lines, provided
      none of them contains a newline itself. */
  lemma {:induction false} SplitLinesOfLines(lines: seq<string>)
    requires forall i :: 0 <= i < |lines| ==> NoNewline(lines[i])
    ensures SplitLines(Lines(lines)) == lines
    decreases |lines|
  {
    if lines != [] {
      SplitLine(lines[0], Lines(lines[1..]), []);
      SplitLinesOfLines(lines[1..]);
      assert [] + lines[0] == lines[0];
    }
  }
}
