/** Config files as lines: splitting, joining, and the notes setup writes above its own lines. */
module ConfigLines {
  import opened Sequences
  import Tokens

  /** content as lines: split at newlines, without an empty line after the last one. */
  function SplitLines(content: string): seq<string>
    decreases |content|
  {
    if content == "" then []
    else
      var n := IndexOf(content, '\n');
      if n == |content| then [content] else [content[..n]] + SplitLines(content[n + 1..])
  }

  /** The lines, each ended by a newline. */
  function Text(lines: seq<string>): string {
    if lines == [] then "" else lines[0] + ['\n'] + Text(lines[1..])
  }

  predicate IsBlankLine(line: string) { Tokens.OnlySpace(line) }

  /** A note at the end, and a blank line above it, are removed. */
  function DropNote(kept: seq<string>, note: string): seq<string> {
    if kept == [] || kept[|kept| - 1] != note then kept
    else
      var above := kept[..|kept| - 1];
      if above != [] && IsBlankLine(above[|above| - 1]) then above[..|above| - 1] else above
  }

  /** The lines with what is missing under a note, apart from what is above it by a blank line. */
  function WithAdded(lines: seq<string>, note: string, added: seq<string>): seq<string> {
    if added == [] then lines
    else lines + (if lines != [] && !IsBlankLine(lines[|lines| - 1]) then [""] else []) + [note] + added
  }

  predicate NoNewlines(lines: seq<string>) { forall k :: 0 <= k < |lines| ==> '\n' !in lines[k] }

  lemma {:induction false} SplitNoNewlines(content: string)
    ensures NoNewlines(SplitLines(content))
    decreases |content|
  {
    if content != "" && IndexOf(content, '\n') < |content| {
      SplitNoNewlines(content[IndexOf(content, '\n') + 1..]);
    } else if content != "" {
      assert content[..|content|] == content;
    }
  }

  lemma {:induction false} SplitText(lines: seq<string>)
    requires NoNewlines(lines)
    ensures SplitLines(Text(lines)) == lines
  {
    if lines != [] {
      var text := Text(lines);
      SplitText(lines[1..]);
      CatThree(lines[0], ['\n'], Text(lines[1..]));
      IndexAfter(lines[0], ['\n'] + Text(lines[1..]), '\n');
      assert text[..|lines[0]|] == lines[0] && text[|lines[0]| + 1..] == Text(lines[1..]);
    }
  }

  lemma {:induction false} TextLonger(a: seq<string>, b: seq<string>)
    ensures |Text(a + b)| == |Text(a)| + |Text(b)|
  {
    if a == [] {
      assert a + b == b;
    } else {
      assert (a + b)[1..] == a[1..] + b;
      TextLonger(a[1..], b);
    }
  }

  lemma WithAddedGrows(lines: seq<string>, note: string, added: seq<string>)
    requires added != []
    ensures |Text(WithAdded(lines, note, added))| > |Text(lines)|
  {
    hide IsBlankLine;
    var blank := if lines != [] && !IsBlankLine(lines[|lines| - 1]) then [""] else [];
    TextLonger(lines, blank);
    TextLonger(lines + blank, [note]);
    TextLonger(lines + blank + [note], added);
    assert Text(added) == added[0] + ['\n'] + Text(added[1..]);
  }
}
