/** Text as the lines it splits into, each keeping what ended it. */
module TextLines {

  /** The characters `str.splitlines` splits at. */
  predicate IsBreak(c: char) {
    || '\n' <= c <= '\r' || '\U{1C}' <= c <= '\U{1E}'
    || c == '\U{85}' || c == '\U{2028}' || c == '\U{2029}'
  }

  lemma BreaksAre(c: char)
    ensures IsBreak(c) <==> c as int in {10, 11, 12, 13, 28, 29, 30, 133, 8232, 8233}
  {
    assert '\n' as int == 10 && '\r' as int == 13;
  }

  predicate Terminated(s: string) {
    s != "" && IsBreak(s[|s| - 1])
  }

  /** The line ends before `next`: a carriage return and a newline are one ending between them. */
  predicate Closes(line: string, next: string) {
    Terminated(line) && !(line[|line| - 1] == '\r' && "\n" <= next)
  }

  /** Up to and including the first line ending, if there is one. */
  function LineLength(text: string): (n: nat)
    ensures n <= |text| && (text != "" ==> n > 0)
    ensures forall i :: 0 <= i < n - 1 && IsBreak(text[i]) ==> i == n - 2 && text[i] == '\r' && text[i + 1] == '\n'
    ensures 0 < n < |text| ==> IsBreak(text[n - 1]) && !(text[n - 1] == '\r' && text[n] == '\n')
  {
    if text == "" then 0
    else if "\r\n" <= text then 2
    else if IsBreak(text[0]) then 1
    else 1 + LineLength(text[1..])
  }

  /** `splitlines(keepends=True)`. */
  function Split(text: string): seq<string> {
    if text == "" then [] else [text[..LineLength(text)]] + Split(text[LineLength(text)..])
  }

  function Join(pieces: seq<string>): string {
    if pieces == [] then "" else pieces[0] + Join(pieces[1..])
  }

  /** A line as splitting yields it: not empty, and no break but its ending. */
  predicate IsLine(s: string) {
    s != "" && forall i :: 0 <= i < |s| - 1 && IsBreak(s[i]) ==> i == |s| - 2 && s[i] == '\r' && s[i + 1] == '\n'
  }

  ghost predicate AreLines(lines: seq<string>) {
    forall i :: 0 <= i < |lines| ==> IsLine(lines[i]) && (i < |lines| - 1 ==> Closes(lines[i], lines[i + 1]))
  }

  lemma LinesCons(line: string, rest: seq<string>)
    requires IsLine(line) && AreLines(rest) && (rest != [] ==> Closes(line, rest[0]))
    ensures AreLines([line] + rest) && Join([line] + rest) == line + Join(rest)
    ensures ([line] + rest)[|rest|] == if rest == [] then line else rest[|rest| - 1]
  {
    hide IsLine, Closes;
    var all := [line] + rest;
    assert all[1..] == rest;
    forall i | 0 <= i < |all| ensures IsLine(all[i]) && (i < |all| - 1 ==> Closes(all[i], all[i + 1])) {
      if i > 0 {
        assert all[i] == rest[i - 1] && (i < |all| - 1 ==> all[i + 1] == rest[i]);
      }
    }
  }

  /** Both end in the same character. */
  predicate EndAlike(s: string, t: string) {
    s != "" && t != "" && s[|s| - 1] == t[|t| - 1]
  }

  predicate StartAlike(s: string, t: string) {
    s != "" && t != "" && s[0] == t[0]
  }

  lemma ClosesAlike(line: string, line': string, next: string, next': string)
    requires (line == line' || EndAlike(line, line')) && (next == next' || StartAlike(next, next'))
    ensures Closes(line, next) <==> Closes(line', next')
  {
  }

  lemma {:induction false} SplitYieldsLines(text: string)
    ensures AreLines(Split(text)) && Join(Split(text)) == text
    ensures text != "" ==> Split(text) != [] && StartAlike(Split(text)[0], text) && EndAlike(Split(text)[|Split(text)| - 1], text)
    decreases |text|
  {
    hide AreLines, Join, IsLine, Closes, StartAlike, EndAlike, LineLength;
    if text == "" {
      NoLines();
    } else {
      var n := LineLength(text);
      var line, tail := text[..n], text[n..];
      SplitYieldsLines(tail);
      FirstLine(text, line, tail);
      Mirrored(Split(tail), tail);
      if tail != "" {
        ClosesAlike(line, line, tail, Split(tail)[0]);
      }
      LinesCons(line, Split(tail));
    }
  }

  lemma FirstLine(text: string, line: string, tail: string)
    requires text != "" && line == text[..LineLength(text)] && tail == text[LineLength(text)..]
    ensures IsLine(line) && text == line + tail
    ensures StartAlike(line, text) && EndAlike(if tail == "" then line else tail, text)
    ensures tail != "" ==> Closes(line, tail)
  {
    hide IsBreak;
  }

  lemma Mirrored(lines: seq<string>, text: string)
    requires text != "" ==> lines != [] && StartAlike(lines[0], text) && EndAlike(lines[|lines| - 1], text)
    ensures text != "" ==> StartAlike(text, lines[0])
    ensures forall s: string :: text != "" && EndAlike(text, s) ==> EndAlike(lines[|lines| - 1], s)
  {
  }

  lemma NoLines()
    ensures AreLines([]) && Join([]) == ""
  {
  }

  lemma LineLengthOf(line: string, rest: string)
    requires IsLine(line) && (rest == "" || Closes(line, rest))
    ensures LineLength(line + rest) == |line|
  {
    hide IsBreak;
    var text := line + rest;
    assert forall i :: 0 <= i < |line| ==> text[i] == line[i];
    assert text[|line| - 1] == line[|line| - 1] && (rest != "" ==> text[|line|] == rest[0]);
  }

  lemma {:induction false} JoinedLinesSplit(lines: seq<string>)
    requires AreLines(lines)
    ensures Split(Join(lines)) == lines
  {
    hide IsLine, Closes;
    if lines != [] {
      var rest := lines[1..];
      assert AreLines(rest) by {
        assert forall i :: 0 <= i < |rest| ==> rest[i] == lines[i + 1];
      }
      JoinedLinesSplit(rest);
      if rest == [] {
        assert Join(rest) == "";
      } else {
        LineStartsJoin(rest);
        ClosesAlike(lines[0], lines[0], lines[1], Join(rest));
      }
      LineLengthOf(lines[0], Join(rest));
      assert (lines[0] + Join(rest))[..|lines[0]|] == lines[0] && (lines[0] + Join(rest))[|lines[0]|..] == Join(rest);
      assert IsLine(lines[0]);
      assert lines[0] != "" by { LineIsSome(lines[0]); }
      assert lines == [lines[0]] + rest;
    }
  }

  lemma LineIsSome(line: string)
    requires IsLine(line)
    ensures line != ""
  {
  }

  lemma LineStartsJoin(lines: seq<string>)
    requires AreLines(lines) && lines != []
    ensures StartAlike(lines[0], Join(lines))
  {
    LineIsSome(lines[0]);
  }

  lemma Regrouped(x: string, y: string, z: string)
    ensures x + (y + z) == (x + y) + z
  {
  }

  lemma {:induction false} JoinAppends(a: seq<string>, b: seq<string>)
    ensures Join(a + b) == Join(a) + Join(b)
  {
    if a == [] {
      assert a + b == b;
    } else {
      JoinAppends(a[1..], b);
      assert (a + b)[0] == a[0] && (a + b)[1..] == a[1..] + b;
      Regrouped(a[0], Join(a[1..]), Join(b));
    }
  }

  lemma JoinOne(s: string)
    ensures Join([s]) == s
  {
    assert [s][1..] == [];
  }

  /** Splicing a block between lines splits into its own lines exactly when the line it lands behind,
      if any, closes before it, and the block closes before the line that follows, if any. */
  lemma SpliceSplits(before: seq<string>, block: string, after: seq<string>)
    requires AreLines(before) && AreLines(after) && block != ""
    ensures Split(Join(before + [block] + after)) == before + Split(block) + after
      <==> (before == [] || Closes(before[|before| - 1], block)) && (after == [] || Closes(block, after[0]))
  {
    hide IsLine, Closes, Split, Join, AreLines;
    var inner := Split(block);
    SplitYieldsLines(block);
    JoinAppends(before + [block], after);
    JoinAppends(before, [block]);
    JoinOne(block);
    JoinAppends(before + inner, after);
    JoinAppends(before, inner);
    var all := before + inner + after;
    assert Join(before + [block] + after) == Join(all);
    if before != [] {
      ClosesAlike(before[|before| - 1], before[|before| - 1], block, inner[0]);
    }
    if after != [] {
      ClosesAlike(block, inner[|inner| - 1], after[0], after[0]);
    }
    if (before == [] || Closes(before[|before| - 1], block)) && (after == [] || Closes(block, after[0])) {
      SplicedAreLines(before, inner, after);
      JoinedLinesSplit(all);
    }
    if Split(Join(all)) == all {
      SplitYieldsLines(Join(all));
      SeamsClose(before, inner, after);
    }
  }

  lemma SplicedAreLines(before: seq<string>, inner: seq<string>, after: seq<string>)
    requires AreLines(before) && AreLines(inner) && AreLines(after) && inner != []
    requires before == [] || Closes(before[|before| - 1], inner[0])
    requires after == [] || Closes(inner[|inner| - 1], after[0])
    ensures AreLines(before + inner + after)
  {
    hide IsLine, Closes;
    var all, b, n := before + inner + after, |before|, |inner|;
    assert forall i :: 0 <= i < b ==> all[i] == before[i];
    assert forall i :: b <= i < b + n ==> all[i] == inner[i - b];
    assert forall i :: b + n <= i < |all| ==> all[i] == after[i - b - n];
    forall i | 0 <= i < |all| ensures IsLine(all[i]) && (i < |all| - 1 ==> Closes(all[i], all[i + 1])) {
    }
  }

  lemma SeamsClose(before: seq<string>, inner: seq<string>, after: seq<string>)
    requires AreLines(before + inner + after) && inner != []
    ensures before == [] || Closes(before[|before| - 1], inner[0])
    ensures after == [] || Closes(inner[|inner| - 1], after[0])
  {
    hide IsLine, Closes;
    var all, b, n := before + inner + after, |before|, |inner|;
    if before != [] {
      assert all[b - 1] == before[b - 1] && all[b] == inner[0];
    }
    if after != [] {
      assert all[b + n - 1] == inner[n - 1] && all[b + n] == after[0];
    }
  }
}
