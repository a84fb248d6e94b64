/** Naming, rendering, splicing and saving a captured pose. */
module CaptureFile {
  import opened Reals
  import opened Contracts
  import opened TextLines
  import opened Capture

  // ---- names ----------------------------------------------------------------------------------------

  predicate IsLetter(c: char) {
    'a' <= c <= 'z' || 'A' <= c <= 'Z'
  }

  predicate IsNameChar(c: char) {
    IsLetter(c) || '0' <= c <= '9' || c == '_' || c == '-'
  }

  predicate IsName(s: string) {
    s != "" && IsLetter(s[0]) && forall i :: 0 <= i < |s| ==> IsNameChar(s[i])
  }

  /** `NAME_PATTERN.match`: its `$` also matches before a final newline. */
  predicate PatternMatches(s: string) {
    IsName(s) || (s != "" && s[|s| - 1] == '\n' && IsName(s[..|s| - 1]))
  }

  // ---- rendering ------------------------------------------------------------------------------------

  datatype CapturedPose = CapturedPose(
    name: string, joints: seq<real>, calibrationId: string, approvedBy: string, capturedAt: string, notes: string)

  function Escape(s: string): string {
    if s == "" then ""
    else (if s[0] == '\\' then "\\\\" else if s[0] == '\"' then "\\\"" else [s[0]]) + Escape(s[1..])
  }

  function Quote(s: string): string {
    "\"" + Escape(s) + "\""
  }

  /** The rendered lines; `digits` is the joint list as formatted. */
  function RenderLines(pose: CapturedPose, digits: string): (r: seq<string>)
    ensures |r| >= 5
  {
    [ "  " + pose.name + ":\n",
      "    joints: [" + digits + "]\n",
      "    calibration_id: " + pose.calibrationId + "\n",
      "    approved_by: " + Quote(pose.approvedBy) + "\n",
      "    captured_at: " + pose.capturedAt + "\n"
    ] + if pose.notes == "" then [] else ["    notes: " + Quote(pose.notes) + "\n"]
  }

  function RenderPreset(pose: CapturedPose, digits: string): string {
    Join(RenderLines(pose, digits))
  }

  predicate OneLine(s: string) {
    forall i :: 0 <= i < |s| ==> !IsBreak(s[i])
  }

  /** One line once a newline follows: a last carriage return joins that newline. */
  predicate Unbroken(s: string) {
    forall i :: 0 <= i < |s| && IsBreak(s[i]) ==> i == |s| - 1 && s[i] == '\r'
  }

  predicate PlainFields(pose: CapturedPose, digits: string) {
    && OneLine(digits) && Unbroken(pose.calibrationId) && OneLine(pose.approvedBy)
    && Unbroken(pose.capturedAt) && OneLine(pose.notes)
  }

  /** Quoting neither breaks a line nor mends one. */
  lemma QuotingKeepsBreaks(s: string)
    ensures OneLine(Quote(s)) <==> OneLine(s)
    ensures Unbroken(Quote(s)) <==> OneLine(s)
  {
    EscapingKeepsBreaks(s);
    var quoted := Quote(s);
    assert forall i :: 0 <= i < |Escape(s)| ==> quoted[i + 1] == Escape(s)[i];
  }

  lemma {:induction false} EscapingKeepsBreaks(s: string)
    ensures OneLine(Escape(s)) <==> OneLine(s)
  {
    if s != "" {
      EscapingKeepsBreaks(s[1..]);
      var head := if s[0] == '\\' then "\\\\" else if s[0] == '\"' then "\\\"" else [s[0]];
      OneLineAppends(head, Escape(s[1..]));
      OneLineAppends([s[0]], s[1..]);
      assert s == [s[0]] + s[1..];
    }
  }

  lemma OneLineAppends(s: string, t: string)
    ensures OneLine(s + t) <==> OneLine(s) && OneLine(t)
  {
    if OneLine(s + t) {
      assert forall i :: 0 <= i < |s| ==> s[i] == (s + t)[i];
      assert forall i :: 0 <= i < |t| ==> t[i] == (s + t)[|s| + i];
    }
  }

  /** Where a double-quoted scalar ends: at the first quote that no backslash escapes. */
  function ClosingQuote(s: string): (n: nat)
    ensures n <= |s|
  {
    if s == "" || s[0] == '\"' then 0
    else if s[0] == '\\' && |s| >= 2 then 2 + ClosingQuote(s[2..])
    else 1 + ClosingQuote(s[1..])
  }

  /** No text can close its own quotes: whatever follows, the scalar ends at the quote put there. */
  lemma {:induction false} QuotesHold(s: string, rest: string)
    ensures ClosingQuote(Escape(s) + "\"" + rest) == |Escape(s)|
  {
    if s == "" {
      assert "" + "\"" + rest == "\"" + rest;
    } else {
      QuotesHold(s[1..], rest);
      var tail := Escape(s[1..]) + "\"" + rest;
      var head := if s[0] == '\\' then "\\\\" else if s[0] == '\"' then "\\\"" else [s[0]];
      assert Escape(s) == head + Escape(s[1..]);
      assert Escape(s) + "\"" + rest == head + tail;
      CharacterHolds(s[0], head, tail);
    }
  }

  lemma CharacterHolds(c: char, head: string, tail: string)
    requires head == if c == '\\' then "\\\\" else if c == '\"' then "\\\"" else [c]
    ensures ClosingQuote(head + tail) == |head| + ClosingQuote(tail)
  {
    assert (head + tail)[0] == head[0] && (head + tail)[|head|..] == tail;
  }

  /** Quoting is not safe for any text: it lets every line break through, and what follows one starts
      a line of its own in column zero, where the block ends. */
  lemma QuotedBreakEscapes(c: char)
    requires IsBreak(c)
    ensures Split(Quote("a" + [c] + "b")) == ["\"a" + [c], "b\""] && TopLevel("b\"")
  {
    hide IsBreak, IsSpace;
    PlainCharacters(c);
    var text, lines := "a" + [c] + "b", ["\"a" + [c], "b\""];
    assert Escape(text) == text by {
      assert "b"[1..] == "" && Escape("b") == "b";
      assert ([c] + "b")[1..] == "b" && Escape([c] + "b") == [c] + "b";
      assert text[1..] == [c] + "b";
    }
    assert lines[1..] == ["b\""] && ["b\""][1..] == [];
    JoinOne("b\"");
    assert Join(lines) == Quote(text);
    assert lines[0] == ['\"', 'a', c] && lines[1] == ['b', '\"'];
    assert Terminated(lines[0]) && "b\""[0] == 'b' != '\n';
    assert IsLine(lines[0]) && IsLine(lines[1]) && Closes(lines[0], lines[1]);
    JoinedLinesSplit(lines);
  }

  lemma PlainCharacters(c: char)
    requires IsBreak(c)
    ensures c != '\\' && c != '\"' && !IsBreak('a') && !IsBreak('b') && !IsBreak('\"') && !IsSpace('b')
  {
  }

  /** A line of the preset is one line exactly when its text is unbroken. */
  lemma TextLine(key: string, text: string)
    requires OneLine(key)
    ensures var line := key + text + "\n"; Terminated(line) && (IsLine(line) <==> Unbroken(text))
  {
    hide IsBreak;
    var line := key + text + "\n";
    assert IsBreak('\n') by { NewlineBreaks(); }
    assert forall i :: 0 <= i < |key| ==> line[i] == key[i];
    assert forall i :: 0 <= i < |text| ==> line[|key| + i] == text[i];
    if IsLine(line) {
      forall i | 0 <= i < |text| && IsBreak(text[i]) ensures i == |text| - 1 && text[i] == '\r' {
        assert IsBreak(line[|key| + i]);
      }
    }
  }

  lemma NewlineBreaks()
    ensures IsBreak('\n')
  {
  }

  /** A field line is indented past the entry. */
  lemma FieldLine(key: string, text: string)
    requires |key| >= 5 && OneLine(key) && key[0] == key[1] == key[2] == ' ' && !IsSpace(key[4])
    ensures var line := key + text + "\n";
      Terminated(line) && (IsLine(line) <==> Unbroken(text)) && !EntryStart(line) && !TopLevel(line) && !Blank(line)
  {
    hide IsLine, Terminated;
    var line := key + text + "\n";
    TextLine(key, text);
    assert line[4] == key[4] && line[2] == ' ' && line[0] == ' ';
  }

  lemma FieldKeys()
    ensures OneLine("    joints: [") && OneLine("    calibration_id: ") && OneLine("    approved_by: ")
    ensures OneLine("    captured_at: ") && OneLine("    notes: ") && OneLine("  ")
  {
  }

  lemma JointsLine(digits: string)
    ensures Unbroken(digits + "]") <==> OneLine(digits)
  {
    hide IsBreak;
    var text := digits + "]";
    assert !IsBreak(']') by { assert !IsSpace(']'); BreakOrNot(']'); }
    assert forall i :: 0 <= i < |digits| ==> text[i] == digits[i];
  }

  lemma BreakOrNot(c: char)
    requires !IsSpace(c)
    ensures !IsBreak(c)
  {
  }

  /** The rendered fields are one line each exactly when what was captured is. */
  lemma FieldsAreLines(pose: CapturedPose, digits: string)
    ensures var b := RenderLines(pose, digits);
      && (forall i :: 1 <= i < |b| ==> Terminated(b[i]) && !EntryStart(b[i]) && !TopLevel(b[i]) && !Blank(b[i]))
      && ((forall i :: 1 <= i < |b| ==> IsLine(b[i])) <==> PlainFields(pose, digits))
  {
    hide IsLine, Terminated, EntryStart, TopLevel, Blank, Escape, OneLine, Unbroken;
    FieldKeys();
    QuotingKeepsBreaks(pose.approvedBy);
    QuotingKeepsBreaks(pose.notes);
    JointsLine(digits);
    var b := RenderLines(pose, digits);
    FieldLine("    joints: [", digits + "]");
    assert b[1] == "    joints: [" + (digits + "]") + "\n";
    FieldLine("    calibration_id: ", pose.calibrationId);
    FieldLine("    approved_by: ", Quote(pose.approvedBy));
    FieldLine("    captured_at: ", pose.capturedAt);
    FieldLine("    notes: ", Quote(pose.notes));
    if pose.notes == "" {
      NothingIsOneLine();
      assert |b| == 5;
    } else {
      assert |b| == 6 && b[5] == "    notes: " + Quote(pose.notes) + "\n";
    }
    assert b[2] == "    calibration_id: " + pose.calibrationId + "\n";
    assert b[3] == "    approved_by: " + Quote(pose.approvedBy) + "\n";
    assert b[4] == "    captured_at: " + pose.capturedAt + "\n";
  }

  lemma NothingIsOneLine()
    ensures OneLine("")
  {
  }

  /** A proper name's key line reads back as that name. */
  lemma KeyLine(name: string)
    requires IsName(name)
    ensures IsKey("  " + name + ":\n", name)
  {
    hide IsSpace;
    var line, run := "  " + name + ":\n", name + ":";
    NamesAreSolid(name);
    SpaceOrNot();
    assert line[2] == name[0];
    assert line[2..] == run + "\n";
    RunStops(run, "\n");
    assert line[2..][..|run|] == run;
    assert LastColon(run) == |name|;
    assert run[..|name|] == name;
    NameIsBare(name);
  }

  lemma SpaceOrNot()
    ensures IsSpace('\n') && !IsSpace(':')
  {
  }

  lemma NamesAreSolid(name: string)
    requires IsName(name)
    ensures OneLine(name) && forall i :: 0 <= i < |name| ==> !IsSpace(name[i]) && name[i] != ':'
  {
    forall i | 0 <= i < |name| ensures !IsSpace(name[i]) && !IsBreak(name[i]) && name[i] != ':' {
      assert IsNameChar(name[i]);
    }
  }

  lemma {:induction false} RunStops(run: string, rest: string)
    requires (forall i :: 0 <= i < |run| ==> !IsSpace(run[i])) && rest != "" && IsSpace(rest[0])
    ensures RunLength(run + rest) == |run|
  {
    hide IsSpace;
    if run == "" {
      assert run + rest == rest;
    } else {
      RunStops(run[1..], rest);
      assert (run + rest)[1..] == run[1..] + rest;
    }
  }

  lemma NameIsBare(name: string)
    requires IsName(name)
    ensures StripQuotes(name) == name
  {
    assert IsNameChar(name[0]) && IsNameChar(name[|name| - 1]);
  }

  /** A name the pattern accepts is a proper name exactly when it is one line: `$` also lets a last
      newline through. */
  lemma NameKinds(name: string)
    requires PatternMatches(name)
    ensures IsName(name) <==> OneLine(name)
    ensures IsName(name) || name[|name| - 1] == '\n'
  {
    NewlineBreaks();
    if IsName(name) {
      NamesAreSolid(name);
    } else {
      assert IsBreak(name[|name| - 1]);
    }
  }

  /** The rendered text splits into the rendered lines if and only if nothing captured holds a line
      break. */
  lemma RenderedSplitsExactly(pose: CapturedPose, digits: string)
    ensures Split(RenderPreset(pose, digits)) == RenderLines(pose, digits)
      <==> OneLine(pose.name) && PlainFields(pose, digits)
    ensures (forall i :: 0 <= i < |RenderLines(pose, digits)| ==> IsLine(RenderLines(pose, digits)[i]))
      <==> OneLine(pose.name) && PlainFields(pose, digits)
  {
    hide Split, Join, EntryStart, TopLevel, Blank, Terminated, IsLine, RenderLines, OneLine, PlainFields;
    var b := RenderLines(pose, digits);
    FieldsAreLines(pose, digits);
    KeyIsALine(pose, digits);
    SplitYieldsLines(Join(b));
    if forall i :: 0 <= i < |b| ==> IsLine(b[i]) {
      ClosedByNewline(b);
      JoinedLinesSplit(b);
    }
  }

  lemma KeyIsALine(pose: CapturedPose, digits: string)
    ensures var b := RenderLines(pose, digits); Terminated(b[0]) && (IsLine(b[0]) <==> OneLine(pose.name))
    ensures var b := RenderLines(pose, digits); forall i :: 0 <= i < |b| ==> |b[i]| > 1 && b[i][0] == ' ' && b[i][|b[i]| - 1] == '\n'
  {
    hide IsLine, IsBreak, Terminated, Escape;
    FieldKeys();
    var text := pose.name + ":";
    assert !IsBreak(':') by { BreakOrNot(':'); }
    assert Unbroken(text) <==> OneLine(pose.name) by {
      assert forall i :: 0 <= i < |pose.name| ==> text[i] == pose.name[i];
    }
    TextLine("  ", text);
    assert RenderLines(pose, digits)[0] == "  " + text + "\n";
  }

  lemma ClosedByNewline(b: seq<string>)
    requires forall i :: 0 <= i < |b| ==> IsLine(b[i]) && |b[i]| > 1 && b[i][0] == ' ' && b[i][|b[i]| - 1] == '\n'
    ensures AreLines(b)
  {
    hide IsLine;
  }

  /** Behind a terminated line the rendered text starts a line of its own, and it closes its last one. */
  lemma RenderedSeams(pose: CapturedPose, digits: string, line: string, next: string)
    ensures var text := RenderPreset(pose, digits);
      text != "" && (Closes(line, text) <==> Terminated(line)) && Closes(text, next)
  {
    hide IsBreak, Escape, RenderLines;
    NewlineBreaks();
    var b := RenderLines(pose, digits);
    KeyIsALine(pose, digits);
    JoinEnds(b);
    assert Join(b)[0] == b[0][0];
  }

  lemma {:induction false} JoinEnds(pieces: seq<string>)
    requires pieces != [] && forall i :: 0 <= i < |pieces| ==> pieces[i] != ""
    ensures EndAlike(Join(pieces), pieces[|pieces| - 1])
  {
    if |pieces| == 1 {
      JoinOne(pieces[0]);
      assert pieces == [pieces[0]];
    } else {
      JoinEnds(pieces[1..]);
    }
  }

  /** What the pattern lets through that the splice cannot carry: with unbroken fields, the rendered
      text is an entry the locator recognises if and only if the name has no trailing newline. */
  lemma RenderedIsAnEntry(pose: CapturedPose, digits: string)
    requires PatternMatches(pose.name) && PlainFields(pose, digits)
    ensures IsEntry(pose.name, Split(RenderPreset(pose, digits))) <==> IsName(pose.name)
  {
    hide Split, Join, EntryStart, TopLevel, Blank, Terminated, IsLine, KeyOf, IsName, OneLine, PlainFields;
    FieldsAreLines(pose, digits);
    var b := RenderLines(pose, digits);
    NameKinds(pose.name);
    if IsName(pose.name) {
      KeyLine(pose.name);
      assert b[0] == "  " + pose.name + ":\n";
      RenderedSplitsExactly(pose, digits);
    } else {
      BrokenKey(pose.name, b);
    }
  }

  /** A newline in the name ends the key line before its colon. */
  lemma BrokenKey(name: string, b: seq<string>)
    requires name != "" && name[|name| - 1] == '\n' && IsName(name[..|name| - 1]) && b != [] && b[0] == "  " + name + ":\n"
    ensures Split(Join(b)) != [] && KeyOf(Split(Join(b))[0]).None?
    ensures !IsEntry(name, Split(Join(b)))
  {
    hide IsLine, IsBreak, IsSpace;
    var core := name[..|name| - 1];
    var line, text := "  " + core + "\n", Join(b);
    assert name == core + "\n";
    assert text == line + (":\n" + Join(b[1..]));
    NamesAreSolid(core);
    FieldKeys();
    TextLine("  ", core);
    assert Closes(line, ":\n" + Join(b[1..]));
    LineLengthOf(line, ":\n" + Join(b[1..]));
    assert text[..|line|] == line;
    assert Split(text)[0] == line;
    NoColon(core, line);
  }

  lemma NoColon(core: string, line: string)
    requires IsName(core) && line == "  " + core + "\n"
    ensures KeyOf(line).None?
  {
    hide IsSpace;
    assert line[2..] == core + "\n";
    NamesAreSolid(core);
    SpaceOrNot();
    RunStops(core, "\n");
    assert (core + "\n")[..|core|] == core;
  }

  // ---- the editor -----------------------------------------------------------------------------------------

  lemma FirstIs(lines: seq<string>, from: nat, until: nat, p: string -> bool, r: nat)
    requires from <= r <= until <= |lines| && (r < until ==> p(lines[r])) && forall i :: from <= i < r ==> !p(lines[i])
    ensures FirstWhere(lines, from, until, p) == r
  {
  }

  method LocateBlock(lines: seq<string>) returns (block: Block)
    ensures block == BlockBounds(lines)
  {
    var header := 0;
    while header < |lines| && !IsHeader(lines[header])
      invariant header <= |lines| && forall i :: 0 <= i < header ==> !IsHeader(lines[i])
    {
      header := header + 1;
    }
    FirstIs(lines, 0, |lines|, l => IsHeader(l), header);
    if header == |lines| {
      return NoBlock;
    }
    if !InlineIs(lines[header], "") && !InlineIs(lines[header], "{}") {
      return NoBlock;
    }
    var end := |lines|;
    for index := header + 1 to |lines|
      invariant forall i :: header + 1 <= i < index ==> !TopLevel(lines[i])
      invariant end == |lines|
    {
      if TopLevel(lines[index]) {
        end := index;
        break;
      }
    }
    FirstIs(lines, header + 1, |lines|, l => TopLevel(l), end);
    block := Block(header, end, !InlineIs(lines[header], ""));
  }

  method LocateEntry(lines: seq<string>, start: nat, end: nat, name: string) returns (bounds: Option<(nat, nat)>)
    requires start <= end <= |lines|
    ensures bounds == EntryBounds(lines, start, end, name)
  {
    hide KeyOf, EntryStart, Blank;
    for index := start to end
      invariant forall i :: start <= i < index ==> !IsKey(lines[i], name)
    {
      if IsKey(lines[index], name) {
        FirstIs(lines, start, end, l => IsKey(l, name), index);
        var stop := NextEntry(lines, index + 1, end);
        var trimmed := TrimTrailing(lines, index, stop);
        return Some((index, trimmed));
      }
    }
    FirstIs(lines, start, end, l => IsKey(l, name), end);
    bounds := None;
  }

  method NextEntry(lines: seq<string>, from: nat, end: nat) returns (stop: nat)
    requires from <= end <= |lines|
    ensures stop == FirstWhere(lines, from, end, l => EntryStart(l))
  {
    hide EntryStart;
    stop := from;
    while stop < end && !EntryStart(lines[stop])
      invariant from <= stop <= end && forall i :: from <= i < stop ==> !EntryStart(lines[i])
    {
      stop := stop + 1;
    }
    FirstIs(lines, from, end, l => EntryStart(l), stop);
  }

  method TrimTrailing(lines: seq<string>, low: nat, high: nat) returns (r: nat)
    requires low <= high <= |lines|
    ensures r == TrimBlank(lines, low, high)
  {
    hide Blank;
    r := high;
    while r > low && Blank(lines[r - 1])
      invariant low <= r <= high && TrimBlank(lines, low, r) == TrimBlank(lines, low, high)
    {
      r := r - 1;
    }
  }

  /** `insert_preset`: text in, text out, or a refusal. */
  function Inserted(text: string, name: string, block: string, replace: bool): Option<string> {
    var placed := Place(Split(text), name, replace);
    if placed.None? then None else Some(Join(placed.value.0 + [block] + placed.value.1))
  }

  method InsertPreset(text: string, name: string, block: string, replace: bool) returns (result: Option<string>)
    ensures result == Inserted(text, name, block, replace)
  {
    hide Join, Split, BlockBounds, EntryBounds;
    var lines := Split(text);
    var bounds := LocateBlock(lines);
    if bounds.NoBlock? {
      return None;
    }
    var Block(header, end, empty) := bounds;
    if empty {
      if replace {
        return None;
      }
      ghost var was := lines;
      lines := lines[header := BLOCK_KEY + "\n"];
      lines := lines[..header + 1] + [block] + lines[header + 1..];
      assert lines == was[..header] + [BLOCK_KEY + "\n"] + [block] + was[header + 1..];
      return Some(Join(lines));
    }
    var existing := LocateEntry(lines, header + 1, end, name);
    if existing.Some? {
      if !replace {
        return None;
      }
      var (start, stop) := existing.value;
      return Some(Join(lines[..start] + [block] + lines[stop..]));
    }
    if replace {
      return None;
    }
    var at := TrimTrailing(lines, header + 1, end);
    return Some(Join(lines[..at] + [block] + lines[at..]));
  }

  /** The whole law, on text. The new text holds the rendered lines where the preset was placed, and
      every other line in its order, exactly when the line it lands behind closes before it and it
      closes before what follows; the one line that may have changed is an inline `{}` header. */
  lemma InsertionIsASplice(text: string, name: string, block: string, replace: bool)
    requires Place(Split(text), name, replace).Some? && block != ""
    ensures var (before, after) := Place(Split(text), name, replace).value;
      && before != []
      && (Split(Inserted(text, name, block, replace).value) == before + Split(block) + after <==>
            Closes(before[|before| - 1], block) && (after == [] || Closes(block, after[0])))
      && (!BlockBounds(Split(text)).empty ==>
            && |before| + |after| <= |Split(text)|
            && before == Split(text)[..|before|] && after == Split(text)[|Split(text)| - |after|..])
  {
    hide Split, Join, BlockBounds, EntryBounds, Closes, IsLine, EntryLines;
    var lines := Split(text);
    var (before, after) := Place(lines, name, replace).value;
    SplitYieldsLines(text);
    PlaceOpens(lines, name, replace);
    assert before != [] by { OpensSomewhere(before, BlockBounds(lines).header, name); }
    PlacedAreLines(lines, name, replace);
    SpliceSplits(before, block, after);
    if !BlockBounds(lines).empty {
      PlaceRemoves(lines, name, replace);
    }
  }

  lemma OpensSomewhere(before: seq<string>, header: nat, name: string)
    requires Opens(before, header, name)
    ensures header < |before|
  {
  }

  lemma PlacedAreLines(lines: seq<string>, name: string, replace: bool)
    requires AreLines(lines) && Place(lines, name, replace).Some?
    ensures var (before, after) := Place(lines, name, replace).value; AreLines(before) && AreLines(after)
  {
    hide BlockBounds, EntryBounds, IsLine, Closes, EntryLines, EntryStart, IsHeader, TopLevel, IsKey, InlineIs, Opens, Clear;
    var (before, after) := Place(lines, name, replace).value;
    PlaceOpens(lines, name, replace);
    BlockSays(lines);
    if BlockBounds(lines).empty {
      BareHeaderIsALine(lines, BlockBounds(lines).header);
    } else {
      PlaceRemoves(lines, name, replace);
    }
  }

  lemma BareHeaderIsALine(lines: seq<string>, header: nat)
    requires AreLines(lines) && header < |lines| && IsHeader(lines[header])
    ensures AreLines(lines[..header] + [BLOCK_KEY + "\n"]) && AreLines(lines[header + 1..])
  {
    hide IsLine, Closes;
    var line, before := BLOCK_KEY + "\n", lines[..header] + [BLOCK_KEY + "\n"];
    assert IsLine(line) by { BareLine(); }
    forall i | 0 <= i < |before| ensures IsLine(before[i]) && (i < header ==> Closes(before[i], before[i + 1])) {
      if i < header {
        assert before[i] == lines[i];
        assert before[i + 1] == if i + 1 == header then line else lines[i + 1];
        assert Closes(lines[i], lines[i + 1]);
        if i + 1 == header {
          ClosesAlike(lines[i], lines[i], lines[header], line);
        }
      }
    }
  }

  lemma BareLine()
    ensures IsLine(BLOCK_KEY + "\n")
  {
  }

  /** The editor agrees with its own locator. After a preset went in behind a terminated line, its
      rendered lines are exactly what the locator finds if and only if its name is proper, its fields
      hold no line break and nothing indented deeper than an entry follows; then putting it in again
      is refused, and replacing it equals having put the replacement in directly. Only an inline `{}`
      block can be followed by such lines, which the new preset absorbs. */
  lemma EditorAgreesWithLocator(text: string, pose: CapturedPose, digits: string, replace: bool, block: string)
    requires PatternMatches(pose.name) && Place(Split(text), pose.name, replace).Some?
    requires var (before, after) := Place(Split(text), pose.name, replace).value;
      before != [] && Terminated(before[|before| - 1])
    ensures var after := Place(Split(text), pose.name, replace).value.1;
      var out := Inserted(text, pose.name, RenderPreset(pose, digits), replace).value;
      && (Holds(Split(out), pose.name, RenderLines(pose, digits)) <==>
            IsName(pose.name) && PlainFields(pose, digits) && Clear(after))
      && (IsName(pose.name) && PlainFields(pose, digits) ==> Inserted(out, pose.name, block, false).None?)
      && (IsName(pose.name) && PlainFields(pose, digits) && Clear(after) ==>
            Inserted(out, pose.name, block, true) == Inserted(text, pose.name, block, replace))
      && (!BlockBounds(Split(text)).empty ==> Clear(after))
  {
    hide Split, Join, BlockBounds, EntryBounds, IsName, PlainFields, RenderLines, IsEntry, Clear, Opens, Holds, Place,
      OneLine, Closes, Terminated;
    var lines, b := Split(text), RenderLines(pose, digits);
    var (before, after) := Place(lines, pose.name, replace).value;
    var out := Inserted(text, pose.name, RenderPreset(pose, digits), replace).value;
    NameKinds(pose.name);
    RenderedSplitsExactly(pose, digits);
    PlaceOpens(lines, pose.name, replace);
    if Holds(Split(out), pose.name, b) {
      SplitYieldsLines(out);
      HeldAreLines(Split(out), pose.name, b);
    }
    if IsName(pose.name) && PlainFields(pose, digits) {
      RenderedIsAnEntry(pose, digits);
      RenderedSeams(pose, digits, before[|before| - 1], if after == [] then "" else after[0]);
      InsertionIsASplice(text, pose.name, RenderPreset(pose, digits), replace);
      assert Split(out) == before + b + after;
      SpliceIsLocated(before, b, after, BlockBounds(lines).header, pose.name);
      ReinsertIsRefused(lines, pose.name, replace, b);
      InsertThenReplace(lines, pose.name, replace, b);
    }
  }

  lemma HeldAreLines(lines: seq<string>, name: string, b: seq<string>)
    requires AreLines(lines) && Holds(lines, name, b)
    ensures forall i :: 0 <= i < |b| ==> IsLine(b[i])
  {
    hide IsLine, BlockBounds, EntryBounds;
    var block := BlockBounds(lines);
    var (s, e) := EntryBounds(lines, block.header + 1, block.end, name).value;
    assert forall i :: 0 <= i < |b| ==> b[i] == lines[s + i];
  }

  // ---- saving -----------------------------------------------------------------------------------------------

  datatype Loaded =
    | Loads(calibrationId: string, jointCount: nat, positions: map<string, seq<real>>)
    | LoadRefused  // OSError or ParameterError
    | LoadCrashed  // anything else

  datatype SaveOutcome = Saved | CaptureRefused | Raised

  /** `math.isclose` with the default relative tolerance. */
  predicate IsClose(a: real, b: real) {
    Abs(a - b) <= Max(0.000000001 * Max(Abs(a), Abs(b)), 0.000001)
  }

  predicate ReadsBack(joints: seq<real>, written: seq<real>) {
    |joints| == |written| && forall i :: 0 <= i < |joints| ==> IsClose(joints[i], written[i])
  }

  /** Everything decidable before the file is touched. */
  predicate Acceptable(pose: CapturedPose, loaded: Loaded) {
    PatternMatches(pose.name) && loaded.Loads? && pose.calibrationId == loaded.calibrationId && |pose.joints| == loaded.jointCount
  }

  /** The check after the write ends in an exception the rollback does not catch: the loader failed in
      an unexpected way, or the preset read back with another number of joints. */
  predicate Uncaught(pose: CapturedPose, loaded: Loaded) {
    || loaded.LoadCrashed?
    || (loaded.Loads? && pose.name in loaded.positions && |loaded.positions[pose.name]| != |pose.joints|)
  }

  /** The check after the write: the file loads and yields the preset back. */
  predicate Verified(pose: CapturedPose, loaded: Loaded) {
    loaded.Loads? && pose.name in loaded.positions && ReadsBack(pose.joints, loaded.positions[pose.name])
  }

  /** The ASCII codes of A to Z and a to z. */
  predicate LetterCode(code: int) {
    65 <= code <= 90 || 97 <= code <= 122
  }

  /** A letter, then letters, digits (48 to 57), hyphens (45) and underscores (95). */
  predicate Spells(body: string) {
    && body != "" && LetterCode(body[0] as int)
    && forall i :: 0 <= i < |body| ==>
         var code := body[i] as int;
         LetterCode(code) || 48 <= code <= 57 || code == 45 || code == 95
  }

  lemma NamesAreSpelled(s: string)
    ensures IsName(s) <==> Spells(s)
  {
    assert 'a' as int == 97 && 'z' as int == 122 && 'A' as int == 65 && 'Z' as int == 90;
    assert '0' as int == 48 && '9' as int == 57 && '-' as int == 45 && '_' as int == 95;
  }

  /** What saving takes, spelled out: a name, a file that loads under the pose's calibration with as many
      joints; and afterwards that name in it, every joint within a millionth of a radian of what was
      captured, or within a billionth of either value. */
  lemma SavingTakes(pose: CapturedPose, before: Loaded, after: Loaded)
    ensures Acceptable(pose, before) <==>
      && (Spells(pose.name) || (pose.name != "" && pose.name[|pose.name| - 1] == '\n' && Spells(pose.name[..|pose.name| - 1])))
      && before.Loads? && before.calibrationId == pose.calibrationId && before.jointCount == |pose.joints|
    ensures Verified(pose, after) <==>
      && after.Loads? && pose.name in after.positions && |after.positions[pose.name]| == |pose.joints|
      && forall i :: 0 <= i < |pose.joints| ==>
           var a, b := pose.joints[i], after.positions[pose.name][i];
           Abs(a - b) <= 0.000001 || Abs(a - b) <= 0.000000001 * Abs(a) || Abs(a - b) <= 0.000000001 * Abs(b)
  {
    hide IsName, Spells;
    NamesAreSpelled(pose.name);
    if pose.name != "" { NamesAreSpelled(pose.name[..|pose.name| - 1]); }
  }

  class ParametersFile {
    var text: string
    const load: string -> Loaded
    const digits: seq<real> -> string

    constructor (text: string, load: string -> Loaded, digits: seq<real> -> string)
      ensures this.text == text && this.load == load && this.digits == digits
    {
      this.text, this.load, this.digits := text, load, digits;
    }

    function Updated(pose: CapturedPose, replace: bool): Option<string>
      reads this
    {
      Inserted(text, pose.name, RenderPreset(pose, digits(pose.joints)), replace)
    }

    /** The save gets as far as writing the file. */
    predicate Writes(pose: CapturedPose, replace: bool)
      reads this
    {
      Acceptable(pose, load(text)) && Updated(pose, replace).Some?
    }

    /** A save succeeds exactly when the edit reads back, and a refusal leaves the file as it was. The
        one way an edit stays without being saved is a check that ends in an exception outside the two
        caught kinds: then it always stays. */
    method SavePreset(pose: CapturedPose, replace: bool) returns (outcome: SaveOutcome)
      modifies this
      ensures outcome == Saved <==>
        old(Writes(pose, replace)) && Verified(pose, load(old(Updated(pose, replace)).value))
      ensures outcome == Raised <==>
        || old(PatternMatches(pose.name) && load(text).LoadCrashed?)
        || (old(Writes(pose, replace)) && Uncaught(pose, load(old(Updated(pose, replace)).value)))
      ensures text == if old(Writes(pose, replace)) && outcome != CaptureRefused
        then old(Updated(pose, replace)).value else old(text)
    {
      if !PatternMatches(pose.name) {
        return CaptureRefused;
      }
      var parameters := load(text);
      if parameters.LoadCrashed? {
        return Raised;
      }
      if parameters.LoadRefused? || pose.calibrationId != parameters.calibrationId || |pose.joints| != parameters.jointCount {
        return CaptureRefused;
      }
      var original := text;
      var updated := InsertPreset(original, pose.name, RenderPreset(pose, digits(pose.joints)), replace);
      if updated.None? {
        return CaptureRefused;
      }
      text := updated.value;
      var reread := load(text);
      if Uncaught(pose, reread) {
        return Raised;
      }
      if Verified(pose, reread) {
        return Saved;
      }
      text := original;
      outcome := CaptureRefused;
    }
  }

  /** A file that loads, and a preset whose name ends in a newline. The key line it renders to is not
      YAML, so a loader that crashes on it leaves the broken file in place. */
  lemma UncaughtEditStays() returns (text: string, pose: CapturedPose, load: string -> Loaded, digits: string)
    ensures Acceptable(pose, load(text)) && Inserted(text, pose.name, RenderPreset(pose, digits), false).Some?
    ensures !IsName(pose.name) && pose.name[|pose.name| - 1] == '\n'
    ensures var updated := Inserted(text, pose.name, RenderPreset(pose, digits), false).value;
      updated != text && Uncaught(pose, load(updated)) && !Verified(pose, load(updated))
  {
    hide RenderLines, Place, Split, Join, Terminated, IsBreak;
    text, digits := BLOCK_KEY + "\n", "0.0000000";
    pose := CapturedPose("home\n", [0.0], "cal", "ada", "2025-01-01", "");
    var file := text;
    load := s => if s == file then Loads("cal", 1, map[]) else LoadCrashed;
    assert pose.name[..4] == "home" && IsName("home");
    var rendered := RenderPreset(pose, digits);
    RenderedSeams(pose, digits, "", "");
    OnlyAHeader(pose.name);
    JoinAppends([text], [rendered]);
    JoinOne(text);
    JoinOne(rendered);
    assert [text] + [rendered] + [] == [text] + [rendered];
  }

  lemma OnlyAHeader(name: string)
    ensures var line := BLOCK_KEY + "\n"; Place(Split(line), name, false) == Some(([line], []))
  {
    hide InlineIs, TopLevel, IsBreak, KeyOf;
    var line := BLOCK_KEY + "\n";
    BareLine();
    LineLengthOf(line, "");
    assert line + "" == line && line[..|line|] == line && line[|line|..] == "";
    assert Split(line) == [line];
    BareHeader();
    assert BlockBounds([line]) == Block(0, 1, false);
  }
}
