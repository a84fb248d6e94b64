/** Writing a measured pose into the parameters file: a text splice that must agree with its own locator. */
module Capture {
  import opened Contracts

  // ---- how a line reads ---------------------------------------------------------------------------

  /** Whitespace to `str.strip`, `str.isspace` and `\s`. */
  predicate IsSpace(c: char) {
    || '\t' <= c <= '\r' || '\U{1C}' <= c <= ' ' || c == '\U{85}' || c == '\U{A0}' || c == '\U{1680}'
    || '\U{2000}' <= c <= '\U{200A}' || c == '\U{2028}' || c == '\U{2029}' || c == '\U{202F}'
    || c == '\U{205F}' || c == '\U{3000}'
  }

  predicate Blank(line: string) {
    forall i :: 0 <= i < |line| ==> IsSpace(line[i])
  }

  /** Content in column zero: the next top-level key, or a comment introducing it. */
  predicate TopLevel(line: string) {
    !Blank(line) && !IsSpace(line[0])
  }

  /** `^ {2}\S` */
  predicate EntryStart(line: string) {
    |line| >= 3 && line[0] == ' ' && line[1] == ' ' && !IsSpace(line[2])
  }

  function RunLength(s: string): (n: nat)
    ensures n <= |s| && forall i :: 0 <= i < n ==> !IsSpace(s[i])
    ensures n < |s| ==> IsSpace(s[n])
  {
    if s == "" || IsSpace(s[0]) then 0 else 1 + RunLength(s[1..])
  }

  /** The last colon, or 0 when there is none past the first character. */
  function LastColon(s: string): (n: nat)
    ensures n > 0 ==> n < |s| && s[n] == ':' && forall i :: n < i < |s| ==> s[i] != ':'
    ensures n == 0 ==> forall i :: 1 <= i < |s| ==> s[i] != ':'
  {
    if |s| <= 1 then 0 else if s[|s| - 1] == ':' then |s| - 1 else LastColon(s[..|s| - 1])
  }

  function StripQuotes(s: string): string {
    if s != "" && (s[0] == '\'' || s[0] == '\"') then StripQuotes(s[1..])
    else if s != "" && (s[|s| - 1] == '\'' || s[|s| - 1] == '\"') then StripQuotes(s[..|s| - 1])
    else s
  }

  /** `^ {2}(\S+):` with its greedy group, quotes stripped. */
  function KeyOf(line: string): Option<string> {
    if !EntryStart(line) then None
    else
      var run := line[2..][..RunLength(line[2..])];
      if LastColon(run) == 0 then None else Some(StripQuotes(run[..LastColon(run)]))
  }

  predicate IsKey(line: string, name: string) {
    KeyOf(line) == Some(name)
  }

  /** An entry begins with exactly two spaces, and then something that is not whitespace. */
  lemma EntryStartIs(line: string)
    ensures EntryStart(line) <==> exists rest: string :: line == "  " + rest && rest != "" && !IsSpace(rest[0])
  {
    if EntryStart(line) {
      assert line == "  " + line[2..];
    }
  }

  lemma SpacesAre(c: char)
    ensures IsSpace(c) <==> (
      c as int in {9, 10, 11, 12, 13, 28, 29, 30, 31, 32, 133, 160, 5760, 8192, 8193, 8194, 8195, 8196, 8197, 8198, 8199, 8200,
                   8201, 8202, 8232, 8233, 8239, 8287, 12288})
  {
    assert '\t' as int == 9 && '\r' as int == 13 && ' ' as int == 32;
  }

  lemma LineKinds(line: string)
    ensures TopLevel(line) ==> !Blank(line) && !EntryStart(line)
    ensures EntryStart(line) ==> !Blank(line)
    ensures KeyOf(line).Some? ==> EntryStart(line)
  {
    if EntryStart(line) {
      assert !IsSpace(line[2]);
    }
  }

  // ---- scanning ---------------------------------------------------------------------------------------

  function FirstWhere(lines: seq<string>, from: nat, until: nat, p: string -> bool): (r: nat)
    requires from <= until <= |lines|
    ensures from <= r <= until && (r < until ==> p(lines[r])) && forall i :: from <= i < r ==> !p(lines[i])
    decreases until - from
  {
    if from == until || p(lines[from]) then from else FirstWhere(lines, from + 1, until, p)
  }

  function TrimBlank(lines: seq<string>, low: nat, high: nat): (r: nat)
    requires low <= high <= |lines|
    ensures low <= r <= high && (r > low ==> !Blank(lines[r - 1])) && forall i :: r <= i < high ==> Blank(lines[i])
    decreases high
  {
    if high > low && Blank(lines[high - 1]) then TrimBlank(lines, low, high - 1) else high
  }

  const BLOCK_KEY := "named_positions:"

  predicate IsHeader(line: string) {
    BLOCK_KEY <= line
  }

  /** What follows the key on its line, stripped of whitespace, is `inline`. */
  predicate InlineIs(line: string, inline: string)
    requires IsHeader(line)
  {
    var rest := line[|BLOCK_KEY|..];
    exists i :: 0 <= i <= |rest| && Blank(rest[..i]) && inline <= rest[i..] && Blank(rest[i..][|inline|..])
  }

  datatype Block = Block(header: nat, end: nat, empty: bool) | NoBlock

  /** Where the block is; refused without a header, or with an inline value other than `{}`. */
  function BlockBounds(lines: seq<string>): (r: Block)
    ensures r.Block? ==> r.header < r.end <= |lines|
  {
    var header := FirstWhere(lines, 0, |lines|, l => IsHeader(l));
    if header == |lines| then NoBlock
    else if !InlineIs(lines[header], "") && !InlineIs(lines[header], "{}") then NoBlock
    else Block(header, FirstWhere(lines, header + 1, |lines|, l => TopLevel(l)), !InlineIs(lines[header], ""))
  }

  function EntryBounds(lines: seq<string>, start: nat, end: nat, name: string): (r: Option<(nat, nat)>)
    requires start <= end <= |lines|
    ensures r.Some? ==> start <= r.value.0 <= r.value.1 <= end
  {
    var index := FirstWhere(lines, start, end, l => IsKey(l, name));
    if index == end then None
    else Some((index, TrimBlank(lines, index, FirstWhere(lines, index + 1, end, l => EntryStart(l)))))
  }

  /** From `from` on, nothing but blank lines up to the end or the next entry. */
  ghost predicate EndsAt(lines: seq<string>, from: nat, end: nat) {
    exists k :: BlankTo(lines, from, k, end)
  }

  ghost predicate BlankTo(lines: seq<string>, from: nat, k: nat, end: nat) {
    from <= k <= end <= |lines| && (forall i :: from <= i < k ==> Blank(lines[i])) && (k == end || EntryStart(lines[k]))
  }

  /** Lines s..e are the entry: its key line, first of its name, and all that belongs to it. */
  ghost predicate IsEntryAt(lines: seq<string>, start: nat, end: nat, name: string, s: nat, e: nat) {
    && start <= s < e <= end <= |lines| && IsKey(lines[s], name)
    && (forall i :: start <= i < s ==> !IsKey(lines[i], name))
    && (forall i :: s < i < e ==> !EntryStart(lines[i]))
    && !Blank(lines[e - 1]) && EndsAt(lines, e, end)
  }

  /** The locator finds exactly the entry. */
  lemma EntryBoundsAreTheEntry(lines: seq<string>, start: nat, end: nat, name: string, s: nat, e: nat)
    requires start <= end <= |lines|
    ensures EntryBounds(lines, start, end, name) == Some((s, e)) <==> IsEntryAt(lines, start, end, name, s, e)
  {
    hide KeyOf, EntryStart, Blank;
    var found := EntryBounds(lines, start, end, name);
    if found.Some? {
      var (index, stop) := found.value;
      var following := FirstWhere(lines, index + 1, end, l => EntryStart(l));
      LineKinds(lines[index]);
      assert stop <= following <= end;
      assert BlankTo(lines, stop, following, end);
      assert IsEntryAt(lines, start, end, name, index, stop);
      if IsEntryAt(lines, start, end, name, s, e) {
        EntryIsUnique(lines, start, end, name, s, e, index, stop);
      }
    }
  }

  lemma EntryIsUnique(lines: seq<string>, start: nat, end: nat, name: string, s: nat, e: nat, s': nat, e': nat)
    requires IsEntryAt(lines, start, end, name, s, e) && IsEntryAt(lines, start, end, name, s', e')
    ensures s == s' && e == e'
  {
    hide IsKey, EntryStart, Blank;
    if e < e' {
      EntryEndsOnce(lines, end, s, e, e');
    } else if e' < e {
      EntryEndsOnce(lines, end, s, e', e);
    }
  }

  lemma EntryEndsOnce(lines: seq<string>, end: nat, s: nat, e: nat, e': nat)
    requires s < e <= e' <= end <= |lines| && EndsAt(lines, e, end)
    requires (forall i :: s < i < e' ==> !EntryStart(lines[i])) && !Blank(lines[e' - 1])
    ensures e == e'
  {
    hide EntryStart, Blank;
    var k: nat :| BlankTo(lines, e, k, end);
  }

  // ---- placing a preset --------------------------------------------------------------------------------

  /** The lines kept before and after the rendered preset; refused where the writer refuses. */
  function Place(lines: seq<string>, name: string, replace: bool): Option<(seq<string>, seq<string>)> {
    var block := BlockBounds(lines);
    if block.NoBlock? then None
    else
      var header, end := block.header, block.end;
      if block.empty then if replace then None else Some((lines[..header] + [BLOCK_KEY + "\n"], lines[header + 1..]))
      else
        var existing := EntryBounds(lines, header + 1, end, name);
        if existing.Some? then if replace then Some((lines[..existing.value.0], lines[existing.value.1..])) else None
        else if replace then None
        else var at := TrimBlank(lines, header + 1, end); Some((lines[..at], lines[at..]))
  }

  /** The block holds an entry of this name. */
  predicate Present(lines: seq<string>, name: string)
    requires BlockBounds(lines).Block?
  {
    var block := BlockBounds(lines);
    !block.empty && EntryBounds(lines, block.header + 1, block.end, name).Some?
  }

  /** Accepted exactly when there is a block, and the preset is there if and only if it is to be replaced. */
  lemma PlacesExactly(lines: seq<string>, name: string, replace: bool)
    ensures Place(lines, name, replace).Some? <==>
      && BlockBounds(lines).Block?
      && (replace <==> Present(lines, name))
  {
    hide BlockBounds, EntryBounds;
  }

  /** A rendered preset the locator can recognise: one key line, then only what belongs to it. */
  ghost predicate IsEntry(name: string, b: seq<string>) {
    && b != [] && IsKey(b[0], name) && !Blank(b[|b| - 1])
    && forall i :: 1 <= i < |b| ==> !EntryStart(b[i]) && !TopLevel(b[i])
  }

  /** Up to the header and into its block, without this preset. */
  ghost predicate Opens(before: seq<string>, header: nat, name: string) {
    && header < |before| && IsHeader(before[header]) && InlineIs(before[header], "")
    && (forall i :: 0 <= i < header ==> !IsHeader(before[i]))
    && (forall i :: header < i < |before| ==> !TopLevel(before[i]) && !IsKey(before[i], name))
  }

  /** What follows begins, blank lines aside, with another entry or with the end of the block. */
  ghost predicate Clear(after: seq<string>) {
    exists k :: ClearTo(after, k)
  }

  ghost predicate ClearTo(after: seq<string>, k: nat) {
    && k <= |after| && (forall i :: 0 <= i < k ==> Blank(after[i]))
    && (k == |after| || TopLevel(after[k]) || EntryStart(after[k]))
  }

  lemma EndsMeansClear(lines: seq<string>, at: nat, end: nat)
    requires at <= end <= |lines| && EndsAt(lines, at, end) && (end == |lines| || TopLevel(lines[end]))
    ensures Clear(lines[at..])
  {
    hide EntryStart, Blank, TopLevel;
    var after := lines[at..];
    var k: nat :| BlankTo(lines, at, k, end);
    assert forall i :: 0 <= i < |after| ==> after[i] == lines[at + i];
    assert ClearTo(after, k - at);
  }

  ghost predicate IsBlock(lines: seq<string>, header: nat, end: nat) {
    && header < end <= |lines| && IsHeader(lines[header]) && (forall i :: 0 <= i < header ==> !IsHeader(lines[i]))
    && (forall i :: header < i < end ==> !TopLevel(lines[i])) && (end == |lines| || TopLevel(lines[end]))
  }

  lemma BlockSays(lines: seq<string>)
    requires BlockBounds(lines).Block?
    ensures var Block(header, end, empty) := BlockBounds(lines);
      IsBlock(lines, header, end) && (!empty ==> InlineIs(lines[header], ""))
  {
    hide TopLevel, InlineIs, IsHeader;
  }

  lemma OpensBefore(lines: seq<string>, header: nat, end: nat, at: nat, name: string)
    requires IsBlock(lines, header, end) && InlineIs(lines[header], "") && header < at <= end
    requires forall i :: header < i < at ==> !IsKey(lines[i], name)
    ensures Opens(lines[..at], header, name)
  {
    hide TopLevel, InlineIs, IsHeader, IsKey;
  }

  lemma PlaceOpens(lines: seq<string>, name: string, replace: bool)
    requires Place(lines, name, replace).Some?
    ensures BlockBounds(lines).Block?
    ensures var (before, after) := Place(lines, name, replace).value;
      Opens(before, BlockBounds(lines).header, name) && (!BlockBounds(lines).empty ==> Clear(after))
  {
    hide IsKey, EntryStart, Blank, TopLevel, InlineIs, IsHeader, BlockBounds, EntryBounds, Opens, Clear, EndsAt;
    BlockSays(lines);
    var Block(header, end, empty) := BlockBounds(lines);
    if empty {
      BareHeader();
      OpensAfterBare(lines, header, end, name);
    } else {
      var existing := EntryBounds(lines, header + 1, end, name);
      if existing.Some? {
        var (start, stop) := existing.value;
        EntryBoundsAreTheEntry(lines, header + 1, end, name, start, stop);
        OpensBefore(lines, header, end, start, name);
        EndsMeansClear(lines, stop, end);
      } else {
        var at := TrimBlank(lines, header + 1, end);
        NoEntry(lines, header + 1, end, name);
        OpensBefore(lines, header, end, at, name);
        TrimmedEnds(lines, header + 1, end);
        EndsMeansClear(lines, at, end);
      }
    }
  }

  lemma NoEntry(lines: seq<string>, start: nat, end: nat, name: string)
    requires start <= end <= |lines| && EntryBounds(lines, start, end, name).None?
    ensures forall i :: start <= i < end ==> !IsKey(lines[i], name)
  {
  }

  lemma TrimmedEnds(lines: seq<string>, low: nat, end: nat)
    requires low <= end <= |lines|
    ensures EndsAt(lines, TrimBlank(lines, low, end), end)
  {
    hide Blank;
    var at := TrimBlank(lines, low, end);
    assert BlankTo(lines, at, end, end);
  }

  lemma OpensAfterBare(lines: seq<string>, header: nat, end: nat, name: string)
    requires IsBlock(lines, header, end)
    ensures Opens(lines[..header] + [BLOCK_KEY + "\n"], header, name)
  {
    hide TopLevel, InlineIs, IsHeader, IsKey;
    BareHeader();
  }

  lemma BareHeader()
    ensures IsHeader(BLOCK_KEY + "\n") && InlineIs(BLOCK_KEY + "\n", "")
  {
    var rest := (BLOCK_KEY + "\n")[|BLOCK_KEY|..];
    assert rest == "\n";
    assert Blank(rest[..0]) && "" <= rest[0..] && Blank(rest[0..][|""|..]);
  }

  // ---- the splice agrees with its locator ------------------------------------------------------------------

  /** After any accepted splice the locator finds the rendered lines, and nothing else, if and only if
      what follows them is blank up to another entry or the end of the block. */
  lemma SpliceIsLocated(before: seq<string>, b: seq<string>, after: seq<string>, header: nat, name: string)
    requires Opens(before, header, name) && IsEntry(name, b)
    ensures var all, block := before + b + after, BlockBounds(before + b + after);
      && block.Block? && !block.empty && block.header == header
      && EntryBounds(all, header + 1, block.end, name).Some?
      && EntryBounds(all, header + 1, block.end, name).value.0 == |before|
      && (EntryBounds(all, header + 1, block.end, name) == Some((|before|, |before| + |b|)) <==> Clear(after))
      && (Clear(after) <==> Holds(all, name, b))
  {
    hide IsKey, EntryStart, Blank, TopLevel, InlineIs, IsHeader, EntryBounds, EndsAt, Clear;
    var all := before + b + after;
    SplicedBlock(before, b, after, header, name);
    var end := BlockBounds(all).end;
    SpliceIsFound(before, b, after, header, end, name);
    EntryBoundsAreTheEntry(all, header + 1, end, name, |before|, |before| + |b|);
    if IsEntryAt(all, header + 1, end, name, |before|, |before| + |b|) {
      EndsOfSplice(before, b, after, end);
    }
    if Clear(after) {
      EndsOfSplice(before, b, after, end);
      SpliceIsEntry(before, b, after, header, end, name);
    }
  }

  lemma SplicedBlock(before: seq<string>, b: seq<string>, after: seq<string>, header: nat, name: string)
    requires Opens(before, header, name) && IsEntry(name, b)
    ensures var all, block := before + b + after, BlockBounds(before + b + after);
      && block.Block? && !block.empty && block.header == header && IsBlock(all, header, block.end)
      && |before| + |b| <= block.end
  {
    hide IsKey, EntryStart, Blank, TopLevel, InlineIs, IsHeader, KeyOf;
    var all := before + b + after;
    assert all[header] == before[header];
    assert forall i :: 0 <= i < |before| ==> all[i] == before[i];
    KeyIsIndented(b[0], name);
    assert forall i :: |before| <= i < |before| + |b| ==> all[i] == b[i - |before|];
    assert forall i :: header < i < |before| + |b| ==> !TopLevel(all[i]);
    assert FirstWhere(all, 0, |all|, l => IsHeader(l)) == header;
    BlockSays(all);
  }

  lemma KeyIsIndented(line: string, name: string)
    requires IsKey(line, name)
    ensures EntryStart(line) && !TopLevel(line) && !Blank(line)
  {
    LineKinds(line);
  }

  lemma SpliceIsFound(before: seq<string>, b: seq<string>, after: seq<string>, header: nat, end: nat, name: string)
    requires Opens(before, header, name) && IsEntry(name, b) && |before| + |b| <= end <= |before| + |b| + |after|
    ensures EntryBounds(before + b + after, header + 1, end, name).Some?
    ensures EntryBounds(before + b + after, header + 1, end, name).value.0 == |before|
  {
    hide KeyOf, EntryStart, Blank, TopLevel, InlineIs, IsHeader;
    var all := before + b + after;
    assert forall i :: 0 <= i < |before| ==> all[i] == before[i];
    assert all[|before|] == b[0];
  }

  lemma SpliceIsEntry(before: seq<string>, b: seq<string>, after: seq<string>, header: nat, end: nat, name: string)
    requires Opens(before, header, name) && IsEntry(name, b) && |before| + |b| <= end <= |before| + |b| + |after|
    requires EndsAt(before + b + after, |before| + |b|, end)
    ensures IsEntryAt(before + b + after, header + 1, end, name, |before|, |before| + |b|)
  {
    hide IsKey, EntryStart, Blank, TopLevel, InlineIs, IsHeader, EndsAt;
    var all := before + b + after;
    assert forall i :: 0 <= i < |before| ==> all[i] == before[i];
    assert forall i :: |before| <= i < |before| + |b| ==> all[i] == b[i - |before|];
  }

  lemma EndsOfSplice(before: seq<string>, b: seq<string>, after: seq<string>, end: nat)
    requires |before| + |b| <= end <= |before| + |b| + |after|
    requires end == |before| + |b| + |after| || TopLevel((before + b + after)[end])
    requires forall i :: |before| + |b| <= i < end ==> !TopLevel((before + b + after)[i])
    ensures EndsAt(before + b + after, |before| + |b|, end) <==> Clear(after)
  {
    hide EntryStart, Blank, TopLevel, EndsAt;
    var all, n := before + b + after, |before| + |b|;
    assert all[n..] == after;
    assert forall i :: 0 <= i < |after| ==> after[i] == all[n + i];
    if EndsAt(all, n, end) {
      EndsMeansClear(all, n, end);
    }
    if Clear(after) {
      var k: nat :| ClearTo(after, k);
      ClearEnds(all, n, end, k);
    }
  }

  lemma ClearEnds(all: seq<string>, n: nat, end: nat, k: nat)
    requires n <= end <= |all| && n + k <= |all|
    requires forall i :: n <= i < n + k ==> Blank(all[i])
    requires n + k == |all| || TopLevel(all[n + k]) || EntryStart(all[n + k])
    requires end == |all| || TopLevel(all[end])
    requires forall i :: n <= i < end ==> !TopLevel(all[i])
    ensures EndsAt(all, n, end)
  {
    assert BlankTo(all, n, if n + k < end then n + k else end, end);
  }

  /** Recapturing is a re-approval: once a preset is in, putting it in again without `replace` is refused. */
  lemma ReinsertIsRefused(lines: seq<string>, name: string, replace: bool, b: seq<string>)
    requires Place(lines, name, replace).Some? && IsEntry(name, b)
    ensures Place(Place(lines, name, replace).value.0 + b + Place(lines, name, replace).value.1, name, false).None?
  {
    hide BlockBounds, EntryBounds, Opens, Clear, IsEntry;
    var (before, after) := Place(lines, name, replace).value;
    PlaceOpens(lines, name, replace);
    SpliceIsLocated(before, b, after, BlockBounds(lines).header, name);
  }

  /** Insert then replace keeps exactly what inserting the replacement directly would keep, whenever
      the splice is one its own locator bounds exactly. */
  lemma InsertThenReplace(lines: seq<string>, name: string, replace: bool, b: seq<string>)
    requires Place(lines, name, replace).Some? && IsEntry(name, b)
    ensures var (before, after) := Place(lines, name, replace).value;
      Place(before + b + after, name, true) == Some((before, after)) <==> Clear(after)
  {
    hide BlockBounds, EntryBounds, Opens, Clear, IsEntry;
    var (before, after) := Place(lines, name, replace).value;
    PlaceOpens(lines, name, replace);
    SpliceIsLocated(before, b, after, BlockBounds(lines).header, name);
    var all := before + b + after;
    var (start, stop) := EntryBounds(all, BlockBounds(lines).header + 1, BlockBounds(all).end, name).value;
    EntryBoundsAreTheEntry(all, BlockBounds(lines).header + 1, BlockBounds(all).end, name, start, stop);
    assert all[..|before|] == before && all[|before| + |b|..] == after;
    if Place(all, name, true) == Some((before, after)) {
      assert |all[stop..]| == |after|;
    }
  }

  // ---- the other presets ------------------------------------------------------------------------------------

  ghost predicate EntryLines(lines: seq<string>, at: nat, n: nat, name: string) {
    && at < n <= |lines| && IsKey(lines[at], name) && EntryStart(lines[at])
    && forall i :: at < i < n ==> !EntryStart(lines[i])
  }

  /** Up to `at` the same lines, then one entry (or none) turned into another, then the same lines. */
  ghost predicate Edit(lines: seq<string>, all: seq<string>, at: nat, n: nat, m: nat, name: string) {
    && at <= n <= |lines| && at < m <= |all| && |lines| - n == |all| - m
    && (forall i :: 0 <= i < at ==> all[i] == lines[i])
    && (forall i :: n <= i < |lines| ==> lines[i] == all[i - n + m])
    && (forall i :: m <= i < |all| ==> all[i] == lines[i - m + n])
    && EntryLines(all, at, m, name) && (at == n || EntryLines(lines, at, n, name))
    && exists k :: ClearFrom(lines, n, k)
  }

  ghost predicate ClearFrom(lines: seq<string>, n: nat, k: nat) {
    && n <= k <= |lines| && (forall i :: n <= i < k ==> Blank(lines[i]))
    && (k == |lines| || TopLevel(lines[k]) || EntryStart(lines[k]))
  }

  lemma PlaceEdits(lines: seq<string>, name: string, replace: bool, b: seq<string>)
    requires Place(lines, name, replace).Some? && IsEntry(name, b) && !BlockBounds(lines).empty
    ensures var (before, after) := Place(lines, name, replace).value;
      && |before| + |after| <= |lines| && BlockBounds(lines).header < |before| && |lines| - |after| <= BlockBounds(lines).end
      && Edit(lines, before + b + after, |before|, |lines| - |after|, |before| + |b|, name)
  {
    hide BlockBounds, EntryBounds, IsKey, EntryStart, Blank, TopLevel, Opens, Clear, IsHeader, InlineIs, Place, Edit, EntryLines;
    var (before, after) := Place(lines, name, replace).value;
    PlaceOpens(lines, name, replace);
    PlaceRemoves(lines, name, replace);
    SlicesEdit(lines, |before|, |lines| - |after|, b, name);
  }

  lemma SlicesEdit(lines: seq<string>, at: nat, n: nat, b: seq<string>, name: string)
    requires at <= n <= |lines| && IsEntry(name, b) && Clear(lines[n..]) && (at == n || EntryLines(lines, at, n, name))
    ensures Edit(lines, lines[..at] + b + lines[n..], at, n, at + |b|, name)
  {
    hide IsKey, EntryStart, Blank, TopLevel, Clear, EntryLines, ClearFrom;
    ClearBehind(lines, n);
    KeyIsIndented(b[0], name);
    EntryIsSpliced(lines[..at], b, lines[n..], name);
    EntryLinesFit(lines[..at] + b + lines[n..], at, at + |b|, name);
  }

  lemma EntryLinesFit(lines: seq<string>, at: nat, n: nat, name: string)
    requires EntryLines(lines, at, n, name)
    ensures at < n <= |lines|
  {
  }

  lemma PlaceRemoves(lines: seq<string>, name: string, replace: bool)
    requires Place(lines, name, replace).Some? && !BlockBounds(lines).empty
    ensures var (before, after) := Place(lines, name, replace).value;
      && |before| + |after| <= |lines| && BlockBounds(lines).header < |before| && |lines| - |after| <= BlockBounds(lines).end
      && before == lines[..|before|] && after == lines[|lines| - |after|..]
      && (|before| == |lines| - |after| || EntryLines(lines, |before|, |lines| - |after|, name))
  {
    hide BlockBounds, EntryBounds, IsKey, EntryStart, Blank, TopLevel, IsHeader, InlineIs;
    BlockSays(lines);
    var Block(header, end, empty) := BlockBounds(lines);
    var existing := EntryBounds(lines, header + 1, end, name);
    if existing.Some? {
      var (start, stop) := existing.value;
      EntryBoundsAreTheEntry(lines, header + 1, end, name, start, stop);
      KeyIsIndented(lines[start], name);
    }
  }

  lemma ClearBehind(lines: seq<string>, n: nat)
    requires n <= |lines| && Clear(lines[n..])
    ensures exists k :: ClearFrom(lines, n, k)
  {
    hide EntryStart, Blank, TopLevel;
    var k: nat :| ClearTo(lines[n..], k);
    assert forall i :: n <= i < |lines| ==> lines[i] == lines[n..][i - n];
    assert ClearFrom(lines, n, n + k);
  }

  lemma EntryIsSpliced(before: seq<string>, b: seq<string>, after: seq<string>, name: string)
    requires IsEntry(name, b) && EntryStart(b[0])
    ensures EntryLines(before + b + after, |before|, |before| + |b|, name)
  {
    hide IsKey, EntryStart, Blank, TopLevel;
    var all := before + b + after;
    assert forall i :: |before| <= i < |before| + |b| ==> all[i] == b[i - |before|];
  }

  /** The file's own locator finds the preset, and its lines are these. */
  ghost predicate Holds(lines: seq<string>, name: string, entry: seq<string>) {
    var block := BlockBounds(lines);
    && block.Block?
    && var found := EntryBounds(lines, block.header + 1, block.end, name);
       found.Some? && lines[found.value.0..found.value.1] == entry
  }

  /** Saving one preset leaves every other where the locator finds it, line for line. */
  lemma OtherPresetsSurvive(lines: seq<string>, name: string, replace: bool, b: seq<string>, other: string, entry: seq<string>)
    requires Place(lines, name, replace).Some? && IsEntry(name, b) && other != name && !BlockBounds(lines).empty
    requires Holds(lines, other, entry)
    ensures Holds(Place(lines, name, replace).value.0 + b + Place(lines, name, replace).value.1, other, entry)
  {
    hide BlockBounds, EntryBounds, Opens, Clear, IsKey, Place, IsEntry, TopLevel, IsHeader, EntryStart, EndsAt, Blank, Edit;
    var (before, after) := Place(lines, name, replace).value;
    var all, at, n, m := before + b + after, |before|, |lines| - |after|, |before| + |b|;
    PlaceOpens(lines, name, replace);
    PlaceEdits(lines, name, replace, b);
    BlockSays(lines);
    var block := BlockBounds(lines);
    SplicedBlock(before, b, after, block.header, name);
    var now := BlockBounds(all);
    EndShared(lines, all, at, n, m, name, block.header, block.end, now.end);
    var (s, e) := EntryBounds(lines, block.header + 1, block.end, other).value;
    EntryBoundsAreTheEntry(lines, block.header + 1, block.end, other, s, e);
    var found := OtherEntry(lines, all, at, n, m, name, block.header, block.end, now.end, other, s, e);
    EntryBoundsAreTheEntry(all, block.header + 1, now.end, other, found.0, found.1);
  }

  /** The block ends at the same line of what follows the splice, before and after. */
  lemma EndShared(lines: seq<string>, all: seq<string>, at: nat, n: nat, m: nat, name: string, header: nat, end: nat, end': nat)
    requires Edit(lines, all, at, n, m, name) && IsBlock(lines, header, end) && IsBlock(all, header, end')
    requires header < at && n <= end && m <= end'
    ensures end' - m == end - n
  {
    hide TopLevel, IsHeader, IsKey, EntryStart, Blank;
    assert end < |lines| ==> lines[end] == all[end - n + m];
    assert end' < |all| ==> all[end'] == lines[end' - m + n];
  }

  lemma OtherEntry(lines: seq<string>, all: seq<string>, at: nat, n: nat, m: nat, name: string, header: nat, end: nat, end': nat,
      other: string, s: nat, e: nat) returns (found: (nat, nat))
    requires Edit(lines, all, at, n, m, name) && IsBlock(lines, header, end) && header < at && n <= end && end' - m == end - n
    requires IsEntryAt(lines, header + 1, end, other, s, e) && other != name
    ensures IsEntryAt(all, header + 1, end', other, found.0, found.1)
    ensures s <= e <= |lines| && all[found.0..found.1] == lines[s..e]
  {
    hide IsKey, EntryStart, Blank, TopLevel, IsHeader, EndsAt;
    if s < at {
      EntryStopsBy(lines, all, at, n, m, name, header, end, s, e);
      EndsBy(lines, all, at, n, m, name, end, end', e);
      found := (s, e);
    } else {
      EntryIsBehind(lines, all, at, n, m, name, header, other, s);
      EndsShift(lines, all, at, n, m, name, e, end);
      NoneEarlier(lines, all, at, n, m, name, header, other, s);
      found := (s - n + m, e - n + m);
      assert forall i :: s <= i < e ==> lines[i] == all[i - n + m];
    }
  }

  // An entry before the splice is over by where the splice is made.
  lemma EntryStopsBy(lines: seq<string>, all: seq<string>, at: nat, n: nat, m: nat, name: string, header: nat, end: nat, s: nat, e: nat)
    requires Edit(lines, all, at, n, m, name) && IsBlock(lines, header, end) && n <= end
    requires header < s < at && s < e <= end
    requires (forall i :: s < i < e ==> !EntryStart(lines[i])) && !Blank(lines[e - 1])
    ensures e <= at
  {
    hide EntryStart, Blank, TopLevel, IsKey, IsHeader;
    if at == n {
      var k: nat :| ClearFrom(lines, n, k);
      assert e <= k;
    }
  }

  lemma EndsBy(lines: seq<string>, all: seq<string>, at: nat, n: nat, m: nat, name: string, end: nat, end': nat, e: nat)
    requires Edit(lines, all, at, n, m, name) && n <= end && end' - m == end - n
    requires e <= at && EndsAt(lines, e, end)
    ensures EndsAt(all, e, end')
  {
    hide EntryStart, Blank, TopLevel, IsKey;
    var k: nat :| BlankTo(lines, e, k, end);
    assert BlankTo(all, e, if k < at then k else at, end');
  }

  lemma EntryIsBehind(lines: seq<string>, all: seq<string>, at: nat, n: nat, m: nat, name: string, header: nat, other: string, s: nat)
    requires Edit(lines, all, at, n, m, name) && at <= s < |lines| && IsKey(lines[s], other) && other != name
    ensures n <= s
  {
    hide EntryStart, Blank, TopLevel, KeyOf;
    KeyIsIndented(lines[s], other);
  }

  lemma EndsShift(lines: seq<string>, all: seq<string>, at: nat, n: nat, m: nat, name: string, e: nat, end: nat)
    requires Edit(lines, all, at, n, m, name) && n <= e <= end <= |lines| && EndsAt(lines, e, end)
    ensures EndsAt(all, e - n + m, end - n + m)
  {
    hide EntryStart, Blank, TopLevel, IsKey, EntryLines;
    var k: nat :| BlankTo(lines, e, k, end);
    assert BlankTo(all, e - n + m, k - n + m, end - n + m);
  }

  lemma NoneEarlier(lines: seq<string>, all: seq<string>, at: nat, n: nat, m: nat, name: string, header: nat, other: string, s: nat)
    requires Edit(lines, all, at, n, m, name) && header < at && n <= s < |lines| && other != name
    requires forall i :: header + 1 <= i < s ==> !IsKey(lines[i], other)
    ensures forall i :: header + 1 <= i < s - n + m ==> !IsKey(all[i], other)
  {
    hide EntryStart, Blank, TopLevel, KeyOf;
    forall i | header + 1 <= i < s - n + m ensures !IsKey(all[i], other) {
      LineKinds(all[i]);
      if i < at {
        assert all[i] == lines[i];
      } else if m <= i {
        assert all[i] == lines[i - m + n];
      }
    }
  }
}
