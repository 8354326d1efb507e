// Editing the marker block of the hosts file (src/roblox_proxy/hosts.rs). The file's text is the
// input and the output.
module HostsFile {
  import opened Basics
  import opened RouteAssist

  const MARKER_START := "# SwiftTunnel Roblox Proxy - START"
  const MARKER_END := "# SwiftTunnel Roblox Proxy - END"

  // ----- Text and lines -----

  // `char::is_whitespace`
  predicate Whitespace(c: char) {
    var u := c as int;
    0x09 <= u <= 0x0D || u == 0x20 || u == 0x85 || u == 0xA0 || u == 0x1680 || 0x2000 <= u <= 0x200A ||
    u == 0x2028 || u == 0x2029 || u == 0x202F || u == 0x205F || u == 0x3000
  }

  function TrimStart(s: string): string {
    if s != "" && Whitespace(s[0]) then TrimStart(s[1..]) else s
  }

  function TrimEnd(s: string): string {
    if s != "" && Whitespace(s[|s| - 1]) then TrimEnd(s[..|s| - 1]) else s
  }

  function Trim(s: string): string {
    TrimStart(TrimEnd(s))
  }

  function StripCR(line: string): string {
    if line != "" && line[|line| - 1] == '\r' then line[..|line| - 1] else line
  }

  // The position of the first line feed, or the end.
  function LineEnd(s: string): (n: nat)
    ensures n <= |s| && '\n' !in s[..n] && (n < |s| ==> s[n] == '\n')
  {
    if s == "" || s[0] == '\n' then 0
    else
      var n := LineEnd(s[1..]);
      assert s[..n + 1] == [s[0]] + s[1..][..n];
      n + 1
  }

  // `str::lines`: the last line needs no ending, and one carriage return before a line feed
  // belongs to the ending.
  function Lines(s: string): seq<string> {
    if s == "" then []
    else
      var n := LineEnd(s);
      if n == |s| then [s] else [StripCR(s[..n])] + Lines(s[n + 1..])
  }

  function Unlines(lines: seq<string>): string {
    if lines == [] then "" else Unlines(lines[..|lines| - 1]) + lines[|lines| - 1] + "\n"
  }

  // `trim_end_matches('\n')`
  function TrimNewlines(s: string): string {
    if s != "" && s[|s| - 1] == '\n' then TrimNewlines(s[..|s| - 1]) else s
  }

  ghost predicate LineText(lines: seq<string>) {
    forall l :: l in lines ==> '\n' !in l
  }

  // ----- Specification of the edit -----

  predicate IsStart(line: string) {
    Trim(line) == MARKER_START
  }

  predicate IsEnd(line: string) {
    Trim(line) == MARKER_END
  }

  // Whether the text after `lines` lies inside a block.
  predicate InsideAfter(lines: seq<string>) {
    lines != [] &&
    (IsStart(lines[|lines| - 1]) || (!IsEnd(lines[|lines| - 1]) && InsideAfter(lines[..|lines| - 1])))
  }

  // The lines outside every block, markers left out, in order.
  function KeptLines(lines: seq<string>): seq<string> {
    if lines == [] then []
    else
      var n := |lines| - 1;
      KeptLines(lines[..n]) +
      (if IsStart(lines[n]) || IsEnd(lines[n]) || InsideAfter(lines[..n]) then [] else [lines[n]])
  }

  function DropBlankTail(lines: seq<string>): seq<string> {
    if lines != [] && lines[|lines| - 1] == "" then DropBlankTail(lines[..|lines| - 1]) else lines
  }

  // What a removal leaves of a text: its lines outside the blocks, without trailing blank ones.
  function Remaining(content: string): seq<string> {
    DropBlankTail(KeptLines(Lines(content)))
  }

  function Remove(content: string): string {
    Unlines(Remaining(content))
  }

  function Digits(b: Byte): string {
    if b < 10 then [DigitChar(b)]
    else if b < 100 then [DigitChar(b / 10), DigitChar(b % 10)]
    else [DigitChar(b / 100), DigitChar(b / 10 % 10), DigitChar(b % 10)]
  }

  function DigitChar(d: nat): char
    requires d < 10
  {
    "0123456789"[d]
  }

  function EntryLine(e: HostOverride): string {
    Digits(e.ip.a) + "." + Digits(e.ip.b) + "." + Digits(e.ip.c) + "." + Digits(e.ip.d) + " " + e.domain
  }

  function EntryLines(overrides: seq<HostOverride>): seq<string> {
    seq(|overrides|, i requires 0 <= i < |overrides| => EntryLine(overrides[i]))
  }

  function BlockLines(overrides: seq<HostOverride>): seq<string> {
    [MARKER_START] + EntryLines(overrides) + [MARKER_END]
  }

  // An empty remainder still gets a line feed before the block.
  function LinesBefore(remaining: seq<string>): seq<string> {
    if remaining == [] then [""] else remaining
  }

  // The file after pins have been written; an empty pin list is refused before this point.
  function Written(content: string, overrides: seq<HostOverride>): string {
    Unlines(LinesBefore(Remaining(content)) + BlockLines(overrides))
  }

  // ----- The code -----

  method RemoveMarkerBlock(content: string) returns (out: string)
    ensures out == Remove(content)
  {
    MarkersDiffer();
    assert Unlines([]) == "";
    hide Trim, LineEnd, StripCR, Unlines;
    var lines := Lines(content);
    var result := "";
    var insideBlock := false;
    for i := 0 to |lines|
      invariant insideBlock == InsideAfter(lines[..i])
      invariant result == Unlines(KeptLines(lines[..i]))
    {
      var line := lines[i];
      UnlinesPush(KeptLines(lines[..i]), line);
      KeptStep(lines, i);
      var trimmed := Trim(line);
      if trimmed == MARKER_START {
        insideBlock := true;
        continue;
      }
      if trimmed == MARKER_END {
        insideBlock := false;
        continue;
      }
      if !insideBlock {
        result := result + line;
        result := result + "\n";
      }
    }
    assert lines[..|lines|] == lines;
    LinesHaveNoNewline(content);
    KeptFrom(lines);
    TrimUnlines(KeptLines(lines));
    var trimmed := TrimNewlines(result);
    if trimmed == "" {
      return "";
    }
    out := trimmed;
    out := out + "\n";
  }

  method BuildHostsBlock(overrides: seq<HostOverride>) returns (block: string)
    ensures block == Unlines(BlockLines(overrides))
  {
    hide EntryLine;
    block := "";
    block := block + MARKER_START;
    block := block + "\n";
    UnlinesPush([], MARKER_START);
    for i := 0 to |overrides|
      invariant block == Unlines([MARKER_START] + EntryLines(overrides)[..i])
    {
      var lines := [MARKER_START] + EntryLines(overrides)[..i];
      UnlinesPush(lines, EntryLine(overrides[i]));
      assert lines + [EntryLine(overrides[i])] == [MARKER_START] + EntryLines(overrides)[..i + 1];
      block := block + (EntryLine(overrides[i]) + "\n");
    }
    assert [MARKER_START] + EntryLines(overrides)[..|overrides|] == [MARKER_START] + EntryLines(overrides);
    UnlinesPush([MARKER_START] + EntryLines(overrides), MARKER_END);
    block := block + MARKER_END;
    block := block + "\n";
  }

  // The text part of `write_overrides`.
  method WriteOverrides(content: string, overrides: seq<HostOverride>) returns (r: Result<string, string>)
    ensures r == if overrides == [] then Failure("No hosts overrides to write") else Success(Written(content, overrides))
  {
    hide Remaining, BlockLines;
    if overrides == [] {
      return Failure("No hosts overrides to write");
    }
    var out := RemoveMarkerBlock(content);
    var block := BuildHostsBlock(overrides);
    ghost var remaining := Remaining(content);
    UnlinesEndsWithNewline(remaining);
    UnlinesPush([], "");
    if out == "" || out[|out| - 1] != '\n' {
      out := out + "\n";
    }
    assert out == Unlines(LinesBefore(remaining));
    UnlinesAppend(LinesBefore(remaining), BlockLines(overrides));
    return Success(out + block);
  }

  lemma MarkersDiffer()
    ensures MARKER_START != MARKER_END
  {
    assert |MARKER_START| != |MARKER_END|;
  }

  // One line further: whether the block is open, and what is kept.
  lemma KeptStep(lines: seq<string>, i: nat)
    requires i < |lines|
    ensures InsideAfter(lines[..i + 1]) ==
            (IsStart(lines[i]) || (!IsEnd(lines[i]) && InsideAfter(lines[..i])))
    ensures KeptLines(lines[..i + 1]) ==
            if IsStart(lines[i]) || IsEnd(lines[i]) || InsideAfter(lines[..i]) then KeptLines(lines[..i])
            else KeptLines(lines[..i]) + [lines[i]]
  {
    hide IsStart, IsEnd;
    assert lines[..i + 1][..i] == lines[..i];
  }

  // ----- Text lemmas -----

  lemma UnlinesPush(lines: seq<string>, line: string)
    ensures Unlines(lines + [line]) == Unlines(lines) + line + "\n"
  {
    assert (lines + [line])[..|lines|] == lines;
  }

  lemma UnlinesEndsWithNewline(lines: seq<string>)
    ensures lines == [] <==> Unlines(lines) == ""
    ensures lines != [] ==> Unlines(lines)[|Unlines(lines)| - 1] == '\n'
  {
  }

  lemma {:induction false} UnlinesAppend(a: seq<string>, b: seq<string>)
    ensures Unlines(a + b) == Unlines(a) + Unlines(b)
  {
    hide Unlines;
    if b == [] {
      assert a + b == a;
      UnlinesEndsWithNewline(b);
    } else {
      var n := |b| - 1;
      var front, last := b[..n], b[n];
      UnlinesAppend(a, front);
      UnlinesPush(a + front, last);
      UnlinesPush(front, last);
      assert a + b == a + front + [last] && b == front + [last];
      Regroup(Unlines(a), Unlines(front), last, "\n");
    }
  }

  lemma Regroup(a: string, b: string, c: string, d: string)
    ensures a + b + c + d == a + (b + c + d)
  {
  }

  lemma {:induction false} LinesHaveNoNewline(s: string)
    ensures LineText(Lines(s))
  {
    if s != "" && LineEnd(s) < |s| {
      LinesHaveNoNewline(s[LineEnd(s) + 1..]);
    }
  }

  lemma {:induction false} KeptFrom(lines: seq<string>)
    ensures forall l :: l in KeptLines(lines) ==> l in lines && !IsStart(l) && !IsEnd(l)
  {
    hide IsStart, IsEnd, InsideAfter;
    if lines != [] {
      KeptFrom(lines[..|lines| - 1]);
    }
  }

  lemma TrimOneNewline(s: string)
    ensures TrimNewlines(s + "\n") == TrimNewlines(s)
  {
    assert (s + "\n")[..|s|] == s;
  }

  lemma NothingToTrim(front: string, last: string)
    requires last != "" && last[|last| - 1] != '\n'
    ensures TrimNewlines(front + last) == front + last
  {
    assert (front + last)[|front + last| - 1] == last[|last| - 1];
  }

  // Trimming line feeds off the text drops the blank lines at the end.
  lemma {:induction false} TrimUnlines(lines: seq<string>)
    requires LineText(lines)
    ensures var trimmed, rest := TrimNewlines(Unlines(lines)), DropBlankTail(lines);
            if rest == [] then trimmed == "" else trimmed != "" && trimmed + "\n" == Unlines(rest)
  {
    if lines != [] {
      var n := |lines| - 1;
      var front, last := Unlines(lines[..n]), lines[n];
      TrimOneNewline(front + last);
      if last == "" {
        TrimUnlines(lines[..n]);
        assert front + last == front;
      } else {
        assert last in lines && last[|last| - 1] in last;
        NothingToTrim(front, last);
      }
    }
  }

  lemma {:induction false} LineEndOfLine(line: string, rest: string)
    requires '\n' !in line
    ensures LineEnd(line + "\n" + rest) == |line|
  {
    var s := line + "\n" + rest;
    if line != "" {
      assert s[1..] == line[1..] + "\n" + rest;
      LineEndOfLine(line[1..], rest);
    }
  }

  function StripAll(lines: seq<string>): seq<string> {
    seq(|lines|, i requires 0 <= i < |lines| => StripCR(lines[i]))
  }

  lemma StripAllAppend(a: seq<string>, b: seq<string>)
    ensures StripAll(a + b) == StripAll(a) + StripAll(b)
  {
    hide StripCR;
  }

  lemma FirstLine(line: string, rest: string)
    requires '\n' !in line
    ensures Lines(line + "\n" + rest) == [StripCR(line)] + Lines(rest)
  {
    hide StripCR;
    var s := line + "\n" + rest;
    LineEndOfLine(line, rest);
    assert s[..|line|] == line && s[|line| + 1..] == rest;
  }

  lemma UnlinesFirst(lines: seq<string>)
    requires lines != []
    ensures Unlines(lines) == lines[0] + "\n" + Unlines(lines[1..])
  {
    UnlinesAppend([lines[0]], lines[1..]);
    UnlinesPush([], lines[0]);
    assert [lines[0]] + lines[1..] == lines && [] + [lines[0]] == [lines[0]];
  }

  // Reading back joined lines gives them without one carriage return each.
  lemma {:induction false} LinesOfUnlines(lines: seq<string>)
    requires LineText(lines)
    ensures Lines(Unlines(lines)) == StripAll(lines)
    decreases |lines|
  {
    if lines != [] {
      hide StripCR, Lines, Unlines;
      UnlinesFirst(lines);
      FirstLine(lines[0], Unlines(lines[1..]));
      LinesOfUnlines(lines[1..]);
      assert StripAll(lines) == [StripCR(lines[0])] + StripAll(lines[1..]);
    }
  }

  // ----- Blocks -----

  // A position is inside a block when a start marker before it has no end marker after it.
  lemma {:induction false} InsideIff(lines: seq<string>)
    ensures InsideAfter(lines) <==>
            exists s :: 0 <= s < |lines| && IsStart(lines[s]) && forall e :: s < e < |lines| ==> !IsEnd(lines[e])
  {
    hide IsStart, IsEnd;
    if lines != [] {
      var n := |lines| - 1;
      InsideIff(lines[..n]);
      if s :| 0 <= s < |lines| && IsStart(lines[s]) && forall e :: s < e < |lines| ==> !IsEnd(lines[e]) {
        if s < n {
          assert IsStart(lines[..n][s]) && forall e :: s < e < n ==> !IsEnd(lines[..n][e]);
          assert !IsEnd(lines[n]);
        }
      }
      if InsideAfter(lines[..n]) && !IsEnd(lines[n]) {
        var s :| 0 <= s < n && IsStart(lines[..n][s]) && forall e :: s < e < n ==> !IsEnd(lines[..n][e]);
        assert IsStart(lines[s]) && forall e :: s < e < |lines| && e < n ==> !IsEnd(lines[..n][e]);
        forall e | s < e < |lines| ensures !IsEnd(lines[e]) {
          assert e < n ==> !IsEnd(lines[..n][e]);
        }
      }
    }
  }

  // A line is outside every block: no marker, and every start marker before it has been closed.
  ghost predicate Outside(lines: seq<string>, i: nat)
    requires i < |lines|
  {
    !IsStart(lines[i]) && !IsEnd(lines[i]) &&
    forall s :: 0 <= s < i && IsStart(lines[s]) ==> exists e :: s < e < i && IsEnd(lines[e])
  }

  lemma {:induction false} KeptGrows(lines: seq<string>, i: nat)
    requires i <= |lines|
    ensures KeptLines(lines[..i]) <= KeptLines(lines)
    decreases |lines| - i
  {
    hide IsStart, IsEnd;
    if i < |lines| {
      KeptGrows(lines, i + 1);
      KeptStep(lines, i);
    } else {
      assert lines[..i] == lines;
    }
  }

  // Exactly the lines outside the blocks survive, each once and in order: an outside line is
  // kept right after what is kept of the lines before it, any other line adds nothing.
  lemma {:induction false} OutsideLinesSurvive(lines: seq<string>, i: nat)
    requires i < |lines|
    ensures KeptLines(lines[..i + 1]) ==
            if Outside(lines, i) then KeptLines(lines[..i]) + [lines[i]] else KeptLines(lines[..i])
    ensures KeptLines(lines[..i + 1]) <= KeptLines(lines)
  {
    hide IsStart, IsEnd, KeptLines, InsideAfter;
    KeptStep(lines, i);
    KeptGrows(lines, i + 1);
    InsideIff(lines[..i]);
    assert forall s :: 0 <= s < i ==> lines[..i][s] == lines[s];
  }

  lemma {:induction false} KeptAppend(a: seq<string>, b: seq<string>)
    requires !InsideAfter(a)
    ensures KeptLines(a + b) == KeptLines(a) + KeptLines(b) && InsideAfter(a + b) == InsideAfter(b)
  {
    hide IsStart, IsEnd;
    if b == [] {
      assert a + b == a;
    } else {
      var n := |b| - 1;
      KeptAppend(a, b[..n]);
      assert (a + b)[..|a| + n] == a + b[..n] && (a + b)[|a| + n] == b[n];
    }
  }

  lemma {:induction false} KeptPlain(lines: seq<string>)
    requires forall l :: l in lines ==> !IsStart(l) && !IsEnd(l)
    ensures KeptLines(lines) == lines && !InsideAfter(lines)
  {
    hide IsStart, IsEnd;
    if lines != [] {
      var n := |lines| - 1;
      KeptPlain(lines[..n]);
      assert lines == lines[..n] + [lines[n]];
    }
  }

  // A start marker, lines without an end marker, and an end marker leave nothing.
  lemma {:induction false} KeptOpen(start: string, entries: seq<string>)
    requires IsStart(start) && forall l :: l in entries ==> !IsEnd(l)
    ensures KeptLines([start] + entries) == [] && InsideAfter([start] + entries)
  {
    hide IsStart, IsEnd;
    var lines := [start] + entries;
    if entries == [] {
      assert lines[..0] == [] && lines[0] == start;
    } else {
      var n := |entries| - 1;
      KeptOpen(start, entries[..n]);
      assert lines[..|lines| - 1] == [start] + entries[..n] && lines[|lines| - 1] == entries[n];
    }
  }

  lemma KeptBlock(start: string, entries: seq<string>, end: string)
    requires IsStart(start) && IsEnd(end) && forall l :: l in entries ==> !IsEnd(l)
    ensures KeptLines([start] + entries + [end]) == []
  {
    hide IsStart, IsEnd;
    KeptOpen(start, entries);
    var lines := [start] + entries + [end];
    assert lines[..|lines| - 1] == [start] + entries;
  }

  // ----- Markers, entries and carriage returns -----

  lemma TrimOfMarkers()
    ensures StripCR(MARKER_START) == MARKER_START && StripCR(MARKER_END) == MARKER_END
    ensures IsStart(MARKER_START) && IsEnd(MARKER_END)
    ensures '\n' !in MARKER_START && '\n' !in MARKER_END
  {
    assert MARKER_START[0] == '#' && MARKER_START[|MARKER_START| - 1] == 'T';
    assert MARKER_END[0] == '#' && MARKER_END[|MARKER_END| - 1] == 'D';
  }

  // A carriage return at the end of a line is trimmed anyway.
  lemma StripKeepsTrim(line: string)
    ensures Trim(StripCR(line)) == Trim(line)
  {
  }

  lemma {:induction false} TrimEndKeepsFirst(s: string)
    requires s != "" && !Whitespace(s[0])
    ensures TrimEnd(s) != "" && TrimEnd(s)[0] == s[0]
  {
    if Whitespace(s[|s| - 1]) {
      TrimEndKeepsFirst(s[..|s| - 1]);
    }
  }

  lemma DigitIsPlain(d: nat)
    requires d < 10
    ensures !Whitespace(DigitChar(d)) && DigitChar(d) != '#' && DigitChar(d) != '\r' && DigitChar(d) != '\n'
  {
  }

  lemma EntryIsNoMarker(e: HostOverride)
    ensures !IsEnd(StripCR(EntryLine(e))) && !IsEnd(EntryLine(e))
    ensures '\n' !in e.domain ==> '\n' !in EntryLine(e)
  {
    var line := EntryLine(e);
    DigitsArePlain(e.ip.a);
    DigitsArePlain(e.ip.b);
    DigitsArePlain(e.ip.c);
    DigitsArePlain(e.ip.d);
    assert line[0] == Digits(e.ip.a)[0];
    hide Digits, EntryLine;
    TrimEndKeepsFirst(line);
    StripKeepsTrim(line);
    assert Trim(line)[0] == line[0] != '#';
  }

  lemma DigitsArePlain(b: Byte)
    ensures Digits(b) != "" && !Whitespace(Digits(b)[0]) && Digits(b)[0] != '#' && '\n' !in Digits(b)
  {
    if b < 10 {
      DigitIsPlain(b);
    } else if b < 100 {
      DigitIsPlain(b / 10);
      DigitIsPlain(b % 10);
    } else {
      DigitIsPlain(b / 100);
      DigitIsPlain(b / 10 % 10);
      DigitIsPlain(b % 10);
    }
  }

  // ----- The editing laws -----

  predicate NoLineFeeds(overrides: seq<HostOverride>) {
    forall e :: e in overrides ==> '\n' !in e.domain
  }

  // No line ends in a carriage return.
  predicate Unreturned(lines: seq<string>) {
    forall l :: l in lines ==> l == "" || l[|l| - 1] != '\r'
  }

  // No remaining line does.
  predicate Settled(content: string) {
    Unreturned(Remaining(content))
  }

  // Only blank lines at the end go.
  lemma {:induction false} DropBlankTailIsPrefix(lines: seq<string>)
    ensures DropBlankTail(lines) <= lines
    ensures forall i :: |DropBlankTail(lines)| <= i < |lines| ==> lines[i] == ""
    ensures DropBlankTail(DropBlankTail(lines)) == DropBlankTail(lines)
  {
    if lines != [] && lines[|lines| - 1] == "" {
      DropBlankTailIsPrefix(lines[..|lines| - 1]);
    }
  }

  // What a removal leaves: line texts, no markers, no trailing blank line.
  lemma RemainingShape(content: string)
    ensures var k := Remaining(content);
            LineText(k) && DropBlankTail(k) == k && forall l :: l in k ==> !IsStart(l) && !IsEnd(l)
  {
    hide IsStart, IsEnd;
    var kept := KeptLines(Lines(content));
    LinesHaveNoNewline(content);
    KeptFrom(Lines(content));
    DropBlankTailIsPrefix(kept);
    assert forall l :: l in DropBlankTail(kept) ==> l in kept;
  }

  // What remains of a text made of plain lines and, possibly, one block.
  lemma RemainingOfPlain(plain: seq<string>)
    requires LineText(plain) && forall l :: l in plain ==> !IsStart(l) && !IsEnd(l)
    ensures Remaining(Unlines(plain)) == DropBlankTail(StripAll(plain))
  {
    hide IsStart, IsEnd;
    LinesOfUnlines(plain);
    StrippedPlain(plain);
    KeptPlain(StripAll(plain));
  }

  // The block as it reads back: markers around lines that are no end marker.
  lemma BlockReadsBack(overrides: seq<HostOverride>)
    requires NoLineFeeds(overrides)
    ensures LineText(BlockLines(overrides))
    ensures StripAll(BlockLines(overrides)) == [MARKER_START] + StripAll(EntryLines(overrides)) + [MARKER_END]
    ensures forall l :: l in StripAll(EntryLines(overrides)) ==> !IsEnd(l)
  {
    var entries := EntryLines(overrides);
    forall i | 0 <= i < |overrides|
      ensures '\n' !in entries[i] && !IsEnd(StripCR(entries[i]))
    {
      EntryIsNoMarker(overrides[i]);
      assert overrides[i] in overrides;
    }
    TrimOfMarkers();
    hide EntryLine, IsStart, IsEnd, StripCR;
    StripAllAppend([MARKER_START] + entries, [MARKER_END]);
    StripAllAppend([MARKER_START], entries);
  }

  lemma StrippedPlain(plain: seq<string>)
    requires forall l :: l in plain ==> !IsStart(l) && !IsEnd(l)
    ensures forall l :: l in StripAll(plain) ==> !IsStart(l) && !IsEnd(l)
  {
    forall l | l in StripAll(plain)
      ensures !IsStart(l) && !IsEnd(l)
    {
      var i :| 0 <= i < |plain| && l == StripCR(plain[i]);
      StripKeepsMarker(plain[i]);
      assert plain[i] in plain;
    }
  }

  lemma RemainingOfBlock(plain: seq<string>, overrides: seq<HostOverride>)
    requires LineText(plain) && (forall l :: l in plain ==> !IsStart(l) && !IsEnd(l)) && NoLineFeeds(overrides)
    ensures Remaining(Unlines(plain + BlockLines(overrides))) == DropBlankTail(StripAll(plain))
  {
    var block := BlockLines(overrides);
    BlockReadsBack(overrides);
    TrimOfMarkers();
    StrippedPlain(plain);
    hide IsStart, IsEnd, StripAll, BlockLines, EntryLines;
    LinesOfUnlines(plain + block);
    StripAllAppend(plain, block);
    KeptPlain(StripAll(plain));
    KeptAppend(StripAll(plain), StripAll(block));
    KeptBlock(MARKER_START, StripAll(EntryLines(overrides)), MARKER_END);
    assert StripAll(plain) + [] == StripAll(plain);
  }

  lemma StripKeepsMarker(line: string)
    ensures IsStart(StripCR(line)) == IsStart(line) && IsEnd(StripCR(line)) == IsEnd(line)
  {
    StripKeepsTrim(line);
  }

  lemma {:induction false} UnlinesOfDropped(lines: seq<string>)
    ensures |Unlines(DropBlankTail(lines))| <= |Unlines(lines)|
  {
    if lines != [] && lines[|lines| - 1] == "" {
      UnlinesOfDropped(lines[..|lines| - 1]);
    }
  }

  lemma {:induction false} StripShortens(lines: seq<string>)
    ensures if Unreturned(lines) then StripAll(lines) == lines
            else |Unlines(StripAll(lines))| < |Unlines(lines)|
  {
    if lines != [] {
      var front, last := lines[..|lines| - 1], lines[|lines| - 1];
      assert lines == front + [last];
      StripShortens(front);
      StripAllAppend(front, [last]);
      assert StripAll([last]) == [StripCR(last)];
      assert Unreturned(lines) <==> Unreturned(front) && StripCR(last) == last;
      hide Unlines, StripAll, Unreturned;
      UnlinesPush(front, last);
      UnlinesPush(StripAll(front), StripCR(last));
    }
  }

  // Dropping one carriage return per line undoes nothing exactly when no line has one.
  lemma SettledIff(k: seq<string>)
    requires DropBlankTail(k) == k
    ensures var stripped := DropBlankTail(StripAll(k));
            if Unreturned(k) then stripped == k
            else |Unlines(stripped)| < |Unlines(k)|
  {
    StripShortens(k);
    UnlinesOfDropped(StripAll(k));
  }

  // Removing twice is removing once, exactly for settled texts.
  lemma RemoveIdempotentIff(content: string)
    ensures Remove(Remove(content)) == Remove(content) <==> Settled(content)
  {
    RemainingShape(content);
    hide IsStart, IsEnd;
    RemainingOfPlain(Remaining(content));
    SettledIff(Remaining(content));
  }

  // A stray carriage return at the end of the file is such an unsettled text.
  lemma StrayReturn()
    ensures Remove(Remove("a\r")) != Remove("a\r")
  {
    var content := "a\r";
    assert content[1..] == "\r" && content[..1] == "a";
    assert LineEnd("\r") == 1;
    assert Lines(content) == [content];
    assert Trim(content)[0] == 'a' != '#';
    var before: seq<string> := [];
    assert [content][..0] == before;
    assert KeptLines([content]) == [content];
    RemoveIdempotentIff(content);
  }

  lemma BlankFirst(k: seq<string>)
    requires LineText(k) && (forall l :: l in k ==> !IsStart(l) && !IsEnd(l))
    ensures LineText(LinesBefore(k)) && forall l :: l in LinesBefore(k) ==> !IsStart(l) && !IsEnd(l)
    ensures DropBlankTail(StripAll(LinesBefore(k))) == DropBlankTail(StripAll(k))
  {
    assert !IsStart("") && !IsEnd("");
    hide IsStart, IsEnd;
    assert StripAll([""]) == [""] && DropBlankTail([""]) == DropBlankTail([]);
  }

  lemma RemainingOfWritten(content: string, a: seq<HostOverride>)
    requires NoLineFeeds(a)
    ensures Remaining(Written(content, a)) == DropBlankTail(StripAll(Remaining(content)))
  {
    RemainingShape(content);
    hide IsStart, IsEnd, Remaining;
    BlankFirst(Remaining(content));
    RemainingOfBlock(LinesBefore(Remaining(content)), a);
  }

  // Removing after a write gives what removing before it gives, exactly for settled texts.
  lemma RemoveAfterWriteIff(content: string, a: seq<HostOverride>)
    requires NoLineFeeds(a)
    ensures Remove(Written(content, a)) == Remove(content) <==> Settled(content)
  {
    RemainingShape(content);
    hide IsStart, IsEnd;
    RemainingOfWritten(content, a);
    SettledIff(Remaining(content));
  }

  // A second write replaces the first, exactly for settled texts.
  lemma WriteReplacesWriteIff(content: string, a: seq<HostOverride>, b: seq<HostOverride>)
    requires NoLineFeeds(a)
    ensures Written(Written(content, a), b) == Written(content, b) <==> Settled(content)
  {
    RemainingShape(content);
    hide IsStart, IsEnd, BlockLines;
    RemainingOfWritten(content, a);
    var k := Remaining(content);
    SettledIff(k);
    var stripped := DropBlankTail(StripAll(k));
    UnlinesAppend(LinesBefore(k), BlockLines(b));
    UnlinesAppend(LinesBefore(stripped), BlockLines(b));
    if !Settled(content) {
      var l :| l in k && l != "" && l[|l| - 1] == '\r';
      AtLeastTwo(k, l);
      assert Unlines([""]) == "\n";
    }
  }

  lemma {:induction false} AtLeastTwo(lines: seq<string>, l: string)
    requires l in lines && l != ""
    ensures |Unlines(lines)| >= 2
  {
    var n := |lines| - 1;
    if lines[n] != l {
      AtLeastTwo(lines[..n], l);
    }
  }

  // Every carriage return belongs to a CR LF line ending.
  predicate PairedReturns(s: string) {
    forall i :: 0 <= i < |s| && s[i] == '\r' ==> i + 1 < |s| && s[i + 1] == '\n'
  }

  lemma NoFeedBefore(s: string, i: nat)
    requires i < LineEnd(s)
    ensures s[i] != '\n'
  {
    var line := s[..LineEnd(s)];
    assert line[i] in line;
  }

  // Up to the first line feed, a carriage return can only be the last character.
  lemma ReturnIsLast(s: string, i: nat)
    requires PairedReturns(s) && i < LineEnd(s) && s[i] == '\r'
    ensures i + 1 == LineEnd(s) < |s|
  {
    if i + 1 < LineEnd(s) {
      NoFeedBefore(s, i + 1);
    }
  }

  lemma PairedFirstLine(s: string)
    requires PairedReturns(s)
    ensures var n := LineEnd(s); '\r' !in (if n < |s| then StripCR(s[..n]) else s)
  {
    forall i | 0 <= i < LineEnd(s) && s[i] == '\r'
      ensures i + 1 == LineEnd(s) < |s|
    {
      ReturnIsLast(s, i);
    }
    hide PairedReturns, LineEnd;
  }

  lemma {:induction false} PairedLines(s: string)
    requires PairedReturns(s)
    ensures forall l :: l in Lines(s) ==> '\r' !in l
  {
    if s != "" {
      var n := LineEnd(s);
      PairedFirstLine(s);
      if n < |s| {
        var tail := s[n + 1..];
        assert forall i :: 0 <= i < |tail| ==> tail[i] == s[n + 1 + i];
        PairedLines(tail);
      }
    }
  }

  // So the laws hold for every text with LF or CR LF endings and no stray carriage return.
  lemma PairedIsSettled(content: string)
    requires PairedReturns(content)
    ensures Settled(content)
  {
    hide IsStart, IsEnd;
    PairedLines(content);
    KeptFrom(Lines(content));
    DropBlankTailIsPrefix(KeptLines(Lines(content)));
    assert forall l :: l in Remaining(content) ==> l in KeptLines(Lines(content));
  }

  // The written file reads back as the remaining lines, the block's markers and its pins.
  lemma WrittenReadsBack(content: string, a: seq<HostOverride>)
    requires Settled(content) && NoLineFeeds(a)
    requires forall e :: e in a ==> e.domain == "" || e.domain[|e.domain| - 1] != '\r'
    ensures Lines(Written(content, a)) == LinesBefore(Remaining(content)) + BlockLines(a)
  {
    RemainingShape(content);
    BlockReadsBack(a);
    var k := Remaining(content);
    StripShortens(k);
    assert StripAll([""]) == [""];
    forall i | 0 <= i < |a|
      ensures StripCR(EntryLine(a[i])) == EntryLine(a[i])
    {
      EntryKeepsEnd(a[i]);
      assert a[i] in a;
    }
    hide IsStart, IsEnd, EntryLine, StripCR, Remaining;
    assert StripAll(EntryLines(a)) == EntryLines(a);
    LinesOfUnlines(LinesBefore(k) + BlockLines(a));
    StripAllAppend(LinesBefore(k), BlockLines(a));
  }

  lemma EntryKeepsEnd(e: HostOverride)
    requires e.domain == "" || e.domain[|e.domain| - 1] != '\r'
    ensures StripCR(EntryLine(e)) == EntryLine(e)
  {
  }
}
