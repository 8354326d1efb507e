// What the written hosts file means (src/roblox_proxy/hosts.rs): a reader of hosts lines, written
// independently of the printer, gets the pins back.
module HostsPins {
  import opened Basics
  import RouteAssist
  import opened HostsFile

  // ----- A reader of hosts lines: dotted decimal address, one space, the name -----

  predicate Decimal(s: string) {
    s != "" && forall c :: c in s ==> '0' <= c <= '9'
  }

  function DecimalValue(s: string): nat
    requires forall c :: c in s ==> '0' <= c <= '9'
  {
    if s == "" then 0
    else
      var n := |s| - 1;
      assert s[n] in s && forall c :: c in s[..n] ==> c in s;
      10 * DecimalValue(s[..n]) + (s[n] as int - '0' as int)
  }

  // A decimal number below 256 without leading zeros.
  function ReadOctet(s: string): Option<Byte> {
    if !Decimal(s) || (|s| > 1 && s[0] == '0') || DecimalValue(s) > 255 then None else Some(DecimalValue(s))
  }

  // The text before the first `c` and the text after it.
  function Cut(s: string, c: char): Option<(string, string)> {
    if s == "" then None
    else if s[0] == c then Some(("", s[1..]))
    else
      match Cut(s[1..], c)
      case None => None
      case Some((before, after)) => Some(([s[0]] + before, after))
  }

  function ReadAddress(s: string): Option<Ipv4> {
    match Cut(s, '.')
    case None => None
    case Some((a, s1)) =>
      match Cut(s1, '.')
      case None => None
      case Some((b, s2)) =>
        match Cut(s2, '.')
        case None => None
        case Some((c, d)) =>
          if ReadOctet(a).Some? && ReadOctet(b).Some? && ReadOctet(c).Some? && ReadOctet(d).Some?
          then Some(Ipv4(ReadOctet(a).value, ReadOctet(b).value, ReadOctet(c).value, ReadOctet(d).value))
          else None
  }

  function ReadLine(line: string): Option<RouteAssist.HostOverride> {
    match Cut(line, ' ')
    case None => None
    case Some((address, domain)) =>
      match ReadAddress(address)
      case None => None
      case Some(ip) => Some(RouteAssist.HostOverride(ip, domain))
  }

  // ----- Every printed line reads as its pin -----

  lemma {:induction false} CutAt(before: string, c: char, after: string)
    requires c !in before
    ensures Cut(before + [c] + after, c) == Some((before, after))
  {
    var s := before + [c] + after;
    if before != "" {
      assert s[1..] == before[1..] + [c] + after;
      assert before == [before[0]] + before[1..] && s[0] == before[0] && before[0] in before;
      CutAt(before[1..], c, after);
    } else {
      assert s[1..] == after;
    }
  }

  lemma DigitReads(d: nat)
    requires d < 10
    ensures '0' <= DigitChar(d) <= '9' && DigitChar(d) as int - '0' as int == d
  {
  }

  lemma OneDigit(x: char)
    requires '0' <= x <= '9'
    ensures Decimal([x]) && DecimalValue([x]) == x as int - '0' as int
  {
    assert [x][..0] == "";
  }

  lemma MoreDigits(s: string, x: char)
    requires Decimal(s) && '0' <= x <= '9'
    ensures Decimal(s + [x]) && DecimalValue(s + [x]) == 10 * DecimalValue(s) + (x as int - '0' as int)
  {
    assert (s + [x])[..|s|] == s;
  }

  lemma TwoDigits(x: nat, y: nat)
    requires 0 < x < 10 && y < 10
    ensures ReadOctet([DigitChar(x), DigitChar(y)]) == Some(10 * x + y)
  {
    DigitReads(x);
    DigitReads(y);
    hide DigitChar, DecimalValue;
    OneDigit(DigitChar(x));
    MoreDigits([DigitChar(x)], DigitChar(y));
    assert [DigitChar(x), DigitChar(y)] == [DigitChar(x)] + [DigitChar(y)];
  }

  lemma ThreeDigits(x: nat, y: nat, z: nat)
    requires 0 < x < 10 && y < 10 && z < 10 && 100 * x + 10 * y + z < 256
    ensures ReadOctet([DigitChar(x), DigitChar(y), DigitChar(z)]) == Some(100 * x + 10 * y + z)
  {
    DigitReads(x);
    DigitReads(y);
    DigitReads(z);
    hide DigitChar, DecimalValue;
    OneDigit(DigitChar(x));
    MoreDigits([DigitChar(x)], DigitChar(y));
    MoreDigits([DigitChar(x)] + [DigitChar(y)], DigitChar(z));
    assert [DigitChar(x), DigitChar(y), DigitChar(z)] == [DigitChar(x)] + [DigitChar(y)] + [DigitChar(z)];
  }

  lemma OctetReads(b: Byte)
    ensures ReadOctet(Digits(b)) == Some(b)
  {
    hide DigitChar, ReadOctet;
    if b < 10 {
      DigitReads(b);
      OneDigit(DigitChar(b));
      SingleDigit(DigitChar(b));
    } else if b < 100 {
      TwoDigits(b / 10, b % 10);
    } else {
      ThreeDigits(b / 100, b / 10 % 10, b % 10);
    }
  }

  lemma SingleDigit(x: char)
    requires '0' <= x <= '9'
    ensures ReadOctet([x]) == Some(x as int - '0' as int)
  {
    OneDigit(x);
  }

  function Dotted(ip: Ipv4): string {
    Digits(ip.a) + "." + Digits(ip.b) + "." + Digits(ip.c) + "." + Digits(ip.d)
  }

  lemma AddressReads(ip: Ipv4)
    ensures ReadAddress(Dotted(ip)) == Some(ip) && ' ' !in Dotted(ip)
  {
    OctetReads(ip.a);
    OctetReads(ip.b);
    OctetReads(ip.c);
    OctetReads(ip.d);
    hide Digits, DecimalValue;
    var s2 := Digits(ip.c) + ['.'] + Digits(ip.d);
    var s1 := Digits(ip.b) + ['.'] + s2;
    assert Dotted(ip) == Digits(ip.a) + ['.'] + s1;
    CutAt(Digits(ip.a), '.', s1);
    CutAt(Digits(ip.b), '.', s2);
    CutAt(Digits(ip.c), '.', Digits(ip.d));
  }

  // Main result: the reader returns the pin, for every address and every name.
  lemma EntryReads(e: RouteAssist.HostOverride)
    ensures ReadLine(EntryLine(e)) == Some(e)
  {
    AddressReads(e.ip);
    assert EntryLine(e) == Dotted(e.ip) + [' '] + e.domain;
    hide Dotted, ReadAddress, EntryLine;
    CutAt(Dotted(e.ip), ' ', e.domain);
  }

  // ----- The pins of a file -----

  // The lines between a start and an end marker, as pins.
  function BlockPins(lines: seq<string>): seq<Option<RouteAssist.HostOverride>> {
    if lines == [] then []
    else
      var n := |lines| - 1;
      BlockPins(lines[..n]) +
      (if IsStart(lines[n]) || IsEnd(lines[n]) || !InsideAfter(lines[..n]) then [] else [ReadLine(lines[n])])
  }

  function ReadAll(lines: seq<string>): seq<Option<RouteAssist.HostOverride>> {
    seq(|lines|, i requires 0 <= i < |lines| => ReadLine(lines[i]))
  }

  lemma {:induction false} NoBlockPins(lines: seq<string>)
    requires forall l :: l in lines ==> !IsStart(l) && !IsEnd(l)
    ensures BlockPins(lines) == [] && !InsideAfter(lines)
  {
    hide IsStart, IsEnd, ReadLine;
    if lines != [] {
      NoBlockPins(lines[..|lines| - 1]);
    }
  }

  lemma {:induction false} OpenBlockPins(plain: seq<string>, start: string, entries: seq<string>)
    requires BlockPins(plain) == [] && IsStart(start) && !IsEnd(start)
    requires forall l :: l in entries ==> !IsStart(l) && !IsEnd(l)
    ensures BlockPins(plain + [start] + entries) == ReadAll(entries) && InsideAfter(plain + [start] + entries)
  {
    hide IsStart, IsEnd, ReadLine;
    var lines := plain + [start] + entries;
    if entries == [] {
      assert lines[..|plain|] == plain && lines == plain + [start];
    } else {
      var n := |entries| - 1;
      OpenBlockPins(plain, start, entries[..n]);
      assert lines[..|lines| - 1] == plain + [start] + entries[..n];
      assert ReadAll(entries) == ReadAll(entries[..n]) + [ReadLine(entries[n])];
    }
  }

  lemma EntryIsPlain(e: RouteAssist.HostOverride)
    ensures !IsStart(EntryLine(e)) && !IsEnd(EntryLine(e))
  {
    var line := EntryLine(e);
    DigitsArePlain(e.ip.a);
    assert line[0] == Digits(e.ip.a)[0];
    hide Digits, EntryLine;
    TrimEndKeepsFirst(line);
    assert Trim(line)[0] == line[0] != '#';
  }

  // As read back, a name loses one carriage return at its end.
  function Read(e: RouteAssist.HostOverride): RouteAssist.HostOverride {
    e.(domain := StripCR(e.domain))
  }

  lemma StrippedEntry(e: RouteAssist.HostOverride)
    ensures StripCR(EntryLine(e)) == EntryLine(Read(e))
  {
    hide Digits;
    var address := Digits(e.ip.a) + "." + Digits(e.ip.b) + "." + Digits(e.ip.c) + "." + Digits(e.ip.d) + " ";
    assert EntryLine(e) == address + e.domain && EntryLine(Read(e)) == address + StripCR(e.domain);
    assert address[|address| - 1] == ' ';
  }

  lemma EntriesRead(a: seq<RouteAssist.HostOverride>)
    ensures var entries := StripAll(EntryLines(a));
            (forall l :: l in entries ==> !IsStart(l) && !IsEnd(l)) &&
            ReadAll(entries) == seq(|a|, i requires 0 <= i < |a| => Some(Read(a[i])))
  {
    hide IsStart, IsEnd, ReadLine, EntryLine, StripCR;
    var entries := StripAll(EntryLines(a));
    forall i | 0 <= i < |a|
      ensures !IsStart(entries[i]) && !IsEnd(entries[i]) && ReadLine(entries[i]) == Some(Read(a[i]))
    {
      StrippedEntry(a[i]);
      EntryIsPlain(Read(a[i]));
      EntryReads(Read(a[i]));
    }
  }

  lemma ClosedBlockPins(plain: seq<string>, start: string, entries: seq<string>, end: string)
    requires (forall l :: l in plain ==> !IsStart(l) && !IsEnd(l)) && IsStart(start) && !IsEnd(start) && IsEnd(end)
    requires forall l :: l in entries ==> !IsStart(l) && !IsEnd(l)
    ensures BlockPins(plain + ([start] + entries + [end])) == ReadAll(entries)
  {
    hide IsStart, IsEnd, ReadAll, InsideAfter;
    NoBlockPins(plain);
    OpenBlockPins(plain, start, entries);
    var lines := plain + ([start] + entries + [end]);
    assert lines[..|lines| - 1] == plain + [start] + entries && lines[|lines| - 1] == end;
  }

  // Main result: whatever the file held before, the pins between the markers of the written file
  // are exactly the overrides, in order.
  lemma WrittenPins(content: string, a: seq<RouteAssist.HostOverride>)
    requires NoLineFeeds(a)
    ensures BlockPins(Lines(Written(content, a))) == seq(|a|, i requires 0 <= i < |a| => Some(Read(a[i])))
  {
    hide IsStart, IsEnd, BlockPins, ReadAll, Remaining, StripAll, BlockLines, EntryLines, Lines, Unlines, StripCR;
    var k := LinesBefore(Remaining(content));
    RemainingShape(content);
    BlankFirst(Remaining(content));
    BlockReadsBack(a);
    StrippedPlain(k);
    TrimOfMarkers();
    MarkersAreDistinct();
    EntriesRead(a);
    LinesOfUnlines(k + BlockLines(a));
    StripAllAppend(k, BlockLines(a));
    ClosedBlockPins(StripAll(k), MARKER_START, StripAll(EntryLines(a)), MARKER_END);
  }

  lemma MarkersAreDistinct()
    ensures !IsEnd(MARKER_START) && !IsStart(MARKER_END)
  {
  }

  // ----- Text and whitespace -----

  // The written text is what a removal leaves, or one line feed if that is nothing, and then the block.
  lemma WrittenText(content: string, a: seq<RouteAssist.HostOverride>)
    ensures Written(content, a) == (if Remove(content) == "" then "\n" else Remove(content)) + Unlines(BlockLines(a))
  {
    hide Remaining, BlockLines;
    UnlinesAppend(LinesBefore(Remaining(content)), BlockLines(a));
    UnlinesEndsWithNewline(Remaining(content));
    UnlinesPush([], "");
    assert [] + [""] == [""];
  }

  ghost predicate Blank(s: string) {
    forall c :: c in s ==> Whitespace(c)
  }

  // Trimming takes whitespace off both ends, as much as there is.
  lemma {:induction false} TrimStartMeaning(s: string) returns (before: string)
    ensures Blank(before) && s == before + TrimStart(s) && (TrimStart(s) != "" ==> !Whitespace(TrimStart(s)[0]))
  {
    hide Whitespace;
    before := "";
    if s != "" && Whitespace(s[0]) {
      var more := TrimStartMeaning(s[1..]);
      before := [s[0]] + more;
    }
  }

  lemma {:induction false} TrimEndMeaning(s: string) returns (after: string)
    ensures Blank(after) && s == TrimEnd(s) + after && (TrimEnd(s) != "" ==> !Whitespace(TrimEnd(s)[|TrimEnd(s)| - 1]))
  {
    hide Whitespace;
    after := "";
    if s != "" && Whitespace(s[|s| - 1]) {
      var more := TrimEndMeaning(s[..|s| - 1]);
      after := more + [s[|s| - 1]];
    }
  }

  // A line is a start (end) marker exactly when it is the marker text inside whitespace.
  lemma MarkerLine(line: string, marker: string)
    requires marker != "" && !Whitespace(marker[0]) && !Whitespace(marker[|marker| - 1])
    ensures Trim(line) == marker <==> exists before, after :: Blank(before) && Blank(after) && line == before + marker + after
  {
    hide Whitespace;
    if Trim(line) == marker {
      var after := TrimEndMeaning(line);
      var before := TrimStartMeaning(TrimEnd(line));
      assert line == before + marker + after;
    }
    if before, after :| Blank(before) && Blank(after) && line == before + marker + after {
      TrimEndOff(before + marker, after);
      TrimStartOff(before, marker);
    }
  }

  lemma {:induction false} TrimEndOff(s: string, after: string)
    requires Blank(after) && s != "" && !Whitespace(s[|s| - 1])
    ensures TrimEnd(s + after) == s
    decreases |after|
  {
    hide Whitespace;
    if after != "" {
      var n := |after| - 1;
      assert (s + after)[..|s + after| - 1] == s + after[..n];
      assert after[n] in after;
      TrimEndOff(s, after[..n]);
    } else {
      assert s + after == s;
    }
  }

  lemma {:induction false} TrimStartOff(before: string, s: string)
    requires Blank(before) && s != "" && !Whitespace(s[0])
    ensures TrimStart(before + s) == s
  {
    hide Whitespace;
    if before != "" {
      assert (before + s)[1..] == before[1..] + s;
      assert before[0] in before;
      TrimStartOff(before[1..], s);
    } else {
      assert before + s == s;
    }
  }
}
