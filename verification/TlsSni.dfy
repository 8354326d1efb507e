// SNI extraction from a TLS ClientHello (src/roblox_proxy/tls_sni.rs).
//
// The parser of the source moves a cursor through the record; its specification below consumes
// the record from the front. The wire format is that of sections 4.1.2, 4.2 and 5.1 of RFC 8446
// and section 3 of RFC 6066.
module TlsSni {
  import opened Basics

  // ----- Specification of the parser -----

  predicate LooksLikeClientHello(payload: seq<Byte>) {
    |payload| >= 6 && payload[0] == 0x16 && payload[1] == 0x03 && payload[5] == 0x01
  }

  predicate Graphic(b: Byte) {
    0x21 <= b <= 0x7E
  }

  // `trim_end_matches('.')`
  function TrimDots(name: seq<Byte>): seq<Byte> {
    if name != [] && name[|name| - 1] == 0x2E then TrimDots(name[..|name| - 1]) else name
  }

  // A host name is accepted when it is non-empty graphic ASCII (which is always valid UTF-8).
  function HostName(name: seq<Byte>): Option<seq<Byte>> {
    if name != [] && forall b :: b in name ==> Graphic(b) then Some(TrimDots(name)) else None
  }

  function ScanNames(list: seq<Byte>): Option<seq<Byte>> {
    if |list| < 3 then None
    else
      var end := 3 + BE16(list[1], list[2]);
      if end > |list| then None
      else if list[0] == 0 then HostName(list[3..end])
      else ScanNames(list[end..])
  }

  function ServerName(ext: seq<Byte>): Option<seq<Byte>> {
    if |ext| < 2 then None else ScanNames(ext[2..Min(2 + BE16(ext[0], ext[1]), |ext|)])
  }

  function ScanExtensions(exts: seq<Byte>): Option<seq<Byte>> {
    if |exts| < 4 then None
    else
      var end := 4 + BE16(exts[2], exts[3]);
      if end > |exts| then None
      else if BE16(exts[0], exts[1]) == 0 then ServerName(exts[4..end])
      else ScanExtensions(exts[end..])
  }

  // What follows a vector with a one-byte (two-byte) length.
  function Skip8(s: seq<Byte>): Option<seq<Byte>> {
    if |s| < 1 || 1 + s[0] > |s| then None else Some(s[1 + s[0]..])
  }

  function Skip16(s: seq<Byte>): Option<seq<Byte>> {
    if |s| < 2 || 2 + BE16(s[0], s[1]) > |s| then None else Some(s[2 + BE16(s[0], s[1])..])
  }

  // The parser's stages, each named for what its input starts with.
  function AtExtensions(s: seq<Byte>): Option<seq<Byte>> {
    if |s| < 2 then None else ScanExtensions(s[2..Min(2 + BE16(s[0], s[1]), |s|)])
  }

  function AtCompression(s: seq<Byte>): Option<seq<Byte>> {
    match Skip8(s)
    case None => None
    case Some(rest) => AtExtensions(rest)
  }

  function AtCiphers(s: seq<Byte>): Option<seq<Byte>> {
    match Skip16(s)
    case None => None
    case Some(rest) => AtCompression(rest)
  }

  function AtSessionId(s: seq<Byte>): Option<seq<Byte>> {
    match Skip8(s)
    case None => None
    case Some(rest) => AtCiphers(rest)
  }

  // Handshake header (4), version (2) and random (32) precede the session id.
  function SniOfRecord(record: seq<Byte>): Option<seq<Byte>> {
    if |record| < 38 then None else AtSessionId(record[38..])
  }

  function SniOf(payload: seq<Byte>): Option<seq<Byte>> {
    if !LooksLikeClientHello(payload) then None
    else SniOfRecord(payload[5..Min(5 + BE16(payload[3], payload[4]), |payload|)])
  }

  // ----- The parser: a cursor, never out of bounds -----

  // One stage of the cursor. Running past the end is noticed when the next length is read.
  lemma SessionIdAt(s: seq<Byte>, cursor: nat)
    requires cursor < |s|
    ensures var next := cursor + 1 + s[cursor];
            AtSessionId(s[cursor..]) == if next + 1 < |s| then AtCiphers(s[next..]) else None
  {
    var next := cursor + 1 + s[cursor];
    if next <= |s| {
      assert s[cursor..][1 + s[cursor]..] == s[next..];
    }
  }

  lemma CiphersAt(s: seq<Byte>, cursor: nat)
    requires cursor + 1 < |s|
    ensures var next := cursor + 2 + BE16(s[cursor], s[cursor + 1]);
            AtCiphers(s[cursor..]) == if next < |s| then AtCompression(s[next..]) else None
  {
    var next := cursor + 2 + BE16(s[cursor], s[cursor + 1]);
    if next <= |s| {
      assert s[cursor..][2 + BE16(s[cursor], s[cursor + 1])..] == s[next..];
    }
  }

  lemma CompressionAt(s: seq<Byte>, cursor: nat)
    requires cursor < |s|
    ensures var next := cursor + 1 + s[cursor];
            AtCompression(s[cursor..]) == if next + 1 < |s| then AtExtensions(s[next..]) else None
  {
    var next := cursor + 1 + s[cursor];
    if next <= |s| {
      assert s[cursor..][1 + s[cursor]..] == s[next..];
    }
  }

  lemma AtExtensionsAt(s: seq<Byte>, cursor: nat)
    requires cursor + 1 < |s|
    ensures var end := Min(cursor + 2 + BE16(s[cursor], s[cursor + 1]), |s|);
            AtExtensions(s[cursor..]) == ScanExtensions(s[cursor + 2..end])
  {
    var end := Min(cursor + 2 + BE16(s[cursor], s[cursor + 1]), |s|);
    SliceOfDrop(s, cursor, 2, end - cursor);
  }

  // One round of each scan.
  lemma NamesAt(s: seq<Byte>, cursor: nat, end: nat)
    requires cursor + 3 <= end <= |s|
    ensures var next := cursor + 3 + BE16(s[cursor + 1], s[cursor + 2]);
            ScanNames(s[cursor..end]) ==
            if next > end then None
            else if s[cursor] == 0 then HostName(s[cursor + 3..next])
            else ScanNames(s[next..end])
  {
    var list := s[cursor..end];
    var len: nat := BE16(list[1], list[2]);
    if cursor + 3 + len <= end {
      SliceOfSlice(s, cursor, end, 3, 3 + len);
      SliceOfSlice(s, cursor, end, 3 + len, end - cursor);
    }
  }

  lemma ExtensionsAt(s: seq<Byte>, cursor: nat, end: nat)
    requires cursor + 4 <= end <= |s|
    ensures var next := cursor + 4 + BE16(s[cursor + 2], s[cursor + 3]);
            ScanExtensions(s[cursor..end]) ==
            if next > end then None
            else if BE16(s[cursor], s[cursor + 1]) == 0 then ServerName(s[cursor + 4..next])
            else ScanExtensions(s[next..end])
  {
    var exts := s[cursor..end];
    var len: nat := BE16(exts[2], exts[3]);
    if cursor + 4 + len <= end {
      SliceOfSlice(s, cursor, end, 4, 4 + len);
      SliceOfSlice(s, cursor, end, 4 + len, end - cursor);
    }
  }

  method ParseServerNameExtension(ext: seq<Byte>) returns (name: Option<seq<Byte>>)
    ensures name == ServerName(ext)
  {
    if |ext| < 2 {
      return None;
    }
    var listEnd := Min(2 + BE16(ext[0], ext[1]), |ext|);
    var cursor := 2;
    while cursor + 3 <= listEnd
      invariant 2 <= cursor <= listEnd
      invariant ScanNames(ext[cursor..listEnd]) == ServerName(ext)
    {
      NamesAt(ext, cursor, listEnd);
      var nameType := ext[cursor];
      var nameLen := BE16(ext[cursor + 1], ext[cursor + 2]);
      cursor := cursor + 3;
      var nameEnd := cursor + nameLen;
      if nameEnd > listEnd {
        return None;
      }
      if nameType == 0 {
        var host := ext[cursor..nameEnd];
        if host == [] || exists b :: b in host && !Graphic(b) {
          return None;
        }
        return Some(TrimDots(host));
      }
      cursor := nameEnd;
    }
    return None;
  }

  method ParseClientHelloSni(payload: seq<Byte>) returns (name: Option<seq<Byte>>)
    ensures name == SniOf(payload)
  {
    if !LooksLikeClientHello(payload) {
      return None;
    }
    var recordEnd: nat := 5 + BE16(payload[3], payload[4]);
    name := ParseRecord(payload[5..Min(recordEnd, |payload|)]);
  }

  lemma RecordStart(record: seq<Byte>)
    ensures SniOfRecord(record) == if |record| > 38 then AtSessionId(record[38..]) else None
  {
    hide AtCiphers;
    if |record| == 38 {
      assert record[38..] == [];
    }
  }

  // The fixed part of the source's `parse_client_hello_sni`: the position of the extension block.
  method SkipToExtensions(record: seq<Byte>) returns (at: Option<nat>)
    ensures at.None? ==> SniOfRecord(record) == None
    ensures at.Some? ==> at.value + 1 < |record| && SniOfRecord(record) == AtExtensions(record[at.value..])
  {
    RecordStart(record);
    hide BE16, SniOfRecord, AtSessionId, AtCiphers, AtCompression, AtExtensions;
    var cursor := 38;
    if cursor >= |record| {
      return None;
    }
    SessionIdAt(record, cursor);
    cursor := cursor + 1 + record[cursor];
    if cursor + 1 >= |record| {
      return None;
    }
    CiphersAt(record, cursor);
    cursor := cursor + 2 + BE16(record[cursor], record[cursor + 1]);
    if cursor >= |record| {
      return None;
    }
    CompressionAt(record, cursor);
    cursor := cursor + 1 + record[cursor];
    if cursor + 1 >= |record| {
      return None;
    }
    return Some(cursor);
  }

  method ParseRecord(record: seq<Byte>) returns (name: Option<seq<Byte>>)
    ensures name == SniOfRecord(record)
  {
    hide SniOfRecord, AtExtensions, ScanExtensions;
    var at := SkipToExtensions(record);
    if at.None? {
      return None;
    }
    var cursor := at.value;
    AtExtensionsAt(record, cursor);
    var extensionsEnd := Min(cursor + 2 + BE16(record[cursor], record[cursor + 1]), |record|);
    cursor := cursor + 2;
    name := ParseExtensions(record, cursor, extensionsEnd);
  }

  // The extension loop of the source's `parse_client_hello_sni`.
  method ParseExtensions(record: seq<Byte>, start: nat, extensionsEnd: nat) returns (name: Option<seq<Byte>>)
    requires start <= extensionsEnd <= |record|
    ensures name == ScanExtensions(record[start..extensionsEnd])
  {
    var cursor := start;
    while cursor + 4 <= extensionsEnd
      invariant 0 <= cursor <= extensionsEnd
      invariant ScanExtensions(record[cursor..extensionsEnd]) == ScanExtensions(record[start..extensionsEnd])
    {
      ExtensionsAt(record, cursor, extensionsEnd);
      var extType := BE16(record[cursor], record[cursor + 1]);
      var extLen := BE16(record[cursor + 2], record[cursor + 3]);
      cursor := cursor + 4;
      var extEnd := cursor + extLen;
      if extEnd > extensionsEnd {
        return None;
      }
      if extType == 0x0000 {
        name := ParseServerNameExtension(record[cursor..extEnd]);
        return;
      }
      cursor := extEnd;
    }
    return None;
  }

  // ----- The printer -----

  datatype Extension = Extension(kind: U16, body: seq<Byte>)

  datatype NameEntry = NameEntry(kind: Byte, name: seq<Byte>)

  datatype ClientHello = ClientHello(
    recordMinor: Byte,
    version: seq<Byte>,
    random: seq<Byte>,
    sessionId: seq<Byte>,
    ciphers: seq<Byte>,
    compression: seq<Byte>,
    extensions: seq<Extension>)
  {
    // The fixed fields have their size and every vector fits its length field.
    predicate Valid() {
      |version| == 2 && |random| == 32 && |sessionId| < 0x100 && |ciphers| < 0x1_0000 &&
      |compression| < 0x100 && (forall e :: e in extensions ==> |e.body| < 0x1_0000) &&
      |PrintExtensions(extensions)| < 0x1_0000 &&
      44 + |sessionId| + |ciphers| + |compression| + |PrintExtensions(extensions)| < 0x1_0000
    }
  }

  function Vec8(b: seq<Byte>): seq<Byte>
    requires |b| < 0x100
  {
    [|b|] + b
  }

  function Vec16(b: seq<Byte>): seq<Byte>
    requires |b| < 0x1_0000
  {
    Put16(|b|) + b
  }

  // An oversized body has no encoding; `ClientHello.Valid` rules it out.
  function PrintExtension(e: Extension): seq<Byte> {
    Put16(e.kind) + (if |e.body| < 0x1_0000 then Vec16(e.body) else [])
  }

  function PrintExtensions(exts: seq<Extension>): seq<Byte> {
    if exts == [] then [] else PrintExtension(exts[0]) + PrintExtensions(exts[1..])
  }

  function PrintName(n: NameEntry): seq<Byte>
    requires |n.name| < 0x1_0000
  {
    [n.kind] + Vec16(n.name)
  }

  function PrintNames(names: seq<NameEntry>): seq<Byte>
    requires forall n :: n in names ==> |n.name| < 0x1_0000
  {
    if names == [] then [] else PrintName(names[0]) + PrintNames(names[1..])
  }

  function PrintFromCompression(h: ClientHello): seq<Byte>
    requires h.Valid()
  {
    Vec8(h.compression) + Vec16(PrintExtensions(h.extensions))
  }

  function PrintFromCiphers(h: ClientHello): seq<Byte>
    requires h.Valid()
  {
    Vec16(h.ciphers) + PrintFromCompression(h)
  }

  function PrintFromSessionId(h: ClientHello): seq<Byte>
    requires h.Valid()
  {
    Vec8(h.sessionId) + PrintFromCiphers(h)
  }

  function PrintRecord(h: ClientHello): seq<Byte>
    requires h.Valid()
  {
    var body := h.version + h.random + PrintFromSessionId(h);
    [0x01, 0] + Put16(|body|) + body
  }

  function Print(h: ClientHello): seq<Byte>
    requires h.Valid()
  {
    [0x16, 0x03, h.recordMinor] + Vec16(PrintRecord(h))
  }

  // ----- What a hello says, read off its structure -----

  // The first server_name extension: its body and where its bytes end in the extension list.
  function FirstServerName(exts: seq<Extension>): Option<(nat, seq<Byte>)> {
    if exts == [] then None
    else
      var size := |PrintExtension(exts[0])|;
      if exts[0].kind == 0 then Some((size, exts[0].body))
      else
        match FirstServerName(exts[1..])
        case None => None
        case Some((end, body)) => Some((size + end, body))
  }

  // The first host_name entry decides.
  function NamesMeaning(names: seq<NameEntry>): Option<seq<Byte>> {
    if names == [] then None
    else if names[0].kind == 0 then HostName(names[0].name)
    else NamesMeaning(names[1..])
  }

  // The number of bytes of the printed hello up to the end of extension-list offset `end`.
  function OffsetInHello(h: ClientHello, end: nat): nat
    requires h.Valid()
  {
    |Print(h)| - |PrintExtensions(h.extensions)| + end
  }

  // ----- Parsing any prefix of a printed hello -----

  lemma HeadedPrefix(head: seq<Byte>, body: seq<Byte>, rest: seq<Byte>, k: nat)
    requires |head| == 4 <= k <= |head + body + rest|
    ensures var s := (head + body + rest)[..k];
            s[..4] == head &&
            (k >= 4 + |body| ==> s[4..4 + |body|] == body && s[4 + |body|..] == rest[..k - 4 - |body|])
  {
  }

  lemma ExtensionPrefix(e: Extension, rest: seq<Byte>, k: nat)
    requires |e.body| < 0x1_0000 && 4 <= k <= |PrintExtension(e) + rest|
    ensures var s := (PrintExtension(e) + rest)[..k];
            var size := |PrintExtension(e)|;
            BE16(s[0], s[1]) == e.kind && BE16(s[2], s[3]) == |e.body| && size == 4 + |e.body| &&
            (k >= size ==> s[4..size] == e.body && s[size..] == rest[..k - size])
  {
    var kind, len := Put16(e.kind), Put16(|e.body|);
    BE16Put16(e.kind);
    BE16Put16(|e.body|);
    assert PrintExtension(e) == kind + len + e.body;
    HeadedPrefix(kind + len, e.body, rest, k);
    var s := (PrintExtension(e) + rest)[..k];
    assert s[0] == s[..4][0] && s[1] == s[..4][1] && s[2] == s[..4][2] && s[3] == s[..4][3];
  }

  lemma {:induction false} ScanPrintedPrefix(exts: seq<Extension>, k: nat)
    requires forall e :: e in exts ==> |e.body| < 0x1_0000
    requires k <= |PrintExtensions(exts)|
    ensures ScanExtensions(PrintExtensions(exts)[..k]) ==
            match FirstServerName(exts)
            case None => None
            case Some((end, body)) => if k < end then None else ServerName(body)
  {
    if exts != [] {
      var e, rest := exts[0], PrintExtensions(exts[1..]);
      var size := |PrintExtension(e)|;
      FirstServerNameEnd(exts[1..]);
      if k >= 4 {
        ExtensionPrefix(e, rest, k);
      }
      if k >= size {
        ScanPrintedPrefix(exts[1..], k - size);
      }
    }
  }

  lemma Skip8Prefix(b: seq<Byte>, rest: seq<Byte>, k: nat)
    requires |b| < 0x100 && k <= |Vec8(b) + rest|
    ensures Skip8((Vec8(b) + rest)[..k]) ==
            if k < 1 + |b| then None else Some(rest[..k - 1 - |b|])
  {
    if k >= 1 + |b| {
      assert (Vec8(b) + rest)[..k][1 + |b|..] == rest[..k - 1 - |b|];
    }
  }

  lemma Skip16Prefix(b: seq<Byte>, rest: seq<Byte>, k: nat)
    requires |b| < 0x1_0000 && k <= |Vec16(b) + rest|
    ensures Skip16((Vec16(b) + rest)[..k]) ==
            if k < 2 + |b| then None else Some(rest[..k - 2 - |b|])
  {
    BE16Put16(|b|);
    if k >= 2 + |b| {
      assert (Vec16(b) + rest)[..k][2 + |b|..] == rest[..k - 2 - |b|];
    }
  }

  // What a prefix of the extension block gives; `k` may be short of its two length bytes.
  function ExtensionsUpTo(h: ClientHello, k: int): Option<seq<Byte>>
    requires h.Valid() && k <= |PrintExtensions(h.extensions)|
  {
    if k < 0 then None else ScanExtensions(PrintExtensions(h.extensions)[..k])
  }

  lemma AtCompressionPrefix(h: ClientHello, k: nat)
    requires h.Valid() && k <= |PrintFromCompression(h)|
    ensures AtCompression(PrintFromCompression(h)[..k]) == ExtensionsUpTo(h, k - 3 - |h.compression|)
  {
    hide Skip8, AtExtensions, PrintExtensions, ScanExtensions;
    var exts := PrintExtensions(h.extensions);
    Skip8Prefix(h.compression, Vec16(exts), k);
    var j := k - 1 - |h.compression|;
    if 0 <= j {
      AtExtensionsPrefix(exts, j);
    }
  }

  lemma AtExtensionsPrefix(exts: seq<Byte>, k: nat)
    requires |exts| < 0x1_0000 && k <= 2 + |exts|
    ensures AtExtensions(Vec16(exts)[..k]) == if k < 2 then None else ScanExtensions(exts[..k - 2])
  {
    hide ScanExtensions;
    if 2 <= k {
      BE16Put16(|exts|);
      TakeDropPrefix(Put16(|exts|), exts, k);
      var s := Vec16(exts)[..k];
      assert s[2..k] == s[2..] == exts[..k - 2];
      assert BE16(s[0], s[1]) == |exts|;
    }
  }

  lemma AtSessionIdPrefix(h: ClientHello, k: nat)
    requires h.Valid() && k <= |PrintFromSessionId(h)|
    ensures AtSessionId(PrintFromSessionId(h)[..k]) ==
            ExtensionsUpTo(h, k - 6 - |h.sessionId| - |h.ciphers| - |h.compression|)
  {
    hide AtCompression, PrintExtensions, Skip8, Skip16;
    Skip8Prefix(h.sessionId, PrintFromCiphers(h), k);
    var j := k - 1 - |h.sessionId|;
    if 0 <= j {
      Skip16Prefix(h.ciphers, PrintFromCompression(h), j);
      if 2 + |h.ciphers| <= j {
        AtCompressionPrefix(h, j - 2 - |h.ciphers|);
      }
    }
  }

  lemma FixedPartPrefix(head: seq<Byte>, s: seq<Byte>, k: nat)
    requires |head| == 38 && k <= |head + s|
    ensures SniOfRecord((head + s)[..k]) == if k < 38 then None else AtSessionId(s[..k - 38])
  {
    hide AtSessionId;
    if k >= 38 {
      TakeDropPrefix(head, s, k);
    }
  }

  lemma SniOfRecordPrefix(h: ClientHello, k: nat)
    requires h.Valid() && k <= |PrintRecord(h)|
    ensures SniOfRecord(PrintRecord(h)[..k]) ==
            ExtensionsUpTo(h, k - (|PrintRecord(h)| - |PrintExtensions(h.extensions)|))
  {
    hide PrintExtensions, SniOfRecord, AtSessionId;
    var s := PrintFromSessionId(h);
    var head := [0x01, 0] + Put16(|h.version + h.random + s|) + (h.version + h.random);
    assert PrintRecord(h) == head + s;
    FixedPartPrefix(head, s, k);
    if k >= 38 {
      AtSessionIdPrefix(h, k - 38);
    }
  }

  lemma RecordInPayload(header: seq<Byte>, record: seq<Byte>, k: nat)
    requires 0 < |record| < 0x1_0000
    requires |header| == 5 && header == [0x16, 0x03, header[2]] + Put16(|record|)
    requires record[0] == 0x01 && 6 <= k <= 5 + |record|
    ensures SniOf((header + record)[..k]) == SniOfRecord(record[..k - 5])
  {
    var p := (header + record)[..k];
    BE16Put16(|record|);
    assert p[5..k] == record[..k - 5];
    assert BE16(p[3], p[4]) == |record|;
    var end: nat := 5 + BE16(p[3], p[4]);
    assert Min(end, |p|) == k;
  }

  lemma SniOfPrefix(h: ClientHello, k: nat)
    requires h.Valid() && k <= |Print(h)|
    ensures SniOf(Print(h)[..k]) == ExtensionsUpTo(h, k - (|Print(h)| - |PrintExtensions(h.extensions)|))
  {
    var record := PrintRecord(h);
    var header := [0x16, 0x03, h.recordMinor] + Put16(|record|);
    assert Print(h) == header + record;
    if k >= 6 {
      hide PrintRecord, PrintExtensions, SniOf, SniOfRecord;
      RecordInPayload(header, record, k);
      SniOfRecordPrefix(h, k - 5);
    }
  }

  // Every prefix of a printed hello: it parses to nothing until the last byte of the first
  // server_name extension is there, and from then on to what that extension says.
  lemma {:induction false} PrefixOfHello(h: ClientHello, k: nat)
    requires h.Valid() && k <= |Print(h)|
    ensures SniOf(Print(h)[..k]) ==
            match FirstServerName(h.extensions)
            case None => None
            case Some((end, body)) => if k < OffsetInHello(h, end) then None else ServerName(body)
  {
    hide Print, PrintExtensions, FirstServerName;
    SniOfPrefix(h, k);
    var j := k - (|Print(h)| - |PrintExtensions(h.extensions)|);
    if 0 <= j {
      ScanPrintedPrefix(h.extensions, j);
    }
  }

  lemma {:induction false} FirstServerNameEnd(exts: seq<Extension>)
    ensures match FirstServerName(exts)
            case None => forall e :: e in exts ==> e.kind != 0
            case Some((end, body)) => 2 <= end <= |PrintExtensions(exts)|
  {
    if exts != [] {
      FirstServerNameEnd(exts[1..]);
    }
  }

  lemma {:induction false} ScanPrintedNames(names: seq<NameEntry>)
    requires forall n :: n in names ==> |n.name| < 0x1_0000
    ensures ScanNames(PrintNames(names)) == NamesMeaning(names)
  {
    if names != [] {
      var n, bytes := names[0], PrintNames(names);
      var end := |PrintName(n)|;
      BE16Put16(|n.name|);
      assert bytes[3..end] == n.name;
      assert bytes[end..] == PrintNames(names[1..]);
      ScanPrintedNames(names[1..]);
    }
  }

  lemma ServerNamePrinted(names: seq<NameEntry>)
    requires (forall n :: n in names ==> |n.name| < 0x1_0000) && |PrintNames(names)| < 0x1_0000
    ensures ServerName(Vec16(PrintNames(names))) == NamesMeaning(names)
  {
    var list := PrintNames(names);
    BE16Put16(|list|);
    assert Vec16(list)[2..2 + |list|] == list;
    ScanPrintedNames(names);
  }

  // ----- Main results -----

  lemma {:induction false} FirstServerNameAfter(before: seq<Extension>, e: Extension, after: seq<Extension>)
    requires (forall x :: x in before ==> x.kind != 0) && e.kind == 0
    ensures FirstServerName(before + [e] + after) ==
            Some((|PrintExtensions(before + [e] + after)| - |PrintExtensions(after)|, e.body))
  {
    var all := before + [e] + after;
    if before == [] {
      assert all[1..] == after;
    } else {
      FirstServerNameAfter(before[1..], e, after);
      assert all[1..] == before[1..] + [e] + after;
    }
  }

  lemma {:induction false} NamesMeaningAfter(before: seq<NameEntry>, host: NameEntry, after: seq<NameEntry>)
    requires (forall n :: n in before ==> n.kind != 0) && host.kind == 0
    ensures NamesMeaning(before + [host] + after) == HostName(host.name)
  {
    var all := before + [host] + after;
    if before != [] {
      NamesMeaningAfter(before[1..], host, after);
      assert all[1..] == before[1..] + [host] + after;
    }
  }

  // Round trip. `before`/`after` are the extensions around server_name, `others`/`more` the
  // name entries around the host. A prefix that reaches the end of the server_name extension
  // gives the host without its trailing dots; every shorter prefix gives nothing.
  lemma {:induction false} RoundTrip(h: ClientHello, before: seq<Extension>, after: seq<Extension>,
                  others: seq<NameEntry>, host: seq<Byte>, more: seq<NameEntry>, k: nat)
    requires h.Valid() && k <= |Print(h)|
    requires forall e :: e in before ==> e.kind != 0
    requires forall n :: n in others ==> n.kind != 0
    requires host != [] && forall b :: b in host ==> Graphic(b)
    requires var names := others + [NameEntry(0, host)] + more;
             (forall n :: n in names ==> |n.name| < 0x1_0000) && |PrintNames(names)| < 0x1_0000 &&
             h.extensions == before + [Extension(0, Vec16(PrintNames(names)))] + after
    ensures SniOf(Print(h)[..k]) ==
            if k < |Print(h)| - |PrintExtensions(after)| then None else Some(TrimDots(host))
  {
    var names := others + [NameEntry(0, host)] + more;
    var sni := Extension(0, Vec16(PrintNames(names)));
    FirstServerNameAfter(before, sni, after);
    PrefixOfHello(h, k);
    ServerNamePrinted(names);
    NamesMeaningAfter(others, NameEntry(0, host), more);
  }

  // The hello that the test builder of the source prints for a host.
  function BuiltHello(host: seq<Byte>): ClientHello
    requires |host| < 0x8000
  {
    var names := [NameEntry(0, host)];
    assert PrintNames(names[1..]) == [];
    ClientHello(0x01, [0x03, 0x03], seq(32, _ => 0), [], [0x13, 0x01], [0],
                [Extension(0x2B, [0x02, 0x03, 0x04]), Extension(0, Vec16(PrintNames(names)))])
  }

  lemma BuiltHelloReads(host: seq<Byte>)
    requires 0 < |host| < 0x8000 && forall b :: b in host ==> Graphic(b)
    ensures BuiltHello(host).Valid() && |Print(BuiltHello(host))| == |host| + 68
    ensures SniOf(Print(BuiltHello(host))) == Some(TrimDots(host))
  {
    var h, names := BuiltHello(host), [NameEntry(0, host)];
    var exts := h.extensions;
    assert PrintNames(names[1..]) == [];
    assert |PrintNames(names)| == 3 + |host|;
    assert exts[1..] == [exts[1]] && exts[1..][1..] == [];
    assert PrintExtensions(exts[1..]) == PrintExtension(exts[1]) + PrintExtensions(exts[1..][1..]);
    assert |PrintExtension(exts[0])| == 7 && |PrintExtension(exts[1])| == |host| + 9;
    assert |PrintFromCompression(h)| == |host| + 20;
    assert |PrintFromSessionId(h)| == |host| + 25;
    assert |PrintRecord(h)| == |host| + 63;
    assert Print(h)[..|Print(h)|] == Print(h);
    assert names == [] + [NameEntry(0, host)] + [];
    assert exts == [exts[0]] + [exts[1]] + [];
    RoundTrip(h, [exts[0]], [], [], host, [], |Print(h)|);
  }

  // A hello without a server_name extension says nothing, whole or truncated.
  lemma {:induction false} NoServerName(h: ClientHello, k: nat)
    requires h.Valid() && k <= |Print(h)|
    requires forall e :: e in h.extensions ==> e.kind != 0
    ensures SniOf(Print(h)[..k]) == None
  {
    PrefixOfHello(h, k);
    FirstServerNameKind(h.extensions);
  }

  lemma {:induction false} FirstServerNameKind(exts: seq<Extension>)
    requires forall e :: e in exts ==> e.kind != 0
    ensures FirstServerName(exts) == None
  {
    if exts != [] {
      FirstServerNameKind(exts[1..]);
    }
  }

  lemma {:induction false} ScanStable(exts: seq<Byte>, extra: seq<Byte>)
    requires ScanExtensions(exts).Some?
    ensures ScanExtensions(exts + extra) == ScanExtensions(exts)
  {
    var end := 4 + BE16(exts[2], exts[3]);
    var all := exts + extra;
    if BE16(exts[0], exts[1]) == 0 {
      assert all[4..end] == exts[4..end];
    } else {
      ScanStable(exts[end..], extra);
      assert all[end..] == exts[end..] + extra;
    }
  }

  lemma Skip8Stable(s: seq<Byte>, extra: seq<Byte>)
    requires Skip8(s).Some?
    ensures Skip8(s + extra) == Some(Skip8(s).value + extra)
  {
    assert (s + extra)[1 + s[0]..] == s[1 + s[0]..] + extra;
  }

  lemma Skip16Stable(s: seq<Byte>, extra: seq<Byte>)
    requires Skip16(s).Some?
    ensures Skip16(s + extra) == Some(Skip16(s).value + extra)
  {
    var n := 2 + BE16(s[0], s[1]);
    assert (s + extra)[n..] == s[n..] + extra;
  }

  lemma AtExtensionsStable(s: seq<Byte>, extra: seq<Byte>)
    requires AtExtensions(s).Some?
    ensures AtExtensions(s + extra) == AtExtensions(s)
  {
    var want: nat := 2 + BE16(s[0], s[1]);
    var exts := s[2..Min(want, |s|)];
    var more := (s + extra)[2..Min(want, |s + extra|)];
    assert more == exts + more[|exts|..];
    ScanStable(exts, more[|exts|..]);
  }

  lemma AtSessionIdStable(s: seq<Byte>, extra: seq<Byte>)
    requires AtSessionId(s).Some?
    ensures AtSessionId(s + extra) == AtSessionId(s)
  {
    Skip8Stable(s, extra);
    var atCiphers := Skip8(s).value;
    Skip16Stable(atCiphers, extra);
    var atCompression := Skip16(atCiphers).value;
    Skip8Stable(atCompression, extra);
    AtExtensionsStable(Skip8(atCompression).value, extra);
  }

  lemma SniOfRecordStable(record: seq<Byte>, extra: seq<Byte>)
    requires SniOfRecord(record).Some?
    ensures SniOfRecord(record + extra) == SniOfRecord(record)
  {
    hide AtSessionId;
    assert (record + extra)[38..] == record[38..] + extra;
    AtSessionIdStable(record[38..], extra);
  }

  // More bytes never change a name that has been found. With `None` for "not yet", the answers
  // along a growing payload therefore change at most once.
  lemma SniStable(payload: seq<Byte>, extra: seq<Byte>)
    requires SniOf(payload).Some?
    ensures SniOf(payload + extra) == SniOf(payload)
  {
    var all := payload + extra;
    var want: nat := 5 + BE16(payload[3], payload[4]);
    var record := payload[5..Min(want, |payload|)];
    var more := all[5..Min(want, |all|)];
    assert more == record + more[|record|..];
    hide SniOfRecord;
    SniOfRecordStable(record, more[|record|..]);
  }

  // ----- The bytes themselves -----

  // The bytes of the built hello, appended as the builder of the source appends them.
  lemma BuiltBytes(host: seq<Byte>)
    requires |host| < 0x8000
    ensures BuiltHello(host).Valid()
    ensures var n := |host|;
            var extensions := [0x00, 0x2B, 0, 3, 0x02, 0x03, 0x04] + [0x00, 0x00] + Put16(n + 5) + Put16(n + 3) + [0] + Put16(n) + host;
            var body := [0x03, 0x03] + seq(32, _ => 0) + ([0] + [0, 2, 0x13, 0x01] + [1, 0] + Put16(n + 16) + extensions);
            var handshake := [0x01, 0] + Put16(n + 59) + body;
            Print(BuiltHello(host)) == [0x16, 0x03, 0x01] + (Put16(n + 63) + handshake)
  {
    var h, n := BuiltHello(host), |host|;
    BuiltExtensions(host);
    var e := PrintExtensions(h.extensions);
    SmallPut16(2);
    hide PrintExtensions, Put16, BuiltHello;
    BuiltMiddle(h, e);
    hide PrintFromSessionId;
    assert |h.random| == 32;
    assert PrintRecord(h) == [0x01, 0] + Put16(n + 59) + (h.version + h.random + PrintFromSessionId(h));
  }

  lemma BuiltMiddle(h: ClientHello, e: seq<Byte>)
    requires h.Valid() && h.sessionId == [] && h.ciphers == [0x13, 0x01] && h.compression == [0] && e == PrintExtensions(h.extensions)
    requires Put16(2) == [0, 2]
    ensures PrintFromSessionId(h) == [0] + [0, 2, 0x13, 0x01] + [1, 0] + Put16(|e|) + e
  {
    hide PrintExtensions, Put16;
    assert PrintFromCompression(h) == [1, 0] + (Put16(|e|) + e);
    assert PrintFromCiphers(h) == [0, 2, 0x13, 0x01] + PrintFromCompression(h);
  }

  lemma SmallPut16(w: nat)
    requires w < 0x100
    ensures Put16(w) == [0, w]
  {
  }

  lemma BuiltExtensions(host: seq<Byte>)
    requires |host| < 0x8000
    ensures var h, n := BuiltHello(host), |host|;
            h.Valid() && h.recordMinor == 1 && h.version == [0x03, 0x03] && h.random == seq(32, _ => 0) && h.sessionId == [] &&
            h.ciphers == [0x13, 0x01] && h.compression == [0] && |PrintExtensions(h.extensions)| == n + 16 &&
            PrintExtensions(h.extensions) == [0x00, 0x2B, 0, 3, 0x02, 0x03, 0x04] +
              [0x00, 0x00] + Put16(n + 5) + Put16(n + 3) + [0] + Put16(n) + host
  {
    var names, exts := [NameEntry(0, host)], BuiltHello(host).extensions;
    BuiltNames(host);
    TwoExtensions(exts[0], exts[1]);
    assert exts == [exts[0], exts[1]];
    SmallPut16(0x2B);
    SmallPut16(3);
    SmallPut16(0);
    hide PrintExtensions, PrintNames, Put16;
    assert PrintExtension(exts[0]) == [0x00, 0x2B, 0, 3, 0x02, 0x03, 0x04];
    assert PrintExtension(exts[1]) == [0x00, 0x00] + Put16(|host| + 5) + Put16(|host| + 3) + [0] + Put16(|host|) + host;
  }

  lemma BuiltNames(host: seq<Byte>)
    requires |host| < 0x8000
    ensures PrintNames([NameEntry(0, host)]) == [0] + Put16(|host|) + host
  {
    assert [NameEntry(0, host)][1..] == [];
    assert PrintNames([NameEntry(0, host)]) == PrintName(NameEntry(0, host)) + PrintNames([]);
  }

  lemma TwoExtensions(x: Extension, y: Extension)
    ensures PrintExtensions([x, y]) == PrintExtension(x) + PrintExtension(y)
  {
    assert [x, y][1..] == [y] && [y][1..] == [];
    assert PrintExtensions([y]) == PrintExtension(y) + PrintExtensions([]);
  }

  // ----- Which names are accepted -----

  // Only dots are trimmed, and all of them.
  lemma {:induction false} TrimDotsMeaning(name: seq<Byte>)
    ensures TrimDots(name) <= name && forall b :: b in name[|TrimDots(name)|..] ==> b as int == '.' as int
    ensures TrimDots(name) != [] ==> TrimDots(name)[|TrimDots(name)| - 1] != '.' as int
  {
    if name != [] && name[|name| - 1] == 0x2E {
      var n := |name| - 1;
      TrimDotsMeaning(name[..n]);
      var t := TrimDots(name);
      assert name[|t|..] == name[..n][|t|..] + [name[n]];
    }
  }

  // A printed server_name list is refused when its first host is empty or holds a byte that is no
  // printable ASCII character or is a space.
  lemma BadHostIsRefused(others: seq<NameEntry>, host: seq<Byte>, more: seq<NameEntry>)
    requires forall n :: n in others ==> n.kind != 0
    requires host == [] || exists b :: b in host && (b <= 0x20 || b >= 0x7F)
    requires var names := others + [NameEntry(0, host)] + more;
             (forall n :: n in names ==> |n.name| < 0x1_0000) && |PrintNames(names)| < 0x1_0000
    ensures ServerName(Vec16(PrintNames(others + [NameEntry(0, host)] + more))) == None
  {
    ServerNamePrinted(others + [NameEntry(0, host)] + more);
    NamesMeaningAfter(others, NameEntry(0, host), more);
    if b :| b in host && (b <= 0x20 || b >= 0x7F) {
      assert !Graphic(b);
    }
  }
}
