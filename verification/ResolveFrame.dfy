// The relay's DNS resolve frames: the 0xA7 response decoder and the 0xA6 request encoder
// (src/vpn/relay.rs).
module ResolveFrame {
  import opened Basics

  const SESSION_ID_LEN := 8
  const RESOLVE_REQUEST_FRAME_TYPE: Byte := 0xA6
  const RESOLVE_RESPONSE_FRAME_TYPE: Byte := 0xA7
  const RESOLVE_MAX_HOSTS_PER_REQUEST := 16
  const RESOLVE_MAX_HOSTNAME_LEN := 64

  // ----- UTF-8, as `str::from_utf8` accepts it (section 4 of RFC 3629) -----

  predicate Tail(b: Byte) {
    0x80 <= b <= 0xBF
  }

  predicate ValidUtf8(s: seq<Byte>) {
    if s == [] then true
    else if s[0] <= 0x7F then ValidUtf8(s[1..])
    else if 0xC2 <= s[0] <= 0xDF then |s| >= 2 && Tail(s[1]) && ValidUtf8(s[2..])
    else if 0xE0 <= s[0] <= 0xEF then
      |s| >= 3 && Tail(s[1]) && Tail(s[2]) &&
      (s[0] == 0xE0 ==> s[1] >= 0xA0) && (s[0] == 0xED ==> s[1] <= 0x9F) && ValidUtf8(s[3..])
    else if 0xF0 <= s[0] <= 0xF4 then
      |s| >= 4 && Tail(s[1]) && Tail(s[2]) && Tail(s[3]) &&
      (s[0] == 0xF0 ==> s[1] >= 0x90) && (s[0] == 0xF4 ==> s[1] <= 0x8F) && ValidUtf8(s[4..])
    else false
  }

  // ----- The response format -----

  datatype Answer = Answer(host: seq<Byte>, ips: seq<Ipv4>)
  {
    predicate Valid() {
      |host| < 0x100 && |ips| < 0x100 && ValidUtf8(host)
    }
  }

  datatype Response = Response(requestId: U16, answers: seq<Answer>)

  function PrintIps(ips: seq<Ipv4>): seq<Byte> {
    if ips == [] then [] else [ips[0].a, ips[0].b, ips[0].c, ips[0].d] + PrintIps(ips[1..])
  }

  function PrintHost(host: seq<Byte>): seq<Byte>
    requires |host| < 0x100
  {
    [|host|] + host
  }

  function PrintIpList(ips: seq<Ipv4>): seq<Byte>
    requires |ips| < 0x100
  {
    [|ips|] + PrintIps(ips)
  }

  function PrintAnswer(a: Answer): seq<Byte>
    requires a.Valid()
  {
    PrintHost(a.host) + PrintIpList(a.ips)
  }

  function PrintAnswers(answers: seq<Answer>): seq<Byte>
    requires forall a :: a in answers ==> a.Valid()
  {
    if answers == [] then [] else PrintAnswer(answers[0]) + PrintAnswers(answers[1..])
  }

  function PrintResponse(sessionId: seq<Byte>, r: Response): seq<Byte>
    requires |sessionId| == SESSION_ID_LEN && |r.answers| < 0x100 && forall a :: a in r.answers ==> a.Valid()
  {
    sessionId + [RESOLVE_RESPONSE_FRAME_TYPE] + Put16(r.requestId) + [|r.answers|] + PrintAnswers(r.answers)
  }

  // ----- Specification of the decoder: consume from the front -----

  function TakeIps(s: seq<Byte>, count: nat): seq<Ipv4>
    requires 4 * count <= |s|
  {
    if count == 0 then [] else [Ipv4(s[0], s[1], s[2], s[3])] + TakeIps(s[4..], count - 1)
  }

  function TakeHost(s: seq<Byte>): Option<(seq<Byte>, seq<Byte>)> {
    if s == [] || 1 + s[0] > |s| then None else Some((s[1..1 + s[0]], s[1 + s[0]..]))
  }

  function TakeIpList(s: seq<Byte>): Option<(seq<Ipv4>, seq<Byte>)> {
    if s == [] then None
    else
      var count: nat := s[0];
      if 1 + 4 * count > |s| then None else Some((TakeIps(s[1..], count), s[1 + 4 * count..]))
  }

  function TakeAnswer(s: seq<Byte>): Option<(Answer, seq<Byte>)> {
    match TakeHost(s)
    case None => None
    case Some((host, t)) =>
      if !ValidUtf8(host) then None
      else
        match TakeIpList(t)
        case None => None
        case Some((ips, rest)) => Some((Answer(host, ips), rest))
  }

  function TakeAnswers(s: seq<Byte>, count: nat): Option<(seq<Answer>, seq<Byte>)> {
    if count == 0 then Some(([], s))
    else
      match TakeAnswer(s)
      case None => None
      case Some((answer, rest)) =>
        match TakeAnswers(rest, count - 1)
        case None => None
        case Some((answers, rest')) => Some(([answer] + answers, rest'))
  }

  function ParseResponse(frame: seq<Byte>): Option<Response> {
    if |frame| < SESSION_ID_LEN + 4 then None
    else
      match TakeAnswers(frame[SESSION_ID_LEN + 4..], frame[SESSION_ID_LEN + 3])
      case None => None
      case Some((answers, _)) =>
        Some(Response(BE16(frame[SESSION_ID_LEN + 1], frame[SESSION_ID_LEN + 2]), answers))
  }

  // ----- The decoder: an offset into a receive buffer, reading only below `len` -----

  method ParseResolveResponse(frame: seq<Byte>, len: nat) returns (response: Option<Response>)
    requires len <= |frame|
    ensures response == ParseResponse(frame[..len])
  {
    hide TakeAnswer, TakeIps, ValidUtf8;
    var header := SESSION_ID_LEN + 1;
    if len < header + 3 {
      return None;
    }
    ghost var all := frame[..len];
    var requestId := BE16(frame[header], frame[header + 1]);
    var answerCount: nat := frame[header + 2];
    var answers := [];
    var off: nat := header + 3;
    ghost var goal := TakeAnswers(all[off..], answerCount);
    assert forall more: seq<Answer> {:trigger [] + more} :: [] + more == more;
    assert goal == Continue(answers, all[off..], answerCount);
    for n := 0 to answerCount
      invariant off <= len
      invariant goal == Continue(answers, all[off..], answerCount - n)
    {
      AnswerAt(all, off);
      if off >= len {
        return None;
      }
      var hostLen: nat := frame[off];
      off := off + 1;
      if off + hostLen > len {
        return None;
      }
      assert frame[off..off + hostLen] == all[off..off + hostLen];
      if !ValidUtf8(frame[off..off + hostLen]) {
        return None;
      }
      var host := frame[off..off + hostLen];
      off := off + hostLen;
      if off >= len {
        return None;
      }
      var ipCount: nat := frame[off];
      off := off + 1;
      if off + ipCount * 4 > len {
        return None;
      }
      var ips := ReadIps(frame[..len], off, ipCount);
      off := off + ipCount * 4;
      ContinueStep(answers, Answer(host, ips), all[off..], answerCount - n - 1);
      answers := answers + [Answer(host, ips)];
    }
    assert answers + [] == answers;
    return Some(Response(requestId, answers));
  }

  // The decoder's answer when `answers` have been read and `count` are left in `s`.
  ghost function Continue(answers: seq<Answer>, s: seq<Byte>, count: nat): Option<(seq<Answer>, seq<Byte>)> {
    match TakeAnswers(s, count)
    case None => None
    case Some((more, rest)) => Some((answers + more, rest))
  }

  lemma ContinueStep(answers: seq<Answer>, answer: Answer, rest: seq<Byte>, count: nat)
    ensures match TakeAnswers(rest, count)
            case None => Continue(answers + [answer], rest, count) == None
            case Some((more, t)) => Continue(answers + [answer], rest, count) == Some((answers + ([answer] + more), t))
  {
    match TakeAnswers(rest, count)
    case None =>
    case Some((more, t)) =>
      assert answers + [answer] + more == answers + ([answer] + more);
  }

  method ReadIps(frame: seq<Byte>, start: nat, count: nat) returns (ips: seq<Ipv4>)
    requires start + count * 4 <= |frame|
    ensures ips == TakeIps(frame[start..], count)
  {
    ips := [];
    var off := start;
    for n := 0 to count
      invariant off == start + 4 * n
      invariant ips + TakeIps(frame[off..], count - n) == TakeIps(frame[start..], count)
    {
      assert frame[off..][4..] == frame[off + 4..];
      ips := ips + [Ipv4(frame[off], frame[off + 1], frame[off + 2], frame[off + 3])];
      off := off + 4;
    }
  }

  // What one round of the decoder sees at offset `off`.
  lemma AnswerAt(s: seq<Byte>, off: nat)
    requires off <= |s|
    ensures TakeAnswer(s[off..]) ==
            if off >= |s| then None
            else
              var hostLen: nat := s[off];
              var hostEnd := off + 1 + hostLen;
              if hostEnd >= |s| || !ValidUtf8(s[off + 1..hostEnd]) then None
              else
                var count: nat := s[hostEnd];
                var end := hostEnd + 1 + 4 * count;
                if end > |s| then None
                else Some((Answer(s[off + 1..hostEnd], TakeIps(s[hostEnd + 1..], count)), s[end..]))
  {
    hide ValidUtf8, TakeIps;
    if off < |s| {
      var hostLen: nat := s[off];
      var hostEnd := off + 1 + hostLen;
      if hostEnd <= |s| {
        SliceOfDrop(s, off, 1, hostEnd - off);
        assert s[off..][hostEnd - off..] == s[hostEnd..];
      }
      if hostEnd < |s| {
        var count: nat := s[hostEnd];
        var end := hostEnd + 1 + 4 * count;
        assert s[hostEnd..][1..] == s[hostEnd + 1..];
        if end <= |s| {
          assert s[hostEnd..][end - hostEnd..] == s[end..];
        }
      }
    }
  }

  // ----- Decoding inverts printing, and printing inverts decoding -----

  lemma {:induction false} TakePrintedIps(ips: seq<Ipv4>, rest: seq<Byte>)
    ensures |PrintIps(ips)| == 4 * |ips|
    ensures TakeIps(PrintIps(ips) + rest, |ips|) == ips
  {
    if ips != [] {
      TakePrintedIps(ips[1..], rest);
      assert (PrintIps(ips) + rest)[4..] == PrintIps(ips[1..]) + rest;
    }
  }

  lemma {:induction false} PrintTakenIps(s: seq<Byte>, count: nat)
    requires 4 * count <= |s|
    ensures |TakeIps(s, count)| == count && PrintIps(TakeIps(s, count)) == s[..4 * count]
  {
    if count > 0 {
      PrintTakenIps(s[4..], count - 1);
      assert s[..4 * count] == [s[0], s[1], s[2], s[3]] + s[4..][..4 * (count - 1)];
    }
  }

  lemma TakePrintedHost(host: seq<Byte>, rest: seq<Byte>)
    requires |host| < 0x100
    ensures TakeHost(PrintHost(host) + rest) == Some((host, rest))
  {
    var s := PrintHost(host) + rest;
    assert s[1..1 + |host|] == host && s[1 + |host|..] == rest;
  }

  lemma TakePrintedIpList(ips: seq<Ipv4>, rest: seq<Byte>)
    requires |ips| < 0x100
    ensures TakeIpList(PrintIpList(ips) + rest) == Some((ips, rest))
  {
    var s := PrintIpList(ips) + rest;
    TakePrintedIps(ips, rest);
    assert s[1..] == PrintIps(ips) + rest && s[1 + 4 * |ips|..] == rest;
  }

  lemma TakePrintedAnswer(a: Answer, rest: seq<Byte>)
    requires a.Valid()
    ensures TakeAnswer(PrintAnswer(a) + rest) == Some((a, rest))
  {
    hide ValidUtf8, TakeHost, TakeIpList;
    assert PrintAnswer(a) + rest == PrintHost(a.host) + (PrintIpList(a.ips) + rest);
    TakePrintedHost(a.host, PrintIpList(a.ips) + rest);
    TakePrintedIpList(a.ips, rest);
  }

  lemma PrintTakenHost(s: seq<Byte>)
    requires TakeHost(s).Some?
    ensures var (host, rest) := TakeHost(s).value; |host| < 0x100 && s == PrintHost(host) + rest
  {
  }

  lemma PrintTakenIpList(s: seq<Byte>)
    requires TakeIpList(s).Some?
    ensures var (ips, rest) := TakeIpList(s).value; |ips| < 0x100 && s == PrintIpList(ips) + rest
  {
    var count: nat := s[0];
    PrintTakenIps(s[1..], count);
    assert s == [s[0]] + s[1..][..4 * count] + s[1 + 4 * count..];
  }

  lemma PrintTakenAnswer(s: seq<Byte>)
    requires TakeAnswer(s).Some?
    ensures var (a, rest) := TakeAnswer(s).value; a.Valid() && s == PrintAnswer(a) + rest
  {
    hide ValidUtf8, TakeHost, TakeIpList;
    PrintTakenHost(s);
    var (host, t) := TakeHost(s).value;
    PrintTakenIpList(t);
    var (ips, rest) := TakeIpList(t).value;
    assert PrintHost(host) + (PrintIpList(ips) + rest) == PrintHost(host) + PrintIpList(ips) + rest;
  }

  lemma {:induction false} TakePrintedAnswers(answers: seq<Answer>, rest: seq<Byte>)
    requires forall a :: a in answers ==> a.Valid()
    ensures TakeAnswers(PrintAnswers(answers) + rest, |answers|) == Some((answers, rest))
  {
    hide ValidUtf8, TakeAnswer, PrintAnswer;
    if answers == [] {
      assert PrintAnswers(answers) + rest == rest;
    } else {
      var tail := PrintAnswers(answers[1..]) + rest;
      assert PrintAnswers(answers) + rest == PrintAnswer(answers[0]) + tail;
      TakePrintedAnswer(answers[0], tail);
      TakePrintedAnswers(answers[1..], rest);
      assert answers == [answers[0]] + answers[1..];
    }
  }

  lemma {:induction false} PrintTakenAnswers(s: seq<Byte>, count: nat)
    requires TakeAnswers(s, count).Some?
    ensures var (answers, rest) := TakeAnswers(s, count).value;
            |answers| == count && (forall a :: a in answers ==> a.Valid()) && s == PrintAnswers(answers) + rest
    decreases count
  {
    hide ValidUtf8, TakeAnswer, PrintAnswer;
    if count == 0 {
      assert PrintAnswers([]) + s == s;
    } else {
      PrintTakenAnswer(s);
      var (answer, t) := TakeAnswer(s).value;
      PrintTakenAnswers(t, count - 1);
      var (answers, rest) := TakeAnswers(t, count - 1).value;
      assert ([answer] + answers)[1..] == answers;
      assert s == PrintAnswer(answer) + PrintAnswers(answers) + rest;
    }
  }

  // The decoder returns what was encoded; trailing bytes are ignored.
  lemma DecodeEncoded(sessionId: seq<Byte>, r: Response, trailing: seq<Byte>)
    requires |sessionId| == SESSION_ID_LEN && |r.answers| < 0x100 && forall a :: a in r.answers ==> a.Valid()
    ensures ParseResponse(PrintResponse(sessionId, r) + trailing) == Some(r)
  {
    hide ValidUtf8, TakeAnswers, PrintAnswers;
    var header := sessionId + [RESOLVE_RESPONSE_FRAME_TYPE] + Put16(r.requestId) + [|r.answers|];
    var body := PrintAnswers(r.answers) + trailing;
    assert PrintResponse(sessionId, r) + trailing == header + body;
    DropPrefix(header, body);
    BE16Put16(r.requestId);
    TakePrintedAnswers(r.answers, trailing);
  }

  // Whatever decodes re-encodes to exactly the bytes consumed.
  lemma EncodeDecoded(frame: seq<Byte>)
    requires ParseResponse(frame).Some?
    ensures var r := ParseResponse(frame).value;
            |r.answers| < 0x100 && (forall a :: a in r.answers ==> a.Valid()) &&
            (frame[SESSION_ID_LEN] == RESOLVE_RESPONSE_FRAME_TYPE ==>
               PrintResponse(frame[..SESSION_ID_LEN], r) <= frame)
  {
    hide ValidUtf8, TakeAnswers, PrintAnswers;
    var s, count := frame[SESSION_ID_LEN + 4..], frame[SESSION_ID_LEN + 3];
    PrintTakenAnswers(s, count);
    var r := ParseResponse(frame).value;
    var rest := TakeAnswers(s, count).value.1;
    Put16BE16(frame[SESSION_ID_LEN + 1], frame[SESSION_ID_LEN + 2]);
    if frame[SESSION_ID_LEN] == RESOLVE_RESPONSE_FRAME_TYPE {
      assert frame == PrintResponse(frame[..SESSION_ID_LEN], r) + rest;
    }
  }

  // Every strict truncation of an encoded frame decodes to nothing.
  lemma TruncatedDecodesToNone(sessionId: seq<Byte>, r: Response, k: nat)
    requires |sessionId| == SESSION_ID_LEN && |r.answers| < 0x100 && forall a :: a in r.answers ==> a.Valid()
    requires k < |PrintResponse(sessionId, r)|
    ensures ParseResponse(PrintResponse(sessionId, r)[..k]) == None
  {
    hide ValidUtf8, TakeAnswers, PrintAnswers;
    var all := PrintAnswers(r.answers);
    var header := sessionId + [RESOLVE_RESPONSE_FRAME_TYPE] + Put16(r.requestId) + [|r.answers|];
    assert PrintResponse(sessionId, r) == header + all;
    if k >= |header| {
      TakeDropPrefix(header, all, k);
      TruncatedAnswers(r.answers, k - |header|);
    }
  }

  lemma TruncatedAnswers(all: seq<Answer>, k: nat)
    requires (forall a :: a in all ==> a.Valid()) && k < |PrintAnswers(all)|
    ensures TakeAnswers(PrintAnswers(all)[..k], |all|) == None
  {
    hide ValidUtf8, TakeAnswers, PrintAnswers;
    var bytes := PrintAnswers(all);
    if TakeAnswers(bytes[..k], |all|).Some? {
      PrintTakenAnswers(bytes[..k], |all|);
      var (answers, rest) := TakeAnswers(bytes[..k], |all|).value;
      assert bytes + [] == bytes == PrintAnswers(answers) + (rest + bytes[k..]);
      TakePrintedAnswers(answers, rest + bytes[k..]);
      TakePrintedAnswers(all, []);
      assert false;
    }
  }

  // ----- The request -----

  function ClipHost(host: seq<Byte>): seq<Byte> {
    host[..Min(|host|, RESOLVE_MAX_HOSTNAME_LEN)]
  }

  // At most 16 hosts, each cut at 64 bytes.
  function ClipHosts(hosts: seq<seq<Byte>>): seq<seq<Byte>> {
    var count := Min(|hosts|, RESOLVE_MAX_HOSTS_PER_REQUEST);
    seq(count, i requires 0 <= i < |hosts| => ClipHost(hosts[i]))
  }

  // The relay's reading of a request: `count` length-prefixed hosts and nothing more.
  function TakeHosts(s: seq<Byte>, count: nat): Option<seq<seq<Byte>>> {
    if count == 0 then if s == [] then Some([]) else None
    else
      match TakeHost(s)
      case None => None
      case Some((host, rest)) =>
        match TakeHosts(rest, count - 1)
        case None => None
        case Some(hosts) => Some([host] + hosts)
  }

  function ParseRequest(frame: seq<Byte>): Option<(seq<Byte>, U16, seq<seq<Byte>>)> {
    if |frame| < SESSION_ID_LEN + 4 || frame[SESSION_ID_LEN] != RESOLVE_REQUEST_FRAME_TYPE then None
    else
      match TakeHosts(frame[SESSION_ID_LEN + 4..], frame[SESSION_ID_LEN + 3])
      case None => None
      case Some(hosts) =>
        Some((frame[..SESSION_ID_LEN], BE16(frame[SESSION_ID_LEN + 1], frame[SESSION_ID_LEN + 2]), hosts))
  }

  lemma {:induction false} TakeHostsAppend(s: seq<Byte>, count: nat, host: seq<Byte>)
    requires TakeHosts(s, count).Some? && |host| < 0x100
    ensures TakeHosts(s + PrintHost(host), count + 1) == Some(TakeHosts(s, count).value + [host])
    decreases count
  {
    hide TakeHost;
    if count == 0 {
      assert s + PrintHost(host) == PrintHost(host) + [];
      TakePrintedHost(host, []);
      assert TakeHosts([], 0) == Some([]);
      assert [host] + [] == [] + [host];
    } else {
      PrintTakenHost(s);
      var (first, rest) := TakeHost(s).value;
      assert s + PrintHost(host) == PrintHost(first) + (rest + PrintHost(host));
      TakePrintedHost(first, rest + PrintHost(host));
      TakeHostsAppend(rest, count - 1, host);
      var hosts := TakeHosts(rest, count - 1).value;
      assert [first] + (hosts + [host]) == [first] + hosts + [host];
    }
  }

  // The frame built by `send_resolve_request` reads back as the clipped hosts.
  method BuildResolveRequest(sessionId: seq<Byte>, requestId: U16, hosts: seq<seq<Byte>>)
    returns (frame: seq<Byte>)
    requires |sessionId| == SESSION_ID_LEN
    ensures ParseRequest(frame) == Some((sessionId, requestId, ClipHosts(hosts)))
  {
    var count: Byte := Min(|hosts|, RESOLVE_MAX_HOSTS_PER_REQUEST);
    frame := sessionId + [RESOLVE_REQUEST_FRAME_TYPE] + Put16(requestId) + [count];
    ghost var header := frame;
    ghost var body := [];
    for i := 0 to count
      invariant frame == header + body
      invariant TakeHosts(body, i) == Some(ClipHosts(hosts)[..i])
    {
      var len: Byte := Min(|hosts[i]|, RESOLVE_MAX_HOSTNAME_LEN);
      var host := hosts[i][..len];
      TakeHostsAppend(body, i, host);
      body := body + PrintHost(host);
      frame := frame + [len];
      frame := frame + host;
      assert frame == header + body;
      assert ClipHosts(hosts)[..i + 1] == ClipHosts(hosts)[..i] + [host];
    }
    assert frame[SESSION_ID_LEN + 4..] == body && frame[..SESSION_ID_LEN] == sessionId;
    assert ClipHosts(hosts)[..count] == ClipHosts(hosts);
    BE16Put16(requestId);
  }

  // ----- The bytes themselves -----

  // A response with one answer of two addresses, written out flat; answers follow each other.
  lemma ResponseBytes(sessionId: seq<Byte>, id: U16, host: seq<Byte>, x: Ipv4, y: Ipv4)
    requires |sessionId| == SESSION_ID_LEN && |host| < 0x100 && ValidUtf8(host)
    ensures var answer := Answer(host, [x, y]);
            PrintResponse(sessionId, Response(id, [answer])) ==
            sessionId + [0xA7, id / 0x100, id % 0x100, 1, |host|] + host + [2, x.a, x.b, x.c, x.d, y.a, y.b, y.c, y.d]
  {
    hide ValidUtf8, PrintIps;
    var answer := Answer(host, [x, y]);
    TwoIps(x, y);
    assert [answer][1..] == [];
    assert PrintAnswers([answer]) == PrintAnswer(answer) + PrintAnswers([]);
    assert PrintAnswers([answer]) == [|host|] + host + ([2] + PrintIps([x, y]));
  }

  lemma TwoIps(x: Ipv4, y: Ipv4)
    ensures PrintIps([x, y]) == [x.a, x.b, x.c, x.d, y.a, y.b, y.c, y.d]
  {
    assert [x, y][1..] == [y] && [y][1..] == [];
    assert PrintIps([y]) == [y.a, y.b, y.c, y.d] + PrintIps([]);
  }

  lemma AnswersFollow(first: Answer, second: Answer)
    requires first.Valid() && second.Valid()
    ensures PrintAnswers([first, second]) == PrintAnswer(first) + PrintAnswer(second)
  {
    hide ValidUtf8, PrintAnswer;
    assert [first, second][1..] == [second] && [second][1..] == [];
    assert PrintAnswers([second]) == PrintAnswer(second) + PrintAnswers([]);
  }

  // A request for two hosts, written out flat.
  lemma RequestBytes(sessionId: seq<Byte>, id: U16, first: seq<Byte>, second: seq<Byte>)
    requires |sessionId| == SESSION_ID_LEN && |first| < 0x100 && |second| < 0x100
    ensures ParseRequest(sessionId + [0xA6, id / 0x100, id % 0x100, 2, |first|] + first + [|second|] + second) ==
            Some((sessionId, id, [first, second]))
  {
    var frame := sessionId + [0xA6, id / 0x100, id % 0x100, 2, |first|] + first + [|second|] + second;
    var body := PrintHost(first) + (PrintHost(second) + []);
    assert frame[SESSION_ID_LEN + 4..] == body && frame[..SESSION_ID_LEN] == sessionId;
    assert frame[SESSION_ID_LEN] == 0xA6 && frame[SESSION_ID_LEN + 3] == 2;
    TakePrintedHost(first, PrintHost(second) + []);
    TakePrintedHost(second, []);
    hide TakeHost;
    assert TakeHosts([], 0) == Some([]);
    assert TakeHosts(PrintHost(second) + [], 1) == Some([second] + []);
    assert [first] + ([second] + []) == [first, second];
  }

  // At most the first sixteen hosts are asked for, each by at most its first 64 bytes.
  lemma ClippedHosts(hosts: seq<seq<Byte>>, i: nat)
    ensures |ClipHosts(hosts)| == if |hosts| <= 16 then |hosts| else 16
    ensures i < |hosts| && i < 16 ==>
              ClipHosts(hosts)[i] <= hosts[i] && |ClipHosts(hosts)[i]| == if |hosts[i]| <= 64 then |hosts[i]| else 64
  {
  }

  // ----- UTF-8: the accepted byte sequences are the encodings of scalar values -----

  predicate Scalar(c: nat) {
    c < 0xD800 || 0xE000 <= c <= 0x10FFFF
  }

  function EncodeScalar(c: nat): seq<Byte>
    requires Scalar(c)
  {
    if c < 0x80 then [c]
    else if c < 0x800 then [0xC0 + c / 64, 0x80 + c % 64]
    else if c < 0x1_0000 then [0xE0 + c / 4096, 0x80 + c / 64 % 64, 0x80 + c % 64]
    else [0xF0 + c / 262144, 0x80 + c / 4096 % 64, 0x80 + c / 64 % 64, 0x80 + c % 64]
  }

  function Encode(text: seq<nat>): seq<Byte>
    requires forall c :: c in text ==> Scalar(c)
  {
    if text == [] then [] else EncodeScalar(text[0]) + Encode(text[1..])
  }

  lemma ScalarIsValid(c: nat, rest: seq<Byte>)
    requires Scalar(c)
    ensures ValidUtf8(EncodeScalar(c) + rest) <==> ValidUtf8(rest)
  {
    var e := EncodeScalar(c);
    var s := e + rest;
    assert s[|e|..] == rest;
  }

  lemma {:induction false} EncodedIsValid(text: seq<nat>)
    requires forall c :: c in text ==> Scalar(c)
    ensures ValidUtf8(Encode(text))
  {
    hide ValidUtf8, EncodeScalar;
    if text == [] {
      EmptyIsValid();
    } else {
      EncodedIsValid(text[1..]);
      ScalarIsValid(text[0], Encode(text[1..]));
    }
  }

  lemma EmptyIsValid()
    ensures ValidUtf8([])
  {
  }

  // The first scalar value of a valid sequence, and how many bytes it takes.
  lemma FirstScalar(s: seq<Byte>) returns (c: nat, n: nat)
    requires s != [] && ValidUtf8(s)
    ensures 0 < n <= |s| && Scalar(c) && EncodeScalar(c) == s[..n] && ValidUtf8(s[n..])
  {
    var a: int := s[0];
    if a <= 0x7F {
      c, n := a, 1;
    } else if a <= 0xDF {
      n := 2;
      c := TwoBytes(s[0], s[1]);
    } else if a <= 0xEF {
      n := 3;
      c := ThreeBytes(s[0], s[1], s[2]);
    } else {
      n := 4;
      c := FourBytes(s[0], s[1], s[2], s[3]);
    }
  }

  lemma TwoBytes(a: Byte, x: Byte) returns (c: nat)
    requires 0xC2 <= a <= 0xDF && Tail(x)
    ensures Scalar(c) && EncodeScalar(c) == [a, x]
  {
    var high: int, low: int := a - 0xC0, x - 0x80;
    c := 64 * high + low;
    assert c / 64 == high && c % 64 == low;
  }

  lemma ThreeBytes(a: Byte, x: Byte, y: Byte) returns (c: nat)
    requires 0xE0 <= a <= 0xEF && Tail(x) && Tail(y) && (a == 0xE0 ==> x >= 0xA0) && (a == 0xED ==> x <= 0x9F)
    ensures Scalar(c) && EncodeScalar(c) == [a, x, y]
  {
    var high: int, middle: int, low: int := a - 0xE0, x - 0x80, y - 0x80;
    c := 64 * (64 * high + middle) + low;
    assert c / 64 == 64 * high + middle && c % 64 == low;
    assert c / 4096 == high && c / 64 % 64 == middle;
  }

  lemma FourBytes(a: Byte, x: Byte, y: Byte, z: Byte) returns (c: nat)
    requires 0xF0 <= a <= 0xF4 && Tail(x) && Tail(y) && Tail(z) && (a == 0xF0 ==> x >= 0x90) && (a == 0xF4 ==> x <= 0x8F)
    ensures Scalar(c) && EncodeScalar(c) == [a, x, y, z]
  {
    var top: int, high: int, middle: int, low: int := a - 0xF0, x - 0x80, y - 0x80, z - 0x80;
    c := 64 * (64 * (64 * top + high) + middle) + low;
    assert c / 64 == 64 * (64 * top + high) + middle && c % 64 == low;
    assert c / 4096 == 64 * top + high && c / 64 % 64 == middle;
    assert c / 262144 == top && c / 4096 % 64 == high;
  }

  lemma {:induction false} ValidIsEncoded(s: seq<Byte>) returns (text: seq<nat>)
    requires ValidUtf8(s)
    ensures (forall c :: c in text ==> Scalar(c)) && Encode(text) == s
  {
    hide EncodeScalar;
    if s == [] {
      text := [];
    } else {
      var c, n := FirstScalar(s);
      hide ValidUtf8;
      var rest := ValidIsEncoded(s[n..]);
      text := [c] + rest;
      assert text[1..] == rest;
    }
  }
}
