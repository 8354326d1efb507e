// Ethernet frames as they are sent, and what the classifier makes of them
// (src/split_tunnel/interceptor.rs): a printer for frames with any IP and TCP options, and the
// decision for every frame in terms of its header fields.
module FrameFormat {
  import opened Basics
  import opened ProcessCache
  import opened Interceptor

  // ----- TCP flags, bit by bit (section 3.1 of RFC 793) -----

  datatype TcpFlags = TcpFlags(cwr: bool, ece: bool, urg: bool, ack: bool, psh: bool, rst: bool, syn: bool, fin: bool)

  function Bit(b: bool): nat {
    if b then 1 else 0
  }

  function FlagsByte(f: TcpFlags): Byte {
    128 * Bit(f.cwr) + 64 * Bit(f.ece) + 32 * Bit(f.urg) + 16 * Bit(f.ack) +
    8 * Bit(f.psh) + 4 * Bit(f.rst) + 2 * Bit(f.syn) + Bit(f.fin)
  }

  // A connection's first segment: SYN set and ACK clear, whatever the other flags.
  lemma InitialSynIff(f: TcpFlags)
    ensures SynWithoutAck(FlagsByte(f)) <==> f.syn && !f.ack
  {
    var low := 4 * Bit(f.psh) + 2 * Bit(f.rst) + Bit(f.syn);
    assert FlagsByte(f) / 2 == 2 * (32 * Bit(f.cwr) + 16 * Bit(f.ece) + 8 * Bit(f.urg) + 4 * Bit(f.ack) + 2 * Bit(f.psh) + Bit(f.rst)) + Bit(f.syn);
    assert FlagsByte(f) / 0x10 == 2 * (4 * Bit(f.cwr) + 2 * Bit(f.ece) + Bit(f.urg)) + Bit(f.ack);
  }

  // ----- The printer -----

  // The fields of an IPv4 header that play no part in the decision.
  datatype Around = Around(macs: seq<Byte>, tos: Byte, id: seq<Byte>, ttl: Byte, check: seq<Byte>, options: seq<Byte>, trailer: seq<Byte>)
  {
    predicate Valid() {
      |macs| == 12 && |id| == 4 && |check| == 2 && |options| <= 40 && |options| % 4 == 0
    }
  }

  function HeaderByte4(i: nat, w: Around, protocol: Byte, src: Ipv4, dst: Ipv4, length: U16): Byte
    requires w.Valid()
  {
    if i < 12 then w.macs[i]
    else
      match i
      case 12 => 0x08
      case 14 => 0x45 + |w.options| / 4
      case 15 => w.tos
      case 16 => length / 0x100
      case 17 => length % 0x100
      case 18 => w.id[0]
      case 19 => w.id[1]
      case 20 => w.id[2]
      case 21 => w.id[3]
      case 22 => w.ttl
      case 23 => protocol
      case 24 => w.check[0]
      case 25 => w.check[1]
      case 26 => src.a
      case 27 => src.b
      case 28 => src.c
      case 29 => src.d
      case 30 => dst.a
      case 31 => dst.b
      case 32 => dst.c
      case 33 => dst.d
      case _ => 0
  }

  // Ethernet and IPv4 headers (section 3.1 of RFC 791), options, the transport segment, and
  // whatever the link appends.
  function PrintFrame(w: Around, protocol: Byte, src: Ipv4, dst: Ipv4, segment: seq<Byte>): seq<Byte>
    requires w.Valid() && 20 + |w.options| + |segment| < 0x1_0000
  {
    seq(34, i requires 0 <= i < 34 => HeaderByte4(i, w, protocol, src, dst, 20 + |w.options| + |segment|)) +
    w.options + segment + w.trailer
  }

  datatype TcpHeader = TcpHeader(srcPort: U16, dstPort: U16, numbers: seq<Byte>, flags: TcpFlags, tail: seq<Byte>, options: seq<Byte>)
  {
    predicate Valid() {
      |numbers| == 8 && |tail| == 6 && |options| <= 40 && |options| % 4 == 0
    }
  }

  function TcpByte(i: nat, h: TcpHeader): Byte
    requires h.Valid()
  {
    if 4 <= i < 12 then h.numbers[i - 4]
    else if 14 <= i < 20 then h.tail[i - 14]
    else
      match i
      case 0 => h.srcPort / 0x100
      case 1 => h.srcPort % 0x100
      case 2 => h.dstPort / 0x100
      case 3 => h.dstPort % 0x100
      case 12 => 0x50 + |h.options| / 4 * 0x10
      case 13 => FlagsByte(h.flags)
      case _ => 0
  }

  function PrintTcp(h: TcpHeader, payload: seq<Byte>): seq<Byte>
    requires h.Valid()
  {
    seq(20, i requires 0 <= i < 20 => TcpByte(i, h)) + h.options + payload
  }

  function PrintUdp(srcPort: U16, dstPort: U16, rest: seq<Byte>): seq<Byte> {
    [srcPort / 0x100, srcPort % 0x100, dstPort / 0x100, dstPort % 0x100] + rest
  }

  // ----- Every printed frame parses to its fields -----

  lemma HeaderFields(w: Around, protocol: Byte, src: Ipv4, dst: Ipv4, segment: seq<Byte>)
    requires w.Valid() && 20 + |w.options| + |segment| < 0x1_0000 && |segment| >= 4
    ensures var data, t := PrintFrame(w, protocol, src, dst, segment), 34 + |w.options|;
            |data| == t + |segment| + |w.trailer| && data[12] == 0x08 && data[13] == 0 &&
            data[IP_START] / 0x10 == 4 && data[23] == protocol && TransportStart(data) == t &&
            BE16(data[16], data[17]) == t - IP_START + |segment| && IpAt(data, 26) == src && IpAt(data, 30) == dst &&
            data[t..t + |segment|] == segment
    ensures var data, t := PrintFrame(w, protocol, src, dst, segment), 34 + |w.options|;
            forall i :: 0 <= i < |segment| ==> data[t + i] == segment[i]
  {
    var data, t := PrintFrame(w, protocol, src, dst, segment), 34 + |w.options|;
    assert data[14] == 0x45 + |w.options| / 4;
    assert data[t..t + |segment|] == segment;
  }

  lemma SegmentFields(h: TcpHeader, payload: seq<Byte>)
    requires h.Valid()
    ensures var s := PrintTcp(h, payload);
            |s| == 20 + |h.options| + |payload| && BE16(s[0], s[1]) == h.srcPort && BE16(s[2], s[3]) == h.dstPort &&
            s[12] / 0x10 * 4 == 20 + |h.options| && s[13] == FlagsByte(h.flags) && s[20 + |h.options|..] == payload
  {
    hide FlagsByte;
  }

  // The frame carries TCP and is long enough to show its flags.
  ghost predicate ShowsFlags(data: seq<Byte>, flags: TcpFlags) {
    ParseFlow(data).Some? && ParseFlow(data).value.protocol.Tcp? &&
    |data| > TransportStart(data) + 13 && data[TransportStart(data) + 13] == FlagsByte(flags)
  }

  // Whatever the options and the trailer, a printed TCP frame gives its addresses, ports and flags.
  lemma TcpFrameReads(w: Around, src: Ipv4, dst: Ipv4, h: TcpHeader, payload: seq<Byte>)
    requires w.Valid() && h.Valid() && 40 + |w.options| + |h.options| + |payload| < 0x1_0000
    ensures var data := PrintFrame(w, 6, src, dst, PrintTcp(h, payload));
            ParseFlow(data) == Some(Flow(Tcp, src, h.srcPort, dst, h.dstPort, h.flags.syn && !h.flags.ack)) &&
            ParsePorts(data) == Some((h.srcPort, h.dstPort)) && ShowsFlags(data, h.flags)
  {
    var segment := PrintTcp(h, payload);
    var data, t := PrintFrame(w, 6, src, dst, segment), 34 + |w.options|;
    SegmentFields(h, payload);
    HeaderFields(w, 6, src, dst, segment);
    InitialSynIff(h.flags);
    hide PrintFrame, PrintTcp, FlagsByte, SynWithoutAck, TransportStart, BE16, IpAt;
    assert data[t] == segment[0] && data[t + 1] == segment[1] && data[t + 2] == segment[2] && data[t + 3] == segment[3];
    assert data[t + 13] == segment[13];
  }

  // Its payload is what was sent, without the trailer.
  lemma TcpPayloadReads(w: Around, src: Ipv4, dst: Ipv4, h: TcpHeader, payload: seq<Byte>)
    requires w.Valid() && h.Valid() && 40 + |w.options| + |h.options| + |payload| < 0x1_0000
    ensures var data := PrintFrame(w, 6, src, dst, PrintTcp(h, payload));
            TcpPayload(data, TransportStart(data)) == if payload == [] then None else Some(payload)
  {
    var segment := PrintTcp(h, payload);
    var data, t := PrintFrame(w, 6, src, dst, segment), 34 + |w.options|;
    SegmentFields(h, payload);
    HeaderFields(w, 6, src, dst, segment);
    hide PrintFrame, PrintTcp, TransportStart, BE16, IpAt;
    assert data[t + 12] == segment[12];
    assert data[t + 20 + |h.options|..t + |segment|] == data[t..t + |segment|][20 + |h.options|..];
  }

  lemma UdpFrameReads(w: Around, src: Ipv4, dst: Ipv4, srcPort: U16, dstPort: U16, rest: seq<Byte>)
    requires w.Valid() && 24 + |w.options| + |rest| < 0x1_0000
    ensures var data := PrintFrame(w, 17, src, dst, PrintUdp(srcPort, dstPort, rest));
            ParseFlow(data) == Some(Flow(Udp, src, srcPort, dst, dstPort, false)) && ParsePorts(data) == Some((srcPort, dstPort))
  {
    var segment := PrintUdp(srcPort, dstPort, rest);
    var data, t := PrintFrame(w, 17, src, dst, segment), 34 + |w.options|;
    HeaderFields(w, 17, src, dst, segment);
    hide PrintFrame, TransportStart;
    assert data[t] == segment[0] && data[t + 1] == segment[1] && data[t + 2] == segment[2] && data[t + 3] == segment[3];
  }

  // ----- The decision in terms of header fields -----

  // `n` blocks of 256 addresses from a.b.c.0 on.
  predicate InBlocks(ip: Ipv4, a: Byte, b: Byte, c: Byte, n: nat) {
    ip.a == a && ip.b == b && c <= ip.c < c + n
  }

  // The address ranges in dotted form.
  predicate RobloxBlock(ip: Ipv4) {
    InBlocks(ip, 128, 116, 0, 128) || InBlocks(ip, 209, 206, 40, 8) || InBlocks(ip, 103, 140, 28, 2) ||
    InBlocks(ip, 103, 142, 220, 2) || InBlocks(ip, 23, 173, 192, 1) || InBlocks(ip, 141, 193, 3, 1) ||
    InBlocks(ip, 205, 201, 62, 1) || InBlocks(ip, 204, 9, 184, 1) || InBlocks(ip, 204, 13, 168, 4) ||
    InBlocks(ip, 204, 13, 172, 2)
  }

  lemma DottedInterval(ip: Ipv4, a: Byte, b: Byte, c: Byte, n: nat)
    requires c + n <= 0x100
    ensures var from := 0x100_0000 * a + 0x1_0000 * b + 0x100 * c;
            from <= ip.AsU32() < from + 0x100 * n <==> InBlocks(ip, a, b, c, n)
  {
    var high, from := ip.a * 0x1_0000 + ip.b * 0x100 + ip.c, a * 0x1_0000 + b * 0x100 + c;
    assert ip.AsU32() == 0x100 * high + ip.d;
    assert from <= high < from + n <==> InBlocks(ip, a, b, c, n);
  }

  lemma DottedRange(ip: Ipv4, i: nat, a: Byte, b: Byte, c: Byte, n: nat)
    requires i < |ROBLOX_RANGES| && ROBLOX_RANGES[i].network == 0x100_0000 * a + 0x1_0000 * b + 0x100 * c
    requires 0x1_0000_0000 - ROBLOX_RANGES[i].mask == 0x100 * n && c + n <= 0x100
    ensures IpInRange(ip, ROBLOX_RANGES[i]) <==> InBlocks(ip, a, b, c, n)
  {
    hide IpInRange, Masked, InBlocks, Ipv4.AsU32, ValidCidrMask;
    var r := ROBLOX_RANGES[i];
    RangesAreCidr(i);
    InRangeIsInterval(ip, r);
    DottedInterval(ip, a, b, c, n);
  }

  lemma RangesByIndex(ip: Ipv4)
    ensures var r := ROBLOX_RANGES;
            IsRobloxGameServerIp(ip) <==>
            IpInRange(ip, r[0]) || IpInRange(ip, r[1]) || IpInRange(ip, r[2]) || IpInRange(ip, r[3]) || IpInRange(ip, r[4]) ||
            IpInRange(ip, r[5]) || IpInRange(ip, r[6]) || IpInRange(ip, r[7]) || IpInRange(ip, r[8]) || IpInRange(ip, r[9])
  {
    hide IpInRange;
    forall i | 0 <= i < 10
      ensures IpInRange(ip, ROBLOX_RANGES[i]) ==> IsRobloxGameServerIp(ip)
    {
      assert ROBLOX_RANGES[i] in ROBLOX_RANGES;
    }
  }

  lemma RobloxBlocks(ip: Ipv4)
    ensures IsRobloxGameServerIp(ip) <==> RobloxBlock(ip)
  {
    hide IsRobloxGameServerIp, IpInRange, InBlocks;
    RangesByIndex(ip);
    DottedRange(ip, 0, 128, 116, 0, 128);
    DottedRange(ip, 1, 209, 206, 40, 8);
    DottedRange(ip, 2, 103, 140, 28, 2);
    DottedRange(ip, 3, 103, 142, 220, 2);
    DottedRange(ip, 4, 23, 173, 192, 1);
    DottedRange(ip, 5, 141, 193, 3, 1);
    DottedRange(ip, 6, 205, 201, 62, 1);
    DottedRange(ip, 7, 204, 9, 184, 1);
    DottedRange(ip, 8, 204, 13, 168, 4);
    DottedRange(ip, 9, 204, 13, 172, 2);
  }

  // ----- The decision, for every frame, in terms of its header fields -----

  lemma FlagsShown(data: seq<Byte>, flags: TcpFlags)
    requires ShowsFlags(data, flags)
    ensures ParseFlow(data).value.initialSyn <==> flags.syn && !flags.ack
  {
    InitialSynIff(flags);
    hide FlagsByte, SynWithoutAck, BE16, IpAt;
  }

  // Main result: an initial SYN to port 80 or 443 of an active bootstrap address is relayed under
  // Route Assist, whoever sends it, when a tunnel app is configured; and its source is remembered.
  lemma InitialSynIsRelayed(data: seq<Byte>, flags: TcpFlags, snapshot: ProcessSnapshot, cache: set<FlowKey>, env: Env)
    requires ShowsFlags(data, flags) && flags.syn && !flags.ack
    requires var f := ParseFlow(data).value;
             (f.dstPort == 80 || f.dstPort == 443) && f.dstIp in env.bootstrap.active && f.dstIp !in env.bootstrap.directOnly &&
             f.dstIp !in env.excluded
    requires env.apiTunneling && snapshot.tunnelApps != {}
    ensures Tunnels(data, snapshot, cache, env)
    ensures |cache| < 10000 ==> ParseFlow(data).value.Key() in CacheAfter(data, snapshot, cache, env)
  {
    FlagsShown(data, flags);
    hide ParseFlow, ShowsFlags;
  }

  // Main result: what is decided for a TCP frame whose source is neither owned nor remembered and
  // whose destination is no game server: relayed exactly if it is such an initial SYN. A segment
  // with ACK set or SYN clear is bypassed, and its source is not remembered.
  lemma UnknownTcpIff(data: seq<Byte>, flags: TcpFlags, snapshot: ProcessSnapshot, cache: set<FlowKey>, env: Env)
    requires ShowsFlags(data, flags)
    requires var f := ParseFlow(data).value;
             !snapshot.IsTunnelConnection(f.srcIp, f.srcPort, Tcp) && f.Key() !in cache && !RobloxBlock(f.dstIp)
    ensures var f := ParseFlow(data).value;
            Tunnels(data, snapshot, cache, env) <==>
            env.apiTunneling && flags.syn && !flags.ack && (f.dstPort == 80 || f.dstPort == 443) && snapshot.tunnelApps != {} &&
            f.dstIp in env.bootstrap.active && f.dstIp !in env.bootstrap.directOnly && f.dstIp !in env.excluded
    ensures !Tunnels(data, snapshot, cache, env) ==> CacheAfter(data, snapshot, cache, env) == cache
  {
    FlagsShown(data, flags);
    RobloxBlocks(ParseFlow(data).value.dstIp);
    hide ParseFlow, ShowsFlags, IsRobloxGameServerIp, RobloxBlock;
  }

  // Main result: a TCP frame from an owned source or to a game server is relayed under Route
  // Assist unless it is DNS, excluded or direct-only.
  lemma KnownTcpIff(data: seq<Byte>, snapshot: ProcessSnapshot, cache: set<FlowKey>, env: Env)
    requires ParseFlow(data).Some? && ParseFlow(data).value.protocol.Tcp?
    requires var f := ParseFlow(data).value;
             snapshot.IsTunnelConnection(f.srcIp, f.srcPort, Tcp) || f.Key() in cache || RobloxBlock(f.dstIp)
    ensures var f := ParseFlow(data).value;
            Tunnels(data, snapshot, cache, env) <==>
            env.apiTunneling && f.dstPort != 53 && f.dstIp !in env.excluded && f.dstIp !in env.bootstrap.directOnly
  {
    RobloxBlocks(ParseFlow(data).value.dstIp);
    hide ParseFlow, IsRobloxGameServerIp, RobloxBlock;
  }

  // Main result: every UDP frame, with an indexed snapshot: relayed exactly with UDP tunneling on,
  // to a destination that is not excluded and no DNS, when its source port is a tunnel process's,
  // its source is remembered, or it goes to a game server's port 49152 or above.
  lemma UdpIff(data: seq<Byte>, snapshot: ProcessSnapshot, cache: set<FlowKey>, env: Env)
    requires ParseFlow(data).Some? && ParseFlow(data).value.protocol.Udp? && snapshot.Indexed()
    ensures var f := ParseFlow(data).value;
            Tunnels(data, snapshot, cache, env) <==>
            env.udpTunneling && f.dstIp !in env.excluded && f.dstPort != 53 &&
            (f.srcPort in OwnedUdpPorts(snapshot.connections, snapshot.pidNames, snapshot.tunnelApps) ||
             f.Key() in cache || (RobloxBlock(f.dstIp) && f.dstPort >= 49152))
  {
    var f := ParseFlow(data).value;
    RobloxBlocks(f.dstIp);
    SourceIsIndexedPort(snapshot, f.srcIp, f.srcPort);
    hide ParseFlow, IsRobloxGameServerIp, RobloxBlock, OwnedUdpPorts;
  }

  // ----- What is remembered -----

  // Main result: below the cache bound, the source of every relayed packet is remembered; besides,
  // only a tunnel process's UDP port is, when its packet passes the gates but is DNS.
  lemma RememberedIff(data: seq<Byte>, snapshot: ProcessSnapshot, cache: set<FlowKey>, env: Env, k: FlowKey)
    ensures k in CacheAfter(data, snapshot, cache, env) <==>
            k in cache ||
            (|cache| < 10000 && ParseFlow(data).Some? && k == ParseFlow(data).value.Key() &&
             (Tunnels(data, snapshot, cache, env) ||
              (k.protocol.Udp? && k.port in snapshot.tunnelUdpPorts && env.udpTunneling && ParseFlow(data).value.dstIp !in env.excluded)))
  {
    hide ParseFlow, IsRobloxGameServerIp;
  }

  // So the next packet of a relayed source is relayed too, if it passes the gates and is no DNS,
  // even after the snapshot has stopped recognising it.
  lemma NextPacketIsRelayed(data: seq<Byte>, snapshot: ProcessSnapshot, cache: set<FlowKey>, env: Env,
                            next: seq<Byte>, later: ProcessSnapshot, laterEnv: Env)
    requires Tunnels(data, snapshot, cache, env) && |cache| < 10000
    requires ParseFlow(next).Some? && ParseFlow(data).Some? && ParseFlow(next).value.Key() == ParseFlow(data).value.Key()
    requires var g := ParseFlow(next).value;
             g.dstPort != 53 && g.dstIp !in laterEnv.excluded &&
             (if g.protocol.Tcp? then laterEnv.apiTunneling && g.dstIp !in laterEnv.bootstrap.directOnly else laterEnv.udpTunneling)
    ensures Tunnels(next, later, CacheAfter(data, snapshot, cache, env), laterEnv)
  {
    RememberedIff(data, snapshot, cache, env, ParseFlow(data).value.Key());
    hide ParseFlow, IsRobloxGameServerIp, CacheAfter;
  }
}
