// The decision for one outbound frame (src/split_tunnel/interceptor.rs): parsing, the phases of
// the classifier, and SNI learning.
module Interceptor {
  import opened Basics
  import opened ProcessCache
  import opened Domains
  import opened BootstrapSession
  import TlsSni

  const MAX_PACKET_SIZE := 1600
  const MAX_CACHE_ENTRIES := 10000
  const IP_START := 14

  // ----- Frames -----

  // What the classifier reads from an Ethernet frame that carries TCP or UDP over IPv4.
  // `initialSyn` is a TCP SYN without ACK.
  datatype Flow = Flow(protocol: Protocol, srcIp: Ipv4, srcPort: U16, dstIp: Ipv4, dstPort: U16, initialSyn: bool)
  {
    function Key(): FlowKey {
      FlowKey(srcIp, srcPort, protocol)
    }
  }

  datatype FlowKey = FlowKey(ip: Ipv4, port: U16, protocol: Protocol)

  function TransportStart(data: seq<Byte>): nat
    requires |data| > IP_START
  {
    IP_START + data[IP_START] % 0x10 * 4
  }

  predicate CarriesPorts(data: seq<Byte>) {
    |data| >= 14 + 20 + 4 && BE16(data[12], data[13]) == 0x0800 && data[IP_START] / 0x10 == 4 &&
    (data[IP_START + 9] == 6 || data[IP_START + 9] == 17) && |data| >= TransportStart(data) + 4
  }

  // `parse_ports`, as the reader calls it.
  function ParsePorts(data: seq<Byte>): Option<(U16, U16)> {
    if CarriesPorts(data) then
      var t := TransportStart(data);
      Some((BE16(data[t], data[t + 1]), BE16(data[t + 2], data[t + 3])))
    else None
  }

  function IpAt(data: seq<Byte>, i: nat): Ipv4
    requires i + 4 <= |data|
  {
    Ipv4(data[i], data[i + 1], data[i + 2], data[i + 3])
  }

  predicate SynWithoutAck(flags: Byte) {
    flags / 2 % 2 == 1 && flags / 0x10 % 2 == 0
  }

  function ParseFlow(data: seq<Byte>): Option<Flow> {
    if CarriesPorts(data) then
      var t := TransportStart(data);
      var protocol := if data[IP_START + 9] == 6 then Tcp else Udp;
      Some(Flow(protocol, IpAt(data, IP_START + 12), BE16(data[t], data[t + 1]),
                IpAt(data, IP_START + 16), BE16(data[t + 2], data[t + 3]),
                protocol.Tcp? && |data| > t + 13 && SynWithoutAck(data[t + 13])))
    else None
  }

  // The copy a worker gets: the frame cut at 1600 bytes.
  function Copied(frame: seq<Byte>): seq<Byte> {
    frame[..Min(|frame|, MAX_PACKET_SIZE)]
  }

  // Frames of up to 1600 bytes are copied whole.
  lemma CopyMeans(frame: seq<Byte>)
    ensures Copied(frame) <= frame && |Copied(frame)| == if |frame| <= 1600 then |frame| else 1600
  {
  }

  // The reader, on the full frame, and the classifier, on the copy, see the same ports; a frame
  // the reader hands to a worker always parses there.
  lemma CopyKeepsPorts(frame: seq<Byte>)
    ensures ParsePorts(Copied(frame)) == ParsePorts(frame)
    ensures ParseFlow(Copied(frame)).Some? <==> ParsePorts(frame).Some?
    ensures ParsePorts(frame).Some? ==>
      (ParseFlow(Copied(frame)).value.srcPort, ParseFlow(Copied(frame)).value.dstPort) == ParsePorts(frame).value
  {
  }

  // `asset_relay_index` on the IP packet inside a frame.
  function AssetRelayIndex(ipPacket: seq<Byte>, n: nat): nat
    requires n > 0
  {
    if |ipPacket| < 20 then 0
    else
      var ihl := ipPacket[0] % 0x10 * 4;
      if |ipPacket| < ihl + 2 then 0 else BE16(ipPacket[ihl], ipPacket[ihl + 1]) % n
  }

  // All packets of a source port use one asset relay, the one at the port's residue.
  lemma AssetIndexFollowsPort(data: seq<Byte>, n: nat)
    requires n > 0 && ParseFlow(data).Some?
    ensures AssetRelayIndex(data[IP_START..], n) == ParseFlow(data).value.srcPort % n < n
  {
    var ip, ihl := data[IP_START..], data[IP_START] % 0x10 * 4;
    assert ip[0] == data[IP_START];
    assert ip[ihl] == data[TransportStart(data)] && ip[ihl + 1] == data[TransportStart(data) + 1];
  }

  // ----- The decision in closed form -----

  // What the classifier reads besides frame, snapshot and cache: two switches, the excluded hosts
  // and the bootstrap sets.
  datatype Env = Env(apiTunneling: bool, udpTunneling: bool, excluded: set<Ipv4>, bootstrap: Session)

  // Destinations and protocols that are never tunneled.
  predicate PassesGates(f: Flow, env: Env) {
    (f.protocol.Udp? ==> env.udpTunneling) && f.dstIp !in env.excluded &&
    (f.protocol.Tcp? ==> f.dstIp !in env.bootstrap.directOnly)
  }

  predicate BootstrapSyn(f: Flow, snapshot: ProcessSnapshot, env: Env) {
    env.apiTunneling && f.protocol.Tcp? && f.initialSyn && (f.dstPort == 80 || f.dstPort == 443) &&
    snapshot.tunnelApps != {} && f.dstIp in env.bootstrap.active && f.dstIp !in env.bootstrap.directOnly
  }

  predicate ToGameServer(f: Flow, env: Env) {
    IsRobloxGameServer(f.dstIp, f.dstPort, f.protocol, env.apiTunneling)
  }

  predicate Owned(f: Flow, snapshot: ProcessSnapshot) {
    snapshot.IsTunnelConnection(f.srcIp, f.srcPort, f.protocol)
  }

  predicate OnOwnedPort(f: Flow, snapshot: ProcessSnapshot) {
    snapshot.ShouldTunnelByPortFallback(f.srcPort, f.protocol)
  }

  predicate Likely(f: Flow, env: Env) {
    IsLikelyGameTraffic(f.dstPort, f.protocol, env.apiTunneling)
  }

  predicate FlowTunnels(f: Flow, snapshot: ProcessSnapshot, cached: bool, env: Env) {
    PassesGates(f, env) && Likely(f, env) &&
    (Owned(f, snapshot) || ToGameServer(f, env) || cached || OnOwnedPort(f, snapshot) || BootstrapSyn(f, snapshot, env))
  }

  predicate Tunnels(data: seq<Byte>, snapshot: ProcessSnapshot, cache: set<FlowKey>, env: Env) {
    match ParseFlow(data)
    case None => false
    case Some(f) => FlowTunnels(f, snapshot, f.Key() in cache, env)
  }

  // A source is remembered when it was recognised by itself, not through the cache. A port of
  // the index is remembered even for a destination (DNS) that is then not tunneled.
  predicate Recognised(f: Flow, snapshot: ProcessSnapshot, env: Env) {
    PassesGates(f, env) &&
    (OnOwnedPort(f, snapshot) ||
     (Likely(f, env) && (Owned(f, snapshot) || ToGameServer(f, env) || BootstrapSyn(f, snapshot, env))))
  }

  function Remember(f: Flow, snapshot: ProcessSnapshot, cache: set<FlowKey>, env: Env): set<FlowKey> {
    if Recognised(f, snapshot, env) && |cache| < MAX_CACHE_ENTRIES then cache + {f.Key()} else cache
  }

  function CacheAfter(data: seq<Byte>, snapshot: ProcessSnapshot, cache: set<FlowKey>, env: Env): set<FlowKey> {
    match ParseFlow(data)
    case None => cache
    case Some(f) => Remember(f, snapshot, cache, env)
  }

  // ----- The classifier: phases in order -----

  method ClassifyPacket(data: seq<Byte>, snapshot: ProcessSnapshot, inlineCache: set<FlowKey>, env: Env)
    returns (tunnel: bool, cache: set<FlowKey>)
    ensures tunnel == Tunnels(data, snapshot, inlineCache, env)
    ensures cache == CacheAfter(data, snapshot, inlineCache, env)
  {
    hide BE16, SynWithoutAck, IpAt, Likely, Owned, ToGameServer, OnOwnedPort, BootstrapSyn;
    cache := inlineCache;
    if |data| < 14 + 20 + 4 {
      return false, cache;
    }
    if BE16(data[12], data[13]) != 0x0800 {
      return false, cache;
    }
    if data[IP_START] / 0x10 != 4 {
      return false, cache;
    }
    var protocolNum := data[IP_START + 9];
    if protocolNum == 17 && !env.udpTunneling {
      return false, cache;
    }
    if protocolNum != 6 && protocolNum != 17 {
      return false, cache;
    }
    var protocol := if protocolNum == 6 then Tcp else Udp;
    var srcIp, dstIp := IpAt(data, IP_START + 12), IpAt(data, IP_START + 16);
    var transportStart := TransportStart(data);
    if |data| < transportStart + 4 {
      return false, cache;
    }
    var srcPort := BE16(data[transportStart], data[transportStart + 1]);
    var dstPort := BE16(data[transportStart + 2], data[transportStart + 3]);
    var initialSyn := protocol == Tcp && |data| > transportStart + 13 && SynWithoutAck(data[transportStart + 13]);
    var f := Flow(protocol, srcIp, srcPort, dstIp, dstPort, initialSyn);
    assert ParseFlow(data) == Some(f);
    tunnel, cache := ClassifyFlow(f, snapshot, inlineCache, env);
  }

  // The phases of the source's `classify_packet`, once the headers are read.
  method ClassifyFlow(f: Flow, snapshot: ProcessSnapshot, inlineCache: set<FlowKey>, env: Env)
    returns (tunnel: bool, cache: set<FlowKey>)
    requires f.protocol.Udp? ==> env.udpTunneling
    ensures tunnel == FlowTunnels(f, snapshot, f.Key() in inlineCache, env)
    ensures cache == Remember(f, snapshot, inlineCache, env)
  {
    hide IsRobloxGameServerIp;
    cache := inlineCache;
    // Phase 0: excluded hosts. Phase 0b: direct-only bootstrap IPs.
    if f.dstIp in env.excluded {
      return false, cache;
    }
    if f.protocol == Tcp && f.dstIp in env.bootstrap.directOnly {
      return false, cache;
    }
    // Phase 1: process ownership, or a game server for an unowned source.
    if snapshot.ShouldTunnelV3(f.srcIp, f.srcPort, f.protocol, f.dstIp, f.dstPort, env.apiTunneling) {
      if |cache| < MAX_CACHE_ENTRIES {
        cache := cache + {f.Key()};
      }
      return true, cache;
    }
    // Phase 2: a source already classified.
    if f.Key() in cache {
      assert cache + {f.Key()} == cache;
      return IsLikelyGameTraffic(f.dstPort, f.protocol, env.apiTunneling), cache;
    }
    // Phase 3: the UDP port index.
    if snapshot.ShouldTunnelByPortFallback(f.srcPort, f.protocol) {
      if |cache| < MAX_CACHE_ENTRIES {
        cache := cache + {f.Key()};
      }
      return IsLikelyGameTraffic(f.dstPort, f.protocol, env.apiTunneling), cache;
    }
    // Phase 4: a game server whatever the source. Phase 1 has taken all of these.
    if IsRobloxGameServer(f.dstIp, f.dstPort, f.protocol, env.apiTunneling) {
      assert false;
    }
    // Phase 5: the first SYN to a repaired bootstrap IP.
    if env.apiTunneling && f.protocol == Tcp && f.initialSyn && (f.dstPort == 80 || f.dstPort == 443) &&
       snapshot.tunnelApps != {} && f.dstIp in env.bootstrap.active && f.dstIp !in env.bootstrap.directOnly {
      if |cache| < MAX_CACHE_ENTRIES {
        cache := cache + {f.Key()};
      }
      return true, cache;
    }
    return false, cache;
  }

  // In every state: DNS is never tunneled, TCP only with Route Assist, UDP only with UDP
  // tunneling, never an excluded destination, and no TCP to a direct-only one.
  lemma NeverTunneled(data: seq<Byte>, snapshot: ProcessSnapshot, cache: set<FlowKey>, env: Env)
    requires Tunnels(data, snapshot, cache, env)
    ensures var f := ParseFlow(data).value;
            f.dstPort != DNS_PORT && f.dstIp !in env.excluded &&
            match f.protocol
            case Tcp => env.apiTunneling && f.dstIp !in env.bootstrap.directOnly
            case Udp => env.udpTunneling
  {
  }

  // With an indexed snapshot, an unremembered UDP source is recognised exactly by its port or
  // by a game-server destination: ownership adds nothing to the index.
  lemma UdpDecision(f: Flow, snapshot: ProcessSnapshot, env: Env)
    requires f.protocol.Udp? && snapshot.Indexed()
    ensures FlowTunnels(f, snapshot, false, env) <==>
            PassesGates(f, env) && f.dstPort != DNS_PORT &&
            (f.srcPort in snapshot.tunnelUdpPorts || ToGameServer(f, env))
  {
    SourceIsIndexedPort(snapshot, f.srcIp, f.srcPort);
  }

  // ----- SNI learning -----

  // `tcp_payload`: bounded by the IPv4 total length.
  function TcpPayload(data: seq<Byte>, transportStart: nat): Option<seq<Byte>> {
    if |data| < IP_START + 4 || |data| <= transportStart + 12 then None
    else
      var ipEnd := Min(IP_START + BE16(data[IP_START + 2], data[IP_START + 3]), |data|);
      var headerLen := data[transportStart + 12] / 0x10 * 4;
      var start := transportStart + headerLen;
      if headerLen < 20 || start >= ipEnd then None else Some(data[start..ipEnd])
  }

  function AsString(name: seq<Byte>): string {
    seq(|name|, i requires 0 <= i < |name| => name[i] as char)
  }

  // The server name and destination a relayed packet shows, if it carries a ClientHello.
  function Sighting(data: seq<Byte>, decision: bool, apiTunneling: bool): Option<(string, Ipv4)> {
    match ParseFlow(data)
    case None => None
    case Some(f) =>
      if !decision || !apiTunneling || !f.protocol.Tcp? || f.dstPort != 443 then None
      else
        match TcpPayload(data, TransportStart(data))
        case None => None
        case Some(payload) =>
          match TlsSni.SniOf(payload)
          case None => None
          case Some(name) => Some((AsString(name), f.dstIp))
  }

  // The destination to remember as direct-only, if any.
  function Revealed(data: seq<Byte>, decision: bool, env: Env): Option<Ipv4> {
    match Sighting(data, decision, env.apiTunneling)
    case None => None
    case Some((name, ip)) => if env.bootstrap.Learnable(name, ip) then Some(ip) else None
  }

  function BootstrapAfter(data: seq<Byte>, decision: bool, env: Env): Session {
    match Sighting(data, decision, env.apiTunneling)
    case None => env.bootstrap
    case Some((name, ip)) => env.bootstrap.Learn(name, ip)
  }

  lemma RevealedIsLearned(data: seq<Byte>, decision: bool, env: Env)
    ensures BootstrapAfter(data, decision, env).directOnly ==
            match Revealed(data, decision, env)
            case None => env.bootstrap.directOnly
            case Some(ip) => env.bootstrap.directOnly + {ip}
  {
    hide Sighting, IsRouteAssistDirectDomain;
  }

  // Decision and learning in one step. `routing` holds the bootstrap sets the environment shows.
  method ShouldRouteToRelay(data: seq<Byte>, snapshot: ProcessSnapshot, inlineCache: set<FlowKey>, env: Env,
                            routing: BootstrapRouting)
    returns (decision: bool, cache: set<FlowKey>)
    requires env.bootstrap == routing.Model()
    modifies routing`directOnly
    ensures decision == Tunnels(data, snapshot, inlineCache, env)
    ensures cache == CacheAfter(data, snapshot, inlineCache, env)
    ensures routing.Model() == BootstrapAfter(data, decision, env)
  {
    hide Tunnels, CacheAfter, Session.Learn, TlsSni.SniOf;
    decision, cache := ClassifyPacket(data, snapshot, inlineCache, env);
    TunnelsParses(data, snapshot, inlineCache, env);
    if decision && env.apiTunneling && |data| > 14 + 20 + 4 {
      if data[IP_START + 9] == 6 {
        var transportStart := TransportStart(data);
        if |data| > transportStart + 3 {
          var dstPort := BE16(data[transportStart + 2], data[transportStart + 3]);
          if dstPort == 443 {
            MaybeLearnDirectOnlyDestination(data, transportStart, IpAt(data, IP_START + 16), routing);
          }
        }
      }
    } else if decision && env.apiTunneling {
      NothingToLearn(data);
    }
  }

  lemma TunnelsParses(data: seq<Byte>, snapshot: ProcessSnapshot, cache: set<FlowKey>, env: Env)
    ensures Tunnels(data, snapshot, cache, env) ==> ParseFlow(data).Some?
  {
  }

  // A frame of the minimal 38 bytes has no room for a ClientHello.
  lemma NothingToLearn(data: seq<Byte>)
    requires |data| == 38 && CarriesPorts(data)
    ensures match TcpPayload(data, TransportStart(data))
            case None => true
            case Some(payload) => TlsSni.SniOf(payload) == None
  {
  }

  method MaybeLearnDirectOnlyDestination(data: seq<Byte>, transportStart: nat, dstIp: Ipv4, routing: BootstrapRouting)
    modifies routing`directOnly
    ensures routing.Model() ==
      match TcpPayload(data, transportStart)
      case None => old(routing.Model())
      case Some(payload) =>
        match TlsSni.SniOf(payload)
        case None => old(routing.Model())
        case Some(name) => old(routing.Model()).Learn(AsString(name), dstIp)
  {
    hide Session.Learn;
    var payload := TcpPayload(data, transportStart);
    if payload.None? {
      return;
    }
    if !TlsSni.LooksLikeClientHello(payload.value) {
      return;
    }
    var name := TlsSni.ParseClientHelloSni(payload.value);
    if name.None? {
      return;
    }
    var learned := routing.LearnDirectOnlyBootstrapIp(AsString(name.value), dstIp);
  }

  // After learning, the flow's own next packet goes direct, cached or not: the direct-only gate
  // is tested before the cache.
  lemma LearnedFlowGoesDirect(data: seq<Byte>, env: Env, next: seq<Byte>, snapshot: ProcessSnapshot,
                              cache: set<FlowKey>, later: Env)
    requires Revealed(data, true, env).Some? && ParseFlow(next).Some?
    requires ParseFlow(next).value.protocol.Tcp? && ParseFlow(next).value.dstIp == Revealed(data, true, env).value
    requires BootstrapAfter(data, true, env).directOnly <= later.bootstrap.directOnly
    ensures !Tunnels(next, snapshot, cache, later)
  {
    hide ParseFlow, Revealed, BootstrapAfter;
    RevealedIsLearned(data, true, env);
  }

  // ----- Packets that reveal a destination -----

  // Ethernet, IPv4 and TCP headers without options, from 10.0.0.2 to port 443.
  function HeaderByte(i: nat, dst: Ipv4, length: U16): Byte {
    match i
    case 12 => 0x08
    case 14 => 0x45
    case 16 => length / 0x100
    case 17 => length % 0x100
    case 23 => 6
    case 26 => 10
    case 29 => 2
    case 30 => dst.a
    case 31 => dst.b
    case 32 => dst.c
    case 33 => dst.d
    case 34 => 0xC0
    case 36 => 0x01
    case 37 => 0xBB
    case 46 => 0x50
    case 47 => 0x18
    case _ => 0
  }

  function TcpHeaders(dst: Ipv4, length: U16): seq<Byte> {
    seq(54, i requires 0 <= i < 54 => HeaderByte(i, dst, length))
  }

  function TcpFrame(dst: Ipv4, payload: seq<Byte>): seq<Byte>
    requires 40 + |payload| < 0x1_0000
  {
    TcpHeaders(dst, 40 + |payload|) + payload
  }

  // The fields the parsers read, all in the first 48 bytes.
  ghost predicate ToHttps(h: seq<Byte>, dst: Ipv4, length: U16)
    requires |h| >= 48
  {
    h[12] == 0x08 && h[13] == 0 && h[14] == 0x45 && BE16(h[16], h[17]) == length && h[23] == 6 &&
    h[26] == 10 && h[27] == 0 && h[28] == 0 && h[29] == 2 &&
    h[30] == dst.a && h[31] == dst.b && h[32] == dst.c && h[33] == dst.d &&
    h[34] == 0xC0 && h[35] == 0 && h[36] == 0x01 && h[37] == 0xBB && h[46] == 0x50 && h[47] == 0x18
  }

  lemma HeadersToHttps(dst: Ipv4, length: U16)
    ensures |TcpHeaders(dst, length)| == 54 && ToHttps(TcpHeaders(dst, length), dst, length)
  {
  }

  lemma ToHttpsParses(data: seq<Byte>, dst: Ipv4)
    requires 54 < |data| < 0x1_0000 && ToHttps(data, dst, |data| - 14)
    ensures ParseFlow(data) == Some(Flow(Tcp, Ipv4(10, 0, 0, 2), 0xC000, dst, 443, false))
    ensures TransportStart(data) == 34 && TcpPayload(data, 34) == Some(data[54..])
  {
    assert SynWithoutAck(0x18) == false;
    assert data[54..|data|] == data[54..];
  }

  lemma TcpFrameParses(dst: Ipv4, payload: seq<Byte>)
    requires 0 < |payload| && 54 + |payload| < 0x1_0000
    ensures var data := TcpFrame(dst, payload);
            ParseFlow(data) == Some(Flow(Tcp, Ipv4(10, 0, 0, 2), 0xC000, dst, 443, false)) &&
            TransportStart(data) == 34 && TcpPayload(data, 34) == Some(payload)
  {
    var headers, data := TcpHeaders(dst, 40 + |payload|), TcpFrame(dst, payload);
    HeadersToHttps(dst, 40 + |payload|);
    hide TcpHeaders, ParseFlow, TcpPayload;
    assert forall i :: 0 <= i < 54 ==> data[i] == headers[i];
    assert data[54..] == payload;
    ToHttpsParses(data, dst);
  }

  function AsBytes(s: string): seq<Byte> {
    seq(|s|, i requires 0 <= i < |s| => (s[i] as int) % 0x100)
  }

  predicate PlainHost(host: string) {
    0 < |host| < 0x8000 && host[|host| - 1] != '.' && forall c :: c in host ==> 0x21 <= c as int <= 0x7E
  }

  // For every learnable host, its hello in a TCP frame reveals the destination.
  lemma HelloReveals(host: string, dst: Ipv4, env: Env)
    requires PlainHost(host) && env.apiTunneling && env.bootstrap.Learnable(host, dst)
    ensures var hello := TlsSni.BuiltHello(AsBytes(host));
            hello.Valid() && |TlsSni.Print(hello)| < 0x9000 &&
            Revealed(TcpFrame(dst, TlsSni.Print(hello)), true, env) == Some(dst)
  {
    var name := AsBytes(host);
    hide AsBytes, AsString, PlainHost, Session.Learnable, ParseFlow, TcpPayload, TcpFrame, TransportStart;
    hide TlsSni.SniOf, TlsSni.BuiltHello, TlsSni.Print, TlsSni.Graphic, TlsSni.TrimDots, TlsSni.ClientHello.Valid;
    HostBytes(host);
    TlsSni.BuiltHelloReads(name);
    TcpFrameParses(dst, TlsSni.Print(TlsSni.BuiltHello(name)));
  }

  lemma HostBytes(host: string)
    requires PlainHost(host)
    ensures var name := AsBytes(host);
            0 < |name| < 0x8000 && AsString(name) == host && TlsSni.TrimDots(name) == name && forall b :: b in name ==> TlsSni.Graphic(b)
  {
    assert forall i :: 0 <= i < |host| ==> host[i] in host;
  }

  // So learning happens: outside country-ban routing, a relayed hello for the authentication
  // host to any address without a pin makes that address direct.
  lemma AuthHelloReveals(dst: Ipv4, env: Env)
    requires env.apiTunneling && !env.bootstrap.countryBanBypass && dst !in env.bootstrap.active
    ensures PlainHost(AUTH_HOST) && TlsSni.BuiltHello(AsBytes(AUTH_HOST)).Valid() &&
            |TlsSni.Print(TlsSni.BuiltHello(AsBytes(AUTH_HOST)))| < 0x9000 &&
            Revealed(TcpFrame(dst, TlsSni.Print(TlsSni.BuiltHello(AsBytes(AUTH_HOST)))), true, env) == Some(dst)
  {
    hide IsRouteAssistDirectDomain;
    AuthHostIsDirect();
    HelloReveals(AUTH_HOST, dst, env);
  }

  // ----- A packet that is relayed -----

  const ROBLOX_ADDRESS := Ipv4(128, 116, 0, 1)

  lemma RobloxAddress()
    ensures IsRobloxGameServerIp(ROBLOX_ADDRESS)
  {
    assert ROBLOX_RANGES[0] in ROBLOX_RANGES;
    assert ROBLOX_ADDRESS.AsU32() == 0x80740001;
    assert IpInRange(ROBLOX_ADDRESS, ROBLOX_RANGES[0]);
  }

  lemma RobloxFrameTunnels(snapshot: ProcessSnapshot, cache: set<FlowKey>, env: Env)
    requires env.apiTunneling && ROBLOX_ADDRESS !in env.excluded && ROBLOX_ADDRESS !in env.bootstrap.directOnly
    ensures Tunnels(TcpFrame(ROBLOX_ADDRESS, [0]), snapshot, cache, env) && IsRobloxGameServerIp(ROBLOX_ADDRESS)
  {
    TcpFrameParses(ROBLOX_ADDRESS, [0]);
    RobloxAddress();
    hide TcpFrame, ParseFlow, IsRobloxGameServerIp, Owned, OnOwnedPort, BootstrapSyn;
  }
}
