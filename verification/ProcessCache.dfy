// Process snapshots and the rules that read them (src/split_tunnel/process_cache.rs).
module ProcessCache {
  import opened Basics

  datatype Protocol = Tcp | Udp

  type Pid = U32

  datatype ConnectionKey = ConnectionKey(localIp: Ipv4, localPort: U16, protocol: Protocol)

  const DNS_PORT: U16 := 53
  const UNSPECIFIED := Ipv4(0, 0, 0, 0)
  const ROBLOX_PORT_MIN: U16 := 49152
  const ROBLOX_PORT_MAX: U16 := 65535

  // ----- Destination ranges -----

  datatype Range = Range(network: U32, mask: U32, prefix: nat)

  const ROBLOX_RANGES: seq<Range> := [
    Range(0x80740000, 0xFFFF8000, 17), Range(0xD1CE2800, 0xFFFFF800, 21), Range(0x678C1C00, 0xFFFFFE00, 23),
    Range(0x678EDC00, 0xFFFFFE00, 23), Range(0x17ADC000, 0xFFFFFF00, 24), Range(0x8DC10300, 0xFFFFFF00, 24),
    Range(0xCDC93E00, 0xFFFFFF00, 24), Range(0xCC09B800, 0xFFFFFF00, 24), Range(0xCC0DA800, 0xFFFFFC00, 22),
    Range(0xCC0DAC00, 0xFFFFFE00, 23)]

  function Pow2(n: nat): nat {
    if n == 0 then 1 else 2 * Pow2(n - 1)
  }

  // `is_valid_cidr_mask`: the mask has `prefix` ones followed by zeros.
  predicate ValidCidrMask(r: Range) {
    r.prefix <= 32 && r.mask == 0x1_0000_0000 - Pow2(32 - r.prefix)
  }

  // `x & mask` for such a mask: the low bits are cleared.
  function Masked(x: U32, mask: U32): U32 {
    x - x % (0x1_0000_0000 - mask)
  }

  predicate IpInRange(ip: Ipv4, r: Range) {
    Masked(ip.AsU32(), r.mask) == Masked(r.network, r.mask)
  }

  // The check the source makes at compile time, and that every network address is aligned.
  lemma RangesAreCidr(i: nat)
    requires i < |ROBLOX_RANGES|
    ensures ValidCidrMask(ROBLOX_RANGES[i])
    ensures Masked(ROBLOX_RANGES[i].network, ROBLOX_RANGES[i].mask) == ROBLOX_RANGES[i].network
  {
    assert Pow2(8) == 0x100;
    assert Pow2(9) == 0x200;
    assert Pow2(10) == 0x400;
    assert Pow2(11) == 0x800;
    assert Pow2(12) == 0x1000;
    assert Pow2(15) == 0x8000;
  }

  // A range is the block of addresses from its network up.
  lemma InRangeIsInterval(ip: Ipv4, r: Range)
    requires Masked(r.network, r.mask) == r.network
    ensures IpInRange(ip, r) <==> r.network <= ip.AsU32() < r.network + (0x1_0000_0000 - r.mask)
  {
    BlockOf(ip.AsU32(), r.network, 0x1_0000_0000 - r.mask);
  }

  lemma BlockOf(x: int, network: int, size: int)
    requires size > 0 && network % size == 0
    ensures x - x % size == network <==> network <= x < network + size
  {
    var q, k, low := x / size, network / size, x % size;
    assert x == size * q + low && network == size * k;
    SameBlock(q, k, low, size);
  }

  lemma SameBlock(q: int, k: int, low: int, size: int)
    requires 0 <= low < size
    ensures q == k <==> size * k <= size * q + low < size * k + size
  {
    MultiplesApart(q, k, size);
    MultiplesApart(k, q, size);
  }

  lemma MultiplesApart(a: int, b: int, size: int)
    requires size > 0
    ensures a < b ==> size * a + size <= size * b
  {
    if a < b {
      assert size * (a + 1) == size * a + size;
      assert size * (a + 1) <= size * b;
    }
  }

  predicate IsRobloxGameServerIp(ip: Ipv4) {
    exists r :: r in ROBLOX_RANGES && IpInRange(ip, r)
  }

  predicate IsRobloxGameServer(dstIp: Ipv4, dstPort: U16, protocol: Protocol, apiTunneling: bool) {
    dstPort != DNS_PORT &&
    (match protocol
     case Udp => ROBLOX_PORT_MIN <= dstPort <= ROBLOX_PORT_MAX
     case Tcp => apiTunneling) &&
    IsRobloxGameServerIp(dstIp)
  }

  predicate IsLikelyGameTraffic(dstPort: U16, protocol: Protocol, apiTunneling: bool) {
    dstPort != DNS_PORT && (protocol.Tcp? ==> apiTunneling)
  }

  // ----- Tunnel apps -----

  // `trim_end_matches(".exe")`
  function Stem(name: string): string {
    if |name| >= 4 && name[|name| - 4..] == ".exe" then Stem(name[..|name| - 4]) else name
  }

  predicate Contains(text: string, part: string) {
    exists i :: 0 <= i <= |text| && part <= text[i..]
  }

  predicate PidIsTunnel(pid: Pid, pidNames: map<Pid, string>, apps: set<string>) {
    pid in pidNames &&
    (pidNames[pid] in apps ||
     exists app :: app in apps &&
       (Contains(Stem(pidNames[pid]), Stem(app)) || Contains(Stem(app), Stem(pidNames[pid]))))
  }

  // `name` is `stem` and any number of ".exe", and the stem ends in none.
  function Exes(k: nat): string {
    if k == 0 then "" else Exes(k - 1) + ".exe"
  }

  lemma {:induction false} StemMeaning(name: string) returns (k: nat)
    ensures name == Stem(name) + Exes(k)
    ensures |Stem(name)| >= 4 ==> Stem(name)[|Stem(name)| - 4..] != ".exe"
  {
    k := 0;
    if |name| >= 4 && name[|name| - 4..] == ".exe" {
      var before := name[..|name| - 4];
      var more := StemMeaning(before);
      k := more + 1;
      assert name == before + ".exe" && before + ".exe" == Stem(before) + (Exes(more) + ".exe");
    }
  }

  lemma StemOfExe(stem: string)
    requires |stem| >= 4 ==> stem[|stem| - 4..] != ".exe"
    ensures Stem(stem) == Stem(stem + ".exe") == stem
  {
    assert (stem + ".exe")[|stem|..] == ".exe" && (stem + ".exe")[..|stem|] == stem;
  }

  // `part` stands somewhere in `text`.
  ghost predicate Within(part: string, text: string) {
    exists before, after :: text == before + part + after
  }

  lemma ContainsIff(text: string, part: string)
    ensures Contains(text, part) <==> Within(part, text)
  {
    if i :| 0 <= i <= |text| && part <= text[i..] {
      assert text == text[..i] + part + text[i..][|part|..];
    }
    if before, after :| text == before + part + after {
      assert text[|before|..] == part + after;
    }
  }

  // Main result: a process counts as a tunnel app's exactly when its name is an app's, or, up to
  // ".exe" at the end, one of the two names stands within the other.
  lemma TunnelProcessIff(pid: Pid, pidNames: map<Pid, string>, apps: set<string>)
    ensures PidIsTunnel(pid, pidNames, apps) <==>
            pid in pidNames &&
            exists app :: app in apps &&
              (pidNames[pid] == app || Within(Stem(app), Stem(pidNames[pid])) || Within(Stem(pidNames[pid]), Stem(app)))
  {
    hide Contains, Within, Stem;
    if pid in pidNames {
      forall app | app in apps
        ensures Contains(Stem(pidNames[pid]), Stem(app)) <==> Within(Stem(app), Stem(pidNames[pid]))
        ensures Contains(Stem(app), Stem(pidNames[pid])) <==> Within(Stem(pidNames[pid]), Stem(app))
      {
        ContainsIff(Stem(pidNames[pid]), Stem(app));
        ContainsIff(Stem(app), Stem(pidNames[pid]));
      }
    }
  }

  // So an executable counts for every app whose name its own contains, and not for one that
  // shares no such part.
  lemma ExecutableOfApp(before: string, app: string, after: string)
    requires var stem := before + app + after; |stem| >= 4 ==> stem[|stem| - 4..] != ".exe"
    requires |app| >= 4 ==> app[|app| - 4..] != ".exe"
    ensures PidIsTunnel(7, map[7 := before + app + after + ".exe"], {app})
    ensures PidIsTunnel(7, map[7 := before + app + after + ".exe"], {app + ".exe"})
  {
    var stem := before + app + after;
    StemOfExe(stem);
    StemOfExe(app);
    hide Stem;
    assert Within(app, stem);
    TunnelProcessIff(7, map[7 := stem + ".exe"], {app});
    TunnelProcessIff(7, map[7 := stem + ".exe"], {app + ".exe"});
  }

  // ----- Snapshots -----

  // A full scan of the table: the local ports of the UDP sockets tunnel processes own.
  ghost function OwnedUdpPorts(connections: map<ConnectionKey, Pid>, pidNames: map<Pid, string>, apps: set<string>): set<U16> {
    set k | k in connections && k.protocol.Udp? && PidIsTunnel(connections[k], pidNames, apps) :: k.localPort
  }

  datatype ProcessSnapshot = ProcessSnapshot(
    connections: map<ConnectionKey, Pid>,
    pidNames: map<Pid, string>,
    tunnelApps: set<string>,
    tunnelUdpPorts: set<U16>,
    version: nat)
  {
    ghost predicate Indexed() {
      tunnelUdpPorts == OwnedUdpPorts(connections, pidNames, tunnelApps)
    }

    // The exact entry decides when there is one; otherwise the 0.0.0.0 binding of the port does.
    predicate IsTunnelConnection(localIp: Ipv4, localPort: U16, protocol: Protocol) {
      var key := ConnectionKey(localIp, localPort, protocol);
      var anyKey := ConnectionKey(UNSPECIFIED, localPort, protocol);
      if key in connections then PidIsTunnel(connections[key], pidNames, tunnelApps)
      else if localIp != UNSPECIFIED && anyKey in connections then PidIsTunnel(connections[anyKey], pidNames, tunnelApps)
      else false
    }

    predicate ShouldTunnelByPortFallback(localPort: U16, protocol: Protocol) {
      protocol.Udp? && localPort in tunnelUdpPorts
    }

    predicate ShouldTunnelV3(localIp: Ipv4, localPort: U16, protocol: Protocol,
                             dstIp: Ipv4, dstPort: U16, apiTunneling: bool)
    {
      if IsTunnelConnection(localIp, localPort, protocol) then IsLikelyGameTraffic(dstPort, protocol, apiTunneling)
      else IsRobloxGameServer(dstIp, dstPort, protocol, apiTunneling)
    }

    predicate IsTunnelSource(localIp: Ipv4, localPort: U16, protocol: Protocol) {
      IsTunnelConnection(localIp, localPort, protocol) || ShouldTunnelByPortFallback(localPort, protocol)
    }
  }

  // For UDP, ownership of a source is membership of its port in the index, whatever local
  // address the packet shows; TCP sources never profit from the index.
  lemma SourceIsIndexedPort(s: ProcessSnapshot, ip: Ipv4, port: U16)
    requires s.Indexed()
    ensures s.IsTunnelSource(ip, port, Udp) <==> port in s.tunnelUdpPorts
    ensures s.IsTunnelSource(ip, port, Tcp) <==> s.IsTunnelConnection(ip, port, Tcp)
  {
    if s.IsTunnelConnection(ip, port, Udp) {
      var key, anyKey := ConnectionKey(ip, port, Udp), ConnectionKey(UNSPECIFIED, port, Udp);
      assert key in s.connections || anyKey in s.connections;
    }
  }

  // Whose connection it is: the exact entry of the table decides; without one, the entry bound to
  // 0.0.0.0 on that port and protocol does; without either nobody's.
  lemma OwnerIsListed(s: ProcessSnapshot, ip: Ipv4, port: U16, protocol: Protocol)
    ensures var exact, any := ConnectionKey(ip, port, protocol), ConnectionKey(Ipv4(0, 0, 0, 0), port, protocol);
            (exact in s.connections ==>
               (s.IsTunnelConnection(ip, port, protocol) <==> PidIsTunnel(s.connections[exact], s.pidNames, s.tunnelApps))) &&
            (exact !in s.connections && any in s.connections ==>
               (s.IsTunnelConnection(ip, port, protocol) <==> PidIsTunnel(s.connections[any], s.pidNames, s.tunnelApps))) &&
            (exact !in s.connections && any !in s.connections ==> !s.IsTunnelConnection(ip, port, protocol))
  {
  }

  method ComputeTunnelUdpPorts(connections: map<ConnectionKey, Pid>, pidNames: map<Pid, string>, apps: set<string>)
    returns (ports: set<U16>)
    ensures ports == OwnedUdpPorts(connections, pidNames, apps)
  {
    ports := {};
    var todo := connections.Keys;
    while todo != {}
      invariant todo <= connections.Keys
      invariant ports == set k | k in connections && k !in todo && k.protocol.Udp? &&
                                 PidIsTunnel(connections[k], pidNames, apps) :: k.localPort
      decreases |todo|
    {
      var key :| key in todo;
      todo := todo - {key};
      if key.protocol.Udp? && PidIsTunnel(connections[key], pidNames, apps) {
        ports := ports + {key.localPort};
      }
    }
  }

  function LowerNames(pidNames: map<Pid, string>): map<Pid, string> {
    map pid | pid in pidNames :: Lower(pidNames[pid])
  }

  // Names are compared in lower case: each letter of the alphabet is replaced, nothing else.
  lemma LowerLetters(pidNames: map<Pid, string>, pid: Pid, i: nat, letter: nat)
    requires pid in pidNames && i < |pidNames[pid]| && letter < 26
    ensures LowerNames(pidNames).Keys == pidNames.Keys && |LowerNames(pidNames)[pid]| == |pidNames[pid]|
    ensures pidNames[pid][i] == ('A' as int + letter) as char ==> LowerNames(pidNames)[pid][i] == ('a' as int + letter) as char
    ensures !('A' <= pidNames[pid][i] <= 'Z') ==> LowerNames(pidNames)[pid][i] == pidNames[pid][i]
  {
  }

  // ----- Publishing -----

  // A history of published snapshots: each indexes its own table, and versions strictly increase.
  ghost predicate History(published: seq<ProcessSnapshot>) {
    (forall i :: 0 <= i < |published| ==> published[i].Indexed()) &&
    (forall i, j :: 0 <= i < j < |published| ==> published[i].version < published[j].version)
  }

  // So a version identifies one snapshot.
  lemma VersionIdentifies(published: seq<ProcessSnapshot>, a: ProcessSnapshot, b: ProcessSnapshot)
    requires History(published) && a in published && b in published && a.version == b.version
    ensures a == b && a.Indexed()
  {
  }

  // Each writer is one atomic step. `published` is the history of every snapshot ever current.
  class LockFreeProcessCache {
    var current: ProcessSnapshot
    var version: nat
    var tunnelApps: set<string>
    ghost var published: seq<ProcessSnapshot>

    // Over every run the published snapshots form a history.
    ghost predicate Valid()
      reads this
    {
      published != [] && published[|published| - 1] == current && current.version == version &&
      current.tunnelApps == tunnelApps && History(published)
    }

    constructor (apps: set<string>)
      ensures Valid() && current == ProcessSnapshot(map[], map[], set a | a in apps :: Lower(a), {}, 0)
      ensures published == [current]
    {
      var lower := set a | a in apps :: Lower(a);
      tunnelApps := lower;
      version := 0;
      current := ProcessSnapshot(map[], map[], lower, {}, 0);
      published := [ProcessSnapshot(map[], map[], lower, {}, 0)];
    }

    // A reader keeps the value it loaded: later writers replace `current`, never the snapshot.
    method GetSnapshot() returns (s: ProcessSnapshot)
      requires Valid()
      ensures s == current && s.Indexed()
    {
      s := current;
    }

    method Update(connections: map<ConnectionKey, Pid>, pidNames: map<Pid, string>)
      requires Valid()
      modifies this
      ensures Valid() && published == old(published) + [current] && version == old(version) + 1 && tunnelApps == old(tunnelApps)
      ensures current.connections == connections && current.pidNames == LowerNames(pidNames)
    {
      version := version + 1;
      var names := LowerNames(pidNames);
      var ports := ComputeTunnelUdpPorts(connections, names, tunnelApps);
      current := ProcessSnapshot(connections, names, tunnelApps, ports, version);
      published := published + [current];
    }

    method SetTunnelApps(apps: set<string>)
      requires Valid()
      modifies this
      ensures Valid() && published == old(published) + [current] && version == old(version) + 1
      ensures tunnelApps == set a | a in apps :: Lower(a)
      ensures current.connections == old(current.connections) && current.pidNames == old(current.pidNames)
    {
      tunnelApps := set a | a in apps :: Lower(a);
      version := version + 1;
      var ports := ComputeTunnelUdpPorts(current.connections, current.pidNames, tunnelApps);
      current := ProcessSnapshot(current.connections, current.pidNames, tunnelApps, ports, version);
      published := published + [current];
    }

    method RegisterProcessImmediate(pid: Pid, name: string)
      requires Valid()
      modifies this
      ensures Valid() && published == old(published) + [current] && version == old(version) + 1 && tunnelApps == old(tunnelApps)
      ensures current.connections == old(current.connections)
      ensures current.pidNames == old(current.pidNames)[pid := Lower(name)]
    {
      version := version + 1;
      var names := current.pidNames[pid := Lower(name)];
      var ports := ComputeTunnelUdpPorts(current.connections, names, tunnelApps);
      current := ProcessSnapshot(current.connections, names, tunnelApps, ports, version);
      published := published + [current];
    }
  }
}
