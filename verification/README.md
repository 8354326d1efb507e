# Verified model of the SwiftTunnel split-tunnel SDK

A Dafny 4.11 model of the decision logic of a Windows split-tunnel SDK: which outbound packets are
relayed, how they are rewritten and framed, which relay carries them, and how the helper state
around them (process snapshots, Route Assist pins, the hosts file, the auto-router) evolves.
`dafny verify dfyconfig.toml` checks everything.

Code that updates state in place is modelled by classes, arrays and loops, each proved against a
specification function; the theorems are lemmas about those functions and their runs. A `Drive` method
of each class shows that any sequence of calls computes the run of their events. One module per
component:

| module | component | main theorem |
|---|---|---|
| `Exclusions` | wildcard host patterns | leftmost-greedy matching is sound and complete for the declarative meaning of `*` |
| `TlsSni` | TLS ClientHello SNI parser | exact result on every prefix of every printed hello; a found name never changes |
| `Checksum` | IP, TCP and UDP checksums | after the in-place rewrite every checksum verifies, exactly when the IHL permits it; idempotent |
| `Interceptor` | classifier and SNI learning | the phase cascade equals a closed form; one phase is dead |
| `PacketPath` | reader, sharding | private caches refine one shared cache; every frame of a batch goes to one place |
| `WorkerLoop` | worker with router and bootstrap sets | when a packet is held, in every joint run; cached sources and learned addresses keep their route |
| `WorkerRefresh` | snapshot loading | which snapshot every packet is decided under, and what is counted, in every run |
| `FrameFormat` | frames and the decision by header fields | every frame reads as printed; exactly which TCP and UDP frames are relayed and which sources remembered |
| `ProcessCache` | process snapshots | the port index equals the table scan in every published snapshot |
| `AutoRouting` | auto-router, lookup gate | at most one pending lookup, when a live lookup passes the gate, stale lookups never commit, rate limits, in every run |
| `RouterTraffic` | auto-router in terms of its calls | when a server is looked up, when the relay is switched |
| `Domains`, `RouteAssist` | Route Assist pins | which pins are kept, in which order and how often |
| `BootstrapSession` | relayed and direct-only sets over sessions | disjoint in every run whose merges happen in a country-ban session; when the country-ban flag is on |
| `HostsFile` | marker block of the hosts file | editing laws, each with the exact condition under which it holds |
| `HostsPins` | meaning of the hosts file | an independent reader gets exactly the pins back from the written file |
| `ResolveFrame` | resolve frames of the relay | decoding and encoding are inverse; truncations are refused |
| `RelayClient` | UDP relay client | every delivered payload came from a relay current less than 2 s ago |
| `AssetRelays` | asset-relay picker | distinctness, exact size and far-first, for every shuffle |

`Basics` holds machine widths (ranges of `int`, so each assignment proves the absence of overflow),
big-endian fields and addresses.

## Where the code and its comments or tests differ

The model follows the code.

- src/split_tunnel/interceptor.rs:1827-1828 says the flow whose SNI was just learned keeps its relay
  route. The direct-only gate (lines 2014-2018) is tested before the cache, so its next packet goes
  direct: `Interceptor.LearnedFlowGoesDirect`.
- Phase 4 of the classifier (lines 2055-2063) never fires: phase 1 has taken every such packet. The
  model has `assert false` there.
- `MAX_SWITCHES_PER_MINUTE` is 3, but six switches fit in 50 s: `AutoRouting.SixSwitchesInOneMinute`.
  The true bounds are in `AutoRouting.RateLimits`; four switches in a minute need a restarted window
  (`AutoRouting.FourSwitchesNeedARestart`).
- The quiet interval before a new server is looked up is 3 s (src/vpn/auto_routing.rs:15), but traffic
  within 250 ms of a recorded packet is not recorded, so 2751 ms of silence can do:
  `RouterTraffic.ThrottleHidesTraffic`. `RouterTraffic` gives both bounds.
- A result dropped by the lookup gate clears the pending entry of its IP whatever its epoch
  (src/vpn/connection.rs:878-881), so a live lookup for the same IP is lost as well:
  `AutoRouting.StaleResultDropsLiveLookup`, with the run `AutoRouting.StaleResultWitness`.
  `AutoRouting.LiveLookupPassesIff` says exactly when a live lookup gets through.
- The editing laws of the hosts file fail for text with stray carriage returns:
  `HostsFile.StrayReturn`. Each law is stated with its exact condition.
- `apply_bootstrap_overrides` enters country-ban routing before anything can fail and never leaves it
  (src/roblox_proxy/hosts.rs:258-260), and the manager removes overrides only after an apply that
  succeeded (src/vpn/connection.rs:498-502, 1033-1038). A failed country-ban apply therefore leaves
  the routing on for the next session, where nothing is learned from SNI:
  `BootstrapSession.FailedBanOutlivesItsSession`. `BootstrapSession.FlagIff` says exactly when the
  routing is on.
- A merge of relay-resolved pins can relay a direct-only address when it happens outside a country-ban
  session: `BootstrapSession.MergeOutsideBanSession`. The exact condition for one merge is
  `BootstrapSession.MergeDisjointIff`.
- An apply whose pins come out as an empty list is refused (src/roblox_proxy/hosts.rs:654-656), so when
  only unpinned direct hosts resolve neither set is published, though the direct ones were computed.
- The checksum rewrite does not check that the IHL is at least 5. With an illegal IHL a checksum can
  stay wrong; `Checksum.HeaderChecksIff` and `Checksum.TransportChecksIff` say exactly when.
- The tests at src/roblox_proxy/hosts.rs:1202 and :1375 reflect an older domain split:
  `www.roblox.com` and `api.roblox.com` are direct under lines 791-802. The list at lines 1136-1139
  omits `auth.roblox.com`.
- `update` is described as having a single writer (src/split_tunnel/process_cache.rs:403), but
  `register_process_immediate` writes too; both read, then store. Writers are taken as atomic.

## Model

| member | source | states |
|---|---|---|
| Exclusions.GlobMatch | src/exclusions.rs:85-104 | returns true exactly when some choice of (possibly empty) runs for the stars spells the text |
| Exclusions.GreedyStep | src/exclusions.rs:95-100 | taking the leftmost occurrence of the next literal loses no match, and no occurrence means no match |
| Exclusions.MatchesIffAnchored | src/exclusions.rs:86-103 | the literals between the stars carry exactly the meaning of the pattern |
| Exclusions.StarMatches | src/exclusions.rs:83-84 | a star stands for any text between what the patterns on its two sides match |
| Exclusions.PlainMatches | src/exclusions.rs:86-88 | without a star a pattern matches itself only |
| Exclusions.ListCandidates | src/exclusions.rs:150-161 | the universe wildcards expand against: known hosts and listed concrete hosts, nothing else |
| Exclusions.ExpandWildcard | src/exclusions.rs:173-183 | a wildcard adds exactly the candidates it matches and never changes the display of a host already listed |
| Exclusions.ExpandHosts | src/exclusions.rs:147-193 | exactly the hosts some entry selects are resolved, each shown under the first entry that selects it |
| TlsSni.ParseClientHelloSni | src/roblox_proxy/tls_sni.rs:25-77 | the moving cursor computes what consuming the record from the front computes, in bounds for every byte sequence |
| TlsSni.SkipToExtensions | src/roblox_proxy/tls_sni.rs:41-53 | the fixed fields are skipped to the extension block, or the record has no name |
| TlsSni.ParseExtensions | src/roblox_proxy/tls_sni.rs:57-76 | the extension loop finds the first server_name extension of the block |
| TlsSni.ParseServerNameExtension | src/roblox_proxy/tls_sni.rs:81-106 | the name loop finds the first host_name entry within the list length |
| TlsSni.RoundTrip | src/roblox_proxy/tls_sni.rs:25-106 | for any session id, ciphers, compression, other extensions and other name entries, the printed hello parses to the host without trailing dots; every prefix that lacks part of the server_name extension parses to nothing |
| TlsSni.PrefixOfHello | src/roblox_proxy/tls_sni.rs:20-106 | for every printed hello and every prefix length: nothing before the end of the first server_name extension, then what that extension says |
| TlsSni.NoServerName | src/roblox_proxy/tls_sni.rs:114-116 | a hello without server_name gives nothing, whole or truncated |
| TlsSni.BuiltHelloReads | src/roblox_proxy/tls_sni.rs:119-151 | the hello the builder makes for a host is well-formed and parses to that host without trailing dots |
| TlsSni.BuiltBytes | src/roblox_proxy/tls_sni.rs:119-151 | the built hello byte by byte |
| TlsSni.BadHostIsRefused | src/roblox_proxy/tls_sni.rs:96-101 | a host that is empty or has a byte that is no printable ASCII character is refused |
| TlsSni.TrimDotsMeaning | src/roblox_proxy/tls_sni.rs:101 | only trailing dots are trimmed, and all of them |
| TlsSni.ServerNamePrinted | src/roblox_proxy/tls_sni.rs:81-106 | a printed name list reads as its first host_name entry |
| TlsSni.SniStable | src/roblox_proxy/tls_sni.rs:13-106 | once a payload parses to a name, every payload extending it parses to the same name |
| Checksum.FoldCarries | src/split_tunnel/interceptor.rs:2276-2278 | folding terminates and yields the ones' complement value of the sum |
| Checksum.CalculateIpChecksum | src/split_tunnel/interceptor.rs:2266-2280 | the complement of the header's word sum, odd lengths padded, without overflow of 32 bits |
| Checksum.SumSegment | src/split_tunnel/interceptor.rs:2300-2312 | the word loop that skips the checksum field sums the segment with that field zeroed |
| Checksum.CalculateTcpChecksum | src/split_tunnel/interceptor.rs:2283-2317 | the complement of the ones' complement sum with the field skipped, for every packet; it is the checksum of the packet when the field is clear of the addresses; 0 for a short segment |
| Checksum.CalculateUdpChecksum | src/split_tunnel/interceptor.rs:2320-2359 | the same for UDP, with 0 sent as 0xFFFF |
| Checksum.FixPacketChecksums | src/split_tunnel/interceptor.rs:2362-2401 | rewrites the buffer in place to the specified packet, and refuses exactly the packets too short for their header |
| Checksum.FixedPacketChecks | src/split_tunnel/interceptor.rs:2361-2401 | with a legal IHL the header sum and the TCP or UDP sum fold to 0xFFFF afterwards, and a UDP field is never 0 |
| Checksum.HeaderChecksIff | src/split_tunnel/interceptor.rs:2372-2377 | the header checks afterwards exactly when it contains its checksum field or checked before |
| Checksum.EmptyHeaderNeverChecks | src/split_tunnel/interceptor.rs:2367-2377 | a packet with IHL 0 never checks afterwards |
| Checksum.TransportChecksIff | src/split_tunnel/interceptor.rs:2379-2398 | the transport sum checks afterwards exactly when the field is clear of the pseudo-header addresses or the bare sum is zero in ones' complement |
| Checksum.OnlyChecksumsChange | src/split_tunnel/interceptor.rs:2362-2401 | a byte that changes is a checksum byte |
| Checksum.FixedTwice | src/split_tunnel/interceptor.rs:2362-2401 | a second call changes nothing, for every packet |
| Checksum.RewrittenHeaderSum | src/split_tunnel/interceptor.rs:2372-2377 | in header positions: with a legal IHL the bytes of the rewritten header, weighted 256 and 1, fold to 65535 |
| Checksum.RewrittenSegmentSum | src/split_tunnel/interceptor.rs:2379-2398 | likewise addresses, protocol, length and segment, for TCP and UDP |
| Checksum.RewrittenBytes | src/split_tunnel/interceptor.rs:2372-2398 | a changed byte is byte 10 or 11, or the checksum of the TCP or UDP segment |
| Checksum.WordSumIsByteSum | src/split_tunnel/interceptor.rs:2266-2275 | the word sum is the sum of the bytes, those at even positions times 256 |
| Checksum.OnesSumMeaning | src/split_tunnel/interceptor.rs:2276-2278 | folding keeps the value modulo 65535 |
| Interceptor.CopyKeepsPorts | src/split_tunnel/interceptor.rs:1187-1207 | the reader on the full frame and the classifier on the 1600-byte copy read the same ports, and what reaches a worker parses there |
| Interceptor.CopyMeans | src/split_tunnel/interceptor.rs:1196-1198 | frames of up to 1600 bytes are copied whole, longer ones cut |
| Interceptor.AssetIndexFollowsPort | src/split_tunnel/interceptor.rs:192-202 | the asset relay of a packet is the source port's residue, so a flow keeps one exit |
| Interceptor.ClassifyPacket | src/split_tunnel/interceptor.rs:1950-2097 | the ordered phases decide by the closed form and update the cache by it |
| Interceptor.ClassifyFlow | src/split_tunnel/interceptor.rs:2008-2097 | the phases after parsing equal the closed form; phase 4 is unreachable |
| Interceptor.NeverTunneled | src/split_tunnel/interceptor.rs:1950-2097 | in every state, no DNS, no excluded destination, no TCP without Route Assist or to a direct-only address, no UDP with UDP tunneling off |
| Interceptor.UdpDecision | src/split_tunnel/interceptor.rs:2029-2063 | with an indexed snapshot an unremembered UDP source is decided by its port or the destination alone |
| FrameFormat.TcpFrameReads | src/split_tunnel/interceptor.rs:1956-2027 | every TCP frame, with any IP and TCP options, flags and trailer, reads as the addresses, ports and flags it was printed with |
| FrameFormat.UdpFrameReads | src/split_tunnel/interceptor.rs:1956-2003 | likewise for UDP |
| FrameFormat.TcpPayloadReads | src/split_tunnel/interceptor.rs:1880-1895 | the TCP payload of such a frame is what was sent, without the trailer |
| FrameFormat.InitialSynIff | src/split_tunnel/interceptor.rs:2026-2027 | an initial SYN has the SYN bit set and the ACK bit clear, whatever the other flags |
| FrameFormat.InitialSynIsRelayed | src/split_tunnel/interceptor.rs:2065-2090 | an initial SYN to port 80 or 443 of an active bootstrap address is relayed and its source remembered |
| FrameFormat.UnknownTcpIff | src/split_tunnel/interceptor.rs:2004-2097 | a TCP frame of a source neither owned nor remembered, to no game server, is relayed exactly if it is such a SYN |
| FrameFormat.KnownTcpIff | src/split_tunnel/interceptor.rs:2004-2063 | a TCP frame of an owned or remembered source, or to a game server, is relayed exactly under Route Assist, unless DNS, excluded or direct-only |
| FrameFormat.UdpIff | src/split_tunnel/interceptor.rs:2004-2097 | every UDP frame: exactly when it is relayed, by ports, addresses and ownership |
| FrameFormat.RememberedIff | src/split_tunnel/interceptor.rs:2029-2090 | exactly which sources are remembered, and that below the bound every relayed one is |
| FrameFormat.NextPacketIsRelayed | src/split_tunnel/interceptor.rs:2038-2043 | the next packet of a relayed source is relayed, even after the snapshot stopped recognising it |
| FrameFormat.RobloxBlocks | src/split_tunnel/process_cache.rs:27-50 | the game-server ranges as dotted blocks |
| Interceptor.ShouldRouteToRelay | src/split_tunnel/interceptor.rs:1812-1851 | decision, cache and the bootstrap sets after SNI learning, as functions of the frame and the state before |
| Interceptor.MaybeLearnDirectOnlyDestination | src/split_tunnel/interceptor.rs:1855-1877 | reports the named host and destination to the bootstrap sets exactly when the payload is a hello |
| Interceptor.LearnedFlowGoesDirect | src/split_tunnel/interceptor.rs:2014-2018 | after learning, no later TCP packet to that address is tunneled, cached or not |
| Interceptor.HelloReveals | src/split_tunnel/interceptor.rs:1827-1898 | for every learnable host and destination there is a relayed TCP frame, around that host's hello, that makes the destination direct |
| Interceptor.AuthHelloReveals | src/split_tunnel/interceptor.rs:1855-1877 | outside country-ban routing a hello for the authentication host makes any unpinned address direct |
| PacketPath.DispatchBatch | src/split_tunnel/interceptor.rs:1182-1214 | each worker, the adapter and MSTCP get exactly their frames in arrival order: a queue holds the accepted frames of its source ports and no others; the batch is conserved |
| PacketPath.BatchConserved | src/split_tunnel/interceptor.rs:1182-1214 | every frame goes to exactly one of worker, adapter and MSTCP |
| PacketPath.QueuedByPort | src/split_tunnel/interceptor.rs:1188-1207 | a frame in a worker's queue parses and its source port is one of that worker's |
| PacketPath.BatchesAddUp | src/split_tunnel/interceptor.rs:1163-1214 | dispatching two batches one after the other fills the queues as dispatching both at once |
| PacketPath.ShardingRefinesSharedCache | src/split_tunnel/interceptor.rs:1182-1257 | for every worker count, whatever the reader dispatched and in whatever order workers take it from their own queues, private caches give every packet the shared cache's decision and learn the same addresses |
| PacketPath.DecideAlike | src/split_tunnel/interceptor.rs:2005-2097 | one packet: its worker's cache and the shared cache decide alike and stay in step |
| PacketPath.PartitionIsDisjointUnion | src/split_tunnel/interceptor.rs:1257 | the private caches are pairwise disjoint and their union is the shared cache |
| WorkerLoop.RunPacketWorker | src/split_tunnel/interceptor.rs:1252-1428 | the worker loop, with other threads' calls on the router and the bootstrap sets between packets, computes the joint run; the short-frame skip is unreachable |
| WorkerLoop.WorkerConserves | src/split_tunnel/interceptor.rs:1310-1428 | processed = tunneled + bypassed + held, in every run |
| WorkerRefresh.PacketDecided | src/split_tunnel/interceptor.rs:1298-1428 | packet number 10k and the nine after it are decided under the snapshot published at packet 10k; the cache is emptied exactly when the version differs; and which counter the packet goes to |
| WorkerRefresh.ArrivalDecided | src/split_tunnel/interceptor.rs:1298-1428 | the same over every joint run, with the bootstrap sets as all calls left them and the destination pending after its evaluation |
| WorkerRefresh.OwnedPortIsRelayed | src/split_tunnel/interceptor.rs:1299-1308 | a UDP port of the newly loaded index is relayed from that packet on |
| WorkerLoop.HandleOutbound | src/split_tunnel/interceptor.rs:1312-1428 | one outbound packet: decision, SNI learning, evaluation of a Roblox destination (bypassed or not), and which counter it goes to |
| WorkerLoop.EvaluateDestination | src/split_tunnel/interceptor.rs:1344-1376 | the router after the two evaluation branches, and that a packet is held exactly when its destination is pending afterwards |
| WorkerLoop.HeldIff | src/split_tunnel/interceptor.rs:1360-1376 | a packet is held exactly when it would be relayed to a Roblox server whose lookup is pending or is queued by this very evaluation |
| WorkerLoop.FirstGamePacketIsHeld | src/split_tunnel/interceptor.rs:1360-1376 | the first game packet of a session is held |
| WorkerLoop.GamePacketIsHeld | src/split_tunnel/interceptor.rs:1360-1376 | such a packet, to an address of the Roblox ranges |
| WorkerLoop.HeldIsTheOnlyPending | src/split_tunnel/interceptor.rs:1360-1376 | over every joint run of worker and router, a held packet's destination is the only one pending and the router is enabled |
| WorkerLoop.EndedIsNotHeld | src/vpn/connection.rs:874-881 | once its entry is cleared or dropped by the gate, or the router is disabled or reset, a destination holds no packet until an evaluation queues it again |
| WorkerLoop.NotHeldUntilSeenCleared | src/vpn/auto_routing.rs:367-390 | a destination that was looked up and whose entry has ended holds no packet before the seen-set is cleared |
| WorkerLoop.RouterOfWorld | src/split_tunnel/interceptor.rs:1344-1376 | the router of a joint run is its run on all calls made on it, the worker's evaluations included |
| WorkerLoop.BootstrapOfWorld | src/split_tunnel/interceptor.rs:1812-1851 | likewise for the bootstrap sets, the worker's learning included |
| WorkerLoop.WorkerOfWorld | src/split_tunnel/interceptor.rs:1252-1428 | the worker of a joint run is its bookkeeping on the packets as it saw them, so conservation and cache freshness hold |
| WorkerLoop.CachedUnderCurrentVersion | src/split_tunnel/interceptor.rs:1296-1308 | in every run each cached source was recognised by one of its own packets under the snapshot version in use |
| WorkerLoop.CachedUnderCurrentSnapshot | src/split_tunnel/interceptor.rs:1296-1308 | with snapshots from one publication history, each cached source was recognised under the very snapshot in use, and that snapshot indexes its own table |
| WorkerLoop.CachedSourceStays | src/split_tunnel/interceptor.rs:2038-2043 | a cached source stays tunneled, for packets that pass the gates, until a snapshot of another version is loaded |
| WorkerLoop.LearnedStaysDirect | src/split_tunnel/interceptor.rs:2014-2018 | over every joint run, no TCP packet to an address made direct is relayed until pins are applied or removed |
| WorkerLoop.DisjointInJointRuns | src/roblox_proxy/hosts.rs:246-396 | relayed and direct-only addresses are disjoint in every joint run whose merges happen in a country-ban session |
| ProcessCache.ComputeTunnelUdpPorts | src/split_tunnel/process_cache.rs:224-239 | the index is exactly the local ports of UDP sockets owned by tunnel processes |
| ProcessCache.SourceIsIndexedPort | src/split_tunnel/process_cache.rs:264-348 | for UDP, ownership of a source is membership of its port, for every local address; TCP never uses the index |
| ProcessCache.TunnelProcessIff | src/split_tunnel/process_cache.rs:242-261 | a process counts exactly when its name is an app's or, up to ".exe", one name stands within the other |
| ProcessCache.StemMeaning | src/split_tunnel/process_cache.rs:252-254 | what remains of a name without its ".exe" endings |
| ProcessCache.OwnerIsListed | src/split_tunnel/process_cache.rs:298-315 | the exact entry decides, then the one bound to 0.0.0.0, then nobody owns the connection |
| ProcessCache.LowerLetters | src/split_tunnel/process_cache.rs:407-410 | names are compared with their letters in lower case |
| ProcessCache.InRangeIsInterval | src/split_tunnel/process_cache.rs:80-83 | a masked comparison is membership of the block of addresses from the network up |
| ProcessCache.RangesAreCidr | src/split_tunnel/process_cache.rs:57-77 | every mask is the CIDR mask of its prefix and every network is aligned |
| ProcessCache.VersionIdentifies | src/split_tunnel/process_cache.rs:404-428 | in one publication history a version identifies one snapshot |
| ProcessCache.LockFreeProcessCache.Update | src/split_tunnel/process_cache.rs:404-428 | appends one snapshot to the history; every published snapshot indexes its own table and versions strictly increase |
| ProcessCache.LockFreeProcessCache.SetTunnelApps | src/split_tunnel/process_cache.rs:431-459 | the same invariant, re-indexing the current table for the new apps |
| ProcessCache.LockFreeProcessCache.RegisterProcessImmediate | src/split_tunnel/process_cache.rs:467-495 | the same invariant, with one process name added |
| AutoRouting.AutoRouter.EvaluateGameServer | src/vpn/auto_routing.rs:349-404 | traffic note, gates, pin expiry and lookup, under every outcome of the three try-locks |
| RouterTraffic.LookedUpOnlyIfOthersQuiet | src/vpn/auto_routing.rs:211-216 | over every run, a server is looked up only if enabled, nothing is pending and no other server was evaluated in the last 2750 ms |
| RouterTraffic.LookedUpOnceOthersQuiet | src/vpn/auto_routing.rs:349-404 | and an unseen one is once the others have been quiet for 3000 ms |
| RouterTraffic.SeenAgainOnlyIfPinQuiet | src/vpn/auto_routing.rs:302-347 | a seen server is looked up again only if another one is pinned and has been quiet for more than 2750 ms |
| RouterTraffic.SeenAgainOncePinQuiet | src/vpn/auto_routing.rs:321-390 | and is once the others have been quiet for 3000 ms; the pin is dropped and only that server counts as seen |
| RouterTraffic.ThrottleHidesTraffic | src/vpn/auto_routing.rs:190-207 | a run in which a server is looked up 2751 ms after another one's last traffic |
| RouterTraffic.RecordedInEveryRun | src/vpn/auto_routing.rs:190-207 | the traffic record follows the evaluations since the last reset within 250 ms, up to 4096 addresses |
| AutoRouting.AutoRouter.SetEnabled | src/vpn/auto_routing.rs:98-112 | disabling drops pending lookups and starts a new epoch; enabling again clears the seen-set |
| AutoRouting.AutoRouter.NoteGameTraffic | src/vpn/auto_routing.rs:190-207 | throttled, capped update of the last-traffic times |
| AutoRouting.AutoRouter.MaybeExpireQuietPin | src/vpn/auto_routing.rs:321-347 | expires the pin and clears the seen-set exactly when the pinned server is quiet |
| AutoRouting.AutoRouter.ClearPendingLookup | src/vpn/auto_routing.rs:410-415 | removes the entry and lowers the flag when none is left |
| AutoRouting.AutoRouter.GateLookupResult | src/vpn/connection.rs:874-881 | a result proceeds exactly when enabled, of the current epoch and pending; otherwise its pending entry is cleared |
| AutoRouting.AutoRouter.CommitSwitch | src/vpn/auto_routing.rs:537-607 | a switch is recorded exactly when the region changes and both limits allow it |
| RouterTraffic.CommitSwitchesIff | src/vpn/auto_routing.rs:558-589 | over every run, exactly when a commit switches, by the times of earlier switches, and what it sets |
| RouterTraffic.OtherRelayChanges | src/vpn/auto_routing.rs:136-139 | only a manual choice and a reset change the relay otherwise |
| AutoRouting.AutoRouter.Reset | src/vpn/auto_routing.rs:622-632 | clears the lookup side, starts a new epoch, keeps both rate counters |
| AutoRouting.LookupsOkInEveryRun | src/vpn/auto_routing.rs:349-415 | in every run: the flag tells whether a lookup is pending, at most one is and none while disabled, each IP is queued at most once per clearing of the seen-set, generations strictly increase |
| AutoRouting.StaleLookupNeverCommits | src/vpn/auto_routing.rs:263-267 | a lookup sent before a disable or reset never passes the commit gate afterwards |
| AutoRouting.LiveLookupPassesIff | src/vpn/connection.rs:874-881 | in every run, a pending lookup's result passes the gate, before the seen-set is cleared, exactly when its entry was not cleared, the session did not end and no result of another session for the same IP came first |
| AutoRouting.StaleResultDropsLiveLookup | src/vpn/connection.rs:878-881 | a stale result dropped while a live lookup for the same IP is pending ends the live lookup until the seen-set is cleared |
| AutoRouting.StaleResultWitness | src/vpn/connection.rs:878-881 | such a run: lookup, reset, lookup of the same server, first result |
| AutoRouting.PendingWasQueued | src/vpn/auto_routing.rs:384-400 | an IP becomes pending only by an evaluation that queues it |
| AutoRouting.AutoRouter.Drive | src/vpn/auto_routing.rs:66-632 | any sequence of calls computes the run of their events |
| AutoRouting.RatesOkInEveryRun | src/vpn/auto_routing.rs:558-589 | counters and windows describe the switch history, in every run |
| AutoRouting.RateLimits | src/vpn/auto_routing.rs:537-607 | switches at least 10 s apart, at most 6 in any closed 60 s, at most 3 * (T / 60 s + 1) within T of creation, across resets |
| AutoRouting.FourSwitchesNeedARestart | src/vpn/auto_routing.rs:573-580 | over every run, four switches fall in one span only if a window restarted inside it, at one of them |
| AutoRouting.AtMostThreeInOneWindow | src/vpn/auto_routing.rs:573-580 | over every run, at most three switches fall in a span whose switches share one window |
| AutoRouting.SixSwitchesInOneMinute | src/vpn/auto_routing.rs:573-580 | a run with six switches in 50 s |
| Domains.ClassIgnoresCase | src/roblox_proxy/hosts.rs:755-802 | spelling in another case never changes the class of a domain |
| Domains.RelayHostsAreRelayed | src/roblox_proxy/hosts.rs:782-802 | the join, games and matchmaking hosts are relayed, in any case and with any trailing dots |
| Domains.OtherKnownHostsAreDirect | src/roblox_proxy/hosts.rs:791-802 | every other host of the bootstrap list (all end in the letter m) is direct, in any case and with any trailing dots |
| Domains.CdnHostsAreDirect | src/roblox_proxy/hosts.rs:774-780 | every host under rbxcdn.com is direct |
| Domains.PinnedHosts | src/roblox_proxy/hosts.rs:755-770 | launch, authentication and asset hosts are pinned |
| RouteAssist.KeepPins | src/roblox_proxy/hosts.rs:817-865 | keeps exactly the entries with an IP the other side does not offer, and all entries of a domain that has none, domain by domain in the order of first mention |
| RouteAssist.KeptAsOften | src/roblox_proxy/hosts.rs:837-865 | a kept entry is kept exactly as often as it is offered |
| RouteAssist.AllocateRouteAssistPins | src/roblox_proxy/hosts.rs:817-889 | the relayed, direct-only and written pins, each exactly, in the source's order |
| RouteAssist.WrittenIff | src/roblox_proxy/hosts.rs:880-889 | of the direct pins exactly those of pinned hosts at addresses no kept relayed pin has are written |
| RouteAssist.EveryDomainKeepsAPin | src/roblox_proxy/hosts.rs:843-865 | every offered domain keeps a pin |
| RouteAssist.SharedActiveIff | src/roblox_proxy/hosts.rs:843-872 | a relayed IP also offered by a direct domain occurs exactly when a relayed domain with it has no conflict-free IP |
| RouteAssist.MergeOverrides | src/roblox_proxy/hosts.rs:308-321 | every (domain, IP) once, ignoring the case of the domain, and nothing else |
| RouteAssist.MergedIsFirst | src/roblox_proxy/hosts.rs:308-321 | the entry that survives is the first of its (domain, IP) |
| RouteAssist.NewEntriesIff | src/roblox_proxy/hosts.rs:295-303 | of every answer the first six addresses are merged, under its domain, and nothing else |
| RouteAssist.SameKeyIff | src/roblox_proxy/hosts.rs:317-318 | two entries are the same pin when address and domain agree, the domain in any case |
| RouteAssist.ExtendActive | src/roblox_proxy/hosts.rs:333-337 | adds the merged IPs under one of their domains, and known IPs keep theirs |
| RouteAssist.NamedIps | src/roblox_proxy/hosts.rs:895-903 | every IP of the list, each under one of its domains (the later entry wins) |
| RouteAssist.NamedByLast | src/roblox_proxy/hosts.rs:895-903 | an IP is named by its last entry |
| BootstrapSession.BootstrapRouting.EnterCountryBanRouting | src/roblox_proxy/hosts.rs:343-346 | sets the routing and empties the direct-only set, so every host is relayed |
| BootstrapSession.BootstrapRouting.ApplyBootstrapOverrides | src/roblox_proxy/hosts.rs:246-283 | the sets, the routing flag and what is remembered after success, a failed resolution, a refused empty list and a failed write, from any state |
| BootstrapSession.BootstrapRouting.ApplyRelayResolvedOverrides | src/roblox_proxy/hosts.rs:292-337 | the merged pins and the relayed addresses afterwards, or nothing changed; the sets stay disjoint exactly when nothing is added or no merged IP is direct-only |
| BootstrapSession.BootstrapRouting.LearnDirectOnlyBootstrapIp | src/roblox_proxy/hosts.rs:378-396 | learns exactly a new address of a direct domain outside country-ban routing, never an active pin |
| BootstrapSession.RelayHostsAreNotLearned | src/roblox_proxy/hosts.rs:378-381 | a relayed host is never learned, however spelled |
| BootstrapSession.BootstrapRouting.RemoveOverrides | src/roblox_proxy/hosts.rs:684-688 | ends the session with both sets empty |
| BootstrapSession.BootstrapRouting.Drive | src/roblox_proxy/hosts.rs:246-396 | any sequence of calls computes the run of their events |
| BootstrapSession.DisjointInEveryRun | src/roblox_proxy/hosts.rs:246-396 | relayed and direct-only addresses are disjoint in every run whose merges all happen in a country-ban session |
| BootstrapSession.MergeDisjointIff | src/roblox_proxy/hosts.rs:292-337 | a merge keeps the sets disjoint exactly when it adds nothing or no merged IP is direct-only |
| BootstrapSession.MergeOutsideBanSession | src/roblox_proxy/hosts.rs:292-337 | a run whose merge relays a direct-only address |
| BootstrapSession.FlagIff | src/roblox_proxy/hosts.rs:258-346 | in every run the country-ban flag is on exactly when a country-ban entry has had no removal since |
| BootstrapSession.NothingLearnedUntilRemove | src/roblox_proxy/hosts.rs:378-396 | from a country-ban entry until the next removal nothing is learned |
| BootstrapSession.FailedBanOutlivesItsSession | src/roblox_proxy/hosts.rs:258-283 | after a failed country-ban apply the next Route Assist session publishes the same pins but learns nothing |
| HostsFile.RemoveMarkerBlock | src/roblox_proxy/hosts.rs:921-950 | the text of the lines outside every block, without trailing blank lines |
| HostsFile.BuildHostsBlock | src/roblox_proxy/hosts.rs:952-962 | the marker lines around one line per pin |
| HostsFile.WriteOverrides | src/roblox_proxy/hosts.rs:653-669 | refuses an empty list; otherwise the remaining lines, then the block |
| HostsPins.EntryReads | src/roblox_proxy/hosts.rs:956-958 | a reader of hosts lines, independent of the printer, gets every pin back from its line |
| HostsPins.WrittenPins | src/roblox_proxy/hosts.rs:653-669 | whatever the file held, the pins between the markers of the written file are exactly the overrides, in order |
| HostsPins.WrittenText | src/roblox_proxy/hosts.rs:661-669 | the written text is what a removal leaves, or one line feed, and then the block |
| HostsPins.MarkerLine | src/roblox_proxy/hosts.rs:926-935 | a line is a marker exactly when it is the marker text inside whitespace |
| HostsFile.OutsideLinesSurvive | src/roblox_proxy/hosts.rs:925-941 | a line survives, once and in order, exactly when it is no marker and every start marker before it has been closed |
| HostsFile.DropBlankTailIsPrefix | src/roblox_proxy/hosts.rs:943-949 | only blank lines at the end are dropped |
| HostsFile.RemoveIdempotentIff | src/roblox_proxy/hosts.rs:921-950 | removing twice is removing once exactly when no remaining line ends in a carriage return |
| HostsFile.RemoveAfterWriteIff | src/roblox_proxy/hosts.rs:653-697 | removing after a write gives what removing before it gives, under exactly the same condition |
| HostsFile.WriteReplacesWriteIff | src/roblox_proxy/hosts.rs:653-669 | a second write replaces the first, under exactly the same condition |
| HostsFile.PairedIsSettled | src/roblox_proxy/hosts.rs:925 | the condition holds for every text whose carriage returns all belong to CR LF endings |
| HostsFile.StrayReturn | src/roblox_proxy/hosts.rs:925-949 | a text on which removal is not idempotent |
| HostsFile.WrittenReadsBack | src/roblox_proxy/hosts.rs:653-669 | the written file reads back as the remaining lines, the markers and the pins |
| ResolveFrame.ParseResolveResponse | src/vpn/relay.rs:614-660 | the offset-moving decoder equals front-consuming decoding of the first `len` bytes and reads none beyond |
| ResolveFrame.DecodeEncoded | src/vpn/relay.rs:610-660 | decoding an encoded response returns it; trailing bytes are ignored |
| ResolveFrame.EncodeDecoded | src/vpn/relay.rs:610-660 | whatever decodes re-encodes to exactly the bytes consumed |
| ResolveFrame.TruncatedDecodesToNone | src/vpn/relay.rs:624-655 | every strict truncation of an encoded response decodes to nothing |
| ResolveFrame.BuildResolveRequest | src/vpn/relay.rs:320-335 | the request reads back as the id and at most 16 hosts cut at 64 bytes |
| ResolveFrame.ResponseBytes | src/vpn/relay.rs:610-612 | a response byte by byte |
| ResolveFrame.RequestBytes | src/vpn/relay.rs:322-333 | a request byte by byte |
| ResolveFrame.ClippedHosts | src/vpn/relay.rs:322-332 | the first sixteen hosts, each by at most its first 64 bytes |
| ResolveFrame.EncodedIsValid | src/vpn/relay.rs:635-637 | every encoding of Unicode scalar values is accepted as a host |
| ResolveFrame.ValidIsEncoded | src/vpn/relay.rs:635-637 | and nothing else is |
| RelayClient.UdpRelay.ForwardOutbound | src/vpn/relay.rs:165-197 | payloads over 1500 bytes are dropped; others go to the current relay behind the session id |
| RelayClient.UdpRelay.ReceiveInbound | src/vpn/relay.rs:199-265 | what is delivered, captured or dropped, and the caller's buffer byte for byte |
| RelayClient.AckIsRecorded | src/vpn/relay.rs:209-220 | an ack of the address under authentication is recorded with its status |
| RelayClient.OnlyAcksCount | src/vpn/relay.rs:209-220 | nothing else of what that address sends has any effect |
| RelayClient.StatusBytes | src/vpn/relay.rs:33-57 | the status bytes |
| RelayClient.ResponseIsCaptured | src/vpn/relay.rs:245-253 | a resolve response of an accepted sender is captured and not delivered |
| RelayClient.PayloadIsDelivered | src/vpn/relay.rs:255-262 | every other payload of an accepted sender that fits is delivered and counted |
| RelayClient.StrangersAreIgnored | src/vpn/relay.rs:222-243 | other senders and other sessions have no effect |
| RelayClient.UdpRelay.SwitchRelay | src/vpn/relay.rs:404-409 | the replaced relay is remembered with the moment of the switch |
| RelayClient.AcceptedAfterSwitch | src/vpn/relay.rs:222-236 | after a switch and until the next exactly the new relay is accepted, and the replaced one for less than 2000 ms |
| RelayClient.UdpRelay.BeginAuth | src/vpn/relay.rs:499-507 | the target is watched and an earlier ack forgotten |
| RelayClient.FramingRoundTrip | src/vpn/relay.rs:165-262 | a framed payload comes back exactly when it does not start with 0xA7 and fits the buffer |
| RelayClient.DeliveredFromRecentRelay | src/vpn/relay.rs:199-262 | over every run a delivered payload carries the session id, is not from the address under authentication, and its sender is the current relay or was until less than 2 s ago |
| RelayClient.SecondSwitchEndsGrace | src/vpn/relay.rs:222-236 | the grace is one relay deep: a second switch ends the first relay's at once |
| RelayClient.AckIsFromTarget | src/vpn/relay.rs:209-220 | while an address is being authenticated, a recorded ack is its own |
| RelayClient.UdpRelay.Drive | src/vpn/relay.rs:165-513 | any sequence of calls computes the run of their events and hands over its deliveries |
| AssetRelays.PickAssetRelays | src/vpn/connection.rs:68-114 | for every shuffle: distinct known IPs, never the primary's, as many as asked for or all there are, and no IP without a far server while a far IP is unused |
| AssetRelays.Dedup | src/vpn/connection.rs:79-88 | the first server of each IP of the list, in order, the primary's IP left out |
| AssetRelays.FirstOfIpsIff | src/vpn/connection.rs:79-88 | a server is kept exactly when it is the first of its IP and that is not the primary's |
| AssetRelays.RegionMatchesIff | src/vpn/connection.rs:55-59 | two regions match when one continues the other |
| AssetRelays.FillPool | src/vpn/connection.rs:98-110 | the fallback only adds unused IPs, until the pool is full or every IP is used |

## Left out

- Driver and socket calls, adapter discovery, threads, timeouts, the stop flag, process enumeration: foreign calls. Driver and socket sends succeed; received datagrams, try-locks, queue room, file-write outcomes and resolved addresses are inputs.
- Weak-memory orders and interleavings inside one method: each method is one atomic step. Time is a natural number of milliseconds that the caller supplies.
- Host names typed as URLs (`extract_host`), DNS and DNS-over-HTTPS resolution, and publication of the excluded set.
- Logging, the URL log, statistics display, the event log.
- Region candidates, ping selection, whitelist, bypass flag and forced servers of the auto-router: their outcome is the argument of `CommitSwitch`. The gate is not repeated after the ping wait (src/vpn/connection.rs:890), so nothing is claimed about a disable during it.
- The retry and polling loops of authentication and of `resolve_roblox_hosts`, and keepalives.
- Counters are unbounded: wrap-around of the u64 counters (packets, versions, epochs, generations) is not modelled.
- Relay addresses are IPv4, and lower-casing is ASCII only (`to_lowercase` of process names is Unicode in the source).
- Strings are sequences of characters or bytes, so a byte offset inside a character does not arise. The UTF-8 test of a TLS host name is subsumed by the graphic-ASCII test that follows it.
- The IPv4 total length: like the code, the checksums take lengths from the slice.
- Checksum.FixPacketChecksums: packets of at most 65535 bytes, the IPv4 maximum; the source states no bound, and its frames have at most 1600 bytes.
- Checksum.CalculateIpChecksum: headers of at most 65535 bytes, as its one caller passes at most 60.
- RelayClient.UdpRelay.ReceiveInbound: datagrams of at most 1600 bytes, what the receive buffer can return.
- PacketPath.ShardingRefinesSharedCache: holds while the shared cache is below 10000 entries, where insertion stops, and while the snapshot is fixed.
- WorkerLoop.RunPacketWorker: a tunneled packet without a relay context, which the source counts as tunneled and then bypasses, is only counted, and a worker without an auto-router is taken as one with a disabled router. The `bypassed` flag of the router is an input per packet. Forwarding itself is covered by `FixPacketChecksums` and `ForwardOutbound`.
- HostsFile.RemoveAfterWriteIff: domains without line feeds. The listed domains have none; names answered by a relay are not checked for them in the source. The same holds of WriteReplacesWriteIff and WrittenReadsBack.
- HostsPins.WrittenPins: a name that ends in a carriage return reads back without it.
- RouterTraffic.LookedUpOnlyIfOthersQuiet: while at most 4096 addresses have been evaluated since the last reset, the most the router records; a further one leaves no record. The same holds of SeenAgainOnlyIfPinQuiet.
- HostsFile.WrittenReadsBack: domains that do not end in a carriage return.
- AutoRouting.AutoRouter.GateLookupResult: the earlier test of the same pending set before the lookup starts (src/vpn/connection.rs:860-862) changes no state and is left out.
- Masks are arithmetic on contiguous masks; `RangesAreCidr` shows that all masks of the source are of this kind.
- Iteration order of hash maps: relay-resolved answers are a list in any order.
- WorkerLoop.CachedUnderCurrentSnapshot: it and the other bookkeeping theorems of `WorkerLoop` take the published snapshots as inputs; that they form one history is the invariant of `LockFreeProcessCache`.
- Authentication with the backend, OAuth, AES-GCM, GoodbyeDPI control, geolocation, server lists, IPv6 recovery and the C interface: I/O, library code or table lookups.
