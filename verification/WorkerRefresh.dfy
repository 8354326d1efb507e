// Which snapshot each packet is decided under, and what happens to it, in terms of the packets a
// worker has received (src/split_tunnel/interceptor.rs).
module WorkerRefresh {
  import opened Basics
  import opened ProcessCache
  import opened Interceptor
  import opened WorkerLoop
  import BootstrapSession

  // The snapshots published at the packets received so far.
  function PublishedAt(packets: seq<Packet>): seq<ProcessSnapshot> {
    seq(|packets|, i requires 0 <= i < |packets| => packets[i].published)
  }

  // The snapshot the last of these packets is decided under: the one published at the latest
  // packet whose number is a multiple of ten, or the initial one before the tenth.
  function InUse(initial: ProcessSnapshot, published: seq<ProcessSnapshot>): ProcessSnapshot {
    if |published| < 10 then initial else published[|published| / 10 * 10 - 1]
  }

  ghost predicate Follows(s: WorkerState, initial: ProcessSnapshot, published: seq<ProcessSnapshot>) {
    s.checkCounter == |published| % 10 && s.snapshot == InUse(initial, published) && s.snapshotVersion == s.snapshot.version
  }

  lemma TensOneMore(n: nat)
    ensures n % 10 == 9 ==> (n + 1) % 10 == 0 && (n + 1) / 10 * 10 == n + 1
    ensures n % 10 != 9 ==> (n + 1) % 10 == n % 10 + 1 && (n + 1) / 10 == n / 10
  {
  }

  lemma RefreshFollows(s: WorkerState, initial: ProcessSnapshot, published: seq<ProcessSnapshot>, p: ProcessSnapshot)
    requires Follows(s, initial, published)
    ensures Follows(s.Refreshed(p), initial, published + [p])
    ensures s.Refreshed(p).cache == if InUse(initial, published + [p]).version == s.snapshot.version then s.cache else {}
  {
    var n := |published|;
    TensOneMore(n);
    var all := published + [p];
    if n % 10 == 9 {
      assert all[n] == p;
    } else if n >= 9 {
      assert all[n / 10 * 10 - 1] == published[n / 10 * 10 - 1];
    }
  }

  lemma {:induction false} RunFollows(initial: ProcessSnapshot, packets: seq<Packet>)
    ensures Follows(WorkerRun(WorkerStart(initial), packets), initial, PublishedAt(packets))
  {
    hide OutcomeOf, CacheAfter, WorkerState.Refreshed;
    if packets != [] {
      hide Follows;
      var n := |packets| - 1;
      var s := WorkerRun(WorkerStart(initial), packets[..n]);
      RunFollows(initial, packets[..n]);
      RefreshFollows(s, initial, PublishedAt(packets[..n]), packets[n].published);
      assert PublishedAt(packets) == PublishedAt(packets[..n]) + [packets[n].published];
      HandledFollows(s.Refreshed(packets[n].published), packets[n], initial, PublishedAt(packets));
    }
  }

  lemma HandledFollows(s: WorkerState, x: Packet, initial: ProcessSnapshot, published: seq<ProcessSnapshot>)
    requires Follows(s, initial, published)
    ensures Follows(Handled(s, x), initial, published)
  {
    hide OutcomeOf, CacheAfter;
  }

  // What one packet does to a worker whose state was `s`, when decided under `snapshot` with the
  // environment `env`, and whether it is held when relayed.
  ghost predicate DecidedUnder(s: WorkerState, t: WorkerState, snapshot: ProcessSnapshot, data: seq<Byte>, outbound: bool,
                               env: Env, bypass: bool, pending: bool)
  {
    // Sources cached under another version are forgotten.
    var known := if snapshot.version == s.snapshot.version then s.cache else {};
    var relayed := outbound && Tunnels(data, snapshot, known, env) && !bypass;
    var held := relayed && IsRobloxGameServerIp(ParseFlow(data).value.dstIp) && pending;
    t.snapshot == snapshot &&
    t.cache == (if outbound then CacheAfter(data, snapshot, known, env) else known) &&
    t.processed == s.processed + 1 &&
    t.tunneled == s.tunneled + (if relayed && !held then 1 else 0) &&
    t.held == s.held + (if held then 1 else 0) &&
    t.bypassed == s.bypassed + (if outbound && !relayed then 1 else 0)
  }

  lemma HandledMeans(before: WorkerState, s: WorkerState, x: Packet)
    requires s.cache == if s.snapshot.version == before.snapshot.version then before.cache else {}
    requires s.processed == before.processed && s.tunneled == before.tunneled && s.bypassed == before.bypassed && s.held == before.held
    ensures DecidedUnder(before, Handled(s, x), s.snapshot, x.data, x.outbound, x.env, x.routerBypass, x.lookupPending)
  {
    hide Tunnels, CacheAfter, ParseFlow, IsRobloxGameServerIp;
    TunneledFrame(x.data, s.snapshot, s.cache, x.env);
  }

  lemma RefreshCounts(s: WorkerState, p: ProcessSnapshot)
    ensures var t := s.Refreshed(p);
            t.processed == s.processed && t.tunneled == s.tunneled && t.bypassed == s.bypassed && t.held == s.held
  {
  }

  // Main result: packet number 10k and the nine after it are decided under the snapshot published
  // at packet 10k, the first nine under the initial one; the cache loses its entries exactly when
  // that snapshot has another version than the one before; and the packet counts as tunneled,
  // held or bypassed by that decision.
  lemma {:induction false} PacketDecided(initial: ProcessSnapshot, packets: seq<Packet>, x: Packet)
    ensures DecidedUnder(WorkerRun(WorkerStart(initial), packets), WorkerRun(WorkerStart(initial), packets + [x]),
                         InUse(initial, PublishedAt(packets + [x])), x.data, x.outbound, x.env, x.routerBypass, x.lookupPending)
    ensures WorkerRun(WorkerStart(initial), packets).snapshot == InUse(initial, PublishedAt(packets))
  {
    var s := WorkerRun(WorkerStart(initial), packets);
    assert (packets + [x])[..|packets|] == packets;
    assert WorkerRun(WorkerStart(initial), packets + [x]) == Handled(s.Refreshed(x.published), x);
    hide WorkerRun, Handled, WorkerState.Refreshed, DecidedUnder;
    RunFollows(initial, packets);
    RefreshFollows(s, initial, PublishedAt(packets), x.published);
    RefreshCounts(s, x.published);
    assert PublishedAt(packets + [x]) == PublishedAt(packets) + [x.published];
    HandledMeans(s, s.Refreshed(x.published), x);
  }

  // ----- The same of joint runs -----

  function PublishedAlong(arrivals: seq<Arrival>): seq<ProcessSnapshot> {
    seq(|arrivals|, i requires 0 <= i < |arrivals| => arrivals[i].published)
  }

  lemma {:induction false} SeenPublished(w: World, arrivals: seq<Arrival>)
    ensures PublishedAt(PacketsSeen(w, arrivals)) == PublishedAlong(arrivals)
  {
    hide World.At, WorldRun, Seen;
    if arrivals != [] {
      var n := |arrivals| - 1;
      SeenPublished(w, arrivals[..n]);
      assert PublishedAlong(arrivals) == PublishedAlong(arrivals[..n]) + [arrivals[n].published];
      assert PublishedAt(PacketsSeen(w, arrivals)) == PublishedAt(PacketsSeen(w, arrivals[..n])) + [arrivals[n].published];
    }
  }

  // Main result: in every joint run a packet is decided under the snapshot published at the latest
  // tenth packet, with the bootstrap sets as all calls so far left them, and is held when its
  // destination is pending after its own evaluation.
  lemma {:induction false} ArrivalDecided(w: World, initial: ProcessSnapshot, arrivals: seq<Arrival>, x: Arrival)
    requires w.worker == WorkerStart(initial)
    ensures var before, after := WorldRun(w, arrivals), WorldRun(w, arrivals + [x]);
            var env := Env(x.apiTunneling, x.udpTunneling, x.excluded, BootstrapSession.Run(before.bootstrap, x.bootstrapCalls));
            DecidedUnder(before.worker, after.worker, InUse(initial, PublishedAlong(arrivals + [x])), x.data, x.outbound, env,
                         x.routerBypass, DestinationIp(x.data) in after.router.lookups.pending)
  {
    hide DecidedUnder, WorkerRun, BootstrapSession.Run, RouterAfter;
    var all := arrivals + [x];
    assert all[..|arrivals|] == arrivals;
    WorkerOfWorld(w, arrivals);
    WorkerOfWorld(w, all);
    SeenPublished(w, all);
    var seen := Seen(WorldRun(w, arrivals).At(x), x);
    assert PacketsSeen(w, all) == PacketsSeen(w, arrivals) + [seen];
    PacketDecided(initial, PacketsSeen(w, arrivals), seen);
    hide WorkerStep, PacketsSeen;
  }

  // A source that the newly loaded snapshot recognises is relayed from that packet on: a UDP port
  // in its index, to any destination that passes the gates.
  lemma OwnedPortIsRelayed(initial: ProcessSnapshot, packets: seq<Packet>, x: Packet)
    requires |packets| % 10 == 9 && x.outbound && x.published.Indexed() && !x.routerBypass && !x.lookupPending
    requires ParseFlow(x.data).Some?
    requires var f := ParseFlow(x.data).value;
             f.protocol.Udp? && f.srcPort in x.published.tunnelUdpPorts && f.dstPort != 53 && x.env.udpTunneling && f.dstIp !in x.env.excluded
    ensures WorkerRun(WorkerStart(initial), packets + [x]).tunneled == WorkerRun(WorkerStart(initial), packets).tunneled + 1
  {
    hide WorkerRun, ParseFlow, IsRobloxGameServerIp;
    PacketDecided(initial, packets, x);
    TensOneMore(|packets|);
    assert PublishedAt(packets + [x])[|packets|] == x.published;
    UdpDecision(ParseFlow(x.data).value, x.published, x.env);
  }
}
