// The worker loop (src/split_tunnel/interceptor.rs), with the auto-router and the bootstrap sets
// it shares with other threads.
module WorkerLoop {
  import opened Basics
  import opened ProcessCache
  import opened Interceptor
  import AutoRouting
  import BootstrapSession

  // ----- One worker's bookkeeping -----

  // What the worker reads while it handles one packet: the environment, the snapshot now
  // published, whether the auto-router bypasses the relay, and whether a region lookup for the
  // destination is pending after it has been evaluated.
  datatype Packet = Packet(data: seq<Byte>, outbound: bool, env: Env, published: ProcessSnapshot,
                           routerBypass: bool, lookupPending: bool)

  datatype Outcome = Ignored | Tunneled | Bypassed | Held

  datatype WorkerState = WorkerState(snapshot: ProcessSnapshot, snapshotVersion: nat, checkCounter: nat,
                                     cache: set<FlowKey>, processed: nat, tunneled: nat, bypassed: nat, held: nat)
  {
    // Every tenth packet the published snapshot is loaded; another version empties the cache.
    function Refreshed(published: ProcessSnapshot): WorkerState {
      if checkCounter + 1 < 10 then this.(checkCounter := checkCounter + 1)
      else
        this.(checkCounter := 0, snapshot := published, snapshotVersion := published.version,
              cache := if published.version != snapshotVersion then {} else cache)
    }

    predicate Decides(data: seq<Byte>, env: Env) {
      Tunnels(data, snapshot, cache, env)
    }
  }

  function OutcomeOf(s: WorkerState, x: Packet): Outcome {
    if !x.outbound then Ignored
    else if !s.Decides(x.data, x.env) || x.routerBypass then Bypassed
    else if IsRobloxGameServerIp(ParseFlow(x.data).value.dstIp) && x.lookupPending then Held
    else Tunneled
  }

  function Handled(s: WorkerState, x: Packet): WorkerState {
    var outcome := OutcomeOf(s, x);
    s.(cache := if x.outbound then CacheAfter(x.data, s.snapshot, s.cache, x.env) else s.cache,
       processed := s.processed + 1,
       tunneled := s.tunneled + (if outcome.Tunneled? then 1 else 0),
       bypassed := s.bypassed + (if outcome.Bypassed? then 1 else 0),
       held := s.held + (if outcome.Held? then 1 else 0))
  }

  function WorkerStep(before: WorkerState, x: Packet): WorkerState {
    Handled(before.Refreshed(x.published), x)
  }

  function WorkerRun(start: WorkerState, packets: seq<Packet>): WorkerState {
    if packets == [] then start
    else
      var n := |packets| - 1;
      WorkerStep(WorkerRun(start, packets[..n]), packets[n])
  }

  function WorkerStart(snapshot: ProcessSnapshot): WorkerState {
    WorkerState(snapshot, snapshot.version, 0, {}, 0, 0, 0, 0)
  }

  // ----- The worker with the auto-router and the bootstrap sets it shares -----

  // One packet taken from the queue. The two lists are the calls that other threads (other
  // workers, the lookup task, the connection manager) made on the router and on the bootstrap
  // sets since this worker's last packet. A worker without a router acts as with a disabled one.
  datatype Arrival = Arrival(data: seq<Byte>, outbound: bool, apiTunneling: bool, udpTunneling: bool,
                             excluded: set<Ipv4>, published: ProcessSnapshot, routerBypass: bool,
                             now: nat, locks: AutoRouting.Locks,
                             routerCalls: seq<AutoRouting.Event>, bootstrapCalls: seq<BootstrapSession.Event>)

  datatype World = World(worker: WorkerState, router: AutoRouting.Router, bootstrap: BootstrapSession.Session)
  {
    // When the worker turns to the packet.
    function At(x: Arrival): World {
      World(worker.Refreshed(x.published), AutoRouting.Run(router, x.routerCalls),
            BootstrapSession.Run(bootstrap, x.bootstrapCalls))
    }

    function EnvFor(x: Arrival): Env {
      Env(x.apiTunneling, x.udpTunneling, x.excluded, bootstrap)
    }

    predicate Relays(x: Arrival) {
      x.outbound && worker.Decides(x.data, EnvFor(x))
    }
  }

  function DestinationIp(data: seq<Byte>): Ipv4 {
    match ParseFlow(data)
    case None => UNSPECIFIED
    case Some(f) => f.dstIp
  }

  // A relayed packet to a Roblox server has its destination evaluated, bypassed or not.
  function RouterCall(w: World, x: Arrival): seq<AutoRouting.Event> {
    if w.Relays(x) && IsRobloxGameServerIp(DestinationIp(x.data))
    then [AutoRouting.Evaluate(x.now, DestinationIp(x.data), x.locks)] else []
  }

  function LearnCalls(sighting: Option<(string, Ipv4)>): seq<BootstrapSession.Event> {
    match sighting
    case None => []
    case Some((name, ip)) => [BootstrapSession.Learn(name, ip)]
  }

  // A relayed ClientHello is reported to the bootstrap sets.
  function BootstrapCall(w: World, x: Arrival): seq<BootstrapSession.Event> {
    LearnCalls(Sighting(x.data, w.Relays(x), x.apiTunneling))
  }

  function RouterAfter(w: World, x: Arrival): AutoRouting.Router {
    AutoRouting.Run(w.router, RouterCall(w, x))
  }

  // What the worker sees of the packet, given the world when it turns to it.
  function Seen(w: World, x: Arrival): (p: Packet)
    ensures p.published == x.published
  {
    Packet(x.data, x.outbound, w.EnvFor(x), x.published, x.routerBypass,
           DestinationIp(x.data) in RouterAfter(w, x).lookups.pending)
  }

  function WorldStep(w: World, x: Arrival): World {
    World(WorkerStep(w.worker, Seen(w.At(x), x)), RouterAfter(w.At(x), x),
          BootstrapSession.Run(w.At(x).bootstrap, BootstrapCall(w.At(x), x)))
  }

  function WorldRun(w: World, arrivals: seq<Arrival>): World {
    hide *;
    if arrivals == [] then w
    else
      var n := |arrivals| - 1;
      WorldStep(WorldRun(w, arrivals[..n]), arrivals[n])
  }

  function OutcomeIn(w: World, x: Arrival): Outcome {
    OutcomeOf(w.At(x).worker, Seen(w.At(x), x))
  }

  method RunPacketWorker(initial: ProcessSnapshot, arrivals: seq<Arrival>, router: AutoRouting.AutoRouter,
                         routing: BootstrapSession.BootstrapRouting)
    returns (final: WorkerState)
    modifies router, routing
    ensures World(final, router.Model(), routing.Model()) ==
            WorldRun(World(WorkerStart(initial), old(router.Model()), old(routing.Model())), arrivals)
  {
    hide WorldStep;
    ghost var start := World(WorkerStart(initial), router.Model(), routing.Model());
    final := WorkerStart(initial);
    for i := 0 to |arrivals|
      invariant World(final, router.Model(), routing.Model()) == WorldRun(start, arrivals[..i])
    {
      assert arrivals[..i + 1][..i] == arrivals[..i];
      final := HandlePacket(final, arrivals[i], router, routing);
    }
    assert arrivals[..|arrivals|] == arrivals;
  }

  // One round of the worker loop.
  method HandlePacket(before: WorkerState, x: Arrival, router: AutoRouting.AutoRouter,
                      routing: BootstrapSession.BootstrapRouting)
    returns (after: WorkerState)
    modifies router, routing
    ensures World(after, router.Model(), routing.Model()) == WorldStep(World(before, old(router.Model()), old(routing.Model())), x)
  {
    hide WorkerState.Decides, Tunnels, CacheAfter, ParseFlow, IsRobloxGameServerIp, Sighting, RouterCall, BootstrapCall;
    hide Handled, Seen, RouterAfter, AutoRouting.Run, BootstrapSession.Run;
    router.Drive(x.routerCalls);
    routing.Drive(x.bootstrapCalls);
    ghost var w := World(before, old(router.Model()), old(routing.Model())).At(x);
    var snapshot, snapshotVersion, checkCounter, cache := before.snapshot, before.snapshotVersion, before.checkCounter + 1, before.cache;
    if checkCounter >= 10 {
      checkCounter := 0;
      if x.published.version != snapshotVersion {
        snapshotVersion := x.published.version;
        cache := {};
      }
      snapshot := x.published;
    }
    var s := WorkerState(snapshot, snapshotVersion, checkCounter, cache, before.processed, before.tunneled, before.bypassed, before.held);
    assert s == before.Refreshed(x.published);
    assert w == World(s, router.Model(), routing.Model());
    if x.outbound {
      after := HandleOutbound(s, x, router, routing);
    } else {
      NothingShared(w, x);
      HandledInbound(w, x);
      after := s.(processed := s.processed + 1);
    }
  }

  method HandleOutbound(s: WorkerState, x: Arrival, router: AutoRouting.AutoRouter,
                        routing: BootstrapSession.BootstrapRouting)
    returns (after: WorkerState)
    requires x.outbound
    modifies router, routing
    ensures var w := World(s, old(router.Model()), old(routing.Model()));
            router.Model() == RouterAfter(w, x) && after == Handled(s, Seen(w, x)) &&
            routing.Model() == BootstrapSession.Run(w.bootstrap, BootstrapCall(w, x))
  {
    hide Tunnels, CacheAfter, ParseFlow, IsRobloxGameServerIp, Sighting, BootstrapAfter, BootstrapCall, RouterAfter;
    hide Handled, Seen, AutoRouting.Lookups.Evaluate, BootstrapSession.Run, DestinationIp, IpAt;
    ghost var w := World(s, router.Model(), routing.Model());
    var env := Env(x.apiTunneling, x.udpTunneling, x.excluded,
      BootstrapSession.Session(routing.active, routing.directOnly, routing.countryBanBypass, routing.lastApplied));
    assert env == w.EnvFor(x);
    LearnCall(w, x);
    EvaluateCall(w, x);
    var tunnel, cache := ShouldRouteToRelay(x.data, s.snapshot, s.cache, env, routing);
    TunneledFrame(x.data, s.snapshot, s.cache, env);
    assert tunnel == w.Relays(x) == s.Decides(x.data, env);
    hide World.Relays, WorkerState.Decides;
    assert routing.Model() == BootstrapSession.Run(w.bootstrap, BootstrapCall(w, x));
    var hold := EvaluateDestination(x, tunnel, router);
    assert router.Model() == RouterAfter(w, x);
    after := s.(processed := s.processed + 1, cache := cache);
    if tunnel && !x.routerBypass {
      after := if hold then after.(held := s.held + 1) else after.(tunneled := s.tunneled + 1);
    } else {
      after := after.(bypassed := s.bypassed + 1);
    }
    HandledOutbound(w, x, tunnel, hold);
  }

  // The two places where the loop evaluates a Roblox destination: for a bypassed packet, and for
  // one about to be relayed, which is held while its lookup is pending.
  method EvaluateDestination(x: Arrival, tunnel: bool, router: AutoRouting.AutoRouter) returns (hold: bool)
    requires tunnel ==> |x.data| >= 38 && DestinationIp(x.data) == IpAt(x.data, IP_START + 16)
    modifies router
    ensures router.RelaySide() == old(router.RelaySide())
    ensures router.LookupSide() ==
            if tunnel && IsRobloxGameServerIp(DestinationIp(x.data))
            then old(router.LookupSide()).Evaluate(x.now, DestinationIp(x.data), x.locks) else old(router.LookupSide())
    ensures hold <==> tunnel && !x.routerBypass && IsRobloxGameServerIp(DestinationIp(x.data)) &&
                      DestinationIp(x.data) in router.LookupSide().pending
  {
    hide IsRobloxGameServerIp, AutoRouting.Lookups.Evaluate, DestinationIp, IpAt;
    var bypass := tunnel && x.routerBypass;
    if bypass && |x.data| >= 14 + 20 {
      var dst := IpAt(x.data, IP_START + 16);
      if IsRobloxGameServerIp(dst) {
        router.EvaluateGameServer(x.now, dst, x.locks);
      }
    }
    if tunnel && !bypass {
      // The worker's check for a frame of at most 14 bytes: a tunneled frame is longer.
      assert |x.data| > 14;
      if |x.data| - 14 >= 20 {
        var dst := IpAt(x.data, IP_START + 16);
        if IsRobloxGameServerIp(dst) {
          router.EvaluateGameServer(x.now, dst, x.locks);
          return dst in router.pendingLookups;
        }
      }
    }
    return false;
  }

  lemma HandledOutbound(w: World, x: Arrival, tunnel: bool, hold: bool)
    requires x.outbound && tunnel == w.worker.Decides(x.data, w.EnvFor(x))
    requires tunnel && !x.routerBypass ==>
      (hold <==> IsRobloxGameServerIp(DestinationIp(x.data)) && DestinationIp(x.data) in RouterAfter(w, x).lookups.pending)
    ensures var s := w.worker;
            var t := s.(processed := s.processed + 1, cache := CacheAfter(x.data, s.snapshot, s.cache, w.EnvFor(x)));
            Handled(s, Seen(w, x)) ==
            if !tunnel || x.routerBypass then t.(bypassed := s.bypassed + 1)
            else if hold then t.(held := s.held + 1) else t.(tunneled := s.tunneled + 1)
  {
    hide RouterAfter, IsRobloxGameServerIp, CacheAfter, ParseFlow;
    TunneledFrame(x.data, w.worker.snapshot, w.worker.cache, w.EnvFor(x));
  }

  lemma NothingShared(w: World, x: Arrival)
    requires !x.outbound
    ensures RouterAfter(w, x) == w.router && BootstrapSession.Run(w.bootstrap, BootstrapCall(w, x)) == w.bootstrap
  {
    hide Sighting, IsRobloxGameServerIp, WorkerState.Decides, DestinationIp, BootstrapSession.Run, AutoRouting.Run;
    hide BootstrapSession.Step, AutoRouting.Step;
    NoSighting(x.data, x.apiTunneling);
    BootstrapSession.RunOne(w.bootstrap, BootstrapSession.Remove);
    AutoRouting.RunOne(w.router, AutoRouting.SetChannel);
  }

  lemma HandledInbound(w: World, x: Arrival)
    requires !x.outbound
    ensures Handled(w.worker, Seen(w, x)) == w.worker.(processed := w.worker.processed + 1)
  {
    hide RouterAfter, CacheAfter;
  }

  lemma NoSighting(data: seq<Byte>, apiTunneling: bool)
    ensures Sighting(data, false, apiTunneling) == None
  {
    hide ParseFlow, TcpPayload;
  }

  lemma LearnRun(s: BootstrapSession.Session, sighting: Option<(string, Ipv4)>)
    ensures BootstrapSession.Run(s, LearnCalls(sighting)) ==
            match sighting
            case None => s
            case Some((name, ip)) => s.Learn(name, ip)
  {
    hide BootstrapSession.Run, BootstrapSession.Session.Learn, BootstrapSession.Session.Apply, BootstrapSession.Session.Merge;
    hide BootstrapSession.Session.Remove, BootstrapSession.Session.EnterCountryBan;
    BootstrapSession.RunOne(s, if sighting.Some? then LearnCalls(sighting)[0] else BootstrapSession.Remove);
  }

  // Learning is the call that the worker makes on the bootstrap sets.
  lemma LearnCall(w: World, x: Arrival)
    ensures BootstrapSession.Run(w.bootstrap, BootstrapCall(w, x)) == BootstrapAfter(x.data, w.Relays(x), w.EnvFor(x))
  {
    hide Sighting, LearnCalls, BootstrapSession.Session.Learn, BootstrapSession.Run, World.Relays;
    LearnRun(w.bootstrap, Sighting(x.data, w.Relays(x), x.apiTunneling));
  }

  lemma EvaluateCall(w: World, x: Arrival)
    ensures RouterAfter(w, x) ==
            if w.Relays(x) && IsRobloxGameServerIp(DestinationIp(x.data))
            then AutoRouting.Router(w.router.lookups.Evaluate(x.now, DestinationIp(x.data), x.locks), w.router.rates)
            else w.router
  {
    hide World.Relays, IsRobloxGameServerIp, DestinationIp, AutoRouting.Run, AutoRouting.Lookups.Evaluate;
    AutoRouting.RunOne(w.router, AutoRouting.Evaluate(x.now, DestinationIp(x.data), x.locks));
  }

  lemma TunneledFrame(data: seq<Byte>, snapshot: ProcessSnapshot, cache: set<FlowKey>, env: Env)
    ensures Tunnels(data, snapshot, cache, env) ==>
      |data| >= 38 && ParseFlow(data).Some? && ParseFlow(data).value.dstIp == DestinationIp(data) == IpAt(data, IP_START + 16)
  {
  }

  // Conservation: every outbound packet is tunneled, bypassed or held, exactly once.
  lemma {:induction false} WorkerConserves(start: WorkerState, packets: seq<Packet>)
    requires forall x :: x in packets ==> x.outbound
    ensures var s := WorkerRun(start, packets);
            s.processed == start.processed + |packets| &&
            s.processed - start.processed ==
              (s.tunneled - start.tunneled) + (s.bypassed - start.bypassed) + (s.held - start.held)
  {
    hide CacheAfter, WorkerState.Decides, IsRobloxGameServerIp;
    if packets != [] {
      WorkerConserves(start, packets[..|packets| - 1]);
    }
  }

  // Packet `i` recognised the source `key` by itself, under snapshot version `version`.
  ghost predicate RecognisedAt(start: WorkerState, packets: seq<Packet>, i: nat, key: FlowKey, version: nat)
    requires i < |packets|
  {
    var s := WorkerRun(start, packets[..i]).Refreshed(packets[i].published);
    s.snapshotVersion == version && s.snapshot.version == version &&
    match ParseFlow(packets[i].data)
    case None => false
    case Some(f) => f.Key() == key && Recognised(f, s.snapshot, packets[i].env)
  }

  lemma {:induction false} VersionInUse(start: WorkerState, packets: seq<Packet>)
    requires start.snapshot.version == start.snapshotVersion
    ensures WorkerRun(start, packets).snapshot.version == WorkerRun(start, packets).snapshotVersion
  {
    hide CacheAfter, WorkerState.Decides, IsRobloxGameServerIp;
    if packets != [] {
      VersionInUse(start, packets[..|packets| - 1]);
    }
  }

  // Main result: in every run, each cached source was recognised by one of its own packets under
  // the snapshot version now in use.
  lemma {:induction false} CachedUnderCurrentVersion(start: WorkerState, packets: seq<Packet>, key: FlowKey)
    requires start.cache == {} && start.snapshot.version == start.snapshotVersion
    requires key in WorkerRun(start, packets).cache
    ensures var version := WorkerRun(start, packets).snapshotVersion;
            exists i :: 0 <= i < |packets| && RecognisedAt(start, packets, i, key, version)
  {
    hide WorkerState.Decides, IsRobloxGameServerIp, ParseFlow, Recognised;
    var n := |packets| - 1;
    var before, x := packets[..n], packets[n];
    var s := WorkerRun(start, before);
    var version := WorkerRun(start, packets).snapshotVersion;
    VersionInUse(start, before);
    if key in s.cache && version == s.snapshotVersion {
      CachedUnderCurrentVersion(start, before, key);
      var i :| 0 <= i < n && RecognisedAt(start, before, i, key, version);
      assert before[..i] == packets[..i];
      assert RecognisedAt(start, packets, i, key, version);
    } else {
      assert key !in s.Refreshed(x.published).cache;
      assert RecognisedAt(start, packets, n, key, version);
    }
  }

  lemma {:induction false} CacheSurvives(s: WorkerState, more: seq<Packet>, key: FlowKey)
    requires key in s.cache
    requires forall i :: 0 <= i <= |more| ==> WorkerRun(s, more[..i]).snapshotVersion == s.snapshotVersion
    ensures key in WorkerRun(s, more).cache
  {
    hide WorkerState.Decides, IsRobloxGameServerIp, ParseFlow, Recognised;
    if more != [] {
      var n := |more| - 1;
      var before := more[..n];
      forall i | 0 <= i <= n
        ensures WorkerRun(s, before[..i]).snapshotVersion == s.snapshotVersion
      {
        assert before[..i] == more[..i];
      }
      assert more[..|more|] == more && more[..n] == before;
      assert WorkerRun(s, more[..n + 1]).snapshotVersion == s.snapshotVersion;
      assert WorkerRun(s, more[..n]).snapshotVersion == s.snapshotVersion;
      CacheSurvives(s, before, key);
    }
  }

  // Main result: from the moment a source is cached until a snapshot of another version is
  // loaded, every packet of that source that passes the gates and is likely game traffic is
  // decided for the tunnel.
  lemma CachedSourceStays(s: WorkerState, more: seq<Packet>, key: FlowKey, x: Packet)
    requires key in s.cache
    requires forall i :: 0 <= i <= |more| ==> WorkerRun(s, more[..i]).snapshotVersion == s.snapshotVersion
    requires WorkerRun(s, more).Refreshed(x.published).snapshotVersion == s.snapshotVersion
    requires ParseFlow(x.data).Some?
    requires var f := ParseFlow(x.data).value; f.Key() == key && PassesGates(f, x.env) && Likely(f, x.env)
    ensures WorkerRun(s, more).Refreshed(x.published).Decides(x.data, x.env)
  {
    hide WorkerRun, IsRobloxGameServerIp, ParseFlow, PassesGates, Likely;
    CacheSurvives(s, more, key);
    assert more[..|more|] == more;
    assert WorkerRun(s, more[..|more|]).snapshotVersion == s.snapshotVersion;
  }

  // With snapshots drawn from one history of publications, it is the very snapshot now in use.
  lemma {:induction false} CachedUnderCurrentSnapshot(start: WorkerState, packets: seq<Packet>, key: FlowKey, published: seq<ProcessSnapshot>)
    requires start.cache == {} && start.snapshot.version == start.snapshotVersion
    requires History(published) && start.snapshot in published && forall x :: x in packets ==> x.published in published
    requires key in WorkerRun(start, packets).cache
    ensures var snapshot := WorkerRun(start, packets).snapshot;
            snapshot.Indexed() && exists i :: 0 <= i < |packets| && RecognisedUnder(start, packets, i, key, snapshot)
  {
    hide WorkerStep, Recognised, ParseFlow, History;
    CachedUnderCurrentVersion(start, packets, key);
    VersionInUse(start, packets);
    SnapshotFromHistory(start, packets, published);
    var snapshot := WorkerRun(start, packets).snapshot;
    var i :| 0 <= i < |packets| && RecognisedAt(start, packets, i, key, snapshot.version);
    assert forall x :: x in packets[..i] ==> x in packets;
    assert packets[i] in packets;
    SnapshotFromHistory(start, packets[..i], published);
    VersionIdentifies(published, WorkerRun(start, packets[..i]).Refreshed(packets[i].published).snapshot, snapshot);
    assert RecognisedUnder(start, packets, i, key, snapshot);
  }

  ghost predicate RecognisedUnder(start: WorkerState, packets: seq<Packet>, i: nat, key: FlowKey, snapshot: ProcessSnapshot)
    requires i < |packets|
  {
    WorkerRun(start, packets[..i]).Refreshed(packets[i].published).snapshot == snapshot &&
    match ParseFlow(packets[i].data)
    case None => false
    case Some(f) => f.Key() == key && Recognised(f, snapshot, packets[i].env)
  }

  lemma {:induction false} SnapshotFromHistory(start: WorkerState, packets: seq<Packet>, published: seq<ProcessSnapshot>)
    requires start.snapshot in published && forall x :: x in packets ==> x.published in published
    ensures WorkerRun(start, packets).snapshot in published
  {
    hide OutcomeOf, CacheAfter;
    if packets != [] {
      SnapshotFromHistory(start, packets[..|packets| - 1], published);
    }
  }

  // ----- Joint runs: what each party sees -----

  function PacketsSeen(w: World, arrivals: seq<Arrival>): (packets: seq<Packet>)
    ensures |packets| == |arrivals|
  {
    hide *;
    if arrivals == [] then []
    else
      var n := |arrivals| - 1;
      PacketsSeen(w, arrivals[..n]) + [Seen(WorldRun(w, arrivals[..n]).At(arrivals[n]), arrivals[n])]
  }

  // Every call made on the router, and every call made on the bootstrap sets, in order.
  function RouterTrace(w: World, arrivals: seq<Arrival>): seq<AutoRouting.Event> {
    hide *;
    if arrivals == [] then []
    else
      var n := |arrivals| - 1;
      var x := arrivals[n];
      RouterTrace(w, arrivals[..n]) + x.routerCalls + RouterCall(WorldRun(w, arrivals[..n]).At(x), x)
  }

  function BootstrapTrace(w: World, arrivals: seq<Arrival>): seq<BootstrapSession.Event> {
    hide *;
    if arrivals == [] then []
    else
      var n := |arrivals| - 1;
      var x := arrivals[n];
      BootstrapTrace(w, arrivals[..n]) + x.bootstrapCalls + BootstrapCall(WorldRun(w, arrivals[..n]).At(x), x)
  }

  // A joint run is a run of each party on its own trace, so the theorems about the router, the
  // bootstrap sets and the worker's bookkeeping hold of it.
  lemma {:induction false} WorkerOfWorld(w: World, arrivals: seq<Arrival>)
    ensures WorldRun(w, arrivals).worker == WorkerRun(w.worker, PacketsSeen(w, arrivals))
  {
    hide WorkerStep, Seen, World.At, RouterAfter, BootstrapCall, AutoRouting.Run, BootstrapSession.Run;
    if arrivals != [] {
      var n := |arrivals| - 1;
      WorkerOfWorld(w, arrivals[..n]);
      assert PacketsSeen(w, arrivals)[..n] == PacketsSeen(w, arrivals[..n]);
    }
  }

  lemma {:induction false} RouterOfWorld(w: World, arrivals: seq<Arrival>)
    ensures WorldRun(w, arrivals).router == AutoRouting.Run(w.router, RouterTrace(w, arrivals))
  {
    hide WorkerStep, Seen, RouterCall, BootstrapCall, AutoRouting.Run;
    if arrivals == [] {
      AutoRouting.RunOne(w.router, AutoRouting.SetChannel);
    } else {
      var n := |arrivals| - 1;
      var before, x := arrivals[..n], arrivals[n];
      RouterOfWorld(w, before);
      AutoRouting.RunAppend(w.router, RouterTrace(w, before), x.routerCalls);
      AutoRouting.RunAppend(w.router, RouterTrace(w, before) + x.routerCalls, RouterCall(WorldRun(w, before).At(x), x));
    }
  }

  lemma {:induction false} BootstrapOfWorld(w: World, arrivals: seq<Arrival>)
    ensures WorldRun(w, arrivals).bootstrap == BootstrapSession.Run(w.bootstrap, BootstrapTrace(w, arrivals))
  {
    hide WorkerStep, Seen, RouterCall, BootstrapCall, RouterAfter, BootstrapSession.Run;
    if arrivals == [] {
      BootstrapSession.RunOne(w.bootstrap, BootstrapSession.Remove);
    } else {
      var n := |arrivals| - 1;
      var before, x := arrivals[..n], arrivals[n];
      BootstrapOfWorld(w, before);
      BootstrapSession.RunAppend(w.bootstrap, BootstrapTrace(w, before), x.bootstrapCalls);
      BootstrapSession.RunAppend(w.bootstrap, BootstrapTrace(w, before) + x.bootstrapCalls, BootstrapCall(WorldRun(w, before).At(x), x));
    }
  }

  // ----- When a packet is held -----

  // A packet is held exactly when it is to be relayed to a Roblox server whose lookup is pending
  // already, or whose evaluation now queues one.
  lemma {:induction false} HeldIff(w: World, x: Arrival)
    ensures var t, dst := w.At(x), DestinationIp(x.data);
            OutcomeIn(w, x).Held? <==>
            t.Relays(x) && !x.routerBypass && IsRobloxGameServerIp(dst) &&
            (dst in t.router.lookups.pending || (x.locks.writePending && t.router.lookups.Queues(x.now, dst, x.locks)))
  {
    var t := w.At(x);
    hide World.At, IsRobloxGameServerIp, AutoRouting.Lookups.Queues, AutoRouting.Lookups.Evaluate, RouterAfter;
    TunneledFrame(x.data, t.worker.snapshot, t.worker.cache, t.EnvFor(x));
    hide Tunnels, ParseFlow;
    EvaluateCall(t, x);
    AutoRouting.EvaluatePending(t.router.lookups, x.now, DestinationIp(x.data), x.locks);
  }

  // The first game packet of a session is held.
  lemma {:induction false} FirstGamePacketIsHeld(w: World, x: Arrival, region: string, created: nat)
    requires w.router == AutoRouting.NewRouter(true, region, created) && x.routerCalls == []
    requires w.At(x).Relays(x) && !x.routerBypass && IsRobloxGameServerIp(DestinationIp(x.data))
    requires x.locks == AutoRouting.Locks(true, true, true)
    ensures OutcomeIn(w, x).Held?
  {
    hide World.Relays, IsRobloxGameServerIp, DestinationIp, OutcomeIn, AutoRouting.Run, AutoRouting.NewRouter, AutoRouting.Lookups.Queues;
    HeldIff(w, x);
    AutoRouting.RunOne(w.router, AutoRouting.SetChannel);
    AutoRouting.FreshRouterQueues(region, created, x.now, DestinationIp(x.data));
  }

  lemma GamePacketRelayed(t: World, x: Arrival)
    requires t.bootstrap == BootstrapSession.FRESH && x.excluded == {}
    requires x.data == TcpFrame(ROBLOX_ADDRESS, [0]) && x.outbound && x.apiTunneling
    ensures t.Relays(x) && DestinationIp(x.data) == ROBLOX_ADDRESS && IsRobloxGameServerIp(ROBLOX_ADDRESS)
  {
    TcpFrameParses(ROBLOX_ADDRESS, [0]);
    hide TcpFrame, ParseFlow, Tunnels, IsRobloxGameServerIp;
    RobloxFrameTunnels(t.worker.snapshot, t.worker.cache, t.EnvFor(x));
  }

  // Such a packet: TCP to 128.116.0.1 under Route Assist, whatever the worker has cached.
  lemma GamePacketIsHeld(w: World, x: Arrival, region: string, created: nat)
    requires w.router == AutoRouting.NewRouter(true, region, created) && w.bootstrap == BootstrapSession.FRESH
    requires x.data == TcpFrame(ROBLOX_ADDRESS, [0]) && x.outbound && x.apiTunneling && !x.routerBypass
    requires x.excluded == {} && x.routerCalls == [] && x.bootstrapCalls == [] && x.locks == AutoRouting.Locks(true, true, true)
    ensures OutcomeIn(w, x).Held?
  {
    hide *;
    BootstrapSession.RunOne(w.bootstrap, BootstrapSession.Remove);
    AtBootstrap(w, x);
    GamePacketRelayed(w.At(x), x);
    FirstGamePacketIsHeld(w, x, region, created);
  }

  lemma AtBootstrap(w: World, x: Arrival)
    ensures w.At(x).bootstrap == BootstrapSession.Run(w.bootstrap, x.bootstrapCalls)
  {
  }

  lemma HeldIsPending(w: World, x: Arrival)
    requires OutcomeIn(w, x).Held?
    ensures DestinationIp(x.data) in WorldStep(w, x).router.lookups.pending && IsRobloxGameServerIp(DestinationIp(x.data))
  {
    hide World.At, IsRobloxGameServerIp, RouterAfter, Tunnels, ParseFlow;
    var t := w.At(x);
    TunneledFrame(x.data, t.worker.snapshot, t.worker.cache, t.EnvFor(x));
    hide WorkerStep, BootstrapCall, BootstrapSession.Run, World.EnvFor;
  }

  // The world after a run and one more packet, and the router that the run's calls make.
  lemma AfterOneMore(w: World, arrivals: seq<Arrival>, x: Arrival)
    ensures WorldRun(w, arrivals + [x]) == WorldStep(WorldRun(w, arrivals), x)
    ensures WorldStep(WorldRun(w, arrivals), x).router == AutoRouting.Run(w.router, RouterTrace(w, arrivals + [x]))
  {
    hide WorldStep, AutoRouting.Run, RouterTrace;
    assert (arrivals + [x])[..|arrivals|] == arrivals;
    RouterOfWorld(w, arrivals + [x]);
  }

  // Main result: over every joint run, a held packet's destination is the only one pending when it
  // is held. So at any moment packets to one destination at most are held, and none while the
  // router is disabled.
  lemma {:induction false} HeldIsTheOnlyPending(w: World, arrivals: seq<Arrival>, x: Arrival, on: bool, region: string, created: nat)
    requires w.router == AutoRouting.NewRouter(on, region, created)
    requires OutcomeIn(WorldRun(w, arrivals), x).Held?
    ensures var r := WorldStep(WorldRun(w, arrivals), x).router.lookups;
            r.pending == {DestinationIp(x.data)} && r.enabled && IsRobloxGameServerIp(DestinationIp(x.data))
  {
    hide AutoRouting.Run, RouterTrace, IsRobloxGameServerIp, OutcomeIn, WorldRun, WorldStep, AutoRouting.QueueOk;
    AfterOneMore(w, arrivals, x);
    AutoRouting.LookupsOkInEveryRun(on, region, created, RouterTrace(w, arrivals + [x]));
    HeldIsPending(WorldRun(w, arrivals), x);
    OnlyOne(WorldStep(WorldRun(w, arrivals), x).router.lookups.pending, DestinationIp(x.data));
  }

  lemma OnlyOne(pending: set<Ipv4>, ip: Ipv4)
    requires ip in pending && |pending| <= 1
    ensures pending == {ip}
  {
    assert pending == {ip} + (pending - {ip}) && |pending - {ip}| == |pending| - 1;
  }

  // A destination that is not pending at some moment of a joint run holds no later packet unless
  // an evaluation has queued it since. `earlier` are the router calls up to that moment.
  lemma {:induction false} HeldOnlyIfQueuedSince(w: World, arrivals: seq<Arrival>, x: Arrival,
                              earlier: seq<AutoRouting.Event>, later: seq<AutoRouting.Event>)
    requires OutcomeIn(WorldRun(w, arrivals), x).Held?
    requires RouterTrace(w, arrivals + [x]) == earlier + later
    requires DestinationIp(x.data) !in AutoRouting.Run(w.router, earlier).lookups.pending
    ensures QueuedIn(AutoRouting.Run(w.router, earlier), later, DestinationIp(x.data))
  {
    hide AutoRouting.Run, AutoRouting.QueuesFor, RouterTrace, OutcomeIn, WorldRun, WorldStep;
    AfterOneMore(w, arrivals, x);
    AutoRouting.RunAppend(w.router, earlier, later);
    HeldIsPending(WorldRun(w, arrivals), x);
    AutoRouting.PendingWasQueued(AutoRouting.Run(w.router, earlier), later, DestinationIp(x.data));
  }

  ghost predicate QueuedIn(r: AutoRouting.Router, calls: seq<AutoRouting.Event>, ip: Ipv4) {
    exists i :: 0 <= i < |calls| && AutoRouting.QueuesFor(AutoRouting.Run(r, calls[..i]).lookups, calls[i], ip)
  }

  // Main result: once a destination's entry is cleared or dropped by the gate, or the router is
  // disabled or reset, no later packet to it is held unless an evaluation queues it again.
  lemma {:induction false} EndedIsNotHeld(w: World, arrivals: seq<Arrival>, x: Arrival,
                       earlier: seq<AutoRouting.Event>, e: AutoRouting.Event, later: seq<AutoRouting.Event>)
    requires RouterTrace(w, arrivals + [x]) == earlier + [e] + later
    requires AutoRouting.Drops(AutoRouting.Run(w.router, earlier).lookups, e, DestinationIp(x.data))
    requires !QueuedIn(AutoRouting.Run(w.router, earlier + [e]), later, DestinationIp(x.data))
    ensures !OutcomeIn(WorldRun(w, arrivals), x).Held?
  {
    hide RouterTrace, OutcomeIn, WorldRun, QueuedIn, AutoRouting.Drops, AutoRouting.StepLookups, AutoRouting.StepRates;
    assert (earlier + [e])[..|earlier + [e]| - 1] == earlier;
    AutoRouting.NotPendingAfter(AutoRouting.Run(w.router, earlier).lookups, e, DestinationIp(x.data));
    if OutcomeIn(WorldRun(w, arrivals), x).Held? {
      HeldOnlyIfQueuedSince(w, arrivals, x, earlier + [e], later);
    }
  }

  // Nor can it be queued again before the seen-set is cleared: until then no packet to a
  // destination whose lookup has ended is held.
  lemma {:induction false} NotHeldUntilSeenCleared(w: World, arrivals: seq<Arrival>, x: Arrival,
                                earlier: seq<AutoRouting.Event>, later: seq<AutoRouting.Event>)
    requires RouterTrace(w, arrivals + [x]) == earlier + later
    requires var r := AutoRouting.Run(w.router, earlier).lookups;
             DestinationIp(x.data) in r.seen && DestinationIp(x.data) !in r.pending &&
             WorldStep(WorldRun(w, arrivals), x).router.lookups.round == r.round
    ensures !OutcomeIn(WorldRun(w, arrivals), x).Held?
  {
    hide AutoRouting.Run, RouterTrace, OutcomeIn, WorldRun, WorldStep;
    AfterOneMore(w, arrivals, x);
    AutoRouting.RunAppend(w.router, earlier, later);
    AutoRouting.DoneUntilCleared(AutoRouting.Run(w.router, earlier), later, DestinationIp(x.data));
    if OutcomeIn(WorldRun(w, arrivals), x).Held? {
      HeldIsPending(WorldRun(w, arrivals), x);
    }
  }

  // ----- The bootstrap sets in a joint run -----

  // Main result: what SNI learning made direct stays direct until pins are applied or removed: no
  // later TCP packet to it is relayed, whatever is cached and whoever else learns or merges.
  // `earlier` are the calls up to the moment it is direct.
  lemma {:induction false} LearnedStaysDirect(w: World, arrivals: seq<Arrival>, x: Arrival,
                           earlier: seq<BootstrapSession.Event>, later: seq<BootstrapSession.Event>)
    requires BootstrapTrace(w, arrivals) + x.bootstrapCalls == earlier + later
    requires DestinationIp(x.data) in BootstrapSession.Run(w.bootstrap, earlier).directOnly
    requires BootstrapSession.OnlyAdds(later)
    requires ParseFlow(x.data).Some? && ParseFlow(x.data).value.protocol.Tcp?
    ensures !WorldRun(w, arrivals).At(x).Relays(x)
  {
    hide BootstrapSession.Run, BootstrapSession.OnlyAdds, BootstrapTrace, ParseFlow, AutoRouting.Run;
    BootstrapOfWorld(w, arrivals);
    BootstrapSession.RunAppend(w.bootstrap, BootstrapTrace(w, arrivals), x.bootstrapCalls);
    BootstrapSession.RunAppend(w.bootstrap, earlier, later);
    BootstrapSession.DirectOnlyGrows(BootstrapSession.Run(w.bootstrap, earlier), later);
    hide WorldRun;
  }

  // Main result: in every joint run whose merges all happen in a country-ban session, learning
  // included, relayed and direct-only addresses are disjoint.
  lemma {:induction false} DisjointInJointRuns(w: World, arrivals: seq<Arrival>)
    requires w.bootstrap == BootstrapSession.FRESH && BootstrapSession.MergesInBanSessions(BootstrapTrace(w, arrivals))
    ensures WorldRun(w, arrivals).bootstrap.Disjoint()
  {
    hide BootstrapTrace, WorldRun, BootstrapSession.Run, BootstrapSession.MergesInBanSessions;
    BootstrapOfWorld(w, arrivals);
    BootstrapSession.DisjointInEveryRun(BootstrapTrace(w, arrivals));
  }
}
