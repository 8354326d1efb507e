// The auto-router (src/vpn/auto_routing.rs) and the gate of its lookup task
// (src/vpn/connection.rs).
//
// Time is in milliseconds and never goes back. Each method is one atomic step. `try_read` and
// `try_write` may fail at any moment: their outcomes are inputs.
module AutoRouting {
  import opened Basics

  const MIN_SWITCH_INTERVAL := 10_000
  const SWITCH_WINDOW := 60_000
  const MAX_SWITCHES_PER_MINUTE := 3
  const GAME_TRAFFIC_QUIET_HANDOFF := 3_000
  const MAX_TRACKED_GAME_TRAFFIC_IPS := 4096
  const GAME_TRAFFIC_UPDATE_GRANULARITY := 250

  // A lookup sent to the lookup task. `round` counts the times the seen-set has been cleared.
  datatype Lookup = Lookup(ip: Ipv4, generation: nat, epoch: nat, round: nat)

  // A successful relay switch, and the start of the rate window it was counted in.
  datatype Switch = Switch(at: int, window: int)

  // Whether the three try-locks of one evaluation succeed.
  datatype Locks = Locks(readSeen: bool, writeSeen: bool, writePending: bool)

  // ----- Specification: the router as a value -----

  // The lookup side. `round` and `queued` are history: no decision reads them.
  datatype Lookups = Lookups(
    enabled: bool,
    seen: set<Ipv4>,
    pending: set<Ipv4>,
    pendingAny: bool,
    epoch: nat,
    activeServer: Option<Ipv4>,
    traffic: map<Ipv4, nat>,
    generation: nat,
    hasChannel: bool,
    round: nat,
    queued: seq<Lookup>)
  {
    function NoteTraffic(now: nat, ip: Ipv4): Lookups {
      if (ip in traffic && now - traffic[ip] < GAME_TRAFFIC_UPDATE_GRANULARITY) ||
         (ip !in traffic && |traffic| >= MAX_TRACKED_GAME_TRAFFIC_IPS)
      then this
      else this.(traffic := traffic[ip := now])
    }

    predicate OthersQuiet(now: nat, ip: Ipv4) {
      forall x :: x in traffic && x != ip ==> now - traffic[x] >= GAME_TRAFFIC_QUIET_HANDOFF
    }

    // The pinned game server has gone quiet.
    predicate PinStale(now: nat) {
      activeServer.Some? &&
      (activeServer.value in traffic ==> now - traffic[activeServer.value] >= GAME_TRAFFIC_QUIET_HANDOFF)
    }

    function ClearSeen(): Lookups {
      this.(seen := {}, round := round + 1)
    }

    function Unpin(): Lookups {
      ClearSeen().(activeServer := None)
    }

    // A lookup for `ip` is sent: marked seen, numbered, and pending if the lock allows.
    function Enqueue(ip: Ipv4, writePending: bool): Lookups {
      var lookup := Lookup(ip, generation + 1, epoch, round);
      var r := this.(seen := seen + {ip}, generation := generation + 1,
                     queued := if hasChannel then queued + [lookup] else queued);
      if writePending then r.(pending := pending + {ip}, pendingAny := true) else r
    }

    // Once the traffic is noted and the gates are passed.
    function Admit(now: nat, ip: Ipv4, locks: Locks): Lookups {
      if ip in seen && !PinStale(now) then this
      else
        var s := if ip in seen then Unpin() else this;
        if locks.writeSeen then s.Enqueue(ip, locks.writePending) else s
    }

    function Evaluate(now: nat, ip: Ipv4, locks: Locks): Lookups {
      var r := NoteTraffic(now, ip);
      if enabled && !pendingAny && r.OthersQuiet(now, ip) && locks.readSeen then r.Admit(now, ip, locks) else r
    }

    // Whether an evaluation sends a lookup.
    predicate Queues(now: nat, ip: Ipv4, locks: Locks) {
      var r := NoteTraffic(now, ip);
      enabled && !pendingAny && r.OthersQuiet(now, ip) && locks.readSeen && locks.writeSeen &&
      (ip !in seen || r.PinStale(now))
    }

    function ClearPending(ip: Ipv4): Lookups {
      this.(pending := pending - {ip}, pendingAny := pendingAny && pending - {ip} != {})
    }

    function SetEnabled(on: bool): Lookups {
      if !on then this.(enabled := false, epoch := epoch + 1, pending := {}, pendingAny := false)
      else if !enabled then ClearSeen().(enabled := true)
      else this
    }

    function Reset(): Lookups {
      Lookups(enabled, {}, {}, false, epoch + 1, None, map[], generation, hasChannel, round + 1, queued)
    }

    predicate CommitAllowed(ip: Ipv4, sessionEpoch: nat) {
      epoch == sessionEpoch && ip in pending
    }

    // The lookup task's gate: what a result of that session may do.
    predicate Passes(ip: Ipv4, sessionEpoch: nat) {
      enabled && CommitAllowed(ip, sessionEpoch)
    }

    function GateResult(ip: Ipv4, sessionEpoch: nat): Lookups {
      if Passes(ip, sessionEpoch) then this else ClearPending(ip)
    }
  }

  // The relay side. `switches` is history.
  datatype Rates = Rates(
    stRegion: string,
    relayAddr: Option<SocketAddr>,
    gameRegion: Option<string>,
    lastSwitch: int,
    windowCount: nat,
    windowStart: int,
    switches: seq<Switch>)
  {
    // The window a switch at `now` falls in.
    function WindowAt(now: nat): (nat, int) {
      if now - windowStart > SWITCH_WINDOW then (0, now) else (windowCount, windowStart)
    }

    predicate SwitchAllowed(now: nat, to: string) {
      stRegion != to && now - lastSwitch >= MIN_SWITCH_INTERVAL && WindowAt(now).0 < MAX_SWITCHES_PER_MINUTE
    }

    function RecordSwitch(now: nat, to: string, addr: SocketAddr, game: string): Rates {
      if !SwitchAllowed(now, to) then this
      else
        Rates(to, Some(addr), Some(game), now, WindowAt(now).0 + 1, WindowAt(now).1,
              switches + [Switch(now, WindowAt(now).1)])
    }
  }

  datatype Router = Router(lookups: Lookups, rates: Rates)

  function NewRouter(enabled: bool, region: string, now: nat): Router {
    Router(Lookups(enabled, {}, {}, false, 0, None, map[], 0, false, 0, []),
           Rates(region, None, None, now - MIN_SWITCH_INTERVAL, 0, now, []))
  }

  // ----- The router of the source -----

  class AutoRouter {
    var enabled: bool
    var currentStRegion: string
    var currentRelayAddr: Option<SocketAddr>
    var currentGameRegion: Option<string>
    var lastSwitchTime: int
    var switchesThisMinute: (nat, int)
    var seenGameServers: set<Ipv4>
    var pendingLookups: set<Ipv4>
    var pendingAny: bool
    var autoRoutingBypassed: bool
    var lookupSessionEpoch: nat
    var activeGameServerIp: Option<Ipv4>
    var gameTraffic: map<Ipv4, nat>
    var latestLookupGeneration: nat
    var hasLookupSender: bool
    ghost var round: nat
    ghost var queued: seq<Lookup>
    ghost var switches: seq<Switch>

    ghost function LookupSide(): Lookups
      reads this
    {
      Lookups(enabled, seenGameServers, pendingLookups, pendingAny, lookupSessionEpoch, activeGameServerIp, gameTraffic,
              latestLookupGeneration, hasLookupSender, round, queued)
    }

    ghost function RelaySide(): Rates
      reads this
    {
      Rates(currentStRegion, currentRelayAddr, currentGameRegion, lastSwitchTime, switchesThisMinute.0,
            switchesThisMinute.1, switches)
    }

    ghost function Model(): Router
      reads this
    {
      Router(LookupSide(), RelaySide())
    }

    constructor (on: bool, region: string, now: nat)
      ensures Model() == NewRouter(on, region, now)
    {
      enabled, currentStRegion, currentRelayAddr, currentGameRegion := on, region, None, None;
      lastSwitchTime, switchesThisMinute := now - MIN_SWITCH_INTERVAL, (0, now);
      seenGameServers, pendingLookups, pendingAny := {}, {}, false;
      autoRoutingBypassed, lookupSessionEpoch, activeGameServerIp, gameTraffic := false, 0, None, map[];
      latestLookupGeneration, hasLookupSender := 0, false;
      round, queued, switches := 0, [], [];
    }

    method SetLookupChannel()
      modifies this`hasLookupSender
      ensures LookupSide() == old(LookupSide()).(hasChannel := true)
    {
      hasLookupSender := true;
    }

    method SetEnabled(on: bool)
      modifies this`enabled, this`lookupSessionEpoch, this`pendingLookups, this`pendingAny, this`seenGameServers, this`round
      ensures LookupSide() == old(LookupSide()).SetEnabled(on)
      ensures enabled == on
      ensures if on then lookupSessionEpoch == old(lookupSessionEpoch) && pendingLookups == old(pendingLookups)
              else lookupSessionEpoch == old(lookupSessionEpoch) + 1 && pendingLookups == {} && !pendingAny
      ensures seenGameServers == if on && !old(enabled) then {} else old(seenGameServers)
    {
      var wasEnabled := enabled;
      enabled := on;
      if !on {
        lookupSessionEpoch := lookupSessionEpoch + 1;
        pendingLookups := {};
        pendingAny := false;
      } else if !wasEnabled {
        seenGameServers := {};
        round := round + 1;
      }
    }

    method NoteGameTraffic(now: nat, ip: Ipv4)
      modifies this`gameTraffic
      ensures LookupSide() == old(LookupSide()).NoteTraffic(now, ip)
      ensures var before := old(gameTraffic);
              gameTraffic == if (ip in before && now - before[ip] < 250) || (ip !in before && |before| >= 4096) then before
                             else before[ip := now]
    {
      var needsUpdate := ip !in gameTraffic || now - gameTraffic[ip] >= GAME_TRAFFIC_UPDATE_GRANULARITY;
      if needsUpdate {
        if |gameTraffic| >= MAX_TRACKED_GAME_TRAFFIC_IPS && ip !in gameTraffic {
          return;
        }
        gameTraffic := gameTraffic[ip := now];
      }
    }

    method PinActiveGameServer(ip: Ipv4)
      modifies this`activeGameServerIp
      ensures LookupSide() == old(LookupSide()).(activeServer := Some(ip))
    {
      activeGameServerIp := Some(ip);
    }

    method MaybeExpireQuietPin(now: nat) returns (expired: bool)
      modifies this`activeGameServerIp, this`seenGameServers, this`round
      ensures expired == old(LookupSide()).PinStale(now)
      ensures var pin := old(activeGameServerIp);
              expired == (pin.Some? && (pin.value in gameTraffic ==> now - gameTraffic[pin.value] >= 3000))
      ensures LookupSide() == if expired then old(LookupSide()).Unpin() else old(LookupSide())
    {
      if activeGameServerIp.None? {
        return false;
      }
      var active := activeGameServerIp.value;
      if active in gameTraffic && now - gameTraffic[active] < GAME_TRAFFIC_QUIET_HANDOFF {
        return false;
      }
      activeGameServerIp := None;
      seenGameServers := {};
      round := round + 1;
      return true;
    }

    method EvaluateGameServer(now: nat, ip: Ipv4, locks: Locks)
      modifies this`gameTraffic, this`activeGameServerIp, this`seenGameServers, this`round,
               this`latestLookupGeneration, this`pendingLookups, this`pendingAny, this`queued
      ensures LookupSide() == old(LookupSide()).Evaluate(now, ip, locks)
    {
      NoteGameTraffic(now, ip);
      hide Lookups.NoteTraffic, Lookups.PinStale, Lookups.Unpin, Lookups.Enqueue;
      if !enabled {
        return;
      }
      if pendingAny {
        return;
      }
      if exists x :: x in gameTraffic && x != ip && now - gameTraffic[x] < GAME_TRAFFIC_QUIET_HANDOFF {
        return;
      }
      assert LookupSide().OthersQuiet(now, ip);
      if !locks.readSeen {
        return;
      }
      if ip in seenGameServers {
        var expired := MaybeExpireQuietPin(now);
        if !expired {
          return;
        }
      }
      if !locks.writeSeen {
        return;
      }
      SendLookup(ip, locks.writePending);
    }

    // The end of the source's `evaluate_game_server`.
    method SendLookup(ip: Ipv4, writePending: bool)
      modifies this`seenGameServers, this`latestLookupGeneration, this`pendingLookups, this`pendingAny, this`queued
      ensures LookupSide() == old(LookupSide()).Enqueue(ip, writePending)
    {
      seenGameServers := seenGameServers + {ip};
      var sessionEpoch := lookupSessionEpoch;
      var generation := latestLookupGeneration + 1;
      latestLookupGeneration := generation;
      if writePending {
        pendingLookups := pendingLookups + {ip};
        pendingAny := true;
      }
      if hasLookupSender {
        queued := queued + [Lookup(ip, generation, sessionEpoch, round)];
      }
    }

    method ClearPendingLookup(ip: Ipv4)
      modifies this`pendingLookups, this`pendingAny
      ensures LookupSide() == old(LookupSide()).ClearPending(ip)
      ensures pendingLookups == old(pendingLookups) - {ip} && (pendingAny <==> old(pendingAny) && pendingLookups != {})
    {
      pendingLookups := pendingLookups - {ip};
      if pendingLookups == {} {
        pendingAny := false;
      }
    }

    // The lookup task's gate after a lookup has returned: a dropped result clears its pending entry.
    method GateLookupResult(ip: Ipv4, sessionEpoch: nat) returns (proceed: bool)
      modifies this`pendingLookups, this`pendingAny
      ensures proceed == old(LookupSide()).Passes(ip, sessionEpoch)
      ensures LookupSide() == old(LookupSide()).GateResult(ip, sessionEpoch)
      ensures proceed <==> old(enabled) && old(lookupSessionEpoch) == sessionEpoch && ip in old(pendingLookups)
      ensures pendingLookups == if proceed then old(pendingLookups) else old(pendingLookups) - {ip}
    {
      if !enabled {
        ClearPendingLookup(ip);
        return false;
      }
      if !(lookupSessionEpoch == sessionEpoch && ip in pendingLookups) {
        ClearPendingLookup(ip);
        return false;
      }
      return true;
    }

    method CommitSwitch(now: nat, to: string, addr: SocketAddr, game: string) returns (switched: bool)
      modifies this`switchesThisMinute, this`lastSwitchTime, this`currentStRegion, this`currentRelayAddr,
               this`currentGameRegion, this`switches
      ensures switched == old(RelaySide()).SwitchAllowed(now, to)
      ensures RelaySide() == old(RelaySide()).RecordSwitch(now, to, addr, game)
      ensures switched <==> old(currentStRegion) != to && now - old(lastSwitchTime) >= 10_000 &&
                            (now - old(switchesThisMinute).1 > 60_000 || old(switchesThisMinute).0 < 3)
      ensures switched ==> currentStRegion == to && currentRelayAddr == Some(addr) && currentGameRegion == Some(game) && lastSwitchTime == now
    {
      if currentStRegion == to {
        return false;
      }
      if now - lastSwitchTime < MIN_SWITCH_INTERVAL {
        return false;
      }
      var window := switchesThisMinute;
      if now - window.1 > SWITCH_WINDOW {
        window := (0, now);
      }
      if window.0 >= MAX_SWITCHES_PER_MINUTE {
        return false;
      }
      switchesThisMinute := (window.0 + 1, window.1);
      lastSwitchTime := now;
      currentStRegion := to;
      currentRelayAddr := Some(addr);
      currentGameRegion := Some(game);
      switches := switches + [Switch(now, window.1)];
      return true;
    }

    method SetCurrentRelay(addr: SocketAddr, region: string)
      modifies this`currentRelayAddr, this`currentStRegion
      ensures RelaySide() == old(RelaySide()).(relayAddr := Some(addr), stRegion := region)
    {
      currentRelayAddr := Some(addr);
      currentStRegion := region;
    }

    method Reset()
      modifies this
      ensures LookupSide() == old(LookupSide()).Reset()
      ensures RelaySide() == old(RelaySide()).(gameRegion := None, relayAddr := None)
      ensures !autoRoutingBypassed && seenGameServers == pendingLookups == {} && gameTraffic == map[] && activeGameServerIp == None
      ensures lookupSessionEpoch == old(lookupSessionEpoch) + 1 && enabled == old(enabled)
    {
      currentGameRegion := None;
      currentRelayAddr := None;
      ResetLookups();
      autoRoutingBypassed := false;
    }

    method ResetLookups()
      modifies this`activeGameServerIp, this`seenGameServers, this`round, this`pendingLookups, this`pendingAny,
               this`gameTraffic, this`lookupSessionEpoch
      ensures LookupSide() == old(LookupSide()).Reset()
    {
      activeGameServerIp := None;
      seenGameServers, round := {}, round + 1;
      pendingLookups := {};
      pendingAny := false;
      gameTraffic := map[];
      lookupSessionEpoch := lookupSessionEpoch + 1;
    }

    // Any sequence of calls computes the run of their events.
    method Drive(events: seq<Event>)
      modifies this
      ensures Model() == Run(old(Model()), events)
    {
      for i := 0 to |events|
        invariant Model() == Run(old(Model()), events[..i])
      {
        assert events[..i + 1][..i] == events[..i];
        Call(events[i]);
      }
      assert events[..|events|] == events;
    }

    method Call(e: Event)
      modifies this
      ensures Model() == Step(old(Model()), e)
    {
      hide Lookups.SetEnabled, Lookups.Evaluate, Lookups.ClearPending, Lookups.GateResult, Lookups.Reset, Rates.RecordSwitch;
      match e {
        case SetChannel => SetLookupChannel();
        case Enable(on) => SetEnabled(on);
        case Pin(ip) => PinActiveGameServer(ip);
        case Evaluate(now, ip, locks) => EvaluateGameServer(now, ip, locks);
        case Clear(ip) => ClearPendingLookup(ip);
        case Result(ip, epoch) => var proceed := GateLookupResult(ip, epoch);
        case SetRelay(addr, region) => SetCurrentRelay(addr, region);
        case Commit(now, to, addr, game) => var switched := CommitSwitch(now, to, addr, game);
        case Reset => Reset();
      }
    }
  }

  // ----- Every run -----

  // One call by any thread. `Result` is a lookup result reaching the gate.
  datatype Event =
    | SetChannel
    | Enable(on: bool)
    | Pin(ip: Ipv4)
    | Evaluate(now: nat, ip: Ipv4, locks: Locks)
    | Clear(ip: Ipv4)
    | Result(ip: Ipv4, epoch: nat)
    | SetRelay(addr: SocketAddr, region: string)
    | Commit(now: nat, to: string, addr: SocketAddr, game: string)
    | Reset

  function StepLookups(r: Lookups, e: Event): Lookups {
    match e
    case SetChannel => r.(hasChannel := true)
    case Enable(on) => r.SetEnabled(on)
    case Pin(ip) => r.(activeServer := Some(ip))
    case Evaluate(now, ip, locks) => r.Evaluate(now, ip, locks)
    case Clear(ip) => r.ClearPending(ip)
    case Result(ip, epoch) => r.GateResult(ip, epoch)
    case Reset => r.Reset()
    case _ => r
  }

  function StepRates(r: Rates, e: Event): Rates {
    match e
    case SetRelay(addr, region) => r.(relayAddr := Some(addr), stRegion := region)
    case Commit(now, to, addr, game) => r.RecordSwitch(now, to, addr, game)
    case Reset => r.(gameRegion := None, relayAddr := None)
    case _ => r
  }

  function Step(r: Router, e: Event): Router {
    Router(StepLookups(r.lookups, e), StepRates(r.rates, e))
  }

  function Run(r: Router, events: seq<Event>): Router {
    if events == [] then r else Step(Run(r, events[..|events| - 1]), events[|events| - 1])
  }

  // ----- Lookups -----

  // The flag is the emptiness of the pending set, which never holds two; what is pending has
  // been seen, and nothing is pending while the router is disabled.
  ghost predicate PendingOk(r: Lookups) {
    (r.pendingAny <==> r.pending != {}) && |r.pending| <= 1 && r.pending <= r.seen &&
    (!r.enabled ==> r.pending == {})
  }

  // Generations strictly increase along the queue, epochs never decrease, and between two
  // clears of the seen-set an IP is queued at most once.
  ghost predicate QueueOk(r: Lookups) {
    (forall i, j :: 0 <= i < j < |r.queued| ==>
      r.queued[i].generation < r.queued[j].generation && r.queued[i].epoch <= r.queued[j].epoch &&
      (r.queued[i].round == r.queued[j].round ==> r.queued[i].ip != r.queued[j].ip)) &&
    (forall i :: 0 <= i < |r.queued| ==>
      r.queued[i].generation <= r.generation && r.queued[i].epoch <= r.epoch && r.queued[i].round <= r.round &&
      (r.queued[i].round == r.round ==> r.queued[i].ip in r.seen))
  }

  ghost predicate LookupsOk(r: Lookups) {
    PendingOk(r) && QueueOk(r)
  }

  lemma EnqueueKeepsLookups(r: Lookups, ip: Ipv4, writePending: bool)
    requires LookupsOk(r) && r.enabled && !r.pendingAny && ip !in r.seen
    ensures LookupsOk(r.Enqueue(ip, writePending))
  {
    assert r.pending + {ip} == {ip};
    var q, t := r.queued, r.Enqueue(ip, writePending);
    assert PendingOk(t);
    hide PendingOk;
    assert forall i :: 0 <= i < |q| ==> t.queued[i] == q[i];
    assert t.queued == q || (t.queued == q + [t.queued[|q|]] && t.queued[|q|].ip == ip);
  }

  lemma NoteKeepsLookups(r: Lookups, now: nat, ip: Ipv4)
    requires LookupsOk(r)
    ensures LookupsOk(r.NoteTraffic(now, ip))
  {
  }

  lemma UnpinKeepsLookups(r: Lookups)
    requires LookupsOk(r) && r.pending == {}
    ensures LookupsOk(r.Unpin())
  {
  }

  lemma EvaluateKeepsLookups(r: Lookups, now: nat, ip: Ipv4, locks: Locks)
    requires LookupsOk(r)
    ensures LookupsOk(r.Evaluate(now, ip, locks))
  {
    hide QueueOk, Lookups.OthersQuiet, Lookups.PinStale, Lookups.Enqueue;
    var noted := r.NoteTraffic(now, ip);
    NoteKeepsLookups(r, now, ip);
    if r.enabled && !r.pendingAny {
      UnpinKeepsLookups(noted);
      EnqueueKeepsLookups(if ip in r.seen then noted.Unpin() else noted, ip, locks.writePending);
    }
  }

  lemma ClearPendingKeepsLookups(r: Lookups, ip: Ipv4)
    requires LookupsOk(r)
    ensures LookupsOk(r.ClearPending(ip))
  {
    if ip in r.pending {
      assert r.pending == {ip} + (r.pending - {ip}) && |r.pending - {ip}| == |r.pending| - 1;
    } else {
      assert r.pending - {ip} == r.pending;
    }
  }

  lemma StepKeepsLookups(r: Lookups, e: Event)
    requires LookupsOk(r)
    ensures LookupsOk(StepLookups(r, e))
  {
    hide Lookups.Evaluate, Lookups.ClearPending, Lookups.Passes;
    match e
    case Evaluate(now, ip, locks) => EvaluateKeepsLookups(r, now, ip, locks);
    case Clear(ip) => ClearPendingKeepsLookups(r, ip);
    case Result(ip, epoch) => ClearPendingKeepsLookups(r, ip);
    case _ =>
  }

  lemma {:induction false} RunKeepsLookups(r: Router, events: seq<Event>)
    requires LookupsOk(r.lookups)
    ensures LookupsOk(Run(r, events).lookups)
  {
    hide StepLookups, StepRates, LookupsOk;
    if events != [] {
      RunKeepsLookups(r, events[..|events| - 1]);
      StepKeepsLookups(Run(r, events[..|events| - 1]).lookups, events[|events| - 1]);
    }
  }

  // Main result: in every run at most one lookup is pending, and none while disabled; the flag
  // tells whether; each IP is queued at most once per clearing of the seen-set, and generations
  // strictly increase.
  lemma {:induction false} LookupsOkInEveryRun(on: bool, region: string, now: nat, events: seq<Event>)
    ensures LookupsOk(Run(NewRouter(on, region, now), events).lookups)
  {
    RunKeepsLookups(NewRouter(on, region, now), events);
  }

  lemma EpochStep(r: Lookups, e: Event)
    ensures StepLookups(r, e).epoch >= r.epoch
    ensures e == Enable(false) || e == Reset ==> StepLookups(r, e).epoch > r.epoch
  {
    hide Lookups.Evaluate, Lookups.Passes;
    if e.Evaluate? {
      EvaluateKeepsEpoch(r, e.now, e.ip, e.locks);
    }
  }

  lemma EvaluateKeepsEpoch(r: Lookups, now: nat, ip: Ipv4, locks: Locks)
    ensures r.Evaluate(now, ip, locks).epoch == r.epoch
  {
    hide Lookups.PinStale, Lookups.OthersQuiet;
  }

  lemma {:induction false} EpochNeverDecreases(r: Router, events: seq<Event>)
    ensures Run(r, events).lookups.epoch >= r.lookups.epoch
  {
    hide StepLookups, StepRates;
    if events != [] {
      EpochNeverDecreases(r, events[..|events| - 1]);
      EpochStep(Run(r, events[..|events| - 1]).lookups, events[|events| - 1]);
    }
  }

  // Main result: a lookup sent before a disable or reset never passes the commit gate
  // afterwards, not even when its IP is pending again in the new session.
  lemma {:induction false} StaleLookupNeverCommits(on: bool, region: string, now: nat, events: seq<Event>, i: nat, e: Event, more: seq<Event>)
    requires i < |Run(NewRouter(on, region, now), events).lookups.queued|
    requires e == Enable(false) || e == Reset
    ensures var r := Run(NewRouter(on, region, now), events);
            !Run(Step(r, e), more).lookups.CommitAllowed(r.lookups.queued[i].ip, r.lookups.queued[i].epoch)
  {
    hide Run, StepLookups, StepRates;
    var r := Run(NewRouter(on, region, now), events);
    LookupsOkInEveryRun(on, region, now, events);
    EpochStep(r.lookups, e);
    EpochNeverDecreases(Step(r, e), more);
  }

  // From `r` to `t` the seen-set has been cleared, or the lookup for `ip` stays done with.
  ghost predicate StaysDone(r: Lookups, t: Lookups, ip: Ipv4) {
    t.round >= r.round &&
    (ip in r.seen && ip !in r.pending && t.round == r.round ==> ip in t.seen && ip !in t.pending)
  }

  lemma EvaluateStaysDone(r: Lookups, now: nat, other: Ipv4, locks: Locks, ip: Ipv4)
    ensures StaysDone(r, r.Evaluate(now, other, locks), ip)
  {
    var noted := r.NoteTraffic(now, other);
    assert noted.seen == r.seen && noted.pending == r.pending && noted.round == r.round;
    hide Lookups.NoteTraffic, Lookups.PinStale, Lookups.OthersQuiet;
  }

  lemma StepStaysDone(r: Lookups, e: Event, ip: Ipv4)
    ensures StaysDone(r, StepLookups(r, e), ip)
  {
    hide Lookups.Evaluate;
    if e.Evaluate? {
      hide StaysDone;
      EvaluateStaysDone(r, e.now, e.ip, e.locks, ip);
    }
  }

  lemma {:induction false} DoneUntilCleared(r: Router, events: seq<Event>, ip: Ipv4)
    ensures StaysDone(r.lookups, Run(r, events).lookups, ip)
  {
    hide StepLookups, StepRates;
    if events != [] {
      DoneUntilCleared(r, events[..|events| - 1], ip);
      StepStaysDone(Run(r, events[..|events| - 1]).lookups, events[|events| - 1], ip);
    }
  }

  lemma RunOne(r: Router, e: Event)
    ensures Run(r, []) == r && Run(r, [e]) == Step(r, e)
  {
    hide Step;
    assert [e][..0] == [];
  }

  lemma {:induction false} RunAppend(r: Router, a: seq<Event>, b: seq<Event>)
    ensures Run(r, a + b) == Run(Run(r, a), b)
  {
    hide Step;
    if b == [] {
      assert a + b == a;
    } else {
      var n := |b| - 1;
      RunAppend(r, a, b[..n]);
      assert (a + b)[..|a + b| - 1] == a + b[..n];
    }
  }

  // ----- When a destination becomes pending -----

  lemma EvaluatePending(r: Lookups, now: nat, ip: Ipv4, locks: Locks)
    ensures r.Evaluate(now, ip, locks).pending ==
            if r.Queues(now, ip, locks) && locks.writePending then r.pending + {ip} else r.pending
  {
    hide Lookups.PinStale, Lookups.OthersQuiet;
  }

  // What an evaluation does to the traffic, and when it sends a lookup.
  lemma EvaluateSends(r: Lookups, now: nat, ip: Ipv4, locks: Locks)
    ensures var t := r.Evaluate(now, ip, locks);
            t.traffic == r.NoteTraffic(now, ip).traffic &&
            if r.Queues(now, ip, locks) then
              t.generation == r.generation + 1 && ip in t.seen && (locks.writePending ==> ip in t.pending) &&
              t.queued == (if r.hasChannel then r.queued + [Lookup(ip, t.generation, r.epoch, t.round)] else r.queued) &&
              (ip in r.seen ==> t.seen == {ip} && t.activeServer == None)
            else t.generation == r.generation && t.queued == r.queued && t.pending == r.pending
  {
    var noted := r.NoteTraffic(now, ip);
    NoteChangesTraffic(r, now, ip);
    hide Lookups.NoteTraffic, Lookups.PinStale, Lookups.OthersQuiet, Lookups.Enqueue, Lookups.Unpin;
    UnpinMeans(noted);
    EnqueueMeans(if ip in r.seen then noted.Unpin() else noted, ip, locks.writePending);
  }

  lemma NoteChangesTraffic(r: Lookups, now: nat, ip: Ipv4)
    ensures r.NoteTraffic(now, ip) == r.(traffic := r.NoteTraffic(now, ip).traffic)
  {
  }

  lemma UnpinMeans(r: Lookups)
    ensures r.Unpin() == r.(seen := {}, round := r.round + 1, activeServer := None)
  {
  }

  lemma EnqueueMeans(r: Lookups, ip: Ipv4, writePending: bool)
    ensures r.Enqueue(ip, writePending) ==
            r.(seen := r.seen + {ip}, generation := r.generation + 1,
               queued := if r.hasChannel then r.queued + [Lookup(ip, r.generation + 1, r.epoch, r.round)] else r.queued,
               pending := if writePending then r.pending + {ip} else r.pending,
               pendingAny := writePending || r.pendingAny)
  {
  }

  // A fresh enabled router queues the first server it sees.
  lemma FreshRouterQueues(region: string, created: nat, now: nat, ip: Ipv4)
    ensures NewRouter(true, region, created).lookups.Queues(now, ip, Locks(true, true, true))
  {
  }

  // The event is an evaluation of `ip` that makes it pending.
  ghost predicate QueuesFor(r: Lookups, e: Event, ip: Ipv4) {
    e.Evaluate? && e.ip == ip && e.locks.writePending && r.Queues(e.now, ip, e.locks)
  }

  lemma StepPending(r: Lookups, e: Event, ip: Ipv4)
    requires ip !in r.pending && ip in StepLookups(r, e).pending
    ensures QueuesFor(r, e, ip)
  {
    hide Lookups.Evaluate, Lookups.Queues;
    if e.Evaluate? {
      EvaluatePending(r, e.now, e.ip, e.locks);
    }
  }

  // An IP that was not pending and now is has been queued in between.
  lemma {:induction false} PendingWasQueued(r: Router, events: seq<Event>, ip: Ipv4)
    requires ip !in r.lookups.pending && ip in Run(r, events).lookups.pending
    ensures exists i :: 0 <= i < |events| && QueuesFor(Run(r, events[..i]).lookups, events[i], ip)
  {
    hide StepLookups, StepRates, QueuesFor;
    var n := |events| - 1;
    var before := events[..n];
    if ip in Run(r, before).lookups.pending {
      PendingWasQueued(r, before, ip);
      var i :| 0 <= i < n && QueuesFor(Run(r, before[..i]).lookups, before[i], ip);
      assert before[..i] == events[..i] && before[i] == events[i];
    } else {
      StepPending(Run(r, before).lookups, events[n], ip);
    }
  }

  // A clear, a disable, a reset and a result dropped by the gate each leave the IP not pending.
  ghost predicate Drops(r: Lookups, e: Event, ip: Ipv4) {
    e == Clear(ip) || e == Enable(false) || e == Event.Reset || (e.Result? && e.ip == ip && !r.Passes(ip, e.epoch))
  }

  lemma NotPendingAfter(r: Lookups, e: Event, ip: Ipv4)
    requires Drops(r, e, ip)
    ensures ip !in StepLookups(r, e).pending
  {
  }

  // What ends a lookup for `ip` of session `epoch`: its entry is cleared, the session ends, or a
  // result of another session for the same IP reaches the gate.
  predicate Ends(e: Event, ip: Ipv4, epoch: nat) {
    e == Clear(ip) || e == Enable(false) || e == Reset || (e.Result? && e.ip == ip && e.epoch != epoch)
  }

  // `t` follows `r`, where a lookup for `ip` was pending: it still is, or it is lost.
  ghost predicate Live(r: Lookups, t: Lookups, ip: Ipv4) {
    t.enabled && ip in t.pending && t.epoch == r.epoch && t.round == r.round
  }

  ghost predicate Lost(r: Lookups, t: Lookups, ip: Ipv4) {
    t.epoch > r.epoch || t.round > r.round || (ip in t.seen && ip !in t.pending)
  }

  lemma LiveStep(r: Lookups, t: Lookups, e: Event, ip: Ipv4)
    requires PendingOk(t) && Live(r, t, ip)
    ensures if Ends(e, ip, r.epoch) then Lost(r, StepLookups(t, e), ip) else Live(r, StepLookups(t, e), ip)
  {
    hide Lookups.OthersQuiet, Lookups.Admit;
  }

  lemma LostStep(r: Lookups, t: Lookups, e: Event, ip: Ipv4)
    requires Lost(r, t, ip) && t.round >= r.round
    ensures Lost(r, StepLookups(t, e), ip)
  {
    hide StepLookups;
    EpochStep(t, e);
    StepStaysDone(t, e, ip);
  }

  lemma {:induction false} LiveOrLost(r: Router, events: seq<Event>, ip: Ipv4)
    requires LookupsOk(r.lookups) && r.lookups.enabled && ip in r.lookups.pending
    ensures var t := Run(r, events).lookups;
            if exists e :: e in events && Ends(e, ip, r.lookups.epoch) then Lost(r.lookups, t, ip) else Live(r.lookups, t, ip)
  {
    hide StepLookups, StepRates, Ends, Lost, Live, StaysDone, QueueOk;
    if events == [] {
      LiveAtFirst(r.lookups, ip);
    } else {
      var n := |events| - 1;
      var before, e, t := events[..n], events[n], Run(r, events[..n]).lookups;
      assert forall x :: x in events <==> x in before || x == e;
      LiveOrLost(r, before, ip);
      RunKeepsLookups(r, before);
      if exists x :: x in before && Ends(x, ip, r.lookups.epoch) {
        RoundNeverDecreases(r, before, ip);
        LostStep(r.lookups, t, e, ip);
      } else {
        LiveStep(r.lookups, t, e, ip);
      }
    }
  }

  lemma LiveAtFirst(r: Lookups, ip: Ipv4)
    requires r.enabled && ip in r.pending
    ensures Live(r, r, ip)
  {
  }

  lemma RoundNeverDecreases(r: Router, events: seq<Event>, ip: Ipv4)
    ensures Run(r, events).lookups.round >= r.lookups.round
  {
    hide Run;
    DoneUntilCleared(r, events, ip);
  }

  // Main result: when a live lookup gets through. In every run from a state where it is pending,
  // its result passes the gate, before the seen-set is cleared, exactly when nothing has ended it.
  lemma LiveLookupPassesIff(on: bool, region: string, now: nat, before: seq<Event>, ip: Ipv4, events: seq<Event>)
    requires ip in Run(NewRouter(on, region, now), before).lookups.pending
    ensures var r := Run(NewRouter(on, region, now), before);
            var t := Run(r, events).lookups;
            t.Passes(ip, r.lookups.epoch) && t.round == r.lookups.round <==>
            forall e :: e in events ==> !Ends(e, ip, r.lookups.epoch)
  {
    hide Run, Ends, QueueOk;
    LookupsOkInEveryRun(on, region, now, before);
    LiveOrLost(Run(NewRouter(on, region, now), before), events, ip);
  }

  // The price of the gate: when a stale result is dropped while a live lookup for the same IP is
  // pending, the live one is lost too, until the seen-set is cleared.
  lemma StaleResultDropsLiveLookup(on: bool, region: string, now: nat, before: seq<Event>,
                                   stale: Lookup, live: Lookup, more: seq<Event>)
    requires var r := Run(NewRouter(on, region, now), before).lookups;
             stale in r.queued && live in r.queued && stale.ip == live.ip && live.ip in r.pending &&
             live.epoch == r.epoch && stale.epoch != r.epoch
    ensures var r := Run(NewRouter(on, region, now), before);
            var t := Run(r, [Result(stale.ip, stale.epoch)] + more).lookups;
            r.lookups.Passes(live.ip, live.epoch) && !r.lookups.Passes(stale.ip, stale.epoch) &&
            (t.round == r.lookups.round ==> !t.Passes(live.ip, live.epoch))
  {
    var r := Run(NewRouter(on, region, now), before);
    var events := [Result(stale.ip, stale.epoch)] + more;
    assert events[0] in events && Ends(events[0], live.ip, r.lookups.epoch);
    hide Run, Ends, QueueOk;
    LookupsOkInEveryRun(on, region, now, before);
    LiveLookupPassesIff(on, region, now, before, live.ip, events);
  }

  // A lookup is sent, the router is reset, and the same server is looked up again.
  function QueueTwice(ip: Ipv4): seq<Event> {
    var all := Locks(true, true, true);
    [SetChannel, Evaluate(0, ip, all), Event.Reset, Evaluate(1, ip, all)]
  }

  lemma QueuedTwice(ip: Ipv4)
    ensures Run(NewRouter(true, "", 0), QueueTwice(ip)).lookups ==
            Lookups(true, {ip}, {ip}, true, 1, None, map[ip := 1], 2, true, 1, [Lookup(ip, 1, 0, 0), Lookup(ip, 2, 1, 1)])
  {
    var all := Locks(true, true, true);
    var r0 := NewRouter(true, "", 0);
    FourSteps(r0, SetChannel, Evaluate(0, ip, all), Event.Reset, Evaluate(1, ip, all));
    hide Lookups.Evaluate, Run;
    var r1 := r0.lookups.(hasChannel := true);
    FirstLookup(r1, 0, ip, all);
    FirstLookup(r1.Evaluate(0, ip, all).Reset(), 1, ip, all);
  }

  lemma FourSteps(r: Router, a: Event, b: Event, c: Event, d: Event)
    ensures Run(r, [a, b, c, d]).lookups == StepLookups(StepLookups(StepLookups(StepLookups(r.lookups, a), b), c), d)
  {
    hide Run, StepLookups, StepRates;
    var events := [a, b, c, d];
    RunStep(r, events, 0);
    RunStep(r, events, 1);
    RunStep(r, events, 2);
    RunStep(r, events, 3);
    assert events[..4] == events;
  }

  // The first result then takes the second lookup with it.
  lemma StaleResultWitness(ip: Ipv4)
    ensures var r := Run(NewRouter(true, "", 0), QueueTwice(ip)).lookups;
            var t := Run(NewRouter(true, "", 0), QueueTwice(ip) + [Result(ip, 0)]).lookups;
            r.queued == [Lookup(ip, 1, 0, 0), Lookup(ip, 2, 1, 1)] && r.Passes(ip, 1) && !r.Passes(ip, 0) &&
            t.round == r.round && t.pending == {} && !t.Passes(ip, 1)
  {
    hide Run, QueueTwice;
    QueuedTwice(ip);
    var events := QueueTwice(ip) + [Result(ip, 0)];
    RunStep(NewRouter(true, "", 0), events, |QueueTwice(ip)|);
    assert events[..|QueueTwice(ip)|] == QueueTwice(ip) && events[..|events|] == events;
  }

  lemma RunStep(r: Router, events: seq<Event>, n: nat)
    requires n < |events|
    ensures Run(r, events[..n + 1]) == Step(Run(r, events[..n]), events[n])
    ensures Run(r, events[..0]) == r
  {
    assert events[..n + 1][..n] == events[..n];
  }

  lemma FirstLookup(r: Lookups, now: nat, ip: Ipv4, all: Locks)
    requires r.enabled && !r.pendingAny && r.seen == {} && r.traffic == map[] && all == Locks(true, true, true)
    ensures r.Evaluate(now, ip, all) == r.(traffic := map[ip := now]).Enqueue(ip, true)
  {
  }

  // ----- Rate limits -----

  // Switches are 10 s apart; a window holds three at most, and a later window starts after every
  // switch of an earlier one and more than 60 s after its start.
  ghost predicate Apart(a: Switch, b: Switch) {
    a.at + MIN_SWITCH_INTERVAL <= b.at &&
    (a.window != b.window ==> a.window + SWITCH_WINDOW < b.window && a.at <= b.window)
  }

  ghost predicate SwitchesOk(s: seq<Switch>, created: int) {
    (forall i :: 0 <= i < |s| ==> created <= s[i].window <= s[i].at) &&
    (forall i, j :: 0 <= i < j < |s| ==> Apart(s[i], s[j])) &&
    (forall i, j :: 0 <= i < j < |s| && j == i + 3 ==> s[i].window != s[j].window)
  }

  // The counters describe the end of the history.
  ghost predicate CountersOk(r: Rates, created: int) {
    var s := r.switches;
    created <= r.windowStart && r.windowCount <= MAX_SWITCHES_PER_MINUTE && r.windowCount <= |s| &&
    (if s == [] then r.lastSwitch == created - MIN_SWITCH_INTERVAL && r.windowStart == created
     else r.lastSwitch == s[|s| - 1].at && r.windowStart <= r.lastSwitch) &&
    (forall i :: 0 <= i < |s| ==> (s[i].window == r.windowStart <==> |s| - r.windowCount <= i)) &&
    (forall i :: 0 <= i < |s| && s[i].window != r.windowStart ==>
      s[i].window + SWITCH_WINDOW < r.windowStart && s[i].at <= r.windowStart)
  }

  // The history after one more switch, counted in window `window`.
  lemma AppendSwitch(s: seq<Switch>, created: int, now: int, window: int)
    requires SwitchesOk(s, created) && created <= window <= now
    requires s != [] ==> s[|s| - 1].at + MIN_SWITCH_INTERVAL <= now
    requires forall i :: 0 <= i < |s| && s[i].window != window ==>
      s[i].window + SWITCH_WINDOW < window && s[i].at <= window
    requires |s| >= 3 ==> s[|s| - 3].window != window
    ensures SwitchesOk(s + [Switch(now, window)], created)
  {
    var n, t := |s|, s + [Switch(now, window)];
    assert forall i :: 0 <= i < n ==> t[i] == s[i];
    forall i | 0 <= i < n
      ensures Apart(s[i], t[n])
    {
      assert i < n - 1 ==> Apart(s[i], s[n - 1]);
    }
    hide Apart;
  }

  // `window` and `count` are what `WindowAt` gives for an allowed switch.
  ghost predicate NextWindow(r: Rates, now: int, window: int, count: nat) {
    count < MAX_SWITCHES_PER_MINUTE && now - r.lastSwitch >= MIN_SWITCH_INTERVAL &&
    ((window == r.windowStart && count == r.windowCount) || (r.windowStart + SWITCH_WINDOW < now && window == now && count == 0))
  }

  lemma WindowFitsHistory(r: Rates, created: int, now: nat, window: int, count: nat)
    requires SwitchesOk(r.switches, created) && CountersOk(r, created) && created <= now
    requires NextWindow(r, now, window, count)
    ensures created <= window <= now
    ensures forall i :: 0 <= i < |r.switches| ==>
      r.switches[i].window <= r.windowStart && r.switches[i].at <= r.lastSwitch < now &&
      (r.switches[i].window != window ==> r.switches[i].window + SWITCH_WINDOW < window && r.switches[i].at <= window)
    ensures |r.switches| >= 3 ==> r.switches[|r.switches| - 3].window != window
  {
    var s := r.switches;
    assert forall i :: 0 <= i < |s| - 1 ==> Apart(s[i], s[|s| - 1]);
    hide SwitchesOk;
  }

  lemma CountersAfter(r: Rates, created: int, now: nat, window: int, count: nat)
    requires SwitchesOk(r.switches, created) && CountersOk(r, created) && created <= now
    requires NextWindow(r, now, window, count)
    ensures var t := r.(windowCount := count + 1, windowStart := window, lastSwitch := now,
                        switches := r.switches + [Switch(now, window)]);
            CountersOk(t, created)
  {
    WindowFitsHistory(r, created, now, window, count);
    hide SwitchesOk;
    var s := r.switches;
    var t := s + [Switch(now, window)];
    assert forall i :: 0 <= i < |s| ==> t[i] == s[i];
  }

  lemma RecordKeepsRates(r: Rates, created: int, now: nat, to: string, addr: SocketAddr, game: string)
    requires SwitchesOk(r.switches, created) && CountersOk(r, created) && created <= now
    ensures var t := r.RecordSwitch(now, to, addr, game);
            SwitchesOk(t.switches, created) && CountersOk(t, created)
  {
    if r.SwitchAllowed(now, to) {
      var (count, window) := r.WindowAt(now);
      WindowFitsHistory(r, created, now, window, count);
      CountersAfter(r, created, now, window, count);
      SameCounters(r.RecordSwitch(now, to, addr, game), created,
                   r.(windowCount := count + 1, windowStart := window, lastSwitch := now,
                      switches := r.switches + [Switch(now, window)]));
      assert created <= window <= now && (r.switches != [] ==> r.switches[|r.switches| - 1].at == r.lastSwitch);
      hide CountersOk;
      AppendSwitch(r.switches, created, now, window);
    }
  }

  lemma SameCounters(t: Rates, created: int, u: Rates)
    requires CountersOk(u, created)
    requires t.windowCount == u.windowCount && t.windowStart == u.windowStart && t.lastSwitch == u.lastSwitch &&
             t.switches == u.switches
    ensures CountersOk(t, created)
  {
  }

  ghost predicate Clocked(events: seq<Event>, created: int) {
    forall i :: 0 <= i < |events| && events[i].Commit? ==> created <= events[i].now
  }

  lemma {:induction false} RatesOkInEveryRun(on: bool, region: string, created: nat, events: seq<Event>)
    requires Clocked(events, created)
    ensures var r := Run(NewRouter(on, region, created), events).rates;
            SwitchesOk(r.switches, created) && CountersOk(r, created)
  {
    hide SwitchesOk, CountersOk, StepLookups, StepRates;
    if events == [] {
      NewRouterRates(on, region, created);
    } else {
      var n := |events| - 1;
      RatesOkInEveryRun(on, region, created, events[..n]);
      StepKeepsRates(Run(NewRouter(on, region, created), events[..n]).rates, created, events[n]);
    }
  }

  lemma NewRouterRates(on: bool, region: string, created: nat)
    ensures SwitchesOk([], created) && CountersOk(NewRouter(on, region, created).rates, created)
  {
  }

  lemma StepKeepsRates(r: Rates, created: int, e: Event)
    requires SwitchesOk(r.switches, created) && CountersOk(r, created)
    requires e.Commit? ==> created <= e.now
    ensures var t := StepRates(r, e); SwitchesOk(t.switches, created) && CountersOk(t, created)
  {
    if e.Commit? {
      hide SwitchesOk, CountersOk, Rates.RecordSwitch;
      RecordKeepsRates(r, created, e.now, e.to, e.addr, e.game);
    } else {
      SameCounters(StepRates(r, e), created, r);
    }
  }

  lemma {:induction false} WindowOfIndex(s: seq<Switch>, created: int, i: nat)
    requires SwitchesOk(s, created) && i < |s|
    ensures created + (SWITCH_WINDOW + 1) * (i / 3) <= s[i].window
  {
    if i >= 3 {
      WindowOfIndex(s, created, i - 3);
      var j := i - 3;
      assert s[j].window != s[i].window && Apart(s[j], s[i]);
      assert i / 3 == (i - 3) / 3 + 1;
    }
  }

  lemma SevenSpanMoreThanAMinute(s: seq<Switch>, created: int, i: nat)
    requires SwitchesOk(s, created) && i + 6 < |s|
    ensures s[i].at + SWITCH_WINDOW < s[i + 6].at
  {
    var j, k := i + 3, i + 6;
    assert s[i].window != s[j].window && s[j].window != s[k].window;
    assert Apart(s[i], s[j]) && Apart(s[j], s[k]);
  }

  // How many switches fall in a closed span of time.
  ghost function CountWithin(s: seq<Switch>, from: int, to: int): nat {
    if s == [] then 0
    else
      var n := |s| - 1;
      CountWithin(s[..n], from, to) + (if from <= s[n].at <= to then 1 else 0)
  }

  lemma {:induction false} CountBetween(s: seq<Switch>, from: int, to: int, low: nat, high: nat)
    requires low <= high
    requires forall i :: 0 <= i < |s| && from <= s[i].at <= to ==> low <= i < high
    ensures CountWithin(s, from, to) <= high - low
  {
    if s != [] {
      var n := |s| - 1;
      if from <= s[n].at <= to {
        CountBetween(s[..n], from, to, low, n);
      } else {
        CountBetween(s[..n], from, to, low, high);
      }
    }
  }

  // The first switch at or after `from`.
  function FirstFrom(s: seq<Switch>, from: int, i: nat): (m: nat)
    requires i <= |s| && forall j :: 0 <= j < i ==> s[j].at < from
    ensures m <= |s| && (m < |s| ==> from <= s[m].at) && forall j :: 0 <= j < m ==> s[j].at < from
    decreases |s| - i
  {
    if i == |s| || from <= s[i].at then i else FirstFrom(s, from, i + 1)
  }

  lemma AtMostSixAMinute(s: seq<Switch>, created: int, from: int)
    requires SwitchesOk(s, created)
    ensures CountWithin(s, from, from + SWITCH_WINDOW) <= 6
  {
    var m := FirstFrom(s, from, 0);
    if m + 6 < |s| {
      SevenSpanMoreThanAMinute(s, created, m);
    }
    CountBetween(s, from, from + SWITCH_WINDOW, m, m + 6);
  }

  // Switch `i` starts a new rate window.
  ghost predicate Restarts(s: seq<Switch>, i: nat)
    requires 0 < i < |s|
  {
    s[i].window != s[i - 1].window
  }

  // A new window starts at the very switch that needs it.
  ghost predicate RestartsAtSwitches(s: seq<Switch>) {
    forall i :: 0 < i < |s| && Restarts(s, i) ==> s[i].window == s[i].at
  }

  ghost predicate RestartsOk(r: Rates) {
    var s := r.switches;
    (s != [] ==> s[|s| - 1].window == r.windowStart) && RestartsAtSwitches(s)
  }

  lemma AppendRestart(s: seq<Switch>, x: Switch)
    requires RestartsAtSwitches(s)
    requires s != [] && s[|s| - 1].window != x.window ==> x.window == x.at
    ensures RestartsAtSwitches(s + [x])
  {
    assert forall i :: 0 < i < |s| ==> Restarts(s + [x], i) == Restarts(s, i);
  }

  lemma StepKeepsRestarts(r: Rates, e: Event)
    requires RestartsOk(r)
    ensures RestartsOk(StepRates(r, e))
  {
    hide RestartsAtSwitches;
    if e.Commit? && r.SwitchAllowed(e.now, e.to) {
      AppendRestart(r.switches, Switch(e.now, r.WindowAt(e.now).1));
    }
  }

  lemma {:induction false} RestartsOkInEveryRun(on: bool, region: string, created: nat, events: seq<Event>)
    ensures RestartsOk(Run(NewRouter(on, region, created), events).rates)
  {
    hide StepRates, StepLookups;
    if events != [] {
      hide RestartsOk;
      RestartsOkInEveryRun(on, region, created, events[..|events| - 1]);
      StepKeepsRestarts(Run(NewRouter(on, region, created), events[..|events| - 1]).rates, events[|events| - 1]);
    }
  }

  lemma FourNeedARestart(s: seq<Switch>, created: int, from: int, to: int)
    requires SwitchesOk(s, created) && CountWithin(s, from, to) > 3
    ensures exists i :: 0 < i < |s| && Restarts(s, i) && from < s[i].at <= to
  {
    var m := FirstFrom(s, from, 0);
    if m + 3 < |s| && s[m + 3].at <= to {
      hide CountWithin;
      RestartBetween(s, created, m);
    } else {
      assert forall i :: m + 3 < i < |s| ==> Apart(s[m + 3], s[i]);
      CountBetween(s, from, to, m, m + 3);
    }
  }

  // Main result: four switches fall in one span, however long, only if a window restarted inside
  // it, at one of them. So at most three fall in a span whose switches share one window.
  lemma FourSwitchesNeedARestart(on: bool, region: string, created: nat, events: seq<Event>, from: int, to: int)
    requires Clocked(events, created)
    ensures var s := Run(NewRouter(on, region, created), events).rates.switches;
            CountWithin(s, from, to) > 3 ==>
              exists i :: 0 < i < |s| && Restarts(s, i) && from < s[i].at == s[i].window <= to
  {
    hide Run, SwitchesOk, CountersOk;
    RatesOkInEveryRun(on, region, created, events);
    RestartsOkInEveryRun(on, region, created, events);
    var s := Run(NewRouter(on, region, created), events).rates.switches;
    if CountWithin(s, from, to) > 3 {
      FourNeedARestart(s, created, from, to);
    }
  }

  lemma RestartBetween(s: seq<Switch>, created: int, m: nat)
    requires SwitchesOk(s, created) && m + 3 < |s|
    ensures exists i :: m < i <= m + 3 && Restarts(s, i) && s[m].at < s[i].at <= s[m + 3].at
  {
    var a, b, c := m + 1, m + 2, m + 3;
    assert s[m].window != s[c].window;
    assert Restarts(s, a) || Restarts(s, b) || Restarts(s, c);
    assert Apart(s[m], s[a]) && Apart(s[a], s[b]) && Apart(s[b], s[c]);
  }

  lemma AtMostThreeInOneWindow(on: bool, region: string, created: nat, events: seq<Event>, from: int, to: int, window: int)
    requires Clocked(events, created)
    requires var s := Run(NewRouter(on, region, created), events).rates.switches;
             forall i :: 0 <= i < |s| && from <= s[i].at <= to ==> s[i].window == window
    ensures CountWithin(Run(NewRouter(on, region, created), events).rates.switches, from, to) <= 3
  {
    hide Run;
    RatesOkInEveryRun(on, region, created, events);
    var s := Run(NewRouter(on, region, created), events).rates.switches;
    var m := FirstFrom(s, from, 0);
    if m + 3 < |s| {
      var j := m + 3;
      assert s[m].window != s[j].window && Apart(s[m], s[j]);
      assert !(from <= s[j].at <= to);
    }
    CountBetween(s, from, to, m, m + 3);
  }

  lemma AtMostThreePerWindow(s: seq<Switch>, created: int, span: nat)
    requires SwitchesOk(s, created)
    ensures CountWithin(s, created, created + span) <= 3 * (span / SWITCH_WINDOW + 1)
  {
    var bound := 3 * (span / SWITCH_WINDOW + 1);
    forall i | 0 <= i < |s| && created <= s[i].at <= created + span
      ensures i < bound
    {
      WindowOfIndex(s, created, i);
      WindowsWithin(i / 3, span);
    }
    CountBetween(s, created, created + span, 0, bound);
  }

  // Main result: over every run, resets included, successful switches are at least 10 s apart,
  // at most six fall in any closed span of 60 s, and at most 3 * (T / 60 s + 1) within T of the
  // router's creation.
  lemma RateLimits(on: bool, region: string, created: nat, events: seq<Event>, from: int, span: nat)
    requires Clocked(events, created)
    ensures var s := Run(NewRouter(on, region, created), events).rates.switches;
            (forall i, j :: 0 <= i < j < |s| ==> s[i].at + MIN_SWITCH_INTERVAL <= s[j].at) &&
            CountWithin(s, from, from + SWITCH_WINDOW) <= 6 &&
            CountWithin(s, created, created + span) <= 3 * (span / SWITCH_WINDOW + 1)
  {
    hide Run;
    RatesOkInEveryRun(on, region, created, events);
    var s := Run(NewRouter(on, region, created), events).rates.switches;
    AtMostSixAMinute(s, created, from);
    AtMostThreePerWindow(s, created, span);
  }

  function Alternating(times: seq<nat>, addr: SocketAddr): seq<Event> {
    seq(|times|, i requires 0 <= i < |times| => Commit(times[i], if i % 2 == 0 then "b" else "a", addr, "g"))
  }

  // Three a minute, as the constant's name suggests, is not kept: two full windows can meet.
  lemma SixSwitchesInOneMinute(addr: SocketAddr)
    ensures var events := Alternating([40_000, 50_000, 60_000, 70_000, 80_000, 90_000], addr);
            var s := Run(NewRouter(true, "a", 0), events).rates.switches;
            |s| == 6 && s[0].at == 40_000 && s[5].at == 90_000
  {
    var events := Alternating([40_000, 50_000, 60_000, 70_000, 80_000, 90_000], addr);
    var r := NewRouter(true, "a", 0);
    AfterSwitches(r, events, 6);
    hide Run;
    var r0 := RatesAfter(r.rates, events, 0);
    assert "a"[0] != "b"[0];
    hide Rates.RecordSwitch;
    var r1 := RatesAfter(r.rates, events, 1);
    SwitchRecorded(r0, 40_000, "b", addr, 0, 0);
    var r2 := RatesAfter(r.rates, events, 2);
    SwitchRecorded(r1, 50_000, "a", addr, 1, 0);
    var r3 := RatesAfter(r.rates, events, 3);
    SwitchRecorded(r2, 60_000, "b", addr, 2, 0);
    var r4 := RatesAfter(r.rates, events, 4);
    SwitchRecorded(r3, 70_000, "a", addr, 0, 70_000);
    var r5 := RatesAfter(r.rates, events, 5);
    SwitchRecorded(r4, 80_000, "b", addr, 1, 70_000);
    var r6 := RatesAfter(r.rates, events, 6);
    SwitchRecorded(r5, 90_000, "a", addr, 2, 70_000);
  }

  lemma SwitchRecorded(r: Rates, now: nat, to: string, addr: SocketAddr, count: nat, start: int)
    requires r.stRegion != to && now - r.lastSwitch >= MIN_SWITCH_INTERVAL
    requires r.WindowAt(now) == (count, start) && count < MAX_SWITCHES_PER_MINUTE
    ensures var t := r.RecordSwitch(now, to, addr, "g");
            t.switches == r.switches + [Switch(now, start)] && t.stRegion == to && t.lastSwitch == now &&
            t.windowCount == count + 1 && t.windowStart == start
  {
  }

  function RatesAfter(r: Rates, events: seq<Event>, n: nat): Rates
    requires n <= |events|
  {
    if n == 0 then r else StepRates(RatesAfter(r, events, n - 1), events[n - 1])
  }

  lemma {:induction false} AfterSwitches(r: Router, events: seq<Event>, n: nat)
    requires n <= |events|
    ensures Run(r, events[..n]).rates == RatesAfter(r.rates, events, n)
    ensures n == |events| ==> Run(r, events).rates == RatesAfter(r.rates, events, n)
  {
    hide StepRates, StepLookups;
    if n > 0 {
      AfterSwitches(r, events, n - 1);
      assert events[..n][..n - 1] == events[..n - 1];
    }
    assert events[..|events|] == events;
  }

  lemma WindowsWithin(k: nat, span: nat)
    requires (SWITCH_WINDOW + 1) * k <= span
    ensures k <= span / SWITCH_WINDOW
  {
    assert SWITCH_WINDOW * k <= span;
  }
}
