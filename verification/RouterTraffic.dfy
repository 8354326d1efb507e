// What the auto-router does in terms of the calls made on it (src/vpn/auto_routing.rs): when a game
// server is looked up, and when the relay is switched. Intervals are written out in milliseconds.
module RouterTraffic {
  import opened Basics
  import opened AutoRouting

  // ----- Evaluations since the last reset -----

  ghost predicate EvaluatedAt(events: seq<Event>, i: int, ip: Ipv4, at: int) {
    0 <= i < |events| && events[i].Evaluate? && events[i].ip == ip && events[i].now == at &&
    forall j :: i < j < |events| ==> !events[j].Reset?
  }

  ghost function EvaluatedIps(events: seq<Event>): set<Ipv4> {
    set i | 0 <= i < |events| && events[i].Evaluate? && EvaluatedAt(events, i, events[i].ip, events[i].now) :: events[i].ip
  }

  // Time never goes back from one evaluation to the next.
  ghost predicate InOrder(events: seq<Event>) {
    forall i, j :: 0 <= i < j < |events| && events[i].Evaluate? && events[j].Evaluate? ==> events[i].now <= events[j].now
  }

  lemma EvaluatedOneMore(events: seq<Event>, e: Event, i: int, ip: Ipv4, at: int)
    ensures EvaluatedAt(events + [e], i, ip, at) <==>
            (i == |events| && e.Evaluate? && e.ip == ip && e.now == at) ||
            (i < |events| && !e.Reset? && EvaluatedAt(events, i, ip, at))
  {
    var all := events + [e];
    assert forall j :: 0 <= j < |events| ==> all[j] == events[j];
    if i < |events| && !e.Reset? && EvaluatedAt(events, i, ip, at) {
      assert forall j :: i < j < |all| ==> j == |events| || all[j] == events[j];
    }
    if i < |events| && EvaluatedAt(all, i, ip, at) {
      assert !all[|events|].Reset?;
    }
  }

  // The router's record: a recorded time is one of an evaluation, at most 249 ms older than the
  // last one of that server; a server is not recorded only when 4096 others are.
  ghost predicate Recorded(traffic: map<Ipv4, nat>, events: seq<Event>) {
    (forall x :: x in traffic ==> exists i :: EvaluatedAt(events, i, x, traffic[x])) &&
    (forall i, x, at :: EvaluatedAt(events, i, x, at) ==> if x in traffic then at < traffic[x] + 250 else |traffic| >= 4096)
  }

  lemma NoteKeepsRecord(r: Lookups, events: seq<Event>, now: nat, ip: Ipv4, locks: Locks)
    requires Recorded(r.traffic, events) && InOrder(events + [Evaluate(now, ip, locks)])
    ensures Recorded(r.NoteTraffic(now, ip).traffic, events + [Evaluate(now, ip, locks)])
  {
    var e := Evaluate(now, ip, locks);
    var all, t := events + [e], r.NoteTraffic(now, ip).traffic;
    forall x | x in t
      ensures exists i :: EvaluatedAt(all, i, x, t[x])
    {
      if x in r.traffic && t[x] == r.traffic[x] {
        var i :| EvaluatedAt(events, i, x, t[x]);
        EvaluatedOneMore(events, e, i, x, t[x]);
      } else {
        EvaluatedOneMore(events, e, |events|, ip, now);
      }
    }
    forall i, x, at | EvaluatedAt(all, i, x, at)
      ensures if x in t then at < t[x] + 250 else |t| >= 4096
    {
      EvaluatedOneMore(events, e, i, x, at);
      if i < |events| {
        assert all[i].now <= all[|events|].now;
      }
    }
  }

  lemma OtherKeepsRecord(traffic: map<Ipv4, nat>, events: seq<Event>, e: Event)
    requires Recorded(traffic, events) && !e.Evaluate?
    ensures Recorded(if e.Reset? then map[] else traffic, events + [e])
  {
    forall i, x, at
      ensures EvaluatedAt(events + [e], i, x, at) <==> !e.Reset? && EvaluatedAt(events, i, x, at)
    {
      EvaluatedOneMore(events, e, i, x, at);
    }
  }

  lemma OtherKeepsTraffic(r: Lookups, e: Event)
    requires !e.Evaluate?
    ensures StepLookups(r, e).traffic == if e.Reset? then map[] else r.traffic
  {
  }

  lemma {:induction false} RecordedInEveryRun(on: bool, region: string, created: nat, events: seq<Event>)
    requires InOrder(events)
    ensures Recorded(Run(NewRouter(on, region, created), events).lookups.traffic, events)
  {
    if events != [] {
      hide Recorded, StepLookups, StepRates, Lookups.NoteTraffic, Lookups.Evaluate, NewRouter;
      var n := |events| - 1;
      var before, e, r := events[..n], events[n], Run(NewRouter(on, region, created), events[..n]).lookups;
      assert events == before + [e];
      RecordedInEveryRun(on, region, created, before);
      if e.Evaluate? {
        StepEvaluate(r, e);
        EvaluateSends(r, e.now, e.ip, e.locks);
        NoteKeepsRecord(r, before, e.now, e.ip, e.locks);
      } else {
        OtherKeepsTraffic(r, e);
        OtherKeepsRecord(r.traffic, before, e);
      }
    }
  }

  lemma StepEvaluate(r: Lookups, e: Event)
    requires e.Evaluate?
    ensures StepLookups(r, e) == r.Evaluate(e.now, e.ip, e.locks)
  {
  }

  // ----- When a lookup is sent -----

  // At `now`, `ip` was last evaluated more than `gap` ms ago, or never since the last reset.
  ghost predicate QuietFor(events: seq<Event>, ip: Ipv4, now: nat, gap: nat) {
    forall i, at :: EvaluatedAt(events, i, ip, at) ==> at + gap <= now
  }

  // The evaluation `e` of `r` sends a lookup, numbers it and marks its server as seen.
  ghost predicate Sends(r: Lookups, e: Event)
    requires e.Evaluate?
  {
    var t := StepLookups(r, e);
    t.generation == r.generation + 1 && e.ip in t.seen && (e.locks.writePending ==> e.ip in t.pending) &&
    t.queued == if r.hasChannel then r.queued + [Lookup(e.ip, t.generation, r.epoch, t.round)] else r.queued
  }

  ghost predicate SendsNothing(r: Lookups, e: Event) {
    var t := StepLookups(r, e);
    t.generation == r.generation && t.queued == r.queued && t.pending == r.pending
  }

  lemma SendsIff(r: Lookups, e: Event)
    requires e.Evaluate?
    ensures if r.Queues(e.now, e.ip, e.locks) then Sends(r, e) else SendsNothing(r, e)
    ensures r.Queues(e.now, e.ip, e.locks) && e.ip in r.seen ==>
              StepLookups(r, e).seen == {e.ip} && StepLookups(r, e).activeServer == None
  {
    hide StepLookups, Lookups.Queues, Lookups.Evaluate;
    StepEvaluate(r, e);
    EvaluateSends(r, e.now, e.ip, e.locks);
  }

  lemma RecordedCount(traffic: map<Ipv4, nat>, events: seq<Event>, i: int, ip: Ipv4, at: int)
    requires Recorded(traffic, events) && EvaluatedAt(events, i, ip, at) && ip !in traffic
    ensures |EvaluatedIps(events)| > 4096
  {
    forall x | x in traffic
      ensures x in EvaluatedIps(events)
    {
      var j :| EvaluatedAt(events, j, x, traffic[x]);
    }
    assert EvaluatedAt(events, i, events[i].ip, events[i].now);
    SubsetSize(traffic.Keys + {ip}, EvaluatedIps(events));
    assert |traffic.Keys + {ip}| == |traffic.Keys| + 1;
    assert |traffic.Keys| == |traffic|;
  }

  lemma SubsetSize(a: set<Ipv4>, b: set<Ipv4>)
    requires a <= b
    ensures |a| <= |b|
  {
    if a != {} {
      var x :| x in a;
      SubsetSize(a - {x}, b - {x});
    }
  }

  // The record against the calls: a server whose record is 3000 ms old has been quiet for more
  // than 2750 ms, and one that has been quiet for 3000 ms has such a record, if any.
  lemma OldRecordMeansQuiet(traffic: map<Ipv4, nat>, events: seq<Event>, ip: Ipv4, now: nat)
    requires Recorded(traffic, events) && |EvaluatedIps(events)| <= 4096
    requires ip in traffic ==> now - traffic[ip] >= 3000
    ensures QuietFor(events, ip, now, 2751)
  {
    forall i, at | EvaluatedAt(events, i, ip, at)
      ensures at + 2751 <= now
    {
      if ip !in traffic {
        RecordedCount(traffic, events, i, ip, at);
      }
    }
  }

  lemma QuietHasOldRecord(traffic: map<Ipv4, nat>, events: seq<Event>, ip: Ipv4, now: nat)
    requires Recorded(traffic, events) && QuietFor(events, ip, now, 3000)
    ensures ip in traffic ==> now - traffic[ip] >= 3000
  {
    if ip in traffic {
      var i :| EvaluatedAt(events, i, ip, traffic[ip]);
    }
  }

  // Main result: a server is looked up only when the router is enabled, nothing is pending and
  // every other server has been quiet for more than 2750 ms, as long as the 4096 addresses the
  // router can track suffice.
  lemma LookedUpOnlyIfOthersQuiet(on: bool, region: string, created: nat, events: seq<Event>, e: Event)
    requires e.Evaluate? && InOrder(events + [e]) && |EvaluatedIps(events)| <= 4096
    requires !SendsNothing(Run(NewRouter(on, region, created), events).lookups, e)
    ensures var r := Run(NewRouter(on, region, created), events).lookups;
            r.enabled && r.pending == {} && forall x :: x != e.ip ==> QuietFor(events, x, e.now, 2751)
  {
    hide Run, SendsNothing, Sends, Recorded, QuietFor, Lookups.PinStale, QueueOk;
    var r := Run(NewRouter(on, region, created), events).lookups;
    assert InOrder(events) by {
      InOrderBefore(events, e);
    }
    RecordedInEveryRun(on, region, created, events);
    LookupsOkInEveryRun(on, region, created, events);
    SendsIff(r, e);
    assert r.Queues(e.now, e.ip, e.locks);
    forall x | x != e.ip
      ensures QuietFor(events, x, e.now, 2751)
    {
      assert x in r.traffic ==> r.NoteTraffic(e.now, e.ip).traffic[x] == r.traffic[x];
      OldRecordMeansQuiet(r.traffic, events, x, e.now);
    }
  }

  lemma InOrderBefore(events: seq<Event>, e: Event)
    requires InOrder(events + [e])
    ensures InOrder(events)
  {
    assert forall i :: 0 <= i < |events| ==> (events + [e])[i] == events[i];
  }

  // Main result, the other half: an enabled router with nothing pending looks up a server it has
  // not seen as soon as every other one has been quiet for 3000 ms, if it gets the locks.
  lemma LookedUpOnceOthersQuiet(on: bool, region: string, created: nat, events: seq<Event>, e: Event)
    requires e.Evaluate? && InOrder(events + [e]) && e.locks == Locks(true, true, true)
    requires var r := Run(NewRouter(on, region, created), events).lookups; r.enabled && r.pending == {} && e.ip !in r.seen
    requires forall x :: x != e.ip ==> QuietFor(events, x, e.now, 3000)
    ensures Sends(Run(NewRouter(on, region, created), events).lookups, e)
  {
    hide Run, SendsNothing, Sends, Recorded, QuietFor, Lookups.PinStale, QueueOk;
    var r := Run(NewRouter(on, region, created), events).lookups;
    OthersQuietByCalls(on, region, created, events, e);
    LookupsOkInEveryRun(on, region, created, events);
    SendsIff(r, e);
  }

  lemma OthersQuietByCalls(on: bool, region: string, created: nat, events: seq<Event>, e: Event)
    requires e.Evaluate? && InOrder(events + [e]) && forall x :: x != e.ip ==> QuietFor(events, x, e.now, 3000)
    ensures var r := Run(NewRouter(on, region, created), events).lookups;
            r.NoteTraffic(e.now, e.ip).OthersQuiet(e.now, e.ip) && forall x :: x in r.traffic && x != e.ip ==> e.now - r.traffic[x] >= 3000
  {
    hide Run, Recorded, QuietFor;
    var r := Run(NewRouter(on, region, created), events).lookups;
    InOrderBefore(events, e);
    RecordedInEveryRun(on, region, created, events);
    forall x | x in r.traffic && x != e.ip
      ensures e.now - r.traffic[x] >= 3000
    {
      QuietHasOldRecord(r.traffic, events, x, e.now);
    }
  }

  // Main result: a server already seen is looked up again only when another one is pinned and has
  // been quiet for more than 2750 ms.
  lemma SeenAgainOnlyIfPinQuiet(on: bool, region: string, created: nat, events: seq<Event>, e: Event)
    requires e.Evaluate? && InOrder(events + [e]) && |EvaluatedIps(events + [e])| <= 4096
    requires var r := Run(NewRouter(on, region, created), events).lookups; !SendsNothing(r, e) && e.ip in r.seen
    ensures var pin := Run(NewRouter(on, region, created), events).lookups.activeServer;
            pin.Some? && pin.value != e.ip && QuietFor(events, pin.value, e.now, 2751)
  {
    hide Run, SendsNothing, Sends, Recorded, Lookups.OthersQuiet, EvaluatedIps;
    var r := Run(NewRouter(on, region, created), events).lookups;
    InOrderBefore(events, e);
    RecordedInEveryRun(on, region, created, events);
    NoteKeepsRecord(r, events, e.now, e.ip, e.locks);
    SendsIff(r, e);
    assert r.Queues(e.now, e.ip, e.locks);
    var pin := r.activeServer.value;
    OldRecordMeansQuiet(r.NoteTraffic(e.now, e.ip).traffic, events + [e], pin, e.now);
    EvaluatedOneMore(events, e, |events|, e.ip, e.now);
    forall i, at | EvaluatedAt(events, i, pin, at)
      ensures at + 2751 <= e.now
    {
      EvaluatedOneMore(events, e, i, pin, at);
    }
  }

  // Main result, the other half: with another server pinned and all others quiet for 3000 ms it is
  // looked up again, the pin is dropped, and every server but this one counts as unseen.
  lemma SeenAgainOncePinQuiet(on: bool, region: string, created: nat, events: seq<Event>, e: Event)
    requires e.Evaluate? && InOrder(events + [e]) && e.locks == Locks(true, true, true)
    requires var r := Run(NewRouter(on, region, created), events).lookups;
             r.enabled && r.pending == {} && e.ip in r.seen && r.activeServer.Some? && r.activeServer.value != e.ip
    requires forall x :: x != e.ip ==> QuietFor(events, x, e.now, 3000)
    ensures var r := Run(NewRouter(on, region, created), events).lookups;
            Sends(r, e) && StepLookups(r, e).seen == {e.ip} && StepLookups(r, e).activeServer == None
  {
    hide Run, SendsNothing, Sends, Recorded, QuietFor, QueueOk, StepLookups, Lookups.OthersQuiet;
    var r := Run(NewRouter(on, region, created), events).lookups;
    OthersQuietByCalls(on, region, created, events, e);
    LookupsOkInEveryRun(on, region, created, events);
    SendsIff(r, e);
  }

  // The gap is real: traffic within 250 ms of the recorded one leaves no trace, so a new server is
  // looked up 2751 ms after the last traffic of the old one.
  lemma ThrottleHidesTraffic(a: Ipv4, b: Ipv4)
    requires a != b
    ensures var all := Locks(true, true, true);
            var events := [Evaluate(0, a, all), Clear(a), Evaluate(249, a, all), Evaluate(3000, b, all)];
            b in Run(NewRouter(true, "", 0), events).lookups.pending
  {
    var all := Locks(true, true, true);
    var r0 := NewRouter(true, "", 0);
    hide Run, NewRouter, StepLookups, Lookups.Evaluate, Lookups.ClearPending;
    FourSteps(r0, Evaluate(0, a, all), Clear(a), Evaluate(249, a, all), Evaluate(3000, b, all));
    var r1 := StepLookups(r0.lookups, Evaluate(0, a, all));
    var r2 := StepLookups(r1, Clear(a));
    StepEvaluate(r0.lookups, Evaluate(0, a, all));
    StepClear(r1, a);
    StepEvaluate(r2, Evaluate(249, a, all));
    StepEvaluate(StepLookups(r2, Evaluate(249, a, all)), Evaluate(3000, b, all));
    FirstTraffic(a, all);
    UnseenTraffic(r2, a, b, all);
  }

  lemma StepClear(r: Lookups, ip: Ipv4)
    ensures StepLookups(r, Clear(ip)) == r.ClearPending(ip)
  {
  }

  lemma FirstTraffic(a: Ipv4, all: Locks)
    requires all == Locks(true, true, true)
    ensures var r := NewRouter(true, "", 0).lookups.Evaluate(0, a, all).ClearPending(a);
            r.enabled && !r.pendingAny && r.seen == {a} && r.traffic == map[a := 0] && r.activeServer == None
  {
    hide Lookups.Evaluate;
    FirstLookup(NewRouter(true, "", 0).lookups, 0, a, all);
  }

  lemma UnseenTraffic(r: Lookups, a: Ipv4, b: Ipv4, all: Locks)
    requires a != b && all == Locks(true, true, true)
    requires r.enabled && !r.pendingAny && r.seen == {a} && r.traffic == map[a := 0] && r.activeServer == None
    ensures b in r.Evaluate(249, a, all).Evaluate(3000, b, all).pending
  {
    assert r.Evaluate(249, a, all) == r;
    hide Lookups.Evaluate;
    EvaluatePending(r, 3000, b, all);
  }

  // ----- When the relay is switched -----

  // The rate window after a history of switches, read off their times alone: it restarts at the
  // first switch more than 60 s after its start.
  ghost function WindowAfter(s: seq<Switch>, created: int): (int, nat) {
    if s == [] then (created, 0)
    else
      var n := |s| - 1;
      var (start, count) := WindowAfter(s[..n], created);
      if s[n].at - start > 60_000 then (s[n].at, 1) else (start, count + 1)
  }

  ghost predicate CountersFollow(r: Rates, created: int) {
    WindowAfter(r.switches, created) == (r.windowStart, r.windowCount) &&
    r.lastSwitch == if r.switches == [] then created - 10_000 else r.switches[|r.switches| - 1].at
  }

  lemma {:induction false} CountersFollowInEveryRun(on: bool, region: string, created: nat, events: seq<Event>)
    ensures CountersFollow(Run(NewRouter(on, region, created), events).rates, created)
  {
    if events != [] {
      var n := |events| - 1;
      CountersFollowInEveryRun(on, region, created, events[..n]);
      hide StepRates, StepLookups, CountersFollow;
      StepKeepsCounters(Run(NewRouter(on, region, created), events[..n]).rates, created, events[n]);
    }
  }

  lemma StepKeepsCounters(r: Rates, created: int, e: Event)
    requires CountersFollow(r, created)
    ensures CountersFollow(StepRates(r, e), created)
  {
    var t := StepRates(r, e);
    if t.switches != r.switches {
      assert t.switches[..|t.switches| - 1] == r.switches;
    }
  }

  // Main result: over every run, a commit switches the relay exactly when the region changes, the
  // last switch is at least 10 s old, and the rate window is over or holds fewer than three; it
  // then sets region, relay and game region, and otherwise nothing.
  lemma CommitSwitchesIff(on: bool, region: string, created: nat, events: seq<Event>, e: Event)
    requires e.Commit? && created <= e.now
    ensures var r := Run(NewRouter(on, region, created), events).rates;
            var (start, count) := WindowAfter(r.switches, created);
            var allowed := r.stRegion != e.to && (r.switches == [] || r.switches[|r.switches| - 1].at + 10_000 <= e.now) &&
                           (e.now - start > 60_000 || count < 3);
            var t := StepRates(r, e);
            if allowed then
              t.stRegion == e.to && t.relayAddr == Some(e.addr) && t.gameRegion == Some(e.game) &&
              |t.switches| == |r.switches| + 1 && r.switches <= t.switches && t.switches[|r.switches|].at == e.now
            else t == r
  {
    hide Run;
    CountersFollowInEveryRun(on, region, created, events);
  }

  // The region and relay in use are those of the last switch or manual choice; a reset forgets
  // the relay but neither the region nor the rate counters.
  lemma OtherRelayChanges(r: Rates, e: Event)
    requires !e.Commit?
    ensures match e
            case SetRelay(addr, region) => StepRates(r, e) == r.(stRegion := region, relayAddr := Some(addr))
            case Reset => StepRates(r, e) == r.(relayAddr := None, gameRegion := None)
            case _ => StepRates(r, e) == r
  {
  }
}
