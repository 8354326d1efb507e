// The bootstrap IP sets of Route Assist over a session (src/roblox_proxy/hosts.rs): applying and
// merging pins, learning direct addresses from SNI, and removing everything again.
//
// Resolved addresses, and whether a file write succeeds, are inputs.
module BootstrapSession {
  import opened Basics
  import opened Domains
  import opened RouteAssist

  // ----- Specification: the module's globals as a value -----

  datatype Session = Session(
    active: map<Ipv4, string>,
    directOnly: set<Ipv4>,
    countryBanBypass: bool,
    lastApplied: seq<HostOverride>)
  {
    predicate Disjoint() {
      active.Keys !! directOnly
    }

    // Every Roblox host is relayed.
    predicate RelaysAll() {
      countryBanBypass && directOnly == {}
    }

    function EnterCountryBan(): Session {
      this.(countryBanBypass := true, directOnly := {})
    }

    // Country-ban routing is entered before anything can fail, and what was to be written is
    // remembered even when the write is refused or fails.
    function Apply(bypass: bool, resolved: Option<seq<HostOverride>>, writeOk: bool): Session {
      var s := if bypass then EnterCountryBan() else this;
      match resolved
      case None => s
      case Some(offered) =>
        var a := if bypass then Allocation(offered, NamedIps(offered), {}) else Allocated(offered);
        if a.writable == [] || !writeOk then s.(lastApplied := a.writable)
        else Session(a.active, a.directOnly, s.countryBanBypass, a.writable)
    }

    function Merge(resolved: seq<(string, seq<Ipv4>)>, writeOk: bool): Session {
      if NewEntries(resolved) == [] || !writeOk then this
      else
        var merged := Merged(lastApplied + NewEntries(resolved));
        this.(lastApplied := merged, active := Extended(active, merged))
    }

    predicate Learnable(serverName: string, ip: Ipv4) {
      IsRouteAssistDirectDomain(serverName) && !countryBanBypass && ip !in active
    }

    function Learn(serverName: string, ip: Ipv4): Session {
      if Learnable(serverName, ip) then this.(directOnly := directOnly + {ip}) else this
    }

    function Remove(): Session {
      Session(map[], {}, false, lastApplied)
    }
  }

  const FRESH := Session(map[], {}, false, [])

  // ----- The globals of the source -----

  class BootstrapRouting {
    var active: map<Ipv4, string>
    var directOnly: set<Ipv4>
    var countryBanBypass: bool
    var lastApplied: seq<HostOverride>

    ghost function Model(): Session
      reads this
    {
      Session(active, directOnly, countryBanBypass, lastApplied)
    }

    constructor ()
      ensures Model() == FRESH
    {
      active, directOnly, countryBanBypass, lastApplied := map[], {}, false, [];
    }

    method EnterCountryBanRouting()
      modifies this`countryBanBypass, this`directOnly
      ensures Model() == old(Model()).EnterCountryBan()
      ensures Model().RelaysAll() && Model().Disjoint()
    {
      countryBanBypass := true;
      directOnly := {};
    }

    // `resolved` is None when name resolution failed. An empty list is refused, not written.
    method ApplyBootstrapOverrides(bypass: bool, resolved: Option<seq<HostOverride>>, writeOk: bool)
      returns (ok: bool)
      modifies this
      ensures Model() == old(Model()).Apply(bypass, resolved, writeOk)
      ensures ok == (resolved.Some? && lastApplied != [] && writeOk)
      ensures ok && bypass ==>
        active.Keys == IpsOf(resolved.value) && forall ip :: ip in active ==> HostOverride(ip, active[ip]) in resolved.value
      ensures ok && !bypass ==>
        active.Keys == RelayedIps(resolved.value) && NamedByPins(active, resolved.value) &&
        directOnly == DirectOnlyIps(resolved.value)
      ensures match resolved
              case None => true
              case Some(offered) =>
                if bypass then lastApplied == offered else forall e :: e in lastApplied <==> Written(offered, e)
      ensures old(Model()).Disjoint() ==> Model().Disjoint()
      ensures bypass ==> Model().RelaysAll()
    {
      hide Kept, Direct, Written, NamedByPins, Allocated, RelayedIps, DirectOnlyIps;
      if bypass {
        EnterCountryBanRouting();
      }
      if resolved.None? {
        return false;
      }
      var overrides := resolved.value;
      var newActive: map<Ipv4, string>, newDirect: set<Ipv4>;
      if bypass {
        newActive, newDirect := NamedIps(overrides), {};
      } else {
        overrides, newActive, newDirect := AllocateRouteAssistPins(overrides);
        AllocatedDisjoint(resolved.value);
      }
      lastApplied := overrides;
      // `write_overrides` refuses an empty list.
      if overrides == [] || !writeOk {
        return false;
      }
      active := newActive;
      directOnly := newDirect;
      return true;
    }

    // Relay-resolved pins: at most six IPs per domain, merged into what was applied.
    method ApplyRelayResolvedOverrides(resolved: seq<(string, seq<Ipv4>)>, writeOk: bool) returns (ok: bool)
      modifies this`active, this`lastApplied
      ensures Model() == old(Model()).Merge(resolved, writeOk)
      ensures ok == (NewEntries(resolved) == [] || writeOk)
      ensures var incoming := NewEntries(resolved);
        if incoming == [] || !writeOk then
          active == old(active) && lastApplied == old(lastApplied)
        else
          Deduplicates(old(lastApplied) + incoming, lastApplied) &&
          active.Keys == old(active.Keys) + IpsOf(old(lastApplied) + incoming) &&
          forall ip :: ip in active ==>
            if ip in old(active) then active[ip] == old(active)[ip] else HostOverride(ip, active[ip]) in lastApplied
      ensures old(Model()).Disjoint() ==>
        (Model().Disjoint() <==>
         NewEntries(resolved) == [] || !writeOk || IpsOf(old(lastApplied) + NewEntries(resolved)) !! directOnly)
      ensures old(Model()).RelaysAll() ==> Model().RelaysAll()
    {
      hide NewEntries, Deduplicates, Merged, Extended;
      if Model().Disjoint() {
        MergeDisjointIff(Model(), resolved, writeOk);
      }
      var incoming := NewEntries(resolved);
      if incoming == [] {
        return true;
      }
      var merged := MergeOverrides(lastApplied + incoming);
      if !writeOk {
        return false;
      }
      DeduplicatedIps(lastApplied + incoming, merged);
      var added := ExtendActive(active, merged);
      lastApplied := merged;
      active := added;
      return true;
    }

    // SNI learning: a direct domain, no country-ban routing, and never an active pin.
    method LearnDirectOnlyBootstrapIp(serverName: string, ip: Ipv4) returns (learned: bool)
      modifies this`directOnly
      ensures Model() == old(Model()).Learn(serverName, ip)
      ensures learned <==> ip !in old(directOnly) && old(Model()).Learnable(serverName, ip)
      ensures directOnly == if learned then old(directOnly) + {ip} else old(directOnly)
      ensures old(Model()).Disjoint() ==> Model().Disjoint()
      ensures old(Model()).RelaysAll() ==> Model().RelaysAll()
    {
      hide IsRouteAssistDirectDomain;
      if !IsRouteAssistDirectDomain(serverName) {
        return false;
      }
      if countryBanBypass {
        return false;
      }
      if ip in active {
        return false;
      }
      learned := ip !in directOnly;
      directOnly := directOnly + {ip};
    }

    method RemoveOverrides()
      modifies this`active, this`directOnly, this`countryBanBypass
      ensures Model() == old(Model()).Remove()
      ensures active == map[] && directOnly == {} && !countryBanBypass
    {
      countryBanBypass := false;
      active := map[];
      directOnly := {};
    }

    // Any sequence of calls computes the run of their events.
    method Drive(events: seq<Event>)
      modifies this
      ensures Model() == Run(old(Model()), events)
    {
      hide Step;
      for i := 0 to |events|
        invariant Model() == Run(old(Model()), events[..i])
      {
        assert events[..i + 1][..i] == events[..i];
        Call(events[i]);
      }
      assert events[..|events|] == events;
    }

    method Call(e: Event)
      modifies this
      ensures Model() == Step(old(Model()), e)
    {
      hide Session.Apply, Session.Merge, Session.Learn;
      match e {
        case Enter => EnterCountryBanRouting();
        case Apply(bypass, resolved, writeOk) => var ok := ApplyBootstrapOverrides(bypass, resolved, writeOk);
        case Merge(answers, writeOk) => var ok := ApplyRelayResolvedOverrides(answers, writeOk);
        case Learn(serverName, ip) => var learned := LearnDirectOnlyBootstrapIp(serverName, ip);
        case Remove => RemoveOverrides();
      }
    }
  }

  // ----- Every run -----

  datatype Event =
    | Enter
    | Apply(bypass: bool, resolved: Option<seq<HostOverride>>, writeOk: bool)
    | Merge(answers: seq<(string, seq<Ipv4>)>, writeOk: bool)
    | Learn(serverName: string, ip: Ipv4)
    | Remove
  {
    // Country-ban routing is entered, whatever fails afterwards.
    predicate Entry() {
      Enter? || (Apply? && bypass)
    }

    predicate RouteAssistApply() {
      Apply? && !bypass
    }
  }

  function Step(s: Session, e: Event): Session {
    match e
    case Enter => s.EnterCountryBan()
    case Apply(bypass, resolved, writeOk) => s.Apply(bypass, resolved, writeOk)
    case Merge(answers, writeOk) => s.Merge(answers, writeOk)
    case Learn(serverName, ip) => s.Learn(serverName, ip)
    case Remove => s.Remove()
  }

  function Run(s: Session, events: seq<Event>): Session {
    if events == [] then s else Step(Run(s, events[..|events| - 1]), events[|events| - 1])
  }

  lemma AllocatedDisjoint(overrides: seq<HostOverride>)
    ensures Allocated(overrides).active.Keys !! Allocated(overrides).directOnly
  {
  }

  // A merge keeps the sets disjoint exactly when it adds nothing or no merged IP is direct-only.
  lemma MergeDisjointIff(s: Session, resolved: seq<(string, seq<Ipv4>)>, writeOk: bool)
    requires s.Disjoint()
    ensures s.Merge(resolved, writeOk).Disjoint() <==>
            NewEntries(resolved) == [] || !writeOk || IpsOf(s.lastApplied + NewEntries(resolved)) !! s.directOnly
  {
    hide NewEntries, Merged, Deduplicates;
    var entries := s.lastApplied + NewEntries(resolved);
    MergedOnce(entries);
    DeduplicatedIps(entries, Merged(entries));
    ExtendedNames(s.active, Merged(entries));
  }

  lemma StepDisjoint(s: Session, e: Event)
    requires s.Disjoint() && (e.Merge? ==> s.RelaysAll())
    ensures Step(s, e).Disjoint()
  {
    hide Allocated, IsRouteAssistDirectDomain;
    match e
    case Apply(bypass, resolved, writeOk) =>
      if resolved.Some? {
        AllocatedDisjoint(resolved.value);
      }
    case _ =>
  }

  // Learning and merging only add direct-only addresses.
  lemma StepGrows(s: Session, e: Event)
    requires e.Learn? || e.Merge?
    ensures s.directOnly <= Step(s, e).directOnly
  {
    hide Session.Learnable, Session.Apply, NewEntries, Merged, Extended;
  }

  ghost predicate OnlyAdds(events: seq<Event>) {
    forall i :: 0 <= i < |events| ==> events[i].Learn? || events[i].Merge?
  }

  lemma {:induction false} DirectOnlyGrows(s: Session, events: seq<Event>)
    requires OnlyAdds(events)
    ensures s.directOnly <= Run(s, events).directOnly
  {
    hide Step;
    if events != [] {
      DirectOnlyGrows(s, events[..|events| - 1]);
      StepGrows(Run(s, events[..|events| - 1]), events[|events| - 1]);
    }
  }

  // The last country-ban entry has been followed by no removal.
  ghost predicate EnteredSinceRemove(events: seq<Event>) {
    exists i :: 0 <= i < |events| && events[i].Entry() && forall j :: i < j < |events| ==> !events[j].Remove?
  }

  // Nor by a Route Assist apply.
  ghost predicate BanSession(events: seq<Event>) {
    exists i :: 0 <= i < |events| && events[i].Entry() &&
      forall j :: i < j < |events| ==> !events[j].Remove? && !events[j].RouteAssistApply()
  }

  lemma FlagStep(s: Session, e: Event)
    ensures Step(s, e).countryBanBypass <==> e.Entry() || (s.countryBanBypass && !e.Remove?)
    ensures e.Entry() ==> Step(s, e).RelaysAll()
    ensures s.RelaysAll() && !e.Remove? && !e.RouteAssistApply() ==> Step(s, e).RelaysAll()
  {
    hide Allocated, NamedIps, IsRouteAssistDirectDomain, NewEntries;
  }

  lemma EnteredStep(events: seq<Event>)
    requires events != []
    ensures var n := |events| - 1;
            EnteredSinceRemove(events) <==> events[n].Entry() || (EnteredSinceRemove(events[..n]) && !events[n].Remove?)
  {
    hide Event.Entry;
    var n := |events| - 1;
    if EnteredSinceRemove(events[..n]) && !events[n].Remove? {
      EnteredStays(events);
    }
    if i :| 0 <= i < n && events[i].Entry() && forall j :: i < j < |events| ==> !events[j].Remove? {
      assert events[..n][i].Entry() && forall j :: i < j < n ==> events[..n][j] == events[j];
    }
  }

  lemma EnteredStays(events: seq<Event>)
    requires events != [] && EnteredSinceRemove(events[..|events| - 1]) && !events[|events| - 1].Remove?
    ensures EnteredSinceRemove(events)
  {
    hide Event.Entry;
    var n := |events| - 1;
    var i :| 0 <= i < n && events[..n][i].Entry() && forall j :: i < j < n ==> !events[..n][j].Remove?;
    assert events[i].Entry() && forall j :: i < j < |events| ==> j == n || events[j] == events[..n][j];
  }

  // Main result: in every run the flag is on exactly when a country-ban entry has had no
  // removal since. No later apply turns it off, and a failed one turns it on.
  lemma {:induction false} FlagIff(events: seq<Event>)
    ensures Run(FRESH, events).countryBanBypass <==> EnteredSinceRemove(events)
  {
    hide Step, Event.Entry;
    if events != [] {
      hide EnteredSinceRemove;
      var n := |events| - 1;
      FlagIff(events[..n]);
      FlagStep(Run(FRESH, events[..n]), events[n]);
      EnteredStep(events);
    }
  }

  lemma {:induction false} BanSessionRelaysAll(events: seq<Event>)
    requires BanSession(events)
    ensures Run(FRESH, events).RelaysAll()
  {
    hide Step, Event.Entry, Event.RouteAssistApply;
    var n := |events| - 1;
    var before := events[..n];
    FlagStep(Run(FRESH, before), events[n]);
    if !events[n].Entry() {
      var i :| 0 <= i < |events| && events[i].Entry() &&
        forall j :: i < j < |events| ==> !events[j].Remove? && !events[j].RouteAssistApply();
      assert before[i].Entry() && forall j :: i < j < n ==> before[j] == events[j];
      assert BanSession(before);
      BanSessionRelaysAll(before);
    }
  }

  ghost predicate MergesInBanSessions(events: seq<Event>) {
    forall i :: 0 <= i < |events| && events[i].Merge? ==> BanSession(events[..i])
  }

  // Main result: in every run whose merges all happen in a country-ban session, relayed and
  // direct-only addresses are disjoint.
  lemma {:induction false} DisjointInEveryRun(events: seq<Event>)
    requires MergesInBanSessions(events)
    ensures Run(FRESH, events).Disjoint()
  {
    hide Step, BanSession, Session.Disjoint, Session.RelaysAll;
    if events == [] {
      FreshDisjoint();
    } else {
      var n := |events| - 1;
      var before := events[..n];
      forall i | 0 <= i < n && before[i].Merge?
        ensures BanSession(before[..i])
      {
        assert before[..i] == events[..i] && before[i] == events[i];
      }
      DisjointInEveryRun(before);
      if events[n].Merge? {
        BanSessionRelaysAll(before);
      }
      StepDisjoint(Run(FRESH, before), events[n]);
    }
  }

  lemma FreshDisjoint()
    ensures FRESH.Disjoint()
  {
  }

  // The guard is needed: a merge outside such a session can relay a direct-only address.
  lemma {:induction false} MergeOutsideBanSession(ip: Ipv4)
    ensures !Run(FRESH, [Learn(AUTH_HOST, ip), Merge([("games.roblox.com", [ip])], true)]).Disjoint()
  {
    hide IsRouteAssistDirectDomain;
    AuthHostIsDirect();
    var resolved := [("games.roblox.com", [ip])];
    var s := Session(map[], {ip}, false, []);
    assert FRESH.Learn(AUTH_HOST, ip) == s;
    TwoSteps(FRESH, Learn(AUTH_HOST, ip), Merge(resolved, true));
    assert NewEntries(resolved[1..]) == [];
    assert NewEntries(resolved)[0] == HostOverride(ip, "games.roblox.com");
    hide NewEntries;
    assert HostOverride(ip, "games.roblox.com") in s.lastApplied + NewEntries(resolved);
    MergeDisjointIff(s, resolved, true);
  }

  lemma {:induction false} RunAppend(s: Session, a: seq<Event>, b: seq<Event>)
    ensures Run(s, a + b) == Run(Run(s, a), b)
  {
    hide Step;
    if b == [] {
      assert a + b == a;
    } else {
      var n := |b| - 1;
      RunAppend(s, a, b[..n]);
      assert (a + b)[..|a + b| - 1] == a + b[..n];
    }
  }

  lemma RunOne(s: Session, e: Event)
    ensures Run(s, []) == s && Run(s, [e]) == Step(s, e)
  {
    hide Step;
    assert [e][..0] == [];
  }

  // A relayed host is never learned, however it is spelled.
  lemma RelayHostsAreNotLearned(s: Session, d: string, dots: string, r: string, ip: Ipv4)
    requires EqIgnoreCase(d, r) && Dots(dots)
    requires r == "gamejoin.roblox.com" || r == "games.roblox.com" || r == "lms.roblox.com"
    ensures s.Learn(d + dots, ip) == s
  {
    hide IsRouteAssistDirectDomain;
    RelayHostsAreRelayed(d, dots, r);
  }

  lemma TwoSteps(s: Session, d: Event, e: Event)
    ensures Run(s, [d, e]) == Step(Step(s, d), e)
  {
    hide Step;
    assert [d, e][..1] == [d] && [d][..0] == [];
    assert Run(s, [d]) == Step(Run(s, [d][..0]), d);
  }

  // Nothing is learned from an entry until the next removal, however many sessions that spans.
  lemma {:induction false} NothingLearnedUntilRemove(events: seq<Event>, serverName: string, ip: Ipv4)
    requires EnteredSinceRemove(events)
    ensures Step(Run(FRESH, events), Learn(serverName, ip)) == Run(FRESH, events)
  {
    hide Run, EnteredSinceRemove;
    FlagIff(events);
  }

  // A failed country-ban apply decides the next session: after it a successful Route Assist apply
  // publishes the same pins, but the session learns nothing, where otherwise every address of a
  // direct domain that is not relayed is learned.
  lemma {:induction false} FailedBanOutlivesItsSession(offered: seq<HostOverride>, ip: Ipv4, w: bool)
    requires Allocated(offered).writable != []
    ensures var failed, applied := Apply(true, None, w), Apply(false, Some(offered), true);
            var alone, after := Run(FRESH, [applied]), Run(FRESH, [failed, applied]);
            after.active == alone.active && after.directOnly == alone.directOnly &&
            Step(after, Learn(AUTH_HOST, ip)) == after &&
            (ip !in alone.active ==> ip in Step(alone, Learn(AUTH_HOST, ip)).directOnly)
  {
    hide Allocated, IsRouteAssistDirectDomain;
    AuthHostIsDirect();
    var failed, applied := Apply(true, None, w), Apply(false, Some(offered), true);
    TwoSteps(FRESH, failed, applied);
    assert [applied][..0] == [];
    assert Run(FRESH, [applied]) == Step(Run(FRESH, [applied][..0]), applied);
  }
}
