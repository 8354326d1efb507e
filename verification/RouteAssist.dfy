// Route Assist pins: which resolved addresses are relayed, kept direct and written
// (src/roblox_proxy/hosts.rs). Resolved addresses are inputs.
module RouteAssist {
  import opened Basics
  import opened Domains

  const MAX_PINNED_IPS_PER_DOMAIN := 6

  datatype HostOverride = HostOverride(ip: Ipv4, domain: string)

  predicate Direct(e: HostOverride) {
    IsRouteAssistDirectDomain(e.domain)
  }

  function IpsOf(overrides: seq<HostOverride>): set<Ipv4> {
    set e | e in overrides :: e.ip
  }

  // ----- Which pins are kept -----

  // The IPs offered by direct domains (`direct`) or by relayed ones.
  function Pool(overrides: seq<HostOverride>, direct: bool): set<Ipv4> {
    set e | e in overrides && Direct(e) == direct :: e.ip
  }

  // The IP is not offered by the other side.
  ghost predicate ConflictFree(overrides: seq<HostOverride>, e: HostOverride) {
    e.ip !in Pool(overrides, !Direct(e))
  }

  // The domain of `e` has no conflict-free IP at all.
  ghost predicate Cornered(overrides: seq<HostOverride>, e: HostOverride) {
    forall x :: x in overrides && EqIgnoreCase(x.domain, e.domain) ==> !ConflictFree(overrides, x)
  }

  ghost predicate Kept(overrides: seq<HostOverride>, e: HostOverride) {
    e in overrides && (ConflictFree(overrides, e) || Cornered(overrides, e))
  }

  // The IPs of the kept relayed pins, and those of the kept direct pins that are not relayed.
  ghost function RelayedIps(overrides: seq<HostOverride>): set<Ipv4> {
    set e | e in overrides && Kept(overrides, e) && !Direct(e) :: e.ip
  }

  ghost function DirectOnlyIps(overrides: seq<HostOverride>): set<Ipv4> {
    (set e | e in overrides && Kept(overrides, e) && Direct(e) :: e.ip) - RelayedIps(overrides)
  }

  // Written to the hosts file: every kept relayed pin, and the pinned direct ones that stayed
  // direct-only.
  ghost predicate Written(overrides: seq<HostOverride>, e: HostOverride) {
    Kept(overrides, e) && (!Direct(e) || (IsPinnedRouteAssistDirectDomain(e.domain) && e.ip in DirectOnlyIps(overrides)))
  }

  // Each IP is named by a domain of a kept relayed pin.
  ghost predicate NamedByPins(active: map<Ipv4, string>, overrides: seq<HostOverride>) {
    forall ip :: ip in active ==>
      var e := HostOverride(ip, active[ip]);
      Kept(overrides, e) && !Direct(e)
  }

  // ----- The pins in the order of the source -----

  // One entry per domain, ignoring case: the first to name it.
  function FirstOfDomains(overrides: seq<HostOverride>): seq<HostOverride> {
    if overrides == [] then []
    else
      var n := |overrides| - 1;
      var domains := FirstOfDomains(overrides[..n]);
      if exists d :: d in domains && EqIgnoreCase(d.domain, overrides[n].domain) then domains
      else domains + [overrides[n]]
  }

  function InDomain(domain: string): HostOverride -> bool {
    (e: HostOverride) => EqIgnoreCase(e.domain, domain)
  }

  function OutsidePool(pool: set<Ipv4>): HostOverride -> bool {
    (e: HostOverride) => e.ip !in pool
  }

  // One domain: its conflict-free entries, or all of them when there are none.
  function PinsOfDomain(overrides: seq<HostOverride>, domain: HostOverride): seq<HostOverride> {
    var candidates := Filter(overrides, InDomain(domain.domain));
    var conflictFree := Filter(candidates, OutsidePool(Pool(overrides, !Direct(domain))));
    if conflictFree == [] then candidates else conflictFree
  }

  function PinsOfDomains(overrides: seq<HostOverride>, domains: seq<HostOverride>): seq<HostOverride> {
    if domains == [] then []
    else
      var n := |domains| - 1;
      PinsOfDomains(overrides, domains[..n]) + PinsOfDomain(overrides, domains[n])
  }

  function KeptPins(overrides: seq<HostOverride>): seq<HostOverride> {
    PinsOfDomains(overrides, FirstOfDomains(overrides))
  }

  // `collect()` into a map from IP to domain: a later entry for the same IP wins.
  function NamedIps(entries: seq<HostOverride>): (names: map<Ipv4, string>)
    ensures names.Keys == IpsOf(entries)
    ensures forall ip :: ip in names ==> HostOverride(ip, names[ip]) in entries
  {
    if entries == [] then map[]
    else
      var n := |entries| - 1;
      assert entries == entries[..n] + [entries[n]];
      NamedIps(entries[..n])[entries[n].ip := entries[n].domain]
  }

  // It is the domain of the IP's last entry.
  lemma {:induction false} NamedByLast(entries: seq<HostOverride>, i: nat)
    requires i < |entries| && forall j :: i < j < |entries| ==> entries[j].ip != entries[i].ip
    ensures entries[i].ip in NamedIps(entries) && NamedIps(entries)[entries[i].ip] == entries[i].domain
  {
    var n := |entries| - 1;
    if i < n {
      NamedByLast(entries[..n], i);
    }
  }

  function RelayedNames(kept: seq<HostOverride>): map<Ipv4, string> {
    NamedIps(Filter(kept, (e: HostOverride) => !Direct(e)))
  }

  function WritablePins(kept: seq<HostOverride>, directOnly: set<Ipv4>): seq<HostOverride> {
    Filter(kept, (e: HostOverride) => !Direct(e) || (IsPinnedRouteAssistDirectDomain(e.domain) && e.ip in directOnly))
  }

  datatype Allocation = Allocation(writable: seq<HostOverride>, active: map<Ipv4, string>, directOnly: set<Ipv4>)

  function Allocated(overrides: seq<HostOverride>): Allocation {
    var kept := KeptPins(overrides);
    var active := RelayedNames(kept);
    var directOnly := Pool(kept, true) - active.Keys;
    Allocation(WritablePins(kept, directOnly), active, directOnly)
  }

  // ----- The allocator -----

  method CollectDomains(overrides: seq<HostOverride>) returns (domains: seq<HostOverride>)
    ensures domains == FirstOfDomains(overrides)
  {
    hide EqIgnoreCase;
    domains := [];
    for i := 0 to |overrides|
      invariant domains == FirstOfDomains(overrides[..i])
    {
      assert overrides[..i + 1][..i] == overrides[..i];
      if forall d :: d in domains ==> !EqIgnoreCase(d.domain, overrides[i].domain) {
        domains := domains + [overrides[i]];
      }
    }
    assert overrides[..|overrides|] == overrides;
  }

  method KeepPins(overrides: seq<HostOverride>) returns (kept: seq<HostOverride>)
    ensures kept == KeptPins(overrides)
    ensures forall e :: e in kept <==> Kept(overrides, e)
  {
    hide Kept, Direct, EqIgnoreCase, Pool, FirstOfDomains;
    var directPool, activePool := Pool(overrides, true), Pool(overrides, false);
    var domains := CollectDomains(overrides);
    kept := [];
    for i := 0 to |domains|
      invariant kept == PinsOfDomains(overrides, domains[..i])
    {
      assert domains[..i + 1][..i] == domains[..i];
      var domain := domains[i];
      var otherPool := if Direct(domain) then activePool else directPool;
      var candidates := Filter(overrides, InDomain(domain.domain));
      var conflictFree := Filter(candidates, OutsidePool(otherPool));
      kept := kept + (if conflictFree == [] then candidates else conflictFree);
    }
    assert domains[..|domains|] == domains;
    KeptPinsIff(overrides);
  }

  method AllocateRouteAssistPins(overrides: seq<HostOverride>)
    returns (writable: seq<HostOverride>, active: map<Ipv4, string>, directOnly: set<Ipv4>)
    ensures Allocation(writable, active, directOnly) == Allocated(overrides)
    ensures active.Keys == RelayedIps(overrides) && NamedByPins(active, overrides)
    ensures directOnly == DirectOnlyIps(overrides)
    ensures forall e :: e in writable <==> Written(overrides, e)
  {
    hide KeptPins, RelayedNames, WritablePins, Pool, RelayedIps, DirectOnlyIps, NamedByPins, Written, Kept;
    var kept := KeepPins(overrides);
    active := RelayedNames(kept);
    directOnly := Pool(kept, true) - active.Keys;
    writable := WritablePins(kept, directOnly);
    AllocationMeaning(overrides);
  }

  // ----- What the order of the source amounts to -----

  lemma SameDomainSameSide(a: HostOverride, b: HostOverride)
    requires EqIgnoreCase(a.domain, b.domain)
    ensures Direct(a) == Direct(b)
  {
    hide IsRouteAssistDirectDomain;
    ClassIgnoresCase(a.domain, b.domain);
  }

  lemma SameDomain(d: string)
    ensures EqIgnoreCase(d, d)
  {
  }

  lemma SameDomainEither(a: string, b: string)
    ensures EqIgnoreCase(a, b) <==> EqIgnoreCase(b, a)
  {
  }

  // One entry stands for each domain, and no two for the same.
  lemma {:induction false} DomainsOffered(overrides: seq<HostOverride>)
    ensures forall d :: d in FirstOfDomains(overrides) ==> d in overrides
  {
    hide EqIgnoreCase;
    if overrides != [] {
      DomainsOffered(overrides[..|overrides| - 1]);
    }
  }

  lemma {:induction false} DomainCovered(overrides: seq<HostOverride>, e: HostOverride)
    requires e in overrides
    ensures exists d :: d in FirstOfDomains(overrides) && EqIgnoreCase(d.domain, e.domain)
  {
    hide EqIgnoreCase;
    var n := |overrides| - 1;
    var before := FirstOfDomains(overrides[..n]);
    if e in overrides[..n] {
      DomainCovered(overrides[..n], e);
      var d :| d in before && EqIgnoreCase(d.domain, e.domain);
      assert d in FirstOfDomains(overrides);
    } else if d :| d in before && EqIgnoreCase(d.domain, overrides[n].domain) {
      assert d in FirstOfDomains(overrides);
    } else {
      SameDomain(e.domain);
      assert e in FirstOfDomains(overrides);
    }
  }

  ghost predicate Differ(domains: seq<HostOverride>) {
    forall i, j :: 0 <= i < j < |domains| ==> !EqIgnoreCase(domains[i].domain, domains[j].domain)
  }

  lemma {:induction false} DomainsDiffer(overrides: seq<HostOverride>)
    ensures Differ(FirstOfDomains(overrides))
  {
    hide EqIgnoreCase;
    if overrides != [] {
      var n := |overrides| - 1;
      var before := FirstOfDomains(overrides[..n]);
      DomainsDiffer(overrides[..n]);
      if !exists d :: d in before && EqIgnoreCase(d.domain, overrides[n].domain) {
        assert forall i :: 0 <= i < |before| ==> before[i] in before && !EqIgnoreCase(before[i].domain, overrides[n].domain);
        assert FirstOfDomains(overrides) == before + [overrides[n]];
      }
    }
  }

  // The entries of one domain that the filters select are exactly its kept entries.
  lemma PinsOfDomainIff(overrides: seq<HostOverride>, domain: HostOverride)
    requires domain in overrides
    ensures forall e :: e in PinsOfDomain(overrides, domain) <==>
              Kept(overrides, e) && EqIgnoreCase(e.domain, domain.domain)
  {
    var otherPool := Pool(overrides, !Direct(domain));
    var candidates := Filter(overrides, InDomain(domain.domain));
    var conflictFree := Filter(candidates, OutsidePool(otherPool));
    hide Direct;
    forall e | e in candidates
      ensures Direct(e) == Direct(domain)
    {
      SameDomainSameSide(e, domain);
    }
    hide Pool;
    assert forall e :: e in candidates ==> (e in conflictFree <==> ConflictFree(overrides, e));
    forall e | e in candidates
      ensures Cornered(overrides, e) <==> conflictFree == []
    {
      if conflictFree != [] {
        assert conflictFree[0] in candidates;
      }
    }
  }

  lemma {:induction false} PinsOfDomainsIff(overrides: seq<HostOverride>, domains: seq<HostOverride>)
    requires forall d :: d in domains ==> d in overrides
    ensures forall e :: e in PinsOfDomains(overrides, domains) <==>
              Kept(overrides, e) && exists d :: d in domains && EqIgnoreCase(e.domain, d.domain)
  {
    hide Kept, EqIgnoreCase, PinsOfDomain;
    if domains != [] {
      var n := |domains| - 1;
      PinsOfDomainsIff(overrides, domains[..n]);
      PinsOfDomainIff(overrides, domains[n]);
      assert forall d :: d in domains <==> d in domains[..n] || d == domains[n];
    }
  }

  lemma KeptIsCovered(overrides: seq<HostOverride>, e: HostOverride)
    requires Kept(overrides, e)
    ensures exists d :: d in FirstOfDomains(overrides) && EqIgnoreCase(e.domain, d.domain)
  {
    hide EqIgnoreCase, FirstOfDomains;
    DomainCovered(overrides, e);
    var d :| d in FirstOfDomains(overrides) && EqIgnoreCase(d.domain, e.domain);
    SameDomainEither(d.domain, e.domain);
  }

  lemma KeptPinsIff(overrides: seq<HostOverride>)
    ensures forall e :: e in KeptPins(overrides) <==> Kept(overrides, e)
  {
    hide EqIgnoreCase, PinsOfDomains, FirstOfDomains, Kept;
    DomainsOffered(overrides);
    PinsOfDomainsIff(overrides, FirstOfDomains(overrides));
    forall e | Kept(overrides, e)
      ensures e in KeptPins(overrides)
    {
      KeptIsCovered(overrides, e);
    }
  }

  lemma {:induction false} FilterMultiplicity(s: seq<HostOverride>, keep: HostOverride -> bool, e: HostOverride)
    ensures multiset(Filter(s, keep))[e] == if e in Filter(s, keep) then multiset(s)[e] else 0
  {
    if s != [] {
      FilterMultiplicity(s[1..], keep, e);
      assert s == [s[0]] + s[1..];
    }
  }

  lemma PinsOfDomainMultiplicity(overrides: seq<HostOverride>, domain: HostOverride, e: HostOverride)
    ensures multiset(PinsOfDomain(overrides, domain))[e] == if e in PinsOfDomain(overrides, domain) then multiset(overrides)[e] else 0
  {
    var sameDomain, noConflict := InDomain(domain.domain), OutsidePool(Pool(overrides, !Direct(domain)));
    hide Filter, InDomain, OutsidePool, Pool, Direct;
    FilterMultiplicity(overrides, sameDomain, e);
    FilterMultiplicity(Filter(overrides, sameDomain), noConflict, e);
  }

  lemma {:induction false} PinsOfDomainsMultiplicity(overrides: seq<HostOverride>, domains: seq<HostOverride>, e: HostOverride)
    requires forall d :: d in domains ==> d in overrides
    requires Differ(domains)
    ensures multiset(PinsOfDomains(overrides, domains))[e] ==
            if e in PinsOfDomains(overrides, domains) then multiset(overrides)[e] else 0
  {
    hide Kept, PinsOfDomain, EqIgnoreCase;
    if domains != [] {
      var n := |domains| - 1;
      PinsOfDomainsMultiplicity(overrides, domains[..n], e);
      PinsOfDomainMultiplicity(overrides, domains[n], e);
      PinsOfDomainsIff(overrides, domains[..n]);
      PinsOfDomainIff(overrides, domains[n]);
      if e in PinsOfDomain(overrides, domains[n]) && e in PinsOfDomains(overrides, domains[..n]) {
        var d :| d in domains[..n] && EqIgnoreCase(e.domain, d.domain);
        SameDomainTransitive(d.domain, e.domain, domains[n].domain);
      }
    }
  }

  lemma SameDomainTransitive(a: string, b: string, c: string)
    requires EqIgnoreCase(b, a) && EqIgnoreCase(b, c)
    ensures EqIgnoreCase(a, c)
  {
  }

  // Each kept entry is kept as often as it is offered, and the pins stand domain by domain.
  lemma {:induction false} KeptAsOften(overrides: seq<HostOverride>, e: HostOverride)
    ensures multiset(KeptPins(overrides))[e] == if Kept(overrides, e) then multiset(overrides)[e] else 0
  {
    hide Kept, EqIgnoreCase, FirstOfDomains, PinsOfDomains;
    DomainsOffered(overrides);
    DomainsDiffer(overrides);
    KeptPinsIff(overrides);
    PinsOfDomainsMultiplicity(overrides, FirstOfDomains(overrides), e);
  }

  lemma AllocationMeaning(overrides: seq<HostOverride>)
    ensures var a := Allocated(overrides);
            a.active.Keys == RelayedIps(overrides) && NamedByPins(a.active, overrides) &&
            a.directOnly == DirectOnlyIps(overrides) && forall e :: e in a.writable <==> Written(overrides, e)
  {
    KeptPinsIff(overrides);
    hide Kept, Direct, IsPinnedRouteAssistDirectDomain, KeptPins;
    forall e | Kept(overrides, e)
      ensures e in overrides
    {
      KeptIsOffered(overrides, e);
    }
  }

  lemma KeptIsOffered(overrides: seq<HostOverride>, e: HostOverride)
    requires Kept(overrides, e)
    ensures e in overrides
  {
  }

  // What is written: every kept pin of a relayed domain, and of the direct ones exactly the kept
  // pins of pinned hosts at addresses that no kept relayed pin has.
  lemma WrittenIff(overrides: seq<HostOverride>, e: HostOverride)
    requires Kept(overrides, e)
    ensures !Direct(e) ==> Written(overrides, e)
    ensures Direct(e) ==>
      (Written(overrides, e) <==>
       IsPinnedRouteAssistDirectDomain(e.domain) && forall x :: x in overrides && Kept(overrides, x) && !Direct(x) ==> x.ip != e.ip)
  {
    hide Kept, Direct, IsPinnedRouteAssistDirectDomain;
    KeptIsOffered(overrides, e);
  }

  // Every domain keeps a pin.
  lemma EveryDomainKeepsAPin(overrides: seq<HostOverride>, e: HostOverride)
    requires e in overrides
    ensures exists k :: Kept(overrides, k) && EqIgnoreCase(k.domain, e.domain)
  {
    hide ConflictFree;
    SameDomain(e.domain);
    if Cornered(overrides, e) {
      assert Kept(overrides, e);
    } else {
      var x :| x in overrides && EqIgnoreCase(x.domain, e.domain) && ConflictFree(overrides, x);
      assert Kept(overrides, x);
    }
  }

  // A relayed IP that a direct domain offers as well: exactly when a relayed domain with that IP
  // has no conflict-free IP.
  lemma SharedActiveIff(overrides: seq<HostOverride>, ip: Ipv4)
    requires ip in Pool(overrides, true)
    ensures ip in RelayedIps(overrides) <==>
            (exists e :: e in overrides && !Direct(e) && e.ip == ip && Cornered(overrides, e))
  {
    hide Direct, EqIgnoreCase;
    if e :| Kept(overrides, e) && !Direct(e) && e.ip == ip {
      assert !ConflictFree(overrides, e);
      assert Cornered(overrides, e);
    }
    if e :| e in overrides && !Direct(e) && e.ip == ip && Cornered(overrides, e) {
      assert Kept(overrides, e);
    }
  }

  // ----- Merging -----

  function EntriesFor(domain: string, ips: seq<Ipv4>): seq<HostOverride> {
    seq(|ips|, i requires 0 <= i < |ips| => HostOverride(ips[i], domain))
  }

  function NewEntries(resolved: seq<(string, seq<Ipv4>)>): seq<HostOverride> {
    if resolved == [] then []
    else
      var (domain, ips) := resolved[0];
      EntriesFor(domain, ips[..Min(|ips|, MAX_PINNED_IPS_PER_DOMAIN)]) + NewEntries(resolved[1..])
  }

  // What the relay's answers contribute: of every answer the first six addresses, each under the
  // answer's domain, and nothing else.
  lemma {:induction false} NewEntriesIff(resolved: seq<(string, seq<Ipv4>)>, e: HostOverride)
    ensures e in NewEntries(resolved) <==>
            exists i, k :: 0 <= i < |resolved| && 0 <= k < |resolved[i].1| && k < 6 && e == HostOverride(resolved[i].1[k], resolved[i].0)
  {
    if resolved != [] {
      var (domain, ips) := resolved[0];
      var mine := EntriesFor(domain, ips[..Min(|ips|, 6)]);
      assert NewEntries(resolved) == mine + NewEntries(resolved[1..]);
      NewEntriesIff(resolved[1..], e);
      if k :| 0 <= k < |mine| && mine[k] == e {
        assert e == HostOverride(resolved[0].1[k], resolved[0].0);
      }
      if i, k :| 0 <= i < |resolved[1..]| && 0 <= k < |resolved[1..][i].1| && k < 6 &&
                 e == HostOverride(resolved[1..][i].1[k], resolved[1..][i].0) {
        assert resolved[1..][i] == resolved[i + 1];
      }
      if i, k :| 0 <= i < |resolved| && 0 <= k < |resolved[i].1| && k < 6 && e == HostOverride(resolved[i].1[k], resolved[i].0) {
        if i == 0 {
          assert mine[k] == e;
        } else {
          assert resolved[1..][i - 1] == resolved[i];
        }
      }
    }
  }

  function KeyOf(e: HostOverride): (string, Ipv4) {
    (Lower(e.domain), e.ip)
  }

  lemma SameKeyIff(a: HostOverride, b: HostOverride)
    ensures KeyOf(a) == KeyOf(b) <==> a.ip == b.ip && EqIgnoreCase(a.domain, b.domain)
  {
  }

  // The first entry of every (domain, IP), in order.
  function Merged(entries: seq<HostOverride>): seq<HostOverride> {
    if entries == [] then []
    else
      var n := |entries| - 1;
      if exists i :: 0 <= i < n && KeyOf(entries[i]) == KeyOf(entries[n]) then Merged(entries[..n])
      else Merged(entries[..n]) + [entries[n]]
  }

  // `entry(ip).or_insert(domain)` for each pin: known IPs keep their name.
  function Extended(active: map<Ipv4, string>, pins: seq<HostOverride>): map<Ipv4, string> {
    if pins == [] then active
    else
      var n := |pins| - 1;
      var before := Extended(active, pins[..n]);
      if pins[n].ip in before then before else before[pins[n].ip := pins[n].domain]
  }

  // `merged` has every (domain, IP) of `entries` once, and nothing else.
  ghost predicate Deduplicates(entries: seq<HostOverride>, merged: seq<HostOverride>) {
    (forall e :: e in merged ==> e in entries) &&
    (forall e :: e in entries ==> exists m :: m in merged && KeyOf(m) == KeyOf(e)) &&
    (forall i, j :: 0 <= i < j < |merged| ==> KeyOf(merged[i]) != KeyOf(merged[j]))
  }

  method ExtendActive(active: map<Ipv4, string>, merged: seq<HostOverride>) returns (added: map<Ipv4, string>)
    ensures added == Extended(active, merged)
    ensures added.Keys == active.Keys + IpsOf(merged)
    ensures forall ip :: ip in added ==>
      if ip in active then added[ip] == active[ip] else HostOverride(ip, added[ip]) in merged
  {
    added := active;
    for i := 0 to |merged|
      invariant added == Extended(active, merged[..i])
    {
      assert merged[..i + 1][..i] == merged[..i];
      if merged[i].ip !in added {
        added := added[merged[i].ip := merged[i].domain];
      }
    }
    assert merged[..|merged|] == merged;
    ExtendedNames(active, merged);
  }

  lemma {:induction false} ExtendedNames(active: map<Ipv4, string>, pins: seq<HostOverride>)
    ensures var added := Extended(active, pins);
            added.Keys == active.Keys + IpsOf(pins) &&
            forall ip :: ip in added ==>
              if ip in active then added[ip] == active[ip] else HostOverride(ip, added[ip]) in pins
  {
    if pins != [] {
      var n := |pins| - 1;
      ExtendedNames(active, pins[..n]);
      assert pins == pins[..n] + [pins[n]];
      assert IpsOf(pins) == IpsOf(pins[..n]) + {pins[n].ip};
    }
  }

  method MergeOverrides(entries: seq<HostOverride>) returns (merged: seq<HostOverride>)
    ensures merged == Merged(entries) && Deduplicates(entries, merged)
  {
    hide KeyOf, Deduplicates;
    var seen: set<(string, Ipv4)> := {};
    merged := [];
    for i := 0 to |entries|
      invariant merged == Merged(entries[..i])
      invariant seen == set j | 0 <= j < i :: KeyOf(entries[j])
    {
      var e := entries[i];
      assert entries[..i + 1][..i] == entries[..i];
      if KeyOf(e) !in seen {
        seen := seen + {KeyOf(e)};
        merged := merged + [e];
      }
    }
    assert entries[..|entries|] == entries;
    MergedOnce(entries);
  }

  // Each (domain, IP) is represented by its first entry.
  ghost predicate FirstOfKey(entries: seq<HostOverride>, e: HostOverride) {
    exists i :: 0 <= i < |entries| && entries[i] == e && forall j :: 0 <= j < i ==> KeyOf(entries[j]) != KeyOf(e)
  }

  lemma {:induction false} MergedIsFirst(entries: seq<HostOverride>, e: HostOverride)
    ensures e in Merged(entries) <==> FirstOfKey(entries, e)
  {
    hide KeyOf;
    if entries != [] {
      var n := |entries| - 1;
      MergedIsFirst(entries[..n], e);
      assert forall i :: 0 <= i < n ==> entries[..n][i] == entries[i];
    }
  }

  lemma {:induction false} FirstExists(entries: seq<HostOverride>, i: nat) returns (m: HostOverride)
    requires i < |entries|
    ensures FirstOfKey(entries, m) && KeyOf(m) == KeyOf(entries[i])
    decreases i
  {
    hide KeyOf;
    if j :| 0 <= j < i && KeyOf(entries[j]) == KeyOf(entries[i]) {
      m := FirstExists(entries, j);
    } else {
      m := entries[i];
    }
  }

  lemma {:induction false} MergedDiffer(entries: seq<HostOverride>)
    ensures var merged := Merged(entries);
            forall i, j :: 0 <= i < j < |merged| ==> KeyOf(merged[i]) != KeyOf(merged[j])
  {
    hide KeyOf;
    if entries != [] {
      var n := |entries| - 1;
      var before := Merged(entries[..n]);
      MergedDiffer(entries[..n]);
      forall i | 0 <= i < |before|
        ensures exists k :: 0 <= k < n && entries[k] == before[i]
      {
        MergedIsFirst(entries[..n], before[i]);
        assert before[i] in before;
        var k :| 0 <= k < n && entries[..n][k] == before[i];
        assert entries[k] == before[i];
      }
    }
  }

  lemma MergedOnce(entries: seq<HostOverride>)
    ensures Deduplicates(entries, Merged(entries))
  {
    hide KeyOf, Merged;
    MergedDiffer(entries);
    forall e | e in Merged(entries)
      ensures e in entries
    {
      MergedIsFirst(entries, e);
    }
    forall e | e in entries
      ensures exists m :: m in Merged(entries) && KeyOf(m) == KeyOf(e)
    {
      var i :| 0 <= i < |entries| && entries[i] == e;
      var m := FirstExists(entries, i);
      MergedIsFirst(entries, m);
    }
  }

  lemma DeduplicatedIps(entries: seq<HostOverride>, merged: seq<HostOverride>)
    requires Deduplicates(entries, merged)
    ensures IpsOf(merged) == IpsOf(entries)
  {
    forall e | e in entries
      ensures e.ip in IpsOf(merged)
    {
      var m :| m in merged && KeyOf(m) == KeyOf(e);
    }
  }
}
