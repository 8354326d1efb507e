// The asset-relay picker (src/vpn/connection.rs). A shuffle is an arbitrary permutation: the
// picker takes the two shuffled lists as inputs, and its guarantees hold for all of them.
module AssetRelays {
  import opened Basics

  // A known server; its latency plays no part in the choice.
  datatype Server = Server(region: string, addr: SocketAddr)

  predicate RegionMatches(serverRegion: string, region: string) {
    serverRegion == region || region <= serverRegion || serverRegion <= region
  }

  // Two regions match when one continues the other.
  lemma RegionMatchesIff(a: string, b: string)
    ensures RegionMatches(a, b) <==> exists tail: string :: a == b + tail || b == a + tail
  {
    if b <= a {
      assert a == b + a[|b|..];
    }
    if a <= b {
      assert b == a + b[|a|..];
    }
  }

  function FarServers(available: seq<Server>, region: string): seq<Server> {
    Filter(available, (s: Server) => !RegionMatches(s.region, region))
  }

  function Ips(servers: seq<Server>): set<Ipv4> {
    set s | s in servers :: s.addr.ip
  }

  // The IPs a list offers besides the gameplay relay's.
  function Offered(servers: seq<Server>, primary: SocketAddr): set<Ipv4> {
    Ips(servers) - {primary.ip}
  }

  ghost predicate DistinctIps(servers: seq<Server>) {
    forall i, j :: 0 <= i < j < |servers| ==> servers[i].addr.ip != servers[j].addr.ip
  }

  lemma {:induction false} DistinctCount(servers: seq<Server>)
    requires DistinctIps(servers)
    ensures |Ips(servers)| == |servers|
  {
    if servers != [] {
      DistinctCount(servers[1..]);
      assert servers == [servers[0]] + servers[1..];
      assert Ips(servers) == Ips(servers[1..]) + {servers[0].addr.ip};
    }
  }

  lemma SubsetCount(a: set<Ipv4>, b: set<Ipv4>)
    requires a <= b
    ensures |a| <= |b| && (|a| == |b| ==> a == b)
  {
    if a != b {
      var x :| x in b && x !in a;
      SubsetCount(a, b - {x});
    }
  }

  lemma PermutedIps(a: seq<Server>, b: seq<Server>)
    requires multiset(a) == multiset(b)
    ensures Ips(a) == Ips(b) && forall s :: s in a <==> s in b
  {
    assert forall s :: s in a <==> s in multiset(a);
    assert forall s :: s in b <==> s in multiset(b);
  }

  lemma PushIps(servers: seq<Server>, s: Server)
    ensures Ips(servers + [s]) == Ips(servers) + {s.addr.ip}
  {
    assert forall x :: x in servers + [s] <==> x in servers || x == s;
    assert s in servers + [s];
    forall ip | ip in Ips(servers) ensures ip in Ips(servers + [s]) {
      var x :| x in servers && x.addr.ip == ip;
      assert x in servers + [s];
    }
  }

  lemma FrontOfPool(pool: seq<Server>, count: nat)
    requires count <= |pool| && DistinctIps(pool)
    ensures DistinctIps(pool[..count]) && Ips(pool[..count]) <= Ips(pool)
    ensures forall s :: s in pool[..count] ==> s in pool
  {
    assert forall s :: s in pool[..count] ==> s in pool;
  }

  // The first server of each IP, in order, leaving out the gameplay relay's IP.
  function FirstOfIps(servers: seq<Server>, primary: SocketAddr): seq<Server> {
    if servers == [] then []
    else
      var n := |servers| - 1;
      var before := FirstOfIps(servers[..n], primary);
      if servers[n].addr.ip == primary.ip || servers[n].addr.ip in Ips(servers[..n]) then before else before + [servers[n]]
  }

  lemma {:induction false} FirstOfIpsIff(servers: seq<Server>, primary: SocketAddr, s: Server)
    ensures s in FirstOfIps(servers, primary) <==>
            s.addr.ip != primary.ip &&
            exists i :: 0 <= i < |servers| && servers[i] == s && forall j :: 0 <= j < i ==> servers[j].addr.ip != s.addr.ip
  {
    if servers != [] {
      var n := |servers| - 1;
      FirstOfIpsIff(servers[..n], primary, s);
      assert servers[n].addr.ip in Ips(servers[..n]) <==> exists j :: 0 <= j < n && servers[j].addr.ip == servers[n].addr.ip by {
        forall j | 0 <= j < n && servers[j].addr.ip == servers[n].addr.ip
          ensures servers[n].addr.ip in Ips(servers[..n])
        {
          assert servers[..n][j] in servers[..n];
        }
      }
      assert forall i :: 0 <= i < n ==> servers[..n][i] == servers[i];
    }
  }

  method Dedup(servers: seq<Server>, primary: SocketAddr) returns (out: seq<Server>)
    ensures out == FirstOfIps(servers, primary)
    ensures DistinctIps(out) && Ips(out) == Offered(servers, primary)
    ensures forall s :: s in out ==> s in servers
  {
    var seen: set<Ipv4> := {};
    out := [];
    for i := 0 to |servers|
      invariant out == FirstOfIps(servers[..i], primary)
      invariant seen == Ips(out) == Offered(servers[..i], primary)
      invariant DistinctIps(out) && forall s :: s in out ==> s in servers
    {
      var s := servers[i];
      assert servers[..i + 1] == servers[..i] + [s];
      PushIps(servers[..i], s);
      if s.addr.ip != primary.ip && s.addr.ip !in seen {
        seen := seen + {s.addr.ip};
        PushIps(out, s);
        assert forall j :: 0 <= j < |out| ==> out[j].addr.ip in Ips(out);
        out := out + [s];
      }
    }
    assert servers[..|servers|] == servers;
  }

  method PickAssetRelays(available: seq<Server>, primary: SocketAddr, region: string, count: nat,
                         far: seq<Server>, rest: seq<Server>) returns (pool: seq<Server>)
    requires multiset(far) == multiset(FarServers(available, region))
    requires multiset(rest) == multiset(available)
    // Known servers with pairwise distinct IPs, never the gameplay relay's.
    ensures DistinctIps(pool) && Ips(pool) <= Offered(available, primary)
    // An IP some far server offers is used under such a server's region.
    ensures forall s :: s in pool ==>
      s in available && (s.addr.ip in Ips(FarServers(available, region)) ==> s in FarServers(available, region))
    // As many as asked for, or every IP there is.
    ensures |pool| == Min(count, |Offered(available, primary)|)
    // An IP no far server offers is used only once every far IP is.
    ensures !(Ips(pool) <= Ips(FarServers(available, region))) ==>
              Offered(FarServers(available, region), primary) <= Ips(pool)
  {
    assert forall s :: s in FarServers(available, region) ==> s in available;
    hide FarServers;
    var all, farIps := Offered(available, primary), Ips(FarServers(available, region));
    PermutedIps(far, FarServers(available, region));
    PermutedIps(rest, available);
    pool := Dedup(far, primary);
    assert Ips(pool) == farIps - {primary.ip};
    if |pool| < count {
      pool := FillPool(pool, rest, primary, count);
    }
    DistinctCount(pool);
    SubsetCount(Ips(pool), all);
    if |pool| > count {
      FrontOfPool(pool, count);
      pool := pool[..count];
    }
  }

  // The fallback loop: servers of any region, until the pool is full.
  method FillPool(start: seq<Server>, rest: seq<Server>, primary: SocketAddr, count: nat)
    returns (pool: seq<Server>)
    requires DistinctIps(start) && |start| < count && Ips(start) <= Offered(rest, primary)
    requires forall s :: s in start ==> s in rest
    ensures DistinctIps(pool) && |pool| <= count && start <= pool
    ensures Ips(start) <= Ips(pool) <= Offered(rest, primary)
    ensures forall s :: s in pool ==> s in start || (s in rest && s.addr.ip !in Ips(start))
    ensures |pool| == count || Ips(pool) == Offered(rest, primary)
  {
    pool := start;
    var candidates := Dedup(rest, primary);
    for i := 0 to |candidates|
      invariant DistinctIps(pool) && |pool| <= count && start <= pool
      invariant Ips(start) <= Ips(pool) <= Offered(rest, primary)
      invariant forall s :: s in pool ==> s in start || (s in rest && s.addr.ip !in Ips(start))
      invariant Ips(candidates[..i]) <= Ips(pool)
    {
      if |pool| >= count {
        return;
      }
      var s := candidates[i];
      assert s.addr.ip in Ips(candidates);
      assert candidates[..i + 1] == candidates[..i] + [s];
      PushIps(candidates[..i], s);
      if forall p :: p in pool ==> p.addr.ip != s.addr.ip {
        PushIps(pool, s);
        assert s.addr.ip !in Ips(pool);
        pool := pool + [s];
      }
    }
    assert candidates[..|candidates|] == candidates;
  }
}
