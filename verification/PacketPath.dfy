// The reader's dispatch, and private flow caches against one shared cache
// (src/split_tunnel/interceptor.rs).
module PacketPath {
  import opened Basics
  import opened ProcessCache
  import opened Interceptor

  // ----- The reader: one batch of frames -----

  datatype Frame = Frame(outbound: bool, data: seq<Byte>)

  datatype Destination = Worker(id: nat) | Adapter | Mstcp

  // Where a frame goes. `accepted` tells whether the worker's queue had room.
  function Route(frame: Frame, workers: nat, accepted: bool): Destination
    requires workers > 0
  {
    if !frame.outbound then Mstcp
    else
      match ParsePorts(frame.data)
      case None => Adapter
      case Some((srcPort, _)) => if accepted then Worker(srcPort % workers) else Adapter
  }

  function Routes(frames: seq<Frame>, workers: nat, accepted: seq<bool>): seq<Destination>
    requires workers > 0 && |accepted| == |frames|
  {
    seq(|frames|, i requires 0 <= i < |frames| => Route(frames[i], workers, accepted[i]))
  }

  // The frames sent to `d`, in arrival order.
  function Sent(frames: seq<Frame>, routes: seq<Destination>, d: Destination): seq<Frame>
    requires |frames| == |routes|
  {
    if frames == [] then []
    else
      var n := |frames| - 1;
      Sent(frames[..n], routes[..n], d) + (if routes[n] == d then [frames[n]] else [])
  }

  function Copies(frames: seq<Frame>): seq<seq<Byte>> {
    seq(|frames|, i requires 0 <= i < |frames| => Copied(frames[i].data))
  }

  // What each worker's queue receives.
  function Queues(frames: seq<Frame>, workers: nat, accepted: seq<bool>): seq<seq<seq<Byte>>>
    requires workers > 0 && |accepted| == |frames|
  {
    seq(workers, w requires 0 <= w < workers => Copies(Sent(frames, Routes(frames, workers, accepted), Worker(w))))
  }

  method DispatchBatch(frames: seq<Frame>, workers: nat, accepted: seq<bool>)
    returns (queues: seq<seq<seq<Byte>>>, toAdapter: seq<Frame>, toMstcp: seq<Frame>)
    requires workers > 0 && |accepted| == |frames|
    ensures |queues| == workers
    ensures var routes := Routes(frames, workers, accepted);
            (forall w :: 0 <= w < workers ==> queues[w] == Copies(Sent(frames, routes, Worker(w)))) &&
            toAdapter == Sent(frames, routes, Adapter) && toMstcp == Sent(frames, routes, Mstcp) &&
            multiset(frames) == Shares(frames, routes, workers)
    ensures queues == Queues(frames, workers, accepted)
    // A queue holds only frames of its source ports, and all that were accepted.
    ensures forall w, c :: 0 <= w < workers && c in queues[w] ==>
              ParseFlow(c).Some? && ParseFlow(c).value.srcPort % workers == w
    ensures forall i :: 0 <= i < |frames| && frames[i].outbound && ParsePorts(frames[i].data).Some? && accepted[i] ==>
              Copied(frames[i].data) in queues[ParsePorts(frames[i].data).value.0 % workers]
    // The adapter gets the outbound frames without ports or room, MSTCP the inbound ones.
    ensures forall i :: 0 <= i < |frames| ==>
              if !frames[i].outbound then frames[i] in toMstcp
              else (ParsePorts(frames[i].data).None? || !accepted[i]) ==> frames[i] in toAdapter
    ensures (forall f :: f in toMstcp ==> !f.outbound) && forall f :: f in toAdapter ==> f.outbound
  {
    hide ParsePorts, ParseFlow, Copied, Shares;
    ghost var routes := Routes(frames, workers, accepted);
    queues := seq(workers, _ => []);
    toAdapter, toMstcp := [], [];
    for i := 0 to |frames|
      invariant |queues| == workers
      invariant forall w :: 0 <= w < workers ==> queues[w] == Copies(Sent(frames[..i], routes[..i], Worker(w)))
      invariant toAdapter == Sent(frames[..i], routes[..i], Adapter)
      invariant toMstcp == Sent(frames[..i], routes[..i], Mstcp)
    {
      var frame := frames[i];
      SentStep(frames, routes, i);
      if frame.outbound {
        var ports := ParsePorts(frame.data);
        if ports.Some? {
          var workerId := ports.value.0 % workers;
          if accepted[i] {
            queues := queues[workerId := queues[workerId] + [Copied(frame.data)]];
          } else {
            toAdapter := toAdapter + [frame];
          }
        } else {
          toAdapter := toAdapter + [frame];
        }
      } else {
        toMstcp := toMstcp + [frame];
      }
    }
    assert frames[..|frames|] == frames && routes[..|frames|] == routes;
    BatchConserved(frames, routes, workers);
    DispatchMeans(frames, workers, accepted);
  }

  // The queues and the rest in terms of ports and acceptance.
  lemma DispatchMeans(frames: seq<Frame>, workers: nat, accepted: seq<bool>)
    requires workers > 0 && |accepted| == |frames|
    ensures var queues := Queues(frames, workers, accepted);
            (forall w, c :: 0 <= w < workers && c in queues[w] ==> ParseFlow(c).Some? && ParseFlow(c).value.srcPort % workers == w) &&
            forall i :: 0 <= i < |frames| && frames[i].outbound && ParsePorts(frames[i].data).Some? && accepted[i] ==>
              Copied(frames[i].data) in queues[ParsePorts(frames[i].data).value.0 % workers]
    ensures var routes := Routes(frames, workers, accepted);
            (forall i :: 0 <= i < |frames| ==>
               if !frames[i].outbound then frames[i] in Sent(frames, routes, Mstcp)
               else (ParsePorts(frames[i].data).None? || !accepted[i]) ==> frames[i] in Sent(frames, routes, Adapter)) &&
            (forall f :: f in Sent(frames, routes, Mstcp) ==> !f.outbound) &&
            forall f :: f in Sent(frames, routes, Adapter) ==> f.outbound
  {
    hide ParsePorts, ParseFlow, Copied, Sent;
    var queues, routes := Queues(frames, workers, accepted), Routes(frames, workers, accepted);
    forall w, c | 0 <= w < workers && c in queues[w]
      ensures ParseFlow(c).Some? && ParseFlow(c).value.srcPort % workers == w
    {
      QueuedByPort(frames, workers, accepted, w, c);
    }
    forall i | 0 <= i < |frames|
      ensures frames[i].outbound && ParsePorts(frames[i].data).Some? && accepted[i] ==>
                Copied(frames[i].data) in queues[ParsePorts(frames[i].data).value.0 % workers]
      ensures if !frames[i].outbound then frames[i] in Sent(frames, routes, Mstcp)
              else (ParsePorts(frames[i].data).None? || !accepted[i]) ==> frames[i] in Sent(frames, routes, Adapter)
    {
      SentIff(frames, routes, routes[i], frames[i]);
      if routes[i].Worker? {
        CopyIsIn(Sent(frames, routes, routes[i]), frames[i]);
      }
    }
    forall f | f in Sent(frames, routes, Mstcp)
      ensures !f.outbound
    {
      SentIff(frames, routes, Mstcp, f);
    }
    forall f | f in Sent(frames, routes, Adapter)
      ensures f.outbound
    {
      SentIff(frames, routes, Adapter, f);
    }
  }

  lemma {:induction false} SentIff(frames: seq<Frame>, routes: seq<Destination>, d: Destination, f: Frame)
    requires |frames| == |routes|
    ensures f in Sent(frames, routes, d) <==> exists i :: 0 <= i < |frames| && routes[i] == d && frames[i] == f
  {
    if frames != [] {
      var n := |frames| - 1;
      SentIff(frames[..n], routes[..n], d, f);
    }
  }

  lemma CopyIsIn(frames: seq<Frame>, f: Frame)
    requires f in frames
    ensures Copied(f.data) in Copies(frames)
  {
    hide Copied;
    var i :| 0 <= i < |frames| && frames[i] == f;
    assert Copies(frames)[i] == Copied(f.data);
  }

  // A queued copy parses, and its source port is one of its worker's.
  lemma QueuedByPort(frames: seq<Frame>, workers: nat, accepted: seq<bool>, w: nat, c: seq<Byte>)
    requires workers > w && |accepted| == |frames| && c in Queues(frames, workers, accepted)[w]
    ensures ParseFlow(c).Some? && ParseFlow(c).value.srcPort % workers == w
  {
    hide ParsePorts, ParseFlow, Copied, Sent;
    var routes := Routes(frames, workers, accepted);
    var sent := Sent(frames, routes, Worker(w));
    var k :| 0 <= k < |sent| && Copied(sent[k].data) == c;
    SentIff(frames, routes, Worker(w), sent[k]);
    var i :| 0 <= i < |frames| && routes[i] == Worker(w) && frames[i] == sent[k];
    CopyKeepsPorts(frames[i].data);
  }

  // Batches add up: dispatching two after another fills the queues as dispatching both at once.
  lemma {:induction false} SentAppend(a: seq<Frame>, ra: seq<Destination>, b: seq<Frame>, rb: seq<Destination>, d: Destination)
    requires |a| == |ra| && |b| == |rb|
    ensures Sent(a + b, ra + rb, d) == Sent(a, ra, d) + Sent(b, rb, d)
  {
    if b == [] {
      assert a + b == a && ra + rb == ra;
    } else {
      var n := |b| - 1;
      SentAppend(a, ra, b[..n], rb[..n], d);
      assert (a + b)[..|a| + n] == a + b[..n] && (ra + rb)[..|a| + n] == ra + rb[..n];
    }
  }

  lemma BatchesAddUp(a: seq<Frame>, aa: seq<bool>, b: seq<Frame>, ba: seq<bool>, workers: nat, w: nat)
    requires w < workers && |aa| == |a| && |ba| == |b|
    ensures Queues(a + b, workers, aa + ba)[w] == Queues(a, workers, aa)[w] + Queues(b, workers, ba)[w]
  {
    hide Route, Sent, Copied;
    var ra, rb := Routes(a, workers, aa), Routes(b, workers, ba);
    assert Routes(a + b, workers, aa + ba) == ra + rb;
    SentAppend(a, ra, b, rb, Worker(w));
    var sa, sb := Sent(a, ra, Worker(w)), Sent(b, rb, Worker(w));
    assert Copies(sa + sb) == Copies(sa) + Copies(sb);
  }

  lemma SentStep(frames: seq<Frame>, routes: seq<Destination>, i: nat)
    requires |frames| == |routes| && i < |frames|
    ensures forall d :: Sent(frames[..i + 1], routes[..i + 1], d) ==
                        Sent(frames[..i], routes[..i], d) + (if routes[i] == d then [frames[i]] else [])
    ensures forall d :: Copies(Sent(frames[..i], routes[..i], d) + [frames[i]]) ==
                        Copies(Sent(frames[..i], routes[..i], d)) + [Copied(frames[i].data)]
  {
    assert frames[..i + 1][..i] == frames[..i] && routes[..i + 1][..i] == routes[..i];
  }

  // Everything sent to workers 0..w.
  function SentToWorkers(frames: seq<Frame>, routes: seq<Destination>, w: nat): multiset<Frame>
    requires |frames| == |routes|
  {
    if w == 0 then multiset{}
    else SentToWorkers(frames, routes, w - 1) + multiset(Sent(frames, routes, Worker(w - 1)))
  }

  // The last frame of a batch, as a multiset: counted at its destination only.
  lemma SentLast(frames: seq<Frame>, routes: seq<Destination>, d: Destination)
    requires |frames| == |routes| && frames != []
    ensures var n := |frames| - 1;
            var before := multiset(Sent(frames[..n], routes[..n], d));
            multiset(Sent(frames, routes, d)) == if routes[n] == d then before + multiset{frames[n]} else before
  {
    var n := |frames| - 1;
    var before, last := Sent(frames[..n], routes[..n], d), if routes[n] == d then [frames[n]] else [];
    assert multiset(before + last) == multiset(before) + multiset(last);
  }

  // One of three shares grows by `x`.
  lemma OneShareGrows<T>(a: multiset<T>, b: multiset<T>, c: multiset<T>, x: multiset<T>,
                         a': multiset<T>, b': multiset<T>, c': multiset<T>)
    requires (a' == a + x && b' == b && c' == c) || (a' == a && b' == b + x && c' == c) ||
             (a' == a && b' == b && c' == c + x)
    ensures a' + b' + c' == a + b + c + x
  {
  }

  lemma {:induction false} WorkersStep(frames: seq<Frame>, routes: seq<Destination>, w: nat)
    requires |frames| == |routes| && frames != []
    ensures var n := |frames| - 1;
            var before := SentToWorkers(frames[..n], routes[..n], w);
            SentToWorkers(frames, routes, w) ==
            if routes[n].Worker? && routes[n].id < w then before + multiset{frames[n]} else before
  {
    hide Sent;
    if w > 0 {
      WorkersStep(frames, routes, w - 1);
      SentLast(frames, routes, Worker(w - 1));
    }
  }

  function Shares(frames: seq<Frame>, routes: seq<Destination>, workers: nat): multiset<Frame>
    requires |frames| == |routes|
  {
    SentToWorkers(frames, routes, workers) + multiset(Sent(frames, routes, Adapter)) + multiset(Sent(frames, routes, Mstcp))
  }

  lemma LastShare(frames: seq<Frame>, routes: seq<Destination>, workers: nat)
    requires |frames| == |routes| && frames != []
    requires var d := routes[|frames| - 1]; d.Worker? ==> d.id < workers
    ensures var n := |frames| - 1;
            Shares(frames, routes, workers) == Shares(frames[..n], routes[..n], workers) + multiset{frames[n]}
  {
    hide Sent, SentToWorkers;
    var n := |frames| - 1;
    var fs, rs := frames[..n], routes[..n];
    WorkersStep(frames, routes, workers);
    SentLast(frames, routes, Adapter);
    SentLast(frames, routes, Mstcp);
    OneShareGrows(SentToWorkers(fs, rs, workers), multiset(Sent(fs, rs, Adapter)), multiset(Sent(fs, rs, Mstcp)),
                  multiset{frames[n]}, SentToWorkers(frames, routes, workers),
                  multiset(Sent(frames, routes, Adapter)), multiset(Sent(frames, routes, Mstcp)));
  }

  // Conservation: a batch leaves as the workers' share, the adapter's and MSTCP's, each frame
  // exactly once.
  lemma {:induction false} BatchConserved(frames: seq<Frame>, routes: seq<Destination>, workers: nat)
    requires |frames| == |routes|
    requires forall i :: 0 <= i < |routes| ==> routes[i].Worker? ==> routes[i].id < workers
    ensures multiset(frames) == Shares(frames, routes, workers)
  {
    hide Shares;
    if frames == [] {
      NothingSent(routes, workers);
    } else {
      var n := |frames| - 1;
      BatchConserved(frames[..n], routes[..n], workers);
      LastShare(frames, routes, workers);
      assert frames == frames[..n] + [frames[n]];
    }
  }

  lemma {:induction false} NothingSent(routes: seq<Destination>, w: nat)
    requires routes == []
    ensures Shares([], routes, w) == SentToWorkers([], routes, w) == multiset{}
  {
    if w > 0 {
      NothingSent(routes, w - 1);
    }
  }

  // ----- Private caches against one shared cache -----

  // One classification: the worker, the copy it took from its queue, and what the environment
  // shows at that moment. The direct-only set is not an input: it is the state learning changes.
  datatype Work = Work(worker: nat, data: seq<Byte>, env: Env)
  {
    function EnvWith(directOnly: set<Ipv4>): Env {
      env.(bootstrap := env.bootstrap.(directOnly := directOnly))
    }
  }

  // The decision on one packet, and the cache and direct-only set after it.
  function Decide(work: Work, snapshot: ProcessSnapshot, cache: set<FlowKey>, directOnly: set<Ipv4>)
    : (bool, set<FlowKey>, set<Ipv4>)
  {
    var env := work.EnvWith(directOnly);
    var decision := Tunnels(work.data, snapshot, cache, env);
    (decision, CacheAfter(work.data, snapshot, cache, env), BootstrapAfter(work.data, decision, env).directOnly)
  }

  datatype SharedState = SharedState(decisions: seq<bool>, cache: set<FlowKey>, directOnly: set<Ipv4>)

  datatype ShardedState = ShardedState(decisions: seq<bool>, caches: seq<set<FlowKey>>, directOnly: set<Ipv4>)

  function RunShared(works: seq<Work>, snapshot: ProcessSnapshot, directOnly: set<Ipv4>): SharedState {
    hide Decide;
    if works == [] then SharedState([], {}, directOnly)
    else
      var n := |works| - 1;
      var s := RunShared(works[..n], snapshot, directOnly);
      var (decision, cache, learned) := Decide(works[n], snapshot, s.cache, s.directOnly);
      SharedState(s.decisions + [decision], cache, learned)
  }

  function RunSharded(works: seq<Work>, snapshot: ProcessSnapshot, directOnly: set<Ipv4>, workers: nat): (s: ShardedState)
    requires forall x :: x in works ==> x.worker < workers
    ensures |s.caches| == workers
  {
    hide Decide;
    if works == [] then ShardedState([], seq(workers, _ => {}), directOnly)
    else
      var n := |works| - 1;
      var s := RunSharded(works[..n], snapshot, directOnly, workers);
      var w := works[n].worker;
      var (decision, cache, learned) := Decide(works[n], snapshot, s.caches[w], s.directOnly);
      ShardedState(s.decisions + [decision], s.caches[w := cache], learned)
  }

  // Worker `w` holds exactly the shared entries whose port belongs to it. So the private caches
  // are disjoint and their union is the shared cache.
  ghost predicate Partition(caches: seq<set<FlowKey>>, shared: set<FlowKey>) {
    forall w, k {:trigger k in caches[w]} :: 0 <= w < |caches| ==>
      (k in caches[w] <==> k in shared && k.port % |caches| == w)
  }

  ghost predicate Refines(sharded: ShardedState, shared: SharedState) {
    sharded.decisions == shared.decisions && sharded.directOnly == shared.directOnly &&
    Partition(sharded.caches, shared.cache)
  }

  // No cache reaches its bound during the run.
  ghost predicate RoomThroughout(works: seq<Work>, snapshot: ProcessSnapshot, directOnly: set<Ipv4>) {
    forall i :: 0 <= i < |works| ==> |RunShared(works[..i], snapshot, directOnly).cache| < MAX_CACHE_ENTRIES
  }

  lemma SubsetSize<T>(a: set<T>, b: set<T>)
    requires a <= b
    ensures |a| <= |b|
  {
    if a != {} {
      var x :| x in a;
      SubsetSize(a - {x}, b - {x});
    }
  }

  // One packet of worker `w` is decided alike by its private cache and by the shared cache.
  lemma DecideAlike(data: seq<Byte>, snapshot: ProcessSnapshot, caches: seq<set<FlowKey>>, w: nat, shared: set<FlowKey>, env: Env)
    requires w < |caches| && Partition(caches, shared) && |shared| < MAX_CACHE_ENTRIES
    requires ParseFlow(data).Some? ==> ParseFlow(data).value.srcPort % |caches| == w
    ensures Tunnels(data, snapshot, caches[w], env) == Tunnels(data, snapshot, shared, env)
    ensures Partition(caches[w := CacheAfter(data, snapshot, caches[w], env)], CacheAfter(data, snapshot, shared, env))
  {
    assert caches[w] <= shared by {
      assert forall k :: k in caches[w] ==> k in shared;
    }
    SubsetSize(caches[w], shared);
    hide ParseFlow, Recognised, FlowTunnels;
    if ParseFlow(data).Some? {
      var f := ParseFlow(data).value;
      assert f.Key().port % |caches| == w;
      assert f.Key() in caches[w] <==> f.Key() in shared;
    } else {
      assert caches[w := caches[w]] == caches;
    }
  }

  // Each worker decides only packets of its own source ports.
  ghost predicate OwnPorts(works: seq<Work>, workers: nat) {
    forall x :: x in works ==>
      x.worker < workers && (ParseFlow(x.data).Some? ==> ParseFlow(x.data).value.srcPort % workers == x.worker)
  }

  lemma {:induction false} OwnPortsRefine(works: seq<Work>, snapshot: ProcessSnapshot, directOnly: set<Ipv4>, workers: nat)
    requires OwnPorts(works, workers) && RoomThroughout(works, snapshot, directOnly)
    ensures Refines(RunSharded(works, snapshot, directOnly, workers), RunShared(works, snapshot, directOnly))
  {
    hide ParseFlow, Tunnels, CacheAfter, BootstrapAfter, Partition;
    if works == [] {
      EmptyPartition(workers);
    } else {
      var n := |works| - 1;
      var before := works[..n];
      forall i | 0 <= i < n
        ensures |RunShared(before[..i], snapshot, directOnly).cache| < MAX_CACHE_ENTRIES
      {
        assert before[..i] == works[..i];
      }
      OwnPortsRefine(before, snapshot, directOnly, workers);
      var sharded, shared := RunSharded(before, snapshot, directOnly, workers), RunShared(before, snapshot, directOnly);
      DecideAlike(works[n].data, snapshot, sharded.caches, works[n].worker, shared.cache, works[n].EnvWith(shared.directOnly));
    }
  }

  // Every packet decided was taken from its worker's own queue, as the reader filled it.
  ghost predicate TakenFrom(queues: seq<seq<seq<Byte>>>, works: seq<Work>) {
    forall x :: x in works ==> x.worker < |queues| && x.data in queues[x.worker]
  }

  // Main result: for every worker count, every sequence of frames the reader dispatches and every
  // order in which workers take packets from their own queues, private caches give each packet the
  // shared cache's decision and learn the same addresses.
  lemma {:induction false} ShardingRefinesSharedCache(frames: seq<Frame>, accepted: seq<bool>, works: seq<Work>,
                                                      snapshot: ProcessSnapshot, directOnly: set<Ipv4>, workers: nat)
    requires workers > 0 && |accepted| == |frames|
    requires TakenFrom(Queues(frames, workers, accepted), works) && RoomThroughout(works, snapshot, directOnly)
    ensures Refines(RunSharded(works, snapshot, directOnly, workers), RunShared(works, snapshot, directOnly))
  {
    hide ParseFlow, Refines, RunShared, RunSharded, RoomThroughout, Routes, Sent;
    forall x | x in works
      ensures x.worker < workers && ParseFlow(x.data).Some? && ParseFlow(x.data).value.srcPort % workers == x.worker
    {
      QueuedByPort(frames, workers, accepted, x.worker, x.data);
    }
    OwnPortsRefine(works, snapshot, directOnly, workers);
  }

  lemma EmptyPartition(workers: nat)
    ensures Partition(seq(workers, _ => {}), {})
  {
  }

  lemma PartitionIsDisjointUnion(caches: seq<set<FlowKey>>, shared: set<FlowKey>)
    requires |caches| > 0 && Partition(caches, shared)
    ensures forall v, w :: 0 <= v < w < |caches| ==> caches[v] !! caches[w]
    ensures forall k :: k in shared <==> exists w :: 0 <= w < |caches| && k in caches[w]
  {
    forall k | k in shared
      ensures exists w :: 0 <= w < |caches| && k in caches[w]
    {
      assert k in caches[k.port % |caches|];
    }
  }
}
