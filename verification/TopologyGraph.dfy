/** The topology object and the passes over its traffic-splits, as the controller runs them. */
module TopologyGraph {
  import opened Basics
  import opened Topologies
  import opened SplitGraph
  import opened SplitWalks
  import opened SplitTheorems
  import opened SplitPass

  class Topology {
    var services: map<Key, Service>
    var pods: map<Key, Pod>
    var targets: map<TargetKey, Target>
    var splits: map<Key, Split>

    constructor ()
      ensures View() == Topo(map[], map[], map[], map[])
    {
      services, pods, targets, splits := map[], map[], map[], map[];
    }

    function View(): Topo
      reads this
    {
      Topo(services, pods, targets, splits)
    }
  }

  /** The set of visited splits: shared by reference between the splits of one service. */
  class Visited {
    var keys: set<Key>

    constructor (keys: set<Key>)
      ensures this.keys == keys
    {
      this.keys := keys;
    }

    /** mapCopy */
    method Copy() returns (copy: Visited)
      ensures fresh(copy) && copy.keys == keys
    {
      copy := new Visited(keys);
    }
  }

  method UnionPods(pods1: Slice<Key>, pods2: Slice<Key>) returns (union: Slice<Key>)
    ensures union == UnionPod(pods1, pods2)
    ensures forall p :: p in union.Elems() <==> p in pods1.Elems() && (pods2.Nil? || p in pods2.items)
  {
    UnionPodMembers(pods1, pods2);
    if pods2.Nil? {
      return pods1;
    }
    union := Nil;
    var seen := set p | p in pods1.Elems();
    for i := 0 to |pods2.items|
      invariant KeepCommon(pods1.Elems(), pods2.items[i..], union) == UnionPod(pods1, pods2)
    {
      assert pods2.items[i..][1..] == pods2.items[i + 1..];
      if pods2.items[i] in seen {
        union := Append(union, [pods2.items[i]]);
      }
    }
  }

  method GetPodsForServiceWithNoTrafficSplits(topology: Topology, svc: Service) returns (r: Walk)
    ensures r == LeafPods(topology.View(), svc.trafficTargets, Nil)
  {
    var pods: Slice<Key> := Nil;
    ghost var t := topology.View();
    for i := 0 to |svc.trafficTargets|
      invariant LeafPods(t, svc.trafficTargets[i..], pods) == LeafPods(t, svc.trafficTargets, Nil)
    {
      var tk := svc.trafficTargets[i];
      assert svc.trafficTargets[i..][1..] == svc.trafficTargets[i + 1..];
      if tk !in topology.targets {
        return Failure(NoTarget(tk));
      }
      var sources := topology.targets[tk].sources;
      ghost var before := pods;
      for j := 0 to |sources|
        invariant AppendSources(sources[j..], pods) == AppendSources(sources, before)
      {
        assert sources[j..][1..] == sources[j + 1..];
        pods := Append(pods, sources[j].pods);
      }
    }
    r := Success(pods);
  }

  method GetIncomingPodsForTrafficSplit(topology: Topology, k: Key, visited: Visited) returns (r: Walk)
    requires k in topology.splits
    modifies visited
    ensures r == SplitWalk(topology.View(), k, old(visited.keys))
    ensures visited.keys == old(visited.keys) + {topology.splits[k].OwnKey()}
    decreases Unvisited(topology.View(), visited.keys), 0, 0
  {
    ghost var t := topology.View();
    var ts := topology.splits[k];
    var own := ts.OwnKey();
    if own in visited.keys {
      return Failure(Circular(own));
    }
    UnvisitedShrinks(t, visited.keys, {own});
    visited.keys := visited.keys + {own};
    var union: Slice<Key> := Nil;
    for i := 0 to |ts.backends|
      invariant visited.keys == old(visited.keys) + {own}
      invariant BackendsWalk(t, ts.backends[i..], visited.keys, union) == SplitWalk(t, k, old(visited.keys))
    {
      assert ts.backends[i..][1..] == ts.backends[i + 1..];
      var copy := visited.Copy();
      var backendPods := GetIncomingPodsForService(topology, ts.backends[i].service, copy);
      if backendPods.Failure? {
        return backendPods;
      }
      union := UnionPods(backendPods.value, union);
      if union.Elems() == [] {
        return Success(union);
      }
    }
    r := Success(union);
  }

  method GetIncomingPodsForService(topology: Topology, s: Key, visited: Visited) returns (r: Walk)
    modifies visited
    ensures r == ServiceWalk(topology.View(), s, old(visited.keys))
    decreases Unvisited(topology.View(), visited.keys), 2, 0
  {
    ghost var t := topology.View();
    var union: Slice<Key> := Nil;
    if s !in topology.services {
      return Failure(NoService(s));
    }
    var svc := topology.services[s];
    if |svc.trafficSplits| == 0 {
      r := GetPodsForServiceWithNoTrafficSplits(topology, svc);
      return;
    }
    for i := 0 to |svc.trafficSplits|
      invariant old(visited.keys) <= visited.keys
      invariant SplitsWalk(t, svc.trafficSplits[i..], visited.keys, union) == ServiceWalk(t, s, old(visited.keys))
    {
      var k := svc.trafficSplits[i];
      assert svc.trafficSplits[i..][1..] == svc.trafficSplits[i + 1..];
      if k !in topology.splits {
        return Failure(NoSplit(k));
      }
      assert visited.keys == old(visited.keys) + visited.keys;
      UnvisitedShrinks(t, old(visited.keys), visited.keys);
      var tsPods := GetIncomingPodsForTrafficSplit(topology, k, visited);
      if tsPods.Failure? {
        return tsPods;
      }
      union := UnionPods(tsPods.value, union);
      if union.Elems() == [] {
        return Success(union);
      }
    }
    r := Success(union);
  }

  // ---- The final pass ----

  /** The splits of t0 with the outcome recorded on those in done. */
  ghost function RecordedOn(t0: Topo, done: set<Key>): map<Key, Split> {
    map k | k in t0.splits :: if k in done then Recorded(t0, k) else t0.splits[k]
  }

  ghost function FailingAt(loops: map<Key, seq<Key>>, s: Key): seq<Key> {
    if s in loops then loops[s] else []
  }

  /** The splits of ks that exist. */
  ghost function Existing(t: Topo, ks: seq<Key>): set<Key> {
    set k | k in ks && k in t.splits
  }

  /** Computes and records the incoming pods of one split. */
  method RecordIncoming(topology: Topology, k: Key, ghost t0: Topo, ghost done: set<Key>) returns (failed: bool)
    requires topology.View() == t0.(splits := RecordedOn(t0, done)) && k in t0.splits && k !in done
    modifies topology
    ensures topology.View() == t0.(splits := RecordedOn(t0, done + {k}))
    ensures failed == Fails(t0, k)
  {
    var visited := new Visited({});
    var pods := GetIncomingPodsForTrafficSplit(topology, k, visited);
    SameSplitWalk(topology.View(), t0, k, {});
    failed := pods.Failure?;
    var ts := topology.splits[k];
    if failed {
      topology.splits := topology.splits[k := ts.(errors := ts.errors + [NoIncoming(pods.error)])];
    } else {
      topology.splits := topology.splits[k := ts.(incoming := pods.value.Elems())];
    }
  }

  lemma SameSplitKeys(t0: Topo, done: set<Key>)
    ensures RecordedOn(t0, done).Keys == t0.splits.Keys
  {
  }

  /** One turn of the loop over the splits of a service: unknown splits are skipped. */
  method RecordListed(topology: Topology, k: Key, ghost t0: Topo, ghost done: set<Key>) returns (failed: seq<Key>)
    requires topology.View() == t0.(splits := RecordedOn(t0, done)) && (k in t0.splits ==> k !in done)
    modifies topology
    ensures topology.View() == t0.(splits := RecordedOn(t0, done + Existing(t0, [k])))
    ensures failed == Failing(t0, [k])
  {
    hide RecordedOn, Incoming;
    SameSplitKeys(t0, done);
    ExistingOne(t0, k);
    failed := [];
    if k in topology.splits {
      var f := RecordIncoming(topology, k, t0, done);
      if f {
        failed := [k];
      }
    } else {
      assert done + Existing(t0, [k]) == done;
    }
  }

  lemma ExistingOne(t: Topo, k: Key)
    ensures Existing(t, [k]) == if k in t.splits then {k} else {}
    ensures Failing(t, [k]) == if Fails(t, k) then [k] else []
  {
    hide Fails;
    assert Failing(t, [k][1..]) == [];
  }

  /** How the splits of ks that exist, and those that fail, grow with one more. */
  lemma ListedStep(t: Topo, ks: seq<Key>, i: nat)
    requires i < |ks|
    ensures Existing(t, ks[..i + 1]) == Existing(t, ks[..i]) + Existing(t, [ks[i]])
    ensures Failing(t, ks[i..]) == Failing(t, [ks[i]]) + Failing(t, ks[i + 1..])
    ensures Distinct(ks) ==> ks[i] !in Existing(t, ks[..i])
  {
    hide Fails;
    assert ks[i..][1..] == ks[i + 1..];
    assert ks[..i + 1] == ks[..i] + [ks[i]];
    ExistingOne(t, ks[i]);
  }

  /** Records the splits of one service and returns those that failed. */
  method RecordService(topology: Topology, s: Key, ghost t0: Topo, ghost done: set<Key>) returns (failed: seq<Key>)
    requires s in t0.services && topology.View() == t0.(splits := RecordedOn(t0, done))
    requires Distinct(t0.services[s].trafficSplits) && done !! Existing(t0, t0.services[s].trafficSplits)
    modifies topology
    ensures topology.View() == t0.(splits := RecordedOn(t0, done + Existing(t0, t0.services[s].trafficSplits)))
    ensures failed == Failing(t0, t0.services[s].trafficSplits)
  {
    hide RecordedOn, Incoming, Failing;
    var ks := topology.services[s].trafficSplits;
    assert done + Existing(t0, ks[..0]) == done && t0.services == topology.services && ks[0..] == ks;
    failed := [];
    for i := 0 to |ks|
      invariant topology.View() == t0.(splits := RecordedOn(t0, done + Existing(t0, ks[..i])))
      invariant failed + Failing(t0, ks[i..]) == Failing(t0, ks)
    {
      ListedStep(t0, ks, i);
      assert ks[i] in t0.splits ==> ks[i] in Existing(t0, ks);
      var more := RecordListed(topology, ks[i], t0, done + Existing(t0, ks[..i]));
      assert done + Existing(t0, ks[..i + 1]) == done + Existing(t0, ks[..i]) + Existing(t0, [ks[i]]);
      failed := failed + more;
    }
    assert ks[..|ks|] == ks;
    NoneFailing(t0, ks);
  }

  lemma NoneFailing(t: Topo, ks: seq<Key>)
    ensures Failing(t, ks[|ks|..]) == []
  {
  }

  /** The splits of the services outside todo. */
  ghost function Done(t: Topo, todo: set<Key>): set<Key> {
    set k, s | s in t.services && s !in todo && k in t.services[s].trafficSplits && k in t.splits :: k
  }

  /**
   The order in which services are visited is arbitrary, as it is for a Go map; the postcondition fixes the
   result all the same.
   */
  method PopulateTrafficSplitsAuthorizedIncomingTraffic(topology: Topology)
    requires WellPlaced(topology.View())
    modifies topology
    ensures topology.View() == Populated(old(topology.View()))
  {
    hide Populated, RecordedOn, Fails, Without;
    ghost var t0 := topology.View();
    var loops: map<Key, seq<Key>> := map[];
    var todo := topology.services.Keys;
    NothingRecorded(t0);
    while todo != {}
      invariant todo <= t0.services.Keys
      invariant topology.View() == t0.(splits := RecordedOn(t0, Done(t0, todo)))
      invariant loops.Keys <= t0.services.Keys
      invariant forall s :: s in t0.services && s in todo ==> FailingAt(loops, s) == []
      invariant forall s ::
                  s in t0.services && s !in todo ==> FailingAt(loops, s) == Failing(t0, t0.services[s].trafficSplits)
      decreases todo
    {
      var s :| s in todo;
      var failed := RecordService(topology, s, t0, Done(t0, todo));
      if failed != [] {
        loops := loops[s := failed];
      }
      assert Done(t0, todo - {s}) == Done(t0, todo) + Existing(t0, t0.services[s].trafficSplits);
      todo := todo - {s};
    }
    RemoveLoopCausingTrafficSplits(topology, loops);
    PopulatedAt(t0, topology.View(), loops);
  }

  lemma NothingRecorded(t0: Topo)
    ensures RecordedOn(t0, Done(t0, t0.services.Keys)) == t0.splits
  {
  }

  lemma PopulatedAt(t0: Topo, t: Topo, loops: map<Key, seq<Key>>)
    requires t.pods == t0.pods && t.targets == t0.targets && t.splits == RecordedOn(t0, Done(t0, {}))
    requires t.services.Keys == t0.services.Keys
    requires forall s :: s in t0.services ==> t.services[s] == Without(t0.services[s], FailingAt(loops, s))
    requires forall s :: s in t0.services ==> FailingAt(loops, s) == Failing(t0, t0.services[s].trafficSplits)
    ensures t == Populated(t0)
  {
    hide RecordedOn, Recorded, Attached, FailingAt, Failing, Without, Pruned, Done;
    AllRecorded(t0);
    forall s | s in t0.services
      ensures t.services[s] == Pruned(t0, t0.services[s])
    {
      WithoutFailing(t0, t0.services[s]);
    }
    assert t.services == Populated(t0).services;
  }

  lemma WithoutFailing(t0: Topo, svc: Service)
    ensures Without(svc, Failing(t0, svc.trafficSplits)) == Pruned(t0, svc)
  {
    RemoveFailing(t0, svc.trafficSplits);
  }

  lemma AllRecorded(t0: Topo)
    ensures RecordedOn(t0, Done(t0, {})) == Populated(t0).splits
  {
    hide Recorded, Kept;
    assert forall k :: k in t0.splits ==> (k in Done(t0, {}) <==> Attached(t0, k));
  }

  /** Service svc without the given splits. */
  function Without(svc: Service, removed: seq<Key>): Service {
    svc.(trafficSplits := RemoveEach(svc.trafficSplits, removed))
  }

  method RemoveLoopCausingTrafficSplits(topology: Topology, loops: map<Key, seq<Key>>)
    requires loops.Keys <= topology.services.Keys
    modifies topology
    ensures topology.View() == old(topology.View()).(services := topology.services)
    ensures topology.services == map s | s in old(topology.services) ::
              Without(old(topology.services)[s], FailingAt(loops, s))
  {
    ghost var before := topology.services;
    var todo := loops.Keys;
    while todo != {}
      invariant todo <= loops.Keys
      invariant topology.View() == old(topology.View()).(services := topology.services)
      invariant topology.services.Keys == before.Keys
      invariant forall s :: s in before && s in todo ==> topology.services[s] == before[s]
      invariant forall s ::
                  s in before && s !in todo ==> topology.services[s] == Without(before[s], FailingAt(loops, s))
      decreases todo
    {
      var s :| s in todo;
      RemoveFrom(topology, s, loops[s]);
      todo := todo - {s};
    }
  }

  method RemoveFrom(topology: Topology, s: Key, tss: seq<Key>)
    requires s in topology.services
    modifies topology
    ensures topology.View() ==
              old(topology.View()).(services := old(topology.services)[s := Without(old(topology.services)[s], tss)])
  {
    ghost var svc := topology.services[s];
    for i := 0 to |tss|
      invariant s in topology.services
      invariant topology.View() == old(topology.View()).(services := old(topology.services)[s := topology.services[s]])
      invariant Without(topology.services[s], tss[i..]) == Without(svc, tss)
    {
      assert tss[i..][1..] == tss[i + 1..];
      var ks := Splice(topology.services[s].trafficSplits, tss[i]);
      topology.services := topology.services[s := topology.services[s].(trafficSplits := ks)];
    }
  }

  method Splice(ks: seq<Key>, k: Key) returns (r: seq<Key>)
    ensures r == RemoveFirst(ks, k)
  {
    for i := 0 to |ks|
      invariant forall j :: 0 <= j < i ==> ks[j] != k
    {
      if ks[i] == k {
        RemoveFirstAt(ks, k, i);
        return ks[..i] + ks[i + 1..];
      }
    }
    RemoveFirstNone(ks, k);
    r := ks;
  }

  lemma {:induction false} RemoveFirstAt(ks: seq<Key>, k: Key, i: nat)
    requires i < |ks| && ks[i] == k && forall j :: 0 <= j < i ==> ks[j] != k
    ensures RemoveFirst(ks, k) == ks[..i] + ks[i + 1..]
  {
    if i > 0 {
      RemoveFirstAt(ks[1..], k, i - 1);
      assert ks[..i] == [ks[0]] + ks[1..][..i - 1];
    }
  }

  lemma {:induction false} RemoveFirstNone(ks: seq<Key>, k: Key)
    requires k !in ks
    ensures RemoveFirst(ks, k) == ks
  {
    if ks != [] {
      RemoveFirstNone(ks[1..], k);
    }
  }
}
