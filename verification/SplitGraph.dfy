/**
 The graph that traffic-splits form: a split points to the splits that sit on its backend services.
 Everything here is independent of the way the controller walks the graph.
 */
module SplitGraph {
  import opened Basics
  import opened Topologies

  /** Split b sits on a service that split a names as a backend. */
  ghost predicate Edge(t: Topo, a: Key, b: Key) {
    a in t.splits && exists s :: Backs(t, a, s) && s in t.services && b in t.services[s].trafficSplits
  }

  /** Service s is a backend of split k. */
  ghost predicate Backs(t: Topo, k: Key, s: Key)
    requires k in t.splits
  {
    exists i :: 0 <= i < |t.splits[k].backends| && t.splits[k].backends[i].service == s
  }

  ghost predicate IsPath(t: Topo, path: seq<Key>) {
    |path| > 0 && forall i :: 0 <= i < |path| - 1 ==> Edge(t, path[i], path[i + 1])
  }

  /** b can be reached from a by following zero or more edges. */
  ghost predicate Reaches(t: Topo, a: Key, b: Key) {
    exists path :: IsPath(t, path) && path[0] == a && path[|path| - 1] == b
  }

  ghost predicate OnCycle(t: Topo, c: Key) {
    exists m :: Edge(t, c, m) && Reaches(t, m, c)
  }

  ghost predicate CyclicBelow(t: Topo, k: Key) {
    exists c :: Reaches(t, k, c) && OnCycle(t, c)
  }

  ghost predicate IsLeaf(t: Topo, s: Key) {
    s in t.services && t.services[s].trafficSplits == []
  }

  /** Some traffic-target attached to service s lists pod p as a source. */
  ghost predicate Names(t: Topo, s: Key, p: Key) {
    s in t.services && exists tk :: tk in t.services[s].trafficTargets && TargetNames(t, tk, p)
  }

  ghost predicate TargetNames(t: Topo, tk: TargetKey, p: Key) {
    tk in t.targets && exists src :: src in t.targets[tk].sources && p in src.pods
  }

  /** Everything split k refers to directly exists in the topology. */
  ghost predicate Resolved(t: Topo, k: Key) {
    k in t.splits && forall s :: Backs(t, k, s) ==> ServiceResolved(t, s)
  }

  ghost predicate ServiceResolved(t: Topo, s: Key) {
    && s in t.services
    && (forall m :: m in t.services[s].trafficSplits ==> m in t.splits)
    && (IsLeaf(t, s) ==> forall tk :: tk in t.services[s].trafficTargets ==> tk in t.targets)
  }

  ghost predicate ResolvedBelow(t: Topo, k: Key) {
    forall m :: Reaches(t, k, m) ==> Resolved(t, m)
  }

  /** Split k has a backend, and each of its backends that is a leaf names p as a source. */
  ghost predicate Authorises(t: Topo, k: Key, p: Key) {
    k in t.splits && t.splits[k].backends != [] && forall s :: Backs(t, k, s) && IsLeaf(t, s) ==> Names(t, s, p)
  }

  /** No split reachable from k is without backends, and every reachable leaf service names p as a source. */
  ghost predicate AuthorisedBelow(t: Topo, k: Key, p: Key) {
    forall m :: Reaches(t, k, m) ==> Authorises(t, m, p)
  }

  /** Splits are stored under their own key. */
  ghost predicate WellKeyed(t: Topo) {
    forall k :: k in t.splits ==> t.splits[k].OwnKey() == k
  }

  /** Each split sits at most once on a service, and only on the service it is defined for. */
  ghost predicate WellPlaced(t: Topo) {
    && WellKeyed(t)
    && forall s :: s in t.services ==>
         && Distinct(t.services[s].trafficSplits)
         && forall k :: k in t.services[s].trafficSplits && k in t.splits ==> t.splits[k].service == s
  }

  lemma ReachesSelf(t: Topo, a: Key)
    ensures Reaches(t, a, a)
  {
    assert IsPath(t, [a]);
  }

  lemma ReachesVia(t: Topo, a: Key, b: Key, c: Key)
    requires Edge(t, a, b) && Reaches(t, b, c)
    ensures Reaches(t, a, c)
  {
    var path :| IsPath(t, path) && path[0] == b && path[|path| - 1] == c;
    var longer := [a] + path;
    assert forall i :: 0 < i < |longer| ==> longer[i] == path[i - 1];
    assert IsPath(t, longer);
  }

  lemma ReachesTrans(t: Topo, a: Key, b: Key, c: Key)
    requires Reaches(t, a, b) && Reaches(t, b, c)
    ensures Reaches(t, a, c)
  {
    var path :| IsPath(t, path) && path[0] == a && path[|path| - 1] == b;
    ReachesAlong(t, path, c);
  }

  lemma ReachesAlong(t: Topo, path: seq<Key>, c: Key)
    requires IsPath(t, path) && Reaches(t, path[|path| - 1], c)
    ensures Reaches(t, path[0], c)
  {
    if |path| > 1 {
      assert IsPath(t, path[1..]);
      ReachesAlong(t, path[1..], c);
      assert Edge(t, path[0], path[0 + 1]);
      ReachesVia(t, path[0], path[1], c);
    }
  }

  lemma CycleBelowVia(t: Topo, a: Key, b: Key)
    requires Edge(t, a, b) && CyclicBelow(t, b)
    ensures CyclicBelow(t, a)
  {
    var c :| Reaches(t, b, c) && OnCycle(t, c);
    ReachesVia(t, a, b, c);
  }

  /** The last step of a path of at least one edge. */
  lemma LastEdge(t: Topo, a: Key, b: Key) returns (x: Key)
    requires Reaches(t, a, b) && a != b
    ensures Reaches(t, a, x) && Edge(t, x, b)
  {
    var path :| IsPath(t, path) && path[0] == a && path[|path| - 1] == b;
    var n := |path| - 2;
    x := path[n];
    assert Edge(t, path[n], path[n + 1]);
    assert IsPath(t, path[..n + 1]);
  }

  /** What holds of everything below a split holds below its successors. */
  lemma BelowStep(t: Topo, a: Key, b: Key)
    requires Edge(t, a, b)
    ensures forall p :: AuthorisedBelow(t, a, p) ==> AuthorisedBelow(t, b, p)
    ensures ResolvedBelow(t, a) ==> ResolvedBelow(t, b)
    ensures CyclicBelow(t, b) ==> CyclicBelow(t, a)
  {
    forall m | Reaches(t, b, m)
      ensures Reaches(t, a, m)
    {
      ReachesVia(t, a, b, m);
    }
  }

  /** The same, for any number of edges. */
  lemma BelowReach(t: Topo, a: Key, b: Key)
    requires Reaches(t, a, b)
    ensures ResolvedBelow(t, a) ==> ResolvedBelow(t, b)
    ensures CyclicBelow(t, b) ==> CyclicBelow(t, a)
  {
    forall m | Reaches(t, b, m)
      ensures Reaches(t, a, m)
    {
      ReachesTrans(t, a, b, m);
    }
  }
}
