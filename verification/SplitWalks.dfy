/**
 The recursive computation of the pods allowed through a traffic-split, and what it computes:
 a leaf-based, order-free description over the split graph.
 */
module SplitWalks {
  import opened Basics
  import opened Topologies
  import opened SplitGraph

  type Walk = Result<Slice<Key>, WalkError>

  /** The pods of pods2 that are also in pods1; a nil pods2 stands for "no value yet". */
  function UnionPod(pods1: Slice<Key>, pods2: Slice<Key>): Slice<Key> {
    if pods2.Nil? then pods1 else KeepCommon(pods1.Elems(), pods2.items, Nil)
  }

  function KeepCommon(pods1: seq<Key>, pods2: seq<Key>, union: Slice<Key>): Slice<Key> {
    if pods2 == [] then union
    else KeepCommon(pods1, pods2[1..], if pods2[0] in pods1 then Append(union, [pods2[0]]) else union)
  }

  /** The keys under which the walk marks splits as visited. */
  ghost function OwnKeys(t: Topo): set<Key> {
    set k | k in t.splits :: t.splits[k].OwnKey()
  }

  ghost function Unvisited(t: Topo, visited: set<Key>): nat {
    |OwnKeys(t) - visited|
  }

  lemma UnvisitedShrinks(t: Topo, visited: set<Key>, extra: set<Key>)
    ensures Unvisited(t, visited + extra) <= Unvisited(t, visited)
    ensures forall k ::
              k in extra && k in OwnKeys(t) && k !in visited ==> Unvisited(t, visited + extra) < Unvisited(t, visited)
  {
    var more, less := OwnKeys(t) - visited, OwnKeys(t) - (visited + extra);
    SubsetSize(less, more);
    forall k | k in extra && k in OwnKeys(t) && k !in visited
      ensures |less| < |more|
    {
      SubsetSize(less, more - {k});
    }
  }

  lemma SubsetSize<T>(a: set<T>, b: set<T>)
    requires a <= b
    ensures |a| <= |b|
  {
    assert b == a + (b - a);
  }

  /** Walks one split. The visited set is the one of the caller, before this split is marked. */
  ghost function SplitWalk(t: Topo, k: Key, visited: set<Key>): Walk
    requires k in t.splits
    decreases Unvisited(t, visited), 0, 0
  {
    var own := t.splits[k].OwnKey();
    if own in visited then Failure(Circular(own))
    else
      UnvisitedShrinks(t, visited, {own});
      BackendsWalk(t, t.splits[k].backends, visited + {own}, Nil)
  }

  /** Walks the given backends, every one from its own copy of visited. */
  ghost function BackendsWalk(t: Topo, backends: seq<Backend>, visited: set<Key>, union: Slice<Key>): Walk
    decreases Unvisited(t, visited), 3, |backends|
  {
    if backends == [] then Success(union)
    else
      match ServiceWalk(t, backends[0].service, visited)
      case Failure(e) => Failure(e)
      case Success(pods) =>
        var u := UnionPod(pods, union);
        if u.Elems() == [] then Success(u) else BackendsWalk(t, backends[1..], visited, u)
  }

  ghost function ServiceWalk(t: Topo, s: Key, visited: set<Key>): Walk
    decreases Unvisited(t, visited), 2, 0
  {
    if s !in t.services then Failure(NoService(s))
    else if t.services[s].trafficSplits == [] then LeafPods(t, t.services[s].trafficTargets, Nil)
    else SplitsWalk(t, t.services[s].trafficSplits, visited, Nil)
  }

  /** Walks the splits of one service. They share visited: each one is marked for those after it. */
  ghost function SplitsWalk(t: Topo, ks: seq<Key>, visited: set<Key>, union: Slice<Key>): Walk
    decreases Unvisited(t, visited), 1, |ks|
  {
    if ks == [] then Success(union)
    else if ks[0] !in t.splits then Failure(NoSplit(ks[0]))
    else
      match SplitWalk(t, ks[0], visited)
      case Failure(e) => Failure(e)
      case Success(pods) =>
        var u := UnionPod(pods, union);
        UnvisitedShrinks(t, visited, {t.splits[ks[0]].OwnKey()});
        if u.Elems() == [] then Success(u)
        else SplitsWalk(t, ks[1..], visited + {t.splits[ks[0]].OwnKey()}, u)
  }

  /** All sources of the given targets, in order. */
  function LeafPods(t: Topo, targets: seq<TargetKey>, pods: Slice<Key>): Walk {
    if targets == [] then Success(pods)
    else if targets[0] !in t.targets then Failure(NoTarget(targets[0]))
    else LeafPods(t, targets[1..], AppendSources(t.targets[targets[0]].sources, pods))
  }

  function AppendSources(sources: seq<Source>, pods: Slice<Key>): Slice<Key> {
    if sources == [] then pods else AppendSources(sources[1..], Append(pods, sources[0].pods))
  }

  // ---- What the list operations mean ----

  lemma {:induction false} KeepCommonMembers(pods1: seq<Key>, pods2: seq<Key>, union: Slice<Key>)
    ensures forall p ::
              p in KeepCommon(pods1, pods2, union).Elems() <==> p in union.Elems() || (p in pods1 && p in pods2)
  {
    if pods2 != [] {
      KeepCommonMembers(pods1, pods2[1..], if pods2[0] in pods1 then Append(union, [pods2[0]]) else union);
      assert pods2 == [pods2[0]] + pods2[1..];
    }
  }

  /** Despite its name, unionPod intersects as soon as there is a value to intersect with. */
  lemma UnionPodMembers(pods1: Slice<Key>, pods2: Slice<Key>)
    ensures forall p :: p in UnionPod(pods1, pods2).Elems() <==> p in pods1.Elems() && (pods2.Nil? || p in pods2.items)
    ensures UnionPod(pods1, pods2).Elems() != [] ==> pods1.Elems() != []
  {
    if pods2.Items? {
      KeepCommonMembers(pods1.Elems(), pods2.items, Nil);
    }
    if UnionPod(pods1, pods2).Elems() != [] {
      assert UnionPod(pods1, pods2).Elems()[0] in pods1.Elems();
    }
  }

  lemma {:induction false} KeepCommonAppends(pods1: seq<Key>, pods2: seq<Key>, union: Slice<Key>)
    ensures KeepCommon(pods1, pods2, union).Elems() == union.Elems() + KeepCommon(pods1, pods2, Nil).Elems()
  {
    if pods2 == [] {
    } else if pods2[0] in pods1 {
      var one, rest := Items([pods2[0]]), KeepCommon(pods1, pods2[1..], Nil).Elems();
      KeepCommonAppends(pods1, pods2[1..], Append(union, [pods2[0]]));
      KeepCommonAppends(pods1, pods2[1..], one);
      assert Append(Nil, [pods2[0]]) == one;
      assert union.Elems() + one.items + rest == union.Elems() + (one.items + rest);
    } else {
      KeepCommonAppends(pods1, pods2[1..], union);
    }
  }

  lemma {:induction false} KeepCommonConcat(pods1: seq<Key>, a: seq<Key>, b: seq<Key>, union: Slice<Key>)
    ensures KeepCommon(pods1, a + b, union) == KeepCommon(pods1, b, KeepCommon(pods1, a, union))
  {
    if a == [] {
      assert a + b == b;
    } else {
      assert (a + b)[1..] == a[1..] + b;
      KeepCommonConcat(pods1, a[1..], b, if a[0] in pods1 then Append(union, [a[0]]) else union);
    }
  }

  /** The common pods are listed in the order of the second list, as often as they are there. */
  lemma UnionPodOrder(pods1: Slice<Key>, a: seq<Key>, b: seq<Key>)
    ensures UnionPod(pods1, Items(a + b)).Elems() ==
            UnionPod(pods1, Items(a)).Elems() + UnionPod(pods1, Items(b)).Elems()
  {
    KeepCommonConcat(pods1.Elems(), a, b, Nil);
    KeepCommonAppends(pods1.Elems(), b, KeepCommon(pods1.Elems(), a, Nil));
  }

  lemma {:induction false} AppendSourcesMembers(sources: seq<Source>, pods: Slice<Key>)
    ensures forall p :: p in AppendSources(sources, pods).Elems() <==> p in pods.Elems() || exists src ::
              src in sources && p in src.pods
  {
    if sources != [] {
      AppendSourcesMembers(sources[1..], Append(pods, sources[0].pods));
      assert sources == [sources[0]] + sources[1..];
    }
  }

  lemma {:induction false} LeafPodsMembers(t: Topo, targets: seq<TargetKey>, pods: Slice<Key>)
    ensures LeafPods(t, targets, pods).Success? <==> forall tk :: tk in targets ==> tk in t.targets
    ensures LeafPods(t, targets, pods).Failure? ==> LeafPods(t, targets, pods).error.NoTarget?
    ensures LeafPods(t, targets, pods).Success? ==>
              forall p :: p in LeafPods(t, targets, pods).value.Elems() <==>
                p in pods.Elems() || exists tk :: tk in targets && TargetNames(t, tk, p)
  {
    if targets != [] {
      assert targets == [targets[0]] + targets[1..];
      if targets[0] in t.targets {
        var next := AppendSources(t.targets[targets[0]].sources, pods);
        AppendSourcesMembers(t.targets[targets[0]].sources, pods);
        assert forall p :: p in next.Elems() <==> p in pods.Elems() || TargetNames(t, targets[0], p);
        LeafPodsMembers(t, targets[1..], next);
      }
    }
  }

  /** On a leaf, the walk lists the pods that the attached targets name. */
  lemma LeafWalk(t: Topo, s: Key, visited: set<Key>)
    requires IsLeaf(t, s)
    ensures ServiceWalk(t, s, visited).Success? <==> ServiceResolved(t, s)
    ensures ServiceWalk(t, s, visited).Failure? ==> ServiceWalk(t, s, visited).error.NoTarget?
    ensures ServiceWalk(t, s, visited).Success? ==>
              forall p :: p in ServiceWalk(t, s, visited).value.Elems() <==> Names(t, s, p)
  {
    LeafPodsMembers(t, t.services[s].trafficTargets, Nil);
  }
}
