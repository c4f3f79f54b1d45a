/** Snapshots whose topology is not what one might expect of it. */
module TopologyExamples {
  import opened Basics
  import opened Topologies
  import opened Resources
  import opened TopologyLinks
  import opened SplitGraph
  import opened SplitWalks
  import opened SplitTheorems
  import opened SplitPass
  import opened BuiltTopologies
  import TB = TopologyBuilder

  // ---- Refused backends ----

  /** A split is attached although one of its two backends is refused: the service it names is not there. */
  lemma PartialSplit() returns (res: Snapshot, o: SplitObject)
    ensures Keyed(res) && Attachable(res, o) && |o.backends| == 2
            && SplitOf(res, o).backends == [BackendOf(o, o.backends[0])]
  {
    var web := Key("web", "ns");
    o := SplitObject("split", "ns", "web", [BackendObject("web", 1), BackendObject("gone", 1)], []);
    res := Snapshot(map[web := ServiceObject("web", "ns", Annotations(None, None, None), [], "")],
                    map[Key("split", "ns") := o], map[], map[], {}, map[], map[], map[]);
    assert WholeGroups([]) == [];
    assert RootOf(o) == web && BackendOf(o, o.backends[0]).service == web;
    assert BackendFault(res, o, o.backends[0]).None?;
    assert BackendOf(o, o.backends[1]).service == Key("gone", "ns");
    assert o.backends[1..] == [o.backends[1]];
    assert KeptBackends(res, o, o.backends[1..][1..]) == [];
    assert KeptBackends(res, o, o.backends[1..]) == [];
  }

  // ---- Cycles ----

  const ROOT := Key("root", "ns")
  const LEAF := Key("leaf", "ns")
  const LOOP := Key("loop", "ns")

  /** A split on service root with the given backends, and a service without targets next to root. */
  function Looped(first: string, second: string): Snapshot {
    var annotations := Annotations(None, None, None);
    Snapshot(map[ROOT := ServiceObject("root", "ns", annotations, [], ""),
                 LEAF := ServiceObject("leaf", "ns", annotations, [], "")],
             map[LOOP := SplitObject("loop", "ns", "root", [BackendObject(first, 1), BackendObject(second, 1)], [])],
             map[], map[], {}, map[], map[], map[])
  }

  predicate RootAndLeaf(first: string, second: string) {
    (first == "leaf" && second == "root") || (first == "root" && second == "leaf")
  }

  /** What any topology built from it holds before the pass. */
  lemma LoopedIs(first: string, second: string, linked: Topo)
    requires RootAndLeaf(first, second) && TB.Complete(Looped(first, second), linked)
    ensures ROOT in linked.services && linked.services[ROOT].trafficSplits == [LOOP]
    ensures IsLeaf(linked, LEAF) && linked.services[LEAF].trafficTargets == []
    ensures LOOP in linked.splits && linked.splits[LOOP].OwnKey() == LOOP
            && linked.splits[LOOP].backends == [Backend(1, Key(first, "ns")), Backend(1, Key(second, "ns"))]
  {
    hide TB.Complete, Attachable, SplitOf, Populated;
    var res := Looped(first, second);
    var o := res.splits[LOOP];
    LoopedSplit(first, second);
    SplitIs(res, linked, LOOP);
    SplitsOn(res, linked, ROOT);
    SplitsOn(res, linked, LEAF);
    Single(linked.services[ROOT].trafficSplits, LOOP);
    EmptyOrInhabited(linked.services[LEAF].trafficSplits);
    forall tk
      ensures tk !in linked.services[LEAF].trafficTargets
    {
      AttachedExactly(res, linked, LEAF, tk.target);
    }
    EmptyOrInhabited(linked.services[LEAF].trafficTargets);
  }

  lemma LoopedSplit(first: string, second: string)
    requires RootAndLeaf(first, second)
    ensures var res := Looped(first, second);
            var o := res.splits[LOOP];
            && Keyed(res) && Attachable(res, o) && RootOf(o) == ROOT && SplitOf(res, o).OwnKey() == LOOP
            && SplitOf(res, o).backends == [Backend(1, Key(first, "ns")), Backend(1, Key(second, "ns"))]
  {
    var res := Looped(first, second);
    var o := res.splits[LOOP];
    assert WholeGroups([]) == [];
    assert o.backends[1..] == [o.backends[1]] && o.backends[1..][1..] == [];
    assert BackendFault(res, o, o.backends[0]).None? && BackendFault(res, o, o.backends[1]).None?;
    assert KeptBackends(res, o, o.backends[1..]) == [BackendOf(o, o.backends[1])];
  }

  lemma RootFirst(t: Topo)
    requires LOOP in t.splits && t.splits[LOOP].backends != [] && t.splits[LOOP].backends[0].service == ROOT
    requires ROOT in t.services && t.services[ROOT].trafficSplits == [LOOP] && t.splits[LOOP].OwnKey() == LOOP
    ensures Incoming(t, LOOP) == Failure(Circular(LOOP))
  {
    assert {} + {LOOP} == {LOOP};
    assert SplitWalk(t, LOOP, {LOOP}) == Failure(Circular(LOOP));
    assert SplitsWalk(t, [LOOP], {LOOP}, Nil) == Failure(Circular(LOOP));
    assert ServiceWalk(t, ROOT, {LOOP}) == Failure(Circular(LOOP));
    assert BackendsWalk(t, t.splits[LOOP].backends, {LOOP}, Nil) == Failure(Circular(LOOP));
  }

  /**
   The final graph need not be free of cycles: a walk that finds nobody to let through ends before it gets to
   the cycle. Here a split names its own service, after one that no target is attached to.
   */
  lemma CycleCanStay(linked: Topo)
    requires TB.Complete(Looped("leaf", "root"), linked)
    ensures Keyed(Looped("leaf", "root"))
    ensures var f := Populated(linked);
            && OnCycle(linked, LOOP) && OnCycle(f, LOOP)
            && ROOT in f.services && LOOP in f.services[ROOT].trafficSplits
            && LOOP in f.splits && f.splits[LOOP].incoming == []
  {
    hide TB.Complete, Incoming, Populated, OnCycle, Looped, IsLeaf;
    LoopedSplit("leaf", "root");
    LoopedIs("leaf", "root", linked);
    EmptyLeafFirst(linked, LOOP, LEAF);
    LoopKept(linked);
    LoopOf(linked);
    LoopOf(Populated(linked));
  }

  lemma LoopKept(t: Topo)
    requires ROOT in t.services && t.services[ROOT].trafficSplits == [LOOP] && LOOP in t.splits
    requires Incoming(t, LOOP) == Success(Nil)
    ensures var f := Populated(t);
            && ROOT in f.services && LOOP in f.services[ROOT].trafficSplits
            && LOOP in f.splits && f.splits[LOOP] == t.splits[LOOP].(incoming := [])
  {
    hide Incoming;
    KeptMembers(t, [LOOP]);
    assert LOOP in t.services[ROOT].trafficSplits && Attached(t, LOOP);
  }

  lemma LoopOf(t: Topo)
    requires LOOP in t.splits && |t.splits[LOOP].backends| == 2 && t.splits[LOOP].backends[1].service == ROOT
    requires ROOT in t.services && LOOP in t.services[ROOT].trafficSplits
    ensures OnCycle(t, LOOP)
  {
    assert Backs(t, LOOP, ROOT);
    assert Edge(t, LOOP, LOOP);
    ReachesSelf(t, LOOP);
  }

  /** The order of the backends decides: with the other one first, the same split is found to be circular. */
  lemma OrderDecides(linked: Topo)
    requires TB.Complete(Looped("root", "leaf"), linked)
    ensures Keyed(Looped("root", "leaf"))
    ensures Fails(linked, LOOP)
    ensures ROOT in Populated(linked).services && Populated(linked).services[ROOT].trafficSplits == []
  {
    hide TB.Complete, Incoming;
    LoopedSplit("root", "leaf");
    LoopedIs("root", "leaf", linked);
    RootFirst(linked);
    KeptMembers(linked, [LOOP]);
    EmptyOrInhabited(Kept(linked, [LOOP]));
  }
}
