/** What a topology that is built from a snapshot holds, before and after the final pass. */
module BuiltTopologies {
  import opened Basics
  import opened Topologies
  import opened Resources
  import opened Specs
  import opened TopologyLinks
  import opened SplitGraph
  import opened SplitPass
  import opened SplitTheorems
  import TB = TopologyBuilder
  import CT = ConfigTheorems

  // ---- Services and pods ----

  lemma ServicesOf(res: Snapshot, linked: Topo)
    requires TB.Complete(res, linked)
    ensures Populated(linked).services.Keys == linked.services.Keys == res.services.Keys
  {
    hide SplitsLinked, BackendsLinked, TargetsLinked, PodsLinked, PodsPresent, PodsKnown, Recorded, Pruned;
    hide ServiceOf, SplitOf, TargetOf, Attachable, TargetAttachable, RootOf, Exposed, Bare;
  }

  lemma BuiltService(res: Snapshot, linked: Topo, s: Key)
    requires Keyed(res) && TB.Complete(res, linked) && s in linked.services
    ensures Key(linked.services[s].name, linked.services[s].namespace) == s
  {
    var plan := PlanOf(res);
    assert Bare(linked.services[s]) == plan.services[s] == ServiceOf(res, s);
  }

  /** A service is as in the snapshot, apart from its links. */
  lemma ServiceIs(res: Snapshot, linked: Topo, s: Key)
    requires TB.Complete(res, linked) && s in res.services
    ensures s in linked.services && s in Populated(linked).services
    ensures Populated(linked).services[s] == ServiceOf(res, s).(
      trafficTargets := linked.services[s].trafficTargets,
      trafficSplits := Kept(linked, linked.services[s].trafficSplits),
      backendOf := linked.services[s].backendOf)
  {
    hide SplitsLinked, BackendsLinked, TargetsLinked, PodsLinked, PodsPresent, PodsKnown, Recorded, Kept;
    hide SplitOf, TargetOf, Attachable, TargetAttachable, RootOf, Exposed;
    ServicesOf(res, linked);
    assert Bare(linked.services[s]) == PlanOf(res).services[s] == ServiceOf(res, s);
  }

  lemma BuiltPods(res: Snapshot, linked: Topo, s: Key)
    requires Keyed(res) && TB.Complete(res, linked) && s in linked.services
    ensures Populated(linked).services[s].pods == PodKeys(Lookup(res.podsBySvc, s))
  {
    var plan := PlanOf(res);
    assert Bare(linked.services[s]) == plan.services[s] == ServiceOf(res, s);
  }

  lemma PodPresent(res: Snapshot, linked: Topo, s: Key, p: Key)
    requires TB.Complete(res, linked) && s in linked.services && p in linked.services[s].pods
    ensures p in Populated(linked).pods
  {
    hide ServicesMatch, SplitsLinked, BackendsLinked, TargetsLinked, PodsLinked, PodsKnown, PlanOf;
  }

  lemma PodsOf(res: Snapshot, linked: Topo)
    requires TB.Complete(res, linked)
    ensures PodsKnown(res, Populated(linked).pods) && Populated(linked).pods == linked.pods
  {
    hide Linked, PodsKnown, PlanOf;
  }

  // ---- Splits ----

  lemma BuiltSplit(res: Snapshot, linked: Topo, s: Key, k: Key)
    requires Keyed(res) && TB.Complete(res, linked) && s in linked.services && k in linked.services[s].trafficSplits
    ensures k in linked.splits && linked.splits[k].service == s
    ensures linked.splits[k].OwnKey() == k && linked.splits[k].namespace == s.namespace
  {
    hide SpecsOf, KeptBackends, BackendFaults, WholeGroups;
    assert SitsOn(PlanOf(res), linked, k, s);
    assert linked.splits[k] == PlanOf(res).splits[k] == SplitOf(res, res.splits[k]);
    SplitOfFits(res, res.splits[k]);
  }

  /** A split with one backend that has no fault, and no matches. */
  lemma OneBackendSplit(res: Snapshot, o: SplitObject)
    requires RootOf(o) in res.services && o.matches == [] && |o.backends| == 1
             && BackendFault(res, o, o.backends[0]).None?
    ensures Attachable(res, o) && SplitOf(res, o).backends == [BackendOf(o, o.backends[0])]
            && SplitOf(res, o).rules == []
  {
    hide BackendFault;
    assert WholeGroups([]) == [];
    assert o.backends[1..] == [] && KeptBackends(res, o, []) == [];
  }

  /** A split is as in the snapshot, apart from what the pass records. */
  lemma SplitIs(res: Snapshot, linked: Topo, k: Key)
    requires TB.Complete(res, linked) && k in res.splits
    ensures var o, ts := res.splits[k], Populated(linked).splits;
            && k in ts && ts[k].OwnKey() == Key(o.name, o.namespace) && ts[k].service == RootOf(o)
            && ts[k].backends == SplitOf(res, o).backends && ts[k].rules == SplitOf(res, o).rules
    ensures k in linked.splits && linked.splits[k] == SplitOf(res, res.splits[k])
  {
    hide ServicesMatch, BackendsLinked, TargetsLinked, PodsLinked, PodsPresent, PodsKnown, SplitOf, TargetOf, ServiceOf,
         Attachable, TargetAttachable, Incoming;
    SplitOfFits(res, res.splits[k]);
    assert linked.splits[k] == PlanOf(res).splits[k] == SplitOf(res, res.splits[k]);
  }

  /** The splits that are attached to a service before the pass. */
  lemma SplitsOn(res: Snapshot, linked: Topo, s: Key)
    requires TB.Complete(res, linked) && s in res.services
    ensures s in linked.services && Distinct(linked.services[s].trafficSplits)
    ensures forall k :: k in linked.services[s].trafficSplits <==>
              k in res.splits && Attachable(res, res.splits[k]) && RootOf(res.splits[k]) == s
  {
    hide ServicesMatch, BackendsLinked, TargetsLinked, PodsLinked, PodsPresent, PodsKnown, SplitOf, TargetOf, ServiceOf,
         Attachable, TargetAttachable, RootOf;
    ServicesOf(res, linked);
    forall k
      ensures SitsOn(PlanOf(res), linked, k, s) <==>
              k in res.splits && Attachable(res, res.splits[k]) && RootOf(res.splits[k]) == s
    {
    }
  }

  /** A service notes a split exactly when the split has it as a backend. */
  lemma BackedExactly(res: Snapshot, linked: Topo, s: Key, k: Key)
    requires TB.Complete(res, linked) && s in res.services
    ensures s in linked.services
    ensures k in linked.services[s].backendOf <==>
            k in res.splits && exists i ::
              0 <= i < |SplitOf(res, res.splits[k]).backends| && SplitOf(res, res.splits[k]).backends[i].service == s
  {
    hide ServicesMatch, SplitsLinked, TargetsLinked, PodsLinked, PodsPresent, PodsKnown, PlanOf, SplitOf;
    ServicesOf(res, linked);
    assert multiset(linked.services[s].backendOf)[k] == TimesBacked(linked, k, s);
    if k in res.splits {
      SplitIs(res, linked, k);
      BackendServicesMember(linked.splits[k].backends, s);
    }
  }

  lemma BackendServicesMember(bs: seq<Backend>, s: Key)
    ensures s in multiset(BackendServices(bs)) <==> exists i :: 0 <= i < |bs| && bs[i].service == s
  {
    assert s in multiset(BackendServices(bs)) <==> s in BackendServices(bs);
    if i :| 0 <= i < |bs| && bs[i].service == s {
      assert BackendServices(bs)[i] == s;
    }
  }

  // ---- Targets ----

  lemma BuiltTarget(res: Snapshot, linked: Topo, s: Key, tk: TargetKey)
    requires Keyed(res) && TB.Complete(res, linked) && s in linked.services && tk in linked.services[s].trafficTargets
    ensures tk in linked.targets && linked.targets[tk].service == s
  {
    hide SpecsOf, DestinationPorts, SourcesOf;
    assert tk.service == s && AttachedTarget(linked, tk);
    assert linked.targets[tk] == PlanOf(res).targets[tk];
  }

  /** A target is as in the snapshot. */
  lemma TargetIs(res: Snapshot, linked: Topo, tk: TargetKey)
    requires TB.Complete(res, linked) && tk in Pairs(res)
    ensures tk in linked.targets && linked.targets[tk] == TargetOf(res, res.targets[tk.target], tk.service)
  {
    hide ServicesMatch, SplitsLinked, BackendsLinked, PodsLinked, PodsPresent, PodsKnown, SplitOf, TargetOf, ServiceOf,
         Attachable, TargetAttachable;
  }

  lemma AttachedExactly(res: Snapshot, linked: Topo, s: Key, k: Key)
    requires TB.Complete(res, linked) && s in linked.services
    ensures TargetKey(s, k) in linked.services[s].trafficTargets <==>
            k in res.targets && s in Exposed(res, res.targets[k]) && TargetAttachable(res, res.targets[k], s)
    ensures forall tk :: tk in linked.services[s].trafficTargets ==> tk.service == s
  {
    hide ServicesMatch, SplitsLinked, BackendsLinked, PodsLinked, PodsPresent, PodsKnown, TargetAttachable, TargetOf,
         SplitOf, ServiceOf, Attachable, Exposed;
    var tk := TargetKey(s, k);
    assert AttachedTarget(linked, tk) <==> tk in linked.targets && tk in PlanOf(res).placed;
    assert tk in Pairs(res) <==> k in res.targets && s in Exposed(res, res.targets[k]);
  }

  lemma TargetsDistinct(res: Snapshot, linked: Topo, s: Key)
    requires TB.Complete(res, linked) && s in linked.services
    ensures Distinct(linked.services[s].trafficTargets)
  {
    hide ServicesMatch, SplitsLinked, BackendsLinked, PodsLinked, PodsPresent, PodsKnown, PlanOf;
  }

  lemma PairIs(res: Snapshot, tk: TargetKey)
    requires tk in Pairs(res)
    ensures tk.target in res.targets && tk.service in Exposed(res, res.targets[tk.target])
  {
  }

  lemma AttachedIsKnown(res: Snapshot, linked: Topo, tk: TargetKey)
    requires TB.Complete(res, linked) && tk.service in linked.services
             && tk in linked.services[tk.service].trafficTargets
    ensures tk in linked.targets
  {
    hide ServicesMatch, SplitsLinked, BackendsLinked, PodsLinked, PodsPresent, PodsKnown, PlanOf;
    assert AttachedTarget(linked, tk);
  }

  lemma BuiltSources(res: Snapshot, linked: Topo, tk: TargetKey)
    requires TB.Complete(res, linked) && tk in linked.targets
    ensures tk in Pairs(res) && linked.targets[tk].sources == SourcesOf(res, res.targets[tk.target])
    ensures forall p :: p in SourcePods(linked.targets[tk].sources) ==> p in linked.pods
  {
    hide ServicesMatch, SplitsLinked, BackendsLinked, PodsLinked, PodsKnown, SpecsOf, SourcesOf, PodKeys;
    hide SplitOf, ServiceOf, Attachable, TargetAttachable, DestinationPorts;
    assert linked.targets[tk] == PlanOf(res).targets[tk] == TargetOf(res, res.targets[tk.target], tk.service);
  }

  lemma BuiltPorts(res: Snapshot, linked: Topo, s: Key, tk: TargetKey)
    requires Keyed(res) && TB.Complete(res, linked) && s in linked.services && tk in linked.services[s].trafficTargets
    ensures tk in linked.targets && tk.target in res.targets
    ensures DestinationPorts(linked.services[s].ports, res.targets[tk.target]) ==
              Success(linked.targets[tk].destination.ports)
  {
    hide SpecsOf, SourcesOf;
    assert tk.service == s && AttachedTarget(linked, tk);
    assert linked.targets[tk] == PlanOf(res).targets[tk];
    assert Bare(linked.services[s]) == PlanOf(res).services[s] == ServiceOf(res, s);
  }

  // ---- Rules ----

  /** The rules of an attached target are what the rules of its traffic-target stand for, narrowed by match name. */
  lemma TargetRulesExactly(res: Snapshot, linked: Topo, s: Key, tk: TargetKey)
    requires TB.Complete(res, linked) && s in linked.services && tk in Populated(linked).services[s].trafficTargets
    ensures tk in Populated(linked).targets && tk.target in res.targets
    ensures AllStandFor(res, res.targets[tk.target].namespace, res.targets[tk.target].rules,
                        Populated(linked).targets[tk].rules)
  {
    hide TB.Complete, SpecsOf, SourcesOf, Recorded, Kept, Exposed, TargetAttachable, AllStandFor;
    AttachedExactly(res, linked, s, tk.target);
    assert tk == TargetKey(s, tk.target);
    assert tk in Pairs(res);
    TargetIs(res, linked, tk);
    AttachableRules(res, res.targets[tk.target], s);
  }

  lemma AttachableRules(res: Snapshot, o: TargetObject, s: Key)
    requires s in Exposed(res, o) && TargetAttachable(res, o, s)
    ensures AllStandFor(res, o.namespace, o.rules, TargetOf(res, o, s).rules)
  {
    hide SpecsOf, SourcesOf, DestinationPorts, AllStandFor, PodKeys, Addressed;
    SpecsExactly(res, o.namespace, o.rules);
  }

  /** Reference r of a split stands for spec: whole groups, whatever matches are named. */
  ghost predicate StandsForWhole(res: Snapshot, ns: string, r: SpecRef, spec: TrafficSpec) {
    match r.kind
    case HTTPRouteGroup =>
      Key(r.name, ns) in res.routeGroups && spec == HTTPSpec(res.routeGroups[Key(r.name, ns)])
    case TCPRoute => Key(r.name, ns) in res.tcpRoutes && spec == TCPSpec
    case OtherKind => false
  }

  /** The rules of an attached split are the whole groups that its traffic-split refers to. */
  lemma SplitRulesExactly(res: Snapshot, linked: Topo, s: Key, k: Key)
    requires TB.Complete(res, linked) && s in linked.services && k in linked.services[s].trafficSplits
    ensures k in Populated(linked).splits && k in res.splits
    ensures var o, rules := res.splits[k], Populated(linked).splits[k].rules;
            |rules| == |o.matches|
            && forall i :: 0 <= i < |o.matches| ==> StandsForWhole(res, o.namespace, o.matches[i], rules[i])
  {
    hide TB.Complete, SpecsOf, Recorded, Attachable, SplitOf;
    ServicesOf(res, linked);
    SplitsOn(res, linked, s);
    SplitIs(res, linked, k);
    AttachableWhole(res, res.splits[k]);
  }

  lemma AttachableWhole(res: Snapshot, o: SplitObject)
    requires Attachable(res, o)
    ensures var rules := SplitOf(res, o).rules;
            |rules| == |o.matches|
            && forall i :: 0 <= i < |o.matches| ==> StandsForWhole(res, o.namespace, o.matches[i], rules[i])
  {
    hide SpecsOf, KeptBackends, BackendFaults;
    SpecsExactly(res, o.namespace, WholeGroups(o.matches));
    var rules := SplitOf(res, o).rules;
    forall i | 0 <= i < |o.matches|
      ensures StandsForWhole(res, o.namespace, o.matches[i], rules[i])
    {
      assert StandsFor(res, o.namespace, WholeGroups(o.matches)[i], rules[i]);
    }
  }

  // ---- What is built can be evaluated ----

  /** Every topology that is built leads the provider into no missing link. */
  lemma BuiltIsReady(res: Snapshot, linked: Topo)
    requires Keyed(res) && TB.Complete(res, linked)
    ensures CT.Ready(Populated(linked))
  {
    hide Recorded, TB.Complete, Linked, PlanOf, SpecsOf, Attachable, TargetAttachable;
    var f := Populated(linked);
    forall s | s in f.services
      ensures f.services[s].OwnKey() == s
      ensures forall tk :: tk in f.services[s].trafficTargets ==> tk in f.targets && f.targets[tk].service == s
      ensures forall k :: k in f.services[s].trafficSplits ==> CT.SplitReady(f, s, k)
    {
      BuiltService(res, linked, s);
      forall tk | tk in f.services[s].trafficTargets
        ensures tk in f.targets && f.targets[tk].service == s
      {
        BuiltTarget(res, linked, s, tk);
      }
      forall k | k in f.services[s].trafficSplits
        ensures CT.SplitReady(f, s, k)
      {
        KeptMembers(linked, linked.services[s].trafficSplits);
        BuiltSplit(res, linked, s, k);
        TB.RecordedKeeps(linked, k);
      }
    }
  }
}
