/** How the services, targets and splits of a built topology follow from the objects of the snapshot. */
module BuiltObjects {
  import opened Basics
  import opened Topologies
  import opened Resources
  import opened Specs
  import opened TopologyLinks
  import opened SplitPass
  import opened BuiltTopologies
  import TB = TopologyBuilder

  // ---- Destination ports ----

  predicate Targeted(ports: seq<ServicePort>, n: Int32) {
    exists i :: 0 <= i < |ports| && ports[i].targetPort == n
  }

  /** Port p is the first one whose target port is n. */
  ghost predicate FirstTargeting(ports: seq<ServicePort>, n: Int32, p: ServicePort) {
    exists i ::
      0 <= i < |ports| && ports[i] == p && p.targetPort == n && forall j :: 0 <= j < i ==> ports[j].targetPort != n
  }

  lemma {:induction false} PortTargetingExactly(ports: seq<ServicePort>, n: Int32)
    ensures PortTargeting(ports, n).Some? <==> Targeted(ports, n)
    ensures PortTargeting(ports, n).Some? ==> FirstTargeting(ports, n, PortTargeting(ports, n).value)
  {
    if ports != [] {
      PortTargetingExactly(ports[1..], n);
      assert forall i :: 0 < i < |ports| ==> ports[i] == ports[1..][i - 1];
      if ports[0].targetPort != n && Targeted(ports[1..], n) {
        var i :| 0 <= i < |ports[1..]| && ports[1..][i] == PortTargeting(ports[1..], n).value
            && ports[1..][i].targetPort == n && forall j :: 0 <= j < i ==> ports[1..][j].targetPort != n;
        assert ports[i + 1].targetPort == n && forall j :: 0 <= j < i + 1 ==> ports[j].targetPort != n;
      } else if ports[0].targetPort == n {
        assert ports[0] == PortTargeting(ports, n).value;
      }
    }
  }

  /** The ports of the service that traffic-target o allows: all, or the first one that targets its destination port. */
  ghost predicate Grants(o: TargetObject, svcPorts: seq<ServicePort>, ports: seq<ServicePort>) {
    match o.destinationPort
    case None => ports == svcPorts
    case Some(n) => |ports| == 1 && FirstTargeting(svcPorts, n, ports[0])
  }

  lemma DestinationPortsExactly(ports: seq<ServicePort>, o: TargetObject)
    ensures var r := DestinationPorts(ports, o);
            && (r.Success? <==> o.destinationPort.Some? ==> Targeted(ports, o.destinationPort.value))
            && (r.Success? ==> Grants(o, ports, r.value))
            && (r.Failure? ==> r.error == NoDestinationPort(o.destinationPort.value))
  {
    if o.destinationPort.Some? {
      PortTargetingExactly(ports, o.destinationPort.value);
    }
  }

  // ---- Which specs are found ----

  ghost predicate AllResolve(res: Snapshot, ns: string, refs: seq<SpecRef>) {
    forall i :: 0 <= i < |refs| ==> Resolves(res, ns, refs[i])
  }

  lemma SpecsFoundExactly(res: Snapshot, ns: string, refs: seq<SpecRef>)
    ensures SpecsOf(res, ns, refs).Success? <==> AllResolve(res, ns, refs)
  {
    hide StandsFor, Dangles, SpecOf, SpecsOf;
    SpecsExactly(res, ns, refs);
    var r := SpecsOf(res, ns, refs);
    if r.Success? {
      forall i | 0 <= i < |refs|
        ensures Resolves(res, ns, refs[i])
      {
        assert StandsFor(res, ns, refs[i], r.value[i]);
      }
    } else {
      var i: nat :| DanglesAt(res, ns, refs, r.error, i);
      NotBoth(res, ns, refs[i], r.error);
    }
  }

  lemma NotBoth(res: Snapshot, ns: string, r: SpecRef, e: BuildError)
    requires Dangles(res, ns, r, e)
    ensures !Resolves(res, ns, r)
  {
    hide StandsFor, Dangles;
    forall spec
      ensures !StandsFor(res, ns, r, spec)
    {
      StandsForOne(res, ns, r, spec, spec, e);
    }
  }

  // ---- Traffic-targets ----

  /** Traffic-target o can be attached to service s. */
  ghost predicate Attaches(res: Snapshot, o: TargetObject, s: Key) {
    && s in res.services && AllResolve(res, o.namespace, o.rules)
    && (o.destinationPort.Some? ==> Targeted(res.services[s].ports, o.destinationPort.value))
  }

  lemma AttachesExactly(res: Snapshot, o: TargetObject, s: Key)
    ensures TargetAttachable(res, o, s) <==> Attaches(res, o, s)
  {
    hide SpecsOf, AllResolve, DestinationPorts;
    SpecsFoundExactly(res, o.namespace, o.rules);
    if s in res.services {
      DestinationPortsExactly(res.services[s].ports, o);
    }
  }

  /** Why traffic-target o cannot be attached to service s. */
  ghost predicate TargetFault(res: Snapshot, o: TargetObject, s: Key, e: BuildError) {
    if s !in res.services then e == NoTargetService(s)
    else if !AllResolve(res, o.namespace, o.rules) then FirstDangles(res, o.namespace, o.rules, e)
    else
      o.destinationPort.Some? && !Targeted(res.services[s].ports, o.destinationPort.value)
      && e == NoDestinationPort(o.destinationPort.value)
  }

  /** The sources of a target: those of the traffic-target, with the addressed pods of their accounts. */
  ghost predicate SourcesFollow(res: Snapshot, o: TargetObject, sources: seq<Source>) {
    && |sources| == |o.sources|
    && forall i :: 0 <= i < |sources| ==>
         && sources[i].serviceAccount == o.sources[i].name && sources[i].namespace == o.sources[i].namespace
         && forall p :: p in sources[i].pods <==>
              AddressedPod(Lookup(res.podsBySa, Key(o.sources[i].name, o.sources[i].namespace)), p)
  }

  predicate AddressedPod(pods: seq<PodObject>, k: Key) {
    exists i :: 0 <= i < |pods| && pods[i].ip != "" && Key(pods[i].name, pods[i].namespace) == k
  }

  lemma {:induction false} AddressedMembers(pods: seq<PodObject>, k: Key)
    ensures k in PodKeys(Addressed(pods)) <==> AddressedPod(pods, k)
  {
    if pods != [] {
      AddressedMembers(pods[1..], k);
      var first := if pods[0].ip == "" then [] else [pods[0]];
      assert PodKeys(Addressed(pods)) == PodKeys(first) + PodKeys(Addressed(pods[1..]));
      assert forall i :: 0 < i < |pods| ==> pods[i] == pods[1..][i - 1];
      assert PodKeys(first) == if pods[0].ip == "" then [] else [pods[0].OwnKey()];
      if pods[0].ip != "" && pods[0].OwnKey() == k {
        assert k in PodKeys(first) && AddressedPod(pods, k);
      } else {
        assert k !in PodKeys(first);
      }
      if AddressedPod(pods[1..], k) {
        var i :| 0 <= i < |pods[1..]| && pods[1..][i].ip != "" && Key(pods[1..][i].name, pods[1..][i].namespace) == k;
        assert pods[i + 1].ip != "";
      }
    }
  }

  /** Pods with an address are kept in their order. */
  lemma {:induction false} AddressedConcat(a: seq<PodObject>, b: seq<PodObject>)
    ensures Addressed(a + b) == Addressed(a) + Addressed(b)
  {
    if a == [] {
      assert a + b == b;
    } else {
      assert (a + b)[1..] == a[1..] + b;
      AddressedConcat(a[1..], b);
    }
  }

  /** So are the pods of sources. */
  lemma {:induction false} SourcePodsConcat(a: seq<Source>, b: seq<Source>)
    ensures SourcePods(a + b) == SourcePods(a) + SourcePods(b)
  {
    if a == [] {
      assert a + b == b;
    } else {
      assert (a + b)[1..] == a[1..] + b;
      SourcePodsConcat(a[1..], b);
    }
  }

  /** What becomes of traffic-target o on service s, whether it gets attached or not. */
  lemma TargetExactly(res: Snapshot, o: TargetObject, s: Key)
    requires s in Exposed(res, o)
    ensures var tt := TargetOf(res, o, s);
            && tt.name == o.name && tt.namespace == o.namespace && tt.service == s
            && SourcesFollow(res, o, tt.sources)
            && (Attaches(res, o, s) ==>
                 && tt.errors == [] && AllStandFor(res, o.namespace, o.rules, tt.rules)
                 && tt.destination.serviceAccount == o.destination.name
                 && tt.destination.namespace == o.destination.namespace
                 && Grants(o, res.services[s].ports, tt.destination.ports)
                 && forall p :: p in tt.destination.pods <==> AddressedPod(Exposed(res, o)[s], p))
            && (!Attaches(res, o, s) ==> |tt.errors| == 1 && TargetFault(res, o, s, tt.errors[0]))
  {
    hide SpecsOf, AllResolve, AllStandFor, FirstDangles, DestinationPorts, Grants, Addressed, PodKeys, AddressedPod,
         Targeted, SourcesFollow, Exposed;
    SourcesAre(res, o);
    AttachesExactly(res, o, s);
    SpecsFoundExactly(res, o.namespace, o.rules);
    SpecsExactly(res, o.namespace, o.rules);
    if s in res.services {
      DestinationPortsExactly(res.services[s].ports, o);
    }
    forall p
      ensures p in PodKeys(Addressed(Exposed(res, o)[s])) <==> AddressedPod(Exposed(res, o)[s], p)
    {
      AddressedMembers(Exposed(res, o)[s], p);
    }
  }

  lemma SourcesAre(res: Snapshot, o: TargetObject)
    ensures SourcesFollow(res, o, SourcesOf(res, o))
  {
    hide Addressed, PodKeys, AddressedPod;
    forall i, p | 0 <= i < |o.sources|
      ensures p in SourcesOf(res, o)[i].pods <==>
              AddressedPod(Lookup(res.podsBySa, Key(o.sources[i].name, o.sources[i].namespace)), p)
    {
      AddressedMembers(Lookup(res.podsBySa, Key(o.sources[i].name, o.sources[i].namespace)), p);
    }
  }

  /** A built topology holds a target for each traffic-target and service that exposes its destination account. */
  lemma BuiltTargetsExactly(res: Snapshot, linked: Topo, s: Key, k: Key)
    requires TB.Complete(res, linked)
    ensures TargetKey(s, k) in Populated(linked).targets <==> k in res.targets && s in Exposed(res, res.targets[k])
    ensures k in res.targets && s in Exposed(res, res.targets[k]) ==>
              Populated(linked).targets[TargetKey(s, k)] == TargetOf(res, res.targets[k], s)
    ensures s in res.services ==>
              && s in Populated(linked).services
              && (TargetKey(s, k) in Populated(linked).services[s].trafficTargets <==>
                   k in res.targets && s in Exposed(res, res.targets[k]) && Attaches(res, res.targets[k], s))
  {
    hide TB.Complete, TargetOf, Exposed, TargetAttachable, Attaches, Recorded, Kept;
    TargetsPlanned(res, linked);
    var tk := TargetKey(s, k);
    assert tk in Pairs(res) <==> k in res.targets && s in Exposed(res, res.targets[k]);
    if tk in Pairs(res) {
      TargetIs(res, linked, tk);
      AttachesExactly(res, res.targets[k], s);
    }
    if s in res.services {
      ServicesOf(res, linked);
      AttachedExactly(res, linked, s, k);
    }
  }

  lemma TargetsPlanned(res: Snapshot, linked: Topo)
    requires TB.Complete(res, linked)
    ensures linked.targets.Keys == Pairs(res)
  {
    hide ServicesMatch, SplitsLinked, BackendsLinked, PodsLinked, PodsPresent, PodsKnown, SplitOf, TargetOf, ServiceOf,
         Attachable, TargetAttachable, Exposed;
  }

  // ---- Traffic-splits ----

  /** Reference r finds a whole group, or a route. */
  predicate FindsWhole(res: Snapshot, ns: string, r: SpecRef) {
    match r.kind
    case HTTPRouteGroup => Key(r.name, ns) in res.routeGroups
    case TCPRoute => Key(r.name, ns) in res.tcpRoutes
    case OtherKind => false
  }

  ghost predicate AllWhole(res: Snapshot, o: SplitObject) {
    forall i :: 0 <= i < |o.matches| ==> FindsWhole(res, o.namespace, o.matches[i])
  }

  /** Traffic-split o can be attached to its root service. */
  ghost predicate SplitAttaches(res: Snapshot, o: SplitObject) {
    Key(o.service, o.namespace) in res.services && AllWhole(res, o)
  }

  lemma WholeResolves(res: Snapshot, ns: string, r: SpecRef)
    ensures Resolves(res, ns, r.(matches := [])) <==> FindsWhole(res, ns, r)
  {
    var whole := r.(matches := []);
    if FindsWhole(res, ns, r) {
      if r.kind == HTTPRouteGroup {
        assert StandsFor(res, ns, whole, HTTPSpec(res.routeGroups[Key(r.name, ns)]));
      } else {
        assert StandsFor(res, ns, whole, TCPSpec);
      }
    }
  }

  lemma SplitAttachesExactly(res: Snapshot, o: SplitObject)
    ensures SpecsOf(res, o.namespace, WholeGroups(o.matches)).Success? <==> AllWhole(res, o)
    ensures Attachable(res, o) <==> SplitAttaches(res, o)
  {
    hide SpecsOf, Resolves, FindsWhole;
    SpecsFoundExactly(res, o.namespace, WholeGroups(o.matches));
    forall i | 0 <= i < |o.matches|
      ensures Resolves(res, o.namespace, WholeGroups(o.matches)[i]) <==> FindsWhole(res, o.namespace, o.matches[i])
    {
      WholeResolves(res, o.namespace, o.matches[i]);
    }
  }

  /** What is reported about backend b of split o. */
  ghost predicate Reported(res: Snapshot, o: SplitObject, b: BackendObject, e: BuildError)
    requires Key(o.service, o.namespace) in res.services
  {
    var s := Key(b.service, o.namespace);
    if s !in res.services then e == NoBackendService(s)
    else !Covers(res.services[Key(o.service, o.namespace)].ports, res.services[s].ports) && e == PortsMismatch(s)
  }

  lemma {:induction false} FaultsExactly(res: Snapshot, o: SplitObject, bs: seq<BackendObject>, e: BuildError)
    requires Key(o.service, o.namespace) in res.services
    ensures e in BackendFaults(res, o, bs) <==> exists i :: 0 <= i < |bs| && Reported(res, o, bs[i], e)
  {
    hide Covers;
    if bs != [] {
      FaultsExactly(res, o, bs[1..], e);
      assert forall i :: 0 < i < |bs| ==> bs[i] == bs[1..][i - 1];
      assert e in Fault(res, o, bs[0]) <==> Reported(res, o, bs[0], e);
      if i :| 0 <= i < |bs[1..]| && Reported(res, o, bs[1..][i], e) {
        assert Reported(res, o, bs[i + 1], e);
      }
    }
  }

  /** What becomes of traffic-split o before the final pass, whether it gets attached or not. */
  lemma SplitExactly(res: Snapshot, o: SplitObject, e: BuildError)
    ensures var ts := SplitOf(res, o);
            && ts.name == o.name && ts.namespace == o.namespace && ts.service == Key(o.service, o.namespace)
            && ts.incoming == []
            && (SplitAttaches(res, o) ==>
                 (e in ts.errors <==> exists i :: 0 <= i < |o.backends| && Reported(res, o, o.backends[i], e)))
            && (!SplitAttaches(res, o) ==>
                 && ts.backends == [] && |ts.errors| == 1
                 && if AllWhole(res, o) then ts.errors[0] == NoRootService(ts.service)
                    else FirstDangles(res, o.namespace, WholeGroups(o.matches), ts.errors[0]))
  {
    hide SpecsOf, AllWhole, KeptBackends, BackendFaults, WholeGroups, FirstDangles, Reported;
    SplitAttachesExactly(res, o);
    SpecsExactly(res, o.namespace, WholeGroups(o.matches));
    if RootOf(o) in res.services {
      FaultsExactly(res, o, o.backends, e);
    }
  }

  /** A built topology holds a split for each traffic-split, and attached before the pass those that can be. */
  lemma BuiltSplitsExactly(res: Snapshot, linked: Topo, s: Key, k: Key)
    requires TB.Complete(res, linked)
    ensures k in res.splits ==> k in linked.splits && linked.splits[k] == SplitOf(res, res.splits[k])
    ensures s in res.services ==>
              && s in linked.services
              && (k in linked.services[s].trafficSplits <==>
                   && k in res.splits && SplitAttaches(res, res.splits[k])
                   && Key(res.splits[k].service, res.splits[k].namespace) == s)
  {
    hide TB.Complete, SplitOf, Attachable, SplitAttaches;
    if k in res.splits {
      SplitIs(res, linked, k);
      SplitAttachesExactly(res, res.splits[k]);
    }
    if s in res.services {
      SplitsOn(res, linked, s);
    }
  }

  // ---- Services ----

  /** A service of a built topology has what its object says, and the pods that are listed for it. */
  lemma ServiceExactly(res: Snapshot, linked: Topo, s: Key)
    requires TB.Complete(res, linked) && s in res.services
    ensures s in Populated(linked).services
    ensures var svc, o, pods := Populated(linked).services[s], res.services[s], Lookup(res.podsBySvc, s);
            && svc.name == o.name && svc.namespace == o.namespace && svc.annotations == o.annotations
            && svc.ports == o.ports && svc.clusterIP == o.clusterIP
            && |svc.pods| == |pods|
            && forall i :: 0 <= i < |pods| ==> svc.pods[i] == Key(pods[i].name, pods[i].namespace)
  {
    hide TB.Complete, Kept;
    ServiceIs(res, linked, s);
  }
}
