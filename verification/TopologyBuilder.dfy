/** Builder.Build of pkg/topology/builder.go: fills a topology from a snapshot, step by step. */
module TopologyBuilder {
  import opened Basics
  import opened Topologies
  import opened Resources
  import opened Specs
  import opened SplitGraph
  import opened SplitPass
  import opened TopologyGraph
  import opened TopologyLinks
  import SplitTheorems

  // ---- Specs ----

  method BuildMatches(names: seq<string>, matches: seq<HTTPMatch>, key: Key) returns (r: Built<HTTPMatch>)
    ensures r == SelectMatches(names, matches, key)
  {
    var selected: seq<HTTPMatch> := [];
    PrefixedNothing(SelectMatches(names, matches, key));
    for i := 0 to |names|
      invariant Prefixed(selected, SelectMatches(names[i..], matches, key)) == SelectMatches(names, matches, key)
    {
      assert names[i..][1..] == names[i + 1..];
      var found := false;
      for j := 0 to |matches|
        invariant !found && MatchNamed(matches[j..], names[i]) == MatchNamed(matches, names[i])
      {
        assert matches[j..][1..] == matches[j + 1..];
        found := matches[j].name == names[i];
        if found {
          PrefixedTwice(selected, [matches[j]], SelectMatches(names[i + 1..], matches, key));
          selected := selected + [matches[j]];
          break;
        }
      }
      if !found {
        return Failure(NoMatch(names[i], key));
      }
    }
    assert selected + [] == selected;
    r := Success(selected);
  }

  method BuildSpec(res: Snapshot, ns: string, s: SpecRef) returns (r: Result<TrafficSpec, BuildError>)
    ensures r == SpecOf(res, ns, s)
  {
    var key := Key(s.name, ns);
    match s.kind {
      case HTTPRouteGroup =>
        if key !in res.routeGroups {
          return Failure(NoSpec(key));
        }
        if |s.matches| == 0 {
          return Success(HTTPSpec(res.routeGroups[key]));
        }
        var ms := BuildMatches(s.matches, res.routeGroups[key], key);
        return if ms.Failure? then Failure(ms.error) else Success(HTTPSpec(ms.value));
      case TCPRoute =>
        return if key in res.tcpRoutes then Success(TCPSpec) else Failure(NoSpec(key));
      case OtherKind =>
        return Failure(UnknownSpecKind);
    }
  }

  method BuildSpecs(res: Snapshot, ns: string, refs: seq<SpecRef>) returns (r: Built<TrafficSpec>)
    ensures r == SpecsOf(res, ns, refs)
    ensures r.Success? ==> AllStandFor(res, ns, refs, r.value)
    ensures r.Failure? ==> FirstDangles(res, ns, refs, r.error)
  {
    hide SpecOf, StandsFor, Dangles, AllStandFor, FirstDangles;
    SpecsExactly(res, ns, refs);
    var specs: seq<TrafficSpec> := [];
    PrefixedNothing(SpecsOf(res, ns, refs));
    for i := 0 to |refs|
      invariant Prefixed(specs, SpecsOf(res, ns, refs[i..])) == SpecsOf(res, ns, refs)
    {
      assert refs[i..][1..] == refs[i + 1..];
      var spec := BuildSpec(res, ns, refs[i]);
      if spec.Failure? {
        return Failure(spec.error);
      }
      PrefixedTwice(specs, [spec.value], SpecsOf(res, ns, refs[i + 1..]));
      specs := specs + [spec.value];
    }
    assert specs + [] == specs;
    r := Success(specs);
  }

  // ---- Pods and services ----

  method GetOrCreatePod(topology: Topology, pod: PodObject) returns (k: Key)
    modifies topology
    ensures k == pod.OwnKey()
    ensures topology.View() == old(topology.View()).(pods := CreatePod(old(topology.pods), pod))
  {
    k := pod.OwnKey();
    if k !in topology.pods {
      topology.pods := topology.pods[k := Pod(pod.name, pod.namespace, pod.serviceAccount, pod.ip, [], [])];
    }
  }

  method EvaluateService(res: Snapshot, topology: Topology, k: Key)
    requires k in res.services
    modifies topology
    ensures topology.View() ==
              ServiceAdded(PlanOf(res), old(topology.View()), k,
                           CreatePods(old(topology.pods), Lookup(res.podsBySvc, k)))
  {
    var os := Lookup(res.podsBySvc, k);
    var keys: seq<Key> := [];
    for i := 0 to |os|
      invariant topology.View() == old(topology.View()).(pods := topology.pods)
      invariant CreatePods(topology.pods, os[i..]) == CreatePods(old(topology.pods), os)
      invariant keys == PodKeys(os)[..i]
    {
      assert os[i..][1..] == os[i + 1..];
      var key := GetOrCreatePod(topology, os[i]);
      keys := keys + [key];
    }
    assert keys == PodKeys(os);
    var o := res.services[k];
    topology.services := topology.services[k := Service(o.name, o.namespace, o.annotations, o.ports, o.clusterIP, keys,
                                                        [], [], [])];
  }

  // ---- Traffic-splits ----

  method ValidateServiceAndBackendPorts(svcPorts: seq<ServicePort>, backendPorts: seq<ServicePort>) returns (ok: bool)
    ensures ok == Covers(svcPorts, backendPorts)
  {
    for i := 0 to |svcPorts|
      invariant forall j :: 0 <= j < i ==> exists q :: q in backendPorts && q.port == svcPorts[j].port
    {
      var found := false;
      for j := 0 to |backendPorts|
        invariant !found && forall n :: 0 <= n < j ==> backendPorts[n].port != svcPorts[i].port
      {
        if svcPorts[i].port == backendPorts[j].port {
          found := true;
          break;
        }
      }
      if !found {
        assert svcPorts[i] in svcPorts;
        return false;
      }
    }
    ok := true;
  }

  /** The ports of every service of the topology are those of the snapshot. */
  ghost predicate PortsKept(res: Snapshot, services: map<Key, Service>) {
    services.Keys == res.services.Keys && forall s :: s in services ==> services[s].ports == res.services[s].ports
  }

  lemma NoteBackendsFirst(services: map<Key, Service>, first: seq<Backend>, rest: seq<Backend>, k: Key)
    requires |first| <= 1
    ensures NoteBackends(services, first + rest, k) == NoteBackends(NoteBackends(services, first, k), rest, k)
  {
    if first == [] {
      assert first + rest == rest;
    } else {
      assert (first + rest)[1..] == rest;
    }
  }

  /** Adds backend b to ts, and split k to its service, when b passes the checks. */
  method AddBackend(res: Snapshot, topology: Topology, o: SplitObject, k: Key, b: BackendObject,
          ts: Split) returns (r: Split)
    requires RootOf(o) in res.services && PortsKept(res, topology.services)
    modifies topology
    ensures r == ts.(backends := ts.backends + KeptBackend(res, o, b), errors := ts.errors + Fault(res, o, b))
    ensures topology.View() ==
              old(topology.View()).(services := NoteBackends(old(topology.services), KeptBackend(res, o, b), k))
    ensures PortsKept(res, topology.services)
  {
    var s := Key(b.service, o.namespace);
    if s !in topology.services {
      return ts.(errors := ts.errors + [NoBackendService(s)]);
    }
    var ok := ValidateServiceAndBackendPorts(topology.services[RootOf(o)].ports, topology.services[s].ports);
    if !ok {
      return ts.(errors := ts.errors + [PortsMismatch(s)]);
    }
    topology.services := topology.services[s := topology.services[s].(backendOf := topology.services[s].backendOf
      + [k])];
    r := ts.(backends := ts.backends + [Backend(b.weight, s)]);
  }

  method AddBackends(res: Snapshot, topology: Topology, o: SplitObject, k: Key, bare: Split) returns (ts: Split)
    requires RootOf(o) in res.services && PortsKept(res, topology.services) && bare.backends == [] && bare.errors == []
    modifies topology
    ensures ts == bare.(backends := KeptBackends(res, o, o.backends), errors := BackendFaults(res, o, o.backends))
    ensures topology.View() ==
              old(topology.View()).(services := NoteBackends(old(topology.services), KeptBackends(res, o, o.backends),
                                                             k))
  {
    hide NoteBackends, KeptBackend, KeptBackends, Fault, BackendFaults, PortsKept;
    ts := bare;
    var bs := o.backends;
    assert bs[0..] == bs;
    for i := 0 to |bs|
      invariant topology.View() == old(topology.View()).(services := topology.services)
      invariant PortsKept(res, topology.services)
      invariant ts == bare.(backends := ts.backends, errors := ts.errors)
      invariant ts.backends + KeptBackends(res, o, bs[i..]) == KeptBackends(res, o, bs)
      invariant ts.errors + BackendFaults(res, o, bs[i..]) == BackendFaults(res, o, bs)
      invariant NoteBackends(topology.services, KeptBackends(res, o, bs[i..]), k) ==
                  NoteBackends(old(topology.services), KeptBackends(res, o, bs), k)
    {
      BackendsStep(res, o, bs, i, topology.services, k);
      ts := AddBackend(res, topology, o, k, bs[i], ts);
    }
    NoBackendsLeft(res, o, topology.services, k);
    assert bs[|bs|..] == [] && ts.backends + [] == ts.backends && ts.errors + [] == ts.errors;
  }

  lemma BackendsStep(res: Snapshot, o: SplitObject, bs: seq<BackendObject>, i: nat, services: map<Key, Service>, k: Key)
    requires RootOf(o) in res.services && i < |bs|
    ensures KeptBackends(res, o, bs[i..]) == KeptBackend(res, o, bs[i]) + KeptBackends(res, o, bs[i + 1..])
    ensures BackendFaults(res, o, bs[i..]) == Fault(res, o, bs[i]) + BackendFaults(res, o, bs[i + 1..])
    ensures NoteBackends(services, KeptBackends(res, o, bs[i..]), k) ==
            NoteBackends(NoteBackends(services, KeptBackend(res, o, bs[i]), k), KeptBackends(res, o, bs[i + 1..]), k)
  {
    assert bs[i..][1..] == bs[i + 1..];
    NoteBackendsFirst(services, KeptBackend(res, o, bs[i]), KeptBackends(res, o, bs[i + 1..]), k);
  }

  lemma NoBackendsLeft(res: Snapshot, o: SplitObject, services: map<Key, Service>, k: Key)
    requires RootOf(o) in res.services
    ensures KeptBackends(res, o, []) == [] && BackendFaults(res, o, []) == []
            && NoteBackends(services, [], k) == services
  {
  }

  method EvaluateTrafficSplit(res: Snapshot, topology: Topology, k: Key)
    requires k in res.splits && k == Key(res.splits[k].name, res.splits[k].namespace)
             && PortsKept(res, topology.services)
    modifies topology
    ensures topology.View() == WithSplitObject(res, old(topology.View()), k)
  {
    var o := res.splits[k];
    var root := Key(o.service, o.namespace);
    var ts := Split(o.name, o.namespace, root, [], [], [], []);
    var specs := BuildSpecs(res, o.namespace, WholeGroups(o.matches));
    if specs.Failure? {
      topology.splits := topology.splits[k := ts.(errors := [specs.error])];
      return;
    }
    ts := ts.(rules := specs.value);
    if root !in topology.services {
      topology.splits := topology.splits[k := ts.(errors := [NoRootService(root)])];
      return;
    }
    ts := AddBackends(res, topology, o, k, ts);
    topology.splits := topology.splits[k := ts];
    NoteBackendsEffect(old(topology.services), ts.backends, k);
    var splits := topology.services[root].trafficSplits + [k];
    topology.services := topology.services[root := topology.services[root].(trafficSplits := splits)];
  }

  /** The topology once split object k has been evaluated. */
  ghost function WithSplitObject(res: Snapshot, t: Topo, k: Key): Topo
    requires k in res.splits && t.services.Keys == res.services.Keys
  {
    var o := res.splits[k];
    var ts := SplitOf(res, o);
    var recorded := t.(splits := t.splits[k := ts]);
    if !Attachable(res, o) then recorded
    else
      NoteBackendsEffect(t.services, ts.backends, k);
      recorded.(services := WithSplit(NoteBackends(t.services, ts.backends, k), RootOf(o), k))
  }

  lemma SplitStep(res: Snapshot, t: Topo, k: Key)
    requires Keyed(res) && Linked(PlanOf(res), t) && k in res.splits && k !in t.splits
    ensures PortsKept(res, t.services)
    ensures Linked(PlanOf(res), WithSplitObject(res, t, k))
    ensures WithSplitObject(res, t, k).splits.Keys == t.splits.Keys + {k}
    ensures WithSplitObject(res, t, k).targets == t.targets && WithSplitObject(res, t, k).pods == t.pods
  {
    hide Linked, PlanFits, PlanOf, NoteBackends, SplitOf, Attachable, WithSplit, SplitAdded, Bare;
    LinkedKeepsPorts(res, t);
    PlanOfFits(res);
    PlannedSplit(res, k);
    LinkedServices(PlanOf(res), t);
    SplitAddedKeeps(PlanOf(res), t, k);
    SplitStepSame(res, t, k);
  }

  lemma PlannedSplit(res: Snapshot, k: Key)
    requires k in res.splits
    ensures k in PlanOf(res).splits && PlanOf(res).splits[k] == SplitOf(res, res.splits[k])
    ensures PlanOf(res).services.Keys == res.services.Keys
  {
    hide TargetOf, SplitOf, ServiceOf, Attachable, TargetAttachable;
  }

  lemma SplitStepSame(res: Snapshot, t: Topo, k: Key)
    requires PlanFits(PlanOf(res)) && k in res.splits && t.services.Keys == res.services.Keys
    ensures SplitAdded(PlanOf(res), t, k) == WithSplitObject(res, t, k)
  {
    hide PlanFits, SplitOf, Attachable, NoteBackends, WithSplit;
  }

  // ---- Traffic-targets ----

  method CollectPods(topology: Topology, os: seq<PodObject>) returns (keys: seq<Key>)
    modifies topology
    ensures topology.View() == old(topology.View()).(pods := CreatePods(old(topology.pods), Addressed(os)))
    ensures keys == PodKeys(Addressed(os))
  {
    hide CreatePod, CreatePods, PodKeys, Addressed;
    keys := [];
    assert os[0..] == os;
    for i := 0 to |os|
      invariant topology.View() == old(topology.View()).(pods := topology.pods)
      invariant CreatePods(topology.pods, Addressed(os[i..])) == CreatePods(old(topology.pods), Addressed(os))
      invariant keys + PodKeys(Addressed(os[i..])) == PodKeys(Addressed(os))
    {
      AddressedStep(os, i);
      if os[i].ip == "" {
        continue;
      }
      CollectStep(topology.pods, os[i], Addressed(os[i + 1..]));
      var key := GetOrCreatePod(topology, os[i]);
      keys := keys + [key];
    }
    NothingCollected(os, topology.pods);
  }

  lemma AddressedStep(os: seq<PodObject>, i: nat)
    requires i < |os|
    ensures Addressed(os[i..]) == if os[i].ip == "" then Addressed(os[i + 1..]) else [os[i]] + Addressed(os[i + 1..])
  {
    assert os[i..][1..] == os[i + 1..];
  }

  lemma CollectStep(pods: map<Key, Pod>, o: PodObject, rest: seq<PodObject>)
    ensures CreatePods(pods, [o] + rest) == CreatePods(CreatePod(pods, o), rest)
    ensures PodKeys([o] + rest) == [o.OwnKey()] + PodKeys(rest)
  {
    assert ([o] + rest)[1..] == rest;
  }

  lemma NothingCollected(os: seq<PodObject>, pods: map<Key, Pod>)
    ensures CreatePods(pods, Addressed(os[|os|..])) == pods && PodKeys(Addressed(os[|os|..])) == []
  {
  }

  method BuildTrafficTargetSources(res: Snapshot, topology: Topology, o: TargetObject) returns (sources: seq<Source>)
    modifies topology
    ensures topology.View() == old(topology.View()).(pods := CreateSources(res, old(topology.pods), o.sources))
    ensures sources == SourcesOf(res, o)
  {
    sources := [];
    for i := 0 to |o.sources|
      invariant topology.View() == old(topology.View()).(pods := topology.pods)
      invariant CreateSources(res, topology.pods, o.sources[i..]) == CreateSources(res, old(topology.pods), o.sources)
      invariant sources == SourcesOf(res, o)[..i]
    {
      assert o.sources[i..][1..] == o.sources[i + 1..];
      var id := o.sources[i];
      var keys := CollectPods(topology, Lookup(res.podsBySa, Key(id.name, id.namespace)));
      sources := sources + [Source(id.name, id.namespace, keys)];
    }
  }

  method GetTrafficTargetDestinationPorts(svc: Service, o: TargetObject) returns (r: Built<ServicePort>)
    ensures r == DestinationPorts(svc.ports, o)
  {
    match o.destinationPort
    case None => return Success(svc.ports);
    case Some(n) =>
      for i := 0 to |svc.ports|
        invariant PortTargeting(svc.ports[i..], n) == PortTargeting(svc.ports, n)
      {
        assert svc.ports[i..][1..] == svc.ports[i + 1..];
        if svc.ports[i].targetPort == n {
          return Success([svc.ports[i]]);
        }
      }
      return Failure(NoDestinationPort(n));
  }

  method AddSourceAndDestinationToPods(topology: Topology, sources: seq<Source>, tk: TargetKey)
    requires tk in topology.targets && topology.targets[tk].sources == sources
    modifies topology
    ensures topology.View() == old(topology.View()).(pods := Noted(old(topology.pods), old(topology.targets)[tk], tk))
  {
    ghost var noted := NoteSources(topology.pods, SourcePods(sources), tk);
    for i := 0 to |sources|
      invariant topology.View() == old(topology.View()).(pods := topology.pods)
      invariant NoteSources(topology.pods, SourcePods(sources[i..]), tk) == noted
    {
      assert sources[i..][1..] == sources[i + 1..];
      var keys := sources[i].pods;
      ghost var rest := SourcePods(sources[i + 1..]);
      for j := 0 to |keys|
        invariant topology.View() == old(topology.View()).(pods := topology.pods)
        invariant NoteSources(topology.pods, keys[j..] + rest, tk) == noted
      {
        assert (keys[j..] + rest)[1..] == keys[j + 1..] + rest;
        if keys[j] !in topology.pods {
          continue;
        }
        topology.pods := topology.pods[keys[j] := topology.pods[keys[j]].(sourceOf := topology.pods[keys[j]].sourceOf
          + [tk])];
      }
      assert keys[|keys|..] + rest == rest;
    }
    var keys := topology.targets[tk].destination.pods;
    for j := 0 to |keys|
      invariant topology.View() == old(topology.View()).(pods := topology.pods)
      invariant NoteDestinations(topology.pods, keys[j..], tk) == NoteDestinations(noted, keys, tk)
    {
      assert keys[j..][1..] == keys[j + 1..];
      if keys[j] !in topology.pods {
        continue;
      }
      var destinationOf := topology.pods[keys[j]].destinationOf + [tk];
      topology.pods := topology.pods[keys[j] := topology.pods[keys[j]].(destinationOf := destinationOf)];
    }
  }

  /** The pods after adding target o on service s: those of its destination are in, once its rules are found. */
  function WithDestination(res: Snapshot, pods: map<Key, Pod>, o: TargetObject, s: Key): map<Key, Pod>
    requires s in Exposed(res, o)
  {
    if s in res.services && SpecsOf(res, o.namespace, o.rules).Success? then
      CreatePods(pods, Addressed(Exposed(res, o)[s])) else pods
  }

  /** One turn of the loop over the services that expose the destination of target k. */
  method EvaluateTargetOn(res: Snapshot, topology: Topology, k: Key, s: Key, sources: seq<Source>)
    requires k in res.targets && s in Exposed(res, res.targets[k])
             && k == Key(res.targets[k].name, res.targets[k].namespace)
    requires sources == SourcesOf(res, res.targets[k])
    requires PlanFits(PlanOf(res)) && PortsKept(res, topology.services)
    modifies topology
    ensures topology.View() ==
              TargetAdded(PlanOf(res), old(topology.View()), TargetKey(s, k),
                          WithDestination(res, old(topology.pods), res.targets[k], s))
  {
    ghost var plan := PlanOf(res);
    var o := res.targets[k];
    var tk := TargetKey(s, k);
    assert tk in Pairs(res);
    assert plan.targets[tk] == TargetOf(res, o, s) && (tk in plan.placed <==> TargetAttachable(res, o, s));
    var stt := Target(o.name, o.namespace, s, sources, Destination("", "", [], []), [], []);
    if s !in topology.services {
      topology.targets := topology.targets[tk := stt.(errors := [NoTargetService(s)])];
      return;
    }
    var specs := BuildSpecs(res, o.namespace, o.rules);
    if specs.Failure? {
      topology.targets := topology.targets[tk := stt.(errors := [specs.error])];
      return;
    }
    stt := stt.(rules := specs.value);
    var keys := CollectPods(topology, Exposed(res, o)[s]);
    var dest := Destination(o.destination.name, o.destination.namespace, [], keys);
    var ports := GetTrafficTargetDestinationPorts(topology.services[s], o);
    if ports.Failure? {
      topology.targets := topology.targets[tk := stt.(destination := dest, errors := [ports.error])];
      return;
    }
    stt := stt.(destination := dest.(ports := ports.value));
    assert stt == TargetOf(res, o, s);
    topology.targets := topology.targets[tk := stt];
    var targets := topology.services[s].trafficTargets + [tk];
    topology.services := topology.services[s := topology.services[s].(trafficTargets := targets)];
    AddSourceAndDestinationToPods(topology, sources, tk);
  }

  lemma LinkedKeepsPorts(res: Snapshot, t: Topo)
    requires Linked(PlanOf(res), t)
    ensures PortsKept(res, t.services)
  {
    hide SplitsLinked, BackendsLinked, TargetsLinked, PodsLinked, PodsPresent, Pairs, TargetAttachable, Attachable,
         SplitOf, TargetOf;
    forall s | s in t.services
      ensures s in res.services && t.services[s].ports == res.services[s].ports
    {
      assert PlanOf(res).services[s] == ServiceOf(res, s);
      assert Bare(t.services[s]).ports == t.services[s].ports;
    }
  }

  /** The pairs of target k with the given services. */
  ghost function PairsOf(k: Key, services: set<Key>): set<TargetKey> {
    set s | s in services :: TargetKey(s, k)
  }

  method EvaluateTrafficTarget(res: Snapshot, topology: Topology, k: Key)
    requires Keyed(res) && k in res.targets && Linked(PlanOf(res), topology.View())
    requires PodsKnown(res, topology.pods) && forall s :: TargetKey(s, k) !in topology.targets
    modifies topology
    ensures Linked(PlanOf(res), topology.View()) && PodsKnown(res, topology.pods)
    ensures topology.splits == old(topology.splits)
    ensures topology.targets.Keys == old(topology.targets).Keys + PairsOf(k, Exposed(res, res.targets[k]).Keys)
  {
    hide Linked, PlanFits, PlanOf, TargetAdded, WithDestination, PortsKept, PodsKnown;
    ghost var plan := PlanOf(res);
    PlanOfFits(res);
    var o := res.targets[k];
    var sources := BuildTrafficTargetSources(res, topology, o);
    CreateSourcesGrow(res, old(topology.pods), o.sources);
    CreateSourcesKnown(res, old(topology.pods), o.sources);
    PodsCreatedKeeps(plan, old(topology.View()), topology.pods);
    SourcesPresent(res, old(topology.pods), o);
    var todo := Exposed(res, o).Keys;
    ghost var exposed := todo;
    while todo != {}
      invariant todo <= exposed && Linked(plan, topology.View()) && topology.splits == old(topology.splits)
      invariant topology.targets.Keys == old(topology.targets).Keys + PairsOf(k, exposed - todo)
      invariant PodsKnown(res, topology.pods) && forall p :: p in SourcePods(sources) ==> p in topology.pods
      decreases todo
    {
      var s :| s in todo;
      ghost var before := topology.View();
      LinkedKeepsPorts(res, before);
      TargetStep(res, before, k, s);
      EvaluateTargetOn(res, topology, k, s, sources);
      todo := todo - {s};
      assert PairsOf(k, exposed - todo) == PairsOf(k, exposed - todo - {s}) + {TargetKey(s, k)};
    }
  }

  lemma SourcesPresent(res: Snapshot, pods: map<Key, Pod>, o: TargetObject)
    ensures forall p :: p in SourcePods(SourcesOf(res, o)) ==> p in CreateSources(res, pods, o.sources)
  {
    CreateSourcesGrow(res, pods, o.sources);
    SourcePodsMembers(SourcesOf(res, o));
    forall src, p | src in SourcesOf(res, o) && p in src.pods
      ensures p in CreateSources(res, pods, o.sources)
    {
      var i :| 0 <= i < |o.sources| && src == SourceOf(res, o.sources[i]);
    }
  }

  lemma DestinationKnown(res: Snapshot, pods: map<Key, Pod>, o: TargetObject, s: Key)
    requires s in Exposed(res, o) && PodsKnown(res, pods)
    ensures PodsKnown(res, WithDestination(res, pods, o, s))
  {
    hide PodsKnown, SpecsOf;
    var os := Exposed(res, o)[s];
    AddressedMembers(os);
    assert os == Lookup(res.podsBySvcBySa[DestinationKey(o)], s);
    CreatePodsKnown(res, pods, Addressed(os));
  }

  lemma TargetStep(res: Snapshot, t: Topo, k: Key, s: Key)
    requires Linked(PlanOf(res), t) && PlanFits(PlanOf(res)) && k in res.targets && s in Exposed(res, res.targets[k])
    requires TargetKey(s, k) !in t.targets && PodsKnown(res, t.pods)
    requires forall p :: p in SourcePods(SourcesOf(res, res.targets[k])) ==> p in t.pods
    ensures TargetKey(s, k) in PlanOf(res).targets
    ensures var u := TargetAdded(PlanOf(res), t, TargetKey(s, k), WithDestination(res, t.pods, res.targets[k], s));
            && Linked(PlanOf(res), u) && u.splits == t.splits && u.targets.Keys == t.targets.Keys + {TargetKey(s, k)}
            && PodsKnown(res, u.pods) && forall p :: p in t.pods ==> p in u.pods
  {
    hide Linked, PodsKnown, PlanOf, PlanFits, TargetOf, TargetAdded, WithDestination, SourcesOf, Bare;
    var o := res.targets[k];
    var tk := TargetKey(s, k);
    PlannedTarget(res, tk);
    var created := WithDestination(res, t.pods, o, s);
    LinkedServices(PlanOf(res), t);
    DestinationPresent(res, t.pods, o, s);
    DestinationKnown(res, t.pods, o, s);
    TargetAddedKnown(res, t, tk, created);
    TargetAddedKeeps(PlanOf(res), t, tk, created);
    TargetAddedEffect(PlanOf(res), t, tk, created);
  }

  lemma PlannedTarget(res: Snapshot, tk: TargetKey)
    requires tk in Pairs(res)
    ensures tk in PlanOf(res).targets && PlanOf(res).targets[tk] == TargetOf(res, res.targets[tk.target], tk.service)
  {
    hide TargetOf, SplitOf, ServiceOf, Attachable, TargetAttachable;
  }

  lemma LinkedServices(plan: Plan, t: Topo)
    requires Linked(plan, t)
    ensures t.services.Keys == plan.services.Keys
  {
  }

  /** The pods that a target names are in, once those of its destination are created. */
  lemma DestinationPresent(res: Snapshot, pods: map<Key, Pod>, o: TargetObject, s: Key)
    requires s in Exposed(res, o)
    ensures Grows(pods, WithDestination(res, pods, o, s)) && TargetOf(res, o, s).sources == SourcesOf(res, o)
    ensures forall p :: p in TargetOf(res, o, s).destination.pods ==> p in WithDestination(res, pods, o, s)
  {
    hide SpecsOf, SourcesOf, PodKeys, Addressed, CreatePods, DestinationPorts;
    CreatePodsGrow(pods, Addressed(Exposed(res, o)[s]));
  }

  // ---- Build ----

  /** Everything in the snapshot has been evaluated. */
  ghost predicate Complete(res: Snapshot, t: Topo) {
    && Linked(PlanOf(res), t) && PodsKnown(res, t.pods)
    && t.splits.Keys == res.splits.Keys
    && t.targets.Keys == Pairs(res)
  }

  lemma ServiceStep(res: Snapshot, t: Topo, done: set<Key>, k: Key)
    requires OnlyServices(PlanOf(res), t, done) && k in res.services && PodsKnown(res, t.pods)
    ensures k in PlanOf(res).services && PodsKnown(res, CreatePods(t.pods, Lookup(res.podsBySvc, k)))
    ensures OnlyServices(PlanOf(res), ServiceAdded(PlanOf(res), t, k, CreatePods(t.pods, Lookup(res.podsBySvc, k))),
                         done + {k})
  {
    hide OnlyServices, PodsKnown;
    CreatePodsGrow(t.pods, Lookup(res.podsBySvc, k));
    CreatePodsKnown(res, t.pods, Lookup(res.podsBySvc, k));
    assert PlanOf(res).services[k] == ServiceOf(res, k);
    ServiceAddedKeeps(PlanOf(res), t, done, k, CreatePods(t.pods, Lookup(res.podsBySvc, k)));
  }

  lemma NoServices(res: Snapshot, t: Topo)
    requires t == Topo(map[], map[], map[], map[])
    ensures OnlyServices(PlanOf(res), t, {})
  {
  }

  lemma AllServices(res: Snapshot, t: Topo)
    requires Keyed(res) && OnlyServices(PlanOf(res), t, res.services.Keys)
    ensures Linked(PlanOf(res), t) && t.splits == map[] && t.targets == map[]
  {
    hide Linked, PlanFits;
    PlanOfFits(res);
    assert PlanOf(res).services.Keys == res.services.Keys;
    OnlyServicesLinked(PlanOf(res), t);
  }

  method AddServices(res: Snapshot, topology: Topology)
    requires Keyed(res) && topology.View() == Topo(map[], map[], map[], map[])
    modifies topology
    ensures Linked(PlanOf(res), topology.View()) && topology.splits == map[] && topology.targets == map[]
    ensures PodsKnown(res, topology.pods)
  {
    hide Linked, PlanOf, OnlyServices;
    NoServices(res, topology.View());
    var todo := res.services.Keys;
    assert res.services.Keys - todo == {};
    while todo != {}
      invariant todo <= res.services.Keys
      invariant OnlyServices(PlanOf(res), topology.View(), res.services.Keys - todo)
      invariant PodsKnown(res, topology.pods)
      decreases todo
    {
      var k :| k in todo;
      ServiceStep(res, topology.View(), res.services.Keys - todo, k);
      EvaluateService(res, topology, k);
      assert res.services.Keys - (todo - {k}) == res.services.Keys - todo + {k};
      todo := todo - {k};
    }
    assert res.services.Keys - {} == res.services.Keys;
    AllServices(res, topology.View());
  }

  method AddSplits(res: Snapshot, topology: Topology)
    requires Keyed(res) && Linked(PlanOf(res), topology.View()) && topology.splits == map[] && topology.targets == map[]
    modifies topology
    ensures Linked(PlanOf(res), topology.View()) && topology.splits.Keys == res.splits.Keys && topology.targets == map[]
            && topology.pods == old(topology.pods)
  {
    hide Linked;
    hide WithSplitObject, PlanOf;
    var todo := res.splits.Keys;
    while todo != {}
      invariant todo <= res.splits.Keys
      invariant Linked(PlanOf(res), topology.View()) && topology.splits.Keys == res.splits.Keys - todo
                && topology.targets == map[] && topology.pods == old(topology.pods)
      decreases todo
    {
      var k :| k in todo;
      SplitStep(res, topology.View(), k);
      EvaluateTrafficSplit(res, topology, k);
      todo := todo - {k};
    }
  }

  method AddTargets(res: Snapshot, topology: Topology)
    requires Keyed(res) && Linked(PlanOf(res), topology.View()) && topology.targets == map[]
             && PodsKnown(res, topology.pods)
    modifies topology
    ensures Linked(PlanOf(res), topology.View()) && topology.splits == old(topology.splits)
            && topology.targets.Keys == Pairs(res) && PodsKnown(res, topology.pods)
  {
    hide Linked, PodsKnown;
    var todo := res.targets.Keys;
    while todo != {}
      invariant todo <= res.targets.Keys
      invariant Linked(PlanOf(res), topology.View()) && topology.splits == old(topology.splits)
      invariant PodsKnown(res, topology.pods)
      invariant forall tk :: tk in topology.targets <==> tk in Pairs(res) && tk.target !in todo
      decreases todo
    {
      var k :| k in todo;
      EvaluateTrafficTarget(res, topology, k);
      todo := todo - {k};
    }
  }

  /** The links of the final topology are in agreement, apart from the splits that were taken off. */
  ghost predicate FinalLinks(res: Snapshot, f: Topo) {
    && BackendsLinked(f) && TargetsLinked(PlanOf(res), f) && PodsLinked(f) && PodsPresent(f)
    && forall s, k :: s in f.services && k in f.services[s].trafficSplits ==> k in f.splits && f.splits[k].service == s
  }

  lemma PassKeepsLinks(res: Snapshot, linked: Topo)
    requires PlanFits(PlanOf(res)) && Linked(PlanOf(res), linked)
    ensures FinalLinks(res, Populated(linked))
  {
    hide PlanOf, PlanFits;
    PassKeepsSplits(PlanOf(res), linked);
    PassKeepsBackends(linked);
    PassKeepsTargets(PlanOf(res), linked);
  }

  lemma PassKeepsSplits(plan: Plan, linked: Topo)
    requires PlanFits(plan) && SplitsLinked(plan, linked)
    ensures var f := Populated(linked);
            forall s, k ::
                     s in f.services && k in f.services[s].trafficSplits ==> k in f.splits && f.splits[k].service == s
  {
    var f := Populated(linked);
    forall s, k | s in f.services && k in f.services[s].trafficSplits
      ensures k in f.splits && f.splits[k].service == s
    {
      KeptMembers(linked, linked.services[s].trafficSplits);
      assert SitsOn(plan, linked, k, s);
      RecordedKeeps(linked, k);
    }
  }

  lemma RecordedKeeps(t: Topo, k: Key)
    requires k in t.splits
    ensures Recorded(t, k).service == t.splits[k].service && Recorded(t, k).OwnKey() == t.splits[k].OwnKey()
    ensures Recorded(t, k).backends == t.splits[k].backends
  {
    hide SplitTheorems.Incoming;
  }

  lemma PassKeepsBackends(linked: Topo)
    requires BackendsLinked(linked)
    ensures BackendsLinked(Populated(linked))
  {
    hide Recorded;
    var f := Populated(linked);
    forall s, k | s in f.services
      ensures multiset(f.services[s].backendOf)[k] == TimesBacked(f, k, s)
    {
      assert multiset(linked.services[s].backendOf)[k] == TimesBacked(linked, k, s);
      if k in linked.splits {
        RecordedKeeps(linked, k);
      }
    }
  }

  lemma PassKeepsTargets(plan: Plan, linked: Topo)
    requires TargetsLinked(plan, linked) && PodsLinked(linked) && PodsPresent(linked)
    ensures TargetsLinked(plan, Populated(linked)) && PodsLinked(Populated(linked)) && PodsPresent(Populated(linked))
  {
    TargetsUntouched(plan, linked, Populated(linked));
  }

  /**
   Builds a topology. The maps of the snapshot are ranged over in no particular order. Before the final pass
   everything is linked up; the pass then leaves what Populated says, and the links still agree.
   */
  method Build(res: Snapshot) returns (topology: Topology, ghost linked: Topo)
    requires Keyed(res)
    ensures fresh(topology) && Complete(res, linked) && WellPlaced(linked) && topology.View() == Populated(linked)
    ensures FinalLinks(res, topology.View())
  {
    hide Linked, FinalLinks, Populated;
    topology := new Topology();
    AddServices(res, topology);
    AddSplits(res, topology);
    AddTargets(res, topology);
    linked := topology.View();
    PlanOfFits(res);
    LinkedIsWellPlaced(PlanOf(res), linked);
    PassKeepsLinks(res, linked);
    PopulateTrafficSplitsAuthorizedIncomingTraffic(topology);
  }
}
