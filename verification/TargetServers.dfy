/** Where the routers of traffic-targets send traffic, which they do with ACL only. */
module TargetServers {
  import opened Basics
  import opened Topologies
  import opened Resources
  import opened TopologyLinks
  import opened SplitGraph
  import opened SplitPass
  import opened BuiltTopologies
  import opened Clusters
  import opened Rules
  import opened RulePriority
  import opened ConfigWrites
  import opened ConfigTheorems
  import opened ConfigResult
  import opened LastWrites
  import opened Routers
  import opened Streams
  import opened Servers
  import opened Access
  import PI = PodIndex
  import TB = TopologyBuilder

  // ---- HTTP ----

  lemma LastTargetPortService(env: Env, t: Topo, tt: Target, svc: Service, scheme: string,
          middlewares: seq<MiddlewareKey>, sp: ServicePort, entry: EntryPoint, rule: Rule, port: Int32)
    ensures Last(HTTPTargetPortWrites(env, t, tt, svc, scheme, middlewares, sp, entry, rule),
                 HTTPService(TargetService(tt.service, tt.name, port))) ==
            if port != sp.port then None
            else Some(Balancer(PodServers(env, t, tt.destination.pods, scheme, sp), true))
  {
    hide PodServers, Priority, IndirectRule, Addresses, Last;
    var k, ws := HTTPService(TargetService(tt.service, tt.name, port)),
        HTTPTargetPortWrites(env, t, tt, svc, scheme, middlewares, sp, entry, rule);
    LastConcat([ws[0]], ws[1..], k);
    assert ws == [ws[0]] + ws[1..];
    LastOne(ws[0], k);
    NotWritten(ws[1..], k);
  }

  lemma {:induction false} LastTargetService(env: Env, t: Topo, tt: Target, svc: Service, scheme: string,
          middlewares: seq<MiddlewareKey>, i: nat, rule: Rule, port: Int32)
    requires i <= |tt.destination.ports|
    ensures Last(HTTPTargetPortsWrites(env, t, tt, svc, scheme, middlewares, i, rule),
                 HTTPService(TargetService(tt.service, tt.name, port))) ==
            match LastPlace(env, tt.destination.ports, port, i)
            case None => None
            case Some(j) =>
              Some(Balancer(PodServers(env, t, tt.destination.pods, scheme, tt.destination.ports[j]), true))
    decreases |tt.destination.ports| - i
  {
    hide HTTPTargetPortWrites, IndirectRule, DirectRule, Priority, PodServers;
    if i < |tt.destination.ports| {
      var k := HTTPService(TargetService(tt.service, tt.name, port));
      if HTTPEntryPoint(env, i).None? {
        LastTargetService(env, t, tt, svc, scheme, middlewares, i + 1, rule, port);
      } else {
        var rule' := if svc.backendOf == [] then rule else IndirectRule(svc, tt.rules);
        var sp, entry := tt.destination.ports[i], HTTPEntryPoint(env, i).value;
        LastTargetService(env, t, tt, svc, scheme, middlewares, i + 1, rule', port);
        LastTargetPortService(env, t, tt, svc, scheme, middlewares, sp, entry, rule, port);
        LastConcat(HTTPTargetPortWrites(env, t, tt, svc, scheme, middlewares, sp, entry, rule),
                   HTTPTargetPortsWrites(env, t, tt, svc, scheme, middlewares, i + 1, rule'), k);
      }
    }
  }

  lemma LastOfTargetService(env: Env, t: Topo, tk: TargetKey, scheme: string, middlewares: seq<MiddlewareKey>,
          port: Int32)
    requires tk in t.targets && t.targets[tk].service in t.services
    ensures var tt := t.targets[tk];
            Last(TargetWrites(env, t, tk, scheme, HTTP, middlewares),
                 HTTPService(TargetService(tt.service, tt.name, port))) ==
            match LastPlace(env, tt.destination.ports, port, 0)
            case None => None
            case Some(j) =>
              Some(Balancer(PodServers(env, t, tt.destination.pods, scheme, tt.destination.ports[j]), true))
  {
    hide HTTPTargetPortsWrites, DirectRule, IndirectRule, Addresses, Priority, HTTPEntryPoint, PodServers;
    var tt := t.targets[tk];
    var svc, k := t.services[tt.service], HTTPService(TargetService(tt.service, tt.name, port));
    var w := Write(HTTPMiddleware(TargetDirectWhitelist(tt.service, tt.name)), TargetWhitelist(t, tt, None));
    var ports := HTTPTargetPortsWrites(env, t, tt, svc, scheme, middlewares, 0, DirectRule(svc, tt.rules));
    LastConcat([w], ports, k);
    LastOne(w, k);
    LastTargetService(env, t, tt, svc, scheme, middlewares, 0, DirectRule(svc, tt.rules), port);
  }

  /** The target that decides about the servers for targets called n: the last one of the name with the port. */
  function Serving(env: Env, t: Topo, svc: Service, n: string, port: Int32): Option<TargetKey> {
    LastIn(svc.trafficTargets, tk => tk in t.targets && t.targets[tk].name == n
           && LastPlace(env, t.targets[tk].destination.ports, port, 0).Some?)
  }

  /** The servers of a target: those of the pods of its destination, for the last place of the port. */
  lemma TargetServiceIs(env: Env, t: Topo, conf: Conf, s: Key, n: string, port: Int32)
    requires Ready(t) && ConfigOf(env, t, conf) && s in t.services && ServesHTTP(t.services[s]) && env.acl
    ensures var svc := t.services[s];
            Entry(conf, HTTPService(TargetService(s, n, port))) ==
            match Serving(env, t, svc, n, port)
            case None => None
            case Some(tk) =>
              var d := t.targets[tk].destination;
              Some(Balancer(PodServers(env, t, d.pods, svc.annotations.scheme.value,
                                       d.ports[LastPlace(env, d.ports, port, 0).value]), true))
  {
    hide ConfigOf, TargetWrites, TargetsWrites, ServiceWrites, HTTPEntryPoint, InGroup, PodServers, LastPlace;
    var svc, k := t.services[s], HTTPService(TargetService(s, n, port));
    var scheme, keys := svc.annotations.scheme.value, Middlewares(svc);
    ConfLast(env, t, conf, k);
    LastOfService(env, t, s, k);
    var keep := tk => tk in t.targets && t.targets[tk].name == n
                      && LastPlace(env, t.targets[tk].destination.ports, port, 0).Some?;
    forall tk | tk in svc.trafficTargets
      ensures keep(tk) <==> Last(TargetWrites(env, t, tk, scheme, HTTP, keys), k).Some?
    {
      LastOfTargetService(env, t, tk, scheme, keys, port);
      if t.targets[tk].name != n {
        TargetGroup(env, t, tk, scheme, HTTP, keys);
        OtherGroup(TargetWrites(env, t, tk, scheme, HTTP, keys), OfTarget(t.targets[tk].name), k);
      }
    }
    LastOverTargets(env, t, svc.trafficTargets, scheme, HTTP, keys, k, keep);
    if LastIn(svc.trafficTargets, keep).Some? {
      var tk := LastIn(svc.trafficTargets, keep).value;
      assert tk in svc.trafficTargets;
      LastOfTargetService(env, t, tk, scheme, keys, port);
    }
  }

  /** The target that a router of a target is made from is also the one that decides about its servers. */
  lemma ServingDecides(env: Env, t: Topo, svc: Service, s: Key, n: string, port: Int32)
    ensures Decider(env, t, svc, HTTPRouter(TargetDirectRouter(s, n, port)), n) == Serving(env, t, svc, n, port)
    ensures svc.backendOf != [] ==>
              Decider(env, t, svc, HTTPRouter(TargetIndirectRouter(s, n, port)), n) == Serving(env, t, svc, n, port)
    ensures svc.backendOf == [] ==> Decider(env, t, svc, HTTPRouter(TargetIndirectRouter(s, n, port)), n) == None
  {
    hide DirectRule, IndirectRule, Addresses, Priority, HTTPEntryPoint, LastPlace;
    var direct, indirect := HTTPRouter(TargetDirectRouter(s, n, port)), HTTPRouter(TargetIndirectRouter(s, n, port));
    var keep := tk => tk in t.targets && t.targets[tk].name == n
                      && LastPlace(env, t.targets[tk].destination.ports, port, 0).Some?;
    LastInSame(svc.trafficTargets, tk => WritesTo(env, t, svc, direct, n, tk), keep);
    if svc.backendOf != [] {
      LastInSame(svc.trafficTargets, tk => WritesTo(env, t, svc, indirect, n, tk), keep);
    }
  }

  /** What both routers of a target send to. */
  lemma TargetForwards(env: Env, t: Topo, conf: Conf, r: RouterKey)
    requires Ready(t) && ConfigOf(env, t, conf) && HTTPRouter(r) in conf
             && (r.TargetDirectRouter? || r.TargetIndirectRouter?)
    ensures env.acl && r.owner in t.services && ServesHTTP(t.services[r.owner])
    ensures var svc := t.services[r.owner];
            var tk := Serving(env, t, svc, r.target, r.port);
            && tk.Some? && tk == Decider(env, t, svc, HTTPRouter(r), r.target)
            && tk.value in svc.trafficTargets && tk.value in t.targets
            && Behind(conf, HTTPRouter(r)) ==
                 var d := t.targets[tk.value].destination;
                 Some(Balancer(PodServers(env, t, d.pods, svc.annotations.scheme.value,
                                          d.ports[LastPlace(env, d.ports, r.port, 0).value]), true))
  {
    hide ConfigOf, DirectRule, IndirectRule, Priority, HTTPEntryPoint, PodServers, Decider, Serving, LastPlace;
    TargetOfRouter(env, t, conf, r);
    var svc := t.services[r.owner];
    ServingDecides(env, t, svc, r.owner, r.target, r.port);
    TargetServiceIs(env, t, conf, r.owner, r.target, r.port);
  }

  // ---- TCP ----

  lemma {:induction false} LastTCPTarget(env: Env, t: Topo, tt: Target, svc: Service, i: nat, transport: Transport,
          port: Int32)
    requires i <= |tt.destination.ports|
    ensures Last(TCPTargetWrites(env, t, tt, svc, i), StreamService(transport, PortService(svc.OwnKey(), port))) ==
            if transport != OverTCP || StreamEntryPoint(env, svc, OverTCP, port).None? then None
            else
              match LastNumber(tt.destination.ports, port, i)
              case None => None
              case Some(j) =>
                Some(Balancer(PodServers(env, t, tt.destination.pods, "", tt.destination.ports[j]), false))
    decreases |tt.destination.ports| - i
  {
    hide StreamEntryPoint, PodServers;
    var k := StreamService(transport, PortService(svc.OwnKey(), port));
    if i < |tt.destination.ports| {
      var sp := tt.destination.ports[i];
      var rest := TCPTargetWrites(env, t, tt, svc, i + 1);
      LastTCPTarget(env, t, tt, svc, i + 1, transport, port);
      if StreamEntryPoint(env, svc, OverTCP, sp.port).Some? {
        var key := PortService(svc.OwnKey(), sp.port);
        var w := Write(StreamService(OverTCP, key), Balancer(PodServers(env, t, tt.destination.pods, "", sp), false));
        var w' := Write(StreamRouter(OverTCP, key),
                        StreamRoute([StreamEntryPoint(env, svc, OverTCP, sp.port).value], key));
        LastTwo(w, w', k);
        LastConcat([w, w'], rest, k);
      } else {
        assert TCPTargetWrites(env, t, tt, svc, i) == rest;
      }
    }
  }

  lemma NumberFound(ports: seq<ServicePort>, port: Int32)
    ensures LastNumber(ports, port, 0).Some? <==> HasNumber(ports, port)
  {
  }

  /** The target that decides about the servers of a TCP port: the last one that allows traffic to it. */
  function ServingTCP(t: Topo, svc: Service, port: Int32): Option<TargetKey> {
    LastIn(svc.trafficTargets, tk => AllowsTCP(t, tk, port))
  }

  /** The servers that targets put behind a TCP port: those of the pods of the destination of the deciding target. */
  function FromTarget(env: Env, t: Topo, svc: Service, port: Int32): Option<ConfValue> {
    match ServingTCP(t, svc, port)
    case None => None
    case Some(tk) =>
      var d := t.targets[tk].destination;
      NumberFound(d.ports, port);
      Some(Balancer(PodServers(env, t, d.pods, "", d.ports[LastNumber(d.ports, port, 0).value]), false))
  }

  lemma LastOfTCPTarget(env: Env, t: Topo, s: Key, tk: TargetKey, scheme: string, transport: Transport, port: Int32)
    requires Ready(t) && s in t.services && tk in t.services[s].trafficTargets
    ensures tk in t.targets
    ensures var d := t.targets[tk].destination;
            Last(TargetWrites(env, t, tk, scheme, TypeOf(transport), []),
                 StreamService(transport, PortService(s, port))) ==
            if transport == OverTCP && StreamEntryPoint(env, t.services[s], OverTCP, port).Some?
               && AllowsTCP(t, tk, port) && LastNumber(d.ports, port, 0).Some? then
              Some(Balancer(PodServers(env, t, d.pods, "", d.ports[LastNumber(d.ports, port, 0).value]), false))
            else None
  {
    hide StreamEntryPoint, TCPTargetWrites, HTTPTargetWrites, HasTCPRoute, PodServers;
    LastTCPTarget(env, t, t.targets[tk], t.services[s], 0, transport, port);
    TCPRouteIs(t.targets[tk]);
    NumberFound(t.targets[tk].destination.ports, port);
    LastNone(StreamService(transport, PortService(s, port)));
  }

  lemma LastOfTCPTargets(env: Env, t: Topo, s: Key, scheme: string, transport: Transport, port: Int32)
    requires Ready(t) && s in t.services && StreamEntryPoint(env, t.services[s], transport, port).Some?
    ensures Last(TargetsWrites(env, t, t.services[s].trafficTargets, scheme, TypeOf(transport), []),
                 StreamService(transport, PortService(s, port))) ==
            if transport == OverTCP then FromTarget(env, t, t.services[s], port) else None
  {
    hide StreamEntryPoint, TargetWrites, TargetsWrites, PodServers, AllowsTCP, LastNumber;
    var svc, k := t.services[s], StreamService(transport, PortService(s, port));
    var keep := tk => transport == OverTCP && AllowsTCP(t, tk, port);
    forall tk | tk in svc.trafficTargets
      ensures keep(tk) <==> Last(TargetWrites(env, t, tk, scheme, TypeOf(transport), []), k).Some?
    {
      LastOfTCPTarget(env, t, s, tk, scheme, transport, port);
      AllowedNumber(t, tk, port);
    }
    LastOverTargets(env, t, svc.trafficTargets, scheme, TypeOf(transport), [], k, keep);
    if transport == OverTCP {
      LastInSame(svc.trafficTargets, keep, tk => AllowsTCP(t, tk, port));
    }
    if LastIn(svc.trafficTargets, keep).Some? {
      var tk := LastIn(svc.trafficTargets, keep).value;
      assert tk in svc.trafficTargets;
      LastOfTCPTarget(env, t, s, tk, scheme, transport, port);
      AllowedNumber(t, tk, port);
    }
  }

  lemma AllowedNumber(t: Topo, tk: TargetKey, port: Int32)
    ensures AllowsTCP(t, tk, port) ==>
              tk in t.targets && LastNumber(t.targets[tk].destination.ports, port, 0).Some?
  {
    if tk in t.targets {
      NumberFound(t.targets[tk].destination.ports, port);
    }
  }

  /**
   With ACL, behind a mapped TCP or UDP port are the backends of the last split on the service, or else, for TCP, the
   servers of the last target that allows traffic to the port, or else nothing.
   */
  lemma StreamServiceWithACL(env: Env, t: Topo, conf: Conf, s: Key, transport: Transport, port: Int32)
    requires Ready(t) && ConfigOf(env, t, conf) && s in t.services && env.acl
             && t.services[s].annotations.trafficType == Some(TypeOf(transport))
             && t.services[s].annotations.scheme.Some?
    ensures var svc := t.services[s];
            StreamEntryPoint(env, svc, transport, port).Some? ==>
              Entry(conf, StreamService(transport, PortService(s, port))) ==
              OrElse(FromSplits(env, t, svc, svc.trafficSplits, transport, port),
                     if transport == OverTCP then FromTarget(env, t, svc, port) else None)
  {
    hide ConfigOf, StreamEntryPoint, SplitsWrites, TargetsWrites, PodServers, FromSplits, FromTarget;
    var svc, k := t.services[s], StreamService(transport, PortService(s, port));
    if StreamEntryPoint(env, svc, transport, port).Some? {
      var tt, scheme := TypeOf(transport), svc.annotations.scheme.value;
      ConfLast(env, t, conf, k);
      var targets := TargetsWrites(env, t, svc.trafficTargets, scheme, tt, []);
      var splits := SplitsWrites(env, t, svc.trafficSplits, scheme, tt, []);
      assert AnnotationWrites(svc, []) == [] && AnnotationKeys(svc, []) == [];
      assert ServiceWrites(env, t, svc) == targets + splits;
      LastOfTCPTargets(env, t, s, scheme, transport, port);
      LastOfSplits(env, t, s, svc.trafficSplits, scheme, transport, port);
      LastConcat(targets, splits, k);
    }
  }

  // ---- From the cluster ----

  /** Pod p of the cluster belongs to service s, has the destination account of traffic-target o, and an address. */
  ghost predicate DestinationPod(c: Cluster, s: Key, o: TargetObject, p: PodObject) {
    Belongs(c, s, p) && IsDestination(o, p) && p.ip != ""
  }

  /** The destination of a target that is attached. */
  lemma BuiltDestination(res: Snapshot, linked: Topo, tk: TargetKey)
    requires TB.Complete(res, linked) && tk.service in linked.services
             && tk in linked.services[tk.service].trafficTargets
    ensures tk in linked.targets && tk.target in res.targets && tk.service in Exposed(res, res.targets[tk.target])
    ensures linked.targets[tk].destination.pods == PodKeys(Addressed(Exposed(res, res.targets[tk.target])[tk.service]))
  {
    hide TB.Complete, SpecsOf, SourcesOf, PodKeys, Addressed, Exposed, TargetAttachable, DestinationPorts;
    AttachedExactly(res, linked, tk.service, tk.target);
    assert tk == TargetKey(tk.service, tk.target);
    assert tk in Pairs(res);
    TargetIs(res, linked, tk);
    AttachableDestination(res, res.targets[tk.target], tk.service);
  }

  lemma AttachableDestination(res: Snapshot, o: TargetObject, s: Key)
    requires s in Exposed(res, o) && TargetAttachable(res, o, s)
    ensures TargetOf(res, o, s).destination.pods == PodKeys(Addressed(Exposed(res, o)[s]))
  {
    hide SpecsOf, SourcesOf, PodKeys, Addressed, DestinationPorts;
  }

  /** The destination pods of an attached target, by key. */
  lemma DestinationExactly(c: Cluster, res: Snapshot, linked: Topo, tk: TargetKey, k: Key)
    requires BuiltFrom(c, res, linked) && tk.service in linked.services
             && tk in linked.services[tk.service].trafficTargets
    ensures tk in linked.targets && tk.target in c.objects.targets
    ensures k in linked.targets[tk].destination.pods <==> exists p ::
              DestinationPod(c, tk.service, c.objects.targets[tk.target], p) && p.OwnKey() == k
  {
    hide TB.Complete, WellPlaced, Belongs, PodKeys, Addressed;
    BuiltDestination(res, linked, tk);
    var o := res.targets[tk.target];
    var os := Exposed(res, o)[tk.service];
    AddressedMembers(os);
    PodKeysMembers(Addressed(os), k);
    assert os == PI.LookupIn(res.podsBySvcBySa, DestinationKey(o), tk.service);
    forall p
      ensures p in os <==> Belongs(c, tk.service, p) && IsDestination(o, p)
    {
      assert IndexedBoth(c, res, DestinationKey(o), tk.service, p);
    }
  }

  /** A destination pod is in the topology with its address. */
  lemma DestinationAddress(c: Cluster, res: Snapshot, linked: Topo, tk: TargetKey, p: PodObject)
    requires BuiltFrom(c, res, linked) && tk.service in linked.services
             && tk in linked.services[tk.service].trafficTargets && tk.target in c.objects.targets
             && DestinationPod(c, tk.service, c.objects.targets[tk.target], p)
    ensures p.OwnKey() in Populated(linked).pods && Populated(linked).pods[p.OwnKey()].ip == p.ip
  {
    hide TB.Complete, WellPlaced, Recorded, SnapshotOf, ValidCluster, PodsKnown;
    DestinationExactly(c, res, linked, tk, p.OwnKey());
    DestinationPresent(res, linked, tk, p.OwnKey());
    PodsOf(res, linked);
    var q := PodIs(c, res, Populated(linked), p.OwnKey());
    OnePod(c, p, q);
  }

  lemma DestinationPresent(res: Snapshot, linked: Topo, tk: TargetKey, k: Key)
    requires TB.Complete(res, linked) && tk in linked.targets && k in linked.targets[tk].destination.pods
    ensures k in Populated(linked).pods
  {
    hide ServicesMatch, SplitsLinked, BackendsLinked, TargetsLinked, PodsLinked, PodsKnown, PlanOf;
  }

  /** Server x is that of a pod of the destination, which resolves port sp. */
  ghost predicate ServesAt(c: Cluster, env: Env, f: Topo, s: Key, o: TargetObject, scheme: string, sp: ServicePort,
          x: Server, p: PodObject)
  {
    && DestinationPod(c, s, o, p) && p.OwnKey() in f.pods
    && env.resolve(sp, f.pods[p.OwnKey()]).Some?
    && x == PodServer(scheme, p.ip, env.resolve(sp, f.pods[p.OwnKey()]).value)
  }

  /** The servers of a target are those of the pods that belong to its service and have its account and an address. */
  lemma ServersFromCluster(c: Cluster, res: Snapshot, linked: Topo, env: Env, tk: TargetKey, scheme: string,
          sp: ServicePort, x: Server)
    requires BuiltFrom(c, res, linked) && tk.service in linked.services
             && tk in linked.services[tk.service].trafficTargets
    ensures tk in Populated(linked).targets && tk.target in c.objects.targets
    ensures var f := Populated(linked);
            x in PodServers(env, f, f.targets[tk].destination.pods, scheme, sp) <==> exists p ::
              ServesAt(c, env, f, tk.service, c.objects.targets[tk.target], scheme, sp, x, p)
  {
    hide TB.Complete, WellPlaced, Recorded, SnapshotOf, ValidCluster, PodServers, DestinationPod;
    var f := Populated(linked);
    DestinationExactly(c, res, linked, tk, Key("", ""));
    var o := c.objects.targets[tk.target];
    PodServersExact(env, f, f.targets[tk].destination.pods, scheme, sp);
    if x in PodServers(env, f, f.targets[tk].destination.pods, scheme, sp) {
      var k :| k in f.targets[tk].destination.pods && k in f.pods && env.resolve(sp, f.pods[k]).Some?
          && x == PodServer(scheme, f.pods[k].ip, env.resolve(sp, f.pods[k]).value);
      DestinationExactly(c, res, linked, tk, k);
      var p :| DestinationPod(c, tk.service, o, p) && p.OwnKey() == k;
      DestinationAddress(c, res, linked, tk, p);
      assert ServesAt(c, env, f, tk.service, o, scheme, sp, x, p);
    }
    if p :| ServesAt(c, env, f, tk.service, o, scheme, sp, x, p) {
      DestinationExactly(c, res, linked, tk, p.OwnKey());
      DestinationAddress(c, res, linked, tk, p);
    }
  }

  /**
   From the cluster to what stands behind a router of a target: exactly the servers of the pods that belong to the
   service, have the destination account of the deciding traffic-target and an address, and resolve the port.
   */
  lemma TargetLeadsTo(c: Cluster, res: Snapshot, linked: Topo, env: Env, conf: Conf, r: RouterKey, x: Server)
      returns (k: Key, sp: ServicePort, servers: seq<Server>)
    requires BuiltFrom(c, res, linked) && ConfigOf(env, Populated(linked), conf)
    requires HTTPRouter(r) in conf && (r.TargetDirectRouter? || r.TargetIndirectRouter?)
    ensures var f := Populated(linked);
            && r.owner in f.services && f.services[r.owner].annotations.scheme.Some?
            && Serving(env, f, f.services[r.owner], r.target, r.port) == Some(TargetKey(r.owner, k))
            && k in c.objects.targets && sp.port == r.port
            && Behind(conf, HTTPRouter(r)) == Some(Balancer(servers, true))
            && (x in servers <==> exists p ::
                  ServesAt(c, env, f, r.owner, c.objects.targets[k], f.services[r.owner].annotations.scheme.value, sp,
                           x, p))
  {
    hide BuiltFrom, Populated, ConfigOf, Ready, PodServers, Behind, Serving, Decider, ServesAt, HTTPEntryPoint;
    var f := Populated(linked);
    ReadyFrom(c, res, linked);
    TargetForwards(env, f, conf, r);
    var svc := f.services[r.owner];
    var tk := Serving(env, f, svc, r.target, r.port).value;
    AttachedTo(c, res, linked, r.owner, tk);
    k := tk.target;
    var d := f.targets[tk].destination;
    ServingHasPort(env, f, svc, r.target, r.port);
    sp := d.ports[LastPlace(env, d.ports, r.port, 0).value];
    servers := PodServers(env, f, d.pods, svc.annotations.scheme.value, sp);
    ServersFromCluster(c, res, linked, env, tk, svc.annotations.scheme.value, sp, x);
  }

  lemma ServingHasPort(env: Env, t: Topo, svc: Service, n: string, port: Int32)
    requires Serving(env, t, svc, n, port).Some?
    ensures var tk := Serving(env, t, svc, n, port).value;
            tk in t.targets && LastPlace(env, t.targets[tk].destination.ports, port, 0).Some?
  {
  }

  lemma AttachedTo(c: Cluster, res: Snapshot, linked: Topo, s: Key, tk: TargetKey)
    requires BuiltFrom(c, res, linked) && s in Populated(linked).services
             && tk in Populated(linked).services[s].trafficTargets
    ensures s in linked.services && tk in linked.services[s].trafficTargets && tk.service == s
  {
    hide TB.Complete, WellPlaced, Recorded, Kept, SnapshotOf, ValidCluster;
    AttachedExactly(res, linked, s, tk.target);
  }

  /** The same for a TCP port with ACL, as long as no split sits on the service. */
  lemma TCPTargetLeadsTo(c: Cluster, res: Snapshot, linked: Topo, env: Env, conf: Conf, s: Key, port: Int32, x: Server)
      returns (k: Key, sp: ServicePort, servers: seq<Server>)
    requires BuiltFrom(c, res, linked) && ConfigOf(env, Populated(linked), conf) && env.acl
    requires s in Populated(linked).services && Populated(linked).services[s].trafficSplits == []
    requires StreamService(OverTCP, PortService(s, port)) in conf
    requires Populated(linked).services[s].annotations.trafficType == Some(TCPType)
             && Populated(linked).services[s].annotations.scheme.Some?
             && StreamEntryPoint(env, Populated(linked).services[s], OverTCP, port).Some?
    ensures var f := Populated(linked);
            && ServingTCP(f, f.services[s], port) == Some(TargetKey(s, k))
            && k in c.objects.targets && sp.port == port
            && conf[StreamService(OverTCP, PortService(s, port))] == Balancer(servers, false)
            && (x in servers <==> exists p :: ServesAt(c, env, f, s, c.objects.targets[k], "", sp, x, p))
  {
    hide BuiltFrom, Populated, ConfigOf, Ready, PodServers, ServingTCP, ServesAt, StreamEntryPoint;
    var f := Populated(linked);
    ReadyFrom(c, res, linked);
    var svc := f.services[s];
    StreamServiceWithACL(env, f, conf, s, OverTCP, port);
    var tk := ServingTCP(f, svc, port).value;
    ServingTCPIsAttached(f, svc, port);
    AttachedTo(c, res, linked, s, tk);
    k := tk.target;
    var d := f.targets[tk].destination;
    sp := d.ports[LastNumber(d.ports, port, 0).value];
    servers := PodServers(env, f, d.pods, "", sp);
    ServersFromCluster(c, res, linked, env, tk, "", sp, x);
  }

  lemma ServingTCPIsAttached(t: Topo, svc: Service, port: Int32)
    requires ServingTCP(t, svc, port).Some?
    ensures var tk := ServingTCP(t, svc, port).value;
            tk in svc.trafficTargets && tk in t.targets && LastNumber(t.targets[tk].destination.ports, port, 0).Some?
  {
    AllowedNumber(t, ServingTCP(t, svc, port).value, port);
  }
}
