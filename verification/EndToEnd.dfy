/** From the topology that is built to the whitelists and entrypoints of the emitted configuration. */
module EndToEnd {
  import opened Basics
  import opened Topologies
  import opened Resources
  import opened TopologyLinks
  import opened SplitGraph
  import opened SplitPass
  import opened SplitTheorems
  import opened BuiltTopologies
  import opened ConfigWrites
  import opened ConfigResult
  import opened LastWrites
  import opened Routers
  import TB = TopologyBuilder
  import CT = ConfigTheorems

  // ---- Access control ----

  /** Pod p has address ip in topology f, and every leaf reachable from split k in f names it as a source. */
  ghost predicate AuthorisedAddress(f: Topo, k: Key, ip: string, p: Key) {
    p in f.pods && f.pods[p].ip == ip && AuthorisedBelow(f, k, p)
  }

  /** Pod p has address ip in topology f, and target tk names it as a source. */
  ghost predicate SourceAddress(f: Topo, tk: TargetKey, ip: string, p: Key) {
    p in f.pods && f.pods[p].ip == ip && TargetNames(f, tk, p)
  }

  /** Some source pod of target tk has address ip. */
  ghost predicate IsSource(f: Topo, tk: TargetKey, ip: string) {
    exists p :: SourceAddress(f, tk, ip, p)
  }

  /** No two targets attached to service s have the same name. */
  ghost predicate DistinctTargetNames(f: Topo, s: Key) {
    forall a, b, n :: CT.NamedTarget(f, s, n, a) && CT.NamedTarget(f, s, n, b) ==> a == b
  }

  /** Router r of configuration conf has middleware m, and m is a whitelist. */
  ghost predicate Carries(conf: Conf, r: RouterKey, m: MiddlewareKey) {
    && HTTPRouter(r) in conf && conf[HTTPRouter(r)].Router? && m in conf[HTTPRouter(r)].middlewares
    && HTTPMiddleware(m) in conf && conf[HTTPMiddleware(m)].Whitelist?
  }

  /** Router r carries the whitelist of its kind, and it exists. */
  ghost predicate Guarded(conf: Conf, r: RouterKey) {
    match CT.WhitelistOf(r)
    case None => false
    case Some(m) => Carries(conf, r, m)
  }

  /** The whitelist of router r holds ip. */
  ghost predicate Admits(conf: Conf, r: RouterKey, ip: string) {
    match CT.WhitelistOf(r)
    case None => false
    case Some(m) => Carries(conf, r, m) && ip in conf[HTTPMiddleware(m)].ips
  }

  /** The incoming pods recorded on a split that is attached to service s, by address. */
  lemma IncomingAddresses(linked: Topo, s: Key, n: string, ip: string)
    requires WellPlaced(linked) && CT.NamedSplit(Populated(linked), s, n)
    ensures var f := Populated(linked);
            var k := Key(n, s.namespace);
            ip in Addresses(f, f.splits[k].incoming) <==> exists p :: AuthorisedAddress(f, k, ip, p)
  {
    hide Recorded, AuthorisedBelow;
    var f := Populated(linked);
    var k := Key(n, s.namespace);
    AddressesMembers(f, f.splits[k].incoming);
    forall p
      ensures p in f.splits[k].incoming <==> AuthorisedBelow(f, k, p)
    {
      FinalIncomingIsExact(linked, s, k, p);
    }
    if ip in Addresses(f, f.splits[k].incoming) {
      var p :| p in f.splits[k].incoming && p in f.pods && f.pods[p].ip == ip;
      assert AuthorisedAddress(f, k, ip, p);
    }
  }

  /** The whitelist on a router of a split is that of the split. */
  lemma SplitRouterWhitelist(env: Env, f: Topo, conf: Conf, r: RouterKey)
    requires env.acl && CT.Ready(f) && ConfigOf(env, f, conf)
    requires HTTPRouter(r) in conf && (r.SplitDirectRouter? || r.SplitIndirectRouter?)
    ensures CT.NamedSplit(f, r.owner, r.split) && Carries(conf, r, CT.WhitelistOf(r).value)
    ensures conf[HTTPMiddleware(CT.WhitelistOf(r).value)] ==
            SplitWhitelist(f, f.splits[Key(r.split, r.owner.namespace)], if r.SplitDirectRouter? then None else Some(1))
  {
    hide ConfigOf, CT.Ready, Addresses, CT.NamedSplit;
    EveryRouterGuarded(env, f, conf, r);
  }

  lemma SplitRouterAddresses(env: Env, f: Topo, conf: Conf, r: RouterKey, ip: string)
    requires env.acl && CT.Ready(f) && ConfigOf(env, f, conf)
    requires HTTPRouter(r) in conf && (r.SplitDirectRouter? || r.SplitIndirectRouter?)
    ensures CT.NamedSplit(f, r.owner, r.split) && Guarded(conf, r)
    ensures Admits(conf, r, ip) <==> ip in Addresses(f, f.splits[Key(r.split, r.owner.namespace)].incoming)
  {
    hide ConfigOf, CT.Ready, Addresses, Carries;
    SplitRouterWhitelist(env, f, conf, r);
  }

  /**
   From traffic-targets to whitelists: with ACL on, each router of a traffic-split lets through the addresses
   of exactly those pods that every service reachable through the split, and itself without splits, names as a
   source in one of its traffic-targets. Reachability is that of the final topology, after loop removal.
   */
  lemma SplitRouterAdmits(linked: Topo, env: Env, conf: Conf, r: RouterKey, ip: string)
    requires WellPlaced(linked) && CT.Ready(Populated(linked)) && env.acl && ConfigOf(env, Populated(linked), conf)
    requires HTTPRouter(r) in conf && (r.SplitDirectRouter? || r.SplitIndirectRouter?)
    ensures Guarded(conf, r)
    ensures Admits(conf, r, ip) <==> exists p ::
              AuthorisedAddress(Populated(linked), Key(r.split, r.owner.namespace), ip, p)
  {
    hide *;
    SplitRouterAddresses(env, Populated(linked), conf, r, ip);
    IncomingAddresses(linked, r.owner, r.split, ip);
  }

  /** The source pods of a target, by address. */
  lemma TargetSourceAddresses(f: Topo, tk: TargetKey, ip: string)
    requires tk in f.targets
    ensures ip in Addresses(f, SourcePods(f.targets[tk].sources)) <==> IsSource(f, tk, ip)
  {
    var pods := SourcePods(f.targets[tk].sources);
    AddressesMembers(f, pods);
    SourcePodsMembers(f.targets[tk].sources);
    assert forall p :: p in pods <==> TargetNames(f, tk, p);
    if ip in Addresses(f, pods) {
      var p :| p in pods && p in f.pods && f.pods[p].ip == ip;
      assert SourceAddress(f, tk, ip, p);
    }
  }

  // ---- Targets that share their name ----

  /** The last target called n on a service. */
  function LastNamed(t: Topo, svc: Service, n: string): Option<TargetKey> {
    LastIn(svc.trafficTargets, tk => tk in t.targets && t.targets[tk].name == n)
  }

  /** The last one that gets a router at all. */
  function LastListening(env: Env, t: Topo, svc: Service, n: string): Option<TargetKey> {
    LastIn(svc.trafficTargets, tk => tk in t.targets && t.targets[tk].name == n
           && t.targets[tk].destination.ports != [] && HTTPEntryPoint(env, 0).Some?)
  }

  /**
   The whitelists for targets called n: the direct one is that of the last target of the name, the indirect one
   that of the last target of the name with a destination port.
   */
  lemma TargetWhitelistsAre(env: Env, t: Topo, conf: Conf, s: Key, n: string)
    requires env.acl && CT.Ready(t) && ConfigOf(env, t, conf) && s in t.services && ServesHTTP(t.services[s])
    ensures Entry(conf, HTTPMiddleware(TargetDirectWhitelist(s, n))) ==
            match LastNamed(t, t.services[s], n)
            case None => None
            case Some(tk) => Some(TargetWhitelist(t, t.targets[tk], None))
    ensures Entry(conf, HTTPMiddleware(TargetIndirectWhitelist(s, n))) ==
            if t.services[s].backendOf == [] then None
            else
              match LastListening(env, t, t.services[s], n)
              case None => None
              case Some(tk) => Some(TargetWhitelist(t, t.targets[tk], Some(1)))
  {
    hide CT.Ready, ConfigOf, Addresses, HTTPEntryPoint, ServesHTTP;
    var svc := t.services[s];
    var direct, indirect := HTTPMiddleware(TargetDirectWhitelist(s, n)), HTTPMiddleware(TargetIndirectWhitelist(s, n));
    TargetEntryIs(env, t, conf, s, n, direct);
    TargetEntryIs(env, t, conf, s, n, indirect);
    LastInSame(svc.trafficTargets, tk => WritesTo(env, t, svc, direct, n, tk), tk => tk in t.targets
               && t.targets[tk].name == n);
    if svc.backendOf != [] {
      LastInSame(svc.trafficTargets, tk => WritesTo(env, t, svc, indirect, n, tk),
                 tk => tk in t.targets && t.targets[tk].name == n && t.targets[tk].destination.ports != []
                 && HTTPEntryPoint(env, 0).Some?);
    }
  }

  /** The target whose sources decide whom router r of a target lets through. */
  function Admitter(env: Env, t: Topo, svc: Service, r: RouterKey): Option<TargetKey>
    requires r.TargetDirectRouter? || r.TargetIndirectRouter?
  {
    if r.TargetDirectRouter? then LastNamed(t, svc, r.target) else LastListening(env, t, svc, r.target)
  }

  lemma TargetRouterWhitelist(env: Env, t: Topo, conf: Conf, r: RouterKey)
    requires env.acl && CT.Ready(t) && ConfigOf(env, t, conf)
    requires HTTPRouter(r) in conf && (r.TargetDirectRouter? || r.TargetIndirectRouter?)
    ensures Guarded(conf, r) && r.owner in t.services
    ensures var tk := Admitter(env, t, t.services[r.owner], r);
            && tk.Some? && CT.NamedTarget(t, r.owner, r.target, tk.value)
            && conf[HTTPMiddleware(CT.WhitelistOf(r).value)] ==
                 TargetWhitelist(t, t.targets[tk.value], if r.TargetDirectRouter? then None else Some(1))
  {
    hide CT.Ready, ConfigOf, Addresses, ServesHTTP;
    EveryRouterGuarded(env, t, conf, r);
    HTTPEntryMeans(env, t, conf, HTTPRouter(r));
    TargetWhitelistsAre(env, t, conf, r.owner, r.target);
    var tk := Admitter(env, t, t.services[r.owner], r);
    assert tk.value in t.services[r.owner].trafficTargets;
  }

  /**
   Whatever the names of targets: a router of a target lets through the addresses of exactly the source pods of
   the last target of that name on the service, or, for indirect routers, of the last one with a destination port.
   */
  lemma TargetRouterAdmitsLast(env: Env, t: Topo, conf: Conf, r: RouterKey, ip: string)
    requires env.acl && CT.Ready(t) && ConfigOf(env, t, conf)
    requires HTTPRouter(r) in conf && (r.TargetDirectRouter? || r.TargetIndirectRouter?)
    ensures Guarded(conf, r) && r.owner in t.services && Admitter(env, t, t.services[r.owner], r).Some?
    ensures Admits(conf, r, ip) <==> IsSource(t, Admitter(env, t, t.services[r.owner], r).value, ip)
  {
    hide CT.Ready, ConfigOf, Addresses, Admitter, IsSource;
    TargetRouterWhitelist(env, t, conf, r);
    TargetSourceAddresses(t, Admitter(env, t, t.services[r.owner], r).value, ip);
  }

  /** The addresses of the sources of two targets are the same. */
  ghost predicate SameSources(t: Topo, a: TargetKey, b: TargetKey) {
    forall ip :: IsSource(t, a, ip) <==> IsSource(t, b, ip)
  }

  /**
   So a router named after target tk lets through exactly the sources of tk when they have the same addresses as
   those of the last target of that name, and only then.
   */
  lemma TargetAccessExactly(env: Env, t: Topo, conf: Conf, r: RouterKey, tk: TargetKey)
    requires env.acl && CT.Ready(t) && ConfigOf(env, t, conf)
    requires HTTPRouter(r) in conf && (r.TargetDirectRouter? || r.TargetIndirectRouter?)
             && CT.NamedTarget(t, r.owner, r.target, tk)
    ensures Admitter(env, t, t.services[r.owner], r).Some?
    ensures (forall ip :: Admits(conf, r, ip) <==> IsSource(t, tk, ip))
            <==> SameSources(t, tk, Admitter(env, t, t.services[r.owner], r).value)
  {
    hide CT.Ready, ConfigOf, Admits, Admitter, IsSource;
    TargetRouterWhitelist(env, t, conf, r);
    var last := Admitter(env, t, t.services[r.owner], r).value;
    forall ip
      ensures Admits(conf, r, ip) <==> IsSource(t, last, ip)
    {
      TargetRouterAdmitsLast(env, t, conf, r, ip);
    }
  }

  /** In particular when no other target on the service has the same name. */
  lemma TargetRouterAdmits(env: Env, t: Topo, conf: Conf, r: RouterKey, tk: TargetKey, ip: string)
    requires env.acl && CT.Ready(t) && ConfigOf(env, t, conf)
    requires HTTPRouter(r) in conf && (r.TargetDirectRouter? || r.TargetIndirectRouter?)
    requires CT.NamedTarget(t, r.owner, r.target, tk) && DistinctTargetNames(t, r.owner)
    ensures Guarded(conf, r)
    ensures Admits(conf, r, ip) <==> IsSource(t, tk, ip)
  {
    hide CT.Ready, ConfigOf, Admits, Admitter, IsSource;
    TargetRouterWhitelist(env, t, conf, r);
    TargetRouterAdmitsLast(env, t, conf, r, ip);
  }

  // ---- Where targets listen ----

  lemma LastPlaceOfOne(env: Env, sp: ServicePort, port: Int32)
    ensures LastPlace(env, [sp], port, 0) == if sp.port == port && HTTPEntryPoint(env, 0).Some? then Some(0) else None
  {
    assert LastPlace(env, [sp], port, 1) == None;
  }

  /**
   On a built topology, a router of a target listens where the port of its service is mapped exactly when the
   traffic-target that decides about it names no destination port, or the port has its last place first among
   the ports of the service. Where the port of the service is mapped is told by its own last place.
   */
  lemma TargetListensExactly(res: Snapshot, linked: Topo, env: Env, t: Topo, conf: Conf, s: Key, n: string, port: Int32)
    requires Keyed(res) && TB.Complete(res, linked) && t == Populated(linked)
    requires CT.Ready(t) && ConfigOf(env, t, conf) && HTTPRouter(TargetDirectRouter(s, n, port)) in conf
    ensures s in t.services && Decider(env, t, t.services[s], HTTPRouter(TargetDirectRouter(s, n, port)), n).Some?
    ensures var svc, k := t.services[s], HTTPRouter(TargetDirectRouter(s, n, port));
            var tk := Decider(env, t, svc, k, n).value;
            var place := LastPlace(env, svc.ports, port, 0);
            && tk.target in res.targets && conf[k].Router?
            && ((place.Some? && conf[k].entryPoints == [HTTPEntryPoint(env, place.value).value])
                <==> res.targets[tk.target].destinationPort.None? || place == Some(0))
  {
    hide TB.Complete, CT.Ready, ConfigOf, Recorded, Decider, HTTPEntryPoint;
    var r := TargetDirectRouter(s, n, port);
    TargetOfRouter(env, t, conf, r);
    var svc := t.services[s];
    var tk := Decider(env, t, svc, HTTPRouter(r), n).value;
    BuiltPorts(res, linked, s, tk);
    var ports := t.targets[tk].destination.ports;
    var j := LastPlace(env, ports, port, 0).value;
    assert conf[HTTPRouter(r)].entryPoints == [HTTPEntryPoint(env, j).value];
    var place := LastPlace(env, svc.ports, port, 0);
    if place.Some? {
      PlacesDiffer(env, place.value, j);
    }
    if res.targets[tk.target].destinationPort.Some? {
      LastPlaceOfOne(env, ports[0], port);
    }
  }
}
