/** Requests that come through a split: whether the leaf they end at lets them through too. */
module LeafAccess {
  import opened Basics
  import opened Topologies
  import opened Resources
  import opened SplitGraph
  import opened SplitPass
  import opened BuiltTopologies
  import opened ConfigWrites
  import opened ConfigResult
  import opened LastWrites
  import opened Routers
  import opened EndToEnd
  import CT = ConfigTheorems
  import TB = TopologyBuilder

  /** Target tk is attached to service svc and has a router for the port. */
  ghost predicate Opens(env: Env, f: Topo, svc: Service, tk: TargetKey, port: Int32) {
    && tk in svc.trafficTargets && tk in f.targets
    && LastPlace(env, f.targets[tk].destination.ports, port, 0).Some?
  }

  /** The target that opens the port, or the last one of its name with a router, has a source with address ip. */
  ghost predicate OpensFor(env: Env, f: Topo, svc: Service, tk: TargetKey, port: Int32, ip: string) {
    && Opens(env, f, svc, tk, port)
    && LastListening(env, f, svc, f.targets[tk].name).Some?
    && IsSource(f, LastListening(env, f, svc, f.targets[tk].name).value, ip)
  }

  /** Some router for requests that come through a split lets ip through to the service, on the port. */
  ghost predicate LetsIn(conf: Conf, s: Key, port: Int32, ip: string) {
    exists n :: LetsInBy(conf, s, n, port, ip)
  }

  ghost predicate LetsInBy(conf: Conf, s: Key, n: string, port: Int32, ip: string) {
    HTTPRouter(TargetIndirectRouter(s, n, port)) in conf && Admits(conf, TargetIndirectRouter(s, n, port), ip)
  }

  /** When there is a router for requests through a split to targets called n. */
  lemma IndirectRouterExactly(env: Env, f: Topo, conf: Conf, s: Key, n: string, port: Int32)
    requires env.acl && CT.Ready(f) && ConfigOf(env, f, conf) && s in f.services && ServesHTTP(f.services[s])
    ensures HTTPRouter(TargetIndirectRouter(s, n, port)) in conf <==>
            f.services[s].backendOf != []
            && exists tk :: Opens(env, f, f.services[s], tk, port) && f.targets[tk].name == n
  {
    hide CT.Ready, ConfigOf, HTTPEntryPoint;
    var svc, k := f.services[s], HTTPRouter(TargetIndirectRouter(s, n, port));
    TargetEntryIs(env, f, conf, s, n, k);
    var keep := tk => WritesTo(env, f, svc, k, n, tk);
    if svc.backendOf != [] {
      forall tk | tk in svc.trafficTargets
        ensures keep(tk) <==> Opens(env, f, svc, tk, port) && f.targets[tk].name == n
      {
        IndirectEntry(env, f, svc, tk, s, n, port);
      }
      if LastIn(svc.trafficTargets, keep).Some? {
        var tk := LastIn(svc.trafficTargets, keep).value;
        assert tk in svc.trafficTargets;
      }
    } else {
      forall tk | tk in svc.trafficTargets
        ensures !keep(tk)
      {
        IndirectEntry(env, f, svc, tk, s, n, port);
      }
    }
  }

  lemma IndirectEntry(env: Env, f: Topo, svc: Service, tk: TargetKey, s: Key, n: string, port: Int32)
    ensures WritesTo(env, f, svc, HTTPRouter(TargetIndirectRouter(s, n, port)), n, tk) <==>
            tk in f.targets && f.targets[tk].name == n && svc.backendOf != []
            && LastPlace(env, f.targets[tk].destination.ports, port, 0).Some?
  {
    hide HTTPEntryPoint;
  }

  lemma OpenerListens(env: Env, f: Topo, svc: Service, tk: TargetKey, port: Int32)
    requires Opens(env, f, svc, tk, port)
    ensures LastListening(env, f, svc, f.targets[tk].name).Some?
  {
    var keep := tk' => tk' in f.targets && f.targets[tk'].name == f.targets[tk].name
      && f.targets[tk'].destination.ports != [] && HTTPEntryPoint(env, 0).Some?;
    var i :| 0 <= i < |svc.trafficTargets| && svc.trafficTargets[i] == tk;
    assert keep(svc.trafficTargets[i]);
  }

  /**
   Which addresses get in through a split: those that are sources of the last target called like one that opens the
   port.
   */
  lemma LetsInExactly(env: Env, f: Topo, conf: Conf, s: Key, port: Int32, ip: string)
    requires env.acl && CT.Ready(f) && ConfigOf(env, f, conf) && s in f.services && ServesHTTP(f.services[s])
    requires f.services[s].backendOf != []
    ensures LetsIn(conf, s, port, ip) <==> exists tk :: OpensFor(env, f, f.services[s], tk, port, ip)
  {
    hide CT.Ready, ConfigOf, Admits, IsSource, LastListening, LastPlace;
    var svc := f.services[s];
    if LetsIn(conf, s, port, ip) {
      var n :| LetsInBy(conf, s, n, port, ip);
      IndirectRouterExactly(env, f, conf, s, n, port);
      TargetRouterAdmitsLast(env, f, conf, TargetIndirectRouter(s, n, port), ip);
      var tk :| Opens(env, f, svc, tk, port) && f.targets[tk].name == n;
      assert OpensFor(env, f, svc, tk, port, ip);
    }
    if tk :| OpensFor(env, f, svc, tk, port, ip) {
      OpenerIsKnown(env, f, svc, tk, port);
      var n := f.targets[tk].name;
      IndirectRouterExactly(env, f, conf, s, n, port);
      TargetRouterAdmitsLast(env, f, conf, TargetIndirectRouter(s, n, port), ip);
      assert LetsInBy(conf, s, n, port, ip);
    }
  }

  lemma OpenerIsKnown(env: Env, f: Topo, svc: Service, tk: TargetKey, port: Int32)
    requires Opens(env, f, svc, tk, port)
    ensures tk in f.targets && tk in svc.trafficTargets
  {
  }

  // ---- Through a split to one of its leaves ----

  /** Service s is a backend of split k, and no split sits on it. */
  ghost predicate LeafOf(f: Topo, k: Key, s: Key) {
    k in f.splits && Backs(f, k, s) && IsLeaf(f, s)
  }

  lemma LeafIsBackend(res: Snapshot, linked: Topo, k: Key, s: Key)
    requires TB.Complete(res, linked) && LeafOf(Populated(linked), k, s) && k in res.splits
    ensures k in Populated(linked).services[s].backendOf
  {
    hide TB.Complete, Recorded, Kept, SplitOf;
    ServicesOf(res, linked);
    SplitIs(res, linked, k);
    BackedExactly(res, linked, s, k);
    ServiceIs(res, linked, s);
  }

  /** All targets of service s open the port, and have names of their own. */
  ghost predicate AllOpen(env: Env, f: Topo, s: Key, port: Int32)
    requires s in f.services
  {
    && DistinctTargetNames(f, s)
    && forall tk :: tk in f.services[s].trafficTargets ==> Opens(env, f, f.services[s], tk, port)
  }

  /**
   What the computation on the split graph is for: an address that a split lets through is a source of some target of
   each of its leaves. A leaf lets it in on a port exactly when it is a source of the last target called like one that
   opens the port; so always when all targets of the leaf open the port and have names of their own.
   */
  lemma SplitLeadsIn(res: Snapshot, linked: Topo, f: Topo, env: Env, conf: Conf, r: RouterKey, s: Key, port: Int32,
          ip: string)
    requires r.SplitDirectRouter? || r.SplitIndirectRouter?
    requires LeafOf(f, Key(r.split, r.owner.namespace), s) && ServesHTTP(f.services[s])
    requires env.acl && ConfigOf(env, f, conf) && HTTPRouter(r) in conf && Admits(conf, r, ip)
    requires Keyed(res) && TB.Complete(res, linked) && WellPlaced(linked) && f == Populated(linked)
    ensures exists tk :: tk in f.services[s].trafficTargets && IsSource(f, tk, ip)
    ensures LetsIn(conf, s, port, ip) <==> exists tk :: OpensFor(env, f, f.services[s], tk, port, ip)
    ensures AllOpen(env, f, s, port) ==> LetsIn(conf, s, port, ip)
  {
    hide TB.Complete, WellPlaced, ConfigOf, CT.Ready, Populated, Admits, LetsIn, OpensFor, IsSource, AllOpen, Backs,
         LeafOf, AuthorisedBelow;
    var k := Key(r.split, r.owner.namespace);
    BuiltIsReady(res, linked);
    SplitRouterAdmits(linked, env, conf, r, ip);
    SplitRouterWhitelist(env, f, conf, r);
    var p :| AuthorisedAddress(f, k, ip, p);
    var tk := LeafNames(f, k, s, ip, p);
    SplitIsKnown(res, linked, r.owner, r.split);
    LeafIsBackend(res, linked, k, s);
    LeafIsService(f, k, s);
    LetsInExactly(env, f, conf, s, port, ip);
    if AllOpen(env, f, s, port) {
      OwnNameOpens(env, f, s, tk, port, ip);
    }
  }

  lemma LeafIsService(f: Topo, k: Key, s: Key)
    requires LeafOf(f, k, s)
    ensures s in f.services
  {
  }

  lemma SplitIsKnown(res: Snapshot, linked: Topo, s: Key, n: string)
    requires TB.Complete(res, linked) && CT.NamedSplit(Populated(linked), s, n)
    ensures Key(n, s.namespace) in res.splits
  {
    hide Recorded;
  }

  lemma LeafNames(f: Topo, k: Key, s: Key, ip: string, p: Key) returns (tk: TargetKey)
    requires AuthorisedAddress(f, k, ip, p) && LeafOf(f, k, s)
    ensures s in f.services && tk in f.services[s].trafficTargets && tk in f.targets && IsSource(f, tk, ip)
  {
    ReachesSelf(f, k);
    assert Authorises(f, k, p);
    tk :| tk in f.services[s].trafficTargets && TargetNames(f, tk, p);
    assert SourceAddress(f, tk, ip, p);
  }

  lemma OwnNameOpens(env: Env, f: Topo, s: Key, tk: TargetKey, port: Int32, ip: string)
    requires s in f.services && AllOpen(env, f, s, port) && tk in f.services[s].trafficTargets && tk in f.targets
             && IsSource(f, tk, ip)
    ensures OpensFor(env, f, f.services[s], tk, port, ip)
  {
    hide IsSource;
    var svc := f.services[s];
    OpenerListens(env, f, svc, tk, port);
    var last := LastListening(env, f, svc, f.targets[tk].name).value;
    assert CT.NamedTarget(f, s, f.targets[tk].name, last) && CT.NamedTarget(f, s, f.targets[tk].name, tk);
  }
}
