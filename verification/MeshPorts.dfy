/** The ports that shadow services point to are those that the emitted routers listen on. */
module MeshPorts {
  import opened Basics
  import opened Topologies
  import opened ShadowNames
  import opened PortMappings
  import opened ConfigWrites
  import opened ConfigResult
  import opened LastWrites
  import opened EntryPoints
  import opened Routers
  import opened Streams
  import opened Servers
  import SS = ShadowServices
  import ST = ShadowTheorems
  import Stored = ShadowStored
  import CT = ConfigTheorems
  import Rules
  import RulePriority

  /** The service as the shadow service manager sees it. */
  function AsUser(svc: Service): SS.UserService {
    SS.UserService(ServiceId(svc.namespace, svc.name), svc.annotations.trafficType, svc.ports)
  }

  /** The provider reads the tables and the HTTP range that the shadow services are made from. */
  predicate Shared(env: Env, cfg: SS.Config, st: SS.State) {
    env.tcp == st.tcp && env.udp == st.udp && env.minHTTP == cfg.minHTTP && env.maxHTTP == cfg.maxHTTP
  }

  function EntryFor(tt: TrafficType, q: Int32): EntryPoint {
    match tt
    case TCPType => StreamEntry(OverTCP, q)
    case UDPType => StreamEntry(OverUDP, q)
    case _ => HTTPEntry(q)
  }

  function ListensOn(v: ConfValue): seq<EntryPoint> {
    if v.Router? || v.StreamRoute? then v.entryPoints else []
  }

  /** A router of a service of traffic type tt that serves the given port: its own, or that of a split on it. */
  predicate Serves(k: ConfKey, tt: TrafficType, port: Int32) {
    match tt
    case HTTP => k.HTTPRouter?
    && (k.router.PortRouter? || k.router.SplitDirectRouter? || k.router.SplitIndirectRouter?) && k.router.port == port
    case TCPType => k.StreamRouter? && k.transport == OverTCP && k.streamRouter.PortService?
    && k.streamRouter.port == port
    case UDPType => k.StreamRouter? && k.transport == OverUDP && k.streamRouter.PortService?
    && k.streamRouter.port == port
    case Unknown => false
  }

  /** The shadow service of svc is stored as a sync leaves it, and the tables agree with the store. */
  ghost predicate InSync(cfg: SS.Config, st: SS.State, svc: Service) {
    SS.ValidConfig(cfg) && SS.Consistent(cfg, st) && Parseable(svc.namespace)
    && Stored.Synced(cfg, st.store, AsUser(svc))
  }

  /**
   The service has HTTP traffic, and a later port has the number of shadow port sp and an entrypoint. Numbers may
   be shared by ports of different protocols.
   */
  predicate Overwritten(env: Env, svc: Service, sp: ServicePort) {
    && svc.annotations.trafficType == Some(HTTP)
    && exists j ::
         0 <= j < |svc.ports| && svc.ports[j].port == sp.port && HTTPEntryPoint(env, j).Some?
         && env.minHTTP as int + j > sp.targetPort as int
  }

  /** What a shadow port says about its place among the ports of the service and about the entrypoint there. */
  lemma ShadowPortPlace(cfg: SS.Config, st: SS.State, env: Env, svc: Service, sp: ServicePort) returns (k: nat)
    requires InSync(cfg, st, svc) && Shared(env, cfg, st) && svc.annotations.trafficType.Some?
    requires sp in SS.ShadowPorts(cfg, st.store, AsUser(svc).id)
    ensures Stored.MadeFor(svc.ports, k, sp) && svc.annotations.trafficType.value != Unknown
    ensures Mappable(env, svc, svc.annotations.trafficType.value, k)
    ensures match svc.annotations.trafficType.value
            case TCPType => StreamEntryPoint(env, svc, OverTCP, sp.port) == Some(StreamEntry(OverTCP, sp.targetPort))
            case UDPType => StreamEntryPoint(env, svc, OverUDP, sp.port) == Some(StreamEntry(OverUDP, sp.targetPort))
            case _ => HTTPEntryPoint(env, k) == Some(HTTPEntry(sp.targetPort))
  {
    hide SS.Consistent, SS.FindPort;
    var user := AsUser(svc);
    var tt := svc.annotations.trafficType.value;
    assert Stored.PortStored(cfg, user, sp);
    k :| Stored.MadeFor(svc.ports, k, sp) && Stored.TargetFits(cfg, tt, k, sp);
    if tt != HTTP {
      Stored.StoredLookup(cfg, st, user, sp);
    }
  }

  /** The last place of the number of an HTTP shadow port is that of the shadow port unless it is overwritten. */
  lemma LastPlaceOfShadow(env: Env, svc: Service, sp: ServicePort, at: nat)
    requires svc.annotations.trafficType == Some(HTTP) && at < |svc.ports| && svc.ports[at].port == sp.port
    requires HTTPEntryPoint(env, at) == Some(HTTPEntry(sp.targetPort))
    ensures LastPlace(env, svc.ports, sp.port, 0).Some?
    ensures HTTPEntryPoint(env, LastPlace(env, svc.ports, sp.port, 0).value) == Some(HTTPEntry(sp.targetPort)) <==>
              !Overwritten(env, svc, sp)
  {
    var last := LastPlace(env, svc.ports, sp.port, 0).value;
    PlacesDiffer(env, last, at);
    assert at <= last;
  }

  /** Where the routers that serve an HTTP port listen. */
  lemma HTTPRoutersListen(env: Env, t: Topo, conf: Conf, s: Key, port: Int32, k: ConfKey)
    requires CT.Ready(t) && ConfigOf(env, t, conf) && s in t.services && ServesHTTP(t.services[s])
    requires k in conf && CT.OwnerOf(k) == Some(s) && Serves(k, HTTP, port)
    ensures var place := LastPlace(env, t.services[s].ports, port, 0);
            place.Some? && ListensOn(conf[k]) == [HTTPEntryPoint(env, place.value).value]
  {
    hide CT.Ready, ConfigOf, HTTPEntryPoint, Rules.ServiceRule, Rules.DirectRule, Rules.IndirectRule,
         RulePriority.Priority;
    if k.router.PortRouter? {
      PortRouterIs(env, t, conf, s, port);
    } else {
      SplitOfRouter(env, t, conf, k.router);
    }
  }

  /**
   Every router that serves a shadow port, be it that of the service or that of a split, has the target of the
   shadow port as its only entrypoint, whichever write came last, unless the service has HTTP traffic and a later
   port of the same number. This is exact. TCP and UDP ports are always served on their targets.
   */
  lemma RoutersListenOnTargets(cfg: SS.Config, st: SS.State, env: Env, t: Topo, conf: Conf, s: Key, sp: ServicePort,
          k: ConfKey)
    requires CT.Ready(t) && ConfigOf(env, t, conf) && s in t.services && Evaluable(t.services[s])
    requires InSync(cfg, st, t.services[s]) && Shared(env, cfg, st)
    requires sp in SS.ShadowPorts(cfg, st.store, AsUser(t.services[s]).id)
    requires k in conf && CT.OwnerOf(k) == Some(s) && Serves(k, t.services[s].annotations.trafficType.value, sp.port)
    ensures ListensOn(conf[k]) == [EntryFor(t.services[s].annotations.trafficType.value, sp.targetPort)] <==>
              !Overwritten(env, t.services[s], sp)
  {
    hide CT.Ready, ConfigOf, StreamEntryPoint, HTTPEntryPoint, SS.Consistent, Stored.Synced, SS.ShadowPorts,
         Overwritten;
    var svc := t.services[s];
    var at := ShadowPortPlace(cfg, st, env, svc, sp);
    if svc.annotations.trafficType.value == HTTP {
      HTTPRoutersListen(env, t, conf, s, sp.port, k);
      LastPlaceOfShadow(env, svc, sp, at);
    } else {
      EntryListens(env, t, conf, k);
      OnlyHTTPOverwritten(env, svc, sp);
    }
  }

  lemma OnlyHTTPOverwritten(env: Env, svc: Service, sp: ServicePort)
    requires svc.annotations.trafficType != Some(HTTP)
    ensures !Overwritten(env, svc, sp)
  {
  }

  /**
   Without ACL, every port of a shadow service has a router in the configuration. Its only entrypoint is the
   target of the shadow port exactly when the port is not overwritten.
   */
  lemma ShadowPortsServed(cfg: SS.Config, st: SS.State, env: Env, t: Topo, conf: Conf, s: Key, sp: ServicePort)
    requires CT.Ready(t) && ConfigOf(env, t, conf) && s in t.services && Evaluable(t.services[s]) && !env.acl
    requires InSync(cfg, st, t.services[s]) && Shared(env, cfg, st)
    requires sp in SS.ShadowPorts(cfg, st.store, AsUser(t.services[s]).id)
    ensures var tt := t.services[s].annotations.trafficType.value;
            var k := RouterOf(s, tt, sp.port);
            k in conf && (ListensOn(conf[k]) == [EntryFor(tt, sp.targetPort)] <==> !Overwritten(env, t.services[s], sp))
  {
    hide ConfigOf, StreamEntryPoint, HTTPEntryPoint, InSync, Mappable, SS.ShadowPorts, ServiceWrites, Overwritten;
    var svc := t.services[s];
    assert svc.OwnKey() == s;
    var at := ShadowPortPlace(cfg, st, env, svc, sp);
    ServiceRouters(env, t, svc, at);
    KeysPresent(env, t, conf);
    var k := RouterOf(s, svc.annotations.trafficType.value, sp.port);
    RoutersListenOnTargets(cfg, st, env, t, conf, s, sp, k);
  }

  // ---- Where shadow ports lead to ----

  /** The last place of a port number that the provider makes a router for. */
  function LastServed(env: Env, svc: Service, port: Int32): Option<nat>
    requires Evaluable(svc)
  {
    if svc.annotations.trafficType.value == HTTP then LastPlace(env, svc.ports, port, 0)
    else LastNumber(svc.ports, port, 0)
  }

  /** The servers for a port of a service, which for TCP and UDP have no scheme. */
  function ServersOf(env: Env, t: Topo, svc: Service, sp: ServicePort): ConfValue
    requires Evaluable(svc)
  {
    var http := svc.annotations.trafficType.value == HTTP;
    Balancer(PodServers(env, t, svc.pods, if http then svc.annotations.scheme.value else "", sp), http)
  }

  /**
   Without ACL, behind the router of a shadow port are the servers of the last port with the number of it, which
   need not be the port that the shadow port is made for. For TCP and UDP, a split takes their place.
   */
  lemma ShadowPortForwards(cfg: SS.Config, st: SS.State, env: Env, t: Topo, conf: Conf, s: Key, sp: ServicePort)
      returns (own: nat, last: nat)
    requires CT.Ready(t) && ConfigOf(env, t, conf) && s in t.services && Evaluable(t.services[s]) && !env.acl
    requires InSync(cfg, st, t.services[s]) && Shared(env, cfg, st)
    requires sp in SS.ShadowPorts(cfg, st.store, AsUser(t.services[s]).id)
    ensures var svc := t.services[s];
            var tt := svc.annotations.trafficType.value;
            && Stored.MadeFor(svc.ports, own, sp) && LastServed(env, svc, sp.port) == Some(last)
            && own <= last < |svc.ports| && svc.ports[last].port == sp.port
            && (tt == HTTP || svc.trafficSplits == [] ==>
                 Behind(conf, RouterOf(s, tt, sp.port)) == Some(ServersOf(env, t, svc, svc.ports[last])))
  {
    hide ConfigOf, StreamEntryPoint, HTTPEntryPoint, InSync, SS.ShadowPorts, PodServers, Overwritten, ServiceWrites,
         Rules.ServiceRule, RulePriority.Priority, CT.Ready, Mappable;
    var svc := t.services[s];
    var tt := svc.annotations.trafficType.value;
    own := ShadowPortPlace(cfg, st, env, svc, sp);
    ShadowPortsServed(cfg, st, env, t, conf, s, sp);
    if tt == HTTP {
      PlaceIsServed(env, svc, own);
      last := LastPlace(env, svc.ports, sp.port, 0).value;
      PortRouterIs(env, t, conf, s, sp.port);
      PortServiceIs(env, t, conf, s, sp.port);
    } else {
      last := LastNumber(svc.ports, sp.port, 0).value;
      var transport := if tt == TCPType then OverTCP else OverUDP;
      EntryListens(env, t, conf, RouterOf(s, tt, sp.port));
      StreamServiceIs(env, t, conf, s, transport, sp.port);
    }
  }

  lemma PlaceIsServed(env: Env, svc: Service, own: nat)
    requires own < |svc.ports| && Mappable(env, svc, HTTP, own)
    ensures LastPlace(env, svc.ports, svc.ports[own].port, 0).Some?
    ensures own <= LastPlace(env, svc.ports, svc.ports[own].port, 0).value
  {
  }

  /**
   So a shadow port leads to the servers of its own port when all pods of the service resolve the last port of its
   number like its own; and, if their addresses are distinct, only then.
   */
  lemma LeadsToOwnExactly(cfg: SS.Config, st: SS.State, env: Env, t: Topo, conf: Conf, s: Key, sp: ServicePort)
      returns (own: nat, last: nat)
    requires CT.Ready(t) && ConfigOf(env, t, conf) && s in t.services && Evaluable(t.services[s]) && !env.acl
    requires InSync(cfg, st, t.services[s]) && Shared(env, cfg, st)
    requires sp in SS.ShadowPorts(cfg, st.store, AsUser(t.services[s]).id)
    requires t.services[s].annotations.trafficType.value == HTTP || t.services[s].trafficSplits == []
    ensures var svc := t.services[s];
            var k := RouterOf(s, svc.annotations.trafficType.value, sp.port);
            && Stored.MadeFor(svc.ports, own, sp) && LastServed(env, svc, sp.port) == Some(last) && last < |svc.ports|
            && ((forall i :: 0 <= i < |svc.pods| ==>
                   ResolvedAlike(env, t, svc.pods[i], svc.ports[last], svc.ports[own])) ==>
                Behind(conf, k) == Some(ServersOf(env, t, svc, svc.ports[own])))
            && (DistinctAddresses(t, svc.pods) && Behind(conf, k) == Some(ServersOf(env, t, svc, svc.ports[own])) ==>
                forall i :: 0 <= i < |svc.pods| ==>
                  ResolvedAlike(env, t, svc.pods[i], svc.ports[last], svc.ports[own]))
  {
    hide CT.Ready, ConfigOf, InSync, SS.ShadowPorts, Behind, PodServers, ResolvedAlike, DistinctAddresses, LastServed;
    var svc := t.services[s];
    own, last := ShadowPortForwards(cfg, st, env, t, conf, s, sp);
    var http := svc.annotations.trafficType.value == HTTP;
    SameServersExactly(env, t, svc.pods, if http then svc.annotations.scheme.value else "", svc.ports[last],
                       svc.ports[own]);
  }

  /**
   Over whole runs: once a service has been synced, and whatever is done to other services and however often the
   controller restarts after that, the state is one in which its shadow ports are served.
   */
  lemma RunsEndInSync(cfg: SS.Config, before: seq<ST.Step>, svc: Service, after: seq<ST.Step>)
    requires SS.ValidConfig(cfg) && Parseable(svc.namespace) && svc.annotations.trafficType.Some?
             && SS.UniquePorts(svc.ports)
    requires ST.ValidRun(cfg, ST.EMPTY, before)
    requires var synced := SS.Sync(cfg, ST.Run(cfg, ST.EMPTY, before), AsUser(svc)); ST.ValidRun(cfg, synced, after)
    requires forall step :: step in after ==> !Stored.About(step, AsUser(svc).id)
    ensures InSync(cfg, ST.Run(cfg, SS.Sync(cfg, ST.Run(cfg, ST.EMPTY, before), AsUser(svc)), after), svc)
  {
    hide SS.Consistent, Stored.Synced, SS.Sync, ST.Run, ST.ValidRun;
    var st := ST.Run(cfg, ST.EMPTY, before);
    var user := AsUser(svc);
    ST.EmptyConsistent(cfg);
    ST.RunKeepsConsistent(cfg, ST.EMPTY, before);
    ST.SyncKeepsConsistent(cfg, st, user);
    Stored.SyncStores(cfg, st, user);
    ST.RunKeepsConsistent(cfg, SS.Sync(cfg, st, user), after);
    Stored.RunKeepsStored(cfg, SS.Sync(cfg, st, user), after, user);
  }
}
