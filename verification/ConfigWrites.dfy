/**
 The dynamic configuration, and the writes that the provider makes to it for each service, in order.
 Later writes to a key replace earlier ones.
 */
module ConfigWrites {
  import opened Basics
  import opened Topologies
  import opened PortMappings
  import opened Rules
  import opened RulePriority
  import ShadowServices

  // ---- Configuration ----

  /** Keys name the service they are made for; those of a target do not name the namespace of the target. */
  datatype RouterKey =
    | ReadinessRouter
    | PortRouter(owner: Key, port: Int32)
    | TargetDirectRouter(owner: Key, target: string, port: Int32)
    | TargetIndirectRouter(owner: Key, target: string, port: Int32)
    | SplitDirectRouter(owner: Key, split: string, port: Int32)
    | SplitIndirectRouter(owner: Key, split: string, port: Int32)

  datatype ServiceKey =
    | ReadinessService
    | BlockAllService
    | PortService(owner: Key, port: Int32)
    | TargetService(owner: Key, target: string, port: Int32)
    | SplitService(owner: Key, split: string, port: Int32)
    | BackendService(owner: Key, split: string, port: Int32, backend: string)

  datatype MiddlewareKey =
    | BlockAllMiddleware
    | Annotated(owner: Key, name: string)
    | TargetDirectWhitelist(owner: Key, target: string)
    | TargetIndirectWhitelist(owner: Key, target: string)
    | SplitDirectWhitelist(owner: Key, split: string)
    | SplitIndirectWhitelist(owner: Key, split: string)

  datatype Transport = OverTCP | OverUDP

  datatype EntryPoint = Readiness | HTTPEntry(port: Int32) | StreamEntry(transport: Transport, port: Int32)

  datatype Server =
    | Local(url: string)
    | PodServer(scheme: string, ip: string, port: Int32)
    | MeshServer(scheme: string, service: Key, port: Int32)

  /** One map holds all sections of the configuration. */
  datatype ConfKey =
    | HTTPRouter(router: RouterKey)
    | HTTPService(service: ServiceKey)
    | HTTPMiddleware(middleware: MiddlewareKey)
    | StreamRouter(transport: Transport, streamRouter: ServiceKey)
    | StreamService(transport: Transport, streamService: ServiceKey)

  datatype ConfValue =
    | Router(rule: Rule, entryPoints: seq<EntryPoint>, middlewares: seq<MiddlewareKey>, target: ServiceKey,
             priority: int)
    | StreamRoute(entryPoints: seq<EntryPoint>, target: ServiceKey)
    | Balancer(servers: seq<Server>, passHostHeader: bool)
    | Weighted(children: seq<(ServiceKey, int)>)
    | Whitelist(ips: seq<string>, depth: Option<int>)
    | Custom(name: string)

  type Conf = map<ConfKey, ConfValue>

  datatype Write = Write(key: ConfKey, value: ConfValue)

  function PutAll(conf: Conf, ws: seq<Write>): Conf
    decreases |ws|
  {
    if ws == [] then conf else PutAll(conf[ws[0].key := ws[0].value], ws[1..])
  }

  const DEFAULT: Conf := map[
    HTTPRouter(ReadinessRouter) := Router([Atom(Path("/ping"))], [Readiness], [], ReadinessService, 0),
    HTTPService(ReadinessService) := Balancer([Local("http://127.0.0.1:8080")], true),
    HTTPService(BlockAllService) := Balancer([], false),
    HTTPMiddleware(BlockAllMiddleware) := Whitelist(["255.255.255.255"], None)]

  // ---- What the writes depend on ----

  /** resolve stands for the resolution of a service port against the ports of a pod. */
  datatype Env = Env(
    minHTTP: Int32,
    maxHTTP: Int32,
    acl: bool,
    resolve: (ServicePort, Pod) -> Option<Int32>,
    tcp: Table,
    udp: Table)

  function HTTPEntryPoint(env: Env, portID: nat): Option<EntryPoint> {
    if env.minHTTP as int + portID > env.maxHTTP as int then None
    else Some(HTTPEntry((env.minHTTP as int + portID) as Int32))
  }

  function TableFor(env: Env, transport: Transport): Table {
    match transport
    case OverTCP => env.tcp
    case OverUDP => env.udp
  }

  ghost function StreamEntryPoint(env: Env, svc: Service, transport: Transport, port: Int32): Option<EntryPoint> {
    match ShadowServices.FindPort(TableFor(env, transport), Mapped(svc.namespace, svc.name, port))
    case None => None
    case Some(q) => Some(StreamEntry(transport, q))
  }

  /** The servers of the given pods: pods that are unknown or do not resolve are left out. */
  function PodServers(env: Env, t: Topo, pods: seq<Key>, scheme: string, sp: ServicePort): seq<Server> {
    if pods == [] then []
    else
      (if pods[0] !in t.pods || env.resolve(sp, t.pods[pods[0]]).None? then []
       else [PodServer(scheme, t.pods[pods[0]].ip, env.resolve(sp, t.pods[pods[0]]).value)])
      + PodServers(env, t, pods[1..], scheme, sp)
  }

  /** The addresses of the given pods, as far as known. */
  function Addresses(t: Topo, pods: seq<Key>): seq<string> {
    if pods == [] then [] else (if pods[0] in t.pods then [t.pods[pods[0]].ip] else []) + Addresses(t, pods[1..])
  }

  function MakeRouter(rule: Rule, entry: EntryPoint, middlewares: seq<MiddlewareKey>, target: ServiceKey,
          tier: int): ConfValue
  {
    Router(rule, [entry], middlewares, target, Priority(rule, tier))
  }

  // ---- Services ----

  function HTTPServiceWrites(env: Env, t: Topo, svc: Service, scheme: string, middlewares: seq<MiddlewareKey>,
          i: nat): seq<Write>
    requires i <= |svc.ports|
    decreases |svc.ports| - i
  {
    if i == |svc.ports| then []
    else
      var sp := svc.ports[i];
      (match HTTPEntryPoint(env, i)
       case None => []
       case Some(entry) =>
         [Write(HTTPService(PortService(svc.OwnKey(), sp.port)),
                Balancer(PodServers(env, t, svc.pods, scheme, sp), true)),
          Write(HTTPRouter(PortRouter(svc.OwnKey(), sp.port)),
                MakeRouter(ServiceRule(svc), entry, middlewares, PortService(svc.OwnKey(), sp.port), SERVICE_TIER))])
      + HTTPServiceWrites(env, t, svc, scheme, middlewares, i + 1)
  }

  ghost function StreamServiceWrites(env: Env, t: Topo, svc: Service, transport: Transport, i: nat): seq<Write>
    requires i <= |svc.ports|
    decreases |svc.ports| - i
  {
    if i == |svc.ports| then []
    else
      var sp := svc.ports[i];
      var key := PortService(svc.OwnKey(), sp.port);
      (match StreamEntryPoint(env, svc, transport, sp.port)
       case None => []
       case Some(entry) =>
         [Write(StreamService(transport, key), Balancer(PodServers(env, t, svc.pods, "", sp), false)),
          Write(StreamRouter(transport, key), StreamRoute([entry], key))])
      + StreamServiceWrites(env, t, svc, transport, i + 1)
  }

  function BlockAllWrites(env: Env, svc: Service, i: nat): seq<Write>
    requires i <= |svc.ports|
    decreases |svc.ports| - i
  {
    if i == |svc.ports| then []
    else
      (match HTTPEntryPoint(env, i)
       case None => []
       case Some(entry) =>
         [Write(HTTPRouter(PortRouter(svc.OwnKey(), svc.ports[i].port)),
                Router(ServiceRule(svc), [entry], [BlockAllMiddleware], BlockAllService, BLOCK_ALL_PRIORITY))])
      + BlockAllWrites(env, svc, i + 1)
  }

  // ---- Traffic-targets ----

  function TargetWhitelist(t: Topo, tt: Target, depth: Option<int>): ConfValue {
    Whitelist(Addresses(t, SourcePods(tt.sources)), depth)
  }

  /** The writes for one destination port of a target behind the given rule. */
  function HTTPTargetPortWrites(env: Env, t: Topo, tt: Target, svc: Service, scheme: string,
          middlewares: seq<MiddlewareKey>, sp: ServicePort, entry: EntryPoint, rule: Rule): seq<Write>
  {
    var target := TargetService(tt.service, tt.name, sp.port);
    [Write(HTTPService(target), Balancer(PodServers(env, t, tt.destination.pods, scheme, sp), true)),
     Write(HTTPRouter(TargetDirectRouter(tt.service, tt.name, sp.port)),
           MakeRouter(rule, entry, middlewares + [TargetDirectWhitelist(tt.service, tt.name)], target,
                      TARGET_DIRECT_TIER))]
    + if svc.backendOf == [] then []
    else
      [Write(HTTPMiddleware(TargetIndirectWhitelist(tt.service, tt.name)), TargetWhitelist(t, tt, Some(1))),
       Write(HTTPRouter(TargetIndirectRouter(tt.service, tt.name, sp.port)),
             MakeRouter(IndirectRule(svc, tt.rules), entry,
                        middlewares + [TargetIndirectWhitelist(tt.service, tt.name)], target, TARGET_INDIRECT_TIER))]
  }

  /** Once a port has an indirect router, the rule of the direct routers that follow is the indirect one too. */
  function HTTPTargetPortsWrites(env: Env, t: Topo, tt: Target, svc: Service, scheme: string,
          middlewares: seq<MiddlewareKey>, i: nat, rule: Rule): seq<Write>
    requires i <= |tt.destination.ports|
    decreases |tt.destination.ports| - i
  {
    if i == |tt.destination.ports| then []
    else
      match HTTPEntryPoint(env, i)
      case None => HTTPTargetPortsWrites(env, t, tt, svc, scheme, middlewares, i + 1, rule)
      case Some(entry) =>
        HTTPTargetPortWrites(env, t, tt, svc, scheme, middlewares, tt.destination.ports[i], entry, rule)
        + HTTPTargetPortsWrites(env, t, tt, svc, scheme, middlewares, i + 1, if svc.backendOf == [] then rule
        else IndirectRule(svc, tt.rules))
  }

  function HTTPTargetWrites(env: Env, t: Topo, tt: Target, svc: Service, scheme: string,
          middlewares: seq<MiddlewareKey>): seq<Write>
  {
    [Write(HTTPMiddleware(TargetDirectWhitelist(tt.service, tt.name)), TargetWhitelist(t, tt, None))]
    + HTTPTargetPortsWrites(env, t, tt, svc, scheme, middlewares, 0, DirectRule(svc, tt.rules))
  }

  predicate HasTCPRoute(tt: Target) {
    exists i :: 0 <= i < |tt.rules| && tt.rules[i].TCPSpec?
  }

  ghost function TCPTargetWrites(env: Env, t: Topo, tt: Target, svc: Service, i: nat): seq<Write>
    requires i <= |tt.destination.ports|
    decreases |tt.destination.ports| - i
  {
    if i == |tt.destination.ports| then []
    else
      var sp := tt.destination.ports[i];
      var key := PortService(svc.OwnKey(), sp.port);
      (match StreamEntryPoint(env, svc, OverTCP, sp.port)
       case None => []
       case Some(entry) =>
         [Write(StreamService(OverTCP, key), Balancer(PodServers(env, t, tt.destination.pods, "", sp), false)),
          Write(StreamRouter(OverTCP, key), StreamRoute([entry], key))])
      + TCPTargetWrites(env, t, tt, svc, i + 1)
  }

  ghost function TargetWrites(env: Env, t: Topo, tk: TargetKey, scheme: string, tt: TrafficType,
          middlewares: seq<MiddlewareKey>): seq<Write>
  {
    if tk !in t.targets || t.targets[tk].service !in t.services then []
    else
      var target := t.targets[tk];
      var svc := t.services[target.service];
      match tt
      case HTTP => HTTPTargetWrites(env, t, target, svc, scheme, middlewares)
      case TCPType => if HasTCPRoute(target) then TCPTargetWrites(env, t, target, svc, 0) else []
      case UDPType => []
      case Unknown => []
  }

  ghost function TargetsWrites(env: Env, t: Topo, tks: seq<TargetKey>, scheme: string, tt: TrafficType,
          middlewares: seq<MiddlewareKey>): seq<Write>
  {
    if tks == [] then []
    else
      TargetWrites(env, t, tks[0], scheme, tt, middlewares)
      + TargetsWrites(env, t, tks[1..], scheme, tt, middlewares)
  }

  // ---- Traffic-splits ----

  function BackendKey(ts: Split, port: Int32, b: Backend): ServiceKey {
    BackendService(ts.service, ts.name, port, b.service.name)
  }

  function Children(ts: Split, port: Int32, bs: seq<Backend>): seq<(ServiceKey, int)> {
    seq(|bs|, i requires 0 <= i < |bs| => (BackendKey(ts, port, bs[i]), bs[i].weight))
  }

  /** Stops at the first backend whose service is unknown; the writes up to there remain. */
  function HTTPBackendWrites(t: Topo, ts: Split, scheme: string, port: Int32, bs: seq<Backend>): seq<Write> {
    if bs == [] || bs[0].service !in t.services then []
    else
      [Write(HTTPService(BackendKey(ts, port, bs[0])), Balancer([MeshServer(scheme, bs[0].service, port)], false))]
      + HTTPBackendWrites(t, ts, scheme, port, bs[1..])
  }

  predicate BackendsKnown(t: Topo, bs: seq<Backend>) {
    forall i :: 0 <= i < |bs| ==> bs[i].service in t.services
  }

  function SplitWhitelist(t: Topo, ts: Split, depth: Option<int>): ConfValue {
    Whitelist(Addresses(t, ts.incoming), depth)
  }

  /** The whitelist and the router for requests that come through a split further up. */
  function SplitIndirectWrites(t: Topo, ts: Split, svc: Service, middlewares: seq<MiddlewareKey>, sp: ServicePort,
          entry: EntryPoint): seq<Write>
  {
    [Write(HTTPMiddleware(SplitIndirectWhitelist(ts.service, ts.name)), SplitWhitelist(t, ts, Some(1))),
     Write(HTTPRouter(SplitIndirectRouter(ts.service, ts.name, sp.port)),
           MakeRouter(IndirectRule(svc, ts.rules), entry,
                      middlewares + [SplitIndirectWhitelist(ts.service, ts.name)],
                      SplitService(ts.service, ts.name, sp.port), TARGET_INDIRECT_TIER))]
  }

  function HTTPSplitPortWrites(env: Env, t: Topo, ts: Split, svc: Service, middlewares: seq<MiddlewareKey>,
          sp: ServicePort, entry: EntryPoint, rule: Rule): seq<Write>
  {
    var target := SplitService(ts.service, ts.name, sp.port);
    [Write(HTTPService(target), Weighted(Children(ts, sp.port, ts.backends))),
     Write(HTTPRouter(SplitDirectRouter(ts.service, ts.name, sp.port)),
           MakeRouter(rule, entry, if env.acl then middlewares + [SplitDirectWhitelist(ts.service, ts.name)]
           else middlewares, target, SPLIT_TIER))]
    + if svc.backendOf == [] || !env.acl then [] else SplitIndirectWrites(t, ts, svc, middlewares, sp, entry)
  }

  /** As for targets, an indirect router changes the rule of the direct routers that follow. */
  function HTTPSplitPortsWrites(env: Env, t: Topo, ts: Split, svc: Service, scheme: string,
          middlewares: seq<MiddlewareKey>, i: nat, rule: Rule): seq<Write>
    requires i <= |svc.ports|
    decreases |svc.ports| - i
  {
    if i == |svc.ports| then []
    else
      HTTPBackendWrites(t, ts, scheme, svc.ports[i].port, ts.backends) +
      if !BackendsKnown(t, ts.backends) || HTTPEntryPoint(env, i).None? then
        HTTPSplitPortsWrites(env, t, ts, svc, scheme, middlewares, i + 1, rule)
      else
        HTTPSplitPortWrites(env, t, ts, svc, middlewares, svc.ports[i], HTTPEntryPoint(env, i).value, rule)
        + HTTPSplitPortsWrites(env, t, ts, svc, scheme, middlewares, i + 1,
                               if svc.backendOf == [] || !env.acl then rule else IndirectRule(svc, ts.rules))
  }

  function HTTPSplitWrites(env: Env, t: Topo, ts: Split, svc: Service, scheme: string,
          middlewares: seq<MiddlewareKey>): seq<Write>
  {
    (if env.acl then [Write(HTTPMiddleware(SplitDirectWhitelist(ts.service, ts.name)), SplitWhitelist(t, ts, None))]
    else [])
    + HTTPSplitPortsWrites(env, t, ts, svc, scheme, middlewares, 0, DirectRule(svc, ts.rules))
  }

  function StreamBackendWrites(ts: Split, transport: Transport, sp: ServicePort, bs: seq<Backend>): seq<Write> {
    if bs == [] then []
    else
      [Write(StreamService(transport, BackendKey(ts, sp.port, bs[0])),
             Balancer([MeshServer("", bs[0].service, sp.targetPort)], false))]
      + StreamBackendWrites(ts, transport, sp, bs[1..])
  }

  ghost function StreamSplitWrites(env: Env, ts: Split, svc: Service, transport: Transport, i: nat): seq<Write>
    requires i <= |svc.ports|
    decreases |svc.ports| - i
  {
    if i == |svc.ports| then []
    else
      var sp := svc.ports[i];
      var key := PortService(svc.OwnKey(), sp.port);
      (match StreamEntryPoint(env, svc, transport, sp.port)
       case None => []
       case Some(entry) =>
         StreamBackendWrites(ts, transport, sp, ts.backends)
         + [Write(StreamService(transport, key), Weighted(Children(ts, sp.port, ts.backends))),
            Write(StreamRouter(transport, key), StreamRoute([entry], key))])
      + StreamSplitWrites(env, ts, svc, transport, i + 1)
  }

  ghost function SplitWrites(env: Env, t: Topo, k: Key, scheme: string, tt: TrafficType,
          middlewares: seq<MiddlewareKey>): seq<Write>
  {
    if k !in t.splits || t.splits[k].service !in t.services then []
    else
      var ts := t.splits[k];
      var svc := t.services[ts.service];
      match tt
      case HTTP => HTTPSplitWrites(env, t, ts, svc, scheme, middlewares)
      case TCPType => StreamSplitWrites(env, ts, svc, OverTCP, 0)
      case UDPType => StreamSplitWrites(env, ts, svc, OverUDP, 0)
      case Unknown => []
  }

  ghost function SplitsWrites(env: Env, t: Topo, ks: seq<Key>, scheme: string, tt: TrafficType,
          middlewares: seq<MiddlewareKey>): seq<Write>
  {
    if ks == [] then []
    else
      SplitWrites(env, t, ks[0], scheme, tt, middlewares)
      + SplitsWrites(env, t, ks[1..], scheme, tt, middlewares)
  }

  // ---- One service ----

  function AnnotationWrites(svc: Service, ms: seq<(string, string)>): seq<Write> {
    if ms == [] then []
    else [Write(HTTPMiddleware(Annotated(svc.OwnKey(), ms[0].0)), Custom(ms[0].1))] + AnnotationWrites(svc, ms[1..])
  }

  function AnnotationKeys(svc: Service, ms: seq<(string, string)>): seq<MiddlewareKey> {
    seq(|ms|, i requires 0 <= i < |ms| => Annotated(svc.OwnKey(), ms[i].0))
  }

  /** The annotations of the service can all be evaluated. */
  predicate Evaluable(svc: Service) {
    && svc.annotations.trafficType.Some? && svc.annotations.scheme.Some?
    && (svc.annotations.trafficType.value == HTTP ==> svc.annotations.middlewares.Some?)
  }

  /** The middlewares the annotations ask for: none unless traffic is HTTP. */
  function Asked(svc: Service): seq<(string, string)>
    requires Evaluable(svc)
  {
    if svc.annotations.trafficType.value == HTTP then svc.annotations.middlewares.value else []
  }

  /** The routers and services of the service itself. */
  ghost function OwnWrites(env: Env, t: Topo, svc: Service, scheme: string, tt: TrafficType,
          middlewares: seq<MiddlewareKey>): seq<Write>
  {
    if env.acl then
      (if tt == HTTP then BlockAllWrites(env, svc, 0) else [])
        + TargetsWrites(env, t, svc.trafficTargets, scheme, tt, middlewares)
    else
      match tt
      case HTTP => HTTPServiceWrites(env, t, svc, scheme, middlewares, 0)
      case TCPType => StreamServiceWrites(env, t, svc, OverTCP, 0)
      case UDPType => StreamServiceWrites(env, t, svc, OverUDP, 0)
      case Unknown => []
  }

  /** All writes made for one service. Without ACL, a service of unknown traffic type ends the evaluation. */
  ghost function ServiceWrites(env: Env, t: Topo, svc: Service): seq<Write> {
    if !Evaluable(svc) then []
    else
      var tt, scheme := svc.annotations.trafficType.value, svc.annotations.scheme.value;
      var ms := Asked(svc);
      var keys := AnnotationKeys(svc, ms);
      AnnotationWrites(svc, ms) + OwnWrites(env, t, svc, scheme, tt, keys) +
      if !env.acl && tt == Unknown then [] else SplitsWrites(env, t, svc.trafficSplits, scheme, tt, keys)
  }
}
