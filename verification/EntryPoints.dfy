/** Where the emitted routers listen, against the mesh ports that shadow services point to. */
module EntryPoints {
  import opened Basics
  import opened Topologies
  import opened Rules
  import opened RulePriority
  import opened ConfigWrites
  import opened ConfigTheorems
  import opened ConfigResult

  /** Only on the HTTP entrypoint of the port, by its place among the ports of the service. */
  ghost predicate OnHTTP(env: Env, svc: Service, port: Int32, entryPoints: seq<EntryPoint>) {
    exists i ::
             0 <= i < |svc.ports| && svc.ports[i].port == port && HTTPEntryPoint(env, i).Some?
             && entryPoints == [HTTPEntryPoint(env, i).value]
  }

  ghost predicate OnStream(env: Env, svc: Service, transport: Transport, port: Int32, entryPoints: seq<EntryPoint>) {
    && StreamEntryPoint(env, svc, transport, port).Some?
    && entryPoints == [StreamEntryPoint(env, svc, transport, port).value]
  }

  /**
   A router of svc, or of a split on it, listens where the port of the service is mapped. A TCP or UDP router sends to
   the service of its own key.
   */
  ghost predicate Listens(env: Env, svc: Service, k: ConfKey, v: ConfValue) {
    match k
    case HTTPRouter(r) =>
      r.PortRouter? || r.SplitDirectRouter? || r.SplitIndirectRouter? ==>
        v.Router? && OnHTTP(env, svc, r.port, v.entryPoints)
    case StreamRouter(transport, s) => s.PortService? && v.StreamRoute? && v.target == s
    && OnStream(env, svc, transport, s.port, v.entryPoints)
    case _ => true
  }

  ghost predicate AllListen(env: Env, svc: Service, ws: seq<Write>) {
    forall w :: w in ws ==> Listens(env, svc, w.key, w.value)
  }

  lemma ListenBoth(env: Env, svc: Service, a: seq<Write>, b: seq<Write>)
    requires AllListen(env, svc, a) && AllListen(env, svc, b)
    ensures AllListen(env, svc, a + b)
  {
  }

  lemma ListenOne(env: Env, svc: Service, w: Write)
    requires Listens(env, svc, w.key, w.value)
    ensures AllListen(env, svc, [w])
  {
  }

  lemma ListenTwo(env: Env, svc: Service, w: Write, w': Write)
    requires Listens(env, svc, w.key, w.value) && Listens(env, svc, w'.key, w'.value)
    ensures AllListen(env, svc, [w, w'])
  {
  }

  lemma ListenNone(env: Env, svc: Service)
    ensures AllListen(env, svc, [])
  {
  }

  // ---- Services ----

  lemma {:induction false} HTTPServiceListens(env: Env, t: Topo, svc: Service, scheme: string,
          middlewares: seq<MiddlewareKey>, i: nat)
    requires i <= |svc.ports|
    ensures AllListen(env, svc, HTTPServiceWrites(env, t, svc, scheme, middlewares, i))
    ensures forall k :: i <= k < |svc.ports| && HTTPEntryPoint(env, k).Some? ==>
              HTTPRouter(PortRouter(svc.OwnKey(), svc.ports[k].port))
              in WrittenKeys(HTTPServiceWrites(env, t, svc, scheme, middlewares, i))
    decreases |svc.ports| - i
  {
    hide AllListen, PodServers, ServiceRule, Priority, HTTPEntryPoint, WrittenKeys;
    ListenNone(env, svc);
    if i < |svc.ports| {
      var rest := HTTPServiceWrites(env, t, svc, scheme, middlewares, i + 1);
      HTTPServiceListens(env, t, svc, scheme, middlewares, i + 1);
      if HTTPEntryPoint(env, i).Some? {
        var sp := svc.ports[i];
        var w := Write(HTTPService(PortService(svc.OwnKey(), sp.port)),
                       Balancer(PodServers(env, t, svc.pods, scheme, sp), true));
        var w' := Write(HTTPRouter(PortRouter(svc.OwnKey(), sp.port)),
                        MakeRouter(ServiceRule(svc), HTTPEntryPoint(env, i).value, middlewares,
                                   PortService(svc.OwnKey(), sp.port), SERVICE_TIER));
        ListenTwo(env, svc, w, w');
        ListenBoth(env, svc, [w, w'], rest);
        WrittenConcat([w, w'], rest);
        KeysOfTwo(w, w');
      } else {
        assert HTTPServiceWrites(env, t, svc, scheme, middlewares, i) == rest;
      }
    }
  }

  lemma KeysOfTwo(w: Write, w': Write)
    ensures WrittenKeys([w, w']) == {w.key, w'.key} && WrittenKeys([w]) == {w.key}
  {
    assert w in [w, w'] && w' in [w, w'] && w in [w];
  }

  lemma {:induction false} BlockAllListens(env: Env, svc: Service, i: nat)
    requires i <= |svc.ports|
    ensures AllListen(env, svc, BlockAllWrites(env, svc, i))
    ensures forall k :: i <= k < |svc.ports| && HTTPEntryPoint(env, k).Some? ==>
              HTTPRouter(PortRouter(svc.OwnKey(), svc.ports[k].port)) in WrittenKeys(BlockAllWrites(env, svc, i))
    decreases |svc.ports| - i
  {
    hide AllListen, ServiceRule, HTTPEntryPoint, WrittenKeys;
    ListenNone(env, svc);
    if i < |svc.ports| {
      var rest := BlockAllWrites(env, svc, i + 1);
      BlockAllListens(env, svc, i + 1);
      if HTTPEntryPoint(env, i).Some? {
        var w := Write(HTTPRouter(PortRouter(svc.OwnKey(), svc.ports[i].port)),
                       Router(ServiceRule(svc), [HTTPEntryPoint(env, i).value], [BlockAllMiddleware], BlockAllService,
                              BLOCK_ALL_PRIORITY));
        ListenOne(env, svc, w);
        ListenBoth(env, svc, [w], rest);
        WrittenConcat([w], rest);
        KeysOfTwo(w, w);
      } else {
        assert BlockAllWrites(env, svc, i) == rest;
      }
    }
  }

  lemma {:induction false} StreamServiceListens(env: Env, t: Topo, svc: Service, transport: Transport, i: nat)
    requires i <= |svc.ports|
    ensures AllListen(env, svc, StreamServiceWrites(env, t, svc, transport, i))
    ensures forall k :: i <= k < |svc.ports| && StreamEntryPoint(env, svc, transport, svc.ports[k].port).Some? ==>
              StreamRouter(transport,
                           PortService(svc.OwnKey(), svc.ports[k].port)) in WrittenKeys(StreamServiceWrites(env, t, svc,
                               transport, i))
    decreases |svc.ports| - i
  {
    hide AllListen, PodServers, StreamEntryPoint, WrittenKeys;
    ListenNone(env, svc);
    if i < |svc.ports| {
      var rest := StreamServiceWrites(env, t, svc, transport, i + 1);
      StreamServiceListens(env, t, svc, transport, i + 1);
      var sp := svc.ports[i];
      if StreamEntryPoint(env, svc, transport, sp.port).Some? {
        var key := PortService(svc.OwnKey(), sp.port);
        var w, w' := Write(StreamService(transport, key), Balancer(PodServers(env, t, svc.pods, "", sp), false)),
                     Write(StreamRouter(transport, key),
                           StreamRoute([StreamEntryPoint(env, svc, transport, sp.port).value], key));
        ListenTwo(env, svc, w, w');
        ListenBoth(env, svc, [w, w'], rest);
        WrittenConcat([w, w'], rest);
        KeysOfTwo(w, w');
      } else {
        assert StreamServiceWrites(env, t, svc, transport, i) == rest;
      }
    }
  }

  // ---- Targets ----

  /** The HTTP writes of a target contain no router of the kinds in question. */
  lemma {:induction false} HTTPTargetPortsListen(env: Env, t: Topo, tt: Target, svc: Service, scheme: string,
          middlewares: seq<MiddlewareKey>, i: nat, rule: Rule)
    requires i <= |tt.destination.ports|
    ensures AllListen(env, svc, HTTPTargetPortsWrites(env, t, tt, svc, scheme, middlewares, i, rule))
    decreases |tt.destination.ports| - i
  {
    hide PodServers, Priority, IndirectRule, Addresses;
    if i < |tt.destination.ports| {
      HTTPTargetPortsListen(env, t, tt, svc, scheme, middlewares, i + 1, rule);
      HTTPTargetPortsListen(env, t, tt, svc, scheme, middlewares, i + 1, IndirectRule(svc, tt.rules));
    }
  }

  lemma {:induction false} TCPTargetListens(env: Env, t: Topo, tt: Target, svc: Service, i: nat)
    requires i <= |tt.destination.ports|
    ensures AllListen(env, svc, TCPTargetWrites(env, t, tt, svc, i))
    decreases |tt.destination.ports| - i
  {
    hide AllListen, PodServers, StreamEntryPoint;
    ListenNone(env, svc);
    if i < |tt.destination.ports| {
      TCPTargetListens(env, t, tt, svc, i + 1);
      var sp := tt.destination.ports[i];
      if StreamEntryPoint(env, svc, OverTCP, sp.port).Some? {
        var key := PortService(svc.OwnKey(), sp.port);
        var w, w' := Write(StreamService(OverTCP, key),
                           Balancer(PodServers(env, t, tt.destination.pods, "", sp), false)),
                     Write(StreamRouter(OverTCP, key),
                           StreamRoute([StreamEntryPoint(env, svc, OverTCP, sp.port).value], key));
        ListenTwo(env, svc, w, w');
        ListenBoth(env, svc, [w, w'], TCPTargetWrites(env, t, tt, svc, i + 1));
      } else {
        assert TCPTargetWrites(env, t, tt, svc, i) == TCPTargetWrites(env, t, tt, svc, i + 1);
      }
    }
  }

  lemma {:induction false} TargetsListen(env: Env, t: Topo, s: Key, tks: seq<TargetKey>, scheme: string,
          tt: TrafficType, middlewares: seq<MiddlewareKey>)
    requires Ready(t) && s in t.services && forall tk :: tk in tks ==> tk in t.services[s].trafficTargets
    ensures AllListen(env, t.services[s], TargetsWrites(env, t, tks, scheme, tt, middlewares))
  {
    hide AllListen, HTTPTargetPortsWrites, TCPTargetWrites, HasTCPRoute, DirectRule, Addresses;
    var svc := t.services[s];
    ListenNone(env, svc);
    if tks != [] {
      TargetsListen(env, t, s, tks[1..], scheme, tt, middlewares);
      var target := t.targets[tks[0]];
      assert target.service == s;
      if tt == HTTP {
        var w := Write(HTTPMiddleware(TargetDirectWhitelist(s, target.name)), TargetWhitelist(t, target, None));
        HTTPTargetPortsListen(env, t, target, svc, scheme, middlewares, 0, DirectRule(svc, target.rules));
        ListenOne(env, svc, w);
        ListenBoth(env, svc, [w],
                   HTTPTargetPortsWrites(env, t, target, svc, scheme, middlewares, 0, DirectRule(svc, target.rules)));
      } else if tt == TCPType {
        TCPTargetListens(env, t, target, svc, 0);
      }
      ListenBoth(env, svc, TargetWrites(env, t, tks[0], scheme, tt, middlewares),
                 TargetsWrites(env, t, tks[1..], scheme, tt, middlewares));
    }
  }

  // ---- Splits ----

  predicate NoRouters(ws: seq<Write>) {
    forall i :: 0 <= i < |ws| ==> ws[i].key.HTTPService? || ws[i].key.StreamService?
  }

  lemma OnlyServicesListen(env: Env, svc: Service, ws: seq<Write>)
    requires NoRouters(ws)
    ensures AllListen(env, svc, ws)
  {
  }

  lemma {:induction false} BackendsAreServices(t: Topo, ts: Split, scheme: string, sp: ServicePort, bs: seq<Backend>)
    ensures NoRouters(HTTPBackendWrites(t, ts, scheme, sp.port, bs))
    ensures forall transport :: NoRouters(StreamBackendWrites(ts, transport, sp, bs))
  {
    if bs != [] {
      BackendsAreServices(t, ts, scheme, sp, bs[1..]);
    }
  }

  lemma SplitPortListens(env: Env, t: Topo, ts: Split, svc: Service, middlewares: seq<MiddlewareKey>, i: nat,
          rule: Rule)
    requires i < |svc.ports| && HTTPEntryPoint(env, i).Some?
    ensures AllListen(env, svc,
                      HTTPSplitPortWrites(env, t, ts, svc, middlewares, svc.ports[i], HTTPEntryPoint(env, i).value,
                                          rule))
  {
    hide Priority, Addresses, IndirectRule, Children;
    assert OnHTTP(env, svc, svc.ports[i].port, [HTTPEntryPoint(env, i).value]);
  }

  lemma {:induction false} HTTPSplitPortsListen(env: Env, t: Topo, ts: Split, svc: Service, scheme: string,
          middlewares: seq<MiddlewareKey>, i: nat, rule: Rule)
    requires i <= |svc.ports|
    ensures AllListen(env, svc, HTTPSplitPortsWrites(env, t, ts, svc, scheme, middlewares, i, rule))
    decreases |svc.ports| - i
  {
    hide AllListen, NoRouters, HTTPBackendWrites, HTTPSplitPortWrites, HTTPEntryPoint, IndirectRule;
    ListenNone(env, svc);
    if i < |svc.ports| {
      var backends := HTTPBackendWrites(t, ts, scheme, svc.ports[i].port, ts.backends);
      BackendsAreServices(t, ts, scheme, svc.ports[i], ts.backends);
      OnlyServicesListen(env, svc, backends);
      if !BackendsKnown(t, ts.backends) || HTTPEntryPoint(env, i).None? {
        var rest := HTTPSplitPortsWrites(env, t, ts, svc, scheme, middlewares, i + 1, rule);
        HTTPSplitPortsListen(env, t, ts, svc, scheme, middlewares, i + 1, rule);
        ListenBoth(env, svc, backends, rest);
      } else {
        var rule' := if svc.backendOf == [] || !env.acl then rule else IndirectRule(svc, ts.rules);
        var here := HTTPSplitPortWrites(env, t, ts, svc, middlewares, svc.ports[i], HTTPEntryPoint(env, i).value, rule);
        var rest := HTTPSplitPortsWrites(env, t, ts, svc, scheme, middlewares, i + 1, rule');
        SplitPortListens(env, t, ts, svc, middlewares, i, rule);
        HTTPSplitPortsListen(env, t, ts, svc, scheme, middlewares, i + 1, rule');
        ListenBoth(env, svc, here, rest);
        ListenBoth(env, svc, backends, here + rest);
      }
    }
  }

  lemma {:induction false} StreamSplitListens(env: Env, t: Topo, ts: Split, svc: Service, transport: Transport, i: nat)
    requires i <= |svc.ports|
    ensures AllListen(env, svc, StreamSplitWrites(env, ts, svc, transport, i))
    decreases |svc.ports| - i
  {
    hide AllListen, NoRouters, StreamBackendWrites, StreamEntryPoint, Children;
    ListenNone(env, svc);
    if i < |svc.ports| {
      StreamSplitListens(env, t, ts, svc, transport, i + 1);
      var sp := svc.ports[i];
      if StreamEntryPoint(env, svc, transport, sp.port).Some? {
        var key, backends := PortService(svc.OwnKey(), sp.port), StreamBackendWrites(ts, transport, sp, ts.backends);
        var w, w' := Write(StreamService(transport, key), Weighted(Children(ts, sp.port, ts.backends))),
                     Write(StreamRouter(transport, key),
                           StreamRoute([StreamEntryPoint(env, svc, transport, sp.port).value], key));
        BackendsAreServices(t, ts, "", sp, ts.backends);
        OnlyServicesListen(env, svc, backends);
        ListenTwo(env, svc, w, w');
        ListenBoth(env, svc, backends, [w, w']);
        ListenBoth(env, svc, backends + [w, w'], StreamSplitWrites(env, ts, svc, transport, i + 1));
      } else {
        assert StreamSplitWrites(env, ts, svc, transport, i) == StreamSplitWrites(env, ts, svc, transport, i + 1);
      }
    }
  }

  lemma {:induction false} SplitsListen(env: Env, t: Topo, s: Key, ks: seq<Key>, scheme: string, tt: TrafficType,
          middlewares: seq<MiddlewareKey>)
    requires s in t.services && forall k :: k in ks ==> SplitReady(t, s, k)
    ensures AllListen(env, t.services[s], SplitsWrites(env, t, ks, scheme, tt, middlewares))
  {
    hide AllListen, HTTPSplitPortsWrites, StreamSplitWrites, DirectRule, Addresses;
    var svc := t.services[s];
    ListenNone(env, svc);
    if ks != [] {
      SplitsListen(env, t, s, ks[1..], scheme, tt, middlewares);
      assert SplitReady(t, s, ks[0]);
      var ts := t.splits[ks[0]];
      if tt == HTTP {
        var ports := HTTPSplitPortsWrites(env, t, ts, svc, scheme, middlewares, 0, DirectRule(svc, ts.rules));
        var w := Write(HTTPMiddleware(SplitDirectWhitelist(s, ts.name)), SplitWhitelist(t, ts, None));
        HTTPSplitPortsListen(env, t, ts, svc, scheme, middlewares, 0, DirectRule(svc, ts.rules));
        ListenOne(env, svc, w);
        ListenBoth(env, svc, if env.acl then [w] else [], ports);
      } else if tt == TCPType {
        StreamSplitListens(env, t, ts, svc, OverTCP, 0);
      } else if tt == UDPType {
        StreamSplitListens(env, t, ts, svc, OverUDP, 0);
      }
      ListenBoth(env, svc, SplitWrites(env, t, ks[0], scheme, tt, middlewares),
                 SplitsWrites(env, t, ks[1..], scheme, tt, middlewares));
    }
  }

  // ---- One service ----

  lemma {:induction false} AnnotationsListen(env: Env, svc: Service, ms: seq<(string, string)>)
    ensures AllListen(env, svc, AnnotationWrites(svc, ms))
  {
    if ms != [] {
      AnnotationsListen(env, svc, ms[1..]);
    }
  }

  lemma OwnListen(env: Env, t: Topo, s: Key, scheme: string, tt: TrafficType, middlewares: seq<MiddlewareKey>)
    requires Ready(t) && s in t.services
    ensures AllListen(env, t.services[s], OwnWrites(env, t, t.services[s], scheme, tt, middlewares))
  {
    hide AllListen, HTTPServiceWrites, StreamServiceWrites, BlockAllWrites, TargetsWrites, WrittenKeys;
    var svc := t.services[s];
    ListenNone(env, svc);
    if env.acl {
      BlockAllListens(env, svc, 0);
      TargetsListen(env, t, s, svc.trafficTargets, scheme, tt, middlewares);
      ListenBoth(env, svc, if tt == HTTP then BlockAllWrites(env, svc, 0)
      else [], TargetsWrites(env, t, svc.trafficTargets, scheme, tt, middlewares));
    } else {
      HTTPServiceListens(env, t, svc, scheme, middlewares, 0);
      StreamServiceListens(env, t, svc, OverTCP, 0);
      StreamServiceListens(env, t, svc, OverUDP, 0);
    }
  }

  /** All routers written for a service and its splits, original or overriding, listen where its ports are mapped. */
  lemma ServiceListens(env: Env, t: Topo, s: Key)
    requires Ready(t) && s in t.services
    ensures AllListen(env, t.services[s], ServiceWrites(env, t, t.services[s]))
  {
    hide AllListen, OwnWrites, SplitsWrites, AnnotationWrites, AnnotationKeys, SplitReady;
    var svc := t.services[s];
    ListenNone(env, svc);
    if Evaluable(svc) {
      var tt, scheme := svc.annotations.trafficType.value, svc.annotations.scheme.value;
      var keys := AnnotationKeys(svc, Asked(svc));
      var own, first := OwnWrites(env, t, svc, scheme, tt, keys), AnnotationWrites(svc, Asked(svc));
      AnnotationsListen(env, svc, Asked(svc));
      OwnListen(env, t, s, scheme, tt, keys);
      SplitsListen(env, t, s, svc.trafficSplits, scheme, tt, keys);
      ListenBoth(env, svc, first, own);
      ListenBoth(env, svc, first + own, if !env.acl && tt == Unknown then []
      else SplitsWrites(env, t, svc.trafficSplits, scheme, tt, keys));
    }
  }

  /** The router of a port, by traffic type. */
  function RouterOf(s: Key, tt: TrafficType, port: Int32): ConfKey {
    match tt
    case TCPType => StreamRouter(OverTCP, PortService(s, port))
    case UDPType => StreamRouter(OverUDP, PortService(s, port))
    case _ => HTTPRouter(PortRouter(s, port))
  }

  ghost predicate Mappable(env: Env, svc: Service, tt: TrafficType, k: nat)
    requires k < |svc.ports|
  {
    match tt
    case HTTP => HTTPEntryPoint(env, k).Some?
    case TCPType => StreamEntryPoint(env, svc, OverTCP, svc.ports[k].port).Some?
    case UDPType => StreamEntryPoint(env, svc, OverUDP, svc.ports[k].port).Some?
    case Unknown => false
  }

  /** Without ACL, each port with an entrypoint gets a router. */
  lemma OwnRouters(env: Env, t: Topo, svc: Service, scheme: string, tt: TrafficType, middlewares: seq<MiddlewareKey>,
          k: nat)
    requires !env.acl && k < |svc.ports| && Mappable(env, svc, tt, k)
    ensures RouterOf(svc.OwnKey(), tt, svc.ports[k].port)
            in WrittenKeys(OwnWrites(env, t, svc, scheme, tt, middlewares))
  {
    hide HTTPServiceWrites, StreamServiceWrites, AllListen, HTTPEntryPoint, StreamEntryPoint, WrittenKeys;
    HTTPServiceListens(env, t, svc, scheme, middlewares, 0);
    StreamServiceListens(env, t, svc, OverTCP, 0);
    StreamServiceListens(env, t, svc, OverUDP, 0);
  }

  lemma ServiceRouters(env: Env, t: Topo, svc: Service, k: nat)
    requires !env.acl && Evaluable(svc) && k < |svc.ports| && Mappable(env, svc, svc.annotations.trafficType.value, k)
    ensures RouterOf(svc.OwnKey(), svc.annotations.trafficType.value,
                     svc.ports[k].port) in WrittenKeys(ServiceWrites(env, t, svc))
  {
    hide OwnWrites, SplitsWrites, AnnotationWrites, AnnotationKeys, Mappable, RouterOf, WrittenKeys;
    var tt, scheme := svc.annotations.trafficType.value, svc.annotations.scheme.value;
    var keys := AnnotationKeys(svc, Asked(svc));
    var own, first := OwnWrites(env, t, svc, scheme, tt, keys), AnnotationWrites(svc, Asked(svc));
    OwnRouters(env, t, svc, scheme, tt, keys, k);
    WrittenConcat(first, own);
    WrittenConcat(first + own, if !env.acl && tt == Unknown then []
    else SplitsWrites(env, t, svc.trafficSplits, scheme, tt, keys));
  }

  /**
   In the configuration as a whole, a router of a service, or of a split on it, listens where the port of the
   service is mapped, whichever write came last.
   */
  lemma EntryListens(env: Env, t: Topo, conf: Conf, k: ConfKey)
    requires Ready(t) && ConfigOf(env, t, conf) && k in conf && OwnerOf(k).Some?
    ensures OwnerOf(k).value in t.services && Listens(env, t.services[OwnerOf(k).value], k, conf[k])
  {
    hide ServiceWrites, Ready, ConfigOf, Listens;
    EntryOrigin(env, t, conf, k);
    ServiceListens(env, t, OwnerOf(k).value);
    var w := Write(k, conf[k]);
    assert w in ServiceWrites(env, t, t.services[OwnerOf(k).value]);
    assert Listens(env, t.services[OwnerOf(k).value], w.key, w.value);
  }
}
