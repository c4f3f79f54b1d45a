/** Where the routers of a configuration send traffic. */
module Servers {
  import opened Basics
  import opened Topologies
  import opened Rules
  import opened RulePriority
  import opened ConfigWrites
  import opened ConfigTheorems
  import opened ConfigResult
  import opened LastWrites
  import opened Streams

  /** What traffic is sent to by the router with key k. */
  function Behind(conf: Conf, k: ConfKey): Option<ConfValue> {
    if k !in conf then None
    else
      match k
      case HTTPRouter(_) => if conf[k].Router? then Entry(conf, HTTPService(conf[k].target)) else None
      case StreamRouter(transport, _) =>
        if conf[k].StreamRoute? then Entry(conf, StreamService(transport, conf[k].target)) else None
      case _ => None
  }

  // ---- Ports of services with HTTP traffic ----

  /** The servers of a port: those written at its last place. */
  lemma {:induction false} LastServiceBalancer(env: Env, t: Topo, svc: Service, scheme: string,
          middlewares: seq<MiddlewareKey>, i: nat, port: Int32)
    requires i <= |svc.ports|
    ensures Last(HTTPServiceWrites(env, t, svc, scheme, middlewares, i),
                 HTTPService(PortService(svc.OwnKey(), port))) ==
            match LastPlace(env, svc.ports, port, i)
            case None => None
            case Some(j) => Some(Balancer(PodServers(env, t, svc.pods, scheme, svc.ports[j]), true))
    decreases |svc.ports| - i
  {
    hide PodServers, ServiceRule, Priority, HTTPEntryPoint;
    if i < |svc.ports| {
      var k := HTTPService(PortService(svc.OwnKey(), port));
      LastServiceBalancer(env, t, svc, scheme, middlewares, i + 1, port);
      var rest := HTTPServiceWrites(env, t, svc, scheme, middlewares, i + 1);
      if HTTPEntryPoint(env, i).Some? {
        var sp, entry := svc.ports[i], HTTPEntryPoint(env, i).value;
        var w := Write(HTTPService(PortService(svc.OwnKey(), sp.port)),
                       Balancer(PodServers(env, t, svc.pods, scheme, sp), true));
        var w' := Write(HTTPRouter(PortRouter(svc.OwnKey(), sp.port)),
                        MakeRouter(ServiceRule(svc), entry, middlewares, PortService(svc.OwnKey(), sp.port),
                                   SERVICE_TIER));
        LastConcat([w, w'], rest, k);
        LastTwo(w, w', k);
      } else {
        assert HTTPServiceWrites(env, t, svc, scheme, middlewares, i) == rest;
      }
    }
  }

  /** Without ACL, the service of a port holds the servers of the last place of the port. */
  lemma PortServiceIs(env: Env, t: Topo, conf: Conf, s: Key, port: Int32)
    requires Ready(t) && ConfigOf(env, t, conf) && s in t.services && ServesHTTP(t.services[s]) && !env.acl
    ensures var svc := t.services[s];
            Entry(conf, HTTPService(PortService(s, port))) ==
            match LastPlace(env, svc.ports, port, 0)
            case None => None
            case Some(j) =>
              Some(Balancer(PodServers(env, t, svc.pods, svc.annotations.scheme.value, svc.ports[j]), true))
  {
    hide ConfigOf, ServiceWrites, HTTPServiceWrites, BlockAllWrites, HTTPEntryPoint, PodServers, SplitReady;
    var svc := t.services[s];
    var k := HTTPService(PortService(s, port));
    ConfLast(env, t, conf, k);
    LastOfService(env, t, s, k);
    LastServiceBalancer(env, t, svc, svc.annotations.scheme.value, Middlewares(svc), 0, port);
  }

  // ---- Ports of services with TCP or UDP traffic ----

  /** The last place from i on at which the ports have the given number. */
  function LastNumber(ports: seq<ServicePort>, port: Int32, i: nat): (r: Option<nat>)
    requires i <= |ports|
    ensures r.Some? ==> i <= r.value < |ports| && ports[r.value].port == port
                        && forall j :: r.value < j < |ports| ==> ports[j].port != port
    ensures r.None? ==> forall j :: i <= j < |ports| ==> ports[j].port != port
    decreases |ports| - i
  {
    if i == |ports| then None
    else
      match LastNumber(ports, port, i + 1)
      case Some(j) => Some(j)
      case None => if ports[i].port == port then Some(i) else None
  }

  lemma {:induction false} LastStreamBalancer(env: Env, t: Topo, svc: Service, transport: Transport, i: nat,
          port: Int32)
    requires i <= |svc.ports|
    ensures Last(StreamServiceWrites(env, t, svc, transport, i),
                 StreamService(transport, PortService(svc.OwnKey(), port))) ==
            if StreamEntryPoint(env, svc, transport, port).None? then None
            else
              match LastNumber(svc.ports, port, i)
              case None => None
              case Some(j) => Some(Balancer(PodServers(env, t, svc.pods, "", svc.ports[j]), false))
    decreases |svc.ports| - i
  {
    hide PodServers, StreamEntryPoint;
    var k := StreamService(transport, PortService(svc.OwnKey(), port));
    if i < |svc.ports| {
      var sp := svc.ports[i];
      var rest := StreamServiceWrites(env, t, svc, transport, i + 1);
      LastStreamBalancer(env, t, svc, transport, i + 1, port);
      if StreamEntryPoint(env, svc, transport, sp.port).Some? {
        var key := PortService(svc.OwnKey(), sp.port);
        var w := Write(StreamService(transport, key), Balancer(PodServers(env, t, svc.pods, "", sp), false));
        var w' := Write(StreamRouter(transport, key),
                        StreamRoute([StreamEntryPoint(env, svc, transport, sp.port).value], key));
        LastConcat([w, w'], rest, k);
        LastTwo(w, w', k);
      } else {
        assert StreamServiceWrites(env, t, svc, transport, i) == rest;
      }
    }
  }

  lemma {:induction false} BackendsWriteNoPort(ts: Split, transport: Transport, sp: ServicePort, bs: seq<Backend>,
          k: ConfKey)
    requires k.StreamService? && k.streamService.PortService?
    ensures Last(StreamBackendWrites(ts, transport, sp, bs), k) == None
  {
    if bs != [] {
      var w := Write(StreamService(transport, BackendKey(ts, sp.port, bs[0])),
                     Balancer([MeshServer("", bs[0].service, sp.targetPort)], false));
      BackendsWriteNoPort(ts, transport, sp, bs[1..], k);
      LastOne(w, k);
      LastConcat([w], StreamBackendWrites(ts, transport, sp, bs[1..]), k);
    }
  }

  /** A split overrides the service of each mapped port. */
  lemma {:induction false} LastSplitService(env: Env, ts: Split, svc: Service, transport: Transport, i: nat,
          port: Int32)
    requires i <= |svc.ports|
    ensures Last(StreamSplitWrites(env, ts, svc, transport, i),
                 StreamService(transport, PortService(svc.OwnKey(), port))) ==
            if StreamEntryPoint(env, svc, transport, port).None? || LastNumber(svc.ports, port, i).None? then None
            else Some(Weighted(Children(ts, port, ts.backends)))
    decreases |svc.ports| - i
  {
    hide StreamEntryPoint, Children, StreamBackendWrites;
    var k := StreamService(transport, PortService(svc.OwnKey(), port));
    if i < |svc.ports| {
      var sp := svc.ports[i];
      var rest := StreamSplitWrites(env, ts, svc, transport, i + 1);
      LastSplitService(env, ts, svc, transport, i + 1, port);
      if StreamEntryPoint(env, svc, transport, sp.port).Some? {
        var key, backends := PortService(svc.OwnKey(), sp.port), StreamBackendWrites(ts, transport, sp, ts.backends);
        var w := Write(StreamService(transport, key), Weighted(Children(ts, sp.port, ts.backends)));
        var w' := Write(StreamRouter(transport, key),
                        StreamRoute([StreamEntryPoint(env, svc, transport, sp.port).value], key));
        BackendsWriteNoPort(ts, transport, sp, ts.backends, k);
        LastTwo(w, w', k);
        LastConcat(backends, [w, w'], k);
        LastConcat(backends + [w, w'], rest, k);
      } else {
        assert StreamSplitWrites(env, ts, svc, transport, i) == rest;
      }
    }
  }

  /** What the splits of a service make of the service of a port: the last one counts. */
  ghost function FromSplits(env: Env, t: Topo, svc: Service, ks: seq<Key>, transport: Transport,
          port: Int32): Option<ConfValue>
  {
    if ks == [] || ks[|ks| - 1] !in t.splits || StreamEntryPoint(env, svc, transport, port).None?
       || LastNumber(svc.ports, port, 0).None? then None
    else
      var ts := t.splits[ks[|ks| - 1]];
      Some(Weighted(Children(ts, port, ts.backends)))
  }

  lemma {:induction false} LastOfSplits(env: Env, t: Topo, s: Key, ks: seq<Key>, scheme: string, transport: Transport,
          port: Int32)
    requires s in t.services && t.services[s].OwnKey() == s && forall k :: k in ks ==> SplitReady(t, s, k)
    ensures Last(SplitsWrites(env, t, ks, scheme, TypeOf(transport), []),
                 StreamService(transport, PortService(s, port))) ==
            FromSplits(env, t, t.services[s], ks, transport, port)
  {
    hide StreamEntryPoint, StreamSplitWrites, Children;
    if ks != [] {
      assert SplitReady(t, s, ks[0]);
      assert SplitReady(t, s, ks[|ks| - 1]);
      assert ks[1..] != [] ==> ks[1..][|ks[1..]| - 1] == ks[|ks| - 1];
      var svc, ts, k := t.services[s], t.splits[ks[0]], StreamService(transport, PortService(s, port));
      LastOfSplits(env, t, s, ks[1..], scheme, transport, port);
      LastSplitService(env, ts, svc, transport, 0, port);
      LastConcat(SplitWrites(env, t, ks[0], scheme, TypeOf(transport), []),
                 SplitsWrites(env, t, ks[1..], scheme, TypeOf(transport), []), k);
    }
  }

  /**
   Without ACL, the service of a mapped TCP or UDP port holds the servers of the last port of that number, whatever
   its protocol. When a split sits on the service, it spreads traffic over the backends of the last split instead.
   */
  lemma StreamServiceIs(env: Env, t: Topo, conf: Conf, s: Key, transport: Transport, port: Int32)
    requires Ready(t) && ConfigOf(env, t, conf) && s in t.services && !env.acl
             && t.services[s].annotations.trafficType == Some(TypeOf(transport))
             && t.services[s].annotations.scheme.Some?
    ensures var svc := t.services[s];
            Entry(conf, StreamService(transport, PortService(s, port))) ==
            if StreamEntryPoint(env, svc, transport, port).None? then None
            else
              match LastNumber(svc.ports, port, 0)
              case None => None
              case Some(j) =>
                if svc.trafficSplits == [] then Some(Balancer(PodServers(env, t, svc.pods, "", svc.ports[j]), false))
                else FromSplits(env, t, svc, svc.trafficSplits, transport, port)
  {
    hide ConfigOf, StreamEntryPoint, SplitsWrites, StreamServiceWrites, PodServers;
    var svc, k := t.services[s], StreamService(transport, PortService(s, port));
    var tt, scheme := TypeOf(transport), svc.annotations.scheme.value;
    ConfLast(env, t, conf, k);
    var own := StreamServiceWrites(env, t, svc, transport, 0);
    var splits := SplitsWrites(env, t, svc.trafficSplits, scheme, tt, []);
    assert AnnotationWrites(svc, []) == [] && AnnotationKeys(svc, []) == [];
    assert ServiceWrites(env, t, svc) == own + splits;
    LastStreamBalancer(env, t, svc, transport, 0, port);
    LastOfSplits(env, t, s, svc.trafficSplits, scheme, transport, port);
    LastConcat(own, splits, k);
    assert svc.trafficSplits != [] ==> SplitReady(t, s, svc.trafficSplits[|svc.trafficSplits| - 1]);
  }

  // ---- Which servers two ports have in common ----

  /** Pod p can be sent to on port a exactly where it can on port b. */
  predicate ResolvedAlike(env: Env, t: Topo, p: Key, a: ServicePort, b: ServicePort) {
    p in t.pods ==> env.resolve(a, t.pods[p]) == env.resolve(b, t.pods[p])
  }

  ghost predicate DistinctAddresses(t: Topo, pods: seq<Key>) {
    forall i, j :: 0 <= i < j < |pods| && pods[i] in t.pods && pods[j] in t.pods ==>
      t.pods[pods[i]].ip != t.pods[pods[j]].ip
  }

  /** Two ports have the same servers when all pods resolve them alike; and only then, if addresses are distinct. */
  lemma {:induction false} SameServersExactly(env: Env, t: Topo, pods: seq<Key>, scheme: string, a: ServicePort,
          b: ServicePort)
    ensures (forall i :: 0 <= i < |pods| ==> ResolvedAlike(env, t, pods[i], a, b)) ==>
              PodServers(env, t, pods, scheme, a) == PodServers(env, t, pods, scheme, b)
    ensures DistinctAddresses(t, pods) && PodServers(env, t, pods, scheme, a) == PodServers(env, t, pods, scheme, b) ==>
              forall i :: 0 <= i < |pods| ==> ResolvedAlike(env, t, pods[i], a, b)
  {
    if pods != [] {
      var rest := pods[1..];
      assert forall i :: 0 < i < |pods| ==> pods[i] == rest[i - 1];
      assert DistinctAddresses(t, pods) ==> DistinctAddresses(t, rest);
      SameServersExactly(env, t, rest, scheme, a, b);
      if DistinctAddresses(t, pods) && PodServers(env, t, pods, scheme, a) == PodServers(env, t, pods, scheme, b) {
        FirstAlike(env, t, pods, scheme, a, b);
      }
    }
  }

  lemma FirstAlike(env: Env, t: Topo, pods: seq<Key>, scheme: string, a: ServicePort, b: ServicePort)
    requires pods != [] && DistinctAddresses(t, pods)
             && PodServers(env, t, pods, scheme, a) == PodServers(env, t, pods, scheme, b)
    ensures ResolvedAlike(env, t, pods[0], a, b)
    ensures PodServers(env, t, pods[1..], scheme, a) == PodServers(env, t, pods[1..], scheme, b)
  {
    var first, all := pods[0], PodServers(env, t, pods, scheme, a);
    var as', bs := PodServers(env, t, pods[1..], scheme, a), PodServers(env, t, pods[1..], scheme, b);
    if first in t.pods {
      FirstElsewhere(env, t, pods, scheme, a);
      FirstElsewhere(env, t, pods, scheme, b);
      var ra, rb := env.resolve(a, t.pods[first]), env.resolve(b, t.pods[first]);
      assert all == (if ra.None? then [] else [PodServer(scheme, t.pods[first].ip, ra.value)]) + as';
      assert all == (if rb.None? then [] else [PodServer(scheme, t.pods[first].ip, rb.value)]) + bs;
      assert ra.Some? || rb.Some? ==> all[0] in all;
      assert ra == rb;
      assert as' == if ra.None? then all else all[1..];
      assert bs == if rb.None? then all else all[1..];
    } else {
      assert all == [] + as' == as' && all == [] + bs == bs;
    }
  }

  /** The address of the first pod is not that of a server of another one. */
  lemma FirstElsewhere(env: Env, t: Topo, pods: seq<Key>, scheme: string, sp: ServicePort)
    requires pods != [] && pods[0] in t.pods && DistinctAddresses(t, pods)
    ensures forall server :: server in PodServers(env, t, pods[1..], scheme, sp) ==>
              server.PodServer? && server.ip != t.pods[pods[0]].ip
  {
    OthersElsewhere(env, t, pods[1..], scheme, sp);
    assert forall i :: 0 <= i < |pods[1..]| ==> pods[1..][i] == pods[i + 1];
  }

  lemma {:induction false} OthersElsewhere(env: Env, t: Topo, pods: seq<Key>, scheme: string, sp: ServicePort)
    ensures forall server :: server in PodServers(env, t, pods, scheme, sp) ==>
              server.PodServer? && exists i :: 0 <= i < |pods| && pods[i] in t.pods && t.pods[pods[i]].ip == server.ip
  {
    if pods != [] {
      assert forall i :: 0 < i < |pods| ==> pods[i] == pods[1..][i - 1];
      OthersElsewhere(env, t, pods[1..], scheme, sp);
      forall server | server in PodServers(env, t, pods[1..], scheme, sp)
        ensures exists i :: 0 <= i < |pods| && pods[i] in t.pods && t.pods[pods[i]].ip == server.ip
      {
        var i :| 0 <= i < |pods[1..]| && pods[1..][i] in t.pods && t.pods[pods[1..][i]].ip == server.ip;
        assert pods[i + 1] == pods[1..][i];
      }
    }
  }
}
