/** Which TCP and UDP routers there are with ACL on. */
module Streams {
  import opened Basics
  import opened Topologies
  import opened Rules
  import opened RulePriority
  import opened ConfigWrites
  import opened ConfigTheorems
  import opened ConfigResult
  import opened LastWrites

  predicate HasNumber(ports: seq<ServicePort>, port: Int32) {
    exists i :: 0 <= i < |ports| && ports[i].port == port
  }

  /** Some write goes to key k. */
  predicate Writes(ws: seq<Write>, k: ConfKey) {
    Last(ws, k).Some?
  }

  lemma WritesConcat(a: seq<Write>, b: seq<Write>, k: ConfKey)
    ensures Writes(a + b, k) <==> Writes(a, k) || Writes(b, k)
  {
    LastConcat(a, b, k);
  }

  lemma {:induction false} BackendsWriteNoRouter(ts: Split, transport: Transport, sp: ServicePort, bs: seq<Backend>,
          k: ConfKey)
    requires k.StreamRouter?
    ensures !Writes(StreamBackendWrites(ts, transport, sp, bs), k)
  {
    if bs != [] {
      var w := Write(StreamService(transport, BackendKey(ts, sp.port, bs[0])),
                     Balancer([MeshServer("", bs[0].service, sp.targetPort)], false));
      BackendsWriteNoRouter(ts, transport, sp, bs[1..], k);
      LastOne(w, k);
      WritesConcat([w], StreamBackendWrites(ts, transport, sp, bs[1..]), k);
    }
  }

  /** A split writes a router for each mapped port of its service. */
  lemma {:induction false} SplitWritesRouter(env: Env, ts: Split, svc: Service, transport: Transport, i: nat,
          kind: Transport, port: Int32)
    requires i <= |svc.ports|
    ensures Writes(StreamSplitWrites(env, ts, svc, transport, i),
                   StreamRouter(kind, PortService(svc.OwnKey(), port))) <==>
            kind == transport && StreamEntryPoint(env, svc, transport, port).Some? && HasNumber(svc.ports[i..], port)
    decreases |svc.ports| - i
  {
    hide StreamEntryPoint, Children, StreamBackendWrites;
    var k := StreamRouter(kind, PortService(svc.OwnKey(), port));
    if i < |svc.ports| {
      var sp := svc.ports[i];
      var rest := StreamSplitWrites(env, ts, svc, transport, i + 1);
      SplitWritesRouter(env, ts, svc, transport, i + 1, kind, port);
      NumberStep(svc.ports, i, port);
      if StreamEntryPoint(env, svc, transport, sp.port).Some? {
        var key, backends := PortService(svc.OwnKey(), sp.port), StreamBackendWrites(ts, transport, sp, ts.backends);
        var w := Write(StreamService(transport, key), Weighted(Children(ts, sp.port, ts.backends)));
        var w' := Write(StreamRouter(transport, key),
                        StreamRoute([StreamEntryPoint(env, svc, transport, sp.port).value], key));
        BackendsWriteNoRouter(ts, transport, sp, ts.backends, k);
        LastTwo(w, w', k);
        WritesConcat(backends, [w, w'], k);
        WritesConcat(backends + [w, w'], rest, k);
      } else {
        assert StreamSplitWrites(env, ts, svc, transport, i) == rest;
      }
    }
  }

  lemma NumberStep(ports: seq<ServicePort>, i: nat, port: Int32)
    requires i < |ports|
    ensures HasNumber(ports[i..], port) <==> ports[i].port == port || HasNumber(ports[i + 1..], port)
  {
    assert forall j :: 0 < j < |ports[i..]| ==> ports[i..][j] == ports[i + 1..][j - 1];
    assert ports[i..][0] == ports[i];
    if HasNumber(ports[i + 1..], port) {
      var j :| 0 <= j < |ports[i + 1..]| && ports[i + 1..][j].port == port;
      assert ports[i..][j + 1].port == port;
    }
  }

  lemma {:induction false} TargetWritesRouter(env: Env, t: Topo, tt: Target, svc: Service, i: nat, kind: Transport,
          port: Int32)
    requires i <= |tt.destination.ports|
    ensures Writes(TCPTargetWrites(env, t, tt, svc, i), StreamRouter(kind, PortService(svc.OwnKey(), port))) <==>
            kind == OverTCP && StreamEntryPoint(env, svc, OverTCP, port).Some?
            && HasNumber(tt.destination.ports[i..], port)
    decreases |tt.destination.ports| - i
  {
    hide StreamEntryPoint, PodServers;
    var k := StreamRouter(kind, PortService(svc.OwnKey(), port));
    if i < |tt.destination.ports| {
      var sp := tt.destination.ports[i];
      var rest := TCPTargetWrites(env, t, tt, svc, i + 1);
      TargetWritesRouter(env, t, tt, svc, i + 1, kind, port);
      NumberStep(tt.destination.ports, i, port);
      if StreamEntryPoint(env, svc, OverTCP, sp.port).Some? {
        var key := PortService(svc.OwnKey(), sp.port);
        var w := Write(StreamService(OverTCP, key), Balancer(PodServers(env, t, tt.destination.pods, "", sp), false));
        var w' := Write(StreamRouter(OverTCP, key),
                        StreamRoute([StreamEntryPoint(env, svc, OverTCP, sp.port).value], key));
        LastTwo(w, w', k);
        WritesConcat([w, w'], rest, k);
      } else {
        assert TCPTargetWrites(env, t, tt, svc, i) == rest;
      }
    }
  }

  /** The traffic type that goes over a transport. */
  function TypeOf(transport: Transport): TrafficType {
    match transport
    case OverTCP => TCPType
    case OverUDP => UDPType
  }

  /** Some of the given targets allows TCP traffic to the port. */
  predicate Allowed(t: Topo, tks: seq<TargetKey>, port: Int32) {
    exists i :: 0 <= i < |tks| && AllowsTCP(t, tks[i], port)
  }

  predicate AllowsTCP(t: Topo, tk: TargetKey, port: Int32) {
    tk in t.targets && TCPSpec in t.targets[tk].rules && HasNumber(t.targets[tk].destination.ports, port)
  }

  lemma TCPRouteIs(tt: Target)
    ensures HasTCPRoute(tt) <==> TCPSpec in tt.rules
  {
    if TCPSpec in tt.rules {
      var i :| 0 <= i < |tt.rules| && tt.rules[i] == TCPSpec;
      assert tt.rules[i].TCPSpec?;
    }
  }

  lemma {:induction false} TargetsWriteRouter(env: Env, t: Topo, s: Key, tks: seq<TargetKey>, scheme: string,
          tt: TrafficType, transport: Transport, port: Int32)
    requires Ready(t) && s in t.services && forall tk :: tk in tks ==> tk in t.services[s].trafficTargets
    ensures Writes(TargetsWrites(env, t, tks, scheme, tt, []), StreamRouter(transport, PortService(s, port))) <==>
            && tt == TCPType && transport == OverTCP && StreamEntryPoint(env, t.services[s], OverTCP, port).Some?
            && Allowed(t, tks, port)
  {
    hide StreamEntryPoint, TCPTargetWrites, HTTPTargetWrites, HasTCPRoute, HasNumber;
    if tks != [] {
      var svc, target, k := t.services[s], t.targets[tks[0]], StreamRouter(transport, PortService(s, port));
      TargetsWriteRouter(env, t, s, tks[1..], scheme, tt, transport, port);
      assert Allowed(t, tks, port) <==> AllowsTCP(t, tks[0], port) || Allowed(t, tks[1..], port) by {
        AllowedStep(t, tks, port);
      }
      WritesConcat(TargetWrites(env, t, tks[0], scheme, tt, []), TargetsWrites(env, t, tks[1..], scheme, tt, []), k);
      TargetWritesRouter(env, t, target, svc, 0, transport, port);
      TCPRouteIs(target);
      assert target.destination.ports[0..] == target.destination.ports && svc.OwnKey() == s;
      if tt == HTTP {
        TargetGroup(env, t, tks[0], scheme, tt, []);
        OtherGroup(TargetWrites(env, t, tks[0], scheme, tt, []), OfTarget(target.name), k);
      }
    }
  }

  lemma AllowedStep(t: Topo, tks: seq<TargetKey>, port: Int32)
    requires tks != []
    ensures Allowed(t, tks, port) <==> AllowsTCP(t, tks[0], port) || Allowed(t, tks[1..], port)
  {
    hide AllowsTCP;
    assert forall i :: 0 < i < |tks| ==> tks[i] == tks[1..][i - 1];
    if Allowed(t, tks[1..], port) {
      var j :| 0 <= j < |tks[1..]| && AllowsTCP(t, tks[1..][j], port);
      assert AllowsTCP(t, tks[j + 1], port);
    }
  }

  lemma {:induction false} SplitsWriteRouter(env: Env, t: Topo, s: Key, ks: seq<Key>, scheme: string, tt: TrafficType,
          transport: Transport, port: Int32)
    requires s in t.services && t.services[s].OwnKey() == s && forall k :: k in ks ==> SplitReady(t, s, k)
    ensures Writes(SplitsWrites(env, t, ks, scheme, tt, []), StreamRouter(transport, PortService(s, port))) <==>
            tt == TypeOf(transport) && StreamEntryPoint(env, t.services[s], transport, port).Some?
            && HasNumber(t.services[s].ports, port) && ks != []
  {
    hide StreamEntryPoint, StreamSplitWrites, HTTPSplitWrites, HasNumber;
    if ks != [] {
      assert SplitReady(t, s, ks[0]);
      var svc, ts, k := t.services[s], t.splits[ks[0]], StreamRouter(transport, PortService(s, port));
      SplitsWriteRouter(env, t, s, ks[1..], scheme, tt, transport, port);
      WritesConcat(SplitWrites(env, t, ks[0], scheme, tt, []), SplitsWrites(env, t, ks[1..], scheme, tt, []), k);
      SplitWritesRouter(env, ts, svc, OverTCP, 0, transport, port);
      SplitWritesRouter(env, ts, svc, OverUDP, 0, transport, port);
      assert svc.ports[0..] == svc.ports;
      if tt == HTTP {
        SplitGroup(env, t, ks[0], scheme, tt, []);
        OtherGroup(SplitWrites(env, t, ks[0], scheme, tt, []), OfSplit(ts.name), k);
      }
    }
  }

  /**
   With ACL, a TCP or UDP router of a service exists exactly when its port is mapped and, for TCP, some attached
   target with a TCP route allows traffic to the port, or the port is one of the service and some split sits on
   it. So a split lets everybody through: no target has a say in it.
   */
  lemma StreamRouterExactly(env: Env, t: Topo, conf: Conf, s: Key, transport: Transport, port: Int32)
    requires env.acl && Ready(t) && ConfigOf(env, t, conf) && s in t.services
    ensures var svc := t.services[s];
            StreamRouter(transport, PortService(s, port)) in conf <==>
            && svc.annotations.trafficType == Some(TypeOf(transport)) && svc.annotations.scheme.Some?
            && StreamEntryPoint(env, svc, transport, port).Some?
            && ((transport == OverTCP && Allowed(t, svc.trafficTargets, port))
                || (svc.trafficSplits != [] && HasNumber(svc.ports, port)))
  {
    hide ConfigOf, StreamEntryPoint, TargetsWrites, SplitsWrites, BlockAllWrites, Allowed, HasNumber, InGroup;
    var svc, k := t.services[s], StreamRouter(transport, PortService(s, port));
    ConfLast(env, t, conf, k);
    LastNone(k);
    if Evaluable(svc) {
      var tt, scheme := svc.annotations.trafficType.value, svc.annotations.scheme.value;
      if tt == HTTP {
        HTTPWritesNoStream(env, t, s, k);
      } else {
        var targets, splits := TargetsWrites(env, t, svc.trafficTargets, scheme, tt, []),
            SplitsWrites(env, t, svc.trafficSplits, scheme, tt, []);
        assert AnnotationWrites(svc, []) == [] && AnnotationKeys(svc, []) == [];
        assert ServiceWrites(env, t, svc) == targets + splits;
        TargetsWriteRouter(env, t, s, svc.trafficTargets, scheme, tt, transport, port);
        SplitsWriteRouter(env, t, s, svc.trafficSplits, scheme, tt, transport, port);
        WritesConcat(targets, splits, k);
      }
    }
  }

  lemma HTTPWritesNoStream(env: Env, t: Topo, s: Key, k: ConfKey)
    requires env.acl && Ready(t) && s in t.services && ServesHTTP(t.services[s]) && k.StreamRouter?
    ensures Last(ServiceWrites(env, t, t.services[s]), k) == None
  {
    hide TargetsWrites, SplitsWrites, BlockAllWrites, AnnotationWrites, AnnotationKeys, InGroup, SplitReady;
    var svc := t.services[s];
    var scheme, keys := svc.annotations.scheme.value, Middlewares(svc);
    var first, block := AnnotationWrites(svc, Asked(svc)), BlockAllWrites(env, svc, 0);
    var targets, splits := TargetsWrites(env, t, svc.trafficTargets, scheme, HTTP, keys),
        SplitsWrites(env, t, svc.trafficSplits, scheme, HTTP, keys);
    AnnotationsGroup(svc, Asked(svc));
    OtherGroup(first, OwnMiddleware, k);
    ServiceGroup(env, t, svc, scheme, keys, 0);
    OtherGroup(block, OwnHTTP, k);
    TargetsNever(env, t, s, svc.trafficTargets, scheme, HTTP, keys, k);
    SplitsNever(env, t, s, svc.trafficSplits, scheme, HTTP, keys, k);
    LastConcat(block, targets, k);
    LastConcat(first, block + targets, k);
    LastConcat(first + (block + targets), splits, k);
  }
}
