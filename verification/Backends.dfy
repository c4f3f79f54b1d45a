/** The addresses at which splits reach their backends, against the ports that the backends expose. */
module Backends {
  import opened Basics
  import opened Topologies
  import opened Resources
  import opened TopologyLinks
  import opened SplitGraph
  import opened SplitPass
  import opened BuiltTopologies
  import opened Rules
  import opened RulePriority
  import opened ConfigWrites
  import opened ConfigTheorems
  import opened ConfigResult
  import opened LastWrites
  import opened Streams
  import opened Servers
  import TB = TopologyBuilder

  predicate NamedBackend(bs: seq<Backend>, name: string) {
    exists i :: 0 <= i < |bs| && bs[i].service.name == name
  }

  /** All backends are in one namespace, so that their names tell them apart. */
  predicate AllIn(bs: seq<Backend>, ns: string) {
    forall i :: 0 <= i < |bs| ==> bs[i].service.namespace == ns
  }

  // ---- HTTP ----

  lemma {:induction false} LastHTTPBackend(t: Topo, ts: Split, scheme: string, port: Int32, bs: seq<Backend>,
          ns: string, asked: Int32, name: string)
    requires BackendsKnown(t, bs) && AllIn(bs, ns)
    ensures Last(HTTPBackendWrites(t, ts, scheme, port, bs),
                 HTTPService(BackendService(ts.service, ts.name, asked, name))) ==
            if asked == port && NamedBackend(bs, name) then
              Some(Balancer([MeshServer(scheme, Key(name, ns), port)], false)) else None
  {
    if bs != [] {
      var k := HTTPService(BackendService(ts.service, ts.name, asked, name));
      var rest := bs[1..];
      assert forall i :: 0 < i < |bs| ==> bs[i] == rest[i - 1];
      assert NamedBackend(bs, name) <==> bs[0].service.name == name || NamedBackend(rest, name) by {
        NamedStep(bs, name);
      }
      var w := Write(HTTPService(BackendKey(ts, port, bs[0])),
                     Balancer([MeshServer(scheme, bs[0].service, port)], false));
      LastHTTPBackend(t, ts, scheme, port, rest, ns, asked, name);
      LastOne(w, k);
      LastConcat([w], HTTPBackendWrites(t, ts, scheme, port, rest), k);
    }
  }

  lemma NamedStep(bs: seq<Backend>, name: string)
    requires bs != []
    ensures NamedBackend(bs, name) <==> bs[0].service.name == name || NamedBackend(bs[1..], name)
  {
    assert forall i :: 0 < i < |bs| ==> bs[i] == bs[1..][i - 1];
    if NamedBackend(bs[1..], name) {
      var i :| 0 <= i < |bs[1..]| && bs[1..][i].service.name == name;
      assert bs[i + 1].service.name == name;
    }
  }

  lemma NoBackendHere(env: Env, t: Topo, ts: Split, svc: Service, middlewares: seq<MiddlewareKey>, sp: ServicePort,
          entry: EntryPoint, rule: Rule, k: ConfKey)
    requires k.HTTPService? && k.service.BackendService?
    ensures Last(HTTPSplitPortWrites(env, t, ts, svc, middlewares, sp, entry, rule), k) == None
  {
    hide Children, Priority, IndirectRule, Addresses, Last;
    var ws := HTTPSplitPortWrites(env, t, ts, svc, middlewares, sp, entry, rule);
    forall w | w in ws
      ensures w.key != k
    {
    }
    NotWritten(ws, k);
  }

  lemma {:induction false} LastHTTPBackends(env: Env, t: Topo, ts: Split, svc: Service, scheme: string,
          middlewares: seq<MiddlewareKey>, i: nat, rule: Rule, ns: string, port: Int32, name: string)
    requires i <= |svc.ports| && BackendsKnown(t, ts.backends) && AllIn(ts.backends, ns)
    ensures Last(HTTPSplitPortsWrites(env, t, ts, svc, scheme, middlewares, i, rule),
                 HTTPService(BackendService(ts.service, ts.name, port, name))) ==
            if HasNumber(svc.ports[i..], port) && NamedBackend(ts.backends, name) then
              Some(Balancer([MeshServer(scheme, Key(name, ns), port)], false)) else None
    decreases |svc.ports| - i
  {
    hide HTTPSplitPortWrites, HTTPBackendWrites, IndirectRule, HasNumber, NamedBackend, AllIn, BackendsKnown;
    if i < |svc.ports| {
      var k := HTTPService(BackendService(ts.service, ts.name, port, name));
      var sp := svc.ports[i];
      var backends := HTTPBackendWrites(t, ts, scheme, sp.port, ts.backends);
      LastHTTPBackend(t, ts, scheme, sp.port, ts.backends, ns, port, name);
      NumberStep(svc.ports, i, port);
      if HTTPEntryPoint(env, i).None? {
        LastHTTPBackends(env, t, ts, svc, scheme, middlewares, i + 1, rule, ns, port, name);
        LastConcat(backends, HTTPSplitPortsWrites(env, t, ts, svc, scheme, middlewares, i + 1, rule), k);
      } else {
        var rule' := if svc.backendOf == [] || !env.acl then rule else IndirectRule(svc, ts.rules);
        var entry := HTTPEntryPoint(env, i).value;
        var here, rest := HTTPSplitPortWrites(env, t, ts, svc, middlewares, sp, entry, rule),
            HTTPSplitPortsWrites(env, t, ts, svc, scheme, middlewares, i + 1, rule');
        LastHTTPBackends(env, t, ts, svc, scheme, middlewares, i + 1, rule', ns, port, name);
        NoBackendHere(env, t, ts, svc, middlewares, sp, entry, rule, k);
        LastConcat(here, rest, k);
        LastConcat(backends, here + rest, k);
      }
    } else {
      NoNumber(svc.ports[i..], port);
    }
  }

  lemma NoNumber(ports: seq<ServicePort>, port: Int32)
    ensures ports == [] ==> !HasNumber(ports, port)
  {
  }

  /** An HTTP backend of a split is reached at its mesh address, on the port number of the service. */
  lemma HTTPBackendIs(env: Env, t: Topo, conf: Conf, s: Key, n: string, port: Int32, name: string)
    requires Ready(t) && ConfigOf(env, t, conf) && s in t.services && ServesHTTP(t.services[s])
    requires SplitReady(t, s, Key(n, s.namespace))
    requires var bs := t.splits[Key(n, s.namespace)].backends; BackendsKnown(t, bs) && AllIn(bs, s.namespace)
    ensures var svc, ts := t.services[s], t.splits[Key(n, s.namespace)];
            Entry(conf, HTTPService(BackendService(s, n, port, name))) ==
            if HasNumber(svc.ports, port) && NamedBackend(ts.backends, name) then
              Some(Balancer([MeshServer(svc.annotations.scheme.value, Key(name, s.namespace), port)], false)) else None
  {
    hide ConfigOf, SplitsWrites, ServiceWrites, Addresses, InGroup, HTTPSplitPortsWrites, BackendsKnown, DirectRule,
         HasNumber, NamedBackend, AllIn;
    var k, c := HTTPService(BackendService(s, n, port, name)), Key(n, s.namespace);
    var svc, ts := t.services[s], t.splits[c];
    var scheme, keys := svc.annotations.scheme.value, Middlewares(svc);
    ConfLast(env, t, conf, k);
    LastOfService(env, t, s, k);
    LastOverSplits(env, t, s, svc.trafficSplits, scheme, keys, k);
    LastHTTPBackends(env, t, ts, svc, scheme, keys, 0, DirectRule(svc, ts.rules), s.namespace, port, name);
    assert svc.ports[0..] == svc.ports;
    var ports := HTTPSplitPortsWrites(env, t, ts, svc, scheme, keys, 0, DirectRule(svc, ts.rules));
    var w := Write(HTTPMiddleware(SplitDirectWhitelist(s, ts.name)), SplitWhitelist(t, ts, None));
    LastConcat(if env.acl then [w] else [], ports, k);
    LastOne(w, k);
    LastNone(k);
  }

  // ---- TCP and UDP ----

  lemma {:induction false} LastStreamBackend(ts: Split, transport: Transport, sp: ServicePort, bs: seq<Backend>,
          ns: string, n: string, asked: Int32, name: string)
    requires AllIn(bs, ns)
    ensures Last(StreamBackendWrites(ts, transport, sp, bs),
                 StreamService(transport, BackendService(ts.service, n, asked, name))) ==
            if n == ts.name && asked == sp.port && NamedBackend(bs, name) then
              Some(Balancer([MeshServer("", Key(name, ns), sp.targetPort)], false)) else None
  {
    if bs != [] {
      var k := StreamService(transport, BackendService(ts.service, n, asked, name));
      var rest := bs[1..];
      assert forall i :: 0 < i < |bs| ==> bs[i] == rest[i - 1];
      NamedStep(bs, name);
      var w := Write(StreamService(transport, BackendKey(ts, sp.port, bs[0])),
                     Balancer([MeshServer("", bs[0].service, sp.targetPort)], false));
      LastStreamBackend(ts, transport, sp, rest, ns, n, asked, name);
      LastOne(w, k);
      LastConcat([w], StreamBackendWrites(ts, transport, sp, rest), k);
    }
  }

  lemma {:induction false} LastStreamBackends(env: Env, ts: Split, svc: Service, transport: Transport, i: nat,
          ns: string, n: string, port: Int32, name: string)
    requires i <= |svc.ports| && AllIn(ts.backends, ns)
    ensures Last(StreamSplitWrites(env, ts, svc, transport, i),
                 StreamService(transport, BackendService(ts.service, n, port, name))) ==
            if n == ts.name && StreamEntryPoint(env, svc, transport, port).Some?
               && LastNumber(svc.ports, port, i).Some? && NamedBackend(ts.backends, name) then
              Some(Balancer([MeshServer("", Key(name, ns),
                                        svc.ports[LastNumber(svc.ports, port, i).value].targetPort)], false)) else None
    decreases |svc.ports| - i
  {
    hide StreamEntryPoint, Children, StreamBackendWrites, NamedBackend, AllIn;
    var k := StreamService(transport, BackendService(ts.service, n, port, name));
    if i < |svc.ports| {
      var sp := svc.ports[i];
      var rest := StreamSplitWrites(env, ts, svc, transport, i + 1);
      LastStreamBackends(env, ts, svc, transport, i + 1, ns, n, port, name);
      if StreamEntryPoint(env, svc, transport, sp.port).Some? {
        var key, backends := PortService(svc.OwnKey(), sp.port), StreamBackendWrites(ts, transport, sp, ts.backends);
        var w := Write(StreamService(transport, key), Weighted(Children(ts, sp.port, ts.backends)));
        var w' := Write(StreamRouter(transport, key),
                        StreamRoute([StreamEntryPoint(env, svc, transport, sp.port).value], key));
        LastStreamBackend(ts, transport, sp, ts.backends, ns, n, port, name);
        LastTwo(w, w', k);
        LastConcat(backends, [w, w'], k);
        LastConcat(backends + [w, w'], rest, k);
      } else {
        assert StreamSplitWrites(env, ts, svc, transport, i) == rest;
      }
    }
  }

  /** All splits of the given keys have their backends in the namespace. */
  ghost predicate SplitsIn(t: Topo, ks: seq<Key>, ns: string) {
    forall k :: k in ks && k in t.splits ==> AllIn(t.splits[k].backends, ns)
  }

  lemma {:induction false} LastOverStreamSplits(env: Env, t: Topo, s: Key, ks: seq<Key>, scheme: string,
          transport: Transport, n: string, port: Int32, name: string)
    requires s in t.services && t.services[s].OwnKey() == s && forall k :: k in ks ==> SplitReady(t, s, k)
    requires SplitsIn(t, ks, s.namespace)
    ensures var svc, c := t.services[s], Key(n, s.namespace);
            Last(SplitsWrites(env, t, ks, scheme, TypeOf(transport), []),
                 StreamService(transport, BackendService(s, n, port, name))) ==
            if c in ks && c in t.splits && StreamEntryPoint(env, svc, transport, port).Some?
               && LastNumber(svc.ports, port, 0).Some? && NamedBackend(t.splits[c].backends, name) then
              Some(Balancer([MeshServer("", Key(name, s.namespace),
                                        svc.ports[LastNumber(svc.ports, port, 0).value].targetPort)], false)) else None
  {
    hide StreamEntryPoint, StreamSplitWrites, NamedBackend, AllIn;
    if ks != [] {
      assert ks == [ks[0]] + ks[1..] && SplitReady(t, s, ks[0]);
      var svc, ts := t.services[s], t.splits[ks[0]];
      var k := StreamService(transport, BackendService(s, n, port, name));
      LastOverStreamSplits(env, t, s, ks[1..], scheme, transport, n, port, name);
      LastStreamBackends(env, ts, svc, transport, 0, s.namespace, n, port, name);
      LastConcat(SplitWrites(env, t, ks[0], scheme, TypeOf(transport), []),
                 SplitsWrites(env, t, ks[1..], scheme, TypeOf(transport), []), k);
    }
  }

  lemma {:induction false} TargetsWriteNoBackend(env: Env, t: Topo, s: Key, tks: seq<TargetKey>, scheme: string,
          tt: TrafficType, k: ConfKey)
    requires k.StreamService? && k.streamService.BackendService? && tt != HTTP
    ensures Last(TargetsWrites(env, t, tks, scheme, tt, []), k) == None
  {
    hide TCPTargetWrites, HTTPTargetWrites, HasTCPRoute;
    if tks != [] {
      TargetsWriteNoBackend(env, t, s, tks[1..], scheme, tt, k);
      if tks[0] in t.targets && t.targets[tks[0]].service in t.services {
        TCPTargetWritesNoBackend(env, t, t.targets[tks[0]], t.services[t.targets[tks[0]].service], 0, k);
      }
      LastNone(k);
      LastConcat(TargetWrites(env, t, tks[0], scheme, tt, []), TargetsWrites(env, t, tks[1..], scheme, tt, []), k);
    }
  }

  lemma {:induction false} TCPTargetWritesNoBackend(env: Env, t: Topo, tt: Target, svc: Service, i: nat, k: ConfKey)
    requires k.StreamService? && k.streamService.BackendService? && i <= |tt.destination.ports|
    ensures Last(TCPTargetWrites(env, t, tt, svc, i), k) == None
    decreases |tt.destination.ports| - i
  {
    hide StreamEntryPoint, PodServers;
    if i < |tt.destination.ports| {
      var sp := tt.destination.ports[i];
      var rest := TCPTargetWrites(env, t, tt, svc, i + 1);
      TCPTargetWritesNoBackend(env, t, tt, svc, i + 1, k);
      if StreamEntryPoint(env, svc, OverTCP, sp.port).Some? {
        var key := PortService(svc.OwnKey(), sp.port);
        var w := Write(StreamService(OverTCP, key), Balancer(PodServers(env, t, tt.destination.pods, "", sp), false));
        var w' := Write(StreamRouter(OverTCP, key),
                        StreamRoute([StreamEntryPoint(env, svc, OverTCP, sp.port).value], key));
        LastTwo(w, w', k);
        LastConcat([w, w'], rest, k);
      } else {
        assert TCPTargetWrites(env, t, tt, svc, i) == rest;
      }
    }
  }

  lemma {:induction false} ServiceWritesNoBackend(env: Env, t: Topo, svc: Service, transport: Transport, i: nat,
          k: ConfKey)
    requires k.StreamService? && k.streamService.BackendService? && i <= |svc.ports|
    ensures Last(StreamServiceWrites(env, t, svc, transport, i), k) == None
    decreases |svc.ports| - i
  {
    hide StreamEntryPoint, PodServers;
    if i < |svc.ports| {
      var sp := svc.ports[i];
      var rest := StreamServiceWrites(env, t, svc, transport, i + 1);
      ServiceWritesNoBackend(env, t, svc, transport, i + 1, k);
      if StreamEntryPoint(env, svc, transport, sp.port).Some? {
        var key := PortService(svc.OwnKey(), sp.port);
        var w := Write(StreamService(transport, key), Balancer(PodServers(env, t, svc.pods, "", sp), false));
        var w' := Write(StreamRouter(transport, key),
                        StreamRoute([StreamEntryPoint(env, svc, transport, sp.port).value], key));
        LastTwo(w, w', k);
        LastConcat([w, w'], rest, k);
      } else {
        assert StreamServiceWrites(env, t, svc, transport, i) == rest;
      }
    }
  }

  /** A TCP or UDP backend is reached at its mesh address too, but on the target port of the last port of the number. */
  lemma StreamBackendIs(env: Env, t: Topo, conf: Conf, s: Key, transport: Transport, n: string, port: Int32,
          name: string)
    requires Ready(t) && ConfigOf(env, t, conf) && s in t.services && Evaluable(t.services[s])
             && t.services[s].annotations.trafficType.value == TypeOf(transport)
    requires SplitsIn(t, t.services[s].trafficSplits, s.namespace)
    ensures var svc, c := t.services[s], Key(n, s.namespace);
            Entry(conf, StreamService(transport, BackendService(s, n, port, name))) ==
            if c in svc.trafficSplits && c in t.splits && StreamEntryPoint(env, svc, transport, port).Some?
               && LastNumber(svc.ports, port, 0).Some? && NamedBackend(t.splits[c].backends, name) then
              Some(Balancer([MeshServer("", Key(name, s.namespace),
                                        svc.ports[LastNumber(svc.ports, port, 0).value].targetPort)], false)) else None
  {
    hide ConfigOf, StreamEntryPoint, SplitsWrites, TargetsWrites, StreamServiceWrites, NamedBackend, SplitsIn;
    var svc, k := t.services[s], StreamService(transport, BackendService(s, n, port, name));
    var tt, scheme := TypeOf(transport), svc.annotations.scheme.value;
    ConfLast(env, t, conf, k);
    var own := if env.acl then TargetsWrites(env, t, svc.trafficTargets, scheme, tt, [])
    else StreamServiceWrites(env, t, svc, transport, 0);
    var splits := SplitsWrites(env, t, svc.trafficSplits, scheme, tt, []);
    assert AnnotationWrites(svc, []) == [] && AnnotationKeys(svc, []) == [];
    assert ServiceWrites(env, t, svc) == own + splits;
    if env.acl {
      TargetsWriteNoBackend(env, t, s, svc.trafficTargets, scheme, tt, k);
    } else {
      ServiceWritesNoBackend(env, t, svc, transport, 0, k);
    }
    LastOverStreamSplits(env, t, s, svc.trafficSplits, scheme, transport, n, port, name);
    LastConcat(own, splits, k);
    assert forall c :: c in svc.trafficSplits ==> SplitReady(t, s, c);
  }

  // ---- Built topologies ----

  lemma {:induction false} KeptInNamespace(res: Snapshot, o: SplitObject, bs: seq<BackendObject>)
    requires RootOf(o) in res.services
    ensures AllIn(KeptBackends(res, o, bs), o.namespace)
  {
    if bs != [] {
      KeptInNamespace(res, o, bs[1..]);
    }
  }

  /** The backends of a split that is attached are known, in its namespace, and expose the numbers of its service. */
  lemma BuiltBackends(res: Snapshot, linked: Topo, s: Key, k: Key)
    requires Keyed(res) && TB.Complete(res, linked) && Ready(Populated(linked))
    requires SplitReady(Populated(linked), s, k)
    ensures var f := Populated(linked);
            && AllIn(f.splits[k].backends, s.namespace) && BackendsKnown(f, f.splits[k].backends)
            && forall i, port ::
                 0 <= i < |f.splits[k].backends| && HasNumber(f.services[s].ports, port) ==>
                   HasNumber(f.services[f.splits[k].backends[i].service].ports, port)
  {
    hide TB.Complete, Recorded, Kept, Covers, KeptBackends, BackendFaults, SpecsOf, BackendsKnown, AllIn, HasNumber;
    var f := Populated(linked);
    BuiltAttached(res, linked, s, k);
    SplitIs(res, linked, k);
    var o := res.splits[k];
    KeptInNamespace(res, o, o.backends);
    ServicesOf(res, linked);
    ServiceIs(res, linked, s);
    assert AllIn(f.splits[k].backends, s.namespace);
    forall i | 0 <= i < |f.splits[k].backends|
      ensures f.splits[k].backends[i].service in f.services
      ensures forall port :: HasNumber(f.services[s].ports, port) ==>
                HasNumber(f.services[f.splits[k].backends[i].service].ports, port)
    {
      var b := f.splits[k].backends[i];
      KeptBackendsCover(res, o, b);
      ServiceIs(res, linked, b.service);
      CoversNumbers(f.services[s].ports, f.services[b.service].ports);
    }
    KnownBackends(f, f.splits[k].backends);
  }

  lemma KnownBackends(t: Topo, bs: seq<Backend>)
    requires forall i :: 0 <= i < |bs| ==> bs[i].service in t.services
    ensures BackendsKnown(t, bs)
  {
  }

  lemma CoversNumbers(svcPorts: seq<ServicePort>, backendPorts: seq<ServicePort>)
    requires Covers(svcPorts, backendPorts)
    ensures forall port :: HasNumber(svcPorts, port) ==> HasNumber(backendPorts, port)
  {
    forall port | HasNumber(svcPorts, port)
      ensures HasNumber(backendPorts, port)
    {
      var i :| 0 <= i < |svcPorts| && svcPorts[i].port == port;
      assert svcPorts[i] in svcPorts;
      var q :| q in backendPorts && q.port == svcPorts[i].port;
      var j :| 0 <= j < |backendPorts| && backendPorts[j] == q;
    }
  }

  lemma BuiltAttached(res: Snapshot, linked: Topo, s: Key, k: Key)
    requires Keyed(res) && TB.Complete(res, linked) && s in Populated(linked).services
             && k in Populated(linked).services[s].trafficSplits
    ensures s in res.services && k in res.splits && RootOf(res.splits[k]) == s && Attachable(res, res.splits[k])
            && s.namespace == res.splits[k].namespace
  {
    hide TB.Complete, Recorded, Attachable;
    ServicesOf(res, linked);
    SplitsOn(res, linked, s);
    KeptMembers(linked, linked.services[s].trafficSplits);
  }

  /**
   On built topologies, every HTTP backend of a split is addressed on a port that it exposes: splits are only given
   backends that expose the port numbers of the service.
   */
  lemma HTTPBackendsAreExposed(res: Snapshot, linked: Topo, env: Env, conf: Conf, s: Key, n: string, port: Int32,
          name: string)
    requires Keyed(res) && TB.Complete(res, linked) && ConfigOf(env, Populated(linked), conf)
    requires HTTPService(BackendService(s, n, port, name)) in conf
    ensures var f, b := Populated(linked), Key(name, s.namespace);
            && s in f.services && ServesHTTP(f.services[s]) && b in f.services
            && conf[HTTPService(BackendService(s, n, port, name))] ==
                 Balancer([MeshServer(f.services[s].annotations.scheme.value, b, port)], false)
            && HasNumber(f.services[b].ports, port)
  {
    hide TB.Complete, ConfigOf, Populated, Ready, HasNumber, BackendsKnown, AllIn;
    var f, k, c := Populated(linked), HTTPService(BackendService(s, n, port, name)), Key(n, s.namespace);
    BuiltIsReady(res, linked);
    HTTPEntryMeans(env, f, conf, k);
    AttachedReady(f, s, c);
    BuiltBackends(res, linked, s, c);
    HTTPBackendIs(env, f, conf, s, n, port, name);
    var i :| 0 <= i < |f.splits[c].backends| && f.splits[c].backends[i].service.name == name;
    NamespaceOf(f.splits[c].backends, s.namespace, i);
    BackendIsKnown(f, f.splits[c].backends, i);
  }

  lemma AttachedReady(f: Topo, s: Key, k: Key)
    requires Ready(f) && s in f.services && k in f.services[s].trafficSplits
    ensures SplitReady(f, s, k)
  {
  }

  lemma NamespaceOf(bs: seq<Backend>, ns: string, i: nat)
    requires AllIn(bs, ns) && i < |bs|
    ensures bs[i].service == Key(bs[i].service.name, ns)
  {
  }

  lemma BackendIsKnown(t: Topo, bs: seq<Backend>, i: nat)
    requires BackendsKnown(t, bs) && i < |bs|
    ensures bs[i].service in t.services
  {
  }

  lemma BuiltSplitsIn(res: Snapshot, linked: Topo, s: Key)
    requires Keyed(res) && TB.Complete(res, linked) && Ready(Populated(linked)) && s in Populated(linked).services
    ensures SplitsIn(Populated(linked), Populated(linked).services[s].trafficSplits, s.namespace)
  {
    hide TB.Complete, Populated, AllIn, BackendsKnown, HasNumber, Ready;
    var f := Populated(linked);
    forall k | k in f.services[s].trafficSplits && k in f.splits
      ensures AllIn(f.splits[k].backends, s.namespace)
    {
      AttachedReady(f, s, k);
      BuiltBackends(res, linked, s, k);
    }
  }

  /**
   A TCP or UDP backend is addressed on a port that it exposes exactly when it exposes the target port of the service,
   which nobody has checked.
   */
  lemma StreamBackendsExposedExactly(res: Snapshot, linked: Topo, env: Env, conf: Conf, s: Key, transport: Transport,
          n: string, port: Int32, name: string) returns (addressed: Int32)
    requires Keyed(res) && TB.Complete(res, linked) && ConfigOf(env, Populated(linked), conf)
    requires var f := Populated(linked);
             && s in f.services && Evaluable(f.services[s])
             && f.services[s].annotations.trafficType.value == TypeOf(transport)
    requires StreamService(transport, BackendService(s, n, port, name)) in conf
    ensures var f, b := Populated(linked), Key(name, s.namespace);
            && b in f.services && HasNumber(f.services[b].ports, port)
            && conf[StreamService(transport, BackendService(s, n, port, name))] ==
                 Balancer([MeshServer("", b, addressed)], false)
            && LastNumber(f.services[s].ports, port, 0).Some?
            && addressed == f.services[s].ports[LastNumber(f.services[s].ports, port, 0).value].targetPort
            && (addressed == port ==> HasNumber(f.services[b].ports, addressed))
            && b in res.services && s in res.services && LastNumber(res.services[s].ports, port, 0).Some?
            && (HasNumber(f.services[b].ports, addressed) <==>
                HasNumber(res.services[b].ports,
                          res.services[s].ports[LastNumber(res.services[s].ports, port, 0).value].targetPort))
  {
    hide TB.Complete, ConfigOf, Populated, Ready, BackendsKnown, AllIn, StreamEntryPoint, SplitsIn;
    var f, c := Populated(linked), Key(n, s.namespace);
    var svc := f.services[s];
    BuiltIsReady(res, linked);
    BuiltSplitsIn(res, linked, s);
    StreamBackendIs(env, f, conf, s, transport, n, port, name);
    AttachedReady(f, s, c);
    BuiltBackends(res, linked, s, c);
    var j := LastNumber(svc.ports, port, 0).value;
    addressed := svc.ports[j].targetPort;
    assert HasNumber(svc.ports, port);
    var i :| 0 <= i < |f.splits[c].backends| && f.splits[c].backends[i].service.name == name;
    NamespaceOf(f.splits[c].backends, s.namespace, i);
    BackendIsKnown(f, f.splits[c].backends, i);
    SamePorts(res, linked, s);
    SamePorts(res, linked, Key(name, s.namespace));
  }

  lemma SamePorts(res: Snapshot, linked: Topo, s: Key)
    requires TB.Complete(res, linked) && s in Populated(linked).services
    ensures s in res.services && Populated(linked).services[s].ports == res.services[s].ports
  {
    hide TB.Complete, Recorded, Kept;
    ServicesOf(res, linked);
    ServiceIs(res, linked, s);
  }
}
