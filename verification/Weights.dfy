/** How the routers of traffic-splits spread traffic over the backends. */
module Weights {
  import opened Basics
  import opened Topologies
  import opened Resources
  import opened TopologyLinks
  import opened SplitGraph
  import opened SplitPass
  import opened BuiltTopologies
  import opened Rules
  import opened RulePriority
  import opened ConfigWrites
  import opened ConfigTheorems
  import opened ConfigResult
  import opened LastWrites
  import opened Routers
  import opened Streams
  import opened Servers
  import opened Backends
  import opened TargetServers
  import TB = TopologyBuilder

  // ---- Which backends are kept ----

  /** The service that backend b of split o names exists, and exposes every port number of the root service. */
  ghost predicate Fits(res: Snapshot, o: SplitObject, b: BackendObject) {
    && Key(b.service, o.namespace) in res.services && Key(o.service, o.namespace) in res.services
    && forall port ::
         HasNumber(res.services[Key(o.service, o.namespace)].ports, port) ==>
           HasNumber(res.services[Key(b.service, o.namespace)].ports, port)
  }

  /** Places picked out of n, in order. */
  ghost predicate Increasing(places: seq<nat>, n: nat) {
    && (forall j :: 0 <= j < |places| ==> places[j] < n)
    && forall i, j :: 0 <= i < j < |places| ==> places[i] < places[j]
  }

  /** The places hold exactly the backends that fit. */
  ghost predicate PlacesFit(res: Snapshot, o: SplitObject, bs: seq<BackendObject>, places: seq<nat>) {
    Increasing(places, |bs|) && forall i: nat :: i < |bs| ==> (i in places <==> Fits(res, o, bs[i]))
  }

  /** The backends of the split are those at the given places, with their weights. */
  ghost predicate AtPlaces(o: SplitObject, bs: seq<BackendObject>, places: seq<nat>, kept: seq<Backend>)
    requires Increasing(places, |bs|)
  {
    && |kept| == |places|
    && forall j :: 0 <= j < |places| ==>
         kept[j] == Backend(bs[places[j]].weight, Key(bs[places[j]].service, o.namespace))
  }

  lemma FaultExactly(res: Snapshot, o: SplitObject, b: BackendObject)
    requires RootOf(o) in res.services
    ensures BackendFault(res, o, b).None? <==> Fits(res, o, b)
  {
    var s := Key(b.service, o.namespace);
    if s in res.services {
      CoversExactly(res.services[RootOf(o)].ports, res.services[s].ports);
    }
  }

  lemma CoversExactly(svcPorts: seq<ServicePort>, backendPorts: seq<ServicePort>)
    ensures Covers(svcPorts, backendPorts) <==>
            forall port :: HasNumber(svcPorts, port) ==> HasNumber(backendPorts, port)
  {
    if Covers(svcPorts, backendPorts) {
      CoversNumbers(svcPorts, backendPorts);
    }
    if forall port :: HasNumber(svcPorts, port) ==> HasNumber(backendPorts, port) {
      forall p | p in svcPorts
        ensures exists q :: q in backendPorts && q.port == p.port
      {
        var i :| 0 <= i < |svcPorts| && svcPorts[i] == p;
        assert HasNumber(svcPorts, p.port);
        var j :| 0 <= j < |backendPorts| && backendPorts[j].port == p.port;
        assert backendPorts[j] in backendPorts;
      }
    }
  }

  /** The kept backends, by place. */
  lemma {:induction false} KeptPlaces(res: Snapshot, o: SplitObject, bs: seq<BackendObject>) returns (places: seq<nat>)
    requires RootOf(o) in res.services
    ensures PlacesFit(res, o, bs, places) && AtPlaces(o, bs, places, KeptBackends(res, o, bs))
  {
    hide Fits, BackendFault;
    if bs == [] {
      places := [];
    } else {
      var rest := KeptPlaces(res, o, bs[1..]);
      var later := seq(|rest|, j requires 0 <= j < |rest| => rest[j] + 1);
      FaultExactly(res, o, bs[0]);
      places := (if BackendFault(res, o, bs[0]).None? then [0] else []) + later;
      LaterPlaces(res, o, bs, rest, later, places);
    }
  }

  lemma LaterPlaces(res: Snapshot, o: SplitObject, bs: seq<BackendObject>, rest: seq<nat>, later: seq<nat>,
          places: seq<nat>)
    requires RootOf(o) in res.services && bs != [] && PlacesFit(res, o, bs[1..], rest)
    requires AtPlaces(o, bs[1..], rest, KeptBackends(res, o, bs[1..]))
    requires |later| == |rest| && forall j :: 0 <= j < |rest| ==> later[j] == rest[j] + 1
    requires places == (if Fits(res, o, bs[0]) then [0] else []) + later
    requires BackendFault(res, o, bs[0]).None? <==> Fits(res, o, bs[0])
    ensures PlacesFit(res, o, bs, places) && AtPlaces(o, bs, places, KeptBackends(res, o, bs))
  {
    hide Fits, BackendFault, AtPlaces, KeptBackends;
    PlacesIncrease(Fits(res, o, bs[0]), |bs|, rest, later, places);
    forall i: nat | i < |bs|
      ensures i in places <==> Fits(res, o, bs[i])
    {
      ShiftedMember(rest, later, i);
      if i > 0 {
        assert bs[i] == bs[1..][i - 1];
      }
    }
    ShiftedAt(res, o, bs, rest, later, places);
  }

  lemma PlacesIncrease(first: bool, n: nat, rest: seq<nat>, later: seq<nat>, places: seq<nat>)
    requires n > 0 && Increasing(rest, n - 1)
    requires |later| == |rest| && forall j :: 0 <= j < |rest| ==> later[j] == rest[j] + 1
    requires places == (if first then [0] else []) + later
    ensures Increasing(places, n)
  {
  }

  lemma ShiftedMember(rest: seq<nat>, later: seq<nat>, i: nat)
    requires |later| == |rest| && forall j :: 0 <= j < |rest| ==> later[j] == rest[j] + 1
    ensures i in later <==> i > 0 && i - 1 in rest
  {
    if i in later {
      var j :| 0 <= j < |later| && later[j] == i;
      assert rest[j] == i - 1;
    }
    if i > 0 && i - 1 in rest {
      var j :| 0 <= j < |rest| && rest[j] == i - 1;
      assert later[j] == i;
    }
  }

  lemma ShiftedAt(res: Snapshot, o: SplitObject, bs: seq<BackendObject>, rest: seq<nat>, later: seq<nat>,
          places: seq<nat>)
    requires RootOf(o) in res.services && bs != [] && Increasing(rest, |bs| - 1) && Increasing(places, |bs|)
    requires AtPlaces(o, bs[1..], rest, KeptBackends(res, o, bs[1..]))
    requires |later| == |rest| && forall j :: 0 <= j < |rest| ==> later[j] == rest[j] + 1
    requires places == (if BackendFault(res, o, bs[0]).None? then [0] else []) + later
    ensures AtPlaces(o, bs, places, KeptBackends(res, o, bs))
  {
    hide BackendFault, Increasing;
    var n := if BackendFault(res, o, bs[0]).None? then 1 else 0;
    var kept := KeptBackends(res, o, bs);
    assert kept == KeptBackend(res, o, bs[0]) + KeptBackends(res, o, bs[1..]) && |KeptBackend(res, o, bs[0])| == n;
    forall j | 0 <= j < |places|
      ensures places[j] < |bs|
              && kept[j] == Backend(bs[places[j]].weight, Key(bs[places[j]].service, o.namespace))
    {
      if j >= n {
        assert places[j] == later[j - n] == rest[j - n] + 1;
        PlaceWithin(rest, |bs| - 1, j - n);
        assert bs[places[j]] == bs[1..][rest[j - n]];
        assert kept[j] == KeptBackends(res, o, bs[1..])[j - n];
      }
    }
  }

  lemma PlaceWithin(places: seq<nat>, n: nat, j: nat)
    requires Increasing(places, n) && j < |places|
    ensures places[j] < n
  {
  }

  // ---- Weighted services ----

  /** Child i of the weighted service stands for backend i, with its weight, and is reached on the given port. */
  ghost predicate ChildLeadsTo(conf: Conf, service: ServiceKey -> ConfKey, child: (ServiceKey, int), b: Backend,
          scheme: string, port: Int32)
  {
    && child.1 == b.weight && service(child.0) in conf
    && conf[service(child.0)] == Balancer([MeshServer(scheme, b.service, port)], false)
  }

  /** The value spreads traffic over the given backends, in order. */
  ghost predicate Spreads(conf: Conf, service: ServiceKey -> ConfKey, v: ConfValue, bs: seq<Backend>, scheme: string,
          port: Int32)
  {
    && v.Weighted? && |v.children| == |bs|
    && forall i :: 0 <= i < |bs| ==> ChildLeadsTo(conf, service, v.children[i], bs[i], scheme, port)
  }

  lemma LastSplitPortService(env: Env, t: Topo, ts: Split, svc: Service, middlewares: seq<MiddlewareKey>,
          sp: ServicePort, entry: EntryPoint, rule: Rule, port: Int32)
    ensures Last(HTTPSplitPortWrites(env, t, ts, svc, middlewares, sp, entry, rule),
                 HTTPService(SplitService(ts.service, ts.name, port))) ==
            if port != sp.port then None else Some(Weighted(Children(ts, sp.port, ts.backends)))
  {
    hide Children, Priority, IndirectRule, Addresses, Last;
    var k, ws := HTTPService(SplitService(ts.service, ts.name, port)),
        HTTPSplitPortWrites(env, t, ts, svc, middlewares, sp, entry, rule);
    assert ws == [ws[0]] + ws[1..];
    LastConcat([ws[0]], ws[1..], k);
    LastOne(ws[0], k);
    NotWritten(ws[1..], k);
  }

  lemma {:induction false} LastBackendsNone(t: Topo, ts: Split, scheme: string, port: Int32, bs: seq<Backend>,
          k: ConfKey)
    requires k.HTTPService? && k.service.SplitService?
    ensures Last(HTTPBackendWrites(t, ts, scheme, port, bs), k) == None
  {
    if bs != [] && bs[0].service in t.services {
      var w := Write(HTTPService(BackendKey(ts, port, bs[0])),
                     Balancer([MeshServer(scheme, bs[0].service, port)], false));
      LastBackendsNone(t, ts, scheme, port, bs[1..], k);
      LastOne(w, k);
      LastConcat([w], HTTPBackendWrites(t, ts, scheme, port, bs[1..]), k);
    }
  }

  lemma {:induction false} LastSplitServices(env: Env, t: Topo, ts: Split, svc: Service, scheme: string,
          middlewares: seq<MiddlewareKey>, i: nat, rule: Rule, port: Int32)
    requires i <= |svc.ports| && BackendsKnown(t, ts.backends)
    ensures Last(HTTPSplitPortsWrites(env, t, ts, svc, scheme, middlewares, i, rule),
                 HTTPService(SplitService(ts.service, ts.name, port))) ==
            if LastPlace(env, svc.ports, port, i).None? then None
            else Some(Weighted(Children(ts, port, ts.backends)))
    decreases |svc.ports| - i
  {
    hide HTTPSplitPortWrites, HTTPBackendWrites, IndirectRule, BackendsKnown, Children;
    if i < |svc.ports| {
      var k, sp := HTTPService(SplitService(ts.service, ts.name, port)), svc.ports[i];
      var backends := HTTPBackendWrites(t, ts, scheme, sp.port, ts.backends);
      LastBackendsNone(t, ts, scheme, sp.port, ts.backends, k);
      if HTTPEntryPoint(env, i).None? {
        LastSplitServices(env, t, ts, svc, scheme, middlewares, i + 1, rule, port);
        LastConcat(backends, HTTPSplitPortsWrites(env, t, ts, svc, scheme, middlewares, i + 1, rule), k);
      } else {
        var rule' := if svc.backendOf == [] || !env.acl then rule else IndirectRule(svc, ts.rules);
        var entry := HTTPEntryPoint(env, i).value;
        var here, rest := HTTPSplitPortWrites(env, t, ts, svc, middlewares, sp, entry, rule),
            HTTPSplitPortsWrites(env, t, ts, svc, scheme, middlewares, i + 1, rule');
        LastSplitServices(env, t, ts, svc, scheme, middlewares, i + 1, rule', port);
        LastSplitPortService(env, t, ts, svc, middlewares, sp, entry, rule, port);
        LastConcat(here, rest, k);
        LastConcat(backends, here + rest, k);
      }
    }
  }

  lemma SplitServiceIs(env: Env, t: Topo, conf: Conf, s: Key, n: string, port: Int32)
    requires Ready(t) && ConfigOf(env, t, conf) && s in t.services && ServesHTTP(t.services[s])
    requires SplitReady(t, s, Key(n, s.namespace)) && BackendsKnown(t, t.splits[Key(n, s.namespace)].backends)
    ensures var svc, ts := t.services[s], t.splits[Key(n, s.namespace)];
            Entry(conf, HTTPService(SplitService(s, n, port))) ==
            if LastPlace(env, svc.ports, port, 0).None? then None
            else Some(Weighted(Children(ts, port, ts.backends)))
  {
    hide ConfigOf, SplitsWrites, ServiceWrites, Addresses, InGroup, HTTPSplitPortsWrites, BackendsKnown, DirectRule,
         Children, LastPlace;
    var k, c := HTTPService(SplitService(s, n, port)), Key(n, s.namespace);
    var svc, ts := t.services[s], t.splits[c];
    var scheme, keys := svc.annotations.scheme.value, Middlewares(svc);
    ConfLast(env, t, conf, k);
    LastOfService(env, t, s, k);
    LastOverSplits(env, t, s, svc.trafficSplits, scheme, keys, k);
    LastSplitServices(env, t, ts, svc, scheme, keys, 0, DirectRule(svc, ts.rules), port);
    var ports := HTTPSplitPortsWrites(env, t, ts, svc, scheme, keys, 0, DirectRule(svc, ts.rules));
    var w := Write(HTTPMiddleware(SplitDirectWhitelist(s, ts.name)), SplitWhitelist(t, ts, None));
    LastConcat(if env.acl then [w] else [], ports, k);
    LastOne(w, k);
    LastNone(k);
  }

  lemma HTTPSpreads(env: Env, t: Topo, conf: Conf, s: Key, n: string, port: Int32)
    requires Ready(t) && ConfigOf(env, t, conf) && s in t.services && ServesHTTP(t.services[s])
    requires SplitReady(t, s, Key(n, s.namespace)) && BackendsKnown(t, t.splits[Key(n, s.namespace)].backends)
             && AllIn(t.splits[Key(n, s.namespace)].backends, s.namespace)
    ensures var svc, k := t.services[s], HTTPService(SplitService(s, n, port));
            && (k in conf <==> LastPlace(env, svc.ports, port, 0).Some?)
            && (k in conf ==> Spreads(conf, key => HTTPService(key), conf[k], t.splits[Key(n, s.namespace)].backends,
                                      svc.annotations.scheme.value, port))
  {
    hide ConfigOf, Ready, BackendsKnown, LastPlace;
    SplitServiceIs(env, t, conf, s, n, port);
    var svc, ts, k := t.services[s], t.splits[Key(n, s.namespace)], HTTPService(SplitService(s, n, port));
    if k in conf {
      assert HasNumber(svc.ports, port) by {
        PlaceHasNumber(env, svc.ports, port);
      }
      forall i | 0 <= i < |ts.backends|
        ensures ChildLeadsTo(conf, key => HTTPService(key), conf[k].children[i], ts.backends[i],
                             svc.annotations.scheme.value, port)
      {
        var b := ts.backends[i];
        NamespaceOf(ts.backends, s.namespace, i);
        HTTPBackendIs(env, t, conf, s, n, port, b.service.name);
      }
    }
  }

  lemma PlaceHasNumber(env: Env, ports: seq<ServicePort>, port: Int32)
    ensures LastPlace(env, ports, port, 0).Some? ==> HasNumber(ports, port)
  {
  }

  /** What the services of a split are spread over, for TCP and UDP: the last split of the service counts. */
  lemma StreamSpreads(env: Env, t: Topo, conf: Conf, s: Key, transport: Transport, port: Int32)
    requires Ready(t) && ConfigOf(env, t, conf) && s in t.services && Evaluable(t.services[s])
             && t.services[s].annotations.trafficType.value == TypeOf(transport)
    requires t.services[s].trafficSplits != [] && SplitsIn(t, t.services[s].trafficSplits, s.namespace)
    requires StreamEntryPoint(env, t.services[s], transport, port).Some? && HasNumber(t.services[s].ports, port)
    requires Entry(conf, StreamService(transport, PortService(s, port))) ==
             FromSplits(env, t, t.services[s], t.services[s].trafficSplits, transport, port)
    ensures var svc, k := t.services[s], StreamService(transport, PortService(s, port));
            var last := svc.trafficSplits[|svc.trafficSplits| - 1];
            && last in t.splits && k in conf && LastNumber(svc.ports, port, 0).Some?
            && Spreads(conf, key => StreamService(transport, key), conf[k], t.splits[last].backends, "",
                       svc.ports[LastNumber(svc.ports, port, 0).value].targetPort)
  {
    hide ConfigOf, StreamEntryPoint;
    var svc, k := t.services[s], StreamService(transport, PortService(s, port));
    var last := svc.trafficSplits[|svc.trafficSplits| - 1];
    assert last in svc.trafficSplits && SplitReady(t, s, last);
    var ts := t.splits[last];
    assert AllIn(ts.backends, s.namespace);
    NumberIsFound(svc.ports, port);
    var target := svc.ports[LastNumber(svc.ports, port, 0).value].targetPort;
    forall i | 0 <= i < |ts.backends|
      ensures ChildLeadsTo(conf, key => StreamService(transport, key), conf[k].children[i], ts.backends[i], "", target)
    {
      NamespaceOf(ts.backends, s.namespace, i);
      StreamBackendIs(env, t, conf, s, transport, ts.name, port, ts.backends[i].service.name);
      assert NamedBackend(ts.backends, ts.backends[i].service.name);
    }
  }

  lemma NumberIsFound(ports: seq<ServicePort>, port: Int32)
    ensures LastNumber(ports, port, 0).Some? <==> HasNumber(ports, port)
  {
  }

  // ---- Built topologies ----

  /** A value spreads traffic over those backends of split object o that fit, in order, with the weights asked for. */
  ghost predicate SpreadsOver(conf: Conf, service: ServiceKey -> ConfKey, v: ConfValue, res: Snapshot, o: SplitObject,
          places: seq<nat>, scheme: string, port: Int32)
  {
    && PlacesFit(res, o, o.backends, places) && v.Weighted? && |v.children| == |places|
    && forall j :: 0 <= j < |places| ==>
         var b := o.backends[places[j]];
         && v.children[j].1 == b.weight && service(v.children[j].0) in conf
         && conf[service(v.children[j].0)] == Balancer([MeshServer(scheme, Key(b.service, o.namespace), port)], false)
  }

  lemma SpreadPlaces(conf: Conf, service: ServiceKey -> ConfKey, v: ConfValue, res: Snapshot, o: SplitObject,
          places: seq<nat>, kept: seq<Backend>, scheme: string, port: Int32)
    requires Spreads(conf, service, v, kept, scheme, port)
    requires PlacesFit(res, o, o.backends, places) && AtPlaces(o, o.backends, places, kept)
    ensures SpreadsOver(conf, service, v, res, o, places, scheme, port)
  {
    hide Fits;
    forall j | 0 <= j < |places|
      ensures var b := o.backends[places[j]];
              && v.children[j].1 == b.weight && service(v.children[j].0) in conf
              && conf[service(v.children[j].0)] ==
                 Balancer([MeshServer(scheme, Key(b.service, o.namespace), port)], false)
    {
      assert ChildLeadsTo(conf, service, v.children[j], kept[j], scheme, port);
    }
  }

  lemma BuiltPlaces(res: Snapshot, linked: Topo, s: Key, k: Key) returns (places: seq<nat>)
    requires Keyed(res) && TB.Complete(res, linked) && s in Populated(linked).services
             && k in Populated(linked).services[s].trafficSplits
    ensures k in res.splits && k in Populated(linked).splits
    ensures PlacesFit(res, res.splits[k], res.splits[k].backends, places)
    ensures AtPlaces(res.splits[k], res.splits[k].backends, places, Populated(linked).splits[k].backends)
  {
    hide TB.Complete, Populated, SpecsOf, KeptBackends, BackendFaults, Fits;
    BuiltAttached(res, linked, s, k);
    SplitIs(res, linked, k);
    places := KeptPlaces(res, res.splits[k], res.splits[k].backends);
  }

  /**
   On built topologies the direct and indirect routers of a split send to a weighted service that has one child for
   each backend of the split object that fits, in order and with its weight, which leads to that backend.
   */
  lemma HTTPSplitSpreads(res: Snapshot, linked: Topo, f: Topo, env: Env, conf: Conf, r: RouterKey)
      returns (places: seq<nat>)
    requires r.SplitDirectRouter? || r.SplitIndirectRouter?
    requires Keyed(res) && TB.Complete(res, linked) && f == Populated(linked)
    requires ConfigOf(env, f, conf) && HTTPRouter(r) in conf
    ensures r.owner in f.services && f.services[r.owner].annotations.scheme.Some?
            && Key(r.split, r.owner.namespace) in res.splits
    ensures Behind(conf, HTTPRouter(r)).Some?
            && SpreadsOver(conf, key => HTTPService(key), Behind(conf, HTTPRouter(r)).value, res,
                           res.splits[Key(r.split, r.owner.namespace)], places,
                           f.services[r.owner].annotations.scheme.value, r.port)
  {
    hide TB.Complete, ConfigOf, Populated, Ready, BackendsKnown, AllIn, PlacesFit, AtPlaces, DirectRule, IndirectRule,
         Priority, HTTPEntryPoint, Spreads, SpreadsOver;
    var k := Key(r.split, r.owner.namespace);
    BuiltIsReady(res, linked);
    SplitOfRouter(env, f, conf, r);
    places := BuiltPlaces(res, linked, r.owner, k);
    BuiltBackends(res, linked, r.owner, k);
    HTTPSpreads(env, f, conf, r.owner, r.split, r.port);
    SpreadPlaces(conf, key => HTTPService(key), conf[HTTPService(SplitService(r.owner, r.split, r.port))], res,
                 res.splits[k], places, f.splits[k].backends, f.services[r.owner].annotations.scheme.value, r.port);
  }

  /** The same for each mapped TCP or UDP port of a service with splits, of which the last one counts. */
  lemma StreamSplitSpreads(res: Snapshot, linked: Topo, f: Topo, env: Env, conf: Conf, s: Key, transport: Transport,
          port: Int32)
      returns (k: Key, places: seq<nat>)
    requires Keyed(res) && TB.Complete(res, linked) && f == Populated(linked) && ConfigOf(env, f, conf)
    requires s in f.services && Evaluable(f.services[s]) && f.services[s].trafficSplits != []
             && f.services[s].annotations.trafficType.value == TypeOf(transport)
    requires StreamEntryPoint(env, f.services[s], transport, port).Some? && HasNumber(f.services[s].ports, port)
    ensures var svc := f.services[s];
            && k == svc.trafficSplits[|svc.trafficSplits| - 1] && k in res.splits
            && LastNumber(svc.ports, port, 0).Some? && StreamService(transport, PortService(s, port)) in conf
            && SpreadsOver(conf, key => StreamService(transport, key),
                           conf[StreamService(transport, PortService(s, port))], res, res.splits[k], places, "",
                           svc.ports[LastNumber(svc.ports, port, 0).value].targetPort)
  {
    hide TB.Complete, ConfigOf, Populated, Ready, BackendsKnown, AllIn, PlacesFit, AtPlaces, Spreads, SpreadsOver,
         StreamEntryPoint, SplitsIn, FromSplits;
    var svc := f.services[s];
    k := svc.trafficSplits[|svc.trafficSplits| - 1];
    BuiltIsReady(res, linked);
    BuiltSplitsIn(res, linked, s);
    if env.acl {
      StreamServiceWithACL(env, f, conf, s, transport, port);
      SplitsDecide(env, f, s, transport, port);
    } else {
      StreamServiceIs(env, f, conf, s, transport, port);
      NumberIsFound(svc.ports, port);
    }
    StreamSpreads(env, f, conf, s, transport, port);
    places := BuiltPlaces(res, linked, s, k);
    SpreadPlaces(conf, key => StreamService(transport, key), conf[StreamService(transport, PortService(s, port))], res,
                 res.splits[k], places, f.splits[k].backends, "",
                 svc.ports[LastNumber(svc.ports, port, 0).value].targetPort);
  }

  lemma SplitsDecide(env: Env, t: Topo, s: Key, transport: Transport, port: Int32)
    requires Ready(t) && s in t.services && t.services[s].trafficSplits != []
    requires StreamEntryPoint(env, t.services[s], transport, port).Some? && HasNumber(t.services[s].ports, port)
    ensures FromSplits(env, t, t.services[s], t.services[s].trafficSplits, transport, port).Some?
  {
    hide StreamEntryPoint, Children;
    var ks := t.services[s].trafficSplits;
    assert SplitReady(t, s, ks[|ks| - 1]);
    NumberIsFound(t.services[s].ports, port);
  }
}
