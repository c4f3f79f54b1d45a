/** The provider: evaluates the services of a topology one by one, writing into a configuration. */
module Provider {
  import opened Basics
  import opened Topologies
  import opened PortMappings
  import opened Rules
  import opened RulePriority
  import opened ConfigWrites
  import opened ConfigTheorems
  import opened ConfigResult
  import ShadowTheorems

  class Configuration {
    var entries: Conf

    /** NewDefaultDynamicConfig */
    constructor ()
      ensures entries == DEFAULT
    {
      entries := DEFAULT;
    }

    method Put(k: ConfKey, v: ConfValue)
      modifies this
      ensures entries == PutAll(old(entries), [Write(k, v)])
    {
      PutOne(entries, Write(k, v));
      entries := entries[k := v];
    }
  }

  lemma PutOne(conf: Conf, w: Write)
    ensures PutAll(conf, [w]) == conf[w.key := w.value]
  {
    assert [w][1..] == [];
    assert PutAll(conf[w.key := w.value], []) == conf[w.key := w.value];
  }

  /** A step of a loop: first done, then rest. */
  lemma PutStep(conf: Conf, first: seq<Write>, rest: seq<Write>, all: seq<Write>)
    requires all == first + rest
    ensures PutAll(PutAll(conf, first), rest) == PutAll(conf, all)
  {
    PutAllConcat(conf, first, rest);
  }

  class ConfigProvider {
    const minHTTPPort: Int32
    const maxHTTPPort: Int32
    const acl: bool
    const resolve: (ServicePort, Pod) -> Option<Int32>
    const tcpStateTable: PortMapping
    const udpStateTable: PortMapping

    constructor (tcp: PortMapping, udp: PortMapping, minHTTPPort: Int32, maxHTTPPort: Int32, acl: bool,
            resolve: (ServicePort, Pod) -> Option<Int32>)
      ensures tcpStateTable == tcp && udpStateTable == udp
      ensures this.minHTTPPort == minHTTPPort && this.maxHTTPPort == maxHTTPPort && this.acl == acl
              && this.resolve == resolve
    {
      tcpStateTable, udpStateTable := tcp, udp;
      this.minHTTPPort, this.maxHTTPPort, this.acl, this.resolve := minHTTPPort, maxHTTPPort, acl, resolve;
    }

    ghost predicate Valid()
      reads tcpStateTable, udpStateTable
    {
      Injective(tcpStateTable.table) && Injective(udpStateTable.table)
    }

    ghost function TheEnv(): Env
      reads tcpStateTable, udpStateTable
    {
      Env(minHTTPPort, maxHTTPPort, acl, resolve, tcpStateTable.table, udpStateTable.table)
    }

    // ---- Entrypoints ----

    method BuildHTTPEntrypoint(portID: nat) returns (r: Option<EntryPoint>)
      ensures r == HTTPEntryPoint(TheEnv(), portID)
    {
      if minHTTPPort as int + portID > maxHTTPPort as int {
        return None;
      }
      r := Some(HTTPEntry((minHTTPPort as int + portID) as Int32));
    }

    /** buildTCPEntrypoint and buildUDPEntrypoint */
    method BuildStreamEntrypoint(svc: Service, transport: Transport, port: Int32) returns (r: Option<EntryPoint>)
      requires Valid()
      ensures r == StreamEntryPoint(TheEnv(), svc, transport, port)
    {
      var m := Mapped(svc.namespace, svc.name, port);
      var stateTable := if transport == OverTCP then tcpStateTable else udpStateTable;
      ShadowTheorems.FindPortExact(stateTable.table, m);
      var meshPort, ok := stateTable.Find(m);
      r := if ok then Some(StreamEntry(transport, meshPort)) else None;
    }

    // ---- Servers and whitelists ----

    method BuildServers(t: Topo, pods: seq<Key>, scheme: string, sp: ServicePort) returns (servers: seq<Server>)
      ensures servers == PodServers(TheEnv(), t, pods, scheme, sp)
    {
      servers := [];
      for i := 0 to |pods|
        invariant servers + PodServers(TheEnv(), t, pods[i..], scheme, sp) == PodServers(TheEnv(), t, pods, scheme, sp)
      {
        assert pods[i..][1..] == pods[i + 1..];
        if pods[i] !in t.pods {
          continue;
        }
        var pod := t.pods[pods[i]];
        var hostPort := resolve(sp, pod);
        if hostPort.None? {
          continue;
        }
        servers := servers + [PodServer(scheme, pod.ip, hostPort.value)];
      }
    }

    method CollectAddresses(t: Topo, pods: seq<Key>) returns (ips: seq<string>)
      ensures ips == Addresses(t, pods)
    {
      hide Addresses;
      ips := [];
      assert pods[0..] == pods;
      for i := 0 to |pods|
        invariant ips + Addresses(t, pods[i..]) == Addresses(t, pods)
      {
        AddressesStep(t, pods, i);
        if pods[i] !in t.pods {
          continue;
        }
        ips := ips + [t.pods[pods[i]].ip];
      }
      NoAddresses(t, pods);
    }

    method BuildWhitelistFromTarget(t: Topo, tt: Target, depth: Option<int>) returns (m: ConfValue)
      ensures m == TargetWhitelist(t, tt, depth)
    {
      var ips: seq<string> := [];
      for i := 0 to |tt.sources|
        invariant ips + Addresses(t, SourcePods(tt.sources[i..])) == Addresses(t, SourcePods(tt.sources))
      {
        assert tt.sources[i..][1..] == tt.sources[i + 1..];
        AddressesConcat(t, tt.sources[i].pods, SourcePods(tt.sources[i + 1..]));
        var more := CollectAddresses(t, tt.sources[i].pods);
        ips := ips + more;
      }
      m := Whitelist(ips, depth);
    }

    // ---- Services ----

    method BuildHTTPForService(t: Topo, conf: Configuration, svc: Service, scheme: string,
            middlewares: seq<MiddlewareKey>)
      requires Valid()
      modifies conf
      ensures conf.entries == PutAll(old(conf.entries), HTTPServiceWrites(TheEnv(), t, svc, scheme, middlewares, 0))
    {
      ghost var env := TheEnv();
      for i := 0 to |svc.ports|
        invariant PutAll(conf.entries, HTTPServiceWrites(env, t, svc, scheme, middlewares, i)) ==
                  PutAll(old(conf.entries), HTTPServiceWrites(env, t, svc, scheme, middlewares, 0))
      {
        var sp := svc.ports[i];
        ghost var before, rest := conf.entries, HTTPServiceWrites(env, t, svc, scheme, middlewares, i + 1);
        var entrypoint := BuildHTTPEntrypoint(i);
        if entrypoint.None? {
          assert HTTPServiceWrites(env, t, svc, scheme, middlewares, i) == rest;
          continue;
        }
        var key := PortService(svc.OwnKey(), sp.port);
        var servers := BuildServers(t, svc.pods, scheme, sp);
        var w := Write(HTTPService(key), Balancer(servers, true));
        var w' := Write(HTTPRouter(PortRouter(svc.OwnKey(), sp.port)),
                        MakeRouter(ServiceRule(svc), entrypoint.value, middlewares, key, SERVICE_TIER));
        PutTwo(conf, w, w');
        PutStep(before, [w, w'], rest, HTTPServiceWrites(env, t, svc, scheme, middlewares, i));
      }
    }

    method PutTwo(conf: Configuration, w: Write, w': Write)
      modifies conf
      ensures conf.entries == PutAll(old(conf.entries), [w, w'])
    {
      PutStep(conf.entries, [w], [w'], [w, w']);
      conf.Put(w.key, w.value);
      conf.Put(w'.key, w'.value);
    }

    /** buildServicesAndRoutersForTCPService and buildServicesAndRoutersForUDPService */
    method BuildStreamForService(t: Topo, conf: Configuration, svc: Service, transport: Transport)
      requires Valid()
      modifies conf
      ensures conf.entries == PutAll(old(conf.entries), StreamServiceWrites(TheEnv(), t, svc, transport, 0))
    {
      hide StreamEntryPoint, PodServers;
      ghost var env := TheEnv();
      for i := 0 to |svc.ports|
        invariant PutAll(conf.entries, StreamServiceWrites(env, t, svc, transport, i)) ==
                    PutAll(old(conf.entries), StreamServiceWrites(env, t, svc, transport, 0))
      {
        var sp := svc.ports[i];
        ghost var before, rest := conf.entries, StreamServiceWrites(env, t, svc, transport, i + 1);
        var entrypoint := BuildStreamEntrypoint(svc, transport, sp.port);
        if entrypoint.None? {
          assert StreamServiceWrites(env, t, svc, transport, i) == rest;
          continue;
        }
        var key := PortService(svc.OwnKey(), sp.port);
        var servers := BuildServers(t, svc.pods, "", sp);
        var w, w' := Write(StreamService(transport, key), Balancer(servers, false)),
            Write(StreamRouter(transport, key), StreamRoute([entrypoint.value], key));
        PutTwo(conf, w, w');
        PutStep(before, [w, w'], rest, StreamServiceWrites(env, t, svc, transport, i));
      }
    }

    method BuildBlockAllRouters(conf: Configuration, svc: Service)
      requires Valid()
      modifies conf
      ensures conf.entries == PutAll(old(conf.entries), BlockAllWrites(TheEnv(), svc, 0))
    {
      ghost var env := TheEnv();
      for i := 0 to |svc.ports|
        invariant PutAll(conf.entries, BlockAllWrites(env, svc, i)) ==
                    PutAll(old(conf.entries), BlockAllWrites(env, svc, 0))
      {
        ghost var before, rest := conf.entries, BlockAllWrites(env, svc, i + 1);
        var entrypoint := BuildHTTPEntrypoint(i);
        if entrypoint.None? {
          assert BlockAllWrites(env, svc, i) == rest;
          continue;
        }
        var w := Write(HTTPRouter(PortRouter(svc.OwnKey(), svc.ports[i].port)),
                       Router(ServiceRule(svc), [entrypoint.value], [BlockAllMiddleware], BlockAllService,
                              BLOCK_ALL_PRIORITY));
        conf.Put(w.key, w.value);
        PutStep(before, [w], rest, BlockAllWrites(env, svc, i));
      }
    }

    // ---- Traffic-targets ----

    method BuildHTTPForTargetPort(t: Topo, conf: Configuration, tt: Target, svc: Service, scheme: string,
            middlewares: seq<MiddlewareKey>, sp: ServicePort, entry: EntryPoint, rule: Rule)
      requires Valid()
      modifies conf
      ensures conf.entries ==
                PutAll(old(conf.entries),
                       HTTPTargetPortWrites(TheEnv(), t, tt, svc, scheme, middlewares, sp, entry, rule))
    {
      hide PodServers, Priority, Addresses, IndirectRule;
      var key := TargetService(tt.service, tt.name, sp.port);
      var direct, indirect := TargetDirectWhitelist(tt.service, tt.name), TargetIndirectWhitelist(tt.service, tt.name);
      var servers := BuildServers(t, tt.destination.pods, scheme, sp);
      var a := Write(HTTPService(key), Balancer(servers, true));
      var b := Write(HTTPRouter(TargetDirectRouter(tt.service, tt.name, sp.port)),
                     MakeRouter(rule, entry, middlewares + [direct], key, TARGET_DIRECT_TIER));
      PutTwo(conf, a, b);
      if |svc.backendOf| > 0 {
        var whitelist := BuildWhitelistFromTarget(t, tt, Some(1));
        var c := Write(HTTPMiddleware(indirect), whitelist);
        var d := Write(HTTPRouter(TargetIndirectRouter(tt.service, tt.name, sp.port)),
                       MakeRouter(IndirectRule(svc, tt.rules), entry, middlewares + [indirect], key,
                                  TARGET_INDIRECT_TIER));
        PutStep(old(conf.entries), [a, b], [c, d], [a, b] + [c, d]);
        PutTwo(conf, c, d);
      } else {
        assert [a, b] + [] == [a, b];
      }
    }

    method BuildHTTPForTarget(t: Topo, conf: Configuration, tt: Target, svc: Service, scheme: string,
            middlewares: seq<MiddlewareKey>)
      requires Valid()
      modifies conf
      ensures conf.entries == PutAll(old(conf.entries), HTTPTargetWrites(TheEnv(), t, tt, svc, scheme, middlewares))
    {
      hide HTTPTargetPortWrites, TargetWhitelist, DirectRule, IndirectRule;
      ghost var env := TheEnv();
      var whitelist := BuildWhitelistFromTarget(t, tt, None);
      var w := Write(HTTPMiddleware(TargetDirectWhitelist(tt.service, tt.name)), whitelist);
      conf.Put(w.key, w.value);
      var rule := DirectRule(svc, tt.rules);
      ghost var begun, all := conf.entries, HTTPTargetPortsWrites(env, t, tt, svc, scheme, middlewares, 0, rule);
      PutStep(old(conf.entries), [w], all, [w] + all);
      for i := 0 to |tt.destination.ports|
        invariant PutAll(conf.entries, HTTPTargetPortsWrites(env, t, tt, svc, scheme, middlewares, i, rule)) ==
                    PutAll(begun, all)
      {
        var sp := tt.destination.ports[i];
        ghost var before := conf.entries;
        var entrypoint := BuildHTTPEntrypoint(i);
        if entrypoint.None? {
          continue;
        }
        ghost var here := HTTPTargetPortWrites(env, t, tt, svc, scheme, middlewares, sp, entrypoint.value, rule);
        var rule' := if |svc.backendOf| > 0 then IndirectRule(svc, tt.rules) else rule;
        BuildHTTPForTargetPort(t, conf, tt, svc, scheme, middlewares, sp, entrypoint.value, rule);
        ghost var rest := HTTPTargetPortsWrites(env, t, tt, svc, scheme, middlewares, i + 1, rule');
        PutStep(before, here, rest, HTTPTargetPortsWrites(env, t, tt, svc, scheme, middlewares, i, rule));
        rule := rule';
      }
    }

    method BuildTCPForTarget(t: Topo, conf: Configuration, tt: Target, svc: Service)
      requires Valid()
      modifies conf
      ensures conf.entries ==
                PutAll(old(conf.entries), if HasTCPRoute(tt) then TCPTargetWrites(TheEnv(), t, tt, svc, 0) else [])
    {
      hide StreamEntryPoint, PodServers;
      if !HasTCPRoute(tt) {
        return;
      }
      ghost var env := TheEnv();
      for i := 0 to |tt.destination.ports|
        invariant PutAll(conf.entries, TCPTargetWrites(env, t, tt, svc, i)) ==
                    PutAll(old(conf.entries), TCPTargetWrites(env, t, tt, svc, 0))
      {
        var sp := tt.destination.ports[i];
        ghost var before, rest := conf.entries, TCPTargetWrites(env, t, tt, svc, i + 1);
        var entrypoint := BuildStreamEntrypoint(svc, OverTCP, sp.port);
        if entrypoint.None? {
          assert TCPTargetWrites(env, t, tt, svc, i) == rest;
          continue;
        }
        var key := PortService(svc.OwnKey(), sp.port);
        var servers := BuildServers(t, tt.destination.pods, "", sp);
        var w, w' := Write(StreamService(OverTCP, key), Balancer(servers, false)),
            Write(StreamRouter(OverTCP, key), StreamRoute([entrypoint.value], key));
        PutTwo(conf, w, w');
        PutStep(before, [w, w'], rest, TCPTargetWrites(env, t, tt, svc, i));
      }
    }

    method BuildForTarget(t: Topo, conf: Configuration, tk: TargetKey, scheme: string, tt: TrafficType,
            middlewares: seq<MiddlewareKey>)
      requires Valid() && tk in t.targets
      modifies conf
      ensures conf.entries == PutAll(old(conf.entries), TargetWrites(TheEnv(), t, tk, scheme, tt, middlewares))
    {
      hide HTTPTargetWrites, TCPTargetWrites, HasTCPRoute;
      var target := t.targets[tk];
      if target.service !in t.services {
        return;
      }
      var svc := t.services[target.service];
      match tt
      case HTTP => BuildHTTPForTarget(t, conf, target, svc, scheme, middlewares);
      case TCPType => BuildTCPForTarget(t, conf, target, svc);
      case UDPType =>
      case Unknown =>
    }

    // ---- Traffic-splits ----

    /** Tells whether all backends are known; the services written before an unknown one remain. */
    method BuildBackends(t: Topo, conf: Configuration, ts: Split, scheme: string, port: Int32)
        returns (children: Option<seq<(ServiceKey, int)>>)
      modifies conf
      ensures conf.entries == PutAll(old(conf.entries), HTTPBackendWrites(t, ts, scheme, port, ts.backends))
      ensures children == if BackendsKnown(t, ts.backends) then Some(Children(ts, port, ts.backends)) else None
    {
      var bs := ts.backends;
      var acc: seq<(ServiceKey, int)> := [];
      for i := 0 to |bs|
        invariant PutAll(conf.entries, HTTPBackendWrites(t, ts, scheme, port, bs[i..])) ==
                    PutAll(old(conf.entries), HTTPBackendWrites(t, ts, scheme, port, bs))
        invariant acc == Children(ts, port, bs)[..i]
        invariant forall j :: 0 <= j < i ==> bs[j].service in t.services
      {
        assert bs[i..][1..] == bs[i + 1..];
        if bs[i].service !in t.services {
          return None;
        }
        ghost var before := conf.entries;
        var w := Write(HTTPService(BackendKey(ts, port, bs[i])),
                       Balancer([MeshServer(scheme, bs[i].service, port)], false));
        conf.Put(w.key, w.value);
        PutStep(before, [w], HTTPBackendWrites(t, ts, scheme, port, bs[i + 1..]),
                HTTPBackendWrites(t, ts, scheme, port, bs[i..]));
        acc := acc + [(BackendKey(ts, port, bs[i]), bs[i].weight)];
      }
      assert acc == Children(ts, port, bs);
      assert forall b :: b in bs ==> b.service in t.services;
      children := Some(acc);
    }

    method BuildHTTPForSplitPort(t: Topo, conf: Configuration, ts: Split, svc: Service,
            middlewares: seq<MiddlewareKey>, sp: ServicePort, entry: EntryPoint, rule: Rule,
            children: seq<(ServiceKey, int)>)
      requires Valid() && children == Children(ts, sp.port, ts.backends)
      modifies conf
      ensures conf.entries ==
                PutAll(old(conf.entries), HTTPSplitPortWrites(TheEnv(), t, ts, svc, middlewares, sp, entry, rule))
    {
      hide Priority, Addresses, IndirectRule, Children;
      var key := SplitService(ts.service, ts.name, sp.port);
      var direct, indirect := SplitDirectWhitelist(ts.service, ts.name), SplitIndirectWhitelist(ts.service, ts.name);
      var a := Write(HTTPService(key), Weighted(children));
      var b := Write(HTTPRouter(SplitDirectRouter(ts.service, ts.name, sp.port)),
                     MakeRouter(rule, entry, if acl then middlewares + [direct] else middlewares, key, SPLIT_TIER));
      PutTwo(conf, a, b);
      if |svc.backendOf| > 0 && acl {
        var ips := CollectAddresses(t, ts.incoming);
        var c := Write(HTTPMiddleware(indirect), Whitelist(ips, Some(1)));
        var d := Write(HTTPRouter(SplitIndirectRouter(ts.service, ts.name, sp.port)),
                       MakeRouter(IndirectRule(svc, ts.rules), entry, middlewares + [indirect], key,
                                  TARGET_INDIRECT_TIER));
        PutStep(old(conf.entries), [a, b], [c, d], [a, b] + [c, d]);
        PutTwo(conf, c, d);
      } else {
        assert [a, b] + [] == [a, b];
      }
    }

    method BuildHTTPForSplitPorts(t: Topo, conf: Configuration, ts: Split, svc: Service, scheme: string,
            middlewares: seq<MiddlewareKey>)
      requires Valid()
      modifies conf
      ensures conf.entries ==
                PutAll(old(conf.entries),
                       HTTPSplitPortsWrites(TheEnv(), t, ts, svc, scheme, middlewares, 0, DirectRule(svc, ts.rules)))
    {
      hide HTTPSplitPortWrites, HTTPBackendWrites, BackendsKnown, Children, DirectRule, IndirectRule;
      ghost var env := TheEnv();
      var rule := DirectRule(svc, ts.rules);
      ghost var all := HTTPSplitPortsWrites(env, t, ts, svc, scheme, middlewares, 0, rule);
      for i := 0 to |svc.ports|
        invariant PutAll(conf.entries, HTTPSplitPortsWrites(env, t, ts, svc, scheme, middlewares, i, rule)) ==
                    PutAll(old(conf.entries), all)
      {
        var sp := svc.ports[i];
        ghost var before, now := conf.entries, HTTPSplitPortsWrites(env, t, ts, svc, scheme, middlewares, i, rule);
        ghost var backends := HTTPBackendWrites(t, ts, scheme, sp.port, ts.backends);
        var children := BuildBackends(t, conf, ts, scheme, sp.port);
        var entrypoint := BuildHTTPEntrypoint(i);
        if children.None? || entrypoint.None? {
          PutStep(before, backends, HTTPSplitPortsWrites(env, t, ts, svc, scheme, middlewares, i + 1, rule), now);
          continue;
        }
        ghost var here := HTTPSplitPortWrites(env, t, ts, svc, middlewares, sp, entrypoint.value, rule);
        var rule' := if |svc.backendOf| > 0 && acl then IndirectRule(svc, ts.rules) else rule;
        ghost var rest := HTTPSplitPortsWrites(env, t, ts, svc, scheme, middlewares, i + 1, rule');
        PutStep(before, backends, here + rest, now);
        PutStep(conf.entries, here, rest, here + rest);
        BuildHTTPForSplitPort(t, conf, ts, svc, middlewares, sp, entrypoint.value, rule, children.value);
        rule := rule';
      }
    }

    method BuildHTTPForSplit(t: Topo, conf: Configuration, ts: Split, svc: Service, scheme: string,
            middlewares: seq<MiddlewareKey>)
      requires Valid()
      modifies conf
      ensures conf.entries == PutAll(old(conf.entries), HTTPSplitWrites(TheEnv(), t, ts, svc, scheme, middlewares))
    {
      hide HTTPSplitPortsWrites, Addresses, DirectRule;
      ghost var ports := HTTPSplitPortsWrites(TheEnv(), t, ts, svc, scheme, middlewares, 0, DirectRule(svc, ts.rules));
      if acl {
        var ips := CollectAddresses(t, ts.incoming);
        var w := Write(HTTPMiddleware(SplitDirectWhitelist(ts.service, ts.name)), Whitelist(ips, None));
        conf.Put(w.key, w.value);
        PutStep(old(conf.entries), [w], ports, [w] + ports);
      } else {
        assert [] + ports == ports;
      }
      BuildHTTPForSplitPorts(t, conf, ts, svc, scheme, middlewares);
    }

    /** buildTCPServiceAndRoutersForTrafficSplit and buildUDPServiceAndRoutersForTrafficSplit */
    method BuildStreamForSplit(conf: Configuration, ts: Split, svc: Service, transport: Transport)
      requires Valid()
      modifies conf
      ensures conf.entries == PutAll(old(conf.entries), StreamSplitWrites(TheEnv(), ts, svc, transport, 0))
    {
      hide StreamEntryPoint;
      ghost var env := TheEnv();
      for i := 0 to |svc.ports|
        invariant PutAll(conf.entries, StreamSplitWrites(env, ts, svc, transport, i)) ==
                    PutAll(old(conf.entries), StreamSplitWrites(env, ts, svc, transport, 0))
      {
        var sp := svc.ports[i];
        ghost var before, rest := conf.entries, StreamSplitWrites(env, ts, svc, transport, i + 1);
        var entrypoint := BuildStreamEntrypoint(svc, transport, sp.port);
        if entrypoint.None? {
          assert StreamSplitWrites(env, ts, svc, transport, i) == rest;
          continue;
        }
        ghost var backends := StreamBackendWrites(ts, transport, sp, ts.backends);
        var children := BuildStreamBackends(conf, ts, transport, sp);
        var key := PortService(svc.OwnKey(), sp.port);
        var w, w' := Write(StreamService(transport, key), Weighted(children)),
            Write(StreamRouter(transport, key), StreamRoute([entrypoint.value], key));
        PutStep(before, backends, [w, w'], backends + [w, w']);
        PutTwo(conf, w, w');
        PutStep(before, backends + [w, w'], rest, StreamSplitWrites(env, ts, svc, transport, i));
      }
    }

    method BuildStreamBackends(conf: Configuration, ts: Split, transport: Transport, sp: ServicePort)
        returns (children: seq<(ServiceKey, int)>)
      modifies conf
      ensures conf.entries == PutAll(old(conf.entries), StreamBackendWrites(ts, transport, sp, ts.backends))
      ensures children == Children(ts, sp.port, ts.backends)
    {
      var bs := ts.backends;
      children := [];
      for i := 0 to |bs|
        invariant PutAll(conf.entries, StreamBackendWrites(ts, transport, sp, bs[i..])) ==
                    PutAll(old(conf.entries), StreamBackendWrites(ts, transport, sp, bs))
        invariant children == Children(ts, sp.port, bs)[..i]
      {
        assert bs[i..][1..] == bs[i + 1..];
        ghost var before := conf.entries;
        var w := Write(StreamService(transport, BackendKey(ts, sp.port, bs[i])),
                       Balancer([MeshServer("", bs[i].service, sp.targetPort)], false));
        conf.Put(w.key, w.value);
        PutStep(before, [w], StreamBackendWrites(ts, transport, sp, bs[i + 1..]),
                StreamBackendWrites(ts, transport, sp, bs[i..]));
        children := children + [(BackendKey(ts, sp.port, bs[i]), bs[i].weight)];
      }
    }

    method BuildForSplit(t: Topo, conf: Configuration, k: Key, scheme: string, tt: TrafficType,
            middlewares: seq<MiddlewareKey>)
      requires Valid() && k in t.splits
      modifies conf
      ensures conf.entries == PutAll(old(conf.entries), SplitWrites(TheEnv(), t, k, scheme, tt, middlewares))
    {
      hide HTTPSplitWrites, StreamSplitWrites;
      var ts := t.splits[k];
      if ts.service !in t.services {
        return;
      }
      var svc := t.services[ts.service];
      match tt
      case HTTP => BuildHTTPForSplit(t, conf, ts, svc, scheme, middlewares);
      case TCPType => BuildStreamForSplit(conf, ts, svc, OverTCP);
      case UDPType => BuildStreamForSplit(conf, ts, svc, OverUDP);
      case Unknown =>
    }

    // ---- One service, and all of them ----

    method BuildAnnotationMiddlewares(conf: Configuration, svc: Service, ms: seq<(string, string)>)
        returns (keys: seq<MiddlewareKey>)
      modifies conf
      ensures conf.entries == PutAll(old(conf.entries), AnnotationWrites(svc, ms))
      ensures keys == AnnotationKeys(svc, ms)
    {
      keys := [];
      for i := 0 to |ms|
        invariant PutAll(conf.entries, AnnotationWrites(svc, ms[i..])) ==
                    PutAll(old(conf.entries), AnnotationWrites(svc, ms))
        invariant keys == AnnotationKeys(svc, ms)[..i]
      {
        assert ms[i..][1..] == ms[i + 1..];
        ghost var before := conf.entries;
        var w := Write(HTTPMiddleware(Annotated(svc.OwnKey(), ms[i].0)), Custom(ms[i].1));
        conf.Put(w.key, w.value);
        PutStep(before, [w], AnnotationWrites(svc, ms[i + 1..]), AnnotationWrites(svc, ms[i..]));
        keys := keys + [Annotated(svc.OwnKey(), ms[i].0)];
      }
    }

    method BuildTargets(t: Topo, conf: Configuration, tks: seq<TargetKey>, scheme: string, tt: TrafficType,
            middlewares: seq<MiddlewareKey>)
      requires Valid() && forall tk :: tk in tks ==> tk in t.targets
      modifies conf
      ensures conf.entries == PutAll(old(conf.entries), TargetsWrites(TheEnv(), t, tks, scheme, tt, middlewares))
    {
      hide TargetWrites;
      ghost var env := TheEnv();
      for i := 0 to |tks|
        invariant PutAll(conf.entries, TargetsWrites(env, t, tks[i..], scheme, tt, middlewares)) ==
                    PutAll(old(conf.entries), TargetsWrites(env, t, tks, scheme, tt, middlewares))
      {
        assert tks[i..][1..] == tks[i + 1..];
        ghost var before := conf.entries;
        BuildForTarget(t, conf, tks[i], scheme, tt, middlewares);
        PutStep(before, TargetWrites(env, t, tks[i], scheme, tt, middlewares),
                TargetsWrites(env, t, tks[i + 1..], scheme, tt, middlewares),
                TargetsWrites(env, t, tks[i..], scheme, tt, middlewares));
      }
    }

    method BuildSplits(t: Topo, conf: Configuration, ks: seq<Key>, scheme: string, tt: TrafficType,
            middlewares: seq<MiddlewareKey>)
      requires Valid() && forall k :: k in ks ==> k in t.splits
      modifies conf
      ensures conf.entries == PutAll(old(conf.entries), SplitsWrites(TheEnv(), t, ks, scheme, tt, middlewares))
    {
      hide SplitWrites;
      ghost var env := TheEnv();
      for i := 0 to |ks|
        invariant PutAll(conf.entries, SplitsWrites(env, t, ks[i..], scheme, tt, middlewares)) ==
                    PutAll(old(conf.entries), SplitsWrites(env, t, ks, scheme, tt, middlewares))
      {
        assert ks[i..][1..] == ks[i + 1..];
        ghost var before := conf.entries;
        BuildForSplit(t, conf, ks[i], scheme, tt, middlewares);
        PutStep(before, SplitWrites(env, t, ks[i], scheme, tt, middlewares),
                SplitsWrites(env, t, ks[i + 1..], scheme, tt, middlewares),
                SplitsWrites(env, t, ks[i..], scheme, tt, middlewares));
      }
    }

    method BuildOwn(t: Topo, conf: Configuration, svc: Service, scheme: string, tt: TrafficType,
            middlewares: seq<MiddlewareKey>)
      requires Valid() && forall tk :: tk in svc.trafficTargets ==> tk in t.targets
      modifies conf
      ensures conf.entries == PutAll(old(conf.entries), OwnWrites(TheEnv(), t, svc, scheme, tt, middlewares))
    {
      hide BlockAllWrites, TargetsWrites, HTTPServiceWrites, StreamServiceWrites;
      if acl {
        ghost var block := if tt == HTTP then BlockAllWrites(TheEnv(), svc, 0) else [];
        ghost var targets := TargetsWrites(TheEnv(), t, svc.trafficTargets, scheme, tt, middlewares);
        PutStep(conf.entries, block, targets, block + targets);
        if tt == HTTP {
          BuildBlockAllRouters(conf, svc);
        }
        BuildTargets(t, conf, svc.trafficTargets, scheme, tt, middlewares);
      } else {
        match tt
        case HTTP => BuildHTTPForService(t, conf, svc, scheme, middlewares);
        case TCPType => BuildStreamForService(t, conf, svc, OverTCP);
        case UDPType => BuildStreamForService(t, conf, svc, OverUDP);
        case Unknown =>
      }
    }

    method BuildConfigForService(t: Topo, conf: Configuration, svc: Service)
      requires Valid()
      requires forall tk :: tk in svc.trafficTargets ==> tk in t.targets
      requires forall k :: k in svc.trafficSplits ==> k in t.splits
      modifies conf
      ensures conf.entries == PutAll(old(conf.entries), ServiceWrites(TheEnv(), t, svc))
    {
      hide AnnotationWrites, AnnotationKeys, OwnWrites, SplitsWrites;
      if svc.annotations.trafficType.None? || svc.annotations.scheme.None? {
        return;
      }
      var tt, scheme := svc.annotations.trafficType.value, svc.annotations.scheme.value;
      if tt == HTTP && svc.annotations.middlewares.None? {
        return;
      }
      var ms := if tt == HTTP then svc.annotations.middlewares.value else [];
      ghost var env := TheEnv();
      ghost var first := AnnotationWrites(svc, ms);
      var keys := BuildAnnotationMiddlewares(conf, svc, ms);
      ghost var own := OwnWrites(env, t, svc, scheme, tt, keys);
      ghost var splits := if !acl && tt == Unknown then []
      else SplitsWrites(env, t, svc.trafficSplits, scheme, tt, keys);
      BuildOwn(t, conf, svc, scheme, tt, keys);
      PutStep(old(conf.entries), first, own, first + own);
      PutStep(old(conf.entries), first + own, splits, first + own + splits);
      if !acl && tt == Unknown {
        return;
      }
      BuildSplits(t, conf, svc.trafficSplits, scheme, tt, keys);
    }

    /** Builds the configuration of a topology. Services are ranged over in no particular order. */
    method BuildConfig(t: Topo) returns (conf: Configuration)
      requires Valid() && Ready(t)
      ensures fresh(conf) && ConfigOf(TheEnv(), t, conf.entries)
    {
      hide ServiceWrites, BuiltSoFar, Valid, TheEnv;
      conf := new Configuration();
      NothingBuilt(TheEnv(), t);
      var todo := t.services.Keys;
      assert t.services.Keys - todo == {};
      while todo != {}
        invariant todo <= t.services.Keys && Valid()
        invariant BuiltSoFar(TheEnv(), t, t.services.Keys - todo, conf.entries)
        decreases todo
      {
        var s :| s in todo;
        OneMoreBuilt(TheEnv(), t, t.services.Keys - todo, conf.entries, s);
        assert forall k :: k in t.services[s].trafficSplits ==> SplitReady(t, s, k);
        BuildConfigForService(t, conf, t.services[s]);
        assert t.services.Keys - (todo - {s}) == (t.services.Keys - todo) + {s};
        todo := todo - {s};
      }
      assert t.services.Keys - {} == t.services.Keys;
    }
  }

  lemma AddressesStep(t: Topo, pods: seq<Key>, i: nat)
    requires i < |pods|
    ensures Addresses(t, pods[i..]) ==
            (if pods[i] in t.pods then [t.pods[pods[i]].ip] else []) + Addresses(t, pods[i + 1..])
  {
    assert pods[i..][1..] == pods[i + 1..];
  }

  lemma NoAddresses(t: Topo, pods: seq<Key>)
    ensures Addresses(t, pods[|pods|..]) == []
  {
  }
}
