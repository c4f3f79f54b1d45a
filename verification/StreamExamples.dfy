/** Services with TCP traffic for which the code does not do what one might expect of it. */
module StreamExamples {
  import opened Basics
  import opened Topologies
  import opened Resources
  import opened TopologyLinks
  import opened SplitGraph
  import opened SplitTheorems
  import opened SplitPass
  import opened BuiltTopologies
  import opened ShadowNames
  import opened PortMappings
  import opened ConfigWrites
  import opened ConfigResult
  import opened EntryPoints
  import opened Streams
  import opened Servers
  import opened Backends
  import opened MeshPorts
  import CT = ConfigTheorems
  import TB = TopologyBuilder
  import SS = ShadowServices
  import ST = ShadowTheorems

  const TCP_ANNOTATIONS := Annotations(Some(TCPType), Some(""), Some([]))

  // ---- A split without any target ----

  const DB := Key("db", "ns")
  const DB2 := Key("db2", "ns")
  const MOVE := Key("move", "ns")
  const SQL := ServicePort("sql", 5432, TCP, 15432)

  /** A split from one service to another, and no traffic-target at all. */
  function Moved(): Snapshot {
    Snapshot(map[DB := ServiceObject("db", "ns", TCP_ANNOTATIONS, [SQL], "10.0.0.1"),
                 DB2 := ServiceObject("db2", "ns", TCP_ANNOTATIONS, [SQL], "10.0.0.2")],
             map[MOVE := SplitObject("move", "ns", "db", [BackendObject("db2", 1)], [])],
             map[], map[], {}, map[], map[], map[])
  }

  function MovedEnv(): Env {
    Env(5000, 5009, true, (sp, pod) => None, map[10000 := Mapped("ns", "db", 5432)], map[])
  }

  lemma MovedSplit()
    ensures var res := Moved();
            && Keyed(res) && Attachable(res, res.splits[MOVE]) && RootOf(res.splits[MOVE]) == DB
            && SplitOf(res, res.splits[MOVE]).backends == [Backend(1, DB2)]
  {
    var res := Moved();
    var o := res.splits[MOVE];
    hide SpecsOf, KeptBackends, BackendFaults, SplitOf, Attachable;
    assert BackendFault(res, o, o.backends[0]).None?;
    OneBackendSplit(res, o);
  }

  /** The split stays, and the service has no target. */
  lemma MovedStays(linked: Topo)
    requires TB.Complete(Moved(), linked)
    ensures var f := Populated(linked);
            && DB in f.services && f.services[DB].trafficSplits == [MOVE] && f.services[DB].trafficTargets == []
            && f.services[DB].ports == [SQL] && f.services[DB].annotations == TCP_ANNOTATIONS
            && f.services[DB].OwnKey() == DB
  {
    hide TB.Complete, Attachable, SplitOf, Recorded, Incoming, TargetAttachable;
    var res := Moved();
    MovedSplit();
    SplitIs(res, linked, MOVE);
    SplitsOn(res, linked, DB);
    SplitsOn(res, linked, DB2);
    Single(linked.services[DB].trafficSplits, MOVE);
    EmptyOrInhabited(linked.services[DB2].trafficSplits);
    ServiceIs(res, linked, DB);
    forall s, tk | s == DB || s == DB2
      ensures tk !in linked.services[s].trafficTargets
    {
      AttachedExactly(res, linked, s, tk.target);
    }
    EmptyOrInhabited(linked.services[DB].trafficTargets);
    EmptyOrInhabited(linked.services[DB2].trafficTargets);
    EmptyLeafFirst(linked, MOVE, DB2);
    KeptMembers(linked, [MOVE]);
    assert [MOVE][1..] == [] && Kept(linked, [MOVE]) == [MOVE];
  }

  /** With ACL, the port of the service has a router, although no traffic-target allows anything. */
  lemma SplitOpensPort(linked: Topo, conf: Conf)
    requires TB.Complete(Moved(), linked) && ConfigOf(MovedEnv(), Populated(linked), conf)
    ensures Keyed(Moved()) && Moved().targets == map[] && MovedEnv().acl
    ensures StreamRouter(OverTCP, PortService(DB, 5432)) in conf
  {
    hide TB.Complete, Populated, ConfigOf, CT.Ready;
    MovedSplit();
    MovedStays(linked);
    BuiltIsReady(Moved(), linked);
    var f, env := Populated(linked), MovedEnv();
    MovedEntry(f.services[DB]);
    assert f.services[DB].ports[0].port == 5432;
    StreamRouterExactly(env, f, conf, DB, OverTCP, 5432);
  }

  /** The backend of the split is addressed on the target port of the service, which the backend does not expose. */
  lemma BackendIsMissed(linked: Topo, conf: Conf)
    requires TB.Complete(Moved(), linked) && ConfigOf(MovedEnv(), Populated(linked), conf)
    ensures Keyed(Moved()) && DB2 in Moved().services && !HasNumber(Moved().services[DB2].ports, 15432)
    ensures var k := StreamService(OverTCP, BackendService(DB, "move", 5432, "db2"));
            k in conf && conf[k] == Balancer([MeshServer("", DB2, 15432)], false)
  {
    hide TB.Complete, Populated, ConfigOf, CT.Ready;
    MovedSplit();
    MovedStays(linked);
    BuiltIsReady(Moved(), linked);
    BuiltSplitsIn(Moved(), linked, DB);
    var f, env := Populated(linked), MovedEnv();
    MovedEntry(f.services[DB]);
    MovedBackend(linked);
    assert LastNumber(f.services[DB].ports, 5432, 0) == Some(0);
    StreamBackendIs(env, f, conf, DB, OverTCP, "move", 5432, "db2");
  }

  lemma MovedEntry(svc: Service)
    requires svc.OwnKey() == DB
    ensures StreamEntryPoint(MovedEnv(), svc, OverTCP, 5432).Some?
  {
    assert Holds(MovedEnv().tcp, 10000, Mapped("ns", "db", 5432));
    ST.FindPortExact(MovedEnv().tcp, Mapped("ns", "db", 5432));
  }

  lemma MovedBackend(linked: Topo)
    requires TB.Complete(Moved(), linked)
    ensures MOVE in Populated(linked).splits && NamedBackend(Populated(linked).splits[MOVE].backends, "db2")
  {
    hide TB.Complete, SplitOf, Recorded;
    MovedSplit();
    SplitIs(Moved(), linked, MOVE);
    assert Populated(linked).splits[MOVE].backends[0].service.name == "db2";
  }

  // ---- A port number that is used for two protocols ----

  const DNS := Key("dns", "ns")
  const DNS_POD := PodObject("dns", "ns", "sa", "10.1.0.9")
  const OVER_TCP := ServicePort("tcp", 53, TCP, 5353)
  const OVER_UDP := ServicePort("udp", 53, UDP, 5300)
  const DNS_CONFIG := SS.Config("mesh", 5000, 5009, 10000, 10009, 15000, 15009)

  /** A service with TCP traffic, whose pod serves TCP on 5353 and UDP on 5300. */
  function DnsObjects(): Snapshot {
    Snapshot(map[DNS := ServiceObject("dns", "ns", TCP_ANNOTATIONS, [OVER_TCP, OVER_UDP], "10.0.0.3")],
             map[], map[], map[], {}, map[DNS := [DNS_POD]], map[Key("sa", "ns") := [DNS_POD]],
             map[Key("sa", "ns") := map[DNS := [DNS_POD]]])
  }

  /** Pods resolve ports to the number that is given. */
  function DnsEnv(st: SS.State): Env {
    Env(5000, 5009, false, (sp: ServicePort, pod) => Some(sp.targetPort), st.tcp, st.udp)
  }

  lemma DnsIs(linked: Topo)
    requires TB.Complete(DnsObjects(), linked)
    ensures Keyed(DnsObjects()) && CT.Ready(Populated(linked))
    ensures var f, pod := Populated(linked), DNS_POD.OwnKey();
            && DNS in f.services && f.services[DNS].OwnKey() == DNS && f.services[DNS].annotations == TCP_ANNOTATIONS
            && f.services[DNS].ports == [OVER_TCP, OVER_UDP] && f.services[DNS].pods == [pod]
            && f.services[DNS].trafficSplits == [] && pod in f.pods && f.pods[pod].ip == "10.1.0.9"
  {
    hide TB.Complete, CT.Ready, Recorded, Attachable, SplitOf;
    var res, pod := DnsObjects(), DNS_POD.OwnKey();
    BuiltIsReady(res, linked);
    SplitsOn(res, linked, DNS);
    EmptyOrInhabited(linked.services[DNS].trafficSplits);
    ServiceIs(res, linked, DNS);
    BuiltPods(res, linked, DNS);
    assert PodKeys([DNS_POD]) == [pod];
    PodsOf(res, linked);
    PodPresent(res, linked, DNS, pod);
    DnsPodKnown(Populated(linked).pods);
  }

  lemma DnsPodKnown(pods: map<Key, Pod>)
    requires PodsKnown(DnsObjects(), pods) && DNS_POD.OwnKey() in pods
    ensures pods[DNS_POD.OwnKey()].ip == "10.1.0.9"
  {
    assert Known(DnsObjects(), DNS_POD.OwnKey(), pods[DNS_POD.OwnKey()]);
    assert forall o :: Offers(DnsObjects(), o) ==> o == DNS_POD;
  }

  /** The first sync maps the TCP port, and stores a shadow service with it. */
  lemma DnsSynced(svc: Service)
    requires svc.OwnKey() == DNS && svc.annotations == TCP_ANNOTATIONS && svc.ports == [OVER_TCP, OVER_UDP]
    ensures var st := SS.Sync(DNS_CONFIG, ST.EMPTY, AsUser(svc));
            && SS.ShadowPorts(DNS_CONFIG, st.store, AsUser(svc).id) == [OVER_TCP.(targetPort := 10000)]
            && st.tcp == map[10000 := Mapped("ns", "dns", 53)]
  {
    var cfg, user := DNS_CONFIG, AsUser(svc);
    var shadow, m := [OVER_TCP.(targetPort := 10000)], Mapped("ns", "dns", 53);
    var st := ST.EMPTY.(tcp := map[10000 := m]);
    ST.FindPortExact(map[], m);
    assert LeastFree(map[], 10000, 10009) == Some(10000);
    assert SS.Unused([], user.ports) == [] && SS.ShadowPorts(cfg, ST.EMPTY.store, user.id) == [];
    assert SS.TargetPort(cfg, ST.EMPTY, user.id, TCPType, 0, 53) == (Some(10000), st);
    assert SS.Allocate(cfg, st, user.id, TCPType, user.ports, 2, shadow) == (shadow, st);
    assert SS.Allocate(cfg, st, user.id, TCPType, user.ports, 1, shadow) == (shadow, st);
    assert [] + shadow == shadow;
    assert SS.Allocate(cfg, ST.EMPTY, user.id, TCPType, user.ports, 0, []) == (shadow, st);
    assert SS.Outdated([], shadow) == [];
  }

  /** The router of the shadow port listens on its target, and sends TCP traffic to where the pod serves UDP. */
  lemma SharedNumberMisleads(linked: Topo, conf: Conf)
    requires TB.Complete(DnsObjects(), linked) && DNS in Populated(linked).services
    requires var st := SS.Sync(DNS_CONFIG, ST.EMPTY, AsUser(Populated(linked).services[DNS]));
             ConfigOf(DnsEnv(st), Populated(linked), conf)
    ensures Keyed(DnsObjects())
    ensures var svc, k := Populated(linked).services[DNS], StreamRouter(OverTCP, PortService(DNS, 53));
            var st := SS.Sync(DNS_CONFIG, ST.EMPTY, AsUser(svc));
            && SS.ShadowPorts(DNS_CONFIG, st.store, AsUser(svc).id) == [OVER_TCP.(targetPort := 10000)]
            && k in conf && ListensOn(conf[k]) == [StreamEntry(OverTCP, 10000)]
            && Behind(conf, k) == Some(Balancer([PodServer("", "10.1.0.9", 5300)], false))
  {
    hide TB.Complete, Populated, ConfigOf, CT.Ready, SS.Sync, SS.ShadowPorts, StreamEntryPoint, ServiceWrites;
    DnsIs(linked);
    var f := Populated(linked);
    var svc, k := f.services[DNS], StreamRouter(OverTCP, PortService(DNS, 53));
    DnsSynced(svc);
    var st := SS.Sync(DNS_CONFIG, ST.EMPTY, AsUser(svc));
    var env := DnsEnv(st);
    DnsEntry(env, svc);
    ServiceRouters(env, f, svc, 0);
    KeysPresent(env, f, conf);
    EntryListens(env, f, conf, k);
    StreamServiceIs(env, f, conf, DNS, OverTCP, 53);
    assert LastNumber(svc.ports, 53, 1) == Some(1);
    assert svc.ports[1] == OVER_UDP;
    DnsServers(st, f, svc.pods);
  }

  lemma DnsServers(st: SS.State, f: Topo, pods: seq<Key>)
    requires pods == [DNS_POD.OwnKey()] && pods[0] in f.pods && f.pods[pods[0]].ip == "10.1.0.9"
    ensures PodServers(DnsEnv(st), f, pods, "", OVER_UDP) == [PodServer("", "10.1.0.9", 5300)]
  {
    assert pods[1..] == [] && PodServers(DnsEnv(st), f, [], "", OVER_UDP) == [];
  }

  lemma DnsEntry(env: Env, svc: Service)
    requires env.tcp == map[10000 := Mapped("ns", "dns", 53)] && svc.OwnKey() == DNS
    ensures StreamEntryPoint(env, svc, OverTCP, 53) == Some(StreamEntry(OverTCP, 10000))
  {
    assert Holds(env.tcp, 10000, Mapped("ns", "dns", 53));
    ST.FindPortExact(env.tcp, Mapped("ns", "dns", 53));
  }
}
