/** Services with HTTP traffic for which the code does not do what one might expect of it. */
module Examples {
  import opened Basics
  import opened Topologies
  import opened Resources
  import opened TopologyLinks
  import opened SplitGraph
  import opened SplitTheorems
  import opened SplitPass
  import opened BuiltTopologies
  import opened Rules
  import opened ConfigWrites
  import opened ConfigResult
  import opened LastWrites
  import opened Routers
  import opened EndToEnd
  import opened MeshPorts
  import CT = ConfigTheorems
  import TB = TopologyBuilder
  import RulePriority
  import SS = ShadowServices
  import ST = ShadowTheorems

  // ---- A service with two targets of one name and a split, itself a backend ----

  const HTTP_ANNOTATIONS := Annotations(Some(HTTP), Some("http"), Some([]))
  const WEB := Key("web", "ns")
  const V2 := Key("v2", "ns")
  const SPLIT := Key("split", "ns")
  const UP := Key("up", "ns")
  const FIRST := TargetKey(WEB, Key("access", "one"))
  const SECOND := TargetKey(WEB, Key("access", "two"))
  const ACCOUNT := Key("sa", "ns")
  const POD_WEB := PodObject("web", "ns", "sa", "10.1.0.3")
  const POD_ONE := PodObject("pod", "one", "sa", "10.1.0.1")
  const POD_TWO := PodObject("pod", "two", "sa", "10.1.0.2")
  const PORT_A := ServicePort("a", 80, TCP, 80)
  const PORT_B := ServicePort("b", 81, TCP, 81)

  function Exposing(name: string): ServiceObject {
    ServiceObject(name, "ns", HTTP_ANNOTATIONS, [PORT_A, PORT_B], "10.0.0.1")
  }

  function SplitOn(name: string, root: string, backend: string): SplitObject {
    SplitObject(name, "ns", root, [BackendObject(backend, 1)], [])
  }

  /** A traffic-target of namespace ns to one port of the destination, for the service account of that namespace. */
  function Access(ns: string, port: Int32): TargetObject {
    TargetObject("access", ns, Identity("sa", "ns"), Some(port), [Identity("sa", ns)], [])
  }

  /**
   Service web is split to v2, and is itself a backend of the split on front. Two namespaces each have a
   traffic-target of the same name to its pod, for one port each.
   */
  function Objects(): Snapshot {
    Snapshot(map[WEB := Exposing("web"), V2 := Exposing("v2"), Key("front", "ns") := Exposing("front")],
             map[SPLIT := SplitOn("split", "web", "v2"), UP := SplitOn("up", "front", "web")],
             map[FIRST.target := Access("one", 80), SECOND.target := Access("two", 81)],
             map[], {},
             map[WEB := [POD_WEB]],
             map[ACCOUNT := [POD_WEB], Key("sa", "one") := [POD_ONE], Key("sa", "two") := [POD_TWO]],
             map[ACCOUNT := map[WEB := [POD_WEB]]])
  }

  function ExampleEnv(): Env {
    Env(5000, 5009, true, (sp, pod) => None, map[], map[])
  }

  lemma ObjectsKeyed()
    ensures Keyed(Objects())
  {
  }

  /** The target made from one of the traffic-targets. */
  function Made(tk: TargetKey): Target
    requires tk == FIRST || tk == SECOND
  {
    var ns := tk.target.namespace;
    Target("access", ns, WEB, [Source("sa", ns, [Key("pod", ns)])],
           Destination("sa", "ns", [if tk == FIRST then PORT_A else PORT_B], [POD_WEB.OwnKey()]), [], [])
  }

  lemma MadeFromObjects(tk: TargetKey)
    requires tk == FIRST || tk == SECOND
    ensures var res := Objects();
            && tk in Pairs(res) && TargetOf(res, res.targets[tk.target], tk.service) == Made(tk)
            && TargetAttachable(res, res.targets[tk.target], WEB)
  {
    var res := Objects();
    var o := res.targets[tk.target];
    var pod := if tk == FIRST then POD_ONE else POD_TWO;
    assert DestinationKey(o) == ACCOUNT && Exposed(res, o) == map[WEB := [POD_WEB]];
    assert res.services[WEB].ports[1..] == [PORT_B] && PortTargeting([PORT_B], 81) == Some(PORT_B);
    assert DestinationPorts(res.services[WEB].ports, o) == Success([if tk == FIRST then PORT_A else PORT_B]);
    OneAddressed(pod);
    OneAddressed(POD_WEB);
    assert SourcesOf(res, o) == [SourceOf(res, o.sources[0])];
  }

  lemma OneAddressed(pod: PodObject)
    requires pod.ip != ""
    ensures Addressed([pod]) == [pod] && PodKeys([pod]) == [pod.OwnKey()]
  {
    assert [pod][1..] == [];
  }

  lemma SplitsOfObjects(k: Key)
    requires k == SPLIT || k == UP
    ensures var res := Objects();
            var backend := if k == SPLIT then V2 else WEB;
            && Attachable(res, res.splits[k])
            && RootOf(res.splits[k]) == (if k == SPLIT then WEB else Key("front", "ns"))
            && SplitOf(res, res.splits[k]).backends == [Backend(1, backend)] && SplitOf(res, res.splits[k]).rules == []
  {
    var res := Objects();
    var o := res.splits[k];
    hide SpecsOf, KeptBackends, BackendFaults, SplitOf, Attachable;
    assert BackendFault(res, o, o.backends[0]).None?;
    OneBackendSplit(res, o);
  }

  // ---- What is built from these objects ----

  lemma WebSplits(linked: Topo)
    requires TB.Complete(Objects(), linked)
    ensures WEB in linked.services && linked.services[WEB].trafficSplits == [SPLIT]
    ensures UP in linked.services[WEB].backendOf
  {
    hide TB.Complete, Attachable, SplitOf;
    var res := Objects();
    SplitsOfObjects(SPLIT);
    SplitsOfObjects(UP);
    SplitsOn(res, linked, WEB);
    Single(linked.services[WEB].trafficSplits, SPLIT);
    assert SplitOf(res, res.splits[UP]).backends[0].service == WEB;
    BackedExactly(res, linked, WEB, UP);
  }

  lemma WebTargets(linked: Topo)
    requires TB.Complete(Objects(), linked)
    ensures WEB in linked.services
            && (linked.services[WEB].trafficTargets == [FIRST, SECOND]
                || linked.services[WEB].trafficTargets == [SECOND, FIRST])
    ensures forall tk :: tk == FIRST || tk == SECOND ==> tk in linked.targets && linked.targets[tk] == Made(tk)
  {
    hide TB.Complete, TargetOf, TargetAttachable, Exposed, Pairs, Made;
    var res := Objects();
    ServiceIs(res, linked, WEB);
    forall tk | tk == FIRST || tk == SECOND
      ensures tk in linked.services[WEB].trafficTargets && tk in linked.targets && linked.targets[tk] == Made(tk)
    {
      MadeFromObjects(tk);
      TargetIs(res, linked, tk);
      PairIs(res, tk);
      AttachedExactly(res, linked, WEB, tk.target);
    }
    forall tk | tk in linked.services[WEB].trafficTargets
      ensures tk == FIRST || tk == SECOND
    {
      AttachedExactly(res, linked, WEB, tk.target);
    }
    TargetsDistinct(res, linked, WEB);
    Pair(linked.services[WEB].trafficTargets, FIRST, SECOND);
  }

  lemma V2IsEmpty(linked: Topo)
    requires TB.Complete(Objects(), linked)
    ensures IsLeaf(linked, V2) && linked.services[V2].trafficTargets == []
  {
    hide TB.Complete, Attachable, SplitOf, TargetAttachable;
    var res := Objects();
    SplitsOn(res, linked, V2);
    EmptyOrInhabited(linked.services[V2].trafficSplits);
    forall tk
      ensures tk !in linked.services[V2].trafficTargets
    {
      AttachedExactly(res, linked, V2, tk.target);
    }
    EmptyOrInhabited(linked.services[V2].trafficTargets);
  }

  /** The split stays: nobody is let through to a service without targets, and that is no failure. */
  lemma SplitStays(linked: Topo)
    requires TB.Complete(Objects(), linked)
    ensures var f := Populated(linked);
            && WEB in f.services && f.services[WEB].trafficSplits == [SPLIT] && V2 in f.services
            && SPLIT in f.splits && f.splits[SPLIT].backends == [Backend(1, V2)] && f.splits[SPLIT].rules == []
            && f.splits[SPLIT].service == WEB && f.splits[SPLIT].OwnKey() == SPLIT
  {
    hide TB.Complete, Attachable, SplitOf, Recorded, Incoming;
    var res := Objects();
    SplitsOfObjects(SPLIT);
    SplitIs(res, linked, SPLIT);
    WebSplits(linked);
    V2IsEmpty(linked);
    EmptyLeafFirst(linked, SPLIT, V2);
    KeptMembers(linked, [SPLIT]);
    assert [SPLIT][1..] == [];
    assert Kept(linked, [SPLIT]) == [SPLIT];
  }

  /** The service in the final topology: whichever target was attached first, the last one overwrites the other. */
  lemma WebIs(linked: Topo)
    requires TB.Complete(Objects(), linked)
    ensures var f := Populated(linked);
            && WEB in f.services && ServesHTTP(f.services[WEB]) && f.services[WEB].ports == [PORT_A, PORT_B]
            && f.services[WEB].backendOf != [] && Middlewares(f.services[WEB]) == []
            && (f.services[WEB].trafficTargets == [FIRST, SECOND] || f.services[WEB].trafficTargets == [SECOND, FIRST])
            && f.targets == linked.targets && FIRST in f.targets && SECOND in f.targets
            && f.targets[FIRST] == Made(FIRST) && f.targets[SECOND] == Made(SECOND)
  {
    hide TB.Complete, Recorded, Kept, Made;
    WebSplits(linked);
    WebTargets(linked);
    ServiceIs(Objects(), linked, WEB);
  }

  lemma ObjectsReady(linked: Topo)
    requires TB.Complete(Objects(), linked)
    ensures CT.Ready(Populated(linked))
  {
    hide TB.Complete, CT.Ready, Populated;
    ObjectsKeyed();
    BuiltIsReady(Objects(), linked);
  }

  // ---- Their configuration ----

  lemma ExamplePlaces()
    ensures HTTPEntryPoint(ExampleEnv(), 0) == Some(HTTPEntry(5000))
            && HTTPEntryPoint(ExampleEnv(), 1) == Some(HTTPEntry(5001))
    ensures LastPlace(ExampleEnv(), [PORT_A, PORT_B], 80, 0) == Some(0)
            && LastPlace(ExampleEnv(), [PORT_A, PORT_B], 81, 0) == Some(1)
    ensures LastPlace(ExampleEnv(), [PORT_A], 80, 0) == Some(0) && LastPlace(ExampleEnv(), [PORT_B], 80, 0) == None
    ensures LastPlace(ExampleEnv(), [PORT_A], 81, 0) == None && LastPlace(ExampleEnv(), [PORT_B], 81, 0) == Some(0)
  {
    LastPlaceOfOne(ExampleEnv(), PORT_A, 80);
    LastPlaceOfOne(ExampleEnv(), PORT_B, 80);
    LastPlaceOfOne(ExampleEnv(), PORT_A, 81);
    LastPlaceOfOne(ExampleEnv(), PORT_B, 81);
  }

  function PortOf(tk: TargetKey): Int32 {
    if tk == FIRST then 80 else 81
  }

  predicate AccessRouter(r: RouterKey, tk: TargetKey) {
    r == TargetDirectRouter(WEB, "access", PortOf(tk)) || r == TargetIndirectRouter(WEB, "access", PortOf(tk))
  }

  /** On each port only one of the targets has routers. It decides about them, whichever was attached first. */
  lemma OwnPortDecides(f: Topo, svc: Service, tk: TargetKey, r: RouterKey)
    requires (tk == FIRST || tk == SECOND) && AccessRouter(r, tk)
    requires svc.trafficTargets == [FIRST, SECOND] || svc.trafficTargets == [SECOND, FIRST]
    requires FIRST in f.targets && SECOND in f.targets && svc.backendOf != []
             && f.targets[FIRST] == Made(FIRST) && f.targets[SECOND] == Made(SECOND)
    ensures Decider(ExampleEnv(), f, svc, HTTPRouter(r), "access") == Some(tk)
  {
    hide DirectRule, IndirectRule, Addresses, HTTPEntryPoint, RulePriority.Priority;
    ExamplePlaces();
    var env := ExampleEnv();
    var keep := tk' => WritesTo(env, f, svc, HTTPRouter(r), "access", tk');
    assert keep(tk) && !keep(if tk == FIRST then SECOND else FIRST);
    assert svc.trafficTargets[0] != svc.trafficTargets[1];
  }

  /** What the routers of the targets are. */
  lemma AccessRouterIs(linked: Topo, conf: Conf, tk: TargetKey, r: RouterKey)
    requires TB.Complete(Objects(), linked) && ConfigOf(ExampleEnv(), Populated(linked), conf)
             && (tk == FIRST || tk == SECOND) && AccessRouter(r, tk)
    ensures WEB in Populated(linked).services && HTTPRouter(r) in conf && conf[HTTPRouter(r)].Router?
    ensures var svc, v := Populated(linked).services[WEB], conf[HTTPRouter(r)];
            && Decider(ExampleEnv(), Populated(linked), svc, HTTPRouter(r), "access") == Some(tk)
            && v.entryPoints == [HTTPEntry(5000)]
            && (r.TargetIndirectRouter? ==>
                 v.rule == IndirectRule(svc, [])
                 && v.priority == RulePriority.Priority(v.rule, RulePriority.TARGET_INDIRECT_TIER))
  {
    hide TB.Complete, Populated, ConfigOf, DirectRule, IndirectRule, RulePriority.Priority, CT.Ready, Decider;
    var f := Populated(linked);
    ObjectsReady(linked);
    WebIs(linked);
    ExamplePlaces();
    OwnPortDecides(f, f.services[WEB], tk, r);
    DeciderIs(ExampleEnv(), f, f.services[WEB], HTTPRouter(r), "access");
    TargetEntryIs(ExampleEnv(), f, conf, WEB, "access", HTTPRouter(r));
  }

  lemma DeciderIs(env: Env, t: Topo, svc: Service, k: ConfKey, n: string)
    ensures Decider(env, t, svc, k, n) == LastIn(svc.trafficTargets, tk => WritesTo(env, t, svc, k, n, tk))
  {
  }

  function IpOf(tk: TargetKey): string {
    if tk == FIRST then "10.1.0.1" else "10.1.0.2"
  }

  /** The only address of a source of a target. */
  lemma SourceIs(linked: Topo, tk: TargetKey, ip: string)
    requires TB.Complete(Objects(), linked) && (tk == FIRST || tk == SECOND)
    ensures IsSource(Populated(linked), tk, ip) <==> ip == IpOf(tk)
  {
    hide TB.Complete, Recorded, Pruned, PodsKnown;
    var f := Populated(linked);
    var k := if tk == FIRST then POD_ONE.OwnKey() else POD_TWO.OwnKey();
    WebTargets(linked);
    assert forall p :: TargetNames(f, tk, p) <==> p == k by {
      assert f.targets[tk].sources[0] in f.targets[tk].sources;
    }
    PodsOf(Objects(), linked);
    BuiltSources(Objects(), linked, tk);
    assert SourcePods(linked.targets[tk].sources) == [k] by {
      assert linked.targets[tk].sources[1..] == [];
    }
    SourcePodKnown(f.pods, tk, k);
    if ip == IpOf(tk) {
      assert SourceAddress(f, tk, ip, k);
    }
  }

  lemma SourcePodKnown(pods: map<Key, Pod>, tk: TargetKey, k: Key)
    requires PodsKnown(Objects(), pods) && k in pods
    requires (tk == FIRST && k == POD_ONE.OwnKey()) || (tk == SECOND && k == POD_TWO.OwnKey())
    ensures pods[k].ip == IpOf(tk)
  {
    hide Objects;
    assert Known(Objects(), k, pods[k]);
    var o :| Offers(Objects(), o) && o.OwnKey() == k && pods[k].ip == o.ip;
    OfferedPods(o);
  }

  lemma OfferedPods(o: PodObject)
    requires Offers(Objects(), o)
    ensures o == POD_WEB || o == POD_ONE || o == POD_TWO
  {
  }

  lemma LastAccess(f: Topo, svc: Service)
    requires svc.trafficTargets == [FIRST, SECOND] || svc.trafficTargets == [SECOND, FIRST]
    requires FIRST in f.targets && SECOND in f.targets
             && f.targets[FIRST] == Made(FIRST) && f.targets[SECOND] == Made(SECOND)
    ensures LastNamed(f, svc, "access") == Some(svc.trafficTargets[1])
  {
    var keep := tk => tk in f.targets && f.targets[tk].name == "access";
    assert keep(svc.trafficTargets[1]);
  }

  /**
   Two targets of one name: the router made from the one that is attached first carries the whitelist of the
   other. It lets through the pod that only the other one names, and not the one that it is made for.
   */
  lemma SharedNameMisleads(linked: Topo, conf: Conf) returns (mine: TargetKey, other: TargetKey)
    requires TB.Complete(Objects(), linked) && ConfigOf(ExampleEnv(), Populated(linked), conf)
    ensures Keyed(Objects()) && {mine, other} == {FIRST, SECOND} && mine != other
    ensures var f, r := Populated(linked), TargetDirectRouter(WEB, "access", PortOf(mine));
            && WEB in f.services && HTTPRouter(r) in conf
            && Decider(ExampleEnv(), f, f.services[WEB], HTTPRouter(r), "access") == Some(mine)
            && (forall ip :: Admits(conf, r, ip) <==> IsSource(f, other, ip))
            && Admits(conf, r, IpOf(other)) && !Admits(conf, r, IpOf(mine))
            && IsSource(f, mine, IpOf(mine)) && !IsSource(f, mine, IpOf(other))
  {
    hide TB.Complete, Populated, ConfigOf, Decider, Admits, IsSource, LastNamed, CT.Ready, Made;
    var f := Populated(linked);
    WebIs(linked);
    var svc := f.services[WEB];
    mine, other := svc.trafficTargets[0], svc.trafficTargets[1];
    var r := TargetDirectRouter(WEB, "access", PortOf(mine));
    ObjectsKeyed();
    ObjectsReady(linked);
    AccessRouterIs(linked, conf, mine, r);
    LastAccess(f, svc);
    assert Admitter(ExampleEnv(), f, svc, r) == Some(other);
    forall ip
      ensures Admits(conf, r, ip) <==> IsSource(f, other, ip)
    {
      TargetRouterAdmitsLast(ExampleEnv(), f, conf, r, ip);
    }
    assert IpOf(FIRST)[7] != IpOf(SECOND)[7];
    SourceIs(linked, mine, IpOf(mine));
    SourceIs(linked, mine, IpOf(other));
    SourceIs(linked, other, IpOf(mine));
    SourceIs(linked, other, IpOf(other));
  }

  /** The router of the target on the second port listens where the first port of the service is mapped. */
  lemma SecondPortListensFirst(linked: Topo, conf: Conf)
    requires TB.Complete(Objects(), linked) && ConfigOf(ExampleEnv(), Populated(linked), conf)
    ensures Keyed(Objects()) && WEB in Populated(linked).services
    ensures var env, svc := ExampleEnv(), Populated(linked).services[WEB];
            var k := HTTPRouter(TargetDirectRouter(WEB, "access", 81));
            && k in conf && conf[k].Router? && conf[k].entryPoints == [HTTPEntry(5000)]
            && LastPlace(env, svc.ports, 81, 0) == Some(1) && HTTPEntryPoint(env, 1) == Some(HTTPEntry(5001))
  {
    hide TB.Complete, Populated, ConfigOf, Decider;
    ObjectsKeyed();
    WebIs(linked);
    ExamplePlaces();
    AccessRouterIs(linked, conf, SECOND, TargetDirectRouter(WEB, "access", 81));
  }

  /** What the routers of the split are. */
  lemma SplitRouterIsThere(linked: Topo, conf: Conf, r: RouterKey)
    requires TB.Complete(Objects(), linked) && ConfigOf(ExampleEnv(), Populated(linked), conf)
             && (r == SplitDirectRouter(WEB, "split", 81) || r == SplitIndirectRouter(WEB, "split", 80))
    ensures WEB in Populated(linked).services && HTTPRouter(r) in conf && conf[HTTPRouter(r)].Router?
    ensures var svc, v := Populated(linked).services[WEB], conf[HTTPRouter(r)];
            && v.rule == IndirectRule(svc, [])
            && (r.SplitIndirectRouter? ==>
                 v.priority == RulePriority.Priority(v.rule, RulePriority.TARGET_INDIRECT_TIER))
  {
    hide TB.Complete, Populated, ConfigOf, DirectRule, IndirectRule, RulePriority.Priority, CT.Ready;
    var f := Populated(linked);
    ObjectsReady(linked);
    WebIs(linked);
    SplitStays(linked);
    ExamplePlaces();
    AttachedIsReady(f, WEB, SPLIT);
    SplitRouterIs(ExampleEnv(), f, conf, WEB, SPLIT, HTTPRouter(r));
  }

  lemma AttachedIsReady(f: Topo, s: Key, k: Key)
    requires CT.Ready(f) && s in f.services && k in f.services[s].trafficSplits
    ensures CT.SplitReady(f, s, k)
  {
  }

  /** The direct router of the split on the second port has the rule of the indirect ones. */
  lemma SecondPortIsIndirect(linked: Topo, conf: Conf)
    requires TB.Complete(Objects(), linked) && ConfigOf(ExampleEnv(), Populated(linked), conf)
    ensures Keyed(Objects()) && WEB in Populated(linked).services
    ensures var svc, k := Populated(linked).services[WEB], HTTPRouter(SplitDirectRouter(WEB, "split", 81));
            k in conf && conf[k].Router? && conf[k].rule == IndirectRule(svc, []) != DirectRule(svc, [])
  {
    hide TB.Complete, Populated, ConfigOf, DirectRule, IndirectRule;
    ObjectsKeyed();
    SplitRouterIsThere(linked, conf, SplitDirectRouter(WEB, "split", 81));
    RulesDiffer(Populated(linked).services[WEB], []);
  }

  /** The indirect router of the split has the same rule and the same priority as that of the target. */
  lemma SplitDoesNotWin(linked: Topo, conf: Conf)
    requires TB.Complete(Objects(), linked) && ConfigOf(ExampleEnv(), Populated(linked), conf)
    ensures Keyed(Objects())
    ensures var r, r' := SplitIndirectRouter(WEB, "split", 80), TargetIndirectRouter(WEB, "access", 80);
            && HTTPRouter(r) in conf && HTTPRouter(r') in conf && RankOf(conf, r) == RankOf(conf, r')
            && conf[HTTPRouter(r)].Router? && conf[HTTPRouter(r')].Router?
            && conf[HTTPRouter(r)].rule == conf[HTTPRouter(r')].rule
  {
    hide TB.Complete, Populated, ConfigOf, DirectRule, IndirectRule, RulePriority.Priority, Decider;
    ObjectsKeyed();
    SplitRouterIsThere(linked, conf, SplitIndirectRouter(WEB, "split", 80));
    AccessRouterIs(linked, conf, FIRST, TargetIndirectRouter(WEB, "access", 80));
  }

  // ---- A port number that is used for two protocols ----

  const DNS := Key("dns", "ns")
  const DNS_TCP := ServicePort("tcp", 53, TCP, 53)
  const DNS_UDP := ServicePort("udp", 53, UDP, 53)

  function DnsObjects(): Snapshot {
    Snapshot(map[DNS := ServiceObject("dns", "ns", HTTP_ANNOTATIONS, [DNS_TCP, DNS_UDP], "10.0.0.2")],
             map[], map[], map[], {}, map[], map[], map[])
  }

  function DnsEnv(): Env {
    Env(5000, 5009, false, (sp, pod) => None, map[], map[])
  }

  lemma DnsIs(linked: Topo)
    requires TB.Complete(DnsObjects(), linked)
    ensures Keyed(DnsObjects()) && CT.Ready(Populated(linked))
    ensures var f := Populated(linked);
            && DNS in f.services && f.services[DNS].OwnKey() == DNS && f.services[DNS].annotations == HTTP_ANNOTATIONS
            && f.services[DNS].ports == [DNS_TCP, DNS_UDP]
  {
    hide TB.Complete, CT.Ready, Recorded, Kept;
    BuiltIsReady(DnsObjects(), linked);
    ServiceIs(DnsObjects(), linked, DNS);
  }

  const DNS_CONFIG := SS.Config("mesh", 5000, 5009, 10000, 10009, 15000, 15009)

  /** The shadow service of a first sync has one port, for TCP, which points to the first HTTP port. */
  lemma DnsSynced(svc: Service)
    requires svc.OwnKey() == DNS && svc.annotations == HTTP_ANNOTATIONS && svc.ports == [DNS_TCP, DNS_UDP]
    ensures SS.ShadowPorts(DNS_CONFIG, SS.Sync(DNS_CONFIG, ST.EMPTY, AsUser(svc)).store, AsUser(svc).id) ==
              [DNS_TCP.(targetPort := 5000)]
  {
    var cfg, user := DNS_CONFIG, AsUser(svc);
    var shadow := [DNS_TCP.(targetPort := 5000)];
    assert SS.Unused([], user.ports) == [] && SS.ShadowPorts(cfg, ST.EMPTY.store, user.id) == [];
    assert SS.Allocate(cfg, ST.EMPTY, user.id, HTTP, user.ports, 2, shadow) == (shadow, ST.EMPTY);
    assert SS.Allocate(cfg, ST.EMPTY, user.id, HTTP, user.ports, 1, shadow) == (shadow, ST.EMPTY);
    assert [] + shadow == shadow;
    assert SS.Allocate(cfg, ST.EMPTY, user.id, HTTP, user.ports, 0, []) == (shadow, ST.EMPTY);
  }

  /** The router of port 53 listens on the second HTTP port, and nobody on the one the shadow service points to. */
  lemma SharedNumberMisses(linked: Topo, conf: Conf)
    requires TB.Complete(DnsObjects(), linked) && ConfigOf(DnsEnv(), Populated(linked), conf)
    ensures Keyed(DnsObjects()) && DNS in Populated(linked).services
    ensures var svc, sp := Populated(linked).services[DNS], DNS_TCP.(targetPort := 5000);
            var st := SS.Sync(DNS_CONFIG, ST.EMPTY, AsUser(svc));
            && sp in SS.ShadowPorts(DNS_CONFIG, st.store, AsUser(svc).id) && Overwritten(DnsEnv(), svc, sp)
            && HTTPRouter(PortRouter(DNS, 53)) in conf
               && ListensOn(conf[HTTPRouter(PortRouter(DNS, 53))]) == [HTTPEntry(5001)]
  {
    hide TB.Complete, Populated, ConfigOf, CT.Ready, SS.Sync, SS.ShadowPorts, ServiceRule, RulePriority.Priority;
    DnsIs(linked);
    var env, f := DnsEnv(), Populated(linked);
    var svc := f.services[DNS];
    DnsSynced(svc);
    assert svc.ports[1].port == 53 && HTTPEntryPoint(env, 1) == Some(HTTPEntry(5001));
    assert LastPlace(env, svc.ports, 53, 1) == Some(1);
    assert LastPlace(env, svc.ports, 53, 0) == Some(1);
    PortRouterIs(env, f, conf, DNS, 53);
  }

  /** Both examples have a configuration, so that the statements about them are not empty. */
  lemma ExamplesHaveConfigs(linked: Topo, dnsLinked: Topo) returns (conf: Conf, dns: Conf)
    requires TB.Complete(Objects(), linked) && TB.Complete(DnsObjects(), dnsLinked)
    ensures ConfigOf(ExampleEnv(), Populated(linked), conf) && ConfigOf(DnsEnv(), Populated(dnsLinked), dns)
  {
    hide TB.Complete, Populated, CT.Ready;
    ObjectsReady(linked);
    DnsIs(dnsLinked);
    conf := ConfigExists(ExampleEnv(), Populated(linked));
    dns := ConfigExists(DnsEnv(), Populated(dnsLinked));
  }
}
