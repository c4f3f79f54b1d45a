/** From the cluster to the whitelists: who is let through by a router of the emitted configuration. */
module Access {
  import opened Basics
  import opened Topologies
  import opened Resources
  import opened TopologyLinks
  import opened SplitGraph
  import opened SplitPass
  import opened TopologyGraph
  import opened BuiltTopologies
  import opened Clusters
  import opened ConfigWrites
  import opened ConfigResult
  import opened EndToEnd
  import opened Provider
  import TB = TopologyBuilder
  import CT = ConfigTheorems
  import PI = PodIndex

  /** Topology linked is what is built from the cluster, before the final pass; res is the snapshot it is built from. */
  ghost predicate BuiltFrom(c: Cluster, res: Snapshot, linked: Topo) {
    ValidCluster(c) && SnapshotOf(c, res) && Keyed(res) && TB.Complete(res, linked) && WellPlaced(linked)
  }

  // ---- Targets ----

  /** A target names the pods that its traffic-target grants. */
  lemma TargetNamesExactly(c: Cluster, res: Snapshot, linked: Topo, tk: TargetKey, k: Key)
    requires BuiltFrom(c, res, linked) && tk in linked.targets
    ensures tk.target in c.objects.targets
    ensures TargetNames(Populated(linked), tk, k) <==> exists p ::
              Granted(c, c.objects.targets[tk.target], p) && p.OwnKey() == k
  {
    hide TB.Complete, WellPlaced, Recorded, Granted, SourcesOf;
    BuiltSources(res, linked, tk);
    SourcesAreGranted(c, res, res.targets[tk.target], k);
  }

  /** A service names as sources the pods that it allows. */
  lemma NamesExactly(c: Cluster, res: Snapshot, linked: Topo, s: Key, k: Key)
    requires BuiltFrom(c, res, linked) && s in linked.services
    ensures Names(Populated(linked), s, k) <==> exists p :: Allows(c, s, p) && p.OwnKey() == k
  {
    hide TB.Complete, WellPlaced, Recorded, Granted, TargetNames, Applies, SnapshotOf, ValidCluster;
    var f := Populated(linked);
    if Names(f, s, k) {
      var tk :| tk in f.services[s].trafficTargets && TargetNames(f, tk, k);
      AttachedExactly(res, linked, s, tk.target);
      assert tk == TargetKey(s, tk.target);
      AppliesTo(c, res, tk.target, s);
      NamesAttached(linked, tk, k);
      TargetNamesExactly(c, res, linked, tk, k);
      var p :| Granted(c, c.objects.targets[tk.target], p) && p.OwnKey() == k;
      assert Allows(c, s, p);
    }
    if p :| Allows(c, s, p) && p.OwnKey() == k {
      var o :| o in c.objects.targets && Applies(c, c.objects.targets[o], s) && Granted(c, c.objects.targets[o], p);
      var tk := TargetKey(s, o);
      AppliesTo(c, res, o, s);
      AttachedExactly(res, linked, s, o);
      AttachedIsKnown(res, linked, tk);
      TargetNamesExactly(c, res, linked, tk, k);
    }
  }

  lemma NamesAttached(linked: Topo, tk: TargetKey, k: Key)
    requires TargetNames(Populated(linked), tk, k)
    ensures tk in linked.targets
  {
  }

  lemma AppliesTo(c: Cluster, res: Snapshot, o: Key, s: Key)
    requires SnapshotOf(c, res)
    ensures res.targets == c.objects.targets
    ensures o in res.targets ==>
              (s in Exposed(res, res.targets[o]) && TargetAttachable(res, res.targets[o], s) <==>
               Applies(c, c.objects.targets[o], s))
  {
    hide Applies, Exposed, TargetAttachable;
    if o in res.targets {
      AppliesExactly(c, res, res.targets[o], s);
    }
  }

  // ---- Addresses ----

  /** A pod that some target names is in the topology with the address that it has in the cluster. */
  lemma GrantedAddress(c: Cluster, res: Snapshot, linked: Topo, tk: TargetKey, p: PodObject)
    requires BuiltFrom(c, res, linked) && tk in linked.targets && tk.target in c.objects.targets
             && Granted(c, c.objects.targets[tk.target], p)
    ensures p.OwnKey() in Populated(linked).pods && Populated(linked).pods[p.OwnKey()].ip == p.ip
    ensures TargetNames(Populated(linked), tk, p.OwnKey())
  {
    hide TB.Complete, WellPlaced, Recorded, SnapshotOf, ValidCluster, PodsKnown;
    TargetNamesExactly(c, res, linked, tk, p.OwnKey());
    BuiltSources(res, linked, tk);
    SourcePodsMembers(linked.targets[tk].sources);
    NamedIsPresent(linked, tk, p.OwnKey());
    PodsOf(res, linked);
    var q := PodIs(c, res, Populated(linked), p.OwnKey());
    OnePod(c, p, q);
  }

  lemma NamedIsPresent(linked: Topo, tk: TargetKey, k: Key)
    requires TargetNames(Populated(linked), tk, k)
    requires tk in linked.targets && forall p :: p in SourcePods(linked.targets[tk].sources) ==> p in linked.pods
    ensures k in Populated(linked).pods
  {
    SourcePodsMembers(linked.targets[tk].sources);
  }

  /** The addresses of the sources of a target are those of the pods that its traffic-target grants. */
  lemma SourcesExactly(c: Cluster, res: Snapshot, linked: Topo, tk: TargetKey, ip: string)
    requires BuiltFrom(c, res, linked) && tk in linked.targets
    ensures tk.target in c.objects.targets
    ensures IsSource(Populated(linked), tk, ip) <==> exists p ::
              Granted(c, c.objects.targets[tk.target], p) && p.ip == ip
  {
    hide TB.Complete, WellPlaced, Populated, TargetNames, SnapshotOf, ValidCluster, Granted, PodsKnown;
    var f := Populated(linked);
    TargetNamesExactly(c, res, linked, tk, Key("", ""));
    if IsSource(f, tk, ip) {
      var k :| SourceAddress(f, tk, ip, k);
      TargetNamesExactly(c, res, linked, tk, k);
      var p :| Granted(c, c.objects.targets[tk.target], p) && p.OwnKey() == k;
      GrantedAddress(c, res, linked, tk, p);
    }
    if p :| Granted(c, c.objects.targets[tk.target], p) && p.ip == ip {
      GrantedAddress(c, res, linked, tk, p);
      assert SourceAddress(f, tk, ip, p.OwnKey());
    }
  }

  // ---- Splits ----

  /** Pod p has an address, every leaf below split k allows it, and no split below is without backends. */
  ghost predicate LetThrough(c: Cluster, f: Topo, k: Key, p: PodObject) {
    && Watched(c, p) && p.ip != ""
    && (forall m :: Reaches(f, k, m) ==> m in f.splits && f.splits[m].backends != [])
    && (forall s :: LeafBelow(f, k, s) ==> Allows(c, s, p))
  }

  lemma AllowedHasAddress(c: Cluster, s: Key, p: PodObject)
    requires Allows(c, s, p)
    ensures Watched(c, p) && p.ip != ""
  {
  }

  lemma AllowedIsPresent(c: Cluster, res: Snapshot, linked: Topo, s: Key, p: PodObject)
    requires BuiltFrom(c, res, linked) && s in linked.services && Allows(c, s, p)
    ensures p.OwnKey() in Populated(linked).pods && Populated(linked).pods[p.OwnKey()].ip == p.ip
  {
    hide TB.Complete, WellPlaced, Populated, SnapshotOf, ValidCluster, Granted, Applies;
    var o :| o in c.objects.targets && Applies(c, c.objects.targets[o], s) && Granted(c, c.objects.targets[o], p);
    AppliesTo(c, res, o, s);
    AttachedExactly(res, linked, s, o);
    AttachedIsKnown(res, linked, TargetKey(s, o));
    GrantedAddress(c, res, linked, TargetKey(s, o), p);
  }

  /** Two pods of the cluster with one key are the same, so the leaves agree on who is allowed. */
  lemma AllowsByKey(c: Cluster, res: Snapshot, linked: Topo, s: Key, p: PodObject)
    requires BuiltFrom(c, res, linked) && s in linked.services && Watched(c, p)
    ensures Names(Populated(linked), s, p.OwnKey()) <==> Allows(c, s, p)
  {
    hide TB.Complete, WellPlaced, Populated, SnapshotOf, ValidCluster, Names, Allows, Watched;
    NamesExactly(c, res, linked, s, p.OwnKey());
    if Names(Populated(linked), s, p.OwnKey()) {
      var q :| Allows(c, s, q) && q.OwnKey() == p.OwnKey();
      AllowedHasAddress(c, s, q);
      OnePod(c, p, q);
    }
  }

  lemma AuthorisedExactly(c: Cluster, res: Snapshot, linked: Topo, k: Key, p: PodObject)
    requires BuiltFrom(c, res, linked) && Watched(c, p)
    ensures AuthorisedBelow(Populated(linked), k, p.OwnKey()) <==>
            (forall m :: Reaches(Populated(linked), k, m) ==>
               m in Populated(linked).splits && Populated(linked).splits[m].backends != [])
            && (forall s :: LeafBelow(Populated(linked), k, s) ==> Allows(c, s, p))
  {
    hide BuiltFrom, Watched, Allows, Names, Reaches, Recorded, Pruned;
    var f := Populated(linked);
    forall s | s in f.services
      ensures Names(f, s, p.OwnKey()) <==> Allows(c, s, p)
    {
      AllowsByKey(c, res, linked, s, p);
    }
    if AuthorisedBelow(f, k, p.OwnKey()) {
      forall s | LeafBelow(f, k, s)
        ensures Allows(c, s, p)
      {
        var m :| Reaches(f, k, m) && m in f.splits && Backs(f, m, s);
        assert Authorises(f, m, p.OwnKey());
      }
      assert forall m :: Reaches(f, k, m) ==> Authorises(f, m, p.OwnKey());
    } else {
      var m :| Reaches(f, k, m) && !Authorises(f, m, p.OwnKey());
      if m in f.splits && f.splits[m].backends != [] {
        var s :| Backs(f, m, s) && IsLeaf(f, s) && !Names(f, s, p.OwnKey());
        assert LeafBelow(f, k, s);
      }
    }
  }

  /** The addresses let through a split that is attached are those of the pods that the cluster lets through. */
  lemma LetThroughExactly(c: Cluster, res: Snapshot, linked: Topo, s: Key, k: Key, ip: string)
    requires BuiltFrom(c, res, linked) && s in linked.services && k in linked.splits
             && k in Populated(linked).services[s].trafficSplits
    ensures (exists p :: AuthorisedAddress(Populated(linked), k, ip, p)) <==> exists p ::
              LetThrough(c, Populated(linked), k, p) && p.ip == ip
  {
    hide Populated, AuthorisedBelow, Allows, Reaches, TB.Complete, SnapshotOf, ValidCluster, WellPlaced, PodsKnown,
         Watched;
    var f := Populated(linked);
    SameServices(linked);
    PodsOf(res, linked);
    if p :| AuthorisedAddress(f, k, ip, p) {
      var leaf := AuthorisedHasLeaf(linked, s, k, p);
      var o := PodIs(c, res, f, p);
      AuthorisedExactly(c, res, linked, k, o);
      AllowedHasAddress(c, leaf, o);
      assert LetThrough(c, f, k, o);
    }
    if o :| LetThrough(c, f, k, o) && o.ip == ip {
      AuthorisedExactly(c, res, linked, k, o);
      var leaf := AuthorisedHasLeaf(linked, s, k, o.OwnKey());
      AllowedIsPresent(c, res, linked, leaf, o);
      assert AuthorisedAddress(f, k, ip, o.OwnKey());
    }
  }

  lemma SameServices(linked: Topo)
    ensures Populated(linked).services.Keys == linked.services.Keys
  {
  }

  // ---- Routers ----

  /**
   From the cluster to the whitelist of a split: with ACL on, each router of a traffic-split lets through exactly the
   addresses of the pods whose service accounts are sources of traffic-targets that apply to the leaves below.
   */
  lemma SplitRouterLetsThrough(c: Cluster, res: Snapshot, linked: Topo, env: Env, conf: Conf, r: RouterKey, ip: string)
    requires BuiltFrom(c, res, linked) && env.acl && ConfigOf(env, Populated(linked), conf)
    requires HTTPRouter(r) in conf && (r.SplitDirectRouter? || r.SplitIndirectRouter?)
    ensures Guarded(conf, r)
    ensures Admits(conf, r, ip) <==> exists p ::
              LetThrough(c, Populated(linked), Key(r.split, r.owner.namespace), p) && p.ip == ip
  {
    hide *;
    ReadyFrom(c, res, linked);
    SplitRouterAdmits(linked, env, conf, r, ip);
    SplitRouterAddresses(env, Populated(linked), conf, r, ip);
    NamedSplitIsAttached(linked, r.owner, r.split);
    LetThroughExactly(c, res, linked, r.owner, Key(r.split, r.owner.namespace), ip);
  }

  lemma ReadyFrom(c: Cluster, res: Snapshot, linked: Topo)
    requires BuiltFrom(c, res, linked)
    ensures CT.Ready(Populated(linked)) && WellPlaced(linked)
  {
    hide Keyed, TB.Complete, CT.Ready, SnapshotOf, WellPlaced;
    BuiltIsReady(res, linked);
  }

  lemma NamedSplitIsAttached(linked: Topo, s: Key, n: string)
    requires CT.NamedSplit(Populated(linked), s, n)
    ensures s in linked.services && Key(n, s.namespace) in linked.splits
            && Key(n, s.namespace) in Populated(linked).services[s].trafficSplits
  {
    hide Recorded, Pruned;
  }

  /** The traffic-target that decides whom router r of a target lets through. */
  ghost function DecidingTarget(env: Env, f: Topo, r: RouterKey): Option<Key>
    requires r.TargetDirectRouter? || r.TargetIndirectRouter?
  {
    if r.owner !in f.services then None
    else
      match Admitter(env, f, f.services[r.owner], r)
      case None => None
      case Some(tk) => Some(tk.target)
  }

  /** The same for a router of a target: the sources are those of the traffic-target that decides. */
  lemma TargetRouterLetsThrough(c: Cluster, res: Snapshot, linked: Topo, env: Env, conf: Conf, r: RouterKey, ip: string)
    requires BuiltFrom(c, res, linked) && env.acl && ConfigOf(env, Populated(linked), conf)
    requires HTTPRouter(r) in conf && (r.TargetDirectRouter? || r.TargetIndirectRouter?)
    ensures Guarded(conf, r)
    ensures var k := DecidingTarget(env, Populated(linked), r);
            && k.Some? && k.value in c.objects.targets
            && (Admits(conf, r, ip) <==> exists p :: Granted(c, c.objects.targets[k.value], p) && p.ip == ip)
  {
    hide BuiltFrom, Populated, CT.Ready, ConfigOf, Admits, Guarded, Admitter, IsSource, Granted;
    var f := Populated(linked);
    ReadyFrom(c, res, linked);
    TargetRouterAdmitsLast(env, f, conf, r, ip);
    TargetRouterWhitelist(env, f, conf, r);
    var tk := Admitter(env, f, f.services[r.owner], r).value;
    NamedTargetIsKnown(linked, r.owner, r.target, tk);
    SourcesExactly(c, res, linked, tk, ip);
  }

  lemma NamedTargetIsKnown(linked: Topo, s: Key, n: string, tk: TargetKey)
    requires CT.NamedTarget(Populated(linked), s, n, tk)
    ensures tk in linked.targets
  {
  }

  // ---- One refresh ----

  /** Router r lets through the addresses that it should according to the cluster, and no pod without address. */
  ghost predicate RouterExact(c: Cluster, env: Env, f: Topo, conf: Conf, r: RouterKey, ip: string) {
    HTTPRouter(r) in conf ==>
      match r
      case SplitDirectRouter(s, n, _) => SplitExact(c, f, conf, r, Key(n, s.namespace), ip)
      case SplitIndirectRouter(s, n, _) => SplitExact(c, f, conf, r, Key(n, s.namespace), ip)
      case TargetDirectRouter(_, _, _) => TargetExact(c, env, f, conf, r, ip)
      case TargetIndirectRouter(_, _, _) => TargetExact(c, env, f, conf, r, ip)
      case _ => true
  }

  ghost predicate SplitExact(c: Cluster, f: Topo, conf: Conf, r: RouterKey, k: Key, ip: string) {
    Guarded(conf, r) && (Admits(conf, r, ip) <==> exists p :: LetThrough(c, f, k, p) && p.ip == ip)
  }

  ghost predicate TargetExact(c: Cluster, env: Env, f: Topo, conf: Conf, r: RouterKey, ip: string)
    requires r.TargetDirectRouter? || r.TargetIndirectRouter?
  {
    var k := DecidingTarget(env, f, r);
    && Guarded(conf, r) && k.Some? && k.value in c.objects.targets
    && (Admits(conf, r, ip) <==> exists p :: Granted(c, c.objects.targets[k.value], p) && p.ip == ip)
  }

  ghost predicate AccessExact(c: Cluster, env: Env, f: Topo, conf: Conf) {
    forall r, ip :: RouterExact(c, env, f, conf, r, ip)
  }

  lemma AccessIsExact(c: Cluster, res: Snapshot, linked: Topo, env: Env, conf: Conf)
    requires BuiltFrom(c, res, linked) && env.acl && ConfigOf(env, Populated(linked), conf)
    ensures AccessExact(c, env, Populated(linked), conf)
  {
    hide BuiltFrom, Populated, ConfigOf, Guarded, Admits, LetThrough, Granted, DecidingTarget;
    forall r, ip
      ensures RouterExact(c, env, Populated(linked), conf, r, ip)
    {
      if HTTPRouter(r) in conf && (r.SplitDirectRouter? || r.SplitIndirectRouter?) {
        SplitRouterLetsThrough(c, res, linked, env, conf, r, ip);
      } else if HTTPRouter(r) in conf && (r.TargetDirectRouter? || r.TargetIndirectRouter?) {
        TargetRouterLetsThrough(c, res, linked, env, conf, r, ip);
      }
    }
  }

  /** So no router lets a pod through whose address is not known yet. */
  lemma NobodyWithoutAddress(c: Cluster, env: Env, f: Topo, conf: Conf, r: RouterKey)
    requires AccessExact(c, env, f, conf) && HTTPRouter(r) in conf
    ensures !Admits(conf, r, "")
  {
    hide Guarded, Carries;
    assert RouterExact(c, env, f, conf, r, "");
  }

  /**
   Indexes pods and endpoints, and builds the topology. The pods of a service are then exactly those that some of
   its endpoints list, as far as neither is ignored.
   */
  method BuildFrom(c: Cluster) returns (topology: Topology, ghost res: Snapshot, ghost linked: Topo)
    requires ValidCluster(c)
    ensures fresh(topology) && BuiltFrom(c, res, linked) && topology.View() == Populated(linked)
    ensures topology.services.Keys == c.objects.services.Keys
    ensures forall s, k :: s in topology.services ==>
              (k in topology.services[s].pods <==> exists p :: Belongs(c, s, p) && p.OwnKey() == k)
  {
    hide TB.Complete, PlanOf, TB.FinalLinks, Populated, WellPlaced, Belongs, ValidCluster;
    var snapshot := Snap(c);
    res := snapshot;
    topology, linked := TB.Build(snapshot);
    ServicesOf(res, linked);
    forall s, k | s in topology.services
      ensures k in topology.services[s].pods <==> exists p :: Belongs(c, s, p) && p.OwnKey() == k
    {
      BuiltPods(res, linked, s);
      PodKeysMembers(Lookup(res.podsBySvc, s), k);
    }
  }

  lemma AclOf(provider: ConfigProvider)
    ensures provider.TheEnv().acl == provider.acl
  {
  }

  /**
   One refresh: pods, endpoints and the other objects of the cluster are turned into a topology, and that into a
   configuration. With ACL, all its routers of targets and splits let through exactly whom the cluster grants.
   */
  method Refresh(c: Cluster, provider: ConfigProvider)
      returns (topology: Topology, conf: Configuration, ghost res: Snapshot, ghost linked: Topo)
    requires ValidCluster(c) && provider.Valid()
    ensures fresh(topology) && fresh(conf)
    ensures BuiltFrom(c, res, linked) && topology.View() == Populated(linked)
    ensures ConfigOf(provider.TheEnv(), topology.View(), conf.entries)
    ensures CT.Ready(topology.View()) && CT.Closed(conf.entries)
    ensures provider.acl ==> AccessExact(c, provider.TheEnv(), topology.View(), conf.entries)
  {
    hide *;
    topology, res, linked := BuildFrom(c);
    ReadyFrom(c, res, linked);
    conf := provider.BuildConfig(topology.View());
    ConfigClosed(provider.TheEnv(), topology.View(), conf.entries);
    if provider.acl {
      AclOf(provider);
      AccessIsExact(c, res, linked, provider.TheEnv(), conf.entries);
    }
  }
}
