/** The cluster as the controller lists it, and who is let through to what according to it alone. */
module Clusters {
  import opened Basics
  import opened Topologies
  import opened Resources
  import opened PodIndex
  import opened SplitGraph
  import opened SplitPass
  import opened TopologyLinks
  import opened TopologyBuilder

  /** Pods and endpoints as listed, and the snapshot of all other objects, whose own indexes of pods are not used. */
  datatype Cluster = Cluster(
    objects: Snapshot,
    pods: seq<PodObject>,
    ignoredPod: PodObject -> bool,
    endpoints: seq<EndpointsObject>,
    ignoredEndpoints: EndpointsObject -> bool)

  ghost predicate ValidCluster(c: Cluster) {
    Keyed(c.objects) && DistinctKeys(c.pods)
  }

  ghost predicate Watched(c: Cluster, p: PodObject) {
    p in c.pods && !c.ignoredPod(p)
  }

  /** Pod p is one of service s: neither it nor some Endpoints object of the service that lists it is ignored. */
  ghost predicate Belongs(c: Cluster, s: Key, p: PodObject) {
    Watched(c, p) && exists ep :: ep in c.endpoints && ListsPod(ep, c.ignoredEndpoints, s, p.OwnKey())
  }

  /** The service account of pod p is the one called sa, in its own namespace. */
  predicate HasAccount(p: PodObject, sa: Key) {
    p.serviceAccount == sa.name && p.namespace == sa.namespace
  }

  /** Pod p has the destination account of traffic-target o. */
  predicate IsDestination(o: TargetObject, p: PodObject) {
    HasAccount(p, Key(o.destination.name, o.destination.namespace))
  }

  // ---- Who is let through ----

  /** Some source of traffic-target o is the service account of pod p, which has an address. */
  ghost predicate Granted(c: Cluster, o: TargetObject, p: PodObject) {
    && Watched(c, p) && p.ip != ""
    && exists i :: 0 <= i < |o.sources| && HasAccount(p, Key(o.sources[i].name, o.sources[i].namespace))
  }

  /** Service s has a pod of the destination of traffic-target o, and the rules and ports of o are found. */
  ghost predicate Applies(c: Cluster, o: TargetObject, s: Key) {
    (exists p :: Belongs(c, s, p) && IsDestination(o, p)) && TargetAttachable(c.objects, o, s)
  }

  /** Some traffic-target that applies to service s lets pod p through. */
  ghost predicate Allows(c: Cluster, s: Key, p: PodObject) {
    exists k :: k in c.objects.targets && Applies(c, c.objects.targets[k], s) && Granted(c, c.objects.targets[k], p)
  }

  // ---- The snapshot of a cluster ----

  /** Pod p is indexed by account and service exactly when it has the account and belongs to the service. */
  ghost predicate IndexedBoth(c: Cluster, res: Snapshot, sa: Key, s: Key, p: PodObject) {
    p in LookupIn(res.podsBySvcBySa, sa, s) <==> Belongs(c, s, p) && HasAccount(p, sa)
  }

  /** Snapshot res is that of the cluster, with the pods indexed. */
  ghost predicate SnapshotOf(c: Cluster, res: Snapshot) {
    && res == c.objects.(podsBySvc := res.podsBySvc, podsBySa := res.podsBySa, podsBySvcBySa := res.podsBySvcBySa)
    && (forall s, p :: p in Lookup(res.podsBySvc, s) <==> Belongs(c, s, p))
    && (forall sa, p :: p in Lookup(res.podsBySa, sa) <==> Watched(c, p) && HasAccount(p, sa))
    && (forall sa, s, p :: IndexedBoth(c, res, sa, s, p))
    && (forall sa, s :: sa in res.podsBySvcBySa && s in res.podsBySvcBySa[sa] ==> res.podsBySvcBySa[sa][s] != [])
  }

  /** Indexes the pods and endpoints of the cluster. */
  method Snap(c: Cluster) returns (res: Snapshot)
    requires ValidCluster(c)
    ensures SnapshotOf(c, res) && Keyed(res)
  {
    hide Admitted, ByName, ServicePods, WithAccount;
    var indexes := new PodResources();
    indexes.IndexPods(c.ignoredPod, c.ignoredEndpoints, c.pods, c.endpoints);
    res := c.objects.(podsBySvc := indexes.podsBySvc, podsBySa := indexes.podsByServiceAccounts,
                      podsBySvcBySa := indexes.podsBySvcBySa);
    KeyedAlike(c.objects, res);
    forall s
      ensures forall p :: p in Lookup(res.podsBySvc, s) <==> Belongs(c, s, p)
    {
      IndexedExactly(c.pods, c.ignoredPod, c.endpoints, c.ignoredEndpoints, s);
    }
    AdmittedMembers(c.pods, c.ignoredPod);
    forall sa
      ensures forall p :: p in Lookup(res.podsBySa, sa) <==> Watched(c, p) && HasAccount(p, sa)
    {
      AccountMembers(Admitted(c.pods, c.ignoredPod), sa);
    }
    forall sa, s, p
      ensures IndexedBoth(c, res, sa, s, p)
    {
      AccountMembers(Lookup(res.podsBySvc, s), sa);
    }
  }

  lemma KeyedAlike(objects: Snapshot, res: Snapshot)
    requires Keyed(objects) && res.services == objects.services && res.splits == objects.splits
             && res.targets == objects.targets
    ensures Keyed(res)
  {
  }

  lemma AccountMembers(pods: seq<PodObject>, sa: Key)
    ensures forall p :: p in WithAccount(pods, sa) <==> p in pods && HasAccount(p, sa)
  {
    WithAccountMembers(pods, sa);
    forall p
      ensures p in WithAccount(pods, sa) <==> p in pods && HasAccount(p, sa)
    {
      assert p in WithAccount(pods, sa) <==> p in multiset(WithAccount(pods, sa));
      assert p in pods <==> p in multiset(pods);
    }
  }

  // ---- The pods of the topology ----

  /** Every pod of the topology is a pod of the cluster, with its address. */
  lemma PodIs(c: Cluster, res: Snapshot, t: Topo, p: Key) returns (o: PodObject)
    requires SnapshotOf(c, res) && PodsKnown(res, t.pods) && p in t.pods
    ensures Watched(c, o) && o.OwnKey() == p && t.pods[p].ip == o.ip && t.pods[p].serviceAccount == o.serviceAccount
  {
    assert Known(res, p, t.pods[p]);
    o :| Offers(res, o) && o.OwnKey() == p && t.pods[p].ip == o.ip && t.pods[p].serviceAccount == o.serviceAccount;
    OfferedIsWatched(c, res, o);
  }

  lemma OfferedIsWatched(c: Cluster, res: Snapshot, o: PodObject)
    requires SnapshotOf(c, res) && Offers(res, o)
    ensures Watched(c, o)
  {
    hide Belongs, Watched;
    BelongsIsWatched(c);
    if s :| o in Lookup(res.podsBySvc, s) {
      assert Belongs(c, s, o);
    } else if sa :| o in Lookup(res.podsBySa, sa) {
    } else {
      var sa, s :| sa in res.podsBySvcBySa && o in Lookup(res.podsBySvcBySa[sa], s);
      assert o in LookupIn(res.podsBySvcBySa, sa, s);
      assert IndexedBoth(c, res, sa, s, o);
    }
  }

  lemma BelongsIsWatched(c: Cluster)
    ensures forall s, p :: Belongs(c, s, p) ==> Watched(c, p)
  {
  }

  lemma OnePod(c: Cluster, a: PodObject, b: PodObject)
    requires ValidCluster(c) && Watched(c, a) && Watched(c, b) && a.OwnKey() == b.OwnKey()
    ensures a == b
  {
    var i :| 0 <= i < |c.pods| && c.pods[i] == a;
    var j :| 0 <= j < |c.pods| && c.pods[j] == b;
  }

  lemma PodKeysMembers(pods: seq<PodObject>, k: Key)
    ensures k in PodKeys(pods) <==> exists p :: p in pods && p.OwnKey() == k
  {
    if k in PodKeys(pods) {
      var i :| 0 <= i < |PodKeys(pods)| && PodKeys(pods)[i] == k;
      assert pods[i] in pods;
    }
    if p :| p in pods && p.OwnKey() == k {
      var i :| 0 <= i < |pods| && pods[i] == p;
      assert PodKeys(pods)[i] == k;
    }
  }

  // ---- Sources ----

  lemma SourceOfPods(c: Cluster, res: Snapshot, id: Identity, k: Key)
    requires SnapshotOf(c, res)
    ensures k in SourceOf(res, id).pods <==> exists p ::
              Watched(c, p) && p.ip != "" && HasAccount(p, Key(id.name, id.namespace)) && p.OwnKey() == k
  {
    hide Watched, Belongs, PodKeys, Addressed;
    var os := Lookup(res.podsBySa, Key(id.name, id.namespace));
    AddressedMembers(os);
    PodKeysMembers(Addressed(os), k);
  }

  /** The source pods of a target are those that the traffic-target grants. */
  lemma SourcesAreGranted(c: Cluster, res: Snapshot, o: TargetObject, k: Key)
    requires SnapshotOf(c, res)
    ensures (exists src :: src in SourcesOf(res, o) && k in src.pods) <==> exists p ::
              Granted(c, o, p) && p.OwnKey() == k
  {
    hide SnapshotOf, SourceOf, Watched;
    if src :| src in SourcesOf(res, o) && k in src.pods {
      var i :| 0 <= i < |o.sources| && src == SourceOf(res, o.sources[i]);
      SourceOfPods(c, res, o.sources[i], k);
      var p :| Watched(c, p) && p.ip != "" && HasAccount(p, Key(o.sources[i].name, o.sources[i].namespace))
          && p.OwnKey() == k;
      assert Granted(c, o, p);
    }
    if p :| Granted(c, o, p) && p.OwnKey() == k {
      var i :| 0 <= i < |o.sources| && HasAccount(p, Key(o.sources[i].name, o.sources[i].namespace));
      SourceOfPods(c, res, o.sources[i], k);
      assert SourcesOf(res, o)[i] == SourceOf(res, o.sources[i]);
    }
  }

  // ---- Where traffic-targets apply ----

  lemma {:induction false} SpecsAlike(objects: Snapshot, res: Snapshot, ns: string, refs: seq<SpecRef>)
    requires res.routeGroups == objects.routeGroups && res.tcpRoutes == objects.tcpRoutes
    ensures SpecsOf(res, ns, refs) == SpecsOf(objects, ns, refs)
  {
    if refs != [] {
      SpecsAlike(objects, res, ns, refs[1..]);
    }
  }

  /** The targets that are attached to a service are those that apply to it. */
  lemma AppliesExactly(c: Cluster, res: Snapshot, o: TargetObject, s: Key)
    requires SnapshotOf(c, res)
    ensures s in Exposed(res, o) && TargetAttachable(res, o, s) <==> Applies(c, o, s)
  {
    hide SnapshotOf, SpecsOf, Belongs;
    AttachableAlike(c, res, o, s);
    ExposedExactly(c, res, o, s);
  }

  lemma AttachableAlike(c: Cluster, res: Snapshot, o: TargetObject, s: Key)
    requires SnapshotOf(c, res)
    ensures TargetAttachable(res, o, s) <==> TargetAttachable(c.objects, o, s)
  {
    hide SpecsOf, DestinationPorts;
    SpecsAlike(c.objects, res, o.namespace, o.rules);
  }

  lemma ExposedExactly(c: Cluster, res: Snapshot, o: TargetObject, s: Key)
    requires SnapshotOf(c, res)
    ensures s in Exposed(res, o) <==> exists p :: Belongs(c, s, p) && IsDestination(o, p)
  {
    hide Belongs;
    var sa := DestinationKey(o);
    if s in Exposed(res, o) {
      var p := res.podsBySvcBySa[sa][s][0];
      assert p in LookupIn(res.podsBySvcBySa, sa, s);
      assert IndexedBoth(c, res, sa, s, p);
    }
    if p :| Belongs(c, s, p) && HasAccount(p, sa) {
      assert IndexedBoth(c, res, sa, s, p);
      assert sa in res.podsBySvcBySa && s in res.podsBySvcBySa[sa];
    }
  }
}
