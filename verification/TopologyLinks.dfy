/** The links that building a topology creates, and the steps that create them. */
module TopologyLinks {
  import opened Basics
  import opened Topologies
  import opened Resources
  import opened SplitGraph

  // ---- Pods ----

  function CreatePod(pods: map<Key, Pod>, o: PodObject): map<Key, Pod> {
    if o.OwnKey() in pods then pods
    else pods[o.OwnKey() := Pod(o.name, o.namespace, o.serviceAccount, o.ip, [], [])]
  }

  function CreatePods(pods: map<Key, Pod>, os: seq<PodObject>): map<Key, Pod>
    decreases |os|
  {
    if os == [] then pods else CreatePods(CreatePod(pods, os[0]), os[1..])
  }

  /** Pods are only added, and those added have no links yet. */
  ghost predicate Grows(pods: map<Key, Pod>, more: map<Key, Pod>) {
    && pods.Keys <= more.Keys
    && (forall p :: p in pods ==> more[p] == pods[p])
    && (forall p :: p in more && p !in pods ==> more[p].sourceOf == [] && more[p].destinationOf == [])
  }

  lemma {:induction false} CreatePodsGrow(pods: map<Key, Pod>, os: seq<PodObject>)
    ensures Grows(pods, CreatePods(pods, os))
    ensures forall p :: p in PodKeys(os) ==> p in CreatePods(pods, os)
    decreases |os|
  {
    if os != [] {
      var next := CreatePod(pods, os[0]);
      CreatePodsGrow(next, os[1..]);
      assert forall p :: p in PodKeys(os) ==> p == os[0].OwnKey() || p in PodKeys(os[1..]) by {
        forall i | 0 <= i < |os|
          ensures PodKeys(os)[i] == os[0].OwnKey() || PodKeys(os)[i] in PodKeys(os[1..])
        {
          if i > 0 {
            assert PodKeys(os)[i] == PodKeys(os[1..])[i - 1];
          }
        }
      }
    }
  }

  function CreateSources(res: Snapshot, pods: map<Key, Pod>, ids: seq<Identity>): map<Key, Pod>
    decreases |ids|
  {
    if ids == [] then pods
    else CreateSources(res, CreatePods(pods, Addressed(Lookup(res.podsBySa, Key(ids[0].name, ids[0].namespace)))),
                       ids[1..])
  }

  lemma {:induction false} CreateSourcesGrow(res: Snapshot, pods: map<Key, Pod>, ids: seq<Identity>)
    ensures Grows(pods, CreateSources(res, pods, ids))
    ensures forall i, p :: 0 <= i < |ids| && p in SourceOf(res, ids[i]).pods ==> p in CreateSources(res, pods, ids)
    decreases |ids|
  {
    if ids != [] {
      var os := Addressed(Lookup(res.podsBySa, Key(ids[0].name, ids[0].namespace)));
      CreatePodsGrow(pods, os);
      CreateSourcesGrow(res, CreatePods(pods, os), ids[1..]);
      forall i, p | 0 <= i < |ids| && p in SourceOf(res, ids[i]).pods
        ensures p in CreateSources(res, pods, ids)
      {
        if i > 0 {
          assert ids[i] == ids[1..][i - 1];
        }
      }
    }
  }

  // ---- Link lists ----

  function Times<T>(x: T, n: nat): seq<T> {
    seq(n, _ => x)
  }

  lemma {:induction false} TimesCount<T>(x: T, n: nat)
    ensures forall y :: multiset(Times(x, n))[y] == if y == x then n else 0
  {
    if n == 0 {
      assert Times(x, 0) == [];
    } else {
      TimesCount(x, n - 1);
      assert Times(x, n) == Times(x, n - 1) + [x];
    }
  }

  lemma {:induction false} SourcePodsMembers(sources: seq<Source>)
    ensures forall p :: p in SourcePods(sources) <==> exists src :: src in sources && p in src.pods
  {
    if sources != [] {
      SourcePodsMembers(sources[1..]);
      assert sources == [sources[0]] + sources[1..];
    }
  }

  function NoteSources(pods: map<Key, Pod>, keys: seq<Key>, tk: TargetKey): map<Key, Pod> {
    if keys == [] then pods
    else if keys[0] !in pods then NoteSources(pods, keys[1..], tk)
    else NoteSources(pods[keys[0] := pods[keys[0]].(sourceOf := pods[keys[0]].sourceOf + [tk])], keys[1..], tk)
  }

  lemma {:induction false} NoteSourcesAt(pods: map<Key, Pod>, keys: seq<Key>, tk: TargetKey, p: Key)
    requires p in pods
    ensures NoteSources(pods, keys, tk).Keys == pods.Keys
    ensures NoteSources(pods, keys, tk)[p] == pods[p].(sourceOf := pods[p].sourceOf + Times(tk, multiset(keys)[p]))
  {
    if keys == [] {
      assert pods[p].sourceOf + Times(tk, 0) == pods[p].sourceOf;
    } else {
      assert keys == [keys[0]] + keys[1..];
      var next := if keys[0] !in pods then pods
      else pods[keys[0] := pods[keys[0]].(sourceOf := pods[keys[0]].sourceOf + [tk])];
      NoteSourcesAt(next, keys[1..], tk, p);
      assert next[p].sourceOf + Times(tk, multiset(keys[1..])[p]) == pods[p].sourceOf + Times(tk, multiset(keys)[p]);
    }
  }

  lemma NoteSourcesEffect(pods: map<Key, Pod>, keys: seq<Key>, tk: TargetKey)
    ensures NoteSources(pods, keys, tk).Keys == pods.Keys
    ensures forall p :: p in pods ==>
              NoteSources(pods, keys, tk)[p] == pods[p].(sourceOf := pods[p].sourceOf + Times(tk, multiset(keys)[p]))
  {
    NoteSourcesKeys(pods, keys, tk);
    forall p | p in pods
      ensures NoteSources(pods, keys, tk)[p] == pods[p].(sourceOf := pods[p].sourceOf + Times(tk, multiset(keys)[p]))
    {
      NoteSourcesAt(pods, keys, tk, p);
    }
  }

  lemma {:induction false} NoteSourcesKeys(pods: map<Key, Pod>, keys: seq<Key>, tk: TargetKey)
    ensures NoteSources(pods, keys, tk).Keys == pods.Keys
  {
    if keys != [] {
      NoteSourcesKeys(if keys[0] !in pods then pods
      else pods[keys[0] := pods[keys[0]].(sourceOf := pods[keys[0]].sourceOf + [tk])], keys[1..], tk);
    }
  }

  function NoteDestinations(pods: map<Key, Pod>, keys: seq<Key>, tk: TargetKey): map<Key, Pod> {
    if keys == [] then pods
    else if keys[0] !in pods then NoteDestinations(pods, keys[1..], tk)
    else NoteDestinations(pods[keys[0] := pods[keys[0]].(destinationOf := pods[keys[0]].destinationOf + [tk])],
                          keys[1..], tk)
  }

  lemma {:induction false} NoteDestinationsAt(pods: map<Key, Pod>, keys: seq<Key>, tk: TargetKey, p: Key)
    requires p in pods
    ensures NoteDestinations(pods, keys, tk).Keys == pods.Keys
    ensures NoteDestinations(pods, keys, tk)[p] ==
              pods[p].(destinationOf := pods[p].destinationOf + Times(tk, multiset(keys)[p]))
  {
    if keys == [] {
      assert pods[p].destinationOf + Times(tk, 0) == pods[p].destinationOf;
    } else {
      assert keys == [keys[0]] + keys[1..];
      var next := if keys[0] !in pods then pods
      else pods[keys[0] := pods[keys[0]].(destinationOf := pods[keys[0]].destinationOf + [tk])];
      NoteDestinationsAt(next, keys[1..], tk, p);
      assert next[p].destinationOf + Times(tk, multiset(keys[1..])[p]) ==
               pods[p].destinationOf + Times(tk, multiset(keys)[p]);
    }
  }

  lemma NoteDestinationsEffect(pods: map<Key, Pod>, keys: seq<Key>, tk: TargetKey)
    ensures NoteDestinations(pods, keys, tk).Keys == pods.Keys
    ensures forall p :: p in pods ==>
              NoteDestinations(pods, keys, tk)[p] ==
                pods[p].(destinationOf := pods[p].destinationOf + Times(tk, multiset(keys)[p]))
  {
    NoteDestinationsKeys(pods, keys, tk);
    forall p | p in pods
      ensures NoteDestinations(pods, keys, tk)[p] ==
                pods[p].(destinationOf := pods[p].destinationOf + Times(tk, multiset(keys)[p]))
    {
      NoteDestinationsAt(pods, keys, tk, p);
    }
  }

  lemma {:induction false} NoteDestinationsKeys(pods: map<Key, Pod>, keys: seq<Key>, tk: TargetKey)
    ensures NoteDestinations(pods, keys, tk).Keys == pods.Keys
  {
    if keys != [] {
      NoteDestinationsKeys(if keys[0] !in pods then pods
      else pods[keys[0] := pods[keys[0]].(destinationOf := pods[keys[0]].destinationOf + [tk])], keys[1..], tk);
    }
  }

  function BackendServices(bs: seq<Backend>): seq<Key> {
    seq(|bs|, i requires 0 <= i < |bs| => bs[i].service)
  }

  function NoteBackends(services: map<Key, Service>, bs: seq<Backend>, k: Key): map<Key, Service> {
    if bs == [] then services
    else if bs[0].service !in services then NoteBackends(services, bs[1..], k)
    else NoteBackends(services[bs[0].service := services[bs[0].service].(backendOf := services[bs[0].service].backendOf
      + [k])], bs[1..], k)
  }

  lemma {:induction false} NoteBackendsAt(services: map<Key, Service>, bs: seq<Backend>, k: Key, s: Key)
    requires s in services
    ensures NoteBackends(services, bs, k).Keys == services.Keys
    ensures NoteBackends(services, bs, k)[s] ==
              services[s].(backendOf := services[s].backendOf + Times(k, multiset(BackendServices(bs))[s]))
  {
    if bs == [] {
      assert BackendServices(bs) == [];
      assert services[s].backendOf + Times(k, 0) == services[s].backendOf;
    } else {
      var s0 := bs[0].service;
      assert BackendServices(bs) == [s0] + BackendServices(bs[1..]);
      var next := if s0 !in services then services
      else services[s0 := services[s0].(backendOf := services[s0].backendOf + [k])];
      NoteBackendsAt(next, bs[1..], k, s);
      assert next[s].backendOf + Times(k, multiset(BackendServices(bs[1..]))[s]) ==
               services[s].backendOf + Times(k, multiset(BackendServices(bs))[s]);
    }
  }

  lemma NoteBackendsEffect(services: map<Key, Service>, bs: seq<Backend>, k: Key)
    ensures NoteBackends(services, bs, k).Keys == services.Keys
    ensures forall s :: s in services ==>
              NoteBackends(services, bs, k)[s] ==
                services[s].(backendOf := services[s].backendOf + Times(k, multiset(BackendServices(bs))[s]))
  {
    NoteBackendsKeys(services, bs, k);
    forall s | s in services
      ensures NoteBackends(services, bs, k)[s] ==
                services[s].(backendOf := services[s].backendOf + Times(k, multiset(BackendServices(bs))[s]))
    {
      NoteBackendsAt(services, bs, k, s);
    }
  }

  lemma {:induction false} NoteBackendsKeys(services: map<Key, Service>, bs: seq<Backend>, k: Key)
    ensures NoteBackends(services, bs, k).Keys == services.Keys
  {
    if bs != [] {
      var s0 := bs[0].service;
      NoteBackendsKeys(if s0 !in services then services
      else services[s0 := services[s0].(backendOf := services[s0].backendOf + [k])], bs[1..], k);
    }
  }

  // ---- What is to be built ----

  /** The parts of the topology, as the snapshot determines them, before they are linked. */
  datatype Plan = Plan(
    services: map<Key, Service>,
    splits: map<Key, Split>,
    root: map<Key, Key>,
    targets: map<TargetKey, Target>,
    placed: set<TargetKey>)

  ghost function Pairs(res: Snapshot): set<TargetKey> {
    set k, s | k in res.targets && s in Exposed(res, res.targets[k]) :: TargetKey(s, k)
  }

  ghost function PlanOf(res: Snapshot): Plan {
    Plan(
      map k | k in res.services :: ServiceOf(res, k),
      map k | k in res.splits :: SplitOf(res, res.splits[k]),
      map k | k in res.splits && Attachable(res, res.splits[k]) :: RootOf(res.splits[k]),
      map tk | tk in Pairs(res) :: TargetOf(res, res.targets[tk.target], tk.service),
      set tk | tk in Pairs(res) && TargetAttachable(res, res.targets[tk.target], tk.service))
  }

  ghost predicate PlanFits(plan: Plan) {
    && plan.root.Keys <= plan.splits.Keys
    && plan.root.Values <= plan.services.Keys
    && plan.placed <= plan.targets.Keys
    && (forall tk :: tk in plan.placed ==> tk.service in plan.services)
    && (forall k :: k in plan.splits && k !in plan.root ==> plan.splits[k].backends == [])
    && (forall k :: k in plan.splits ==> plan.splits[k].OwnKey() == k)
    && (forall k :: k in plan.root ==> plan.root[k] == plan.splits[k].service)
    && (forall s :: s in plan.services ==> Bare(plan.services[s]) == plan.services[s])
  }

  lemma SplitOfFits(res: Snapshot, o: SplitObject)
    ensures SplitOf(res, o).OwnKey() == Key(o.name, o.namespace) && SplitOf(res, o).service == RootOf(o)
    ensures !Attachable(res, o) ==> SplitOf(res, o).backends == []
    ensures Attachable(res, o) ==> RootOf(o) in res.services
  {
    hide SpecsOf, KeptBackends, BackendFaults, WholeGroups;
  }

  lemma TargetPlaceFits(res: Snapshot, o: TargetObject, s: Key)
    requires TargetAttachable(res, o, s)
    ensures s in res.services
  {
  }

  lemma ServiceOfBare(res: Snapshot, k: Key)
    requires k in res.services
    ensures Bare(ServiceOf(res, k)) == ServiceOf(res, k)
  {
  }

  lemma PlanSplitsFit(res: Snapshot, k: Key)
    requires Keyed(res) && k in PlanOf(res).splits
    ensures var plan := PlanOf(res);
            && plan.splits[k].OwnKey() == k
            && (k !in plan.root ==> plan.splits[k].backends == [])
            && (k in plan.root ==> plan.root[k] == plan.splits[k].service && plan.root[k] in plan.services)
  {
    hide SplitOf, Attachable, TargetOf, TargetAttachable, ServiceOf, RootOf, Exposed;
    SplitOfFits(res, res.splits[k]);
  }

  lemma PlanTargetsFit(res: Snapshot)
    ensures PlanOf(res).placed <= PlanOf(res).targets.Keys
    ensures forall tk :: tk in PlanOf(res).placed ==> tk.service in PlanOf(res).services
  {
    hide SplitOf, Attachable, TargetOf, TargetAttachable, ServiceOf, RootOf, Exposed;
    forall tk | tk in PlanOf(res).placed
      ensures tk.service in PlanOf(res).services
    {
      TargetPlaceFits(res, res.targets[tk.target], tk.service);
    }
  }

  lemma PlanServicesFit(res: Snapshot)
    ensures forall s :: s in PlanOf(res).services ==> Bare(PlanOf(res).services[s]) == PlanOf(res).services[s]
  {
    hide SplitOf, Attachable, TargetOf, TargetAttachable, ServiceOf, RootOf, Bare, Exposed;
    forall s | s in PlanOf(res).services
      ensures Bare(PlanOf(res).services[s]) == PlanOf(res).services[s]
    {
      ServiceOfBare(res, s);
    }
  }

  lemma PlanRootsFit(res: Snapshot)
    ensures PlanOf(res).root.Keys <= PlanOf(res).splits.Keys
  {
  }

  lemma PlanOfFits(res: Snapshot)
    requires Keyed(res)
    ensures PlanFits(PlanOf(res))
  {
    hide PlanOf, Bare;
    var plan := PlanOf(res);
    PlanRootsFit(res);
    PlanTargetsFit(res);
    PlanServicesFit(res);
    forall k | k in plan.splits
      ensures plan.splits[k].OwnKey() == k
      ensures k !in plan.root ==> plan.splits[k].backends == []
      ensures k in plan.root ==> plan.root[k] == plan.splits[k].service && plan.root[k] in plan.services
    {
      PlanSplitsFit(res, k);
    }
  }

  // ---- Steps ----

  function Bare(svc: Service): Service {
    svc.(trafficTargets := [], trafficSplits := [], backendOf := [])
  }

  ghost function ServiceAdded(plan: Plan, t: Topo, k: Key, created: map<Key, Pod>): Topo
    requires k in plan.services
  {
    t.(services := t.services[k := plan.services[k]], pods := created)
  }

  function WithSplit(services: map<Key, Service>, root: Key, k: Key): map<Key, Service>
    requires root in services
  {
    services[root := services[root].(trafficSplits := services[root].trafficSplits + [k])]
  }

  function WithTarget(services: map<Key, Service>, tk: TargetKey): map<Key, Service>
    requires tk.service in services
  {
    services[tk.service := services[tk.service].(trafficTargets := services[tk.service].trafficTargets + [tk])]
  }

  ghost function SplitAdded(plan: Plan, t: Topo, k: Key): Topo
    requires PlanFits(plan) && k in plan.splits && t.services.Keys == plan.services.Keys
  {
    var recorded := t.(splits := t.splits[k := plan.splits[k]]);
    if k !in plan.root then recorded
    else
      NoteBackendsEffect(t.services, plan.splits[k].backends, k);
      assert plan.root[k] in plan.root.Values;
      recorded.(services := WithSplit(NoteBackends(t.services, plan.splits[k].backends, k), plan.root[k], k))
  }

  /** Adds a target on one service; created are the pods once those of the destination are in. */
  ghost function TargetAdded(plan: Plan, t: Topo, tk: TargetKey, created: map<Key, Pod>): Topo
    requires PlanFits(plan) && tk in plan.targets && t.services.Keys == plan.services.Keys
  {
    var tt := plan.targets[tk];
    var recorded := t.(targets := t.targets[tk := tt], pods := created);
    if tk !in plan.placed then recorded
    else recorded.(services := WithTarget(t.services, tk), pods := Noted(created, tt, tk))
  }

  /** addSourceAndDestinationToPods */
  function Noted(pods: map<Key, Pod>, tt: Target, tk: TargetKey): map<Key, Pod> {
    NoteDestinations(NoteSources(pods, SourcePods(tt.sources), tk), tt.destination.pods, tk)
  }

  lemma NotedEffect(pods: map<Key, Pod>, tt: Target, tk: TargetKey)
    ensures Noted(pods, tt, tk).Keys == pods.Keys
    ensures forall p :: p in pods ==> Noted(pods, tt, tk)[p] == pods[p].(
      sourceOf := pods[p].sourceOf + Times(tk, multiset(SourcePods(tt.sources))[p]),
      destinationOf := pods[p].destinationOf + Times(tk, multiset(tt.destination.pods)[p]))
  {
    NoteSourcesEffect(pods, SourcePods(tt.sources), tk);
    NoteDestinationsEffect(NoteSources(pods, SourcePods(tt.sources), tk), tt.destination.pods, tk);
  }

  // ---- Links ----

  /** Services are as planned, apart from their links. */
  ghost predicate ServicesMatch(plan: Plan, t: Topo) {
    t.services.Keys == plan.services.Keys && forall s :: s in t.services ==> Bare(t.services[s]) == plan.services[s]
  }

  ghost predicate SitsOn(plan: Plan, t: Topo, k: Key, s: Key) {
    k in t.splits && k in plan.root && plan.root[k] == s
  }

  /** Splits are as planned, and each sits on its root service, once, exactly when it can be attached. */
  ghost predicate SplitsLinked(plan: Plan, t: Topo) {
    && (forall k :: k in t.splits ==> k in plan.splits && t.splits[k] == plan.splits[k])
    && (forall s :: s in t.services ==> Distinct(t.services[s].trafficSplits))
    && (forall s, k :: s in t.services ==> (k in t.services[s].trafficSplits <==> SitsOn(plan, t, k, s)))
  }

  ghost function TimesBacked(t: Topo, k: Key, s: Key): nat {
    if k in t.splits then multiset(BackendServices(t.splits[k].backends))[s] else 0
  }

  /** BackendOf and Backends agree, with multiplicity. */
  ghost predicate BackendsLinked(t: Topo) {
    forall s, k :: s in t.services ==> multiset(t.services[s].backendOf)[k] == TimesBacked(t, k, s)
  }

  ghost predicate AttachedTarget(t: Topo, tk: TargetKey) {
    tk.service in t.services && tk in t.services[tk.service].trafficTargets
  }

  /** Targets are as planned, and each sits on its service, once, exactly when it can be attached there. */
  ghost predicate TargetsLinked(plan: Plan, t: Topo) {
    && (forall tk :: tk in t.targets ==> tk in plan.targets && t.targets[tk] == plan.targets[tk])
    && (forall s :: s in t.services ==> Distinct(t.services[s].trafficTargets))
    && (forall s, tk :: s in t.services && tk in t.services[s].trafficTargets ==> tk.service == s)
    && (forall tk :: AttachedTarget(t, tk) <==> tk in t.targets && tk in plan.placed)
  }

  ghost function TimesSource(t: Topo, tk: TargetKey, p: Key): nat {
    if AttachedTarget(t, tk) && tk in t.targets then multiset(SourcePods(t.targets[tk].sources))[p] else 0
  }

  ghost function TimesDestination(t: Topo, tk: TargetKey, p: Key): nat {
    if AttachedTarget(t, tk) && tk in t.targets then multiset(t.targets[tk].destination.pods)[p] else 0
  }

  /** Pods point back to the attached targets that name them, with multiplicity. */
  ghost predicate PodsLinked(t: Topo) {
    forall p, tk :: p in t.pods ==>
      && multiset(t.pods[p].sourceOf)[tk] == TimesSource(t, tk, p)
      && multiset(t.pods[p].destinationOf)[tk] == TimesDestination(t, tk, p)
  }

  /** Every pod referred to is in the topology. */
  ghost predicate PodsPresent(t: Topo) {
    && (forall s, p :: s in t.services && p in t.services[s].pods ==> p in t.pods)
    && (forall tk, p :: tk in t.targets && p in SourcePods(t.targets[tk].sources) ==> p in t.pods)
    && (forall tk, p :: tk in t.targets && p in t.targets[tk].destination.pods ==> p in t.pods)
  }

  ghost predicate Linked(plan: Plan, t: Topo) {
    && ServicesMatch(plan, t) && SplitsLinked(plan, t) && BackendsLinked(t)
    && TargetsLinked(plan, t) && PodsLinked(t) && PodsPresent(t)
  }

  // ---- Where pods come from ----

  /** Pod object o is in one of the indexes of the snapshot. */
  ghost predicate Offers(res: Snapshot, o: PodObject) {
    || (exists s :: o in Lookup(res.podsBySvc, s))
    || (exists sa :: o in Lookup(res.podsBySa, sa))
    || (exists sa, s :: sa in res.podsBySvcBySa && o in Lookup(res.podsBySvcBySa[sa], s))
  }

  /** Pod p is an object of the snapshot, with its address and its service account. */
  ghost predicate Known(res: Snapshot, p: Key, pod: Pod) {
    exists o ::
      && Offers(res, o) && o.OwnKey() == p
      && pod == Pod(o.name, o.namespace, o.serviceAccount, o.ip, pod.sourceOf, pod.destinationOf)
  }

  ghost predicate PodsKnown(res: Snapshot, pods: map<Key, Pod>) {
    forall p :: p in pods ==> Known(res, p, pods[p])
  }

  lemma CreatePodKnown(res: Snapshot, pods: map<Key, Pod>, o: PodObject)
    requires PodsKnown(res, pods) && Offers(res, o)
    ensures PodsKnown(res, CreatePod(pods, o))
  {
    hide Offers;
    assert Known(res, o.OwnKey(), Pod(o.name, o.namespace, o.serviceAccount, o.ip, [], []));
  }

  lemma {:induction false} CreatePodsKnown(res: Snapshot, pods: map<Key, Pod>, os: seq<PodObject>)
    requires PodsKnown(res, pods) && forall o :: o in os ==> Offers(res, o)
    ensures PodsKnown(res, CreatePods(pods, os))
    decreases |os|
  {
    hide PodsKnown, Offers;
    if os != [] {
      CreatePodKnown(res, pods, os[0]);
      CreatePodsKnown(res, CreatePod(pods, os[0]), os[1..]);
    }
  }

  lemma {:induction false} AddressedMembers(os: seq<PodObject>)
    ensures forall o :: o in Addressed(os) <==> o in os && o.ip != ""
  {
    if os != [] {
      AddressedMembers(os[1..]);
      assert os == [os[0]] + os[1..];
    }
  }

  lemma {:induction false} CreateSourcesKnown(res: Snapshot, pods: map<Key, Pod>, ids: seq<Identity>)
    requires PodsKnown(res, pods)
    ensures PodsKnown(res, CreateSources(res, pods, ids))
    decreases |ids|
  {
    hide PodsKnown;
    if ids != [] {
      var os := Lookup(res.podsBySa, Key(ids[0].name, ids[0].namespace));
      AddressedMembers(os);
      CreatePodsKnown(res, pods, Addressed(os));
      CreateSourcesKnown(res, CreatePods(pods, Addressed(os)), ids[1..]);
    }
  }

  lemma NotedKnown(res: Snapshot, pods: map<Key, Pod>, tt: Target, tk: TargetKey)
    requires PodsKnown(res, pods)
    ensures PodsKnown(res, Noted(pods, tt, tk))
  {
    hide Offers, Noted;
    NotedEffect(pods, tt, tk);
    forall p | p in pods
      ensures Known(res, p, Noted(pods, tt, tk)[p])
    {
      assert Known(res, p, pods[p]);
    }
  }

  lemma TargetAddedKnown(res: Snapshot, t: Topo, tk: TargetKey, created: map<Key, Pod>)
    requires PlanFits(PlanOf(res)) && tk in PlanOf(res).targets && t.services.Keys == PlanOf(res).services.Keys
             && PodsKnown(res, created)
    ensures PodsKnown(res, TargetAdded(PlanOf(res), t, tk, created).pods)
  {
    hide PodsKnown, PlanFits, PlanOf, Noted;
    NotedKnown(res, created, PlanOf(res).targets[tk], tk);
  }

  // ---- Preservation: services ----

  /** The services of done are in, nothing else is. */
  ghost predicate OnlyServices(plan: Plan, t: Topo, done: set<Key>) {
    && done <= plan.services.Keys
    && t.services == (map s | s in done :: plan.services[s])
    && t.splits == map[] && t.targets == map[]
    && (forall p :: p in t.pods ==> t.pods[p].sourceOf == [] && t.pods[p].destinationOf == [])
    && (forall s, p :: s in t.services && p in t.services[s].pods ==> p in t.pods)
  }

  lemma ServiceAddedKeeps(plan: Plan, t: Topo, done: set<Key>, k: Key, created: map<Key, Pod>)
    requires OnlyServices(plan, t, done) && k in plan.services && Grows(t.pods, created)
    requires forall p :: p in plan.services[k].pods ==> p in created
    ensures OnlyServices(plan, ServiceAdded(plan, t, k, created), done + {k})
  {
  }

  lemma OnlyServicesLinked(plan: Plan, t: Topo)
    requires PlanFits(plan) && OnlyServices(plan, t, plan.services.Keys)
    ensures Linked(plan, t)
  {
    forall s | s in t.services
      ensures Bare(t.services[s]) == t.services[s] == plan.services[s]
    {
    }
    assert forall tk :: !AttachedTarget(t, tk);
  }

  // ---- Preservation: splits ----

  /** What adding split k does to service s. */
  ghost function ServiceWithSplit(plan: Plan, t: Topo, k: Key, s: Key): Service
    requires k in plan.splits && s in t.services
  {
    t.services[s].(
    trafficSplits := t.services[s].trafficSplits + (if k in plan.root && plan.root[k] == s then [k] else []),
    backendOf := t.services[s].backendOf + Times(k, multiset(BackendServices(plan.splits[k].backends))[s]))
  }

  lemma SplitAddedEffect(plan: Plan, t: Topo, k: Key)
    requires PlanFits(plan) && k in plan.splits && t.services.Keys == plan.services.Keys
    ensures SplitAdded(plan, t, k).services.Keys == t.services.Keys
    ensures forall s :: s in t.services ==> SplitAdded(plan, t, k).services[s] == ServiceWithSplit(plan, t, k, s)
  {
    hide NoteBackends;
    var bs := plan.splits[k].backends;
    NoteBackendsEffect(t.services, bs, k);
    assert BackendServices([]) == [];
    forall s | s in t.services
      ensures SplitAdded(plan, t, k).services[s] == ServiceWithSplit(plan, t, k, s)
    {
      assert t.services[s].backendOf + Times(k, 0) == t.services[s].backendOf;
      assert t.services[s].trafficSplits + [] == t.services[s].trafficSplits;
    }
  }

  lemma SplitAddedKeeps(plan: Plan, t: Topo, k: Key)
    requires PlanFits(plan) && Linked(plan, t) && k in plan.splits && k !in t.splits
    ensures Linked(plan, SplitAdded(plan, t, k))
  {
    hide SplitsLinked, BackendsLinked, TargetsLinked, PodsLinked, PodsPresent, NoteBackends, Bare;
    var u := SplitAdded(plan, t, k);
    SplitAddedEffect(plan, t, k);
    assert u.targets == t.targets && u.pods == t.pods && u.splits == t.splits[k := plan.splits[k]];
    SplitCounted(plan, t, u, k);
    SplitPlaced(plan, t, u, k);
    TargetsUntouched(plan, t, u);
  }

  lemma SplitCounted(plan: Plan, t: Topo, u: Topo, k: Key)
    requires BackendsLinked(t) && k in plan.splits && k !in t.splits
    requires u.splits == t.splits[k := plan.splits[k]] && u.services.Keys == t.services.Keys
    requires forall s :: s in t.services ==> u.services[s] == ServiceWithSplit(plan, t, k, s)
    ensures BackendsLinked(u)
  {
    var bs := plan.splits[k].backends;
    forall s, k' | s in u.services
      ensures multiset(u.services[s].backendOf)[k'] == TimesBacked(u, k', s)
    {
      var n := multiset(BackendServices(bs))[s];
      TimesCount(k, n);
      assert multiset(u.services[s].backendOf) == multiset(t.services[s].backendOf) + multiset(Times(k, n));
      assert multiset(t.services[s].backendOf)[k'] == TimesBacked(t, k', s);
    }
  }

  lemma SplitPlaced(plan: Plan, t: Topo, u: Topo, k: Key)
    requires ServicesMatch(plan, t) && SplitsLinked(plan, t) && k in plan.splits && k !in t.splits
    requires u.splits == t.splits[k := plan.splits[k]] && u.services.Keys == t.services.Keys
    requires forall s :: s in t.services ==> u.services[s] == ServiceWithSplit(plan, t, k, s)
    ensures ServicesMatch(plan, u) && SplitsLinked(plan, u)
  {
    forall s | s in u.services
      ensures Distinct(u.services[s].trafficSplits)
    {
      assert k in t.services[s].trafficSplits <==> SitsOn(plan, t, k, s);
    }
    forall s, k' | s in u.services
      ensures k' in u.services[s].trafficSplits <==> SitsOn(plan, u, k', s)
    {
      assert k' in t.services[s].trafficSplits <==> SitsOn(plan, t, k', s);
    }
  }

  /** Links of targets and pods only depend on the lists they live in. */
  lemma TargetsUntouched(plan: Plan, t: Topo, u: Topo)
    requires TargetsLinked(plan, t) && PodsLinked(t) && PodsPresent(t)
    requires u.targets == t.targets && u.pods == t.pods && u.services.Keys == t.services.Keys
    requires forall s ::
               s in t.services ==>
                 u.services[s].trafficTargets == t.services[s].trafficTargets
                 && u.services[s].pods == t.services[s].pods
    ensures TargetsLinked(plan, u) && PodsLinked(u) && PodsPresent(u)
  {
    assert forall tk :: AttachedTarget(u, tk) == AttachedTarget(t, tk);
    forall p, tk | p in u.pods
      ensures multiset(u.pods[p].sourceOf)[tk] == TimesSource(u, tk, p)
      ensures multiset(u.pods[p].destinationOf)[tk] == TimesDestination(u, tk, p)
    {
      assert TimesSource(u, tk, p) == TimesSource(t, tk, p) && TimesDestination(u, tk, p) == TimesDestination(t, tk, p);
    }
  }

  /** Links of splits only depend on the lists they live in. */
  lemma SplitsUntouched(plan: Plan, t: Topo, u: Topo)
    requires SplitsLinked(plan, t) && BackendsLinked(t)
    requires u.splits == t.splits && u.services.Keys == t.services.Keys
    requires forall s ::
               s in t.services ==>
                 u.services[s].trafficSplits == t.services[s].trafficSplits
                 && u.services[s].backendOf == t.services[s].backendOf
    ensures SplitsLinked(plan, u) && BackendsLinked(u)
  {
    forall s, k | s in u.services
      ensures multiset(u.services[s].backendOf)[k] == TimesBacked(u, k, s)
      ensures k in u.services[s].trafficSplits <==> SitsOn(plan, u, k, s)
    {
      assert TimesBacked(u, k, s) == TimesBacked(t, k, s);
      assert SitsOn(plan, u, k, s) == SitsOn(plan, t, k, s);
    }
  }

  // ---- Preservation: targets ----

  lemma TargetAddedKeeps(plan: Plan, t: Topo, tk: TargetKey, created: map<Key, Pod>)
    requires PlanFits(plan) && Linked(plan, t) && tk in plan.targets && tk !in t.targets && Grows(t.pods, created)
    requires forall p :: p in SourcePods(plan.targets[tk].sources) ==> p in created
    requires forall p :: p in plan.targets[tk].destination.pods ==> p in created
    ensures Linked(plan, TargetAdded(plan, t, tk, created))
  {
    hide SplitsLinked, BackendsLinked, TargetsLinked, PodsLinked, PodsPresent, TargetAdded, PodWith, Bare;
    var u := TargetAdded(plan, t, tk, created);
    TargetAddedEffect(plan, t, tk, created);
    TargetPlaced(plan, t, u, tk);
    SplitsUntouched(plan, t, u);
    TargetPods(plan, t, u, created, tk);
  }

  lemma TargetAddedEffect(plan: Plan, t: Topo, tk: TargetKey, created: map<Key, Pod>)
    requires PlanFits(plan) && tk in plan.targets && t.services.Keys == plan.services.Keys
    ensures var u := TargetAdded(plan, t, tk, created);
            && u.splits == t.splits && u.targets == t.targets[tk := plan.targets[tk]]
            && u.services == (if tk in plan.placed then WithTarget(t.services, tk) else t.services)
            && u.pods.Keys == created.Keys
            && forall p :: p in created ==> u.pods[p] == PodWith(created[p], p, tk, plan.targets[tk], tk in plan.placed)
  {
    NotedEffect(created, plan.targets[tk], tk);
  }

  lemma TargetPlaced(plan: Plan, t: Topo, u: Topo, tk: TargetKey)
    requires PlanFits(plan) && ServicesMatch(plan, t) && TargetsLinked(plan, t) && tk in plan.targets
             && tk !in t.targets
    requires u.targets == t.targets[tk := plan.targets[tk]]
    requires u.services == if tk in plan.placed then WithTarget(t.services, tk) else t.services
    ensures ServicesMatch(plan, u) && TargetsLinked(plan, u)
  {
    assert AttachedTarget(t, tk) <==> tk in t.targets && tk in plan.placed;
    if tk in plan.placed {
      TargetListed(plan, t, u, tk);
    } else {
      assert forall tk' :: AttachedTarget(u, tk') <==> AttachedTarget(t, tk');
    }
  }

  /** Target tk goes to the end of the list of its service. */
  lemma TargetListed(plan: Plan, t: Topo, u: Topo, tk: TargetKey)
    requires ServicesMatch(plan, t) && TargetsLinked(plan, t) && tk in plan.targets && tk !in t.targets
    requires tk in plan.placed && tk.service in t.services && !AttachedTarget(t, tk)
    requires u.targets == t.targets[tk := plan.targets[tk]] && u.services == WithTarget(t.services, tk)
    ensures ServicesMatch(plan, u) && TargetsLinked(plan, u)
  {
    hide Bare, WithTarget, AttachedTarget, Distinct, TargetsLinked;
    TargetServicesMatch(plan, t, u, tk);
    TargetStaysLinked(plan, t, u, tk);
  }

  lemma TargetServicesMatch(plan: Plan, t: Topo, u: Topo, tk: TargetKey)
    requires ServicesMatch(plan, t) && TargetsLinked(plan, t)
    requires tk.service in t.services && !AttachedTarget(t, tk) && u.services == WithTarget(t.services, tk)
    ensures ServicesMatch(plan, u)
  {
    hide Bare, WithTarget, AttachedTarget, Distinct;
    TargetStaysDistinct(t, u, tk);
  }

  lemma TargetStaysLinked(plan: Plan, t: Topo, u: Topo, tk: TargetKey)
    requires TargetsLinked(plan, t) && tk in plan.targets && tk !in t.targets
    requires tk in plan.placed && tk.service in t.services && !AttachedTarget(t, tk)
    requires u.targets == t.targets[tk := plan.targets[tk]] && u.services == WithTarget(t.services, tk)
    ensures TargetsLinked(plan, u)
  {
    hide Bare, WithTarget, AttachedTarget, Distinct;
    TargetStaysDistinct(t, u, tk);
    TargetAttaches(t, u, tk);
  }

  lemma TargetAttaches(t: Topo, u: Topo, tk: TargetKey)
    requires tk.service in t.services && u.services == WithTarget(t.services, tk)
    requires forall s, tk' :: s in t.services && tk' in t.services[s].trafficTargets ==> tk'.service == s
    ensures forall tk' :: AttachedTarget(u, tk') <==> AttachedTarget(t, tk') || tk' == tk
    ensures forall s, tk' :: s in u.services && tk' in u.services[s].trafficTargets ==> tk'.service == s
  {
    assert u.services[tk.service].trafficTargets == t.services[tk.service].trafficTargets + [tk];
  }

  lemma TargetStaysDistinct(t: Topo, u: Topo, tk: TargetKey)
    requires tk.service in t.services && !AttachedTarget(t, tk) && u.services == WithTarget(t.services, tk)
    requires forall s :: s in t.services ==> Distinct(t.services[s].trafficTargets)
    ensures u.services.Keys == t.services.Keys
    ensures forall s ::
              s in u.services ==> Bare(u.services[s]) == Bare(t.services[s]) && Distinct(u.services[s].trafficTargets)
    ensures forall s :: s in u.services && s != tk.service ==> u.services[s] == t.services[s]
  {
  }

  lemma TargetPods(plan: Plan, t: Topo, u: Topo, created: map<Key, Pod>, tk: TargetKey)
    requires PlanFits(plan) && ServicesMatch(plan, t) && TargetsLinked(plan, t) && TargetsLinked(plan, u)
    requires PodsLinked(t) && PodsPresent(t) && Grows(t.pods, created) && tk in plan.targets && tk !in t.targets
    requires forall p :: p in SourcePods(plan.targets[tk].sources) ==> p in created
    requires forall p :: p in plan.targets[tk].destination.pods ==> p in created
    requires u.targets == t.targets[tk := plan.targets[tk]]
    requires u.services == if tk in plan.placed then WithTarget(t.services, tk) else t.services
    requires u.pods.Keys == created.Keys
    requires forall p :: p in created ==> u.pods[p] == PodWith(created[p], p, tk, plan.targets[tk], tk in plan.placed)
    ensures PodsLinked(u) && PodsPresent(u)
  {
    hide PodsPresent, Grows, PodWith, Bare, AttachedTarget, TimesSource, TimesDestination;
    var tt := plan.targets[tk];
    assert AttachedTarget(t, tk) <==> tk in t.targets && tk in plan.placed;
    assert AttachedTarget(u, tk) <==> tk in u.targets && tk in plan.placed;
    forall p, tk' | p in u.pods
      ensures multiset(u.pods[p].sourceOf)[tk'] == TimesSource(u, tk', p)
      ensures multiset(u.pods[p].destinationOf)[tk'] == TimesDestination(u, tk', p)
    {
      assert AttachedTarget(t, tk') <==> tk' in t.targets && tk' in plan.placed;
      assert AttachedTarget(u, tk') <==> tk' in u.targets && tk' in plan.placed;
      PodRecounted(t, u, created, tk, tt, tk in plan.placed, p, tk');
    }
    TargetPodsPresent(t, u, created, tk, tt);
  }

  lemma PodRecounted(t: Topo, u: Topo, created: map<Key, Pod>, tk: TargetKey, tt: Target, placed: bool, p: Key,
          tk': TargetKey)
    requires PodsLinked(t) && PodsPresent(t) && Grows(t.pods, created) && p in created && p in u.pods
    requires tk !in t.targets && u.targets == t.targets[tk := tt]
    requires u.pods[p] == PodWith(created[p], p, tk, tt, placed)
    requires tk' != tk ==> (AttachedTarget(u, tk') <==> AttachedTarget(t, tk'))
    requires !AttachedTarget(t, tk) && (AttachedTarget(u, tk) <==> placed)
    ensures multiset(u.pods[p].sourceOf)[tk'] == TimesSource(u, tk', p)
    ensures multiset(u.pods[p].destinationOf)[tk'] == TimesDestination(u, tk', p)
  {
    hide PodsLinked, PodsPresent, Grows, AttachedTarget, PodWith;
    PodCounts(t, created, p, tk');
    PodCounted(created[p], p, tk, tk', tt, placed);
  }

  lemma TargetPodsPresent(t: Topo, u: Topo, created: map<Key, Pod>, tk: TargetKey, tt: Target)
    requires PodsPresent(t) && Grows(t.pods, created) && u.pods.Keys == created.Keys
    requires forall p :: p in SourcePods(tt.sources) ==> p in created
    requires forall p :: p in tt.destination.pods ==> p in created
    requires u.targets == t.targets[tk := tt] && u.services.Keys == t.services.Keys
    requires forall s :: s in t.services ==> u.services[s].pods == t.services[s].pods
    ensures PodsPresent(u)
  {
  }

  /** What noting target tk makes of pod p. */
  function PodWith(pod: Pod, p: Key, tk: TargetKey, tt: Target, placed: bool): Pod {
    if !placed then pod
    else pod.(sourceOf := pod.sourceOf + Times(tk, multiset(SourcePods(tt.sources))[p]),
              destinationOf := pod.destinationOf + Times(tk, multiset(tt.destination.pods)[p]))
  }

  lemma PodCounted(pod: Pod, p: Key, tk: TargetKey, tk': TargetKey, tt: Target, placed: bool)
    ensures multiset(PodWith(pod, p, tk, tt, placed).sourceOf)[tk'] ==
            multiset(pod.sourceOf)[tk'] + (if placed && tk' == tk then multiset(SourcePods(tt.sources))[p] else 0)
    ensures multiset(PodWith(pod, p, tk, tt, placed).destinationOf)[tk'] ==
            multiset(pod.destinationOf)[tk'] + (if placed && tk' == tk then multiset(tt.destination.pods)[p] else 0)
  {
    TimesCount(tk, multiset(SourcePods(tt.sources))[p]);
    TimesCount(tk, multiset(tt.destination.pods)[p]);
  }

  /** Creating pods does not change what pods point to: new ones are not named by any attached target. */
  lemma PodCounts(t: Topo, created: map<Key, Pod>, p: Key, tk: TargetKey)
    requires PodsLinked(t) && PodsPresent(t) && Grows(t.pods, created) && p in created
    ensures multiset(created[p].sourceOf)[tk] == TimesSource(t, tk, p)
    ensures multiset(created[p].destinationOf)[tk] == TimesDestination(t, tk, p)
  {
    if p !in t.pods && tk in t.targets {
      assert p !in SourcePods(t.targets[tk].sources) && p !in t.targets[tk].destination.pods;
    }
  }

  /** Creating the pods of the sources keeps all links. */
  lemma PodsCreatedKeeps(plan: Plan, t: Topo, more: map<Key, Pod>)
    requires Linked(plan, t) && Grows(t.pods, more)
    ensures Linked(plan, t.(pods := more))
  {
    var u := t.(pods := more);
    SplitsUntouched(plan, t, u);
    forall p, tk | p in u.pods
      ensures multiset(u.pods[p].sourceOf)[tk] == TimesSource(u, tk, p)
      ensures multiset(u.pods[p].destinationOf)[tk] == TimesDestination(u, tk, p)
    {
      PodCounts(t, more, p, tk);
      assert AttachedTarget(u, tk) == AttachedTarget(t, tk);
    }
    assert forall tk :: AttachedTarget(u, tk) == AttachedTarget(t, tk);
  }

  // ---- Consequences ----

  /** The links satisfy what the traversal of the split graph relies on. */
  lemma LinkedIsWellPlaced(plan: Plan, t: Topo)
    requires PlanFits(plan) && Linked(plan, t)
    ensures WellPlaced(t)
  {
    forall s, k | s in t.services && k in t.services[s].trafficSplits
      ensures k in t.splits && t.splits[k].service == s
    {
      assert SitsOn(plan, t, k, s);
    }
  }

  /** Every backend that was kept exposes all port numbers of the root service. */
  lemma KeptBackendsCover(res: Snapshot, o: SplitObject, b: Backend)
    requires b in SplitOf(res, o).backends
    ensures SplitOf(res, o).service in res.services && b.service in res.services
    ensures Covers(res.services[SplitOf(res, o).service].ports, res.services[b.service].ports)
  {
    KeptBackendsFaultless(res, o, o.backends, b);
  }

  lemma {:induction false} KeptBackendsFaultless(res: Snapshot, o: SplitObject, bs: seq<BackendObject>, b: Backend)
    requires RootOf(o) in res.services && b in KeptBackends(res, o, bs)
    ensures b.service in res.services && Covers(res.services[RootOf(o)].ports, res.services[b.service].ports)
  {
    if b in KeptBackends(res, o, bs[1..]) {
      KeptBackendsFaultless(res, o, bs[1..], b);
    }
  }

  /** Every backend that the split asks for. */
  function AskedBackends(o: SplitObject): seq<Backend> {
    seq(|o.backends|, i requires 0 <= i < |o.backends| => BackendOf(o, o.backends[i]))
  }

  lemma {:induction false} KeptBackendsExactly(res: Snapshot, o: SplitObject, bs: seq<BackendObject>)
    requires RootOf(o) in res.services
    ensures |KeptBackends(res, o, bs)| <= |bs|
    ensures |KeptBackends(res, o, bs)| == |bs| <==> forall i :: 0 <= i < |bs| ==> BackendFault(res, o, bs[i]).None?
    ensures (forall i :: 0 <= i < |bs| ==> BackendFault(res, o, bs[i]).None?) ==>
              forall i :: 0 <= i < |bs| ==> KeptBackends(res, o, bs)[i] == BackendOf(o, bs[i])
  {
    hide BackendFault;
    if bs != [] {
      KeptBackendsExactly(res, o, bs[1..]);
      assert forall i :: 0 < i < |bs| ==> bs[i] == bs[1..][i - 1];
      assert |KeptBackend(res, o, bs[0])| == if BackendFault(res, o, bs[0]).None? then 1 else 0;
    }
  }

  /** A split that is attached has all the backends it asks for exactly when there is nothing wrong with any of them. */
  lemma AllBackendsExactly(res: Snapshot, o: SplitObject)
    requires Attachable(res, o)
    ensures SplitOf(res, o).backends == AskedBackends(o) <==> forall i ::
              0 <= i < |o.backends| ==> BackendFault(res, o, o.backends[i]).None?
  {
    hide BackendFault;
    KeptBackendsExactly(res, o, o.backends);
  }

  /** A target is listed on a pod exactly when it is attached to its service and names the pod. */
  lemma PodLinksExact(plan: Plan, t: Topo, p: Key, tk: TargetKey)
    requires Linked(plan, t) && p in t.pods
    ensures tk in t.pods[p].sourceOf <==> AttachedTarget(t, tk) && TargetNames(t, tk, p)
    ensures tk in t.pods[p].destinationOf <==>
              AttachedTarget(t, tk) && tk in t.targets && p in t.targets[tk].destination.pods
  {
    assert tk in t.pods[p].sourceOf <==> multiset(t.pods[p].sourceOf)[tk] > 0;
    assert tk in t.pods[p].destinationOf <==> multiset(t.pods[p].destinationOf)[tk] > 0;
    if tk in t.targets {
      SourcePodsMembers(t.targets[tk].sources);
      assert p in SourcePods(t.targets[tk].sources) <==> multiset(SourcePods(t.targets[tk].sources))[p] > 0;
      assert p in t.targets[tk].destination.pods <==> multiset(t.targets[tk].destination.pods)[p] > 0;
    }
  }
}
