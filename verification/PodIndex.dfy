/** The indexes of pods that a topology is built from. */
module PodIndex {
  import opened Basics
  import opened Topologies
  import opened Resources

  /** An Endpoints object: the addresses of each subset, as the pod they refer to, if any. */
  datatype EndpointsObject = EndpointsObject(name: string, namespace: string, subsets: seq<seq<Option<Key>>>)
  {
    function OwnKey(): Key {
      Key(name, namespace)
    }
  }

  type PodsByName = map<Key, PodObject>

  function AccountOf(pod: PodObject): Key {
    Key(pod.serviceAccount, pod.namespace)
  }

  // ---- What the indexes hold ----

  /** The pods that are not ignored, in order. */
  function Admitted(pods: seq<PodObject>, ignored: PodObject -> bool): seq<PodObject> {
    if pods == [] then [] else (if ignored(pods[0]) then [] else [pods[0]]) + Admitted(pods[1..], ignored)
  }

  function ByName(pods: seq<PodObject>, byName: PodsByName): PodsByName
    decreases |pods|
  {
    if pods == [] then byName else ByName(pods[1..], byName[pods[0].OwnKey() := pods[0]])
  }

  /** The pods with the given service account, in order. */
  function WithAccount(pods: seq<PodObject>, sa: Key): seq<PodObject> {
    if pods == [] then [] else (if AccountOf(pods[0]) == sa then [pods[0]] else []) + WithAccount(pods[1..], sa)
  }

  function AddressList(subsets: seq<seq<Option<Key>>>): seq<Option<Key>> {
    if subsets == [] then [] else subsets[0] + AddressList(subsets[1..])
  }

  predicate Skipped(byName: PodsByName, address: Option<Key>, seen: set<Key>) {
    address.None? || address.value in seen || address.value !in byName
  }

  /** The known pods that the addresses refer to, each at its first occurrence, leaving out those seen. */
  function Referenced(byName: PodsByName, addresses: seq<Option<Key>>, seen: set<Key>): seq<PodObject>
    decreases |addresses|
  {
    if addresses == [] then []
    else if Skipped(byName, addresses[0], seen) then Referenced(byName, addresses[1..], seen)
    else [byName[addresses[0].value]] + Referenced(byName, addresses[1..], seen + {addresses[0].value})
  }

  /** The pods of service k. */
  function ServicePods(byName: PodsByName, eps: seq<EndpointsObject>, ignored: EndpointsObject -> bool,
          k: Key): seq<PodObject>
  {
    if eps == [] then []
    else
      (if ignored(eps[0]) || eps[0].OwnKey() != k then [] else Referenced(byName, AddressList(eps[0].subsets), {}))
      + ServicePods(byName, eps[1..], ignored, k)
  }

  function LookupIn(index: map<Key, map<Key, seq<PodObject>>>, sa: Key, k: Key): seq<PodObject> {
    if sa in index then Lookup(index[sa], k) else []
  }

  lemma {:induction false} WithAccountAppend(pods: seq<PodObject>, pod: PodObject, sa: Key)
    ensures WithAccount(pods + [pod], sa) == WithAccount(pods, sa) + if AccountOf(pod) == sa then [pod] else []
  {
    if pods == [] {
      assert WithAccount([pod], sa) == if AccountOf(pod) == sa then [pod] else [];
    } else {
      assert (pods + [pod])[1..] == pods[1..] + [pod];
      WithAccountAppend(pods[1..], pod, sa);
    }
  }

  lemma {:induction false} AdmittedAppend(pods: seq<PodObject>, pod: PodObject, ignored: PodObject -> bool)
    ensures Admitted(pods + [pod], ignored) == if ignored(pod) then Admitted(pods, ignored)
    else Admitted(pods, ignored) + [pod]
  {
    if pods == [] {
      assert Admitted([pod], ignored) == if ignored(pod) then [] else [pod];
    } else {
      assert (pods + [pod])[1..] == pods[1..] + [pod];
      AdmittedAppend(pods[1..], pod, ignored);
    }
  }

  lemma {:induction false} ByNameAppend(pods: seq<PodObject>, pod: PodObject, byName: PodsByName)
    ensures ByName(pods + [pod], byName) == ByName(pods, byName)[pod.OwnKey() := pod]
    decreases |pods|
  {
    if pods != [] {
      assert (pods + [pod])[1..] == pods[1..] + [pod];
      ByNameAppend(pods[1..], pod, byName[pods[0].OwnKey() := pods[0]]);
    }
  }

  // ---- Two indexes in agreement ----

  /**
   The pods of a service with some service account are those of the service that have this account, in order.
   Services are listed under an account only when they have such pods.
   */
  ghost predicate IndexesAgree(bySvc: map<Key, seq<PodObject>>, bySa: map<Key, map<Key, seq<PodObject>>>) {
    && (forall sa, k :: LookupIn(bySa, sa, k) == WithAccount(Lookup(bySvc, k), sa))
    && (forall sa, k :: sa in bySa && k in bySa[sa] ==> bySa[sa][k] != [])
  }

  function Added(index: map<Key, seq<PodObject>>, k: Key, pod: PodObject): map<Key, seq<PodObject>> {
    index[k := Lookup(index, k) + [pod]]
  }

  /** Adding a pod to both keeps them in agreement. */
  lemma AddedToBoth(bySvc: map<Key, seq<PodObject>>, bySa: map<Key, map<Key, seq<PodObject>>>, k: Key, pod: PodObject)
    requires IndexesAgree(bySvc, bySa)
    ensures var sa := AccountOf(pod);
            IndexesAgree(Added(bySvc, k, pod), bySa[sa := Added(if sa in bySa then bySa[sa] else map[], k, pod)])
  {
    hide WithAccount;
    var sa := AccountOf(pod);
    var bySvc', bySa' := Added(bySvc, k, pod), bySa[sa := Added(if sa in bySa then bySa[sa] else map[], k, pod)];
    forall sa', k'
      ensures LookupIn(bySa', sa', k') == WithAccount(Lookup(bySvc', k'), sa')
    {
      assert LookupIn(bySa, sa', k') == WithAccount(Lookup(bySvc, k'), sa');
      WithAccountAppend(Lookup(bySvc, k'), pod, sa');
    }
  }

  lemma AccountAdded(byAccount: map<Key, seq<PodObject>>, done: seq<PodObject>, pod: PodObject)
    requires forall sa :: Lookup(byAccount, sa) == WithAccount(done, sa)
    ensures forall sa :: Lookup(Added(byAccount, AccountOf(pod), pod), sa) == WithAccount(done + [pod], sa)
  {
    hide WithAccount;
    forall sa
      ensures Lookup(Added(byAccount, AccountOf(pod), pod), sa) == WithAccount(done + [pod], sa)
    {
      WithAccountAppend(done, pod, sa);
    }
  }

  lemma NoneAdmitted(pods: seq<PodObject>, ignored: PodObject -> bool)
    ensures Admitted(pods[..0], ignored) == [] && ByName([], map[]) == map[] && forall sa :: WithAccount([], sa) == []
  {
  }

  // ---- Indexing ----

  class PodResources {
    var podsBySvc: map<Key, seq<PodObject>>
    var podsByServiceAccounts: map<Key, seq<PodObject>>
    var podsBySvcBySa: map<Key, map<Key, seq<PodObject>>>

    constructor ()
      ensures podsBySvc == map[] && podsByServiceAccounts == map[] && podsBySvcBySa == map[]
    {
      podsBySvc, podsByServiceAccounts, podsBySvcBySa := map[], map[], map[];
    }

    ghost predicate Agree()
      reads this
    {
      IndexesAgree(podsBySvc, podsBySvcBySa)
    }

    method IndexPods(ignoredPod: PodObject -> bool, ignoredEndpoints: EndpointsObject -> bool, pods: seq<PodObject>,
            eps: seq<EndpointsObject>)
      requires podsBySvc == map[] && podsByServiceAccounts == map[] && podsBySvcBySa == map[]
      modifies this
      ensures Agree()
      ensures forall k ::
                Lookup(podsBySvc, k) == ServicePods(ByName(Admitted(pods, ignoredPod), map[]), eps, ignoredEndpoints, k)
      ensures forall sa :: Lookup(podsByServiceAccounts, sa) == WithAccount(Admitted(pods, ignoredPod), sa)
    {
      var podsByName := IndexPodsByServiceAccount(ignoredPod, pods);
      IndexPodsByService(ignoredEndpoints, eps, podsByName);
    }

    method IndexPodsByServiceAccount(ignored: PodObject -> bool, pods: seq<PodObject>) returns (podsByName: PodsByName)
      requires podsByServiceAccounts == map[]
      modifies this`podsByServiceAccounts
      ensures podsByName == ByName(Admitted(pods, ignored), map[])
      ensures forall sa :: Lookup(podsByServiceAccounts, sa) == WithAccount(Admitted(pods, ignored), sa)
    {
      hide WithAccount, ByName, Admitted;
      podsByName := map[];
      NoneAdmitted(pods, ignored);
      for i := 0 to |pods|
        invariant podsByName == ByName(Admitted(pods[..i], ignored), map[])
        invariant forall sa :: Lookup(podsByServiceAccounts, sa) == WithAccount(Admitted(pods[..i], ignored), sa)
      {
        ghost var done := Admitted(pods[..i], ignored);
        AdmittedAppend(pods[..i], pods[i], ignored);
        assert pods[..i + 1] == pods[..i] + [pods[i]];
        if ignored(pods[i]) {
          continue;
        }
        var pod := pods[i];
        ByNameAppend(done, pod, map[]);
        podsByName := podsByName[pod.OwnKey() := pod];
        var saKey := AccountOf(pod);
        AccountAdded(podsByServiceAccounts, done, pod);
        podsByServiceAccounts := Added(podsByServiceAccounts, saKey, pod);
      }
      assert pods[..|pods|] == pods;
    }

    method IndexPodsByService(ignored: EndpointsObject -> bool, eps: seq<EndpointsObject>, podsByName: PodsByName)
      requires podsBySvc == map[] && podsBySvcBySa == map[]
      modifies this`podsBySvc, this`podsBySvcBySa
      ensures Agree()
      ensures forall k :: Lookup(podsBySvc, k) == ServicePods(podsByName, eps, ignored, k)
    {
      for i := 0 to |eps|
        invariant Agree()
        invariant forall k ::
                    Lookup(podsBySvc, k) + ServicePods(podsByName, eps[i..], ignored, k) ==
                      ServicePods(podsByName, eps, ignored, k)
      {
        assert eps[i..][1..] == eps[i + 1..];
        if ignored(eps[i]) {
          continue;
        }
        IndexEndpoints(eps[i], podsByName);
      }
    }

    method IndexEndpoints(ep: EndpointsObject, podsByName: PodsByName)
      requires Agree()
      modifies this`podsBySvc, this`podsBySvcBySa
      ensures Agree()
      ensures forall k :: Lookup(podsBySvc, k) ==
                          Lookup(old(podsBySvc), k)
                          + if k == ep.OwnKey() then Referenced(podsByName, AddressList(ep.subsets), {}) else []
    {
      ghost var key, all := ep.OwnKey(), Referenced(podsByName, AddressList(ep.subsets), {});
      var indexed: set<Key> := {};
      for i := 0 to |ep.subsets|
        invariant Agree()
        invariant forall k :: k != key ==> Lookup(podsBySvc, k) == Lookup(old(podsBySvc), k)
        invariant Lookup(podsBySvc, key) + Referenced(podsByName, AddressList(ep.subsets[i..]), indexed) ==
                    Lookup(old(podsBySvc), key) + all
      {
        assert ep.subsets[i..][1..] == ep.subsets[i + 1..];
        var subset := ep.subsets[i];
        ghost var later := AddressList(ep.subsets[i + 1..]);
        assert subset[0..] == subset;
        for j := 0 to |subset|
          invariant Agree()
          invariant forall k :: k != key ==> Lookup(podsBySvc, k) == Lookup(old(podsBySvc), k)
          invariant Lookup(podsBySvc, key) + Referenced(podsByName, subset[j..] + later, indexed) ==
                      Lookup(old(podsBySvc), key) + all
        {
          assert (subset[j..] + later)[1..] == subset[j + 1..] + later;
          indexed := IndexPodByService(ep, subset[j], podsByName, indexed);
        }
        assert subset[|subset|..] + later == later;
      }
    }

    method IndexPodByService(ep: EndpointsObject, address: Option<Key>, podsByName: PodsByName, indexed: set<Key>)
        returns (r: set<Key>)
      requires Agree()
      modifies this`podsBySvc, this`podsBySvcBySa
      ensures Agree()
      ensures forall k :: k != ep.OwnKey() ==> Lookup(podsBySvc, k) == Lookup(old(podsBySvc), k)
      ensures if Skipped(podsByName, address, indexed) then r == indexed && podsBySvc == old(podsBySvc)
              else r == indexed + {address.value}
                   && Lookup(podsBySvc, ep.OwnKey()) ==
                        Lookup(old(podsBySvc), ep.OwnKey()) + [podsByName[address.value]]
    {
      if address.None? {
        return indexed;
      }
      var keyPod := address.value;
      if keyPod in indexed {
        return indexed;
      }
      if keyPod !in podsByName {
        return indexed;
      }
      hide IndexesAgree, WithAccount;
      var pod := podsByName[keyPod];
      var keySA, keyEP := AccountOf(pod), ep.OwnKey();
      AddedToBoth(podsBySvc, podsBySvcBySa, keyEP, pod);
      if keySA !in podsBySvcBySa {
        podsBySvcBySa := podsBySvcBySa[keySA := map[]];
      }
      podsBySvcBySa := podsBySvcBySa[keySA := Added(podsBySvcBySa[keySA], keyEP, pod)];
      podsBySvc := Added(podsBySvc, keyEP, pod);
      return indexed + {keyPod};
    }
  }

  // ---- Who is indexed ----

  lemma {:induction false} AdmittedMembers(pods: seq<PodObject>, ignored: PodObject -> bool)
    ensures forall p :: p in Admitted(pods, ignored) <==> p in pods && !ignored(p)
  {
    if pods != [] {
      AdmittedMembers(pods[1..], ignored);
      assert pods == [pods[0]] + pods[1..];
    }
  }

  ghost predicate DistinctKeys(pods: seq<PodObject>) {
    forall i, j :: 0 <= i < j < |pods| ==> pods[i].OwnKey() != pods[j].OwnKey()
  }

  /** With distinct names, a pod is known by its own name, and nothing else is known. */
  lemma {:induction false} ByNameExact(pods: seq<PodObject>, byName: PodsByName)
    requires DistinctKeys(pods)
    ensures forall p :: p in pods ==> p.OwnKey() in ByName(pods, byName) && ByName(pods, byName)[p.OwnKey()] == p
    ensures forall k :: k in ByName(pods, byName) ==>
              ByName(pods, byName)[k] in pods || (k in byName && ByName(pods, byName)[k] == byName[k])
    decreases |pods|
  {
    if pods != [] {
      var next := byName[pods[0].OwnKey() := pods[0]];
      assert DistinctKeys(pods[1..]);
      ByNameExact(pods[1..], next);
      ByNameOther(pods[1..], next, pods[0].OwnKey());
      assert pods == [pods[0]] + pods[1..];
    }
  }

  lemma {:induction false} ByNameOwn(pods: seq<PodObject>, byName: PodsByName)
    requires NamedByOwn(byName)
    ensures NamedByOwn(ByName(pods, byName))
    decreases |pods|
  {
    if pods != [] {
      ByNameOwn(pods[1..], byName[pods[0].OwnKey() := pods[0]]);
    }
  }

  lemma {:induction false} ByNameOther(pods: seq<PodObject>, byName: PodsByName, k: Key)
    requires k in byName && forall i :: 0 <= i < |pods| ==> pods[i].OwnKey() != k
    ensures k in ByName(pods, byName) && ByName(pods, byName)[k] == byName[k]
    decreases |pods|
  {
    if pods != [] {
      ByNameOther(pods[1..], byName[pods[0].OwnKey() := pods[0]], k);
    }
  }

  ghost predicate NamedByOwn(byName: PodsByName) {
    forall k :: k in byName ==> byName[k].OwnKey() == k
  }

  /** The pods referenced are the known ones among the addresses, without those seen, and none of them twice. */
  lemma {:induction false} ReferencedExact(byName: PodsByName, addresses: seq<Option<Key>>, seen: set<Key>)
    requires NamedByOwn(byName)
    ensures forall p :: p in Referenced(byName, addresses, seen) <==>
              Some(p.OwnKey()) in addresses && p.OwnKey() in byName && byName[p.OwnKey()] == p && p.OwnKey() !in seen
    ensures Distinct(Referenced(byName, addresses, seen))
    decreases |addresses|
  {
    if addresses != [] {
      assert addresses == [addresses[0]] + addresses[1..];
      var more := if Skipped(byName, addresses[0], seen) then seen else seen + {addresses[0].value};
      ReferencedExact(byName, addresses[1..], more);
      if !Skipped(byName, addresses[0], seen) {
        assert byName[addresses[0].value].OwnKey() == addresses[0].value;
      }
    }
  }

  /** Endpoints object ep, which is not ignored, makes pod p one of service k. */
  ghost predicate ListsPod(ep: EndpointsObject, ignored: EndpointsObject -> bool, k: Key, p: Key) {
    && ep.name == k.name && ep.namespace == k.namespace && !ignored(ep)
    && exists i, j :: 0 <= i < |ep.subsets| && 0 <= j < |ep.subsets[i]| && ep.subsets[i][j] == Some(p)
  }

  lemma {:induction false} AddressListMembers(subsets: seq<seq<Option<Key>>>, a: Option<Key>)
    ensures a in AddressList(subsets) <==>
            exists i, j :: 0 <= i < |subsets| && 0 <= j < |subsets[i]| && subsets[i][j] == a
  {
    if subsets != [] {
      AddressListMembers(subsets[1..], a);
      assert forall i :: 0 < i < |subsets| ==> subsets[i] == subsets[1..][i - 1];
      if a in subsets[0] {
        var j :| 0 <= j < |subsets[0]| && subsets[0][j] == a;
        assert subsets[0][j] == a;
      }
      if i, j :| 0 <= i < |subsets[1..]| && 0 <= j < |subsets[1..][i]| && subsets[1..][i][j] == a {
        assert subsets[i + 1][j] == a;
      }
    }
  }

  lemma {:induction false} ServicePodsMember(byName: PodsByName, eps: seq<EndpointsObject>,
          ignored: EndpointsObject -> bool, k: Key, p: PodObject)
    requires NamedByOwn(byName)
    ensures p in ServicePods(byName, eps, ignored, k) <==>
            p.OwnKey() in byName && byName[p.OwnKey()] == p && exists ep ::
              ep in eps && ListsPod(ep, ignored, k, p.OwnKey())
  {
    if eps != [] {
      ServicePodsMember(byName, eps[1..], ignored, k, p);
      ReferencedExact(byName, AddressList(eps[0].subsets), {});
      AddressListMembers(eps[0].subsets, Some(p.OwnKey()));
      assert forall ep :: ep in eps <==> ep == eps[0] || ep in eps[1..];
      if ListsPod(eps[0], ignored, k, p.OwnKey()) {
        assert exists ep :: ep in eps && ListsPod(ep, ignored, k, p.OwnKey());
      }
    }
  }

  ghost predicate DistinctEndpoints(eps: seq<EndpointsObject>) {
    forall i, j :: 0 <= i < j < |eps| ==> eps[i].OwnKey() != eps[j].OwnKey()
  }

  lemma {:induction false} ServicePodsDistinct(byName: PodsByName, eps: seq<EndpointsObject>,
          ignored: EndpointsObject -> bool, k: Key)
    requires NamedByOwn(byName)
    ensures (forall i :: 0 <= i < |eps| ==> eps[i].OwnKey() != k) ==> ServicePods(byName, eps, ignored, k) == []
    ensures DistinctEndpoints(eps) ==> Distinct(ServicePods(byName, eps, ignored, k))
  {
    if eps != [] {
      ServicePodsDistinct(byName, eps[1..], ignored, k);
      ReferencedExact(byName, AddressList(eps[0].subsets), {});
      assert forall i :: 0 <= i < |eps[1..]| ==> eps[1..][i] == eps[i + 1];
    }
  }

  /**
   Whatever is ignored, a pod is indexed under a service exactly when neither it nor some Endpoints object of
   that name that lists it is ignored; and when no two Endpoints objects share a name, it is indexed once.
   */
  lemma IndexedExactly(pods: seq<PodObject>, ignoredPod: PodObject -> bool, eps: seq<EndpointsObject>,
          ignoredEndpoints: EndpointsObject -> bool, k: Key)
    requires DistinctKeys(pods)
    ensures var indexed := ServicePods(ByName(Admitted(pods, ignoredPod), map[]), eps, ignoredEndpoints, k);
            && (forall p :: p in indexed <==> p in pods && !ignoredPod(p) && exists ep ::
                 ep in eps && ListsPod(ep, ignoredEndpoints, k, p.OwnKey()))
            && (DistinctEndpoints(eps) ==> Distinct(indexed))
  {
    var admitted := Admitted(pods, ignoredPod);
    AdmittedMembers(pods, ignoredPod);
    AdmittedDistinct(pods, ignoredPod);
    var byName := ByName(admitted, map[]);
    ByNameExact(admitted, map[]);
    ByNameOwn(admitted, map[]);
    ServicePodsDistinct(byName, eps, ignoredEndpoints, k);
    forall p
      ensures p in ServicePods(byName, eps, ignoredEndpoints, k) <==>
              p in pods && !ignoredPod(p) && exists ep :: ep in eps && ListsPod(ep, ignoredEndpoints, k, p.OwnKey())
    {
      ServicePodsMember(byName, eps, ignoredEndpoints, k, p);
    }
  }

  lemma {:induction false} AdmittedDistinct(pods: seq<PodObject>, ignored: PodObject -> bool)
    requires DistinctKeys(pods)
    ensures DistinctKeys(Admitted(pods, ignored))
  {
    if pods != [] {
      assert DistinctKeys(pods[1..]);
      AdmittedDistinct(pods[1..], ignored);
      AdmittedMembers(pods[1..], ignored);
      assert forall p :: p in pods[1..] ==> exists i :: 1 <= i < |pods| && pods[i] == p;
      assert forall p :: p in Admitted(pods[1..], ignored) ==> p in pods[1..] && p.OwnKey() != pods[0].OwnKey();
    }
  }

  /** The pods with a given account form a subsequence: they keep their order, and all of them are there. */
  lemma {:induction false} WithAccountMembers(pods: seq<PodObject>, sa: Key)
    ensures forall p :: multiset(WithAccount(pods, sa))[p] ==
              if p.serviceAccount == sa.name && p.namespace == sa.namespace then multiset(pods)[p] else 0
  {
    if pods != [] {
      WithAccountMembers(pods[1..], sa);
      assert pods == [pods[0]] + pods[1..];
    }
  }
}
