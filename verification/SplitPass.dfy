/**
 The final pass over a topology: it records the incoming pods of every attached traffic-split and takes the
 splits that failed off their services.
 */
module SplitPass {
  import opened Basics
  import opened Topologies
  import opened SplitGraph
  import opened SplitWalks
  import opened SplitTheorems

  ghost predicate Fails(t: Topo, k: Key) {
    k in t.splits && Incoming(t, k).Failure?
  }

  /** The splits of ks that fail, in order. */
  ghost function Failing(t: Topo, ks: seq<Key>): seq<Key> {
    if ks == [] then [] else (if Fails(t, ks[0]) then [ks[0]] else []) + Failing(t, ks[1..])
  }

  /** The splits of ks that do not fail, in order. */
  ghost function Kept(t: Topo, ks: seq<Key>): seq<Key> {
    if ks == [] then [] else (if Fails(t, ks[0]) then [] else [ks[0]]) + Kept(t, ks[1..])
  }

  ghost predicate Attached(t: Topo, k: Key) {
    exists s :: s in t.services && k in t.services[s].trafficSplits
  }

  /** What the pass records on split k. */
  ghost function Recorded(t: Topo, k: Key): Split
    requires k in t.splits
  {
    match Incoming(t, k)
    case Success(pods) => t.splits[k].(incoming := pods.Elems())
    case Failure(e) => t.splits[k].(errors := t.splits[k].errors + [NoIncoming(e)])
  }

  /** Service svc without the splits that fail. */
  ghost function Pruned(t: Topo, svc: Service): Service {
    svc.(trafficSplits := Kept(t, svc.trafficSplits))
  }

  /**
   The topology after the pass. It is a function of the topology before: the order of the visits has no part in
   it.
   */
  ghost function Populated(t: Topo): Topo {
    t.(services := map s | s in t.services :: Pruned(t, t.services[s]),
       splits := map k | k in t.splits :: if Attached(t, k) then Recorded(t, k) else t.splits[k])
  }

  lemma {:induction false} KeptMembers(t: Topo, ks: seq<Key>)
    ensures forall k :: k in Kept(t, ks) <==> k in ks && !Fails(t, k)
    ensures Kept(t, ks) == [] ==> forall k :: k in ks ==> Fails(t, k)
  {
    if ks != [] {
      KeptMembers(t, ks[1..]);
      assert ks == [ks[0]] + ks[1..];
      assert Kept(t, ks) == [] ==> Fails(t, ks[0]) && Kept(t, ks[1..]) == [];
    }
  }

  lemma {:induction false} KeptDistinct(t: Topo, ks: seq<Key>)
    requires Distinct(ks)
    ensures Distinct(Kept(t, ks))
  {
    if ks != [] {
      KeptDistinct(t, ks[1..]);
      KeptMembers(t, ks[1..]);
      assert forall k :: k in ks[1..] ==> exists j :: 0 < j < |ks| && ks[j] == k;
    }
  }

  /** The links of the topology stay consistent. */
  lemma PopulatedWellPlaced(t: Topo)
    requires WellPlaced(t)
    ensures WellPlaced(Populated(t))
  {
    var f := Populated(t);
    forall s | s in f.services
      ensures Distinct(f.services[s].trafficSplits)
      ensures forall k :: k in f.services[s].trafficSplits && k in f.splits ==> f.splits[k].service == s
    {
      KeptDistinct(t, t.services[s].trafficSplits);
      KeptMembers(t, t.services[s].trafficSplits);
    }
  }

  /** The pass only takes splits away: what is reachable afterwards was reachable before. */
  lemma PopulatedReach(t: Topo, a: Key, b: Key)
    requires Reaches(Populated(t), a, b)
    ensures Reaches(t, a, b)
  {
    var f := Populated(t);
    var path :| IsPath(f, path) && path[0] == a && path[|path| - 1] == b;
    forall i | 0 <= i < |path| - 1
      ensures Edge(t, path[i], path[i + 1])
    {
      PopulatedEdge(t, path[i], path[i + 1]);
    }
    assert IsPath(t, path);
  }

  lemma PopulatedEdge(t: Topo, a: Key, b: Key)
    requires Edge(Populated(t), a, b)
    ensures Edge(t, a, b)
  {
    var f := Populated(t);
    var s :| Backs(f, a, s) && s in f.services && b in f.services[s].trafficSplits;
    KeptMembers(t, t.services[s].trafficSplits);
    assert Backs(t, a, s);
  }

  lemma PopulatedKeepsSuccessful(t: Topo)
    ensures KeepsSuccessful(t, Populated(t))
  {
    forall s | s in t.services
      ensures IsLeaf(t, s) ==> IsLeaf(Populated(t), s)
      ensures forall k :: k in t.services[s].trafficSplits && k in t.splits && Incoming(t, k).Success?
                ==> k in Populated(t).services[s].trafficSplits
    {
      KeptMembers(t, t.services[s].trafficSplits);
    }
  }

  /** Below a split with a non-empty list nothing is removed: leaves afterwards are leaves before. */
  lemma LeavesBelowUnchanged(t: Topo, m: Key, s: Key)
    requires WellPlaced(t) && m in t.splits && !CyclicBelow(t, m) && ResolvedBelow(t, m)
    requires Backs(t, m, s) && IsLeaf(Populated(t), s)
    ensures IsLeaf(t, s)
  {
    var ks := t.services[s].trafficSplits;
    KeptMembers(t, ks);
    if ks != [] {
      var c := ks[0];
      assert c in ks && Fails(t, c) && Edge(t, m, c);
      BelowStep(t, m, c);
      FailureIsReal(t, c);
    }
  }

  /**
   The pass is exact on the topology it leaves behind: the list recorded on a split that is still attached
   holds exactly the pods that every leaf reachable in the final graph names as a source.
   */
  lemma FinalIncomingIsExact(t: Topo, s: Key, k: Key, p: Key)
    requires WellPlaced(t) && s in t.services && k in t.splits && k in Populated(t).services[s].trafficSplits
    ensures p in Populated(t).splits[k].incoming <==> AuthorisedBelow(Populated(t), k, p)
  {
    var f := Populated(t);
    KeptMembers(t, t.services[s].trafficSplits);
    assert Attached(t, k);
    if p in f.splits[k].incoming {
      NonEmptyIsClean(t, k);
      forall m | Reaches(f, k, m)
        ensures Authorises(f, m, p)
      {
        PopulatedReach(t, k, m);
        BelowReach(t, k, m);
        assert Authorises(t, m, p);
        forall s' | Backs(f, m, s') && IsLeaf(f, s')
          ensures Names(f, s', p)
        {
          assert Backs(t, m, s');
          LeavesBelowUnchanged(t, m, s');
          var tk :| tk in t.services[s'].trafficTargets && TargetNames(t, tk, p);
          assert TargetNames(f, tk, p);
        }
      }
    }
    if AuthorisedBelow(f, k, p) {
      PopulatedKeepsSuccessful(t);
      AuthorisedIsListed(t, f, k, {}, p);
    }
  }

  /** Leaf s can be reached from split k. */
  ghost predicate LeafBelow(t: Topo, k: Key, s: Key) {
    IsLeaf(t, s) && exists m :: Reaches(t, k, m) && m in t.splits && Backs(t, m, s)
  }

  lemma {:induction false} FreshKey(ks: seq<Key>) returns (k: Key)
    ensures k !in ks && forall i :: 0 <= i < |ks| ==> |ks[i].name| < |k.name|
  {
    if ks == [] {
      k := Key("", "");
    } else {
      var shorter := FreshKey(ks[1..]);
      k := Key(shorter.name + ks[0].name + "-", "");
      assert forall i :: 0 < i < |ks| ==> ks[i] == ks[1..][i - 1];
    }
  }

  /** Where some pod is authorised there is a leaf: without one, all pods would be, and no list holds them all. */
  lemma AuthorisedHasLeaf(t: Topo, s: Key, k: Key, p: Key) returns (leaf: Key)
    requires WellPlaced(t) && s in t.services && k in t.splits && k in Populated(t).services[s].trafficSplits
    requires AuthorisedBelow(Populated(t), k, p)
    ensures LeafBelow(Populated(t), k, leaf)
  {
    hide WellPlaced, Reaches, Recorded, Pruned;
    var f := Populated(t);
    if forall s' :: !LeafBelow(f, k, s') {
      var q := FreshKey(f.splits[k].incoming);
      forall m | Reaches(f, k, m)
        ensures Authorises(f, m, q)
      {
        assert Authorises(f, m, p);
        assert forall s' :: Backs(f, m, s') && IsLeaf(f, s') ==> LeafBelow(f, k, s');
      }
      FinalIncomingIsExact(t, s, k, q);
    }
    leaf :| LeafBelow(f, k, leaf);
  }

  /** A split that is still attached and lists a pod sits above no cycle and no missing reference. */
  lemma FinalNonEmptyIsClean(t: Topo, s: Key, k: Key)
    requires WellPlaced(t) && s in t.services && k in t.splits && k in Populated(t).services[s].trafficSplits
    requires Populated(t).splits[k].incoming != []
    ensures !CyclicBelow(Populated(t), k)
  {
    var f := Populated(t);
    KeptMembers(t, t.services[s].trafficSplits);
    assert Attached(t, k);
    NonEmptyIsClean(t, k);
    if CyclicBelow(f, k) {
      var c :| Reaches(f, k, c) && OnCycle(f, c);
      var m :| Edge(f, c, m) && Reaches(f, m, c);
      PopulatedReach(t, k, c);
      PopulatedReach(t, m, c);
      PopulatedEdge(t, c, m);
    }
  }

  /**
   When the pass finds a cycle: a split whose leaves all name some pod as a source, and below which no split is
   without backends, fails exactly when a cycle or a missing reference is reachable.
   */
  lemma DetectsExactly(t: Topo, k: Key, p: Key)
    requires WellPlaced(t) && k in t.splits && AuthorisedBelow(t, k, p)
    ensures Fails(t, k) <==> CyclicBelow(t, k) || !ResolvedBelow(t, k)
  {
    hide Incoming, AuthorisedBelow, CyclicBelow, ResolvedBelow;
    if Fails(t, k) {
      FailureIsReal(t, k);
    } else {
      IncomingIsExact(t, k, p);
      SuccessIsExact(t, k, p);
    }
  }

  /**
   The pass reports on a split exactly when it is attached and its computation fails, with the cause, which is a cycle
   or a missing reference below it. What was reported before stays.
   */
  lemma ReportedExactly(t: Topo, k: Key, e: WalkError)
    requires WellPlaced(t) && k in t.splits && NoIncoming(e) !in t.splits[k].errors
    ensures k in Populated(t).splits && t.splits[k].errors <= Populated(t).splits[k].errors
    ensures NoIncoming(e) in Populated(t).splits[k].errors <==>
            (exists s :: s in t.services && k in t.services[s].trafficSplits) && Incoming(t, k) == Failure(e)
    ensures NoIncoming(e) in Populated(t).splits[k].errors ==>
              if e.Circular? then CyclicBelow(t, k) else !ResolvedBelow(t, k)
  {
    hide CyclicBelow, ResolvedBelow, WellPlaced, Incoming;
    if Incoming(t, k).Failure? {
      FailureIsReal(t, k);
    }
  }

  /** So a cycle that stays was there before, and no pod is authorised by all leaves below it. */
  lemma NoCycleStays(t: Topo, k: Key)
    requires WellPlaced(t) && OnCycle(Populated(t), k)
    ensures OnCycle(t, k) && forall p :: !AuthorisedBelow(t, k, p)
  {
    var f := Populated(t);
    var m :| Edge(f, k, m) && Reaches(f, m, k);
    PopulatedEdge(t, k, m);
    PopulatedReach(t, m, k);
    ReachesSelf(t, k);
    assert OnCycle(t, k) && CyclicBelow(t, k);
    AttachedOnCycle(t, k);
    forall p
      ensures !AuthorisedBelow(t, k, p)
    {
      if AuthorisedBelow(t, k, p) {
        DetectsExactly(t, k, p);
      }
    }
  }

  lemma AttachedOnCycle(t: Topo, k: Key)
    requires OnCycle(Populated(t), k)
    ensures k in t.splits && !Fails(t, k)
  {
    hide Fails, Recorded;
    var f := Populated(t);
    var m :| Edge(f, k, m) && Reaches(f, m, k);
    var x := k;
    if m != k {
      x := LastEdge(f, m, k);
    }
    var s :| Backs(f, x, s) && s in f.services && k in f.services[s].trafficSplits;
    KeptMembers(t, t.services[s].trafficSplits);
  }

  /** A first backend that is a leaf without targets ends the computation: nobody is let through. */
  lemma EmptyLeafFirst(t: Topo, k: Key, leaf: Key)
    requires k in t.splits && t.splits[k].backends != [] && t.splits[k].backends[0].service == leaf
    requires IsLeaf(t, leaf) && t.services[leaf].trafficTargets == []
    ensures Incoming(t, k) == Success(Nil)
  {
    var own := {t.splits[k].OwnKey()};
    assert {} + own == own;
    assert ServiceWalk(t, leaf, own) == Success(Nil);
    assert BackendsWalk(t, t.splits[k].backends, own, Nil) == Success(Nil);
  }

  // ---- Removal by value, one occurrence at a time ----

  function RemoveFirst(ks: seq<Key>, k: Key): seq<Key> {
    if ks == [] then [] else if ks[0] == k then ks[1..] else [ks[0]] + RemoveFirst(ks[1..], k)
  }

  function RemoveEach(ks: seq<Key>, removed: seq<Key>): seq<Key>
    decreases |removed|
  {
    if removed == [] then ks else RemoveEach(RemoveFirst(ks, removed[0]), removed[1..])
  }

  lemma {:induction false} RemoveEachSkips(k: Key, ks: seq<Key>, removed: seq<Key>)
    requires k !in removed
    ensures RemoveEach([k] + ks, removed) == [k] + RemoveEach(ks, removed)
    decreases |removed|
  {
    if removed != [] {
      assert ([k] + ks)[1..] == ks;
      RemoveEachSkips(k, RemoveFirst(ks, removed[0]), removed[1..]);
    }
  }

  /** Removing the failed splits one by one leaves exactly the others, in their order. */
  lemma {:induction false} RemoveFailing(t: Topo, ks: seq<Key>)
    ensures RemoveEach(ks, Failing(t, ks)) == Kept(t, ks)
    ensures forall k :: k in Failing(t, ks) ==> Fails(t, k)
  {
    if ks != [] {
      RemoveFailing(t, ks[1..]);
      if Fails(t, ks[0]) {
        assert RemoveFirst(ks, ks[0]) == ks[1..];
      } else {
        assert ks == [ks[0]] + ks[1..];
        assert Failing(t, ks) == Failing(t, ks[1..]);
        RemoveEachSkips(ks[0], ks[1..], Failing(t, ks[1..]));
      }
    }
  }

  // ---- Recording does not disturb later walks ----

  /** The walk reads neither the recorded pods nor the errors. */
  ghost predicate SameShape(t: Topo, u: Topo) {
    && t.services == u.services && t.targets == u.targets && t.splits.Keys == u.splits.Keys
    && forall k ::
         k in t.splits ==> t.splits[k].OwnKey() == u.splits[k].OwnKey() && t.splits[k].backends == u.splits[k].backends
  }

  lemma {:induction false} SameSplitWalk(t: Topo, u: Topo, k: Key, visited: set<Key>)
    requires SameShape(t, u) && k in t.splits
    ensures SplitWalk(t, k, visited) == SplitWalk(u, k, visited)
    decreases Unvisited(t, visited), 0, 0
  {
    var own := t.splits[k].OwnKey();
    if own !in visited {
      UnvisitedShrinks(t, visited, {own});
      SameBackendsWalk(t, u, t.splits[k].backends, visited + {own}, Nil);
    }
  }

  lemma {:induction false} SameBackendsWalk(t: Topo, u: Topo, backends: seq<Backend>, visited: set<Key>,
          union: Slice<Key>)
    requires SameShape(t, u)
    ensures BackendsWalk(t, backends, visited, union) == BackendsWalk(u, backends, visited, union)
    decreases Unvisited(t, visited), 3, |backends|
  {
    if backends != [] {
      var s := backends[0].service;
      if s in t.services {
        if t.services[s].trafficSplits == [] {
          SameLeafPods(t, u, t.services[s].trafficTargets, Nil);
        } else {
          SameSplitsWalk(t, u, t.services[s].trafficSplits, visited, Nil);
        }
      }
      var w := ServiceWalk(t, s, visited);
      if w.Success? {
        SameBackendsWalk(t, u, backends[1..], visited, UnionPod(w.value, union));
      }
    }
  }

  lemma {:induction false} SameSplitsWalk(t: Topo, u: Topo, ks: seq<Key>, visited: set<Key>, union: Slice<Key>)
    requires SameShape(t, u)
    ensures SplitsWalk(t, ks, visited, union) == SplitsWalk(u, ks, visited, union)
    decreases Unvisited(t, visited), 1, |ks|
  {
    if ks != [] && ks[0] in t.splits {
      SameSplitWalk(t, u, ks[0], visited);
      var w := SplitWalk(t, ks[0], visited);
      if w.Success? {
        UnvisitedShrinks(t, visited, {t.splits[ks[0]].OwnKey()});
        SameSplitsWalk(t, u, ks[1..], visited + {t.splits[ks[0]].OwnKey()}, UnionPod(w.value, union));
      }
    }
  }

  lemma {:induction false} SameLeafPods(t: Topo, u: Topo, targets: seq<TargetKey>, pods: Slice<Key>)
    requires t.targets == u.targets
    ensures LeafPods(t, targets, pods) == LeafPods(u, targets, pods)
  {
    if targets != [] && targets[0] in t.targets {
      SameLeafPods(t, u, targets[1..], AppendSources(t.targets[targets[0]].sources, pods));
    }
  }
}
