/** What the walk of SplitWalks computes, in terms of SplitGraph only. */
module SplitTheorems {
  import opened Basics
  import opened Topologies
  import opened SplitGraph
  import opened SplitWalks

  /** The walk started for split k by the final pass. */
  ghost function Incoming(t: Topo, k: Key): Walk
    requires k in t.splits
  {
    SplitWalk(t, k, {})
  }

  // ---- A non-empty result means that nothing was skipped ----

  /** A successful non-empty result has gone through every backend. */
  lemma {:induction false} BackendsAllWalked(t: Topo, backends: seq<Backend>, visited: set<Key>, union: Slice<Key>,
          i: nat)
    requires BackendsWalk(t, backends, visited, union).Success?
    requires BackendsWalk(t, backends, visited, union).value.Elems() != []
    requires i < |backends|
    ensures ServiceWalk(t, backends[i].service, visited).Success?
    ensures Includes(ServiceWalk(t, backends[i].service, visited), BackendsWalk(t, backends, visited, union))
    decreases |backends|
  {
    var pods := ServiceWalk(t, backends[0].service, visited).value;
    var u := UnionPod(pods, union);
    UnionPodMembers(pods, union);
    if i > 0 {
      BackendsAllWalked(t, backends[1..], visited, u, i - 1);
    } else {
      BackendsKeepUnion(t, backends[1..], visited, u);
    }
  }

  /** The pods of walk b are among those of walk a. */
  ghost predicate Includes(a: Walk, b: Walk) {
    && a.Success? && b.Success?
    && (b.value.Elems() != [] ==> a.value.Elems() != [])
    && forall p :: p in b.value.Elems() ==> p in a.value.Elems()
  }

  lemma {:induction false} BackendsKeepUnion(t: Topo, backends: seq<Backend>, visited: set<Key>, union: Slice<Key>)
    requires BackendsWalk(t, backends, visited, union).Success? && union.Elems() != []
    ensures Includes(Success(union), BackendsWalk(t, backends, visited, union))
    decreases |backends|
  {
    if backends != [] {
      var u := UnionPod(ServiceWalk(t, backends[0].service, visited).value, union);
      UnionPodMembers(ServiceWalk(t, backends[0].service, visited).value, union);
      if u.Elems() != [] {
        BackendsKeepUnion(t, backends[1..], visited, u);
      }
    }
  }

  lemma {:induction false} SplitsKeepUnion(t: Topo, ks: seq<Key>, visited: set<Key>, union: Slice<Key>)
    requires SplitsWalk(t, ks, visited, union).Success? && union.Elems() != []
    ensures Includes(Success(union), SplitsWalk(t, ks, visited, union))
    decreases |ks|
  {
    if ks != [] {
      var u := UnionPod(SplitWalk(t, ks[0], visited).value, union);
      UnionPodMembers(SplitWalk(t, ks[0], visited).value, union);
      if u.Elems() != [] {
        SplitsKeepUnion(t, ks[1..], visited + {t.splits[ks[0]].OwnKey()}, u);
      }
    }
  }

  /** The same for the splits of one service; the set they were walked with has only grown. */
  lemma {:induction false} SplitsAllWalked(t: Topo, ks: seq<Key>, visited: set<Key>, union: Slice<Key>, i: nat)
    returns (seen: set<Key>)
    requires SplitsWalk(t, ks, visited, union).Success?
    requires SplitsWalk(t, ks, visited, union).value.Elems() != []
    requires i < |ks|
    ensures visited <= seen && ks[i] in t.splits
    ensures Includes(SplitWalk(t, ks[i], seen), SplitsWalk(t, ks, visited, union))
    decreases |ks|
  {
    var pods := SplitWalk(t, ks[0], visited).value;
    var u := UnionPod(pods, union);
    UnionPodMembers(pods, union);
    if i > 0 {
      seen := SplitsAllWalked(t, ks[1..], visited + {t.splits[ks[0]].OwnKey()}, u, i - 1);
    } else {
      seen := visited;
      SplitsKeepUnion(t, ks[1..], visited + {t.splits[ks[0]].OwnKey()}, u);
    }
  }

  ghost predicate NonEmpty(w: Walk) {
    w.Success? && w.value.Elems() != []
  }

  /** Below a non-empty split, every successor has been walked, with the split marked. */
  lemma NonEmptyStep(t: Topo, k: Key, visited: set<Key>, m: Key) returns (seen: set<Key>)
    requires k in t.splits && NonEmpty(SplitWalk(t, k, visited)) && Edge(t, k, m)
    ensures m in t.splits && t.splits[k].OwnKey() !in visited && visited + {t.splits[k].OwnKey()} <= seen
    ensures Includes(SplitWalk(t, m, seen), SplitWalk(t, k, visited))
  {
    var s :| Backs(t, k, s) && s in t.services && m in t.services[s].trafficSplits;
    var i :| 0 <= i < |t.splits[k].backends| && t.splits[k].backends[i].service == s;
    var v := visited + {t.splits[k].OwnKey()};
    BackendsAllWalked(t, t.splits[k].backends, v, Nil, i);
    var ks := t.services[s].trafficSplits;
    var j :| 0 <= j < |ks| && ks[j] == m;
    seen := SplitsAllWalked(t, ks, v, Nil, j);
  }

  /** A non-empty split refers to existing things only, and its leaves name every listed pod. */
  lemma NonEmptyHere(t: Topo, k: Key, visited: set<Key>)
    requires k in t.splits && NonEmpty(SplitWalk(t, k, visited))
    ensures Resolved(t, k)
    ensures forall p :: p in SplitWalk(t, k, visited).value.Elems() ==> Authorises(t, k, p)
  {
    var v := visited + {t.splits[k].OwnKey()};
    forall s | Backs(t, k, s)
      ensures ServiceResolved(t, s)
      ensures IsLeaf(t, s) ==> forall p :: p in SplitWalk(t, k, visited).value.Elems() ==> Names(t, s, p)
    {
      var i :| 0 <= i < |t.splits[k].backends| && t.splits[k].backends[i].service == s;
      BackendsAllWalked(t, t.splits[k].backends, v, Nil, i);
      if IsLeaf(t, s) {
        LeafWalk(t, s, v);
      } else {
        var ks := t.services[s].trafficSplits;
        forall m | m in ks
          ensures m in t.splits
        {
          var j :| 0 <= j < |ks| && ks[j] == m;
          var _ := SplitsAllWalked(t, ks, v, Nil, j);
        }
      }
    }
  }

  /** Along any path from a non-empty split: non-empty splits all the way, none of them seen before. */
  lemma {:induction false} NonEmptyPath(t: Topo, path: seq<Key>, visited: set<Key>) returns (seen: set<Key>)
    requires WellKeyed(t) && IsPath(t, path) && path[0] in t.splits && NonEmpty(SplitWalk(t, path[0], visited))
    ensures forall i :: 0 <= i < |path| ==> path[i] in t.splits && path[i] !in visited
    ensures Distinct(path)
    ensures Includes(SplitWalk(t, path[|path| - 1], seen), SplitWalk(t, path[0], visited))
    decreases |path|
  {
    if |path| == 1 {
      seen := visited;
    } else {
      assert Edge(t, path[0], path[0 + 1]);
      var next := NonEmptyStep(t, path[0], visited, path[1]);
      assert IsPath(t, path[1..]);
      seen := NonEmptyPath(t, path[1..], next);
      assert path == [path[0]] + path[1..];
    }
  }

  /**
   On any topology, cyclic or not: if the computation succeeds with a non-empty list, no cycle can be
   reached, every reference below resolves, and every listed pod is authorised all the way down.
   */
  lemma NonEmptyIsClean(t: Topo, k: Key)
    requires WellKeyed(t) && k in t.splits && NonEmpty(Incoming(t, k))
    ensures !CyclicBelow(t, k)
    ensures ResolvedBelow(t, k)
    ensures forall p :: p in Incoming(t, k).value.Elems() ==> AuthorisedBelow(t, k, p)
  {
    forall m | Reaches(t, k, m)
      ensures Resolved(t, m)
      ensures forall p :: p in Incoming(t, k).value.Elems() ==> Authorises(t, m, p)
    {
      var path :| IsPath(t, path) && path[0] == k && path[|path| - 1] == m;
      var seen := NonEmptyPath(t, path, {});
      NonEmptyHere(t, m, seen);
    }
    NonEmptyIsAcyclic(t, k);
  }

  lemma NonEmptyIsAcyclic(t: Topo, k: Key)
    requires WellKeyed(t) && k in t.splits && NonEmpty(Incoming(t, k))
    ensures !CyclicBelow(t, k)
  {
    hide SplitWalk, Edge, WellKeyed;
    if CyclicBelow(t, k) {
      var c :| Reaches(t, k, c) && OnCycle(t, c);
      var path :| IsPath(t, path) && path[0] == k && path[|path| - 1] == c;
      var m :| Edge(t, c, m) && Reaches(t, m, c);
      var loop :| IsPath(t, loop) && loop[0] == m && loop[|loop| - 1] == c;
      var whole := path + loop;
      forall i | 0 <= i < |whole| - 1
        ensures Edge(t, whole[i], whole[i + 1])
      {
        if i >= |path| {
          assert Edge(t, loop[i - |path|], loop[i - |path| + 1]);
        }
      }
      assert whole[|path| - 1] == c == whole[|whole| - 1];
      var _ := NonEmptyPath(t, whole, {});
    }
  }

  // ---- A failure has a real cause ----

  function Elements(ks: seq<Key>): set<Key> {
    set k | k in ks
  }

  /** A split already visited can be reached from k by at least one edge. */
  ghost predicate Returns(t: Topo, k: Key, visited: set<Key>) {
    exists m, c :: Edge(t, k, m) && Reaches(t, m, c) && c in visited
  }

  /** What justifies a circular-reference error or a missing-reference error below k. */
  ghost predicate Justified(t: Topo, k: Key, visited: set<Key>, e: WalkError) {
    if e.Circular? then CyclicBelow(t, k) || Returns(t, k, visited)
    else exists m :: Reaches(t, k, m) && !Resolved(t, m)
  }

  lemma {:induction false} SplitFails(t: Topo, k: Key, visited: set<Key>)
    requires WellPlaced(t) && k in t.splits && SplitWalk(t, k, visited).Failure?
    ensures (k in visited && SplitWalk(t, k, visited).error.Circular?)
            || Justified(t, k, visited, SplitWalk(t, k, visited).error)
    decreases Unvisited(t, visited), 0, 0
  {
    if k !in visited {
      UnvisitedShrinks(t, visited, {k});
      forall b | b in t.splits[k].backends
        ensures Backs(t, k, b.service)
      {
      }
      BackendsFail(t, k, t.splits[k].backends, visited + {k}, Nil);
      var e := SplitWalk(t, k, visited).error;
      if e.Circular? && !CyclicBelow(t, k) {
        var m, c :| Edge(t, k, m) && Reaches(t, m, c) && c in visited + {k};
        ReachesSelf(t, k);
        assert c != k;
      }
    }
  }

  lemma {:induction false} BackendsFail(t: Topo, k: Key, backends: seq<Backend>, visited: set<Key>, union: Slice<Key>)
    requires WellPlaced(t) && k in t.splits && forall b :: b in backends ==> Backs(t, k, b.service)
    requires BackendsWalk(t, backends, visited, union).Failure?
    ensures Justified(t, k, visited, BackendsWalk(t, backends, visited, union).error)
    decreases Unvisited(t, visited), 3, |backends|
  {
    match ServiceWalk(t, backends[0].service, visited)
    case Failure(e) =>
      ServiceFails(t, k, backends[0].service, visited);
    case Success(pods) =>
      BackendsFail(t, k, backends[1..], visited, UnionPod(pods, union));
  }

  lemma {:induction false} ServiceFails(t: Topo, k: Key, s: Key, visited: set<Key>)
    requires WellPlaced(t) && k in t.splits && Backs(t, k, s) && ServiceWalk(t, s, visited).Failure?
    ensures Justified(t, k, visited, ServiceWalk(t, s, visited).error)
    decreases Unvisited(t, visited), 2, 0
  {
    ReachesSelf(t, k);
    if s in t.services {
      if IsLeaf(t, s) {
        LeafWalk(t, s, visited);
      } else {
        assert Elements(t.services[s].trafficSplits[..0]) == {};
        assert t.services[s].trafficSplits[0..] == t.services[s].trafficSplits;
        SplitsFail(t, k, s, 0, visited, visited, Nil);
      }
    }
  }

  /** Splits from index i on: those before it on the same service are marked in addition to visited. */
  lemma {:induction false} SplitsFail(t: Topo, k: Key, s: Key, i: nat, visited: set<Key>, marked: set<Key>,
          union: Slice<Key>)
    requires WellPlaced(t) && k in t.splits && Backs(t, k, s) && s in t.services && i <= |t.services[s].trafficSplits|
    requires marked == visited + Elements(t.services[s].trafficSplits[..i])
    requires forall c :: c in t.services[s].trafficSplits[..i] ==> c in t.splits
    requires SplitsWalk(t, t.services[s].trafficSplits[i..], marked, union).Failure?
    ensures Justified(t, k, visited, SplitsWalk(t, t.services[s].trafficSplits[i..], marked, union).error)
    decreases Unvisited(t, marked), 1, |t.services[s].trafficSplits| - i
  {
    hide Justified, Edge, Resolved, Backs, CyclicBelow, WellPlaced, Elements;
    var ks := t.services[s].trafficSplits;
    var m := ks[i];
    if m in t.splits {
      match SplitWalk(t, m, marked)
      case Failure(e) =>
        SplitFails(t, m, marked);
        SplitFailsHere(t, k, s, i, visited, marked, e);
      case Success(pods) =>
        OwnKeyIs(t, m);
        UnvisitedShrinks(t, marked, {m});
        OneMoreMarked(ks, i, visited, marked);
        SplitsFail(t, k, s, i + 1, visited, marked + {m}, UnionPod(pods, union));
    } else {
      MissingSplit(t, k, s, m, visited);
    }
  }

  /** Marking split i as well. */
  lemma OneMoreMarked(ks: seq<Key>, i: nat, visited: set<Key>, marked: set<Key>)
    requires i < |ks| && marked == visited + Elements(ks[..i])
    ensures marked + {ks[i]} == visited + Elements(ks[..i + 1])
    ensures ks[i..][0] == ks[i] && ks[i..][1..] == ks[i + 1..]
    ensures forall c :: c in ks[..i + 1] ==> c in ks[..i] || c == ks[i]
  {
    assert ks[..i + 1] == ks[..i] + [ks[i]];
  }

  lemma OwnKeyIs(t: Topo, k: Key)
    requires WellPlaced(t) && k in t.splits
    ensures t.splits[k].OwnKey() == k
  {
  }

  lemma MissingSplit(t: Topo, k: Key, s: Key, m: Key, visited: set<Key>)
    requires k in t.splits && Backs(t, k, s) && s in t.services && m in t.services[s].trafficSplits && m !in t.splits
    ensures Justified(t, k, visited, NoSplit(m))
  {
    ReachesSelf(t, k);
  }

  /** The failure of split i of service s, seen from a split k that has s as a backend. */
  lemma SplitFailsHere(t: Topo, k: Key, s: Key, i: nat, visited: set<Key>, marked: set<Key>, e: WalkError)
    requires WellPlaced(t) && k in t.splits && Backs(t, k, s) && s in t.services && i < |t.services[s].trafficSplits|
    requires marked == visited + Elements(t.services[s].trafficSplits[..i])
    requires forall c :: c in t.services[s].trafficSplits[..i] ==> c in t.splits
    requires var m := t.services[s].trafficSplits[i];
             m in t.splits && ((m in marked && e.Circular?) || Justified(t, m, marked, e))
    ensures Justified(t, k, visited, e)
  {
    var ks := t.services[s].trafficSplits;
    var m := ks[i];
    assert Edge(t, k, m);
    ReachesSelf(t, m);
    if !e.Circular? {
      var bad :| Reaches(t, m, bad) && !Resolved(t, bad);
      ReachesVia(t, k, m, bad);
    } else if CyclicBelow(t, m) {
      CycleBelowVia(t, k, m);
    } else {
      var c: Key;
      if m in marked {
        c := m;
      } else {
        var m', c' :| Edge(t, m, m') && Reaches(t, m', c') && c' in marked;
        ReachesVia(t, m, m', c');
        c := c';
      }
      if c !in visited {
        var j :| 0 <= j < i && c == ks[..i][j];
        assert c != m;
        SiblingReached(t, s, i, j);
        CycleBelowVia(t, k, m);
      }
    }
  }

  /** Whatever reaches one split of a service also reaches its siblings: reaching a sibling is a cycle. */
  lemma SiblingReached(t: Topo, s: Key, i: nat, j: nat)
    requires WellPlaced(t) && s in t.services && j < i < |t.services[s].trafficSplits|
    requires t.services[s].trafficSplits[i] in t.splits && t.services[s].trafficSplits[j] in t.splits
    requires Reaches(t, t.services[s].trafficSplits[i], t.services[s].trafficSplits[j])
    ensures CyclicBelow(t, t.services[s].trafficSplits[i])
  {
    var a, b := t.services[s].trafficSplits[i], t.services[s].trafficSplits[j];
    var x := LastEdge(t, a, b);
    var s' :| Backs(t, x, s') && s' in t.services && b in t.services[s'].trafficSplits;
    assert s' == t.splits[b].service == s;
    assert Edge(t, x, a) && Reaches(t, a, x);
    assert OnCycle(t, x);
  }

  /**
   A circular-reference error means that a cycle can really be reached, although the splits of one service
   share the set of visited splits; any other error means that a reference below does not resolve.
   */
  lemma FailureIsReal(t: Topo, k: Key)
    requires WellPlaced(t) && k in t.splits && Incoming(t, k).Failure?
    ensures Incoming(t, k).error.Circular? ==> CyclicBelow(t, k)
    ensures !Incoming(t, k).error.Circular? ==> !ResolvedBelow(t, k)
  {
    SplitFails(t, k, {});
  }

  // ---- Exactness ----

  /**
   f is t with some splits taken off their services, in a way that a walk of t that succeeds does not notice:
   a split whose own walk succeeds is still there, and leaves are still leaves.
   */
  ghost predicate KeepsSuccessful(t: Topo, f: Topo) {
    && f.services.Keys == t.services.Keys
    && f.splits.Keys == t.splits.Keys
    && f.targets == t.targets
    && (forall k :: k in t.splits ==> f.splits[k].backends == t.splits[k].backends)
    && (forall s :: s in t.services ==>
          && f.services[s].trafficTargets == t.services[s].trafficTargets
          && (IsLeaf(t, s) ==> IsLeaf(f, s))
          && forall k ::
               k in t.services[s].trafficSplits && k in t.splits && Incoming(t, k).Success? ==>
                 k in f.services[s].trafficSplits)
  }

  lemma {:induction false} SplitMonotonic(t: Topo, k: Key, visited: set<Key>, fewer: set<Key>)
    requires k in t.splits && fewer <= visited && SplitWalk(t, k, visited).Success?
    ensures SplitWalk(t, k, fewer) == SplitWalk(t, k, visited)
    decreases Unvisited(t, visited), 0, 0
  {
    var own := t.splits[k].OwnKey();
    UnvisitedShrinks(t, visited, {own});
    BackendsMonotonic(t, t.splits[k].backends, visited + {own}, fewer + {own}, Nil);
  }

  lemma {:induction false} BackendsMonotonic(t: Topo, backends: seq<Backend>, visited: set<Key>, fewer: set<Key>,
          union: Slice<Key>)
    requires fewer <= visited && BackendsWalk(t, backends, visited, union).Success?
    ensures BackendsWalk(t, backends, fewer, union) == BackendsWalk(t, backends, visited, union)
    decreases Unvisited(t, visited), 3, |backends|
  {
    if backends != [] {
      var s := backends[0].service;
      if !IsLeaf(t, s) {
        SplitsMonotonic(t, t.services[s].trafficSplits, visited, fewer, Nil);
      }
      var u := UnionPod(ServiceWalk(t, s, visited).value, union);
      if u.Elems() != [] {
        BackendsMonotonic(t, backends[1..], visited, fewer, u);
      }
    }
  }

  lemma {:induction false} SplitsMonotonic(t: Topo, ks: seq<Key>, visited: set<Key>, fewer: set<Key>, union: Slice<Key>)
    requires fewer <= visited && SplitsWalk(t, ks, visited, union).Success?
    ensures SplitsWalk(t, ks, fewer, union) == SplitsWalk(t, ks, visited, union)
    decreases Unvisited(t, visited), 1, |ks|
  {
    if ks != [] {
      SplitMonotonic(t, ks[0], visited, fewer);
      var own := t.splits[ks[0]].OwnKey();
      UnvisitedShrinks(t, visited, {own});
      var u := UnionPod(SplitWalk(t, ks[0], visited).value, union);
      if u.Elems() != [] {
        SplitsMonotonic(t, ks[1..], visited + {own}, fewer + {own}, u);
      }
    }
  }

  /** A pod authorised all the way down, in f, is listed by a walk of t that succeeds, early exits or not. */
  lemma {:induction false} AuthorisedIsListed(t: Topo, f: Topo, k: Key, visited: set<Key>, p: Key)
    requires KeepsSuccessful(t, f) && k in t.splits && SplitWalk(t, k, visited).Success? && AuthorisedBelow(f, k, p)
    ensures p in SplitWalk(t, k, visited).value.Elems()
    decreases Unvisited(t, visited), 0, 0
  {
    ReachesSelf(f, k);
    assert Authorises(f, k, p);
    var own := t.splits[k].OwnKey();
    UnvisitedShrinks(t, visited, {own});
    forall b | b in t.splits[k].backends
      ensures Backs(f, k, b.service)
    {
      var i :| 0 <= i < |t.splits[k].backends| && t.splits[k].backends[i] == b;
      assert f.splits[k].backends[i] == b;
    }
    BackendsList(t, f, k, t.splits[k].backends, visited + {own}, Nil, p);
  }

  lemma {:induction false} BackendsList(t: Topo, f: Topo, k: Key, backends: seq<Backend>, visited: set<Key>,
          union: Slice<Key>, p: Key)
    requires KeepsSuccessful(t, f) && k in f.splits && AuthorisedBelow(f, k, p) && Authorises(f, k, p)
    requires forall b :: b in backends ==> Backs(f, k, b.service)
    requires p in union.Elems() || (union.Nil? && backends != [])
    requires BackendsWalk(t, backends, visited, union).Success?
    ensures p in BackendsWalk(t, backends, visited, union).value.Elems()
    decreases Unvisited(t, visited), 3, |backends|
  {
    if backends != [] {
      var s := backends[0].service;
      assert Backs(f, k, s);
      if IsLeaf(t, s) {
        LeafWalk(t, s, visited);
        assert Names(f, s, p);
        assert forall tk :: TargetNames(f, tk, p) ==> TargetNames(t, tk, p);
        assert Names(t, s, p);
      } else {
        SplitsList(t, f, k, s, t.services[s].trafficSplits, visited, Nil, p);
      }
      var pods := ServiceWalk(t, s, visited).value;
      UnionPodMembers(pods, union);
      BackendsList(t, f, k, backends[1..], visited, UnionPod(pods, union), p);
    }
  }

  lemma {:induction false} SplitsList(t: Topo, f: Topo, k: Key, s: Key, ks: seq<Key>, visited: set<Key>,
          union: Slice<Key>, p: Key)
    requires KeepsSuccessful(t, f) && k in f.splits && AuthorisedBelow(f, k, p) && Backs(f, k, s)
    requires s in t.services && forall m :: m in ks ==> m in t.services[s].trafficSplits
    requires p in union.Elems() || (union.Nil? && ks != [])
    requires SplitsWalk(t, ks, visited, union).Success?
    ensures p in SplitsWalk(t, ks, visited, union).value.Elems()
    decreases Unvisited(t, visited), 1, |ks|
  {
    if ks != [] {
      var m := ks[0];
      SplitMonotonic(t, m, visited, {});
      assert m in f.services[s].trafficSplits;
      assert Edge(f, k, m);
      BelowStep(f, k, m);
      AuthorisedIsListed(t, f, m, visited, p);
      var pods := SplitWalk(t, m, visited).value;
      UnionPodMembers(pods, union);
      UnvisitedShrinks(t, visited, {t.splits[m].OwnKey()});
      SplitsList(t, f, k, s, ks[1..], visited + {t.splits[m].OwnKey()}, UnionPod(pods, union), p);
    }
  }

  /** Whenever the computation succeeds, it lists exactly the pods authorised all the way down. */
  lemma SuccessIsExact(t: Topo, k: Key, p: Key)
    requires WellKeyed(t) && k in t.splits && Incoming(t, k).Success?
    ensures p in Incoming(t, k).value.Elems() <==> AuthorisedBelow(t, k, p)
  {
    if p in Incoming(t, k).value.Elems() {
      NonEmptyIsClean(t, k);
    }
    if AuthorisedBelow(t, k, p) {
      AuthorisedIsListed(t, t, k, {}, p);
    }
  }

  /**
   The main result. A pod is let through split k exactly when the graph below k is acyclic and resolved, no
   split below is without backends, and every leaf service below names the pod as a source. The nil
   convention, the early exits and the order of backends and splits have no part in it.
   */
  lemma IncomingIsExact(t: Topo, k: Key, p: Key)
    requires WellPlaced(t) && k in t.splits
    ensures (Incoming(t, k).Success? && p in Incoming(t, k).value.Elems())
            <==> (!CyclicBelow(t, k) && ResolvedBelow(t, k) && AuthorisedBelow(t, k, p))
  {
    if Incoming(t, k).Success? {
      SuccessIsExact(t, k, p);
      if p in Incoming(t, k).value.Elems() {
        NonEmptyIsClean(t, k);
      }
    } else {
      FailureIsReal(t, k);
    }
  }

  // ---- Order ----

  /** The same graph, up to the order in which backends, splits and targets are listed. */
  ghost predicate SameUpToOrder(t: Topo, u: Topo) {
    && t.services.Keys == u.services.Keys && t.splits.Keys == u.splits.Keys && t.targets == u.targets
    && (forall k, s :: k in t.splits ==> (Backs(t, k, s) <==> Backs(u, k, s)))
    && (forall k :: k in t.splits ==> (t.splits[k].backends == [] <==> u.splits[k].backends == []))
    && (forall s, k :: s in t.services ==> (k in t.services[s].trafficSplits <==> k in u.services[s].trafficSplits))
    && (forall s, tk ::
         s in t.services ==> (tk in t.services[s].trafficTargets <==> tk in u.services[s].trafficTargets))
  }

  lemma SameReach(t: Topo, u: Topo, a: Key, b: Key)
    requires SameUpToOrder(t, u) && Reaches(t, a, b)
    ensures Reaches(u, a, b)
  {
    var path :| IsPath(t, path) && path[0] == a && path[|path| - 1] == b;
    forall i | 0 <= i < |path| - 1
      ensures Edge(u, path[i], path[i + 1])
    {
      SameEdge(t, u, path[i], path[i + 1]);
    }
    assert IsPath(u, path);
  }

  lemma SameEdge(t: Topo, u: Topo, a: Key, b: Key)
    requires SameUpToOrder(t, u) && Edge(t, a, b)
    ensures Edge(u, a, b)
  {
    var s :| Backs(t, a, s) && s in t.services && b in t.services[s].trafficSplits;
    assert Backs(u, a, s);
  }

  lemma SameLeaf(t: Topo, u: Topo, s: Key)
    requires SameUpToOrder(t, u) && IsLeaf(t, s)
    ensures IsLeaf(u, s)
  {
    EmptyOrInhabited(u.services[s].trafficSplits);
  }

  lemma SameAuthorised(t: Topo, u: Topo, k: Key, p: Key)
    requires SameUpToOrder(t, u) && SameUpToOrder(u, t) && AuthorisedBelow(t, k, p)
    ensures AuthorisedBelow(u, k, p)
  {
    forall m | Reaches(u, k, m)
      ensures Authorises(u, m, p)
    {
      SameReach(u, t, k, m);
      assert Authorises(t, m, p);
      forall s | Backs(u, m, s) && IsLeaf(u, s)
        ensures Names(u, s, p)
      {
        SameLeaf(u, t, s);
        assert Backs(t, m, s) && Names(t, s, p);
        var tk :| tk in t.services[s].trafficTargets && TargetNames(t, tk, p);
        assert tk in u.services[s].trafficTargets && TargetNames(u, tk, p);
      }
    }
  }

  /** Listing backends, splits or targets in another order never changes the set of pods let through. */
  lemma OrderDoesNotMatter(t: Topo, u: Topo, k: Key, p: Key)
    requires WellKeyed(t) && WellKeyed(u) && k in t.splits
    requires SameUpToOrder(t, u) && SameUpToOrder(u, t)
    requires Incoming(t, k).Success? && Incoming(u, k).Success?
    ensures p in Incoming(t, k).value.Elems() <==> p in Incoming(u, k).value.Elems()
  {
    SuccessIsExact(t, k, p);
    SuccessIsExact(u, k, p);
    if AuthorisedBelow(t, k, p) {
      SameAuthorised(t, u, k, p);
    }
    if AuthorisedBelow(u, k, p) {
      SameAuthorised(u, t, k, p);
    }
  }
}
