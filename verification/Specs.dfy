/** What the references of traffic-targets and traffic-splits to route groups and TCP routes stand for. */
module Specs {
  import opened Basics
  import opened Topologies
  import opened Resources

  /** Match m is the first one of the group that has the name. */
  ghost predicate FirstNamed(group: seq<HTTPMatch>, name: string, m: HTTPMatch) {
    exists i ::
      0 <= i < |group| && group[i] == m && m.name == name && forall j :: 0 <= j < i ==> group[j].name != name
  }

  predicate HasName(group: seq<HTTPMatch>, name: string) {
    exists i :: 0 <= i < |group| && group[i].name == name
  }

  /** Reference r of an object in namespace ns stands for spec. */
  ghost predicate StandsFor(res: Snapshot, ns: string, r: SpecRef, spec: TrafficSpec) {
    match r.kind
    case HTTPRouteGroup =>
      && Key(r.name, ns) in res.routeGroups && spec.HTTPSpec?
      && if r.matches == [] then spec.matches == res.routeGroups[Key(r.name, ns)]
         else
           && |spec.matches| == |r.matches|
           && forall i :: 0 <= i < |r.matches| ==>
                FirstNamed(res.routeGroups[Key(r.name, ns)], r.matches[i], spec.matches[i])
    case TCPRoute => Key(r.name, ns) in res.tcpRoutes && spec == TCPSpec
    case OtherKind => false
  }

  /** Reference r of an object in namespace ns stands for nothing, because of e. */
  ghost predicate Dangles(res: Snapshot, ns: string, r: SpecRef, e: BuildError) {
    var key := Key(r.name, ns);
    match r.kind
    case HTTPRouteGroup =>
      if key !in res.routeGroups then e == NoSpec(key) else FirstMissing(res.routeGroups[key], r.matches, key, e)
    case TCPRoute => key !in res.tcpRoutes && e == NoSpec(key)
    case OtherKind => e == UnknownSpecKind
  }

  /** The error is about the first name that no match has. */
  ghost predicate FirstMissing(group: seq<HTTPMatch>, names: seq<string>, key: Key, e: BuildError) {
    exists i ::
      0 <= i < |names| && !HasName(group, names[i]) && e == NoMatch(names[i], key)
      && forall j :: 0 <= j < i ==> HasName(group, names[j])
  }

  // ---- Matches ----

  lemma {:induction false} MatchNamedExactly(group: seq<HTTPMatch>, name: string)
    ensures MatchNamed(group, name).None? <==> !HasName(group, name)
    ensures MatchNamed(group, name).Some? ==> FirstNamed(group, name, MatchNamed(group, name).value)
  {
    if group != [] {
      MatchNamedExactly(group[1..], name);
      assert forall i :: 0 < i < |group| ==> group[i] == group[1..][i - 1];
      if group[0].name != name {
        if MatchNamed(group[1..], name).Some? {
          var m := MatchNamed(group[1..], name).value;
          var i :| 0 <= i < |group[1..]| && group[1..][i] == m && m.name == name
              && forall j :: 0 <= j < i ==> group[1..][j].name != name;
          assert group[i + 1] == m && forall j :: 0 <= j < i + 1 ==> group[j].name != name;
        }
      } else {
        assert group[0].name == name;
      }
    }
  }

  lemma {:induction false} SelectedExactly(names: seq<string>, group: seq<HTTPMatch>, key: Key)
    ensures var r := SelectMatches(names, group, key);
            && (r.Success? ==>
                 |r.value| == |names| && forall i :: 0 <= i < |names| ==> FirstNamed(group, names[i], r.value[i]))
            && (r.Failure? ==> FirstMissing(group, names, key, r.error))
  {
    hide FirstNamed;
    if names != [] {
      MatchNamedExactly(group, names[0]);
      SelectedExactly(names[1..], group, key);
      assert forall i :: 0 < i < |names| ==> names[i] == names[1..][i - 1];
      var later := SelectMatches(names[1..], group, key);
      if MatchNamed(group, names[0]).Some? && later.Failure? {
        var i :| 0 <= i < |names[1..]| && !HasName(group, names[1..][i]) && later.error == NoMatch(names[1..][i], key)
            && forall j :: 0 <= j < i ==> HasName(group, names[1..][j]);
        assert !HasName(group, names[i + 1]) && forall j :: 0 <= j < i + 1 ==> HasName(group, names[j]);
      }
    }
  }

  /** What one reference stands for, or why it stands for nothing. */
  lemma SpecExactly(res: Snapshot, ns: string, r: SpecRef)
    ensures SpecOf(res, ns, r).Success? ==> StandsFor(res, ns, r, SpecOf(res, ns, r).value)
    ensures SpecOf(res, ns, r).Failure? ==> Dangles(res, ns, r, SpecOf(res, ns, r).error)
  {
    hide FirstNamed, FirstMissing;
    if r.kind == HTTPRouteGroup && Key(r.name, ns) in res.routeGroups {
      SelectedExactly(r.matches, res.routeGroups[Key(r.name, ns)], Key(r.name, ns));
    }
  }

  /** It never does both, and stands for one spec only. */
  lemma StandsForOne(res: Snapshot, ns: string, r: SpecRef, a: TrafficSpec, b: TrafficSpec, e: BuildError)
    ensures StandsFor(res, ns, r, a) && StandsFor(res, ns, r, b) ==> a == b
    ensures !(StandsFor(res, ns, r, a) && Dangles(res, ns, r, e))
  {
    if r.kind == HTTPRouteGroup && Key(r.name, ns) in res.routeGroups && r.matches != [] {
      var group := res.routeGroups[Key(r.name, ns)];
      if StandsFor(res, ns, r, a) {
        forall i | 0 <= i < |r.matches|
          ensures HasName(group, r.matches[i])
        {
          assert FirstNamed(group, r.matches[i], a.matches[i]);
        }
        if StandsFor(res, ns, r, b) {
          forall i | 0 <= i < |r.matches|
            ensures a.matches[i] == b.matches[i]
          {
            OneFirst(group, r.matches[i], a.matches[i], b.matches[i]);
          }
          assert a.matches == b.matches;
        }
      }
    }
  }

  lemma OneFirst(group: seq<HTTPMatch>, name: string, a: HTTPMatch, b: HTTPMatch)
    requires FirstNamed(group, name, a) && FirstNamed(group, name, b)
    ensures a == b
  {
    var i :| 0 <= i < |group| && group[i] == a && a.name == name && forall j :: 0 <= j < i ==> group[j].name != name;
    var k :| 0 <= k < |group| && group[k] == b && b.name == name && forall j :: 0 <= j < k ==> group[j].name != name;
  }

  // ---- Lists of references ----

  /** The references stand for the specs, one by one. */
  ghost predicate AllStandFor(res: Snapshot, ns: string, refs: seq<SpecRef>, specs: seq<TrafficSpec>) {
    |specs| == |refs| && forall i :: 0 <= i < |refs| ==> StandsFor(res, ns, refs[i], specs[i])
  }

  ghost predicate Resolves(res: Snapshot, ns: string, r: SpecRef) {
    exists spec :: StandsFor(res, ns, r, spec)
  }

  ghost predicate DanglesAt(res: Snapshot, ns: string, refs: seq<SpecRef>, e: BuildError, i: nat) {
    && i < |refs| && Dangles(res, ns, refs[i], e)
    && forall j :: 0 <= j < i ==> Resolves(res, ns, refs[j])
  }

  /** The error is that of the first reference that stands for nothing. */
  ghost predicate FirstDangles(res: Snapshot, ns: string, refs: seq<SpecRef>, e: BuildError) {
    exists i: nat :: DanglesAt(res, ns, refs, e, i)
  }

  /** Building the specs of a list of references gives what they stand for, or the first error. */
  lemma {:induction false} SpecsExactly(res: Snapshot, ns: string, refs: seq<SpecRef>)
    ensures SpecsOf(res, ns, refs).Success? ==> AllStandFor(res, ns, refs, SpecsOf(res, ns, refs).value)
    ensures SpecsOf(res, ns, refs).Failure? ==> FirstDangles(res, ns, refs, SpecsOf(res, ns, refs).error)
  {
    hide StandsFor, Dangles, SpecOf;
    if refs != [] {
      SpecExactly(res, ns, refs[0]);
      SpecsExactly(res, ns, refs[1..]);
      assert forall i :: 0 < i < |refs| ==> refs[i] == refs[1..][i - 1];
      var first, later := SpecOf(res, ns, refs[0]), SpecsOf(res, ns, refs[1..]);
      if first.Failure? {
        assert DanglesAt(res, ns, refs, first.error, 0);
      } else if later.Failure? {
        var i: nat :| DanglesAt(res, ns, refs[1..], later.error, i);
        assert Resolves(res, ns, refs[0]);
        assert DanglesAt(res, ns, refs, later.error, i + 1);
      }
    }
  }
}
