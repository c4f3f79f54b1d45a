/** Which write to a key comes last, and so ends up in the configuration. */
module LastWrites {
  import opened Basics
  import opened Topologies
  import opened Rules
  import opened RulePriority
  import opened ConfigWrites
  import opened ConfigTheorems
  import opened ConfigResult

  // ---- The last write ----

  function Last(ws: seq<Write>, k: ConfKey): Option<ConfValue> {
    if ws == [] then None
    else
      match Last(ws[1..], k)
      case Some(v) => Some(v)
      case None => if ws[0].key == k then Some(ws[0].value) else None
  }

  function OrElse(a: Option<ConfValue>, b: Option<ConfValue>): Option<ConfValue> {
    if a.Some? then a else b
  }

  lemma {:induction false} LastConcat(a: seq<Write>, b: seq<Write>, k: ConfKey)
    ensures Last(a + b, k) == OrElse(Last(b, k), Last(a, k))
  {
    if a == [] {
      assert a + b == b;
    } else {
      assert (a + b)[1..] == a[1..] + b;
      LastConcat(a[1..], b, k);
    }
  }

  lemma {:induction false} NotWritten(ws: seq<Write>, k: ConfKey)
    requires forall w :: w in ws ==> w.key != k
    ensures Last(ws, k) == None
  {
    if ws != [] {
      assert ws[0] in ws;
      NotWritten(ws[1..], k);
    }
  }

  lemma LastOne(w: Write, k: ConfKey)
    ensures Last([w], k) == if w.key == k then Some(w.value) else None
  {
    assert [w][1..] == [];
  }

  lemma LastTwo(w: Write, w': Write, k: ConfKey)
    ensures Last([w, w'], k) == if w'.key == k then Some(w'.value) else if w.key == k then Some(w.value) else None
  {
    assert [w, w'][1..] == [w'];
    LastOne(w', k);
  }

  lemma {:induction false} LastIsPut(conf: Conf, ws: seq<Write>, k: ConfKey)
    ensures Entry(PutAll(conf, ws), k) == OrElse(Last(ws, k), Entry(conf, k))
    decreases |ws|
  {
    if ws != [] {
      LastIsPut(conf[ws[0].key := ws[0].value], ws[1..], k);
    }
  }

  /** An entry of the configuration that is made for a service is the last write for that service to its key. */
  lemma ConfLast(env: Env, t: Topo, conf: Conf, k: ConfKey)
    requires ConfigOf(env, t, conf) && OwnerOf(k).Some?
    ensures Entry(conf, k) ==
            if OwnerOf(k).value !in t.services then None
            else Last(ServiceWrites(env, t, t.services[OwnerOf(k).value]), k)
  {
    hide ServiceWrites;
    assert Entry(conf, k) == Expected(env, t, t.services.Keys, k);
    if k in DEFAULT {
      DefaultHasNoOwner(k);
    }
    if OwnerOf(k).value in t.services {
      LastIsPut(DEFAULT, ServiceWrites(env, t, t.services[OwnerOf(k).value]), k);
    }
  }

  // ---- Groups of keys ----

  /** Which part of the writes for a service a key belongs to. */
  datatype Group = NoGroup | OwnHTTP | OwnStream | OwnMiddleware | OfTarget(target: string) | OfSplit(split: string)

  function GroupOf(k: ConfKey): Group {
    match k
    case HTTPRouter(r) =>
      (match r
       case ReadinessRouter => NoGroup
       case PortRouter(_, _) => OwnHTTP
       case TargetDirectRouter(_, n, _) => OfTarget(n)
       case TargetIndirectRouter(_, n, _) => OfTarget(n)
       case SplitDirectRouter(_, n, _) => OfSplit(n)
       case SplitIndirectRouter(_, n, _) => OfSplit(n))
    case HTTPService(s) =>
      (match s
       case ReadinessService => NoGroup
       case BlockAllService => NoGroup
       case PortService(_, _) => OwnHTTP
       case TargetService(_, n, _) => OfTarget(n)
       case SplitService(_, n, _) => OfSplit(n)
       case BackendService(_, n, _, _) => OfSplit(n))
    case HTTPMiddleware(m) =>
      (match m
       case BlockAllMiddleware => NoGroup
       case Annotated(_, _) => OwnMiddleware
       case TargetDirectWhitelist(_, n) => OfTarget(n)
       case TargetIndirectWhitelist(_, n) => OfTarget(n)
       case SplitDirectWhitelist(_, n) => OfSplit(n)
       case SplitIndirectWhitelist(_, n) => OfSplit(n))
    case StreamRouter(_, _) => OwnStream
    case StreamService(_, _) => OwnStream
  }

  predicate InGroup(ws: seq<Write>, g: Group) {
    forall w :: w in ws ==> GroupOf(w.key) == g
  }

  lemma {:induction false} OtherGroup(ws: seq<Write>, g: Group, k: ConfKey)
    requires InGroup(ws, g) && GroupOf(k) != g
    ensures Last(ws, k) == None
  {
    if ws != [] {
      assert ws[0] in ws;
      OtherGroup(ws[1..], g, k);
    }
  }

  lemma GroupConcat(a: seq<Write>, b: seq<Write>, g: Group)
    requires InGroup(a, g) && InGroup(b, g)
    ensures InGroup(a + b, g)
  {
  }

  lemma {:induction false} ServiceGroup(env: Env, t: Topo, svc: Service, scheme: string,
          middlewares: seq<MiddlewareKey>, i: nat)
    requires i <= |svc.ports|
    ensures InGroup(HTTPServiceWrites(env, t, svc, scheme, middlewares, i), OwnHTTP)
    ensures InGroup(BlockAllWrites(env, svc, i), OwnHTTP)
    decreases |svc.ports| - i
  {
    hide PodServers, ServiceRule, Priority, HTTPEntryPoint;
    if i < |svc.ports| {
      ServiceGroup(env, t, svc, scheme, middlewares, i + 1);
    }
  }

  lemma {:induction false} StreamServiceGroup(env: Env, t: Topo, svc: Service, transport: Transport, i: nat)
    requires i <= |svc.ports|
    ensures InGroup(StreamServiceWrites(env, t, svc, transport, i), OwnStream)
    decreases |svc.ports| - i
  {
    hide PodServers, StreamEntryPoint;
    if i < |svc.ports| {
      StreamServiceGroup(env, t, svc, transport, i + 1);
    }
  }

  lemma {:induction false} TCPTargetGroup(env: Env, t: Topo, tt: Target, svc: Service, i: nat)
    requires i <= |tt.destination.ports|
    ensures InGroup(TCPTargetWrites(env, t, tt, svc, i), OwnStream)
    decreases |tt.destination.ports| - i
  {
    hide PodServers, StreamEntryPoint;
    if i < |tt.destination.ports| {
      TCPTargetGroup(env, t, tt, svc, i + 1);
    }
  }

  lemma {:induction false} StreamSplitGroup(env: Env, ts: Split, svc: Service, transport: Transport, i: nat)
    requires i <= |svc.ports|
    ensures InGroup(StreamSplitWrites(env, ts, svc, transport, i), OwnStream)
    decreases |svc.ports| - i
  {
    hide InGroup, Children, StreamEntryPoint, StreamBackendWrites;
    EmptyGroup(OwnStream);
    if i < |svc.ports| {
      var sp := svc.ports[i];
      var key, backends := PortService(svc.OwnKey(), sp.port), StreamBackendWrites(ts, transport, sp, ts.backends);
      StreamSplitGroup(env, ts, svc, transport, i + 1);
      if StreamEntryPoint(env, svc, transport, sp.port).Some? {
        var w := Write(StreamService(transport, key), Weighted(Children(ts, sp.port, ts.backends)));
        var w' := Write(StreamRouter(transport, key),
                        StreamRoute([StreamEntryPoint(env, svc, transport, sp.port).value], key));
        StreamBackendGroup(ts, transport, sp, ts.backends);
        PairGroup(w, w', OwnStream);
        GroupConcat(backends, [w, w'], OwnStream);
        GroupConcat(backends + [w, w'], StreamSplitWrites(env, ts, svc, transport, i + 1), OwnStream);
      } else {
        assert StreamSplitWrites(env, ts, svc, transport, i) == StreamSplitWrites(env, ts, svc, transport, i + 1);
      }
    }
  }

  lemma PairGroup(w: Write, w': Write, g: Group)
    requires GroupOf(w.key) == g && GroupOf(w'.key) == g
    ensures InGroup([w, w'], g)
  {
  }

  lemma {:induction false} StreamBackendGroup(ts: Split, transport: Transport, sp: ServicePort, bs: seq<Backend>)
    ensures InGroup(StreamBackendWrites(ts, transport, sp, bs), OwnStream)
  {
    if bs != [] {
      StreamBackendGroup(ts, transport, sp, bs[1..]);
    }
  }

  lemma {:induction false} HTTPBackendGroup(t: Topo, ts: Split, scheme: string, port: Int32, bs: seq<Backend>)
    ensures InGroup(HTTPBackendWrites(t, ts, scheme, port, bs), OfSplit(ts.name))
  {
    if bs != [] {
      HTTPBackendGroup(t, ts, scheme, port, bs[1..]);
    }
  }

  lemma {:induction false} TargetPortsGroup(env: Env, t: Topo, tt: Target, svc: Service, scheme: string,
          middlewares: seq<MiddlewareKey>, i: nat, rule: Rule)
    requires i <= |tt.destination.ports|
    ensures InGroup(HTTPTargetPortsWrites(env, t, tt, svc, scheme, middlewares, i, rule), OfTarget(tt.name))
    decreases |tt.destination.ports| - i
  {
    hide PodServers, Priority, IndirectRule, Addresses, HTTPEntryPoint;
    if i < |tt.destination.ports| {
      TargetPortsGroup(env, t, tt, svc, scheme, middlewares, i + 1, rule);
      TargetPortsGroup(env, t, tt, svc, scheme, middlewares, i + 1, IndirectRule(svc, tt.rules));
    }
  }

  lemma SplitPortGroup(env: Env, t: Topo, ts: Split, svc: Service, middlewares: seq<MiddlewareKey>, sp: ServicePort,
          entry: EntryPoint, rule: Rule)
    ensures InGroup(HTTPSplitPortWrites(env, t, ts, svc, middlewares, sp, entry, rule), OfSplit(ts.name))
  {
    hide Priority, IndirectRule, Addresses, Children;
  }

  lemma {:induction false} SplitPortsGroup(env: Env, t: Topo, ts: Split, svc: Service, scheme: string,
          middlewares: seq<MiddlewareKey>, i: nat, rule: Rule)
    requires i <= |svc.ports|
    ensures InGroup(HTTPSplitPortsWrites(env, t, ts, svc, scheme, middlewares, i, rule), OfSplit(ts.name))
    decreases |svc.ports| - i
  {
    hide InGroup, IndirectRule, HTTPBackendWrites, HTTPSplitPortWrites, BackendsKnown, HTTPEntryPoint;
    if i == |svc.ports| {
      EmptyGroup(OfSplit(ts.name));
    } else {
      var g, sp := OfSplit(ts.name), svc.ports[i];
      var backends := HTTPBackendWrites(t, ts, scheme, sp.port, ts.backends);
      HTTPBackendGroup(t, ts, scheme, sp.port, ts.backends);
      if !BackendsKnown(t, ts.backends) || HTTPEntryPoint(env, i).None? {
        SplitPortsGroup(env, t, ts, svc, scheme, middlewares, i + 1, rule);
        GroupConcat(backends, HTTPSplitPortsWrites(env, t, ts, svc, scheme, middlewares, i + 1, rule), g);
      } else {
        var rule' := if svc.backendOf == [] || !env.acl then rule else IndirectRule(svc, ts.rules);
        var here := HTTPSplitPortWrites(env, t, ts, svc, middlewares, sp, HTTPEntryPoint(env, i).value, rule);
        var rest := HTTPSplitPortsWrites(env, t, ts, svc, scheme, middlewares, i + 1, rule');
        SplitPortGroup(env, t, ts, svc, middlewares, sp, HTTPEntryPoint(env, i).value, rule);
        SplitPortsGroup(env, t, ts, svc, scheme, middlewares, i + 1, rule');
        GroupConcat(here, rest, g);
        GroupConcat(backends, here + rest, g);
      }
    }
  }

  lemma EmptyGroup(g: Group)
    ensures InGroup([], g)
  {
  }

  lemma {:induction false} AnnotationsGroup(svc: Service, ms: seq<(string, string)>)
    ensures InGroup(AnnotationWrites(svc, ms), OwnMiddleware)
  {
    if ms != [] {
      AnnotationsGroup(svc, ms[1..]);
    }
  }

  // ---- Targets and splits of a service ----

  /** The writes of a target are for keys of its name, or for streams. */
  lemma TargetGroup(env: Env, t: Topo, tk: TargetKey, scheme: string, tt: TrafficType, middlewares: seq<MiddlewareKey>)
    requires tk in t.targets && t.targets[tk].service in t.services
    ensures InGroup(TargetWrites(env, t, tk, scheme, tt, middlewares), if tt == HTTP then OfTarget(t.targets[tk].name)
    else OwnStream)
  {
    hide HTTPTargetPortsWrites, TCPTargetWrites, HasTCPRoute, DirectRule, Addresses;
    var target := t.targets[tk];
    var svc := t.services[target.service];
    TargetPortsGroup(env, t, target, svc, scheme, middlewares, 0, DirectRule(svc, target.rules));
    TCPTargetGroup(env, t, target, svc, 0);
  }

  lemma SplitGroup(env: Env, t: Topo, k: Key, scheme: string, tt: TrafficType, middlewares: seq<MiddlewareKey>)
    requires k in t.splits && t.splits[k].service in t.services
    ensures InGroup(SplitWrites(env, t, k, scheme, tt, middlewares), if tt == HTTP then OfSplit(t.splits[k].name)
    else OwnStream)
  {
    hide HTTPSplitPortsWrites, StreamSplitWrites, DirectRule, Addresses;
    var ts := t.splits[k];
    var svc := t.services[ts.service];
    SplitPortsGroup(env, t, ts, svc, scheme, middlewares, 0, DirectRule(svc, ts.rules));
    StreamSplitGroup(env, ts, svc, OverTCP, 0);
    StreamSplitGroup(env, ts, svc, OverUDP, 0);
  }

  /** The last of the given targets that satisfies keep. */
  function LastIn(tks: seq<TargetKey>, keep: TargetKey -> bool): (r: Option<TargetKey>)
    ensures r.Some? ==> keep(r.value) && exists i :: 0 <= i < |tks| && tks[i] == r.value && forall j ::
              i < j < |tks| ==> !keep(tks[j])
    ensures r.None? ==> forall i :: 0 <= i < |tks| ==> !keep(tks[i])
  {
    if tks == [] then None
    else
      var r := LastIn(tks[1..], keep);
      assert forall i :: 0 < i < |tks| ==> tks[i] == tks[1..][i - 1];
      if r.Some? then
        assert exists i ::
                 0 <= i < |tks[1..]| && tks[1..][i] == r.value
                 && (forall j :: i < j < |tks[1..]| ==> !keep(tks[1..][j])) && tks[i + 1] == r.value;
        r
      else if keep(tks[0]) then Some(tks[0]) else None
  }

  lemma {:induction false} LastInSame(tks: seq<TargetKey>, keep: TargetKey -> bool, keep': TargetKey -> bool)
    requires forall tk :: tk in tks ==> (keep(tk) <==> keep'(tk))
    ensures LastIn(tks, keep) == LastIn(tks, keep')
  {
    if tks != [] {
      LastInSame(tks[1..], keep, keep');
    }
  }

  /** Among the targets of a service, the last one that writes to a key decides. */
  lemma {:induction false} LastOverTargets(env: Env, t: Topo, tks: seq<TargetKey>, scheme: string, tt: TrafficType,
          middlewares: seq<MiddlewareKey>, k: ConfKey, keep: TargetKey -> bool)
    requires forall tk :: tk in tks ==> (keep(tk) <==> Last(TargetWrites(env, t, tk, scheme, tt, middlewares), k).Some?)
    ensures Last(TargetsWrites(env, t, tks, scheme, tt, middlewares), k) ==
            match LastIn(tks, keep)
            case None => None
            case Some(tk) => Last(TargetWrites(env, t, tk, scheme, tt, middlewares), k)
  {
    hide TargetWrites;
    if tks != [] {
      LastOverTargets(env, t, tks[1..], scheme, tt, middlewares, k, keep);
      LastConcat(TargetWrites(env, t, tks[0], scheme, tt, middlewares),
                 TargetsWrites(env, t, tks[1..], scheme, tt, middlewares), k);
      if LastIn(tks[1..], keep).Some? {
        var tk := LastIn(tks[1..], keep).value;
        assert tk in tks[1..] && keep(tk);
      }
    }
  }

  /** A split is the only one to write to its keys. */
  lemma {:induction false} LastOverSplits(env: Env, t: Topo, s: Key, ks: seq<Key>, scheme: string,
          middlewares: seq<MiddlewareKey>, k: ConfKey)
    requires s in t.services && (forall c :: c in ks ==> SplitReady(t, s, c)) && GroupOf(k).OfSplit?
    ensures Last(SplitsWrites(env, t, ks, scheme, HTTP, middlewares), k) ==
            if Key(GroupOf(k).split, s.namespace) in ks then
              Last(SplitWrites(env, t, Key(GroupOf(k).split, s.namespace), scheme, HTTP, middlewares), k) else None
  {
    hide SplitWrites, InGroup;
    if ks != [] {
      LastOverSplits(env, t, s, ks[1..], scheme, middlewares, k);
      LastConcat(SplitWrites(env, t, ks[0], scheme, HTTP, middlewares),
                 SplitsWrites(env, t, ks[1..], scheme, HTTP, middlewares), k);
      assert ks == [ks[0]] + ks[1..] && SplitReady(t, s, ks[0]);
      SplitGroup(env, t, ks[0], scheme, HTTP, middlewares);
      if t.splits[ks[0]].name != GroupOf(k).split {
        OtherGroup(SplitWrites(env, t, ks[0], scheme, HTTP, middlewares), OfSplit(t.splits[ks[0]].name), k);
      }
    }
  }

  lemma {:induction false} SplitsNever(env: Env, t: Topo, s: Key, ks: seq<Key>, scheme: string, tt: TrafficType,
          middlewares: seq<MiddlewareKey>, k: ConfKey)
    requires s in t.services && (forall c :: c in ks ==> SplitReady(t, s, c))
    requires if tt == HTTP then !GroupOf(k).OfSplit? else !GroupOf(k).OwnStream?
    ensures Last(SplitsWrites(env, t, ks, scheme, tt, middlewares), k) == None
  {
    hide SplitWrites, InGroup;
    if ks != [] {
      SplitsNever(env, t, s, ks[1..], scheme, tt, middlewares, k);
      LastConcat(SplitWrites(env, t, ks[0], scheme, tt, middlewares),
                 SplitsWrites(env, t, ks[1..], scheme, tt, middlewares), k);
      assert SplitReady(t, s, ks[0]);
      SplitGroup(env, t, ks[0], scheme, tt, middlewares);
      OtherGroup(SplitWrites(env, t, ks[0], scheme, tt, middlewares), if tt == HTTP then OfSplit(t.splits[ks[0]].name)
      else OwnStream, k);
    }
  }

  lemma {:induction false} TargetsNever(env: Env, t: Topo, s: Key, tks: seq<TargetKey>, scheme: string,
          tt: TrafficType, middlewares: seq<MiddlewareKey>, k: ConfKey)
    requires Ready(t) && s in t.services && (forall tk :: tk in tks ==> tk in t.services[s].trafficTargets)
    requires if tt == HTTP then !GroupOf(k).OfTarget? else !GroupOf(k).OwnStream?
    ensures Last(TargetsWrites(env, t, tks, scheme, tt, middlewares), k) == None
  {
    hide TargetWrites, InGroup;
    if tks != [] {
      TargetsNever(env, t, s, tks[1..], scheme, tt, middlewares, k);
      LastConcat(TargetWrites(env, t, tks[0], scheme, tt, middlewares),
                 TargetsWrites(env, t, tks[1..], scheme, tt, middlewares), k);
      TargetGroup(env, t, tks[0], scheme, tt, middlewares);
      OtherGroup(TargetWrites(env, t, tks[0], scheme, tt, middlewares),
                 if tt == HTTP then OfTarget(t.targets[tks[0]].name) else OwnStream, k);
    }
  }

  // ---- One service with HTTP traffic ----

  /** The service is evaluated as one with HTTP traffic: all its annotations can be read. */
  predicate ServesHTTP(svc: Service) {
    svc.annotations.trafficType == Some(HTTP) && svc.annotations.scheme.Some? && svc.annotations.middlewares.Some?
  }

  function Middlewares(svc: Service): seq<MiddlewareKey>
    requires ServesHTTP(svc)
  {
    AnnotationKeys(svc, svc.annotations.middlewares.value)
  }

  /** Which part of the writes decides about an HTTP key. */
  lemma LastOfService(env: Env, t: Topo, s: Key, k: ConfKey)
    requires Ready(t) && s in t.services && ServesHTTP(t.services[s])
    requires GroupOf(k).OwnHTTP? || GroupOf(k).OfTarget? || GroupOf(k).OfSplit?
    ensures var svc := t.services[s];
            var scheme, keys := svc.annotations.scheme.value, Middlewares(svc);
            Last(ServiceWrites(env, t, svc), k) ==
            match GroupOf(k)
            case OwnHTTP =>
              Last(if env.acl then BlockAllWrites(env, svc, 0) else HTTPServiceWrites(env, t, svc, scheme, keys, 0), k)
            case OfTarget(_) =>
              if env.acl then Last(TargetsWrites(env, t, svc.trafficTargets, scheme, HTTP, keys), k) else None
            case _ => Last(SplitsWrites(env, t, svc.trafficSplits, scheme, HTTP, keys), k)
  {
    hide AnnotationWrites, TargetsWrites, SplitsWrites, HTTPServiceWrites, BlockAllWrites, InGroup, AnnotationKeys,
         SplitReady;
    var svc := t.services[s];
    var scheme, keys := svc.annotations.scheme.value, Middlewares(svc);
    var first, own, last := AnnotationWrites(svc, Asked(svc)), OwnWrites(env, t, svc, scheme, HTTP, keys),
        SplitsWrites(env, t, svc.trafficSplits, scheme, HTTP, keys);
    LastConcat(first, own, k);
    LastConcat(first + own, last, k);
    AnnotationsGroup(svc, Asked(svc));
    OtherGroup(first, OwnMiddleware, k);
    ServiceGroup(env, t, svc, scheme, keys, 0);
    if !GroupOf(k).OfSplit? {
      SplitsNever(env, t, s, svc.trafficSplits, scheme, HTTP, keys, k);
    }
    if env.acl {
      LastConcat(BlockAllWrites(env, svc, 0), TargetsWrites(env, t, svc.trafficTargets, scheme, HTTP, keys), k);
      if !GroupOf(k).OfTarget? {
        TargetsNever(env, t, s, svc.trafficTargets, scheme, HTTP, keys, k);
      }
      if !GroupOf(k).OwnHTTP? {
        OtherGroup(BlockAllWrites(env, svc, 0), OwnHTTP, k);
      }
    } else if !GroupOf(k).OwnHTTP? {
      OtherGroup(HTTPServiceWrites(env, t, svc, scheme, keys, 0), OwnHTTP, k);
    }
  }

  /** Services of other traffic types write to no HTTP key. */
  lemma NothingForOthers(env: Env, t: Topo, s: Key, k: ConfKey)
    requires Ready(t) && s in t.services && !ServesHTTP(t.services[s])
    requires GroupOf(k).OwnHTTP? || GroupOf(k).OfTarget? || GroupOf(k).OfSplit?
    ensures Last(ServiceWrites(env, t, t.services[s]), k) == None
  {
    hide TargetsWrites, SplitsWrites, StreamServiceWrites, InGroup, SplitReady;
    var svc := t.services[s];
    LastNone(k);
    if Evaluable(svc) {
      var tt, scheme := svc.annotations.trafficType.value, svc.annotations.scheme.value;
      var own, last := OwnWrites(env, t, svc, scheme, tt, []), SplitsWrites(env, t, svc.trafficSplits, scheme, tt, []);
      assert AnnotationWrites(svc, []) == [] && AnnotationKeys(svc, []) == [];
      TargetsNever(env, t, s, svc.trafficTargets, scheme, tt, [], k);
      SplitsNever(env, t, s, svc.trafficSplits, scheme, tt, [], k);
      StreamServiceGroup(env, t, svc, OverTCP, 0);
      StreamServiceGroup(env, t, svc, OverUDP, 0);
      OtherGroup(StreamServiceWrites(env, t, svc, OverTCP, 0), OwnStream, k);
      OtherGroup(StreamServiceWrites(env, t, svc, OverUDP, 0), OwnStream, k);
      assert [] + own == own
             && [] + TargetsWrites(env, t, svc.trafficTargets, scheme, tt, []) ==
                  TargetsWrites(env, t, svc.trafficTargets, scheme, tt, []);
      LastConcat(own, if !env.acl && tt == Unknown then [] else last, k);
    }
  }

  /** An HTTP entry that is made for a service or for what sits on it: the service is known, with HTTP traffic. */
  lemma HTTPEntryMeans(env: Env, t: Topo, conf: Conf, k: ConfKey)
    requires Ready(t) && ConfigOf(env, t, conf) && k in conf && OwnerOf(k).Some?
    requires GroupOf(k).OwnHTTP? || GroupOf(k).OfTarget? || GroupOf(k).OfSplit?
    ensures var s := OwnerOf(k).value;
            && s in t.services && ServesHTTP(t.services[s])
            && (GroupOf(k).OfSplit? ==> Key(GroupOf(k).split, s.namespace) in t.services[s].trafficSplits)
            && (GroupOf(k).OfTarget? ==> env.acl)
  {
    hide ConfigOf, ServiceWrites, SplitsWrites, TargetsWrites, BlockAllWrites, HTTPServiceWrites, SplitReady;
    var s := OwnerOf(k).value;
    ConfLast(env, t, conf, k);
    if !ServesHTTP(t.services[s]) {
      NothingForOthers(env, t, s, k);
    } else {
      LastOfService(env, t, s, k);
      if GroupOf(k).OfSplit? {
        LastOverSplits(env, t, s, t.services[s].trafficSplits, t.services[s].annotations.scheme.value,
                       Middlewares(t.services[s]), k);
      }
    }
  }

  // ---- The last place of a port ----

  /** The last place from i on at which the ports have the given number and an entrypoint. */
  function LastPlace(env: Env, ports: seq<ServicePort>, port: Int32, i: nat): (r: Option<nat>)
    requires i <= |ports|
    ensures r.Some? ==> i <= r.value < |ports| && ports[r.value].port == port && HTTPEntryPoint(env, r.value).Some?
                        && forall j :: r.value < j < |ports| && ports[j].port == port ==> HTTPEntryPoint(env, j).None?
    ensures r.None? ==> forall j :: i <= j < |ports| && ports[j].port == port ==> HTTPEntryPoint(env, j).None?
    decreases |ports| - i
  {
    if i == |ports| then None
    else
      match LastPlace(env, ports, port, i + 1)
      case Some(j) => Some(j)
      case None => if ports[i].port == port && HTTPEntryPoint(env, i).Some? then Some(i) else None
  }

  /** The router of a port: the one written at its last place. */
  lemma {:induction false} LastServiceRouter(env: Env, t: Topo, svc: Service, scheme: string,
          middlewares: seq<MiddlewareKey>, i: nat, port: Int32)
    requires i <= |svc.ports|
    ensures var k := HTTPRouter(PortRouter(svc.OwnKey(), port));
            match LastPlace(env, svc.ports, port, i)
            case None => Last(HTTPServiceWrites(env, t, svc, scheme, middlewares, i), k) == None
            && Last(BlockAllWrites(env, svc, i), k) == None
            case Some(j) =>
              && Last(HTTPServiceWrites(env, t, svc, scheme, middlewares, i), k) ==
                 Some(MakeRouter(ServiceRule(svc), HTTPEntryPoint(env, j).value, middlewares,
                                 PortService(svc.OwnKey(), port), SERVICE_TIER))
              && Last(BlockAllWrites(env, svc, i), k) ==
                 Some(Router(ServiceRule(svc), [HTTPEntryPoint(env, j).value], [BlockAllMiddleware], BlockAllService,
                             BLOCK_ALL_PRIORITY))
    decreases |svc.ports| - i
  {
    hide PodServers, ServiceRule, Priority, HTTPEntryPoint;
    if i < |svc.ports| {
      var k := HTTPRouter(PortRouter(svc.OwnKey(), port));
      LastServiceRouter(env, t, svc, scheme, middlewares, i + 1, port);
      var rest, rest' := HTTPServiceWrites(env, t, svc, scheme, middlewares, i + 1), BlockAllWrites(env, svc, i + 1);
      if HTTPEntryPoint(env, i).Some? {
        var sp, entry := svc.ports[i], HTTPEntryPoint(env, i).value;
        var w := Write(HTTPService(PortService(svc.OwnKey(), sp.port)),
                       Balancer(PodServers(env, t, svc.pods, scheme, sp), true));
        var w' := Write(HTTPRouter(PortRouter(svc.OwnKey(), sp.port)),
                        MakeRouter(ServiceRule(svc), entry, middlewares, PortService(svc.OwnKey(), sp.port),
                                   SERVICE_TIER));
        var b := Write(HTTPRouter(PortRouter(svc.OwnKey(), sp.port)),
                       Router(ServiceRule(svc), [entry], [BlockAllMiddleware], BlockAllService, BLOCK_ALL_PRIORITY));
        LastConcat([w, w'], rest, k);
        LastTwo(w, w', k);
        LastConcat([b], rest', k);
        LastOne(b, k);
      } else {
        assert HTTPServiceWrites(env, t, svc, scheme, middlewares, i) == rest;
        assert BlockAllWrites(env, svc, i) == rest';
      }
    }
  }

  // ---- Routers and whitelists of a target ----

  /**
   The rule of the direct router of a target at place j: after the first one, that of the indirect router if
   there is one.
   */
  function TargetRule(svc: Service, tt: Target, j: nat): Rule {
    if j == 0 || svc.backendOf == [] then DirectRule(svc, tt.rules) else IndirectRule(svc, tt.rules)
  }

  /** What a target writes to the keys of its routers and whitelists. */
  function TargetEntry(env: Env, t: Topo, tt: Target, svc: Service, middlewares: seq<MiddlewareKey>,
          k: ConfKey): Option<ConfValue>
  {
    match k
    case HTTPRouter(TargetDirectRouter(_, _, port)) =>
      (match LastPlace(env, tt.destination.ports, port, 0)
       case None => None
       case Some(j) =>
         Some(MakeRouter(TargetRule(svc, tt, j), HTTPEntryPoint(env, j).value,
                         middlewares + [TargetDirectWhitelist(tt.service, tt.name)],
                                       TargetService(tt.service, tt.name, port), TARGET_DIRECT_TIER)))
    case HTTPRouter(TargetIndirectRouter(_, _, port)) =>
      (match LastPlace(env, tt.destination.ports, port, 0)
       case None => None
       case Some(j) =>
         if svc.backendOf == [] then None
         else Some(MakeRouter(IndirectRule(svc, tt.rules), HTTPEntryPoint(env, j).value,
                              middlewares + [TargetIndirectWhitelist(tt.service, tt.name)],
                              TargetService(tt.service, tt.name, port), TARGET_INDIRECT_TIER)))
    case HTTPMiddleware(TargetDirectWhitelist(_, _)) => Some(TargetWhitelist(t, tt, None))
    case HTTPMiddleware(TargetIndirectWhitelist(_, _)) =>
      if svc.backendOf == [] || tt.destination.ports == [] || HTTPEntryPoint(env, 0).None? then None
      else Some(TargetWhitelist(t, tt, Some(1)))
    case _ => None
  }

  /** The keys in question: routers of the target and its indirect whitelist. */
  predicate IsTargetRouter(k: ConfKey, tt: Target) {
    k.HTTPRouter? && (k.router.TargetDirectRouter? || k.router.TargetIndirectRouter?) && k.router.owner == tt.service
    && k.router.target == tt.name
  }

  lemma LastTargetPort(env: Env, t: Topo, tt: Target, svc: Service, scheme: string, middlewares: seq<MiddlewareKey>,
          sp: ServicePort, entry: EntryPoint, rule: Rule, k: ConfKey)
    ensures IsTargetRouter(k, tt) ==>
              Last(HTTPTargetPortWrites(env, t, tt, svc, scheme, middlewares, sp, entry, rule), k) ==
              if k.router.port != sp.port then None
              else if k.router.TargetDirectRouter? then
                Some(MakeRouter(rule, entry, middlewares + [TargetDirectWhitelist(tt.service, tt.name)],
                                TargetService(tt.service, tt.name, sp.port), TARGET_DIRECT_TIER))
              else if svc.backendOf == [] then None
              else Some(MakeRouter(IndirectRule(svc, tt.rules), entry,
                                   middlewares + [TargetIndirectWhitelist(tt.service, tt.name)],
                                   TargetService(tt.service, tt.name, sp.port), TARGET_INDIRECT_TIER))
    ensures Last(HTTPTargetPortWrites(env, t, tt, svc, scheme, middlewares, sp, entry, rule),
                 HTTPMiddleware(TargetDirectWhitelist(tt.service, tt.name))) == None
    ensures Last(HTTPTargetPortWrites(env, t, tt, svc, scheme, middlewares, sp, entry, rule),
                 HTTPMiddleware(TargetIndirectWhitelist(tt.service, tt.name))) ==
            if svc.backendOf == [] then None else Some(TargetWhitelist(t, tt, Some(1)))
  {
    hide PodServers, Priority, IndirectRule, Addresses, Last;
    var target := TargetService(tt.service, tt.name, sp.port);
    var direct, indirect := TargetDirectWhitelist(tt.service, tt.name), TargetIndirectWhitelist(tt.service, tt.name);
    var a := Write(HTTPService(target), Balancer(PodServers(env, t, tt.destination.pods, scheme, sp), true));
    var b := Write(HTTPRouter(TargetDirectRouter(tt.service, tt.name, sp.port)),
                   MakeRouter(rule, entry, middlewares + [direct], target, TARGET_DIRECT_TIER));
    var c := Write(HTTPMiddleware(indirect), TargetWhitelist(t, tt, Some(1)));
    var d := Write(HTTPRouter(TargetIndirectRouter(tt.service, tt.name, sp.port)),
                   MakeRouter(IndirectRule(svc, tt.rules), entry, middlewares + [indirect], target,
                              TARGET_INDIRECT_TIER));
    var more := if svc.backendOf == [] then [] else [c, d];
    assert HTTPTargetPortWrites(env, t, tt, svc, scheme, middlewares, sp, entry, rule) == [a, b] + more;
    forall key
      ensures Last([a, b] + more, key) == OrElse(Last(more, key), Last([a, b], key))
      ensures Last([a, b], key) == if b.key == key then Some(b.value) else if a.key == key then Some(a.value) else None
      ensures Last([c, d], key) == if d.key == key then Some(d.value) else if c.key == key then Some(c.value) else None
      ensures Last([], key) == None
    {
      LastConcat([a, b], more, key);
      LastTwo(a, b, key);
      LastTwo(c, d, key);
      LastNone(key);
    }
  }

  lemma LastNone(k: ConfKey)
    ensures Last([], k) == None
  {
  }

  /** From place i on, with the rule in force there. */
  lemma {:induction false} LastTargetPorts(env: Env, t: Topo, tt: Target, svc: Service, scheme: string,
          middlewares: seq<MiddlewareKey>, i: nat, rule: Rule, k: ConfKey)
    requires i <= |tt.destination.ports| && IsTargetRouter(k, tt)
             && (HTTPEntryPoint(env, i).Some? ==> rule == TargetRule(svc, tt, i))
    ensures Last(HTTPTargetPortsWrites(env, t, tt, svc, scheme, middlewares, i, rule), k) ==
            match LastPlace(env, tt.destination.ports, k.router.port, i)
            case None => None
            case Some(j) =>
              if k.router.TargetDirectRouter? then
                Some(MakeRouter(TargetRule(svc, tt, j), HTTPEntryPoint(env, j).value,
                                middlewares + [TargetDirectWhitelist(tt.service, tt.name)],
                                TargetService(tt.service, tt.name, k.router.port), TARGET_DIRECT_TIER))
              else if svc.backendOf == [] then None
              else Some(MakeRouter(IndirectRule(svc, tt.rules), HTTPEntryPoint(env, j).value,
                                   middlewares + [TargetIndirectWhitelist(tt.service, tt.name)],
                                   TargetService(tt.service, tt.name, k.router.port), TARGET_INDIRECT_TIER))
    decreases |tt.destination.ports| - i
  {
    hide HTTPTargetPortWrites, IndirectRule, DirectRule, Priority;
    if i < |tt.destination.ports| {
      if HTTPEntryPoint(env, i).None? {
        LastTargetPorts(env, t, tt, svc, scheme, middlewares, i + 1, rule, k);
      } else {
        var rule' := if svc.backendOf == [] then rule else IndirectRule(svc, tt.rules);
        var sp, entry := tt.destination.ports[i], HTTPEntryPoint(env, i).value;
        LastTargetPorts(env, t, tt, svc, scheme, middlewares, i + 1, rule', k);
        LastTargetPort(env, t, tt, svc, scheme, middlewares, sp, entry, rule, k);
        LastConcat(HTTPTargetPortWrites(env, t, tt, svc, scheme, middlewares, sp, entry, rule),
                   HTTPTargetPortsWrites(env, t, tt, svc, scheme, middlewares, i + 1, rule'), k);
      }
    }
  }

  lemma {:induction false} LastTargetWhitelists(env: Env, t: Topo, tt: Target, svc: Service, scheme: string,
          middlewares: seq<MiddlewareKey>, i: nat, rule: Rule)
    requires i <= |tt.destination.ports|
    ensures Last(HTTPTargetPortsWrites(env, t, tt, svc, scheme, middlewares, i, rule),
                 HTTPMiddleware(TargetDirectWhitelist(tt.service, tt.name))) == None
    ensures Last(HTTPTargetPortsWrites(env, t, tt, svc, scheme, middlewares, i, rule),
                 HTTPMiddleware(TargetIndirectWhitelist(tt.service, tt.name))) ==
            if svc.backendOf == [] || i == |tt.destination.ports| || HTTPEntryPoint(env, i).None? then None
            else Some(TargetWhitelist(t, tt, Some(1)))
    decreases |tt.destination.ports| - i
  {
    hide HTTPTargetPortWrites, IndirectRule, Addresses;
    if i < |tt.destination.ports| {
      if HTTPEntryPoint(env, i).None? {
        LastTargetWhitelists(env, t, tt, svc, scheme, middlewares, i + 1, rule);
      } else {
        var rule' := if svc.backendOf == [] then rule else IndirectRule(svc, tt.rules);
        var sp, entry := tt.destination.ports[i], HTTPEntryPoint(env, i).value;
        var here, rest := HTTPTargetPortWrites(env, t, tt, svc, scheme, middlewares, sp, entry, rule),
            HTTPTargetPortsWrites(env, t, tt, svc, scheme, middlewares, i + 1, rule');
        LastTargetWhitelists(env, t, tt, svc, scheme, middlewares, i + 1, rule');
        LastTargetPort(env, t, tt, svc, scheme, middlewares, sp, entry, rule, HTTPMiddleware(BlockAllMiddleware));
        LastConcat(here, rest, HTTPMiddleware(TargetDirectWhitelist(tt.service, tt.name)));
        LastConcat(here, rest, HTTPMiddleware(TargetIndirectWhitelist(tt.service, tt.name)));
      }
    }
  }

  /** The keys of routers and whitelists that belong to targets called n on service s. */
  predicate TargetKeyOf(k: ConfKey, s: Key, n: string) {
    match k
    case HTTPRouter(r) => (r.TargetDirectRouter? || r.TargetIndirectRouter?) && r.owner == s && r.target == n
    case HTTPMiddleware(m) => (m.TargetDirectWhitelist? || m.TargetIndirectWhitelist?) && m.owner == s && m.target == n
    case _ => false
  }

  lemma LastOfTarget(env: Env, t: Topo, tk: TargetKey, scheme: string, middlewares: seq<MiddlewareKey>, k: ConfKey)
    requires tk in t.targets && t.targets[tk].service in t.services
             && TargetKeyOf(k, t.targets[tk].service, t.targets[tk].name)
    ensures Last(TargetWrites(env, t, tk, scheme, HTTP, middlewares), k) ==
            TargetEntry(env, t, t.targets[tk], t.services[t.targets[tk].service], middlewares, k)
  {
    hide HTTPTargetPortsWrites, DirectRule, IndirectRule, Addresses, Priority, HTTPEntryPoint;
    var tt := t.targets[tk];
    var svc := t.services[tt.service];
    var w := Write(HTTPMiddleware(TargetDirectWhitelist(tt.service, tt.name)), TargetWhitelist(t, tt, None));
    var ports := HTTPTargetPortsWrites(env, t, tt, svc, scheme, middlewares, 0, DirectRule(svc, tt.rules));
    LastConcat([w], ports, k);
    LastOne(w, k);
    if k.HTTPRouter? {
      LastTargetPorts(env, t, tt, svc, scheme, middlewares, 0, DirectRule(svc, tt.rules), k);
    } else {
      LastTargetWhitelists(env, t, tt, svc, scheme, middlewares, 0, DirectRule(svc, tt.rules));
    }
  }

  /** Target tk has the name that key k is made for, and writes to it. */
  predicate WritesTo(env: Env, t: Topo, svc: Service, k: ConfKey, n: string, tk: TargetKey) {
    tk in t.targets && t.targets[tk].name == n && TargetEntry(env, t, t.targets[tk], svc, [], k).Some?
  }

  /**
   With ACL, an entry for targets of some name is what the last target of that name that writes to the key makes
   of it: targets of one name, from different namespaces, overwrite each other.
   */
  lemma TargetEntryIs(env: Env, t: Topo, conf: Conf, s: Key, n: string, k: ConfKey)
    requires Ready(t) && ConfigOf(env, t, conf) && s in t.services && ServesHTTP(t.services[s]) && env.acl
             && TargetKeyOf(k, s, n)
    ensures var svc := t.services[s];
            Entry(conf, k) ==
            match LastIn(svc.trafficTargets, tk => WritesTo(env, t, svc, k, n, tk))
            case None => None
            case Some(tk) => TargetEntry(env, t, t.targets[tk], svc, Middlewares(svc), k)
  {
    hide ConfigOf, TargetWrites, TargetsWrites, ServiceWrites, Addresses, HTTPEntryPoint, InGroup;
    var svc := t.services[s];
    var scheme, keys := svc.annotations.scheme.value, Middlewares(svc);
    ConfLast(env, t, conf, k);
    LastOfService(env, t, s, k);
    var keep := tk => WritesTo(env, t, svc, k, n, tk);
    forall tk | tk in svc.trafficTargets
      ensures keep(tk) <==> Last(TargetWrites(env, t, tk, scheme, HTTP, keys), k).Some?
      ensures keep(tk) ==>
                Last(TargetWrites(env, t, tk, scheme, HTTP, keys), k) ==
                  TargetEntry(env, t, t.targets[tk], svc, keys, k)
    {
      if t.targets[tk].name == n {
        LastOfTarget(env, t, tk, scheme, keys, k);
        TargetEntryAnyway(env, t, t.targets[tk], svc, keys, k);
      } else {
        TargetGroup(env, t, tk, scheme, HTTP, keys);
        OtherGroup(TargetWrites(env, t, tk, scheme, HTTP, keys), OfTarget(t.targets[tk].name), k);
      }
    }
    LastOverTargets(env, t, svc.trafficTargets, scheme, HTTP, keys, k, keep);
    if LastIn(svc.trafficTargets, keep).Some? {
      var tk := LastIn(svc.trafficTargets, keep).value;
      assert tk in svc.trafficTargets;
    }
  }

  /** Middlewares have no influence on whether a target writes to a key. */
  lemma TargetEntryAnyway(env: Env, t: Topo, tt: Target, svc: Service, middlewares: seq<MiddlewareKey>, k: ConfKey)
    ensures TargetEntry(env, t, tt, svc, middlewares, k).Some? <==> TargetEntry(env, t, tt, svc, [], k).Some?
  {
    hide DirectRule, IndirectRule, Addresses, Priority, HTTPEntryPoint;
  }

  // ---- Routers of a split ----

  /** The same for the direct router of a split, with the ports of the service. */
  function SplitRule(env: Env, svc: Service, ts: Split, j: nat): Rule {
    if j == 0 || svc.backendOf == [] || !env.acl then DirectRule(svc, ts.rules) else IndirectRule(svc, ts.rules)
  }

  predicate IsSplitRouter(k: ConfKey, ts: Split) {
    k.HTTPRouter? && (k.router.SplitDirectRouter? || k.router.SplitIndirectRouter?) && k.router.owner == ts.service
    && k.router.split == ts.name
  }

  /** The router that a split writes at place j. */
  function SplitRouter(env: Env, ts: Split, svc: Service, middlewares: seq<MiddlewareKey>, k: ConfKey, rule: Rule,
          entry: EntryPoint): Option<ConfValue>
    requires IsSplitRouter(k, ts)
  {
    var target := SplitService(ts.service, ts.name, k.router.port);
    if k.router.SplitDirectRouter? then
      Some(MakeRouter(rule, entry, if env.acl then middlewares + [SplitDirectWhitelist(ts.service, ts.name)]
      else middlewares, target, SPLIT_TIER))
    else if svc.backendOf == [] || !env.acl then None
    else Some(MakeRouter(IndirectRule(svc, ts.rules), entry,
                         middlewares + [SplitIndirectWhitelist(ts.service, ts.name)], target, TARGET_INDIRECT_TIER))
  }

  lemma LastSplitPort(env: Env, t: Topo, ts: Split, svc: Service, middlewares: seq<MiddlewareKey>, sp: ServicePort,
          entry: EntryPoint, rule: Rule, k: ConfKey)
    requires IsSplitRouter(k, ts)
    ensures Last(HTTPSplitPortWrites(env, t, ts, svc, middlewares, sp, entry, rule), k) ==
            if k.router.port != sp.port then None else SplitRouter(env, ts, svc, middlewares, k, rule, entry)
  {
    hide Children, Priority, IndirectRule, Addresses, Last;
    var target := SplitService(ts.service, ts.name, sp.port);
    var direct, indirect := SplitDirectWhitelist(ts.service, ts.name), SplitIndirectWhitelist(ts.service, ts.name);
    var a := Write(HTTPService(target), Weighted(Children(ts, sp.port, ts.backends)));
    var b := Write(HTTPRouter(SplitDirectRouter(ts.service, ts.name, sp.port)),
                   MakeRouter(rule, entry, if env.acl then middlewares + [direct]
                   else middlewares, target, SPLIT_TIER));
    var c := Write(HTTPMiddleware(indirect), SplitWhitelist(t, ts, Some(1)));
    var d := Write(HTTPRouter(SplitIndirectRouter(ts.service, ts.name, sp.port)),
                   MakeRouter(IndirectRule(svc, ts.rules), entry, middlewares + [indirect], target,
                              TARGET_INDIRECT_TIER));
    var more := if svc.backendOf == [] || !env.acl then [] else [c, d];
    assert HTTPSplitPortWrites(env, t, ts, svc, middlewares, sp, entry, rule) == [a, b] + more;
    LastConcat([a, b], more, k);
    LastTwo(a, b, k);
    LastTwo(c, d, k);
    LastNone(k);
  }

  lemma {:induction false} LastBackends(t: Topo, ts: Split, scheme: string, port: Int32, bs: seq<Backend>, k: ConfKey)
    requires k.HTTPRouter?
    ensures Last(HTTPBackendWrites(t, ts, scheme, port, bs), k) == None
  {
    if bs != [] && bs[0].service in t.services {
      LastBackends(t, ts, scheme, port, bs[1..], k);
      var w := Write(HTTPService(BackendKey(ts, port, bs[0])),
                     Balancer([MeshServer(scheme, bs[0].service, port)], false));
      LastConcat([w], HTTPBackendWrites(t, ts, scheme, port, bs[1..]), k);
      LastOne(w, k);
    }
  }

  lemma {:induction false} LastSplitPorts(env: Env, t: Topo, ts: Split, svc: Service, scheme: string,
          middlewares: seq<MiddlewareKey>, i: nat, rule: Rule, k: ConfKey)
    requires i <= |svc.ports| && IsSplitRouter(k, ts)
    requires HTTPEntryPoint(env, i).Some? && BackendsKnown(t, ts.backends) ==> rule == SplitRule(env, svc, ts, i)
    ensures Last(HTTPSplitPortsWrites(env, t, ts, svc, scheme, middlewares, i, rule), k) ==
            match LastPlace(env, svc.ports, k.router.port, i)
            case None => None
            case Some(j) =>
              if BackendsKnown(t, ts.backends) then
                SplitRouter(env, ts, svc, middlewares, k, SplitRule(env, svc, ts, j), HTTPEntryPoint(env, j).value)
                else None
    decreases |svc.ports| - i
  {
    hide HTTPSplitPortWrites, HTTPBackendWrites, BackendsKnown, IndirectRule, DirectRule, Priority;
    if i < |svc.ports| {
      var sp := svc.ports[i];
      var backends := HTTPBackendWrites(t, ts, scheme, sp.port, ts.backends);
      LastBackends(t, ts, scheme, sp.port, ts.backends, k);
      if !BackendsKnown(t, ts.backends) || HTTPEntryPoint(env, i).None? {
        LastSplitPorts(env, t, ts, svc, scheme, middlewares, i + 1, rule, k);
        LastConcat(backends, HTTPSplitPortsWrites(env, t, ts, svc, scheme, middlewares, i + 1, rule), k);
      } else {
        var rule' := if svc.backendOf == [] || !env.acl then rule else IndirectRule(svc, ts.rules);
        var entry := HTTPEntryPoint(env, i).value;
        var here, rest := HTTPSplitPortWrites(env, t, ts, svc, middlewares, sp, entry, rule),
            HTTPSplitPortsWrites(env, t, ts, svc, scheme, middlewares, i + 1, rule');
        LastSplitPorts(env, t, ts, svc, scheme, middlewares, i + 1, rule', k);
        LastSplitPort(env, t, ts, svc, middlewares, sp, entry, rule, k);
        LastConcat(here, rest, k);
        LastConcat(backends, here + rest, k);
      }
    }
  }

  /** The router of a split is the one that it writes at the last place of the port, if all its backends are known. */
  lemma SplitRouterIs(env: Env, t: Topo, conf: Conf, s: Key, k: Key, r: ConfKey)
    requires Ready(t) && ConfigOf(env, t, conf) && s in t.services && ServesHTTP(t.services[s]) && SplitReady(t, s, k)
             && IsSplitRouter(r, t.splits[k])
    ensures var svc, ts := t.services[s], t.splits[k];
            Entry(conf, r) ==
            match LastPlace(env, svc.ports, r.router.port, 0)
            case None => None
            case Some(j) =>
              if BackendsKnown(t, ts.backends) then
                SplitRouter(env, ts, svc, Middlewares(svc), r, SplitRule(env, svc, ts, j),
                            HTTPEntryPoint(env, j).value) else None
  {
    hide ConfigOf, SplitsWrites, ServiceWrites, Addresses, HTTPEntryPoint, InGroup, HTTPSplitPortsWrites,
         BackendsKnown, DirectRule, IndirectRule, SplitRouter, Priority;
    var svc, ts := t.services[s], t.splits[k];
    var scheme, keys := svc.annotations.scheme.value, Middlewares(svc);
    ConfLast(env, t, conf, r);
    LastOfService(env, t, s, r);
    LastOverSplits(env, t, s, svc.trafficSplits, scheme, keys, r);
    assert Key(ts.name, s.namespace) == k;
    LastSplitPorts(env, t, ts, svc, scheme, keys, 0, DirectRule(svc, ts.rules), r);
    var ports := HTTPSplitPortsWrites(env, t, ts, svc, scheme, keys, 0, DirectRule(svc, ts.rules));
    var w := Write(HTTPMiddleware(SplitDirectWhitelist(s, ts.name)), SplitWhitelist(t, ts, None));
    LastConcat(if env.acl then [w] else [], ports, r);
    LastOne(w, r);
    LastNone(r);
  }

  /** The router of a port of a service is the one written at the last place of the port. */
  lemma PortRouterIs(env: Env, t: Topo, conf: Conf, s: Key, port: Int32)
    requires Ready(t) && ConfigOf(env, t, conf) && s in t.services && ServesHTTP(t.services[s])
    ensures var svc := t.services[s];
            Entry(conf, HTTPRouter(PortRouter(s, port))) ==
            match LastPlace(env, svc.ports, port, 0)
            case None => None
            case Some(j) =>
              if env.acl then
                Some(Router(ServiceRule(svc), [HTTPEntryPoint(env, j).value], [BlockAllMiddleware], BlockAllService,
                            BLOCK_ALL_PRIORITY))
              else Some(MakeRouter(ServiceRule(svc), HTTPEntryPoint(env, j).value, Middlewares(svc),
                                   PortService(s, port), SERVICE_TIER))
  {
    hide ConfigOf, ServiceWrites, HTTPServiceWrites, BlockAllWrites, HTTPEntryPoint, ServiceRule, Priority, SplitReady;
    var svc := t.services[s];
    var k := HTTPRouter(PortRouter(s, port));
    ConfLast(env, t, conf, k);
    LastOfService(env, t, s, k);
    LastServiceRouter(env, t, svc, svc.annotations.scheme.value, Middlewares(svc), 0, port);
  }
}
