/** What the writes of the provider add up to. */
module ConfigTheorems {
  import opened Basics
  import opened Topologies
  import opened Rules
  import opened RulePriority
  import opened ConfigWrites

  // ---- Writes in general ----

  function WrittenKeys(ws: seq<Write>): set<ConfKey> {
    set w | w in ws :: w.key
  }

  lemma WrittenConcat(a: seq<Write>, b: seq<Write>)
    ensures WrittenKeys(a + b) == WrittenKeys(a) + WrittenKeys(b)
  {
    forall w | w in a || w in b
      ensures w in a + b
    {
    }
  }

  lemma {:induction false} PutAllKeys(conf: Conf, ws: seq<Write>)
    ensures PutAll(conf, ws).Keys == conf.Keys + WrittenKeys(ws)
    decreases |ws|
  {
    if ws != [] {
      PutAllKeys(conf[ws[0].key := ws[0].value], ws[1..]);
      assert ws == [ws[0]] + ws[1..];
      WrittenConcat([ws[0]], ws[1..]);
      assert WrittenKeys([ws[0]]) == {ws[0].key};
    } else {
      assert WrittenKeys(ws) == {};
    }
  }

  lemma {:induction false} PutAllConcat(conf: Conf, a: seq<Write>, b: seq<Write>)
    ensures PutAll(conf, a + b) == PutAll(PutAll(conf, a), b)
    decreases |a|
  {
    if a == [] {
      assert a + b == b;
    } else {
      assert (a + b)[1..] == a[1..] + b;
      PutAllConcat(conf[a[0].key := a[0].value], a[1..], b);
    }
  }

  /** An entry is either the last write made to its key, or untouched. */
  lemma {:induction false} PutAllEntry(conf: Conf, ws: seq<Write>, k: ConfKey)
    requires k in PutAll(conf, ws)
    ensures if k in WrittenKeys(ws) then Write(k, PutAll(conf, ws)[k]) in ws
            else k in conf && PutAll(conf, ws)[k] == conf[k]
    decreases |ws|
  {
    if ws != [] {
      assert ws == [ws[0]] + ws[1..];
      WrittenConcat([ws[0]], ws[1..]);
      assert WrittenKeys([ws[0]]) == {ws[0].key};
      PutAllEntry(conf[ws[0].key := ws[0].value], ws[1..], k);
    }
  }

  /** Configurations that agree on a key still do after the same writes. */
  lemma {:induction false} PutAllLocal(conf: Conf, conf': Conf, ws: seq<Write>, k: ConfKey)
    requires (k in conf <==> k in conf') && (k in conf ==> conf[k] == conf'[k])
    ensures var r, r' := PutAll(conf, ws), PutAll(conf', ws); (k in r <==> k in r') && (k in r ==> r[k] == r'[k])
    decreases |ws|
  {
    if ws != [] {
      PutAllLocal(conf[ws[0].key := ws[0].value], conf'[ws[0].key := ws[0].value], ws[1..], k);
    }
  }

  // ---- What every write satisfies ----

  function MiddlewareRefs(ms: seq<MiddlewareKey>): set<ConfKey> {
    set m | m in ms :: HTTPMiddleware(m)
  }

  /** What an entry refers to. */
  function Refs(k: ConfKey, v: ConfValue): set<ConfKey> {
    match k
    case HTTPRouter(_) => if v.Router? then {HTTPService(v.target)} + MiddlewareRefs(v.middlewares) else {}
    case StreamRouter(transport, _) => if v.StreamRoute? then {StreamService(transport, v.target)} else {}
    case HTTPService(_) => if v.Weighted? then set c | c in v.children :: HTTPService(c.0) else {}
    case StreamService(transport, _) => if v.Weighted? then set c | c in v.children :: StreamService(transport, c.0)
    else {}
    case HTTPMiddleware(_) => {}
  }

  /** Every entry only refers to entries. */
  ghost predicate Closed(conf: Conf) {
    forall k :: k in conf ==> Refs(k, conf[k]) <= conf.Keys
  }

  ghost predicate ClosedOver(ws: seq<Write>, base: set<ConfKey>) {
    forall w :: w in ws ==> Refs(w.key, w.value) <= base + WrittenKeys(ws)
  }

  function OwnerOfRouter(r: RouterKey): Option<Key> {
    if r.ReadinessRouter? then None else Some(r.owner)
  }

  function OwnerOfService(s: ServiceKey): Option<Key> {
    if s.ReadinessService? || s.BlockAllService? then None else Some(s.owner)
  }

  /** The service an entry is made for. */
  function OwnerOf(k: ConfKey): Option<Key> {
    match k
    case HTTPRouter(r) => OwnerOfRouter(r)
    case HTTPService(s) => OwnerOfService(s)
    case HTTPMiddleware(m) => if m.BlockAllMiddleware? then None else Some(m.owner)
    case StreamRouter(_, s) => OwnerOfService(s)
    case StreamService(_, s) => OwnerOfService(s)
  }

  ghost predicate Owned(ws: seq<Write>, s: Key) {
    forall w :: w in ws ==> OwnerOf(w.key) == Some(s)
  }

  predicate IsWhitelist(m: MiddlewareKey) {
    m.TargetDirectWhitelist? || m.TargetIndirectWhitelist? || m.SplitDirectWhitelist? || m.SplitIndirectWhitelist?
  }

  /** The whitelist that an HTTP router of the given key must carry; None for those that block everything. */
  function WhitelistOf(r: RouterKey): Option<MiddlewareKey> {
    match r
    case ReadinessRouter => None
    case PortRouter(_, _) => None
    case TargetDirectRouter(s, n, _) => Some(TargetDirectWhitelist(s, n))
    case TargetIndirectRouter(s, n, _) => Some(TargetIndirectWhitelist(s, n))
    case SplitDirectRouter(s, n, _) => Some(SplitDirectWhitelist(s, n))
    case SplitIndirectRouter(s, n, _) => Some(SplitIndirectWhitelist(s, n))
  }

  /** An HTTP router blocks everything, or carries its whitelist. */
  ghost predicate GuardedRouter(k: ConfKey, v: ConfValue) {
    k.HTTPRouter? && v.Router? && !k.router.ReadinessRouter? ==>
      match WhitelistOf(k.router)
      case None => v.middlewares == [BlockAllMiddleware] && v.target == BlockAllService
      case Some(m) => m in v.middlewares
  }

  ghost predicate AllGuarded(ws: seq<Write>) {
    forall w :: w in ws ==> GuardedRouter(w.key, w.value)
  }

  /** Values have the kind that their section asks for. */
  predicate WellKinded(k: ConfKey, v: ConfValue) {
    match k
    case HTTPRouter(_) => v.Router?
    case StreamRouter(_, _) => v.StreamRoute?
    case HTTPService(_) => v.Balancer? || v.Weighted?
    case StreamService(_, _) => v.Balancer? || v.Weighted?
    case HTTPMiddleware(m) => if IsWhitelist(m) || m.BlockAllMiddleware? then v.Whitelist? else v.Custom?
  }

  /** A whitelist holds the addresses of the sources of an attached target, or of the incoming pods of a split. */
  ghost predicate WhitelistExact(t: Topo, k: ConfKey, v: ConfValue) {
    k.HTTPMiddleware? ==>
      match k.middleware
      case TargetDirectWhitelist(s, n) => exists tk ::
        NamedTarget(t, s, n, tk) && v == TargetWhitelist(t, t.targets[tk], None)
      case TargetIndirectWhitelist(s, n) => exists tk ::
        NamedTarget(t, s, n, tk) && v == TargetWhitelist(t, t.targets[tk], Some(1))
      case SplitDirectWhitelist(s, n) => NamedSplit(t, s, n)
      && v == SplitWhitelist(t, t.splits[Key(n, s.namespace)], None)
      case SplitIndirectWhitelist(s, n) => NamedSplit(t, s, n)
      && v == SplitWhitelist(t, t.splits[Key(n, s.namespace)], Some(1))
      case _ => true
  }

  /** Target tk, called n, is attached to service s. */
  ghost predicate NamedTarget(t: Topo, s: Key, n: string, tk: TargetKey) {
    s in t.services && tk in t.services[s].trafficTargets && tk in t.targets && t.targets[tk].name == n
  }

  /** The split called n is attached to service s. */
  ghost predicate NamedSplit(t: Topo, s: Key, n: string) {
    s in t.services && Key(n, s.namespace) in t.services[s].trafficSplits && Key(n, s.namespace) in t.splits
  }

  /** All that the writes for service s satisfy, given what exists already. */
  ghost predicate Sound(env: Env, t: Topo, s: Key, base: set<ConfKey>, ws: seq<Write>) {
    && Owned(ws, s)
    && ClosedOver(ws, base)
    && (env.acl ==> AllGuarded(ws))
    && forall w :: w in ws ==> WellKinded(w.key, w.value) && WhitelistExact(t, w.key, w.value)
  }

  lemma SoundConcat(env: Env, t: Topo, s: Key, base: set<ConfKey>, a: seq<Write>, b: seq<Write>)
    requires Sound(env, t, s, base, a) && Sound(env, t, s, base + WrittenKeys(a), b)
    ensures Sound(env, t, s, base, a + b)
  {
    WrittenConcat(a, b);
    forall w | w in a + b
      ensures w in a || w in b
      ensures Refs(w.key, w.value) <= base + WrittenKeys(a + b)
    {
    }
  }

  lemma SoundMore(env: Env, t: Topo, s: Key, base: set<ConfKey>, more: set<ConfKey>, ws: seq<Write>)
    requires Sound(env, t, s, base, ws) && base <= more
    ensures Sound(env, t, s, more, ws)
  {
  }

  lemma SoundNothing(env: Env, t: Topo, s: Key, base: set<ConfKey>)
    ensures Sound(env, t, s, base, [])
  {
  }

  lemma SoundBoth(env: Env, t: Topo, s: Key, base: set<ConfKey>, a: seq<Write>, b: seq<Write>)
    requires Sound(env, t, s, base, a) && Sound(env, t, s, base, b)
    ensures Sound(env, t, s, base, a + b)
  {
    SoundMore(env, t, s, base, base + WrittenKeys(a), b);
    SoundConcat(env, t, s, base, a, b);
  }

  /** One write that refers to what exists. */
  lemma SoundOne(env: Env, t: Topo, s: Key, base: set<ConfKey>, w: Write)
    requires OwnerOf(w.key) == Some(s) && Refs(w.key, w.value) <= base
    requires WellKinded(w.key, w.value) && WhitelistExact(t, w.key, w.value)
             && (env.acl ==> GuardedRouter(w.key, w.value))
    ensures Sound(env, t, s, base, [w])
  {
  }

  /** A write followed by one that may refer to it. */
  lemma SoundPair(env: Env, t: Topo, s: Key, base: set<ConfKey>, w: Write, w': Write)
    requires OwnerOf(w.key) == Some(s) && Refs(w.key, w.value) <= base
    requires WellKinded(w.key, w.value) && WhitelistExact(t, w.key, w.value)
             && (env.acl ==> GuardedRouter(w.key, w.value))
    requires OwnerOf(w'.key) == Some(s) && Refs(w'.key, w'.value) <= base + {w.key}
    requires WellKinded(w'.key, w'.value) && WhitelistExact(t, w'.key, w'.value)
             && (env.acl ==> GuardedRouter(w'.key, w'.value))
    ensures Sound(env, t, s, base, [w, w'])
  {
    SoundOne(env, t, s, base, w);
    SoundOne(env, t, s, base + {w.key}, w');
    assert WrittenKeys([w]) == {w.key};
    SoundConcat(env, t, s, base, [w], [w']);
    assert [w] + [w'] == [w, w'];
  }

  // ---- Soundness of each group of writes ----

  ghost const BASE: set<ConfKey> := DEFAULT.Keys

  lemma {:induction false} HTTPServiceSound(env: Env, t: Topo, svc: Service, scheme: string,
          middlewares: seq<MiddlewareKey>, i: nat, base: set<ConfKey>)
    requires i <= |svc.ports| && !env.acl && MiddlewareRefs(middlewares) <= base
    ensures Sound(env, t, svc.OwnKey(), base, HTTPServiceWrites(env, t, svc, scheme, middlewares, i))
    decreases |svc.ports| - i
  {
    hide Sound, PodServers, ServiceRule, Priority;
    if i == |svc.ports| {
      SoundNothing(env, t, svc.OwnKey(), base);
    } else {
      HTTPServiceSound(env, t, svc, scheme, middlewares, i + 1, base);
      if HTTPEntryPoint(env, i).Some? {
        var sp := svc.ports[i];
        var w := Write(HTTPService(PortService(svc.OwnKey(), sp.port)),
                       Balancer(PodServers(env, t, svc.pods, scheme, sp), true));
        var w' := Write(HTTPRouter(PortRouter(svc.OwnKey(), sp.port)),
                        MakeRouter(ServiceRule(svc), HTTPEntryPoint(env, i).value, middlewares,
                                   PortService(svc.OwnKey(), sp.port), SERVICE_TIER));
        SoundPair(env, t, svc.OwnKey(), base, w, w');
        SoundBoth(env, t, svc.OwnKey(), base, [w, w'], HTTPServiceWrites(env, t, svc, scheme, middlewares, i + 1));
      } else {
        assert HTTPServiceWrites(env, t, svc, scheme, middlewares, i) ==
                 HTTPServiceWrites(env, t, svc, scheme, middlewares, i + 1);
      }
    }
  }

  lemma {:induction false} StreamServiceSound(env: Env, t: Topo, svc: Service, transport: Transport, i: nat,
          base: set<ConfKey>)
    requires i <= |svc.ports|
    ensures Sound(env, t, svc.OwnKey(), base, StreamServiceWrites(env, t, svc, transport, i))
    decreases |svc.ports| - i
  {
    hide Sound, PodServers, StreamEntryPoint;
    if i == |svc.ports| {
      SoundNothing(env, t, svc.OwnKey(), base);
    } else {
      StreamServiceSound(env, t, svc, transport, i + 1, base);
      var sp := svc.ports[i];
      if StreamEntryPoint(env, svc, transport, sp.port).Some? {
        var key := PortService(svc.OwnKey(), sp.port);
        var w, w' := Write(StreamService(transport, key), Balancer(PodServers(env, t, svc.pods, "", sp), false)),
                     Write(StreamRouter(transport, key),
                           StreamRoute([StreamEntryPoint(env, svc, transport, sp.port).value], key));
        SoundPair(env, t, svc.OwnKey(), base, w, w');
        SoundBoth(env, t, svc.OwnKey(), base, [w, w'], StreamServiceWrites(env, t, svc, transport, i + 1));
      } else {
        assert StreamServiceWrites(env, t, svc, transport, i) == StreamServiceWrites(env, t, svc, transport, i + 1);
      }
    }
  }

  lemma {:induction false} BlockAllSound(env: Env, t: Topo, svc: Service, i: nat, base: set<ConfKey>)
    requires i <= |svc.ports| && BASE <= base
    ensures Sound(env, t, svc.OwnKey(), base, BlockAllWrites(env, svc, i))
    decreases |svc.ports| - i
  {
    hide Sound, ServiceRule;
    if i == |svc.ports| {
      SoundNothing(env, t, svc.OwnKey(), base);
    } else {
      BlockAllSound(env, t, svc, i + 1, base);
      if HTTPEntryPoint(env, i).Some? {
        var w := Write(HTTPRouter(PortRouter(svc.OwnKey(), svc.ports[i].port)),
                       Router(ServiceRule(svc), [HTTPEntryPoint(env, i).value], [BlockAllMiddleware], BlockAllService,
                              BLOCK_ALL_PRIORITY));
        assert HTTPMiddleware(BlockAllMiddleware) in DEFAULT && HTTPService(BlockAllService) in DEFAULT;
        SoundOne(env, t, svc.OwnKey(), base, w);
        SoundBoth(env, t, svc.OwnKey(), base, [w], BlockAllWrites(env, svc, i + 1));
      } else {
        assert BlockAllWrites(env, svc, i) == BlockAllWrites(env, svc, i + 1);
      }
    }
  }

  lemma RefsOfRouter(rule: Rule, entry: EntryPoint, middlewares: seq<MiddlewareKey>, m: MiddlewareKey,
          target: ServiceKey, tier: int, k: ConfKey)
    requires k.HTTPRouter?
    ensures Refs(k, MakeRouter(rule, entry, middlewares + [m], target, tier)) ==
            {HTTPService(target), HTTPMiddleware(m)} + MiddlewareRefs(middlewares)
    ensures Refs(k, MakeRouter(rule, entry, middlewares, target, tier)) ==
              {HTTPService(target)} + MiddlewareRefs(middlewares)
  {
    assert MiddlewareRefs(middlewares + [m]) == MiddlewareRefs(middlewares) + {HTTPMiddleware(m)};
  }

  lemma HTTPTargetPortSound(env: Env, t: Topo, tk: TargetKey, svc: Service, scheme: string,
          middlewares: seq<MiddlewareKey>, sp: ServicePort, entry: EntryPoint, rule: Rule, base: set<ConfKey>)
    requires tk in t.targets && NamedTarget(t, t.targets[tk].service, t.targets[tk].name, tk)
             && MiddlewareRefs(middlewares) <= base
    requires HTTPMiddleware(TargetDirectWhitelist(t.targets[tk].service, t.targets[tk].name)) in base
    ensures Sound(env, t, t.targets[tk].service, base,
                  HTTPTargetPortWrites(env, t, t.targets[tk], svc, scheme, middlewares, sp, entry, rule))
  {
    hide Sound, PodServers, Priority, IndirectRule, Addresses;
    var tt := t.targets[tk];
    var s := tt.service;
    var target := TargetService(s, tt.name, sp.port);
    var direct, indirect := TargetDirectWhitelist(s, tt.name), TargetIndirectWhitelist(s, tt.name);
    var a := Write(HTTPService(target), Balancer(PodServers(env, t, tt.destination.pods, scheme, sp), true));
    var b := Write(HTTPRouter(TargetDirectRouter(s, tt.name, sp.port)),
                   MakeRouter(rule, entry, middlewares + [direct], target, TARGET_DIRECT_TIER));
    RefsOfRouter(rule, entry, middlewares, direct, target, TARGET_DIRECT_TIER, b.key);
    SoundPair(env, t, s, base, a, b);
    if svc.backendOf != [] {
      var c := Write(HTTPMiddleware(indirect), TargetWhitelist(t, tt, Some(1)));
      var d := Write(HTTPRouter(TargetIndirectRouter(s, tt.name, sp.port)),
                     MakeRouter(IndirectRule(svc, tt.rules), entry, middlewares + [indirect], target,
                                TARGET_INDIRECT_TIER));
      RefsOfRouter(IndirectRule(svc, tt.rules), entry, middlewares, indirect, target, TARGET_INDIRECT_TIER, d.key);
      assert a in [a, b];
      SoundPair(env, t, s, base + WrittenKeys([a, b]), c, d);
      SoundConcat(env, t, s, base, [a, b], [c, d]);
    } else {
      assert [a, b] + [] == [a, b];
    }
  }

  lemma {:induction false} HTTPTargetPortsSound(env: Env, t: Topo, tk: TargetKey, svc: Service, scheme: string,
          middlewares: seq<MiddlewareKey>, i: nat, rule: Rule, base: set<ConfKey>)
    requires tk in t.targets && NamedTarget(t, t.targets[tk].service, t.targets[tk].name, tk)
             && MiddlewareRefs(middlewares) <= base
    requires HTTPMiddleware(TargetDirectWhitelist(t.targets[tk].service, t.targets[tk].name)) in base
             && i <= |t.targets[tk].destination.ports|
    ensures Sound(env, t, t.targets[tk].service, base,
                  HTTPTargetPortsWrites(env, t, t.targets[tk], svc, scheme, middlewares, i, rule))
    decreases |t.targets[tk].destination.ports| - i
  {
    hide Sound, HTTPTargetPortWrites, NamedTarget, IndirectRule;
    var tt := t.targets[tk];
    if i == |tt.destination.ports| {
      SoundNothing(env, t, tt.service, base);
    } else if HTTPEntryPoint(env, i).None? {
      HTTPTargetPortsSound(env, t, tk, svc, scheme, middlewares, i + 1, rule, base);
    } else {
      var entry := HTTPEntryPoint(env, i).value;
      var rule' := if svc.backendOf == [] then rule else IndirectRule(svc, tt.rules);
      HTTPTargetPortSound(env, t, tk, svc, scheme, middlewares, tt.destination.ports[i], entry, rule, base);
      HTTPTargetPortsSound(env, t, tk, svc, scheme, middlewares, i + 1, rule', base);
      SoundBoth(env, t, tt.service, base,
                HTTPTargetPortWrites(env, t, tt, svc, scheme, middlewares, tt.destination.ports[i], entry, rule),
                HTTPTargetPortsWrites(env, t, tt, svc, scheme, middlewares, i + 1, rule'));
    }
  }

  lemma {:induction false} TCPTargetSound(env: Env, t: Topo, tt: Target, svc: Service, i: nat, base: set<ConfKey>)
    requires i <= |tt.destination.ports|
    ensures Sound(env, t, svc.OwnKey(), base, TCPTargetWrites(env, t, tt, svc, i))
    decreases |tt.destination.ports| - i
  {
    hide Sound, PodServers, StreamEntryPoint;
    if i == |tt.destination.ports| {
      SoundNothing(env, t, svc.OwnKey(), base);
    } else {
      TCPTargetSound(env, t, tt, svc, i + 1, base);
      var sp := tt.destination.ports[i];
      if StreamEntryPoint(env, svc, OverTCP, sp.port).Some? {
        var key := PortService(svc.OwnKey(), sp.port);
        var w, w' := Write(StreamService(OverTCP, key),
                           Balancer(PodServers(env, t, tt.destination.pods, "", sp), false)),
                     Write(StreamRouter(OverTCP, key),
                           StreamRoute([StreamEntryPoint(env, svc, OverTCP, sp.port).value], key));
        SoundPair(env, t, svc.OwnKey(), base, w, w');
        SoundBoth(env, t, svc.OwnKey(), base, [w, w'], TCPTargetWrites(env, t, tt, svc, i + 1));
      } else {
        assert TCPTargetWrites(env, t, tt, svc, i) == TCPTargetWrites(env, t, tt, svc, i + 1);
      }
    }
  }

  // ---- Topologies that the provider is given ----

  /** Links lead somewhere, and back to the service they sit on. Otherwise the provider runs into a nil pointer. */
  ghost predicate Ready(t: Topo) {
    forall s :: s in t.services ==>
      && t.services[s].OwnKey() == s
      && (forall tk :: tk in t.services[s].trafficTargets ==> tk in t.targets && t.targets[tk].service == s)
      && (forall k :: k in t.services[s].trafficSplits ==> SplitReady(t, s, k))
  }

  ghost predicate SplitReady(t: Topo, s: Key, k: Key) {
    && k in t.splits && t.splits[k].service == s && t.splits[k].OwnKey() == k && t.splits[k].namespace == s.namespace
    && s in t.services && k in t.services[s].trafficSplits
  }

  lemma TargetSound(env: Env, t: Topo, s: Key, tk: TargetKey, scheme: string, tt: TrafficType,
          middlewares: seq<MiddlewareKey>, base: set<ConfKey>)
    requires Ready(t) && s in t.services && tk in t.services[s].trafficTargets && MiddlewareRefs(middlewares) <= base
    ensures Sound(env, t, s, base, TargetWrites(env, t, tk, scheme, tt, middlewares))
  {
    hide Sound, HTTPTargetPortsWrites, TCPTargetWrites, HasTCPRoute, DirectRule, Addresses;
    var target := t.targets[tk];
    var svc := t.services[s];
    SoundNothing(env, t, s, base);
    match tt
    case HTTP =>
      var w := Write(HTTPMiddleware(TargetDirectWhitelist(s, target.name)), TargetWhitelist(t, target, None));
      assert NamedTarget(t, s, target.name, tk);
      SoundOne(env, t, s, base, w);
      assert WrittenKeys([w]) == {w.key};
      HTTPTargetPortsSound(env, t, tk, svc, scheme, middlewares, 0, DirectRule(svc, target.rules), base + {w.key});
      SoundConcat(env, t, s, base, [w],
                  HTTPTargetPortsWrites(env, t, target, svc, scheme, middlewares, 0, DirectRule(svc, target.rules)));
    case TCPType =>
      TCPTargetSound(env, t, target, svc, 0, base);
    case UDPType =>
    case Unknown =>
  }

  lemma {:induction false} TargetsSound(env: Env, t: Topo, s: Key, tks: seq<TargetKey>, scheme: string,
          tt: TrafficType, middlewares: seq<MiddlewareKey>, base: set<ConfKey>)
    requires Ready(t) && s in t.services && MiddlewareRefs(middlewares) <= base
    requires forall tk :: tk in tks ==> tk in t.services[s].trafficTargets
    ensures Sound(env, t, s, base, TargetsWrites(env, t, tks, scheme, tt, middlewares))
  {
    hide Sound, TargetWrites, Ready;
    if tks == [] {
      SoundNothing(env, t, s, base);
    } else {
      TargetSound(env, t, s, tks[0], scheme, tt, middlewares, base);
      TargetsSound(env, t, s, tks[1..], scheme, tt, middlewares, base);
      SoundBoth(env, t, s, base, TargetWrites(env, t, tks[0], scheme, tt, middlewares),
                TargetsWrites(env, t, tks[1..], scheme, tt, middlewares));
    }
  }

  // ---- Splits ----

  lemma {:induction false} HTTPBackendsSound(env: Env, t: Topo, ts: Split, scheme: string, port: Int32,
          bs: seq<Backend>, base: set<ConfKey>)
    ensures Sound(env, t, ts.service, base, HTTPBackendWrites(t, ts, scheme, port, bs))
    ensures BackendsKnown(t, bs) ==> forall i ::
              0 <= i < |bs| ==>
                HTTPService(BackendKey(ts, port, bs[i])) in WrittenKeys(HTTPBackendWrites(t, ts, scheme, port, bs))
  {
    hide Sound;
    if bs == [] || bs[0].service !in t.services {
      SoundNothing(env, t, ts.service, base);
    } else {
      var w := Write(HTTPService(BackendKey(ts, port, bs[0])),
                     Balancer([MeshServer(scheme, bs[0].service, port)], false));
      var rest := HTTPBackendWrites(t, ts, scheme, port, bs[1..]);
      HTTPBackendsSound(env, t, ts, scheme, port, bs[1..], base);
      SoundOne(env, t, ts.service, base, w);
      SoundBoth(env, t, ts.service, base, [w], rest);
      WrittenConcat([w], rest);
      assert w in [w];
      assert forall i :: 0 < i < |bs| ==> bs[i] == bs[1..][i - 1];
    }
  }

  lemma {:induction false} StreamBackendsSound(env: Env, t: Topo, ts: Split, transport: Transport, sp: ServicePort,
          bs: seq<Backend>, base: set<ConfKey>)
    ensures Sound(env, t, ts.service, base, StreamBackendWrites(ts, transport, sp, bs))
    ensures forall i ::
              0 <= i < |bs| ==>
                StreamService(transport,
                              BackendKey(ts, sp.port, bs[i])) in WrittenKeys(StreamBackendWrites(ts, transport, sp, bs))
  {
    hide Sound;
    if bs == [] {
      SoundNothing(env, t, ts.service, base);
    } else {
      var w := Write(StreamService(transport, BackendKey(ts, sp.port, bs[0])),
                     Balancer([MeshServer("", bs[0].service, sp.targetPort)], false));
      var rest := StreamBackendWrites(ts, transport, sp, bs[1..]);
      StreamBackendsSound(env, t, ts, transport, sp, bs[1..], base);
      SoundOne(env, t, ts.service, base, w);
      SoundBoth(env, t, ts.service, base, [w], rest);
      WrittenConcat([w], rest);
      assert w in [w];
      assert forall i :: 0 < i < |bs| ==> bs[i] == bs[1..][i - 1];
    }
  }

  /** The children of a weighted service are its backends. */
  lemma ChildrenRefs(ts: Split, port: Int32, bs: seq<Backend>, base: set<ConfKey>)
    ensures (forall i :: 0 <= i < |bs| ==> HTTPService(BackendKey(ts, port, bs[i])) in base) ==>
              forall k: ServiceKey :: Refs(HTTPService(k), Weighted(Children(ts, port, bs))) <= base
  {
  }

  lemma StreamChildrenRefs(ts: Split, transport: Transport, port: Int32, bs: seq<Backend>, base: set<ConfKey>)
    ensures (forall i :: 0 <= i < |bs| ==> StreamService(transport, BackendKey(ts, port, bs[i])) in base) ==>
              forall k: ServiceKey :: Refs(StreamService(transport, k), Weighted(Children(ts, port, bs))) <= base
  {
  }

  lemma HTTPSplitPortSound(env: Env, t: Topo, s: Key, k: Key, svc: Service, middlewares: seq<MiddlewareKey>,
          sp: ServicePort, entry: EntryPoint, rule: Rule, base: set<ConfKey>)
    requires SplitReady(t, s, k) && MiddlewareRefs(middlewares) <= base
    requires env.acl ==> HTTPMiddleware(SplitDirectWhitelist(s, t.splits[k].name)) in base
    requires forall i ::
               0 <= i < |t.splits[k].backends| ==>
                 HTTPService(BackendKey(t.splits[k], sp.port, t.splits[k].backends[i])) in base
    ensures Sound(env, t, s, base, HTTPSplitPortWrites(env, t, t.splits[k], svc, middlewares, sp, entry, rule))
  {
    hide Sound, Priority, IndirectRule, Addresses, Children, BackendKey, BackendsKnown;
    var ts := t.splits[k];
    var target := SplitService(s, ts.name, sp.port);
    var direct := SplitDirectWhitelist(s, ts.name);
    var a := Write(HTTPService(target), Weighted(Children(ts, sp.port, ts.backends)));
    var b := Write(HTTPRouter(SplitDirectRouter(s, ts.name, sp.port)),
                   MakeRouter(rule, entry, if env.acl then middlewares + [direct]
                   else middlewares, target, SPLIT_TIER));
    ChildrenRefs(ts, sp.port, ts.backends, base);
    RefsOfRouter(rule, entry, middlewares, direct, target, SPLIT_TIER, b.key);
    SoundPair(env, t, s, base, a, b);
    if svc.backendOf != [] && env.acl {
      var more := SplitIndirectWrites(t, ts, svc, middlewares, sp, entry);
      assert a in [a, b];
      SplitIndirectSound(env, t, s, k, svc, middlewares, sp, entry, base + WrittenKeys([a, b]));
      SoundConcat(env, t, s, base, [a, b], more);
    } else {
      assert [a, b] + [] == [a, b];
    }
  }

  lemma SplitIndirectSound(env: Env, t: Topo, s: Key, k: Key, svc: Service, middlewares: seq<MiddlewareKey>,
          sp: ServicePort, entry: EntryPoint, base: set<ConfKey>)
    requires SplitReady(t, s, k) && MiddlewareRefs(middlewares) <= base
    requires HTTPService(SplitService(s, t.splits[k].name, sp.port)) in base
    ensures Sound(env, t, s, base, SplitIndirectWrites(t, t.splits[k], svc, middlewares, sp, entry))
  {
    hide Sound, Priority, IndirectRule, Addresses;
    var ts := t.splits[k];
    var target, indirect := SplitService(s, ts.name, sp.port), SplitIndirectWhitelist(s, ts.name);
    var c := Write(HTTPMiddleware(indirect), SplitWhitelist(t, ts, Some(1)));
    var d := Write(HTTPRouter(SplitIndirectRouter(s, ts.name, sp.port)),
                   MakeRouter(IndirectRule(svc, ts.rules), entry, middlewares + [indirect], target,
                              TARGET_INDIRECT_TIER));
    RefsOfRouter(IndirectRule(svc, ts.rules), entry, middlewares, indirect, target, TARGET_INDIRECT_TIER, d.key);
    SoundPair(env, t, s, base, c, d);
  }

  lemma {:induction false} HTTPSplitPortsSound(env: Env, t: Topo, s: Key, k: Key, svc: Service, scheme: string,
          middlewares: seq<MiddlewareKey>, i: nat, rule: Rule, base: set<ConfKey>)
    requires SplitReady(t, s, k) && MiddlewareRefs(middlewares) <= base && i <= |svc.ports|
    requires env.acl ==> HTTPMiddleware(SplitDirectWhitelist(s, t.splits[k].name)) in base
    ensures Sound(env, t, s, base, HTTPSplitPortsWrites(env, t, t.splits[k], svc, scheme, middlewares, i, rule))
    decreases |svc.ports| - i
  {
    hide Sound, HTTPSplitPortWrites, HTTPBackendWrites, BackendsKnown, IndirectRule, BackendKey;
    var ts := t.splits[k];
    if i == |svc.ports| {
      SoundNothing(env, t, s, base);
    } else {
      var sp := svc.ports[i];
      var backends := HTTPBackendWrites(t, ts, scheme, sp.port, ts.backends);
      HTTPBackendsSound(env, t, ts, scheme, sp.port, ts.backends, base);
      if !BackendsKnown(t, ts.backends) || HTTPEntryPoint(env, i).None? {
        HTTPSplitPortsSound(env, t, s, k, svc, scheme, middlewares, i + 1, rule, base);
        SoundBoth(env, t, s, base, backends, HTTPSplitPortsWrites(env, t, ts, svc, scheme, middlewares, i + 1, rule));
      } else {
        var entry := HTTPEntryPoint(env, i).value;
        var rule' := if svc.backendOf == [] || !env.acl then rule else IndirectRule(svc, ts.rules);
        var here := HTTPSplitPortWrites(env, t, ts, svc, middlewares, sp, entry, rule);
        var rest := HTTPSplitPortsWrites(env, t, ts, svc, scheme, middlewares, i + 1, rule');
        HTTPSplitPortSound(env, t, s, k, svc, middlewares, sp, entry, rule, base + WrittenKeys(backends));
        HTTPSplitPortsSound(env, t, s, k, svc, scheme, middlewares, i + 1, rule', base + WrittenKeys(backends));
        SoundBoth(env, t, s, base + WrittenKeys(backends), here, rest);
        SoundConcat(env, t, s, base, backends, here + rest);
      }
    }
  }

  lemma {:induction false} StreamSplitSound(env: Env, t: Topo, ts: Split, svc: Service, transport: Transport, i: nat,
          base: set<ConfKey>)
    requires i <= |svc.ports| && ts.service == svc.OwnKey()
    ensures Sound(env, t, svc.OwnKey(), base, StreamSplitWrites(env, ts, svc, transport, i))
    decreases |svc.ports| - i
  {
    hide Sound, StreamBackendWrites, Children, StreamEntryPoint, BackendKey;
    var s := svc.OwnKey();
    if i == |svc.ports| {
      SoundNothing(env, t, s, base);
    } else {
      StreamSplitSound(env, t, ts, svc, transport, i + 1, base);
      var sp := svc.ports[i];
      if StreamEntryPoint(env, svc, transport, sp.port).Some? {
        var key := PortService(s, sp.port);
        var backends := StreamBackendWrites(ts, transport, sp, ts.backends);
        var w, w' := Write(StreamService(transport, key), Weighted(Children(ts, sp.port, ts.backends))),
                     Write(StreamRouter(transport, key),
                           StreamRoute([StreamEntryPoint(env, svc, transport, sp.port).value], key));
        StreamBackendsSound(env, t, ts, transport, sp, ts.backends, base);
        StreamChildrenRefs(ts, transport, sp.port, ts.backends, base + WrittenKeys(backends));
        SoundPair(env, t, s, base + WrittenKeys(backends), w, w');
        SoundConcat(env, t, s, base, backends, [w, w']);
        SoundBoth(env, t, s, base, backends + [w, w'], StreamSplitWrites(env, ts, svc, transport, i + 1));
      } else {
        assert StreamSplitWrites(env, ts, svc, transport, i) == StreamSplitWrites(env, ts, svc, transport, i + 1);
      }
    }
  }

  lemma SplitSound(env: Env, t: Topo, s: Key, k: Key, scheme: string, tt: TrafficType, middlewares: seq<MiddlewareKey>,
          base: set<ConfKey>)
    requires s in t.services && t.services[s].OwnKey() == s && SplitReady(t, s, k)
             && MiddlewareRefs(middlewares) <= base
    ensures Sound(env, t, s, base, SplitWrites(env, t, k, scheme, tt, middlewares))
  {
    hide Sound, HTTPSplitPortsWrites, StreamSplitWrites, DirectRule, Addresses;
    var ts, svc := t.splits[k], t.services[s];
    SoundNothing(env, t, s, base);
    match tt
    case HTTP =>
      var ws := HTTPSplitPortsWrites(env, t, ts, svc, scheme, middlewares, 0, DirectRule(svc, ts.rules));
      if env.acl {
        var w := Write(HTTPMiddleware(SplitDirectWhitelist(s, ts.name)), SplitWhitelist(t, ts, None));
        SoundOne(env, t, s, base, w);
        assert WrittenKeys([w]) == {w.key};
        HTTPSplitPortsSound(env, t, s, k, svc, scheme, middlewares, 0, DirectRule(svc, ts.rules), base + {w.key});
        SoundConcat(env, t, s, base, [w], ws);
      } else {
        HTTPSplitPortsSound(env, t, s, k, svc, scheme, middlewares, 0, DirectRule(svc, ts.rules), base);
        assert [] + ws == ws;
      }
    case TCPType => StreamSplitSound(env, t, ts, svc, OverTCP, 0, base);
    case UDPType => StreamSplitSound(env, t, ts, svc, OverUDP, 0, base);
    case Unknown =>
  }

  lemma {:induction false} SplitsSound(env: Env, t: Topo, s: Key, ks: seq<Key>, scheme: string, tt: TrafficType,
          middlewares: seq<MiddlewareKey>, base: set<ConfKey>)
    requires s in t.services && t.services[s].OwnKey() == s && MiddlewareRefs(middlewares) <= base
    requires forall k :: k in ks ==> SplitReady(t, s, k)
    ensures Sound(env, t, s, base, SplitsWrites(env, t, ks, scheme, tt, middlewares))
  {
    hide Sound, SplitWrites, SplitReady;
    if ks == [] {
      SoundNothing(env, t, s, base);
    } else {
      SplitSound(env, t, s, ks[0], scheme, tt, middlewares, base);
      SplitsSound(env, t, s, ks[1..], scheme, tt, middlewares, base);
      SoundBoth(env, t, s, base, SplitWrites(env, t, ks[0], scheme, tt, middlewares),
                SplitsWrites(env, t, ks[1..], scheme, tt, middlewares));
    }
  }

  // ---- One service ----

  lemma {:induction false} AnnotationsSound(env: Env, t: Topo, svc: Service, ms: seq<(string, string)>,
          base: set<ConfKey>)
    ensures Sound(env, t, svc.OwnKey(), base, AnnotationWrites(svc, ms))
    ensures MiddlewareRefs(AnnotationKeys(svc, ms)) <= WrittenKeys(AnnotationWrites(svc, ms))
  {
    hide Sound;
    if ms == [] {
      SoundNothing(env, t, svc.OwnKey(), base);
    } else {
      var w := Write(HTTPMiddleware(Annotated(svc.OwnKey(), ms[0].0)), Custom(ms[0].1));
      AnnotationsSound(env, t, svc, ms[1..], base);
      SoundOne(env, t, svc.OwnKey(), base, w);
      SoundBoth(env, t, svc.OwnKey(), base, [w], AnnotationWrites(svc, ms[1..]));
      WrittenConcat([w], AnnotationWrites(svc, ms[1..]));
      assert w in [w];
      assert AnnotationKeys(svc, ms) == [Annotated(svc.OwnKey(), ms[0].0)] + AnnotationKeys(svc, ms[1..]);
    }
  }

  lemma OwnSound(env: Env, t: Topo, s: Key, scheme: string, tt: TrafficType, middlewares: seq<MiddlewareKey>,
          base: set<ConfKey>)
    requires Ready(t) && s in t.services && MiddlewareRefs(middlewares) <= base && BASE <= base
    ensures Sound(env, t, s, base, OwnWrites(env, t, t.services[s], scheme, tt, middlewares))
  {
    hide Sound, HTTPServiceWrites, StreamServiceWrites, BlockAllWrites, TargetsWrites;
    var svc := t.services[s];
    SoundNothing(env, t, s, base);
    if env.acl {
      TargetsSound(env, t, s, svc.trafficTargets, scheme, tt, middlewares, base);
      BlockAllSound(env, t, svc, 0, base);
      SoundBoth(env, t, s, base, if tt == HTTP then BlockAllWrites(env, svc, 0)
      else [], TargetsWrites(env, t, svc.trafficTargets, scheme, tt, middlewares));
    } else {
      match tt
      case HTTP => HTTPServiceSound(env, t, svc, scheme, middlewares, 0, base);
      case TCPType => StreamServiceSound(env, t, svc, OverTCP, 0, base);
      case UDPType => StreamServiceSound(env, t, svc, OverUDP, 0, base);
      case Unknown =>
    }
  }

  /** Everything written for a service is its own, refers to what is there, and is guarded when ACL is on. */
  lemma ServiceSound(env: Env, t: Topo, s: Key)
    requires Ready(t) && s in t.services
    ensures Sound(env, t, s, BASE, ServiceWrites(env, t, t.services[s]))
  {
    hide Sound, OwnWrites, SplitsWrites, AnnotationWrites, AnnotationKeys;
    var svc := t.services[s];
    SoundNothing(env, t, s, BASE);
    if Evaluable(svc) {
      var tt, scheme := svc.annotations.trafficType.value, svc.annotations.scheme.value;
      var ms := Asked(svc);
      var keys := AnnotationKeys(svc, ms);
      var first := AnnotationWrites(svc, ms);
      var base := BASE + WrittenKeys(first);
      AnnotationsSound(env, t, svc, ms, BASE);
      OwnSound(env, t, s, scheme, tt, keys, base);
      var own := OwnWrites(env, t, svc, scheme, tt, keys);
      SoundConcat(env, t, s, BASE, first, own);
      WrittenConcat(first, own);
      var last := if !env.acl && tt == Unknown then [] else SplitsWrites(env, t, svc.trafficSplits, scheme, tt, keys);
      SoundNothing(env, t, s, BASE + WrittenKeys(first + own));
      SplitsSound(env, t, s, svc.trafficSplits, scheme, tt, keys, BASE + WrittenKeys(first + own));
      SoundConcat(env, t, s, BASE, first + own, last);
    }
  }
}
