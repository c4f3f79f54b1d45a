/** The configuration as a whole: which entry each key ends up with, and what follows. */
module ConfigResult {
  import opened Basics
  import opened Topologies
  import opened Rules
  import opened RulePriority
  import opened ConfigWrites
  import opened ConfigTheorems

  function Entry(conf: Conf, k: ConfKey): Option<ConfValue> {
    if k in conf then Some(conf[k]) else None
  }

  /** The entry of key k once the services of done are evaluated: only the service it is made for has a say. */
  ghost function Expected(env: Env, t: Topo, done: set<Key>, k: ConfKey): Option<ConfValue>
    requires done <= t.services.Keys
  {
    var owner := OwnerOf(k);
    if owner.Some? && owner.value in done then Entry(PutAll(DEFAULT, ServiceWrites(env, t, t.services[owner.value])), k)
    else Entry(DEFAULT, k)
  }

  ghost predicate BuiltSoFar(env: Env, t: Topo, done: set<Key>, conf: Conf)
    requires done <= t.services.Keys
  {
    forall k :: Entry(conf, k) == Expected(env, t, done, k)
  }

  /** The configuration of topology t. It does not depend on the order in which services are evaluated. */
  ghost predicate ConfigOf(env: Env, t: Topo, conf: Conf) {
    BuiltSoFar(env, t, t.services.Keys, conf)
  }

  lemma DefaultHasNoOwner(k: ConfKey)
    requires k in DEFAULT
    ensures OwnerOf(k).None?
  {
  }

  lemma NothingBuilt(env: Env, t: Topo)
    ensures BuiltSoFar(env, t, {}, DEFAULT)
  {
  }

  /** Evaluating one more service. */
  lemma OneMoreBuilt(env: Env, t: Topo, done: set<Key>, conf: Conf, s: Key)
    requires Ready(t) && done <= t.services.Keys && BuiltSoFar(env, t, done, conf) && s in t.services && s !in done
    ensures BuiltSoFar(env, t, done + {s}, PutAll(conf, ServiceWrites(env, t, t.services[s])))
  {
    hide ServiceWrites, Ready, ClosedOver, AllGuarded, WhitelistExact, WellKinded;
    var ws := ServiceWrites(env, t, t.services[s]);
    ServiceSound(env, t, s);
    forall k
      ensures Entry(PutAll(conf, ws), k) == Expected(env, t, done + {s}, k)
    {
      assert Entry(conf, k) == Expected(env, t, done, k);
      if OwnerOf(k) == Some(s) {
        PutAllLocal(conf, DEFAULT, ws, k);
      } else {
        PutAllKeys(conf, ws);
        assert k !in WrittenKeys(ws);
        if k in conf {
          PutAllEntry(conf, ws, k);
        }
      }
    }
  }

  /** Every topology that is ready has a configuration. */
  lemma ConfigExists(env: Env, t: Topo) returns (conf: Conf)
    requires Ready(t)
    ensures ConfigOf(env, t, conf)
  {
    hide ServiceWrites, Ready, BuiltSoFar;
    conf := DEFAULT;
    NothingBuilt(env, t);
    var done: set<Key> := {};
    while done != t.services.Keys
      invariant done <= t.services.Keys && BuiltSoFar(env, t, done, conf)
      decreases t.services.Keys - done
    {
      assert done == t.services.Keys || exists s :: s in t.services && s !in done;
      var s :| s in t.services && s !in done;
      OneMoreBuilt(env, t, done, conf, s);
      conf := PutAll(conf, ServiceWrites(env, t, t.services[s]));
      done := done + {s};
    }
  }

  /** A topology has one configuration. */
  lemma ConfigUnique(env: Env, t: Topo, a: Conf, b: Conf)
    requires ConfigOf(env, t, a) && ConfigOf(env, t, b)
    ensures a == b
  {
    hide Expected;
    forall k
      ensures (k in a <==> k in b) && (k in a ==> a[k] == b[k])
    {
      assert Entry(a, k) == Expected(env, t, t.services.Keys, k) == Entry(b, k);
    }
  }

  /** Where an entry comes from: the default configuration, or a write for its owner. */
  lemma EntryOrigin(env: Env, t: Topo, conf: Conf, k: ConfKey)
    requires Ready(t) && ConfigOf(env, t, conf) && k in conf
    ensures if OwnerOf(k).None? then k in DEFAULT && conf[k] == DEFAULT[k]
            else
              && OwnerOf(k).value in t.services
              && Write(k, conf[k]) in ServiceWrites(env, t, t.services[OwnerOf(k).value])
  {
    hide ServiceWrites, Ready;
    assert Entry(conf, k) == Expected(env, t, t.services.Keys, k);
    if k in DEFAULT {
      DefaultHasNoOwner(k);
    }
    if OwnerOf(k).Some? && OwnerOf(k).value in t.services {
      PutAllEntry(DEFAULT, ServiceWrites(env, t, t.services[OwnerOf(k).value]), k);
    }
  }

  /** What every configuration holds, whatever the topology: nobody overwrites it, and nothing else has no owner. */
  lemma FixedEntries(env: Env, t: Topo, conf: Conf)
    requires ConfigOf(env, t, conf)
    ensures Entry(conf, HTTPRouter(ReadinessRouter)) ==
              Some(Router([Atom(Path("/ping"))], [Readiness], [], ReadinessService, 0))
    ensures Entry(conf, HTTPService(ReadinessService)) == Some(Balancer([Local("http://127.0.0.1:8080")], true))
    ensures Entry(conf, HTTPService(BlockAllService)) == Some(Balancer([], false))
    ensures Entry(conf, HTTPMiddleware(BlockAllMiddleware)) == Some(Whitelist(["255.255.255.255"], None))
    ensures forall k :: k in conf && OwnerOf(k).None? ==>
              k == HTTPRouter(ReadinessRouter) || k == HTTPService(ReadinessService)
              || k == HTTPService(BlockAllService) || k == HTTPMiddleware(BlockAllMiddleware)
  {
    hide ServiceWrites;
    forall k | OwnerOf(k).None?
      ensures Entry(conf, k) == Entry(DEFAULT, k)
    {
      ExpectedDefault(env, t, k);
      assert Entry(conf, k) == Expected(env, t, t.services.Keys, k);
    }
  }

  /** Every key written for a service is in the configuration, and so are the default ones. */
  lemma KeysPresent(env: Env, t: Topo, conf: Conf)
    requires Ready(t) && ConfigOf(env, t, conf)
    ensures BASE <= conf.Keys
    ensures forall s :: s in t.services ==> WrittenKeys(ServiceWrites(env, t, t.services[s])) <= conf.Keys
  {
    hide ServiceWrites, Ready, ClosedOver, AllGuarded, WhitelistExact, WellKinded, Expected;
    forall k | k in DEFAULT
      ensures k in conf
    {
      DefaultHasNoOwner(k);
      assert Entry(conf, k) == Expected(env, t, t.services.Keys, k);
      ExpectedDefault(env, t, k);
    }
    forall s, k | s in t.services && k in WrittenKeys(ServiceWrites(env, t, t.services[s]))
      ensures k in conf
    {
      ServiceSound(env, t, s);
      assert OwnerOf(k) == Some(s);
      assert Entry(conf, k) == Expected(env, t, t.services.Keys, k);
      ExpectedOwned(env, t, s, k);
    }
  }

  lemma ExpectedDefault(env: Env, t: Topo, k: ConfKey)
    requires OwnerOf(k).None?
    ensures Expected(env, t, t.services.Keys, k) == Entry(DEFAULT, k)
  {
  }

  lemma ExpectedOwned(env: Env, t: Topo, s: Key, k: ConfKey)
    requires s in t.services && OwnerOf(k) == Some(s) && k in WrittenKeys(ServiceWrites(env, t, t.services[s]))
    ensures Expected(env, t, t.services.Keys, k).Some?
  {
    PutAllKeys(DEFAULT, ServiceWrites(env, t, t.services[s]));
  }

  /**
   The configuration is closed: across HTTP, TCP and UDP, the service and the middlewares of every router
   exist, and so do the children of every weighted service.
   */
  lemma ConfigClosed(env: Env, t: Topo, conf: Conf)
    requires Ready(t) && ConfigOf(env, t, conf)
    ensures Closed(conf)
  {
    hide ServiceWrites, Ready, ConfigOf, Refs, OwnerOf, AllGuarded, WhitelistExact, WellKinded;
    KeysPresent(env, t, conf);
    forall k | k in conf
      ensures Refs(k, conf[k]) <= conf.Keys
    {
      EntryOrigin(env, t, conf, k);
      if OwnerOf(k).None? {
        DefaultClosed(k);
      } else {
        ServiceSound(env, t, OwnerOf(k).value);
        var w := Write(k, conf[k]);
        assert Refs(w.key, w.value) <= BASE + WrittenKeys(ServiceWrites(env, t, t.services[OwnerOf(k).value]));
      }
    }
  }

  lemma DefaultClosed(k: ConfKey)
    requires k in DEFAULT
    ensures Refs(k, DEFAULT[k]) <= BASE
  {
    assert HTTPService(ReadinessService) in DEFAULT;
  }

  /** Every entry has the kind its section asks for, and whitelists hold what they should. */
  lemma EntrySound(env: Env, t: Topo, conf: Conf, k: ConfKey)
    requires Ready(t) && ConfigOf(env, t, conf) && k in conf && OwnerOf(k).Some?
    ensures WellKinded(k, conf[k]) && WhitelistExact(t, k, conf[k]) && (env.acl ==> GuardedRouter(k, conf[k]))
    ensures OwnerOf(k).value in t.services
  {
    hide ServiceWrites, Ready, ConfigOf, ClosedOver, WellKinded, WhitelistExact, GuardedRouter;
    EntryOrigin(env, t, conf, k);
    ServiceSound(env, t, OwnerOf(k).value);
    var w := Write(k, conf[k]);
    assert w in ServiceWrites(env, t, t.services[OwnerOf(k).value]);
    assert WellKinded(w.key, w.value) && WhitelistExact(t, w.key, w.value)
           && (env.acl ==> GuardedRouter(w.key, w.value));
  }

  /**
   With ACL on, every HTTP router other than readiness lets nobody through, or carries its whitelist, and
   that whitelist exists and holds the addresses of the right pods.
   */
  lemma EveryRouterGuarded(env: Env, t: Topo, conf: Conf, r: RouterKey)
    requires env.acl && Ready(t) && ConfigOf(env, t, conf) && HTTPRouter(r) in conf && !r.ReadinessRouter?
    ensures conf[HTTPRouter(r)].Router?
    ensures var router := conf[HTTPRouter(r)];
            match WhitelistOf(r)
            case None =>
              && router.middlewares == [BlockAllMiddleware] && router.target == BlockAllService
              && HTTPMiddleware(BlockAllMiddleware) in conf
              && conf[HTTPMiddleware(BlockAllMiddleware)] == Whitelist(["255.255.255.255"], None)
            case Some(m) =>
              && m in router.middlewares && HTTPMiddleware(m) in conf
              && conf[HTTPMiddleware(m)].Whitelist? && WhitelistExact(t, HTTPMiddleware(m), conf[HTTPMiddleware(m)])
  {
    hide ConfigOf, Ready, WhitelistExact;
    var k := HTTPRouter(r);
    EntrySound(env, t, conf, k);
    ConfigClosed(env, t, conf);
    assert Refs(k, conf[k]) <= conf.Keys;
    match WhitelistOf(r)
    case None =>
      KeysPresent(env, t, conf);
      var b := HTTPMiddleware(BlockAllMiddleware);
      assert b in DEFAULT && b in conf;
      EntryOrigin(env, t, conf, b);
    case Some(m) =>
      assert HTTPMiddleware(m) in Refs(k, conf[k]);
      EntrySound(env, t, conf, HTTPMiddleware(m));
  }

  lemma {:induction false} AddressesMembers(t: Topo, pods: seq<Key>)
    ensures forall ip :: ip in Addresses(t, pods) <==> exists p :: p in pods && p in t.pods && t.pods[p].ip == ip
  {
    if pods != [] {
      AddressesMembers(t, pods[1..]);
      assert pods == [pods[0]] + pods[1..];
    }
  }

  /** The servers of pods listed one after the other follow one after the other, each pod with its own. */
  lemma {:induction false} PodServersConcat(env: Env, t: Topo, a: seq<Key>, b: seq<Key>, scheme: string,
          sp: ServicePort)
    ensures PodServers(env, t, a + b, scheme, sp) ==
              PodServers(env, t, a, scheme, sp) + PodServers(env, t, b, scheme, sp)
  {
    if a == [] {
      assert a + b == b;
    } else {
      assert (a + b)[1..] == a[1..] + b;
      PodServersConcat(env, t, a[1..], b, scheme, sp);
    }
  }

  /** So do their addresses. */
  lemma {:induction false} AddressesConcat(t: Topo, a: seq<Key>, b: seq<Key>)
    ensures Addresses(t, a + b) == Addresses(t, a) + Addresses(t, b)
  {
    if a == [] {
      assert a + b == b;
    } else {
      assert (a + b)[1..] == a[1..] + b;
      AddressesConcat(t, a[1..], b);
    }
  }

  /** The servers behind a port are those of the given pods that are known and resolve it, and no others. */
  lemma {:induction false} PodServersExact(env: Env, t: Topo, pods: seq<Key>, scheme: string, sp: ServicePort)
    ensures forall server :: server in PodServers(env, t, pods, scheme, sp) <==>
              exists p :: p in pods && p in t.pods && env.resolve(sp, t.pods[p]).Some?
                          && server == PodServer(scheme, t.pods[p].ip, env.resolve(sp, t.pods[p]).value)
  {
    if pods != [] {
      PodServersExact(env, t, pods[1..], scheme, sp);
      assert pods == [pods[0]] + pods[1..];
    }
  }
}
