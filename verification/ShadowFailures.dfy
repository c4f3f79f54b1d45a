/** Runs in which some syncs stop on an invalid traffic type. */
module ShadowFailures {
  import opened Basics
  import opened Topologies
  import opened ShadowNames
  import opened PortMappings
  import opened ShadowServices
  import opened ShadowTheorems

  // ---- What survives ----

  /** A stored port of another service is not affected when the shadow service of svc is replaced. */
  lemma OthersStayStored(cfg: Config, store: Store, id: ServiceId, ports: seq<ServicePort>, proto: Protocol, q: Int32,
          m: Mapped)
    requires Parseable(id.namespace) && ServiceId(m.namespace, m.name) != id && IsStored(cfg, store, proto, q, m)
    ensures IsStored(cfg, store[ShadowName(cfg.namespace, id) := ports], proto, q, m)
    ensures IsStored(cfg, store - {ShadowName(cfg.namespace, id)}, proto, q, m)
  {
    OthersKeepName(cfg, id, m);
  }

  /** Every sync, also one that fails, leaves nothing in the tables that no shadow service has. */
  lemma SyncKeepsBacked(cfg: Config, st: State, svc: UserService)
    requires Syncable(cfg, svc) && Backed(cfg, st)
    ensures Backed(cfg, Sync(cfg, st, svc))
  {
    hide IsStored, Allocate, Unused, Outdated;
    var st' := Sync(cfg, st, svc);
    var unused := Unused(ShadowPorts(cfg, st.store, svc.id), svc.ports);
    if svc.trafficType.None? {
      forall proto, q, m | Holds(TableOf(st', proto), q, m)
        ensures IsStored(cfg, st'.store, proto, q, m)
      {
        RemoveMappingsEffect(cfg, st, svc.id, unused, proto, q, m);
      }
      RemoveMappingsEffect(cfg, st, svc.id, unused, TCP, 0, MappedTo(svc.id, 0));
    } else {
      var ph := PhasesOf(cfg, st, svc);
      SyncIs(cfg, st, svc);
      ParseExact(cfg.namespace, svc.id);
      NewPortsSound(cfg, st, svc);
      forall proto, q, m | Holds(TableOf(st', proto), q, m)
        ensures IsStored(cfg, st'.store, proto, q, m)
      {
        if ServiceId(m.namespace, m.name) == svc.id {
          SurvivorHasPort(cfg, st, svc, proto, q, m);
          NewIsStored(cfg, st, svc, proto, q, m);
        } else {
          SyncFrame(cfg, st, svc, proto, q, m);
          OthersStayStored(cfg, st.store, svc.id, ph.ports, proto, q, m);
        }
      }
    }
  }

  lemma NewIsStored(cfg: Config, st: State, svc: UserService, proto: Protocol, q: Int32, m: Mapped)
    requires Syncable(cfg, svc) && svc.trafficType.Some? && ServiceId(m.namespace, m.name) == svc.id
    requires InRange(cfg, proto, q) && HasPort(PhasesOf(cfg, st, svc).ports, m.port, proto, q)
    ensures IsStored(cfg, Sync(cfg, st, svc).store, proto, q, m)
  {
    hide Allocate, Unused, Outdated, RemoveMappings;
    SyncIs(cfg, st, svc);
  }

  lemma DeleteKeepsBacked(cfg: Config, st: State, id: ServiceId)
    requires ValidConfig(cfg) && Parseable(id.namespace) && Backed(cfg, st)
    ensures Backed(cfg, Delete(cfg, st, id))
  {
    hide IsStored;
    var name := ShadowName(cfg.namespace, id);
    if name in st.store {
      var st' := Delete(cfg, st, id);
      RemoveMappingsEffect(cfg, st, id, st.store[name], TCP, 0, MappedTo(id, 0));
      forall proto, q, m | Holds(TableOf(st', proto), q, m)
        ensures IsStored(cfg, st'.store, proto, q, m)
      {
        RemoveMappingsEffect(cfg, st, id, st.store[name], proto, q, m);
        if ServiceId(m.namespace, m.name) == id {
          AllRemoved(cfg, st, id, proto, q, m);
        } else {
          OthersStayStored(cfg, st.store, id, [], proto, q, m);
        }
      }
    }
  }

  lemma AllRemoved(cfg: Config, st: State, id: ServiceId, proto: Protocol, q: Int32, m: Mapped)
    requires ValidConfig(cfg) && proto != SCTP && ServiceId(m.namespace, m.name) == id
             && IsStored(cfg, st.store, proto, q, m)
    ensures Removes(cfg, id, ShadowPorts(cfg, st.store, id), proto, m)
  {
  }

  lemma ReadOffIsStored(cfg: Config, store: Store, proto: Protocol, q: Int32, m: Mapped)
    requires ValidConfig(cfg) && proto != SCTP && StoreSound(cfg, store) && ReadOff(cfg, store, proto, q, m)
    ensures IsStored(cfg, store, proto, q, m)
  {
    var name: string, i: nat :| ReadFrom(cfg, store, proto, q, m, name, i);
    assert name in store;
    assert NameSound(cfg, name) && PortsSound(cfg, store[name]) && PortPlaced(cfg, store[name][i]);
    assert HasPort(store[name], m.port, proto, q);
  }

  lemma RestartKeepsBacked(cfg: Config, st: State, listing: ShadowListing)
    requires ValidConfig(cfg) && Backed(cfg, st) && Lists(listing, st.store)
    ensures Backed(cfg, Restart(cfg, st, listing))
  {
    hide ReadOff, IsStored, LoadShadows;
    var st' := Restart(cfg, st, listing);
    LoadedTable(cfg, st.store, TCP, listing);
    LoadedTable(cfg, st.store, UDP, listing);
    forall proto, q, m | Holds(TableOf(st', proto), q, m)
      ensures IsStored(cfg, st'.store, proto, q, m)
    {
      ReadOffIsStored(cfg, st.store, proto, q, m);
    }
  }

  /**
   Over every run, with or without syncs that fail: whatever is mapped is a port of a stored shadow service, and
   no service port is mapped twice.
   */
  lemma {:induction false} RunKeepsBacked(cfg: Config, st: State, steps: seq<Step>)
    requires ValidConfig(cfg) && Backed(cfg, st) && PossibleRun(cfg, st, steps)
    ensures Backed(cfg, Run(cfg, st, steps))
    ensures Injective(Run(cfg, st, steps).tcp) && Injective(Run(cfg, st, steps).udp)
    decreases |steps|
  {
    hide Backed, Injective;
    if steps == [] {
      BackedIsInjective(cfg, st, TCP);
      BackedIsInjective(cfg, st, UDP);
    } else {
      StepKeepsBacked(cfg, st, steps[0]);
      RunKeepsBacked(cfg, Apply(cfg, st, steps[0]), steps[1..]);
    }
  }

  lemma StepKeepsBacked(cfg: Config, st: State, step: Step)
    requires ValidConfig(cfg) && Backed(cfg, st) && PossibleStep(cfg, st, step)
    ensures Backed(cfg, Apply(cfg, st, step))
  {
    hide Backed;
    match step
    case SyncStep(svc) => SyncKeepsBacked(cfg, st, svc);
    case DeleteStep(id) => DeleteKeepsBacked(cfg, st, id);
    case RestartStep(listing) => RestartKeepsBacked(cfg, st, listing);
  }

  // ---- What a restart repairs ----

  /** No two stored ports share a target in the range of a table. */
  ghost predicate Unshared(cfg: Config, store: Store) {
    forall proto, a, i: nat, b, j: nat :: SameTarget(cfg, store, proto, a, i, b, j) ==> a == b && i == j
  }

  ghost predicate SameTarget(cfg: Config, store: Store, proto: Protocol, a: string, i: nat, b: string, j: nat) {
    && proto != SCTP && Targets(cfg, store, proto, a, i) && Targets(cfg, store, proto, b, j)
    && store[a][i].targetPort == store[b][j].targetPort
  }

  ghost predicate Targets(cfg: Config, store: Store, proto: Protocol, name: string, i: nat) {
    name in store && i < |store[name]| && InRange(cfg, proto, store[name][i].targetPort)
  }

  /**
   A restart brings tables and shadow services back into agreement, whatever happened to the tables before,
   exactly when no two stored ports share a target.
   */
  lemma RestartRepairsExactly(cfg: Config, st: State, listing: ShadowListing)
    requires ValidConfig(cfg) && StoreSound(cfg, st.store) && Lists(listing, st.store)
    ensures Consistent(cfg, Restart(cfg, st, listing)) <==> Unshared(cfg, st.store)
  {
    hide Agrees, LoadShadows, SameTarget;
    var st' := Restart(cfg, st, listing);
    if Unshared(cfg, st.store) {
      forall proto, q, m
        ensures Agrees(cfg, st', proto, q, m)
      {
        if proto == SCTP {
          NoRange(cfg, st', q, m);
        } else {
          LoadedAgrees(cfg, st, listing, proto, q, m);
        }
      }
    }
    if Consistent(cfg, st') {
      forall proto, a, i: nat, b, j: nat | SameTarget(cfg, st.store, proto, a, i, b, j)
        ensures a == b && i == j
      {
        ConsistentUnshared(cfg, st', proto, a, i, b, j);
      }
    }
  }

  lemma NoRange(cfg: Config, st: State, q: Int32, m: Mapped)
    ensures Agrees(cfg, st, SCTP, q, m)
  {
  }

  lemma ConsistentUnshared(cfg: Config, st: State, proto: Protocol, a: string, i: nat, b: string, j: nat)
    requires ValidConfig(cfg) && Consistent(cfg, st) && SameTarget(cfg, st.store, proto, a, i, b, j)
    ensures a == b && i == j
  {
    StoredIsMapped(cfg, st, proto, a, i);
    StoredIsMapped(cfg, st, proto, b, j);
    assert NameSound(cfg, a) && NameSound(cfg, b);
    assert PortsSound(cfg, st.store[a]) && PortPlaced(cfg, st.store[a][i]) && PortPlaced(cfg, st.store[a][j]);
  }

  lemma LoadedAgrees(cfg: Config, st: State, listing: ShadowListing, proto: Protocol, q: Int32, m: Mapped)
    requires ValidConfig(cfg) && StoreSound(cfg, st.store) && Lists(listing, st.store) && Unshared(cfg, st.store)
             && proto != SCTP
    ensures Agrees(cfg, Restart(cfg, st, listing), proto, q, m)
  {
    hide LoadShadows, ReadOff;
    var table := TableOf(Restart(cfg, st, listing), proto);
    LoadedTable(cfg, st.store, proto, listing);
    if Holds(table, q, m) {
      ReadOffIsStored(cfg, st.store, proto, q, m);
    }
    if IsStored(cfg, st.store, proto, q, m) {
      StoredIsLoaded(cfg, st, table, proto, q, m);
    }
  }

  lemma StoredIsLoaded(cfg: Config, st: State, table: Table, proto: Protocol, q: Int32, m: Mapped)
    requires ValidConfig(cfg) && StoreSound(cfg, st.store) && Unshared(cfg, st.store) && proto != SCTP
    requires AllReadOff(cfg, st.store, proto, table) && IsStored(cfg, st.store, proto, q, m)
    requires forall name, i ::
               name in st.store && 0 <= i < |st.store[name]| && InRange(cfg, proto, st.store[name][i].targetPort) ==>
               st.store[name][i].targetPort in table
    ensures Holds(table, q, m)
  {
    var id := ServiceId(m.namespace, m.name);
    var name := ShadowName(cfg.namespace, id);
    ParseExact(cfg.namespace, id);
    var ports := st.store[name];
    var i :| 0 <= i < |ports| && ports[i].port == m.port && ports[i].protocol == proto && ports[i].targetPort == q;
    assert q in table && ReadOff(cfg, st.store, proto, q, table[q]);
    var name', i' :| ReadFrom(cfg, st.store, proto, q, table[q], name', i');
    assert SameTarget(cfg, st.store, proto, name, i, name', i');
  }

  // ---- What goes wrong ----

  /** A TCP service with one port. */
  function OnePort(id: ServiceId, sp: ServicePort): UserService {
    UserService(id, Some(TCPType), [sp])
  }

  /** The first sync of a TCP service with one port. */
  lemma FirstSync(cfg: Config, st: State, id: ServiceId, sp: ServicePort, q: Int32)
    requires ValidConfig(cfg) && sp.protocol == TCP && ShadowName(cfg.namespace, id) !in st.store
    requires forall r :: !Holds(st.tcp, r, MappedTo(id, sp.port))
    requires NextFree(st.tcp, cfg.minTCP, cfg.maxTCP) == Some(q)
    ensures Sync(cfg, st, OnePort(id, sp)) ==
            State(st.tcp[q := MappedTo(id, sp.port)], st.udp,
                  st.store[ShadowName(cfg.namespace, id) := [sp.(targetPort := q)]])
  {
    var svc := OnePort(id, sp);
    OneAllocated(cfg, st, id, sp, q);
    assert ShadowPorts(cfg, st.store, id) == [] && Unused([], svc.ports) == []
           && Outdated([], [sp.(targetPort := q)]) == [];
  }

  lemma OneAllocated(cfg: Config, st: State, id: ServiceId, sp: ServicePort, q: Int32)
    requires ValidConfig(cfg) && sp.protocol == TCP && NextFree(st.tcp, cfg.minTCP, cfg.maxTCP) == Some(q)
    requires forall r :: !Holds(st.tcp, r, MappedTo(id, sp.port))
    ensures Allocate(cfg, st, id, TCPType, [sp], 0, []) ==
              ([sp.(targetPort := q)], st.(tcp := st.tcp[q := MappedTo(id, sp.port)]))
  {
    FindPortExact(st.tcp, MappedTo(id, sp.port));
    var st' := st.(tcp := st.tcp[q := MappedTo(id, sp.port)]);
    assert TargetPort(cfg, st, id, TCPType, 0, sp.port) == (Some(q), st');
    assert Allocate(cfg, st', id, TCPType, [sp], 1, [sp.(targetPort := q)]) == ([sp.(targetPort := q)], st');
    assert [] + [sp.(targetPort := q)] == [sp.(targetPort := q)];
  }

  /** A sync of the same service that stops on its traffic type, once its port is gone. */
  lemma FailedSync(cfg: Config, st: State, id: ServiceId, sp: ServicePort)
    requires ValidConfig(cfg) && sp.protocol == TCP && sp.targetPort > cfg.maxHTTP
    requires ShadowName(cfg.namespace, id) in st.store && st.store[ShadowName(cfg.namespace, id)] == [sp]
    ensures Sync(cfg, st, UserService(id, None, [])) == st.(tcp := Dropped(st.tcp, MappedTo(id, sp.port)))
  {
    assert Unused([sp], []) == [sp];
    assert RemoveMappings(cfg, st, id, [sp]) == RemoveMapping(cfg, st, id, sp);
  }

  /**
   After a sync that fails, another service may be given the target that was freed, although a shadow service
   still points to it. Both then share the target.
   */
  lemma TargetShared(cfg: Config, a: ServiceId, b: ServiceId, sp: ServicePort)
    requires ValidConfig(cfg) && cfg.minTCP <= cfg.maxTCP && a != b && Parseable(a.namespace) && Parseable(b.namespace)
             && sp.protocol == TCP
    ensures var steps := [SyncStep(OnePort(a, sp)), SyncStep(UserService(a, None, [])), SyncStep(OnePort(b, sp))];
            var st := Run(cfg, EMPTY, steps);
            && PossibleRun(cfg, EMPTY, steps)
            && ShadowName(cfg.namespace, a) != ShadowName(cfg.namespace, b)
            && st.store ==
                 map[ShadowName(cfg.namespace, a) := [sp.(targetPort := cfg.minTCP)],
                     ShadowName(cfg.namespace, b) := [sp.(targetPort := cfg.minTCP)]]
            && st.tcp == map[cfg.minTCP := MappedTo(b, sp.port)]
  {
    hide Sync, PossibleStep;
    var one, two, three := SyncStep(OnePort(a, sp)), SyncStep(UserService(a, None, [])), SyncStep(OnePort(b, sp));
    NamesDiffer(cfg, a, b);
    PossibleSyncs(cfg, a, b, sp);
    FirstSync(cfg, EMPTY, a, sp, cfg.minTCP);
    var st1 := Sync(cfg, EMPTY, OnePort(a, sp));
    FailedSync(cfg, st1, a, sp.(targetPort := cfg.minTCP));
    var st2 := Sync(cfg, st1, UserService(a, None, []));
    assert st2.tcp == map[];
    FirstSync(cfg, st2, b, sp, cfg.minTCP);
    RunOfThree(cfg, EMPTY, one, two, three);
  }

  lemma NamesDiffer(cfg: Config, a: ServiceId, b: ServiceId)
    requires a != b && Parseable(a.namespace) && Parseable(b.namespace)
    ensures ShadowName(cfg.namespace, a) != ShadowName(cfg.namespace, b)
  {
    if ShadowName(cfg.namespace, a) == ShadowName(cfg.namespace, b) {
      ShadowNameInjective(cfg.namespace, a, b);
    }
  }

  lemma PossibleSyncs(cfg: Config, a: ServiceId, b: ServiceId, sp: ServicePort)
    requires ValidConfig(cfg) && Parseable(a.namespace) && Parseable(b.namespace)
    ensures forall st ::
              PossibleStep(cfg, st, SyncStep(OnePort(a, sp)))
              && PossibleStep(cfg, st, SyncStep(UserService(a, None, [])))
                         && PossibleStep(cfg, st, SyncStep(OnePort(b, sp)))
  {
  }

  lemma RunOfThree(cfg: Config, st: State, one: Step, two: Step, three: Step)
    requires ValidConfig(cfg)
    ensures Run(cfg, st, [one, two, three]) == Apply(cfg, Apply(cfg, Apply(cfg, st, one), two), three)
    ensures PossibleStep(cfg, st, one) && PossibleStep(cfg, Apply(cfg, st, one), two)
            && PossibleStep(cfg, Apply(cfg, Apply(cfg, st, one), two), three)
            ==> PossibleRun(cfg, st, [one, two, three])
  {
    hide Apply, PossibleStep;
    assert [one, two, three][1..] == [two, three] && [two, three][1..] == [three] && [three][1..] == [];
    var st1 := Apply(cfg, st, one);
    var st2 := Apply(cfg, st1, two);
    assert Run(cfg, st2, [three]) == Apply(cfg, st2, three);
    assert Run(cfg, st1, [two, three]) == Run(cfg, st2, [three]);
    if PossibleStep(cfg, st, one) && PossibleStep(cfg, st1, two) && PossibleStep(cfg, st2, three) {
      assert PossibleRun(cfg, Apply(cfg, st2, three), []);
      assert PossibleRun(cfg, st2, [three]);
      assert PossibleRun(cfg, st1, [two, three]);
    }
  }

  /**
   Nor does the next valid sync of the service repair it. When the freed target has gone to another service, the
   port is given a new one, and the cleanup of the old target then drops the new mapping: tables and shadow
   services still differ, and the new target is free to be given out again.
   */
  lemma NotRepaired(cfg: Config, a: ServiceId, b: ServiceId, sp: ServicePort)
    requires ValidConfig(cfg) && cfg.minTCP < cfg.maxTCP && a != b && Parseable(a.namespace) && Parseable(b.namespace)
             && sp.protocol == TCP
    ensures var st := Run(cfg, EMPTY,
                          [SyncStep(OnePort(a, sp)), SyncStep(UserService(a, None, [])), SyncStep(OnePort(b, sp))]);
            var st' := Sync(cfg, st, OnePort(a, sp));
            && ShadowPorts(cfg, st'.store, a) == [sp.(targetPort := cfg.minTCP + 1)]
            && st'.tcp == map[cfg.minTCP := MappedTo(b, sp.port)]
            && !Consistent(cfg, st')
  {
    hide Run, Consistent;
    var st := Run(cfg, EMPTY, [SyncStep(OnePort(a, sp)), SyncStep(UserService(a, None, [])), SyncStep(OnePort(b, sp))]);
    TargetShared(cfg, a, b, sp);
    var m, q := MappedTo(a, sp.port), cfg.minTCP + 1;
    var before, after := sp.(targetPort := cfg.minTCP), sp.(targetPort := q);
    assert LeastFree(st.tcp, q, cfg.maxTCP) == Some(q);
    OneAllocated(cfg, st, a, sp, q);
    var filled := st.(tcp := st.tcp[q := m]);
    assert Unused([before], [sp]) == [] by {
      assert ContainsPort([sp], [before][0]);
    }
    assert Outdated([before], [after]) == [before];
    assert RemoveMappings(cfg, filled, a, [before]) == RemoveMapping(cfg, filled, a, before);
    assert Dropped(filled.tcp, m) == map[cfg.minTCP := MappedTo(b, sp.port)];
    Disagreement(cfg, Sync(cfg, st, OnePort(a, sp)), a, after);
  }

  lemma Disagreement(cfg: Config, st: State, id: ServiceId, sp: ServicePort)
    requires Parseable(id.namespace) && ShadowPorts(cfg, st.store, id) == [sp] && sp.protocol == TCP
             && InRange(cfg, TCP, sp.targetPort)
    requires !Holds(st.tcp, sp.targetPort, MappedTo(id, sp.port))
    ensures !Consistent(cfg, st)
  {
    assert [sp][0] == sp && HasPort([sp], sp.port, TCP, sp.targetPort);
    assert !Agrees(cfg, st, TCP, sp.targetPort, MappedTo(id, sp.port));
  }
}
