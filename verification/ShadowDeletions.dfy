/** What a deletion takes away, and what it makes room for. */
module ShadowDeletions {
  import opened Basics
  import opened Topologies
  import opened ShadowNames
  import opened PortMappings
  import opened ShadowServices
  import opened ShadowTheorems
  import opened ShadowFailures
  import opened ShadowStored

  /**
   After a deletion the shadow service is gone and nothing is mapped to the service any more. All other shadow
   services and mappings are as before.
   */
  lemma DeletedExactly(cfg: Config, st: State, id: ServiceId)
    requires ValidConfig(cfg) && Parseable(id.namespace) && Backed(cfg, st)
    ensures var after, name := Apply(cfg, st, DeleteStep(id)), ShadowName(cfg.namespace, id);
            && name !in after.store
            && (forall other :: other != name ==> (other in after.store <==> other in st.store))
            && (forall other :: other in after.store ==> after.store[other] == st.store[other])
    ensures forall proto, q, m ::
              Holds(TableOf(Apply(cfg, st, DeleteStep(id)), proto), q, m) <==>
              Holds(TableOf(st, proto), q, m) && ServiceId(m.namespace, m.name) != id
  {
    hide IsStored, Removes, RemoveMappings, StoreSound;
    var name := ShadowName(cfg.namespace, id);
    var after := Apply(cfg, st, DeleteStep(id));
    if name in st.store {
      RemoveMappingsEffect(cfg, st, id, st.store[name], TCP, 0, MappedTo(id, 0));
    }
    forall proto, q, m
      ensures Holds(TableOf(after, proto), q, m) <==>
              Holds(TableOf(st, proto), q, m) && ServiceId(m.namespace, m.name) != id
    {
      MappingDeleted(cfg, st, id, proto, q, m);
    }
  }

  lemma MappingDeleted(cfg: Config, st: State, id: ServiceId, proto: Protocol, q: Int32, m: Mapped)
    requires ValidConfig(cfg) && Parseable(id.namespace) && Backed(cfg, st)
    ensures Holds(TableOf(Delete(cfg, st, id), proto), q, m) <==>
            Holds(TableOf(st, proto), q, m) && ServiceId(m.namespace, m.name) != id
  {
    hide StoreSound, RemoveMappings;
    if proto != SCTP {
      var name := ShadowName(cfg.namespace, id);
      if name in st.store {
        RemoveMappingsEffect(cfg, st, id, st.store[name], proto, q, m);
      }
      if Holds(TableOf(st, proto), q, m) && ServiceId(m.namespace, m.name) == id {
        assert IsStored(cfg, st.store, proto, q, m);
        AllRemoved(cfg, st, id, proto, q, m);
      }
    }
  }

  // ---- Room for others ----

  /** The ports of the range that are mapped to a service. */
  ghost function TakenBy(cfg: Config, table: Table, proto: Protocol, id: ServiceId): set<Int32> {
    set q: Int32 | Lo(cfg, proto) <= q <= Hi(cfg, proto) && q in table
                   && ServiceId(table[q].namespace, table[q].name) == id
  }

  /** A table without the mappings of a service has their ports free. */
  lemma WithoutService(cfg: Config, table: Table, after: Table, proto: Protocol, id: ServiceId)
    requires forall q, m :: Holds(after, q, m) <==> Holds(table, q, m) && ServiceId(m.namespace, m.name) != id
    ensures FreePorts(cfg, after, proto) == FreePorts(cfg, table, proto) + TakenBy(cfg, table, proto, id)
    ensures |FreePorts(cfg, after, proto)| == |FreePorts(cfg, table, proto)| + |TakenBy(cfg, table, proto, id)|
  {
    forall q
      ensures q in FreePorts(cfg, after, proto) <==>
              q in FreePorts(cfg, table, proto) || q in TakenBy(cfg, table, proto, id)
    {
      if q in table {
        assert Holds(table, q, table[q]);
      }
      if q in after {
        assert Holds(after, q, after[q]);
      }
    }
    assert FreePorts(cfg, table, proto) !! TakenBy(cfg, table, proto, id);
    DisjointSize(FreePorts(cfg, table, proto), TakenBy(cfg, table, proto, id));
  }

  lemma DisjointSize(a: set<Int32>, b: set<Int32>)
    requires a !! b
    ensures |a + b| == |a| + |b|
  {
  }

  /** The ports of a deleted service are free. */
  lemma DeletedPortsAreFree(cfg: Config, st: State, id: ServiceId, proto: Protocol)
    requires ValidConfig(cfg) && Parseable(id.namespace) && Backed(cfg, st)
    ensures var before, after := TableOf(st, proto), TableOf(Apply(cfg, st, DeleteStep(id)), proto);
            && FreePorts(cfg, after, proto) == FreePorts(cfg, before, proto) + TakenBy(cfg, before, proto, id)
            && TakenBy(cfg, after, proto, id) == {}
  {
    hide FreePorts, Backed, Apply;
    DeletedExactly(cfg, st, id);
    var after := TableOf(Apply(cfg, st, DeleteStep(id)), proto);
    WithoutService(cfg, TableOf(st, proto), after, proto, id);
    forall q
      ensures q !in TakenBy(cfg, after, proto, id)
    {
      if q in after {
        assert Holds(after, q, after[q]);
      }
    }
  }

  lemma {:induction false} WaitingAlike(table: Table, after: Table, id: ServiceId, tt: TrafficType,
          ports: seq<ServicePort>, i: nat, k: nat)
    requires i <= k <= |ports|
    requires forall port :: IsMapped(after, MappedTo(id, port)) <==> IsMapped(table, MappedTo(id, port))
    ensures Waiting(after, id, tt, ports, i, k) == Waiting(table, id, tt, ports, i, k)
    decreases k - i
  {
    hide IsMapped;
    if i < k {
      WaitingAlike(table, after, id, tt, ports, i + 1, k);
    }
  }

  /** What the first phase of a sync leaves of the tables, with and without a deletion before it. */
  lemma FreedAlike(cfg: Config, st: State, id: ServiceId, svc: UserService, proto: Protocol)
    requires Syncable(cfg, svc) && svc.trafficType.Some? && Parseable(id.namespace) && Backed(cfg, st) && svc.id != id
             && proto != SCTP
    ensures var before := TableOf(PhasesOf(cfg, st, svc).freed, proto);
            var after := TableOf(PhasesOf(cfg, Apply(cfg, st, DeleteStep(id)), svc).freed, proto);
            && (forall q, m :: Holds(after, q, m) <==> Holds(before, q, m) && ServiceId(m.namespace, m.name) != id)
            && TakenBy(cfg, before, proto, id) == TakenBy(cfg, TableOf(st, proto), proto, id)
  {
    hide Backed, Apply, RemoveMappings, Unused, Allocate;
    DeletedExactly(cfg, st, id);
    OthersKeepName(cfg, id, MappedTo(svc.id, 0));
    var st' := Apply(cfg, st, DeleteStep(id));
    var unused := Unused(ShadowPorts(cfg, st.store, svc.id), svc.ports);
    assert ShadowPorts(cfg, st'.store, svc.id) == ShadowPorts(cfg, st.store, svc.id);
    var before, after := TableOf(PhasesOf(cfg, st, svc).freed, proto), TableOf(PhasesOf(cfg, st', svc).freed, proto);
    forall q, m
      ensures Holds(after, q, m) <==> Holds(before, q, m) && ServiceId(m.namespace, m.name) != id
    {
      RemoveMappingsEffect(cfg, st, svc.id, unused, proto, q, m);
      RemoveMappingsEffect(cfg, st', svc.id, unused, proto, q, m);
    }
    forall q
      ensures q in TakenBy(cfg, before, proto, id) <==> q in TakenBy(cfg, TableOf(st, proto), proto, id)
    {
      TakenAlike(cfg, st, svc, id, unused, proto, q);
    }
  }

  lemma TakenAlike(cfg: Config, st: State, svc: UserService, id: ServiceId, sps: seq<ServicePort>, proto: Protocol,
          q: Int32)
    requires svc.id != id && proto != SCTP
    ensures q in TakenBy(cfg, TableOf(RemoveMappings(cfg, st, svc.id, sps), proto), proto, id) <==>
            q in TakenBy(cfg, TableOf(st, proto), proto, id)
  {
    hide RemoveMappings;
    var before, after := TableOf(st, proto), TableOf(RemoveMappings(cfg, st, svc.id, sps), proto);
    if q in before {
      RemoveMappingsEffect(cfg, st, svc.id, sps, proto, q, before[q]);
    }
    if q in after {
      RemoveMappingsEffect(cfg, st, svc.id, sps, proto, q, after[q]);
    }
  }

  /**
   So a deletion makes room: when another service is synced next, one of its TCP or UDP ports that has to be given a
   target gets one exactly when fewer suitable ports before it wait than ports are free together with those that the
   deleted service had.
   */
  lemma DeletionMakesRoom(cfg: Config, st: State, id: ServiceId, svc: UserService, k: nat)
    requires Syncable(cfg, svc) && svc.trafficType.Some? && svc.trafficType.value != HTTP && k < |svc.ports|
             && Suitable(svc.trafficType.value, svc.ports[k])
    requires Parseable(id.namespace) && Backed(cfg, st) && svc.id != id
    ensures var freed, sp := PhasesOf(cfg, st, svc).freed, svc.ports[k];
            var table := TableOf(freed, sp.protocol);
            ContainsPort(ShadowPorts(cfg, Sync(cfg, Apply(cfg, st, DeleteStep(id)), svc).store, svc.id), sp) <==>
            IsMapped(table, MappedTo(svc.id, sp.port))
            || Waiting(table, svc.id, svc.trafficType.value, svc.ports, 0, k) <
                 |FreePorts(cfg, table, sp.protocol)| + |TakenBy(cfg, TableOf(st, sp.protocol), sp.protocol, id)|
  {
    hide Backed, Apply, Sync, PhasesOf, FreePorts, TakenBy, Waiting, ShadowPorts;
    var st', sp := Apply(cfg, st, DeleteStep(id)), svc.ports[k];
    var before := TableOf(PhasesOf(cfg, st, svc).freed, sp.protocol);
    var after := TableOf(PhasesOf(cfg, st', svc).freed, sp.protocol);
    FreedAlike(cfg, st, id, svc, sp.protocol);
    WithoutService(cfg, before, after, sp.protocol, id);
    forall port
      ensures IsMapped(after, MappedTo(svc.id, port)) <==> IsMapped(before, MappedTo(svc.id, port))
    {
      MappedAlike(before, after, id, MappedTo(svc.id, port));
    }
    WaitingAlike(before, after, svc.id, svc.trafficType.value, svc.ports, 0, k);
    ServedExactly(cfg, st', svc, k);
  }

  lemma MappedAlike(before: Table, after: Table, id: ServiceId, m: Mapped)
    requires ServiceId(m.namespace, m.name) != id
    requires forall q, m' :: Holds(after, q, m') <==> Holds(before, q, m') && ServiceId(m'.namespace, m'.name) != id
    ensures IsMapped(after, m) <==> IsMapped(before, m)
  {
    if q :| Holds(before, q, m) {
      assert Holds(after, q, m);
    }
    if q :| Holds(after, q, m) {
      assert Holds(before, q, m);
    }
  }
}
