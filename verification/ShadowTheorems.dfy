/** Tables and shadow services stay in agreement over every run, and a restart rebuilds the tables. */
module ShadowTheorems {
  import opened Basics
  import opened Topologies
  import opened ShadowNames
  import opened PortMappings
  import opened ShadowServices

  // ---- Allocation ----

  predicate Tabled(tt: TrafficType, proto: Protocol) {
    (tt == TCPType && proto == TCP) || (tt == UDPType && proto == UDP)
  }

  lemma FindPortExact(table: Table, m: Mapped)
    ensures FindPort(table, m).Some? ==> Holds(table, FindPort(table, m).value, m)
    ensures FindPort(table, m).None? ==> forall q :: !Holds(table, q, m)
    ensures Injective(table) ==> forall q :: Holds(table, q, m) ==> FindPort(table, m) == Some(q)
  {
  }

  /** Allocation leaves the store and the other table alone. */
  lemma {:induction false} AllocateFrame(cfg: Config, st: State, id: ServiceId, tt: TrafficType,
          ports: seq<ServicePort>, i: nat, acc: seq<ServicePort>, proto: Protocol)
    requires ValidConfig(cfg) && i <= |ports|
    ensures Allocate(cfg, st, id, tt, ports, i, acc).1.store == st.store
    ensures !Tabled(tt, proto) ==> TableOf(Allocate(cfg, st, id, tt, ports, i, acc).1, proto) == TableOf(st, proto)
    ensures acc <= Allocate(cfg, st, id, tt, ports, i, acc).0
    decreases |ports| - i
  {
    if i < |ports| {
      if !Suitable(tt, ports[i]) {
        AllocateFrame(cfg, st, id, tt, ports, i + 1, acc, proto);
      } else {
        var r := TargetPort(cfg, st, id, tt, i, ports[i].port);
        AllocateFrame(cfg, r.1, id, tt, ports, i + 1, if r.0.Some? then acc + [ports[i].(targetPort := r.0.value)]
        else acc, proto);
      }
    }
  }

  /** What is mapped stays mapped; a new mapping is for a new shadow port of id. */
  lemma {:induction false} AllocateExtends(cfg: Config, st: State, id: ServiceId, tt: TrafficType,
          ports: seq<ServicePort>, i: nat, acc: seq<ServicePort>, proto: Protocol, q: Int32, m: Mapped)
    requires ValidConfig(cfg) && i <= |ports| && Tabled(tt, proto)
    ensures var r := Allocate(cfg, st, id, tt, ports, i, acc);
            && (Holds(TableOf(st, proto), q, m) ==> Holds(TableOf(r.1, proto), q, m))
            && (Holds(TableOf(r.1, proto), q, m) && !Holds(TableOf(st, proto), q, m) ==>
                  m == MappedTo(id, m.port) && InRange(cfg, proto, q) && HasPort(r.0, m.port, proto, q))
    decreases |ports| - i
  {
    if i < |ports| {
      if !Suitable(tt, ports[i]) {
        AllocateExtends(cfg, st, id, tt, ports, i + 1, acc, proto, q, m);
      } else {
        var m0 := MappedTo(id, ports[i].port);
        FindPortExact(TableOf(st, proto), m0);
        var (target, st') := TargetPort(cfg, st, id, tt, i, ports[i].port);
        var acc' := if target.Some? then acc + [ports[i].(targetPort := target.value)] else acc;
        AllocateExtends(cfg, st', id, tt, ports, i + 1, acc', proto, q, m);
        AllocateFrame(cfg, st', id, tt, ports, i + 1, acc', proto);
        if target.Some? && q == target.value {
          var r := Allocate(cfg, st', id, tt, ports, i + 1, acc');
          assert r.0[|acc|] == acc'[|acc|];
        }
      }
    }
  }

  /** The port is one of those from index i on. */
  ghost predicate From(ports: seq<ServicePort>, i: nat, sp: ServicePort) {
    exists k :: i <= k < |ports| && ports[k].port == sp.port && ports[k].protocol == sp.protocol
  }

  /** What allocation appends: ports of the service, mapped to their targets. */
  lemma {:induction false} AllocateAppends(cfg: Config, st: State, id: ServiceId, tt: TrafficType,
          ports: seq<ServicePort>, i: nat, acc: seq<ServicePort>, j: nat)
    requires ValidConfig(cfg) && i <= |ports| && |acc| <= j < |Allocate(cfg, st, id, tt, ports, i, acc).0|
    ensures var r := Allocate(cfg, st, id, tt, ports, i, acc);
            && From(ports, i, r.0[j]) && Suitable(tt, r.0[j])
            && (tt == HTTP ==> r.0[j].targetPort <= cfg.maxHTTP)
            && forall proto ::
                 Tabled(tt, proto) ==> Holds(TableOf(r.1, proto), r.0[j].targetPort, MappedTo(id, r.0[j].port))
    decreases |ports| - i
  {
    if !Suitable(tt, ports[i]) {
      AllocateAppends(cfg, st, id, tt, ports, i + 1, acc, j);
    } else {
      var (target, st') := TargetPort(cfg, st, id, tt, i, ports[i].port);
      var acc' := if target.Some? then acc + [ports[i].(targetPort := target.value)] else acc;
      var r := Allocate(cfg, st', id, tt, ports, i + 1, acc');
      if target.Some? && j == |acc| {
        forall proto | Tabled(tt, proto)
          ensures Holds(TableOf(r.1, proto), target.value, MappedTo(id, ports[i].port))
        {
          FindPortExact(TableOf(st, proto), MappedTo(id, ports[i].port));
          AllocateExtends(cfg, st', id, tt, ports, i + 1, acc', proto, target.value, MappedTo(id, ports[i].port));
        }
        AllocateFrame(cfg, st', id, tt, ports, i + 1, acc', TCP);
        assert r.0[j] == acc'[j];
      } else {
        AllocateAppends(cfg, st', id, tt, ports, i + 1, acc', j);
      }
    }
  }

  lemma {:induction false} AllocateInjective(cfg: Config, st: State, id: ServiceId, tt: TrafficType,
          ports: seq<ServicePort>, i: nat, acc: seq<ServicePort>, proto: Protocol)
    requires ValidConfig(cfg) && i <= |ports| && Tabled(tt, proto) && Injective(TableOf(st, proto))
    ensures Injective(TableOf(Allocate(cfg, st, id, tt, ports, i, acc).1, proto))
    decreases |ports| - i
  {
    if i < |ports| {
      if !Suitable(tt, ports[i]) {
        AllocateInjective(cfg, st, id, tt, ports, i + 1, acc, proto);
      } else {
        var m := MappedTo(id, ports[i].port);
        var table := TableOf(st, proto);
        FindPortExact(table, m);
        assert FindPort(table, m).None? ==> forall q :: q in table ==> !Holds(table, q, m);
        var (target, st') := TargetPort(cfg, st, id, tt, i, ports[i].port);
        var acc' := if target.Some? then acc + [ports[i].(targetPort := target.value)] else acc;
        AllocateInjective(cfg, st', id, tt, ports, i + 1, acc', proto);
      }
    }
  }

  /** No port is listed twice when the service does not list one twice. */
  lemma {:induction false} AllocateUnique(cfg: Config, st: State, id: ServiceId, tt: TrafficType,
          ports: seq<ServicePort>, i: nat, acc: seq<ServicePort>)
    requires ValidConfig(cfg) && i <= |ports| && UniquePorts(ports) && UniquePorts(acc)
    requires forall j :: 0 <= j < |acc| ==> !From(ports, i, acc[j])
    ensures UniquePorts(Allocate(cfg, st, id, tt, ports, i, acc).0)
    decreases |ports| - i
  {
    if i < |ports| {
      forall j | 0 <= j < |acc|
        ensures !From(ports, i + 1, acc[j])
        ensures !(acc[j].port == ports[i].port && acc[j].protocol == ports[i].protocol)
      {
        assert From(ports, i + 1, acc[j]) ==> From(ports, i, acc[j]);
      }
      if !Suitable(tt, ports[i]) {
        AllocateUnique(cfg, st, id, tt, ports, i + 1, acc);
      } else {
        var (target, st') := TargetPort(cfg, st, id, tt, i, ports[i].port);
        var acc' := if target.Some? then acc + [ports[i].(targetPort := target.value)] else acc;
        AllocateUnique(cfg, st', id, tt, ports, i + 1, acc');
      }
    }
  }

  /** A port of the service that is already mapped keeps its target. */
  lemma {:induction false} AllocateReuses(cfg: Config, st: State, id: ServiceId, tt: TrafficType,
          ports: seq<ServicePort>, i: nat, acc: seq<ServicePort>, proto: Protocol, k: nat, q: Int32)
    requires ValidConfig(cfg) && i <= k < |ports| && Tabled(tt, proto) && ports[k].protocol == proto
    requires Injective(TableOf(st, proto)) && Holds(TableOf(st, proto), q, MappedTo(id, ports[k].port))
    ensures HasPort(Allocate(cfg, st, id, tt, ports, i, acc).0, ports[k].port, proto, q)
    decreases |ports| - i
  {
    if !Suitable(tt, ports[i]) {
      AllocateReuses(cfg, st, id, tt, ports, i + 1, acc, proto, k, q);
    } else {
      var m := MappedTo(id, ports[i].port);
      FindPortExact(TableOf(st, proto), m);
      assert forall r :: r in TableOf(st, proto) && TableOf(st, proto)[r] == m ==> Holds(TableOf(st, proto), r, m);
      var (target, st') := TargetPort(cfg, st, id, tt, i, ports[i].port);
      var acc' := if target.Some? then acc + [ports[i].(targetPort := target.value)] else acc;
      if i == k {
        AllocateFrame(cfg, st', id, tt, ports, i + 1, acc', proto);
        assert Allocate(cfg, st', id, tt, ports, i + 1, acc').0[|acc|] == acc'[|acc|];
      } else {
        AllocateReuses(cfg, st', id, tt, ports, i + 1, acc', proto, k, q);
      }
    }
  }

  // ---- Sync ----

  /** What a sync that reaches its end goes through. */
  datatype Phases = Phases(current: seq<ServicePort>, freed: State, ports: seq<ServicePort>, filled: State)

  ghost function PhasesOf(cfg: Config, st: State, svc: UserService): Phases
    requires ValidConfig(cfg) && svc.trafficType.Some?
  {
    var current := ShadowPorts(cfg, st.store, svc.id);
    var freed := RemoveMappings(cfg, st, svc.id, Unused(current, svc.ports));
    var (ports, filled) := Allocate(cfg, freed, svc.id, svc.trafficType.value, svc.ports, 0, []);
    Phases(current, freed, ports, filled)
  }

  /** What the steps of a run ask of a service. */
  ghost predicate Syncable(cfg: Config, svc: UserService) {
    ValidConfig(cfg) && Parseable(svc.id.namespace) && UniquePorts(svc.ports)
  }

  lemma OthersKeepName(cfg: Config, id: ServiceId, m: Mapped)
    requires Parseable(id.namespace) && Parseable(m.namespace) && ServiceId(m.namespace, m.name) != id
    ensures ShadowName(cfg.namespace, ServiceId(m.namespace, m.name)) != ShadowName(cfg.namespace, id)
  {
    if ShadowName(cfg.namespace, ServiceId(m.namespace, m.name)) == ShadowName(cfg.namespace, id) {
      ShadowNameInjective(cfg.namespace, ServiceId(m.namespace, m.name), id);
    }
  }

  lemma SyncIs(cfg: Config, st: State, svc: UserService)
    requires ValidConfig(cfg) && svc.trafficType.Some?
    ensures var ph := PhasesOf(cfg, st, svc);
            Sync(cfg, st, svc) == RemoveMappings(cfg, ph.filled, svc.id, Outdated(ph.current, ph.ports)).(
                                  store := st.store[ShadowName(cfg.namespace, svc.id) := ph.ports])
  {
  }

  /** No mapping of another service is touched. */
  lemma SyncFrame(cfg: Config, st: State, svc: UserService, proto: Protocol, q: Int32, m: Mapped)
    requires ValidConfig(cfg) && proto != SCTP && ServiceId(m.namespace, m.name) != svc.id
    ensures Holds(TableOf(Sync(cfg, st, svc), proto), q, m) <==> Holds(TableOf(st, proto), q, m)
  {
    var current := ShadowPorts(cfg, st.store, svc.id);
    RemoveMappingsEffect(cfg, st, svc.id, Unused(current, svc.ports), proto, q, m);
    if svc.trafficType.Some? {
      var ph := PhasesOf(cfg, st, svc);
      SyncIs(cfg, st, svc);
      var tt := svc.trafficType.value;
      AllocateFrame(cfg, ph.freed, svc.id, tt, svc.ports, 0, [], proto);
      if Tabled(tt, proto) {
        AllocateExtends(cfg, ph.freed, svc.id, tt, svc.ports, 0, [], proto, q, m);
      }
      RemoveMappingsEffect(cfg, ph.filled, svc.id, Outdated(ph.current, ph.ports), proto, q, m);
    }
  }

  /** Removing mappings keeps a table injective. */
  lemma RemoveMappingsInjective(cfg: Config, st: State, id: ServiceId, sps: seq<ServicePort>, proto: Protocol)
    requires proto != SCTP && Injective(TableOf(st, proto))
    ensures Injective(TableOf(RemoveMappings(cfg, st, id, sps), proto))
  {
    var table, less := TableOf(st, proto), TableOf(RemoveMappings(cfg, st, id, sps), proto);
    forall q, r | q in less && r in less && less[q] == less[r]
      ensures q == r
    {
      RemoveMappingsEffect(cfg, st, id, sps, proto, q, less[q]);
      RemoveMappingsEffect(cfg, st, id, sps, proto, r, less[r]);
      assert Holds(less, q, less[q]) && Holds(less, r, less[r]);
      assert Holds(table, q, less[q]) && Holds(table, r, less[q]);
    }
  }

  lemma OutdatedRemoves(cfg: Config, id: ServiceId, current: seq<ServicePort>, ports: seq<ServicePort>, sp: ServicePort)
    requires sp in current && NeedsCleanup(ports, sp) && sp.targetPort > cfg.maxHTTP
    ensures Removes(cfg, id, Outdated(current, ports), sp.protocol, MappedTo(id, sp.port))
  {
    OutdatedMembers(current, ports);
    var j :| 0 <= j < |Outdated(current, ports)| && Outdated(current, ports)[j] == sp;
  }

  /** A mapping that was there before and survives the cleanup is that of a new shadow port. */
  lemma OldSurvivorHasPort(cfg: Config, st: State, svc: UserService, proto: Protocol, q: Int32, m: Mapped)
    requires Syncable(cfg, svc) && svc.trafficType.Some? && Backed(cfg, st) && proto != SCTP
    requires ServiceId(m.namespace, m.name) == svc.id && Holds(TableOf(st, proto), q, m)
    requires var ph := PhasesOf(cfg, st, svc); !Removes(cfg, svc.id, Outdated(ph.current, ph.ports), proto, m)
    ensures InRange(cfg, proto, q) && HasPort(PhasesOf(cfg, st, svc).ports, m.port, proto, q)
  {
    hide RemoveMappings, Allocate, Unused;
    var ph := PhasesOf(cfg, st, svc);
    assert IsStored(cfg, st.store, proto, q, m);
    var i :| 0 <= i < |ph.current| && ph.current[i].port == m.port && ph.current[i].protocol == proto
        && ph.current[i].targetPort == q;
    if NeedsCleanup(ph.ports, ph.current[i]) {
      OutdatedRemoves(cfg, svc.id, ph.current, ph.ports, ph.current[i]);
    }
  }

  /** A mapping that survives a sync is that of a new shadow port. */
  lemma SurvivorHasPort(cfg: Config, st: State, svc: UserService, proto: Protocol, q: Int32, m: Mapped)
    requires Syncable(cfg, svc) && svc.trafficType.Some? && Backed(cfg, st) && proto != SCTP
    requires ServiceId(m.namespace, m.name) == svc.id && Holds(TableOf(Sync(cfg, st, svc), proto), q, m)
    ensures InRange(cfg, proto, q) && HasPort(PhasesOf(cfg, st, svc).ports, m.port, proto, q)
  {
    hide Backed, IsStored, HasPort;
    var ph := PhasesOf(cfg, st, svc);
    var tt := svc.trafficType.value;
    SyncIs(cfg, st, svc);
    RemoveMappingsEffect(cfg, ph.filled, svc.id, Outdated(ph.current, ph.ports), proto, q, m);
    AllocateFrame(cfg, ph.freed, svc.id, tt, svc.ports, 0, [], proto);
    if Tabled(tt, proto) {
      AllocateExtends(cfg, ph.freed, svc.id, tt, svc.ports, 0, [], proto, q, m);
    }
    RemoveMappingsEffect(cfg, st, svc.id, Unused(ph.current, svc.ports), proto, q, m);
    if Holds(TableOf(st, proto), q, m) {
      OldSurvivorHasPort(cfg, st, svc, proto, q, m);
    }
  }

  /** Every new shadow port in the range of a table is mapped there, in spite of the cleanup. */
  lemma NewPortMapped(cfg: Config, st: State, svc: UserService, proto: Protocol, q: Int32, m: Mapped)
    requires Syncable(cfg, svc) && svc.trafficType.Some? && Consistent(cfg, st) && proto != SCTP
    requires ServiceId(m.namespace, m.name) == svc.id
    requires InRange(cfg, proto, q) && HasPort(PhasesOf(cfg, st, svc).ports, m.port, proto, q)
    ensures Holds(TableOf(Sync(cfg, st, svc), proto), q, m)
  {
    var ph := PhasesOf(cfg, st, svc);
    var tt := svc.trafficType.value;
    SyncIs(cfg, st, svc);
    var j :| 0 <= j < |ph.ports| && ph.ports[j].port == m.port && ph.ports[j].protocol == proto
        && ph.ports[j].targetPort == q;
    AllocateAppends(cfg, ph.freed, svc.id, tt, svc.ports, 0, [], j);
    assert Tabled(tt, proto);
    assert Holds(TableOf(ph.filled, proto), q, m);
    RemoveMappingsEffect(cfg, ph.filled, svc.id, Outdated(ph.current, ph.ports), proto, q, m);
    if Removes(cfg, svc.id, Outdated(ph.current, ph.ports), proto, m) {
      OutdatedIsStale(cfg, st, svc, proto, q, m);
    }
  }

  /** A removal by the cleanup cannot hit a new shadow port: the current port would be mapped to the same target. */
  lemma OutdatedIsStale(cfg: Config, st: State, svc: UserService, proto: Protocol, q: Int32, m: Mapped)
    requires Syncable(cfg, svc) && svc.trafficType.Some? && Consistent(cfg, st) && Tabled(svc.trafficType.value, proto)
    requires ServiceId(m.namespace, m.name) == svc.id
    requires var ph := PhasesOf(cfg, st, svc);
             && HasPort(ph.ports, m.port, proto, q) && Holds(TableOf(ph.filled, proto), q, m)
             && ContainsPort(svc.ports, ServicePort("", m.port, proto, q))
    ensures !Removes(cfg, svc.id, Outdated(PhasesOf(cfg, st, svc).current, PhasesOf(cfg, st, svc).ports), proto, m)
  {
    var ph := PhasesOf(cfg, st, svc);
    var outdated := Outdated(ph.current, ph.ports);
    OutdatedMembers(ph.current, ph.ports);
    forall i | 0 <= i < |outdated| && outdated[i].targetPort > cfg.maxHTTP && outdated[i].protocol == proto
           && m == MappedTo(svc.id, outdated[i].port)
      ensures false
    {
      var r := outdated[i].targetPort;
      assert outdated[i] in ph.current && NeedsCleanup(ph.ports, outdated[i]);
      assert r != q;
      CurrentPortMapped(cfg, st, svc, proto, r, m, outdated[i]);
      ConsistentIsBacked(cfg, st);
      BackedIsInjective(cfg, st, proto);
      RemoveMappingsInjective(cfg, st, svc.id, Unused(ph.current, svc.ports), proto);
      AllocateInjective(cfg, ph.freed, svc.id, svc.trafficType.value, svc.ports, 0, [], proto);
      AllocateExtends(cfg, ph.freed, svc.id, svc.trafficType.value, svc.ports, 0, [], proto, r, m);
    }
  }

  /** A current shadow port that the service still has is mapped, and stays so through the freeing of unused ports. */
  lemma CurrentPortMapped(cfg: Config, st: State, svc: UserService, proto: Protocol, r: Int32, m: Mapped,
          sp: ServicePort)
    requires ValidConfig(cfg) && Parseable(svc.id.namespace) && Consistent(cfg, st) && proto != SCTP
    requires sp in ShadowPorts(cfg, st.store, svc.id) && sp.targetPort == r > cfg.maxHTTP && sp.protocol == proto
             && m == MappedTo(svc.id, sp.port)
    requires exists i :: 0 <= i < |svc.ports| && svc.ports[i].port == m.port && svc.ports[i].protocol == proto
    ensures Holds(TableOf(RemoveMappings(cfg, st, svc.id, Unused(ShadowPorts(cfg, st.store, svc.id), svc.ports)),
                          proto), r, m)
  {
    var current := ShadowPorts(cfg, st.store, svc.id);
    var i :| 0 <= i < |current| && current[i] == sp;
    assert PortsSound(cfg, current) && PortPlaced(cfg, current[i]);
    assert HasPort(current, m.port, proto, r);
    assert Agrees(cfg, st, proto, r, m);
    var unused := Unused(current, svc.ports);
    RemoveMappingsEffect(cfg, st, svc.id, unused, proto, r, m);
    UnusedMembers(current, svc.ports);
    if Removes(cfg, svc.id, unused, proto, m) {
      var j :| 0 <= j < |unused| && unused[j].targetPort > cfg.maxHTTP && unused[j].protocol == proto
          && m == MappedTo(svc.id, unused[j].port);
      assert unused[j] in unused;
      assert ContainsPort(svc.ports, unused[j]);
    }
  }

  /** The new shadow ports are distinct, and their targets in the range of their protocol or in that of HTTP. */
  lemma NewPortsSound(cfg: Config, st: State, svc: UserService)
    requires Syncable(cfg, svc) && svc.trafficType.Some? && Backed(cfg, st)
    ensures PortsSound(cfg, PhasesOf(cfg, st, svc).ports)
  {
    var ph := PhasesOf(cfg, st, svc);
    var tt := svc.trafficType.value;
    AllocateUnique(cfg, ph.freed, svc.id, tt, svc.ports, 0, []);
    forall j | 0 <= j < |ph.ports|
      ensures PortPlaced(cfg, ph.ports[j])
    {
      AllocateAppends(cfg, ph.freed, svc.id, tt, svc.ports, 0, [], j);
      var proto, q, m := ph.ports[j].protocol, ph.ports[j].targetPort, MappedTo(svc.id, ph.ports[j].port);
      if tt != HTTP {
        assert Tabled(tt, proto);
        AllocateExtends(cfg, ph.freed, svc.id, tt, svc.ports, 0, [], proto, q, m);
        RemoveMappingsEffect(cfg, st, svc.id, Unused(ph.current, svc.ports), proto, q, m);
        assert Holds(TableOf(st, proto), q, m) ==> IsStored(cfg, st.store, proto, q, m);
      }
    }
  }

  /** A sync of a service with a valid traffic type keeps tables and store in agreement. */
  lemma SyncKeepsConsistent(cfg: Config, st: State, svc: UserService)
    requires Syncable(cfg, svc) && svc.trafficType.Some? && Consistent(cfg, st)
    ensures Consistent(cfg, Sync(cfg, st, svc))
  {
    var st' := Sync(cfg, st, svc);
    var ph := PhasesOf(cfg, st, svc);
    var name := ShadowName(cfg.namespace, svc.id);
    SyncIs(cfg, st, svc);
    ParseExact(cfg.namespace, svc.id);
    ConsistentIsBacked(cfg, st);
    NewPortsSound(cfg, st, svc);
    forall proto, q, m
      ensures Agrees(cfg, st', proto, q, m)
    {
      if proto == SCTP {
      } else if ServiceId(m.namespace, m.name) == svc.id {
        if Holds(TableOf(st', proto), q, m) {
          SurvivorHasPort(cfg, st, svc, proto, q, m);
        }
        if InRange(cfg, proto, q) && HasPort(ph.ports, m.port, proto, q) {
          NewPortMapped(cfg, st, svc, proto, q, m);
        }
      } else {
        SyncFrame(cfg, st, svc, proto, q, m);
        assert Agrees(cfg, st, proto, q, m);
        if Parseable(m.namespace) {
          OthersKeepName(cfg, svc.id, m);
        }
      }
    }
  }

  /** Some mapped shadow port of the service is gone from its new version. */
  ghost predicate FreesSomething(cfg: Config, st: State, svc: UserService) {
    exists sp :: sp in ShadowPorts(cfg, st.store, svc.id) && sp.targetPort > cfg.maxHTTP && !ContainsPort(svc.ports, sp)
  }

  /** What was freed is missing: the stored port has no mapping any more. */
  lemma FreedIsMissing(cfg: Config, st: State, svc: UserService, sp: ServicePort)
    requires ValidConfig(cfg) && Parseable(svc.id.namespace) && svc.trafficType.None? && Consistent(cfg, st)
    requires sp in ShadowPorts(cfg, st.store, svc.id) && sp.targetPort > cfg.maxHTTP && !ContainsPort(svc.ports, sp)
    ensures !Agrees(cfg, Sync(cfg, st, svc), sp.protocol, sp.targetPort, MappedTo(svc.id, sp.port))
  {
    var current := ShadowPorts(cfg, st.store, svc.id);
    var unused := Unused(current, svc.ports);
    UnusedMembers(current, svc.ports);
    var i :| 0 <= i < |current| && current[i] == sp;
    assert PortsSound(cfg, current) && PortPlaced(cfg, current[i]);
    var m := MappedTo(svc.id, sp.port);
    assert HasPort(current, m.port, sp.protocol, sp.targetPort);
    var j :| 0 <= j < |unused| && unused[j] == sp;
    assert Removes(cfg, svc.id, unused, sp.protocol, m);
    RemoveMappingsEffect(cfg, st, svc.id, unused, sp.protocol, sp.targetPort, m);
  }

  /**
   A sync that stops on an invalid traffic type has already freed mappings. It leaves tables and store in
   agreement exactly when there was nothing to free.
   */
  lemma FailedSyncExactly(cfg: Config, st: State, svc: UserService)
    requires ValidConfig(cfg) && Parseable(svc.id.namespace) && svc.trafficType.None? && Consistent(cfg, st)
    ensures Consistent(cfg, Sync(cfg, st, svc)) <==> !FreesSomething(cfg, st, svc)
  {
    hide Agrees, Unused;
    var st' := Sync(cfg, st, svc);
    var current := ShadowPorts(cfg, st.store, svc.id);
    var unused := Unused(current, svc.ports);
    UnusedMembers(current, svc.ports);
    if FreesSomething(cfg, st, svc) {
      var sp :| sp in current && sp.targetPort > cfg.maxHTTP && !ContainsPort(svc.ports, sp);
      FreedIsMissing(cfg, st, svc, sp);
    } else {
      forall proto, q, m
        ensures Agrees(cfg, st', proto, q, m)
      {
        assert forall k :: 0 <= k < |unused| ==> unused[k] in unused;
        NothingRemoved(cfg, st, svc.id, unused, proto, q, m);
        assert Agrees(cfg, st, proto, q, m);
      }
      RemoveMappingsEffect(cfg, st, svc.id, unused, TCP, 0, MappedTo(svc.id, 0));
    }
  }

  lemma NothingRemoved(cfg: Config, st: State, id: ServiceId, sps: seq<ServicePort>, proto: Protocol, q: Int32,
          m: Mapped)
    requires forall k :: 0 <= k < |sps| ==> sps[k].targetPort <= cfg.maxHTTP
    ensures Agrees(cfg, RemoveMappings(cfg, st, id, sps), proto, q, m) <==> Agrees(cfg, st, proto, q, m)
  {
    RemoveMappingsEffect(cfg, st, id, sps, proto, q, m);
  }

  /** A port kept under a traffic type that uses its table keeps its mesh port, even when the table is full. */
  lemma KeptPortKeepsTarget(cfg: Config, st: State, svc: UserService, proto: Protocol, port: Int32, q: Int32)
    requires Syncable(cfg, svc) && svc.trafficType.Some? && Consistent(cfg, st)
    requires Tabled(svc.trafficType.value, proto) && InRange(cfg, proto, q)
    requires HasPort(ShadowPorts(cfg, st.store, svc.id), port, proto, q)
    requires exists k :: 0 <= k < |svc.ports| && svc.ports[k].port == port && svc.ports[k].protocol == proto
    ensures HasPort(ShadowPorts(cfg, Sync(cfg, st, svc).store, svc.id), port, proto, q)
  {
    var ph := PhasesOf(cfg, st, svc);
    SyncIs(cfg, st, svc);
    var i :| 0 <= i < |ph.current| && ph.current[i].port == port && ph.current[i].protocol == proto
        && ph.current[i].targetPort == q;
    var k :| 0 <= k < |svc.ports| && svc.ports[k].port == port && svc.ports[k].protocol == proto;
    CurrentPortMapped(cfg, st, svc, proto, q, MappedTo(svc.id, port), ph.current[i]);
    ConsistentIsBacked(cfg, st);
    BackedIsInjective(cfg, st, proto);
    RemoveMappingsInjective(cfg, st, svc.id, Unused(ph.current, svc.ports), proto);
    AllocateReuses(cfg, ph.freed, svc.id, svc.trafficType.value, svc.ports, 0, [], proto, k, q);
  }

  // ---- Delete ----

  lemma DeleteKeepsConsistent(cfg: Config, st: State, id: ServiceId)
    requires ValidConfig(cfg) && Parseable(id.namespace) && Consistent(cfg, st)
    ensures Consistent(cfg, Delete(cfg, st, id))
  {
    var name := ShadowName(cfg.namespace, id);
    var st' := Delete(cfg, st, id);
    if name in st.store {
      var sps := st.store[name];
      RemoveMappingsEffect(cfg, st, id, sps, TCP, 0, MappedTo(id, 0));
      forall proto, q, m
        ensures Agrees(cfg, st', proto, q, m)
      {
        RemoveMappingsEffect(cfg, st, id, sps, proto, q, m);
        assert Agrees(cfg, st, proto, q, m);
        if ServiceId(m.namespace, m.name) != id {
          if Parseable(m.namespace) {
            OthersKeepName(cfg, id, m);
          }
        } else if HasPort(sps, m.port, proto, q) && InRange(cfg, proto, q) {
          assert Removes(cfg, id, sps, proto, m);
        }
      }
    }
  }

  // ---- Restart ----

  /** The listing holds every stored shadow service, in some order. */
  ghost predicate Lists(listing: ShadowListing, store: Store) {
    && (forall i :: 0 <= i < |listing| ==> listing[i].0 in store && store[listing[i].0] == listing[i].1)
    && (forall name :: name in store ==> exists i :: 0 <= i < |listing| && listing[i].0 == name)
  }

  /** In an agreeing state, a stored port with a target in the range of a table is what the table says. */
  lemma StoredIsMapped(cfg: Config, st: State, proto: Protocol, name: string, i: nat)
    requires ValidConfig(cfg) && Consistent(cfg, st) && proto != SCTP
    requires name in st.store && i < |st.store[name]| && InRange(cfg, proto, st.store[name][i].targetPort)
    ensures Parse(cfg.namespace, name).Some?
    ensures Holds(TableOf(st, proto), st.store[name][i].targetPort,
                  MappedTo(Parse(cfg.namespace, name).value, st.store[name][i].port))
  {
    var sp := st.store[name][i];
    assert NameSound(cfg, name) && PortsSound(cfg, st.store[name]) && PortPlaced(cfg, sp);
    assert sp.protocol == proto;
    var m := MappedTo(Parse(cfg.namespace, name).value, sp.port);
    assert HasPort(st.store[name], m.port, proto, sp.targetPort);
    assert Agrees(cfg, st, proto, sp.targetPort, m);
  }

  /** Target q is that of a stored port, and m is what a reader of the name of its shadow service takes it for. */
  ghost predicate ReadOff(cfg: Config, store: Store, proto: Protocol, q: Int32, m: Mapped) {
    exists name, i :: ReadFrom(cfg, store, proto, q, m, name, i)
  }

  ghost predicate ReadFrom(cfg: Config, store: Store, proto: Protocol, q: Int32, m: Mapped, name: string, i: nat) {
    && name in store && i < |store[name]| && Parse(cfg.namespace, name).Some?
    && store[name][i].targetPort == q && InRange(cfg, proto, q)
    && m == MappedTo(Parse(cfg.namespace, name).value, store[name][i].port)
  }

  ghost predicate AllReadOff(cfg: Config, store: Store, proto: Protocol, table: Table) {
    forall q :: q in table ==> ReadOff(cfg, store, proto, q, table[q])
  }

  /** Loading the ports of one shadow service adds its mappings and no others. */
  lemma {:induction false} LoadPortsExact(cfg: Config, store: Store, proto: Protocol, name: string, i: nat,
          table: Table)
    requires name in store && i <= |store[name]| && AllReadOff(cfg, store, proto, table)
             && Parse(cfg.namespace, name).Some?
    ensures var r := LoadPorts(Parse(cfg.namespace, name).value, Lo(cfg, proto), Hi(cfg, proto), store[name][i..],
                               table);
            && AllReadOff(cfg, store, proto, r) && table.Keys <= r.Keys
            && forall k ::
                 i <= k < |store[name]| && InRange(cfg, proto, store[name][k].targetPort) ==>
                   store[name][k].targetPort in r
    decreases |store[name]| - i
  {
    hide ReadOff;
    var ports := store[name];
    if i < |ports| {
      var id := Parse(cfg.namespace, name).value;
      var sp := ports[i];
      assert ports[i..][1..] == ports[i + 1..];
      if InRange(cfg, proto, sp.targetPort) {
        OneReadOff(cfg, store, proto, name, i);
        LoadPortsExact(cfg, store, proto, name, i + 1, table[sp.targetPort := MappedTo(id, sp.port)]);
      } else {
        LoadPortsExact(cfg, store, proto, name, i + 1, table);
      }
    }
  }

  lemma OneReadOff(cfg: Config, store: Store, proto: Protocol, name: string, i: nat)
    requires name in store && i < |store[name]| && Parse(cfg.namespace, name).Some?
             && InRange(cfg, proto, store[name][i].targetPort)
    ensures ReadOff(cfg, store, proto, store[name][i].targetPort,
                    MappedTo(Parse(cfg.namespace, name).value, store[name][i].port))
  {
    assert ReadFrom(cfg, store, proto, store[name][i].targetPort,
                    MappedTo(Parse(cfg.namespace, name).value, store[name][i].port), name, i);
  }

  lemma {:induction false} LoadShadowsExact(cfg: Config, store: Store, proto: Protocol, listing: ShadowListing, i: nat,
          table: Table)
    requires StoreSound(cfg, store) && Lists(listing, store) && i <= |listing| && AllReadOff(cfg, store, proto, table)
    ensures var r := LoadShadows(cfg.namespace, Lo(cfg, proto), Hi(cfg, proto), listing[i..], table);
            && AllReadOff(cfg, store, proto, r) && table.Keys <= r.Keys
            && forall n, k ::
                 i <= n < |listing| && 0 <= k < |listing[n].1| && InRange(cfg, proto, listing[n].1[k].targetPort)
                 ==> listing[n].1[k].targetPort in r
    decreases |listing| - i
  {
    hide AllReadOff;
    if i < |listing| {
      var name := listing[i].0;
      assert listing[i..][1..] == listing[i + 1..];
      assert NameSound(cfg, name);
      LoadPortsExact(cfg, store, proto, name, 0, table);
      assert store[name][0..] == store[name];
      LoadShadowsExact(cfg, store, proto, listing, i + 1,
                       LoadPorts(Parse(cfg.namespace, name).value, Lo(cfg, proto), Hi(cfg, proto), store[name], table));
    }
  }

  /**
   What a fresh table holds once it is loaded: every stored target in its range, as some stored port of that
   target has it.
   */
  lemma LoadedTable(cfg: Config, store: Store, proto: Protocol, listing: ShadowListing)
    requires StoreSound(cfg, store) && Lists(listing, store)
    ensures AllReadOff(cfg, store, proto, LoadShadows(cfg.namespace, Lo(cfg, proto), Hi(cfg, proto), listing, map[]))
    ensures forall name, i ::
              name in store && 0 <= i < |store[name]| && InRange(cfg, proto, store[name][i].targetPort) ==>
              store[name][i].targetPort in LoadShadows(cfg.namespace, Lo(cfg, proto), Hi(cfg, proto), listing, map[])
  {
    hide ReadOff;
    assert listing[0..] == listing;
    LoadShadowsExact(cfg, store, proto, listing, 0, map[]);
    forall name, i | name in store && 0 <= i < |store[name]| && InRange(cfg, proto, store[name][i].targetPort)
      ensures store[name][i].targetPort in LoadShadows(cfg.namespace, Lo(cfg, proto), Hi(cfg, proto), listing, map[])
    {
      var n :| 0 <= n < |listing| && listing[n].0 == name;
      assert listing[n].1[i].targetPort == store[name][i].targetPort;
    }
  }

  /**
   Loading a fresh table from the shadow services, listed in any order, rebuilds the table exactly, although
   loading looks at targets only and not at protocols.
   */
  lemma LoadRebuilds(cfg: Config, st: State, proto: Protocol, listing: ShadowListing)
    requires ValidConfig(cfg) && Consistent(cfg, st) && proto != SCTP && Lists(listing, st.store)
    ensures LoadShadows(cfg.namespace, Lo(cfg, proto), Hi(cfg, proto), listing, map[]) == TableOf(st, proto)
  {
    hide ReadOff, LoadShadows, Agrees;
    var table := TableOf(st, proto);
    var r := LoadShadows(cfg.namespace, Lo(cfg, proto), Hi(cfg, proto), listing, map[]);
    LoadedTable(cfg, st.store, proto, listing);
    forall q | q in table
      ensures q in r
    {
      TakenIsStored(cfg, st, proto, q);
    }
    forall q | q in r
      ensures q in table && r[q] == table[q]
    {
      ReadIsTaken(cfg, st, proto, q, r[q]);
    }
  }

  lemma TakenIsStored(cfg: Config, st: State, proto: Protocol, q: Int32)
    requires Consistent(cfg, st) && proto != SCTP && q in TableOf(st, proto)
    ensures InRange(cfg, proto, q)
    ensures exists name, k :: name in st.store && 0 <= k < |st.store[name]| && st.store[name][k].targetPort == q
  {
    var m := TableOf(st, proto)[q];
    assert Holds(TableOf(st, proto), q, m);
    assert Agrees(cfg, st, proto, q, m);
    var name := ShadowName(cfg.namespace, ServiceId(m.namespace, m.name));
    var k :| 0 <= k < |st.store[name]| && st.store[name][k].targetPort == q;
  }

  lemma ReadIsTaken(cfg: Config, st: State, proto: Protocol, q: Int32, m: Mapped)
    requires ValidConfig(cfg) && Consistent(cfg, st) && proto != SCTP && ReadOff(cfg, st.store, proto, q, m)
    ensures q in TableOf(st, proto) && TableOf(st, proto)[q] == m
  {
    hide Consistent;
    var name, i :| ReadFrom(cfg, st.store, proto, q, m, name, i);
    StoredIsMapped(cfg, st, proto, name, i);
  }

  // ---- Runs ----

  datatype Step =
    | SyncStep(svc: UserService)
    | DeleteStep(id: ServiceId)
    | RestartStep(listing: ShadowListing)

  ghost function Restart(cfg: Config, st: State, listing: ShadowListing): State
    requires ValidConfig(cfg)
  {
    st.(tcp := LoadShadows(cfg.namespace, cfg.minTCP, cfg.maxTCP, listing, map[]),
        udp := LoadShadows(cfg.namespace, cfg.minUDP, cfg.maxUDP, listing, map[]))
  }

  ghost function Apply(cfg: Config, st: State, step: Step): State
    requires ValidConfig(cfg)
  {
    match step
    case SyncStep(svc) => Sync(cfg, st, svc)
    case DeleteStep(id) => Delete(cfg, st, id)
    case RestartStep(listing) => Restart(cfg, st, listing)
  }

  /** Services have distinct ports and parseable namespaces, and a restart lists what is stored. */
  ghost predicate PossibleStep(cfg: Config, st: State, step: Step) {
    match step
    case SyncStep(svc) => Syncable(cfg, svc)
    case DeleteStep(id) => Parseable(id.namespace)
    case RestartStep(listing) => Lists(listing, st.store)
  }

  /** The same, with valid traffic types only. */
  ghost predicate ValidStep(cfg: Config, st: State, step: Step) {
    PossibleStep(cfg, st, step) && (step.SyncStep? ==> step.svc.trafficType.Some?)
  }

  ghost predicate PossibleRun(cfg: Config, st: State, steps: seq<Step>)
    requires ValidConfig(cfg)
    decreases |steps|
  {
    steps == [] || (PossibleStep(cfg, st, steps[0]) && PossibleRun(cfg, Apply(cfg, st, steps[0]), steps[1..]))
  }

  ghost function Run(cfg: Config, st: State, steps: seq<Step>): State
    requires ValidConfig(cfg)
    decreases |steps|
  {
    if steps == [] then st else Run(cfg, Apply(cfg, st, steps[0]), steps[1..])
  }

  ghost predicate ValidRun(cfg: Config, st: State, steps: seq<Step>)
    requires ValidConfig(cfg)
    decreases |steps|
  {
    steps == [] || (ValidStep(cfg, st, steps[0]) && ValidRun(cfg, Apply(cfg, st, steps[0]), steps[1..]))
  }

  lemma StepKeepsConsistent(cfg: Config, st: State, step: Step)
    requires ValidConfig(cfg) && Consistent(cfg, st) && ValidStep(cfg, st, step)
    ensures Consistent(cfg, Apply(cfg, st, step))
    ensures step.RestartStep? ==> Apply(cfg, st, step) == st
  {
    match step
    case SyncStep(svc) => SyncKeepsConsistent(cfg, st, svc);
    case DeleteStep(id) => DeleteKeepsConsistent(cfg, st, id);
    case RestartStep(listing) =>
      LoadRebuilds(cfg, st, TCP, listing);
      LoadRebuilds(cfg, st, UDP, listing);
  }

  const EMPTY := State(map[], map[], map[])

  /** Over every run of syncs, deletions and restarts, the tables and the stored shadow services agree. */
  lemma {:induction false} RunKeepsConsistent(cfg: Config, st: State, steps: seq<Step>)
    requires ValidConfig(cfg) && Consistent(cfg, st) && ValidRun(cfg, st, steps)
    ensures Consistent(cfg, Run(cfg, st, steps))
    decreases |steps|
  {
    if steps != [] {
      StepKeepsConsistent(cfg, st, steps[0]);
      RunKeepsConsistent(cfg, Apply(cfg, st, steps[0]), steps[1..]);
    }
  }

  lemma EmptyConsistent(cfg: Config)
    ensures Consistent(cfg, EMPTY)
  {
  }

  /** After any run, no two shadow ports share a target in the range of a table. */
  lemma TargetsNotShared(cfg: Config, steps: seq<Step>, proto: Protocol, a: string, i: nat, b: string, j: nat)
    requires ValidConfig(cfg) && ValidRun(cfg, EMPTY, steps) && proto != SCTP
    requires var store := Run(cfg, EMPTY, steps).store;
             && a in store && i < |store[a]| && b in store && j < |store[b]|
             && store[a][i].targetPort == store[b][j].targetPort && InRange(cfg, proto, store[a][i].targetPort)
    ensures a == b && i == j
  {
    EmptyConsistent(cfg);
    RunKeepsConsistent(cfg, EMPTY, steps);
    var st := Run(cfg, EMPTY, steps);
    StoredIsMapped(cfg, st, proto, a, i);
    StoredIsMapped(cfg, st, proto, b, j);
    assert NameSound(cfg, a) && NameSound(cfg, b);
    assert PortsSound(cfg, st.store[a]) && PortPlaced(cfg, st.store[a][i]) && PortPlaced(cfg, st.store[a][j]);
  }
}
