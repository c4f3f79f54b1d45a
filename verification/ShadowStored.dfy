/** What the stored shadow service of a synced service looks like, over any run that does not touch it again. */
module ShadowStored {
  import opened Basics
  import opened Topologies
  import opened ShadowNames
  import opened PortMappings
  import opened ShadowServices
  import opened ShadowTheorems

  /** The target of shadow port sp fits port k of a service of traffic type tt. */
  ghost predicate TargetFits(cfg: Config, tt: TrafficType, k: nat, sp: ServicePort) {
    match tt
    case HTTP => sp.protocol == TCP && HTTPPort(cfg, k) == Some(sp.targetPort)
    case TCPType => sp.protocol == TCP && InRange(cfg, TCP, sp.targetPort)
    case UDPType => sp.protocol == UDP && InRange(cfg, UDP, sp.targetPort)
    case Unknown => false
  }

  /** Shadow port sp is port k of the service with another target. */
  predicate MadeFor(ports: seq<ServicePort>, k: nat, sp: ServicePort) {
    k < |ports| && sp == ports[k].(targetPort := sp.targetPort)
  }

  ghost predicate PortStored(cfg: Config, svc: UserService, sp: ServicePort) {
    svc.trafficType.Some? && exists k: nat ::
      MadeFor(svc.ports, k, sp) && TargetFits(cfg, svc.trafficType.value, k, sp)
  }

  /** Every port that can be served over HTTP is. */
  ghost predicate HTTPComplete(cfg: Config, svc: UserService, stored: seq<ServicePort>) {
    svc.trafficType == Some(HTTP) ==> forall k ::
      0 <= k < |svc.ports| && Suitable(HTTP, svc.ports[k]) && HTTPPort(cfg, k).Some? ==>
        HasPort(stored, svc.ports[k].port, TCP, HTTPPort(cfg, k).value)
  }

  /** The stored shadow service is one that a sync of svc leaves. */
  ghost predicate Synced(cfg: Config, store: Store, svc: UserService) {
    && ShadowName(cfg.namespace, svc.id) in store
    && (forall sp :: sp in store[ShadowName(cfg.namespace, svc.id)] ==> PortStored(cfg, svc, sp))
    && HTTPComplete(cfg, svc, store[ShadowName(cfg.namespace, svc.id)])
  }

  /** Every shadow port is made for a port of the service; for HTTP, it is given the target at the index of it. */
  lemma {:induction false} AllocateCopies(cfg: Config, st: State, id: ServiceId, tt: TrafficType,
          ports: seq<ServicePort>, i: nat, acc: seq<ServicePort>, j: nat)
    requires ValidConfig(cfg) && i <= |ports| && |acc| <= j < |Allocate(cfg, st, id, tt, ports, i, acc).0|
    ensures var sp := Allocate(cfg, st, id, tt, ports, i, acc).0[j];
            exists k: nat ::
              i <= k && MadeFor(ports, k, sp) && Suitable(tt, ports[k])
              && (tt == HTTP ==> HTTPPort(cfg, k) == Some(sp.targetPort))
    decreases |ports| - i
  {
    if !Suitable(tt, ports[i]) {
      AllocateCopies(cfg, st, id, tt, ports, i + 1, acc, j);
    } else {
      var (target, st') := TargetPort(cfg, st, id, tt, i, ports[i].port);
      var acc' := if target.Some? then acc + [ports[i].(targetPort := target.value)] else acc;
      if target.Some? && j == |acc| {
        AllocateFrame(cfg, st', id, tt, ports, i + 1, acc', TCP);
        assert Allocate(cfg, st', id, tt, ports, i + 1, acc').0[j] == acc'[j];
        assert MadeFor(ports, i, acc'[j]);
      } else {
        AllocateCopies(cfg, st', id, tt, ports, i + 1, acc', j);
      }
    }
  }

  lemma {:induction false} AllocateServesHTTP(cfg: Config, st: State, id: ServiceId, ports: seq<ServicePort>, i: nat,
          acc: seq<ServicePort>, k: nat)
    requires ValidConfig(cfg) && i <= k < |ports| && Suitable(HTTP, ports[k]) && HTTPPort(cfg, k).Some?
    ensures HasPort(Allocate(cfg, st, id, HTTP, ports, i, acc).0, ports[k].port, TCP, HTTPPort(cfg, k).value)
    decreases |ports| - i
  {
    var target := HTTPPort(cfg, i);
    if !Suitable(HTTP, ports[i]) || target.None? {
      AllocateServesHTTP(cfg, st, id, ports, i + 1, acc, k);
    } else {
      var acc' := acc + [ports[i].(targetPort := target.value)];
      if i == k {
        AllocateFrame(cfg, st, id, HTTP, ports, i + 1, acc', TCP);
        assert Allocate(cfg, st, id, HTTP, ports, i + 1, acc').0[|acc|] == acc'[|acc|];
      } else {
        AllocateServesHTTP(cfg, st, id, ports, i + 1, acc', k);
      }
    }
  }

  /** Every shadow port that a sync stores is that of a port of the service, with a fitting target. */
  lemma SyncStores(cfg: Config, st: State, svc: UserService)
    requires Syncable(cfg, svc) && svc.trafficType.Some? && Consistent(cfg, st)
    ensures Synced(cfg, Sync(cfg, st, svc).store, svc)
  {
    hide Allocate, RemoveMappings;
    var ph := PhasesOf(cfg, st, svc);
    SyncIs(cfg, st, svc);
    forall sp | sp in ph.ports
      ensures PortStored(cfg, svc, sp)
    {
      var j :| 0 <= j < |ph.ports| && ph.ports[j] == sp;
      NewPortStored(cfg, st, svc, j);
    }
    if svc.trafficType.value == HTTP {
      forall k | 0 <= k < |svc.ports| && Suitable(HTTP, svc.ports[k]) && HTTPPort(cfg, k).Some?
        ensures HasPort(ph.ports, svc.ports[k].port, TCP, HTTPPort(cfg, k).value)
      {
        AllocateServesHTTP(cfg, ph.freed, svc.id, svc.ports, 0, [], k);
      }
    }
  }

  lemma NewPortStored(cfg: Config, st: State, svc: UserService, j: nat)
    requires Syncable(cfg, svc) && svc.trafficType.Some? && Consistent(cfg, st)
    requires j < |PhasesOf(cfg, st, svc).ports|
    ensures PortStored(cfg, svc, PhasesOf(cfg, st, svc).ports[j])
  {
    hide Allocate, RemoveMappings, Unused, Consistent;
    var ph := PhasesOf(cfg, st, svc);
    var tt, sp := svc.trafficType.value, PhasesOf(cfg, st, svc).ports[j];
    AllocateCopies(cfg, ph.freed, svc.id, tt, svc.ports, 0, [], j);
    var k: nat :| MadeFor(svc.ports, k, sp) && Suitable(tt, svc.ports[k])
        && (tt == HTTP ==> HTTPPort(cfg, k) == Some(sp.targetPort));
    if tt != HTTP {
      NewPortInRange(cfg, st, svc, j);
    }
    assert TargetFits(cfg, tt, k, sp);
  }

  lemma NewPortInRange(cfg: Config, st: State, svc: UserService, j: nat)
    requires Syncable(cfg, svc) && svc.trafficType.Some? && svc.trafficType.value != HTTP && Consistent(cfg, st)
    requires j < |PhasesOf(cfg, st, svc).ports|
    ensures var sp := PhasesOf(cfg, st, svc).ports[j];
            Tabled(svc.trafficType.value, sp.protocol) && InRange(cfg, sp.protocol, sp.targetPort)
  {
    hide RemoveMappings, Unused, Outdated;
    var ph := PhasesOf(cfg, st, svc);
    var tt := svc.trafficType.value;
    AllocateAppends(cfg, ph.freed, svc.id, tt, svc.ports, 0, [], j);
    var proto, q, m := ph.ports[j].protocol, ph.ports[j].targetPort, MappedTo(svc.id, ph.ports[j].port);
    assert Tabled(tt, proto);
    AllocateExtends(cfg, ph.freed, svc.id, tt, svc.ports, 0, [], proto, q, m);
    RemoveMappingsEffect(cfg, st, svc.id, Unused(ph.current, svc.ports), proto, q, m);
    assert Agrees(cfg, st, proto, q, m);
  }

  // ---- Which ports are left out ----

  ghost predicate IsMapped(table: Table, m: Mapped) {
    exists q :: Holds(table, q, m)
  }

  /** The ports of the range that are not taken. */
  ghost function FreePorts(cfg: Config, table: Table, proto: Protocol): set<Int32> {
    set q: Int32 | Lo(cfg, proto) <= q <= Hi(cfg, proto) && q !in table
  }

  /** How many of the ports from i on and before k need a new target. */
  ghost function Waiting(table: Table, id: ServiceId, tt: TrafficType, ports: seq<ServicePort>, i: nat, k: nat): nat
    requires i <= k <= |ports|
    decreases k - i
  {
    if i == k then 0
    else
      (if Suitable(tt, ports[i]) && !IsMapped(table, MappedTo(id, ports[i].port)) then 1 else 0)
      + Waiting(table, id, tt, ports, i + 1, k)
  }

  lemma {:induction false} WaitingSame(table: Table, q: Int32, m: Mapped, id: ServiceId, tt: TrafficType,
          ports: seq<ServicePort>, i: nat, k: nat)
    requires i <= k <= |ports| && q !in table
    requires forall j :: i <= j < k && Suitable(tt, ports[j]) ==> MappedTo(id, ports[j].port) != m
    ensures Waiting(table[q := m], id, tt, ports, i, k) == Waiting(table, id, tt, ports, i, k)
    decreases k - i
  {
    if i < k {
      WaitingSame(table, q, m, id, tt, ports, i + 1, k);
      if Suitable(tt, ports[i]) {
        MappedSame(table, q, m, MappedTo(id, ports[i].port));
      }
    }
  }

  lemma MappedSame(table: Table, q: Int32, m: Mapped, other: Mapped)
    requires q !in table && other != m
    ensures IsMapped(table[q := m], other) <==> IsMapped(table, other)
  {
    var more := table[q := m];
    if r :| Holds(table, r, other) {
      assert Holds(more, r, other);
    }
    if r :| Holds(more, r, other) {
      assert Holds(table, r, other);
    }
  }

  lemma FreeExactly(cfg: Config, table: Table, proto: Protocol, m: Mapped)
    requires ValidConfig(cfg) && proto != SCTP
    ensures var free := NextFree(table, Lo(cfg, proto), Hi(cfg, proto));
            && (free.Some? <==> |FreePorts(cfg, table, proto)| > 0)
            && (free.Some? ==>
                 free.value !in table
                 && |FreePorts(cfg, table[free.value := m], proto)| == |FreePorts(cfg, table, proto)| - 1)
  {
    var free := NextFree(table, Lo(cfg, proto), Hi(cfg, proto));
    var ports := FreePorts(cfg, table, proto);
    if free.Some? {
      assert free.value in ports;
      assert FreePorts(cfg, table[free.value := m], proto) == ports - {free.value};
    } else {
      assert ports == {};
    }
  }

  lemma OtherPort(tt: TrafficType, id: ServiceId, ports: seq<ServicePort>, i: nat)
    requires UniquePorts(ports) && i < |ports| && Suitable(tt, ports[i])
    ensures forall j ::
              i < j < |ports| && Suitable(tt, ports[j]) ==>
                MappedTo(id, ports[j].port) != MappedTo(id, ports[i].port) && ports[j].port != ports[i].port
  {
  }

  /** Nothing is made for port k once allocation is past it. */
  lemma NotAgain(cfg: Config, st: State, id: ServiceId, tt: TrafficType, ports: seq<ServicePort>, i: nat,
          acc: seq<ServicePort>, k: nat)
    requires ValidConfig(cfg) && k < i <= |ports| && UniquePorts(ports) && !ContainsPort(acc, ports[k])
    ensures !ContainsPort(Allocate(cfg, st, id, tt, ports, i, acc).0, ports[k])
  {
    hide Allocate;
    var r := Allocate(cfg, st, id, tt, ports, i, acc).0;
    AllocateFrame(cfg, st, id, tt, ports, i, acc, TCP);
    forall j | 0 <= j < |r|
      ensures !(r[j].port == ports[k].port && r[j].protocol == ports[k].protocol)
    {
      if j < |acc| {
        assert r[j] == acc[j];
      } else {
        AllocateCopies(cfg, st, id, tt, ports, i, acc, j);
      }
    }
  }

  /** A suitable port is served exactly when it is mapped already or a port is left once those before it are served. */
  lemma {:induction false} AllocateServesExactly(cfg: Config, st: State, id: ServiceId, tt: TrafficType,
          ports: seq<ServicePort>, i: nat, acc: seq<ServicePort>, k: nat, proto: Protocol)
    requires ValidConfig(cfg) && i <= k < |ports| && Tabled(tt, proto) && UniquePorts(ports) && Suitable(tt, ports[k])
             && !ContainsPort(acc, ports[k])
    ensures ContainsPort(Allocate(cfg, st, id, tt, ports, i, acc).0, ports[k]) <==>
              IsMapped(TableOf(st, proto), MappedTo(id, ports[k].port))
              || Waiting(TableOf(st, proto), id, tt, ports, i, k) < |FreePorts(cfg, TableOf(st, proto), proto)|
    decreases |ports| - i
  {
    hide FreePorts, ContainsPort, IsMapped;
    if !Suitable(tt, ports[i]) {
      AllocateServesExactly(cfg, st, id, tt, ports, i + 1, acc, k, proto);
    } else {
      var table, m := TableOf(st, proto), MappedTo(id, ports[i].port);
      var (target, st') := TargetPort(cfg, st, id, tt, i, ports[i].port);
      var acc' := if target.Some? then acc + [ports[i].(targetPort := target.value)] else acc;
      TargetExactly(cfg, st, proto, m);
      FreeExactly(cfg, table, proto, m);
      OtherPort(tt, id, ports, i);
      if i == k {
        if target.Some? {
          ServedHere(cfg, st', id, tt, ports, i, acc, target.value);
        } else {
          NotAgain(cfg, st', id, tt, ports, i + 1, acc, k);
        }
      } else {
        NotAdded(acc, ports, i, k, target);
        if !IsMapped(table, m) && target.Some? {
          WaitingSame(table, target.value, m, id, tt, ports, i + 1, k);
          MappedSame(table, target.value, m, MappedTo(id, ports[k].port));
        }
        AllocateServesExactly(cfg, st', id, tt, ports, i + 1, acc', k, proto);
      }
    }
  }

  lemma TargetExactly(cfg: Config, st: State, proto: Protocol, m: Mapped)
    requires ValidConfig(cfg) && proto != SCTP
    ensures var r, table := MapPort(cfg, st, proto, m), TableOf(st, proto);
            && (IsMapped(table, m) ==> r.0.Some? && r.1 == st)
            && (!IsMapped(table, m) ==>
                 r.0 == NextFree(table, Lo(cfg, proto), Hi(cfg, proto))
                 && TableOf(r.1, proto) == if r.0.Some? then table[r.0.value := m] else table)
  {
    hide NextFree;
    FindPortExact(TableOf(st, proto), m);
  }

  lemma ServedHere(cfg: Config, st: State, id: ServiceId, tt: TrafficType, ports: seq<ServicePort>, i: nat,
          acc: seq<ServicePort>, q: Int32)
    requires ValidConfig(cfg) && i < |ports|
    ensures ContainsPort(Allocate(cfg, st, id, tt, ports, i + 1, acc + [ports[i].(targetPort := q)]).0, ports[i])
  {
    hide Allocate;
    var acc' := acc + [ports[i].(targetPort := q)];
    AllocateFrame(cfg, st, id, tt, ports, i + 1, acc', TCP);
    assert Allocate(cfg, st, id, tt, ports, i + 1, acc').0[|acc|] == acc'[|acc|];
  }

  lemma NotAdded(acc: seq<ServicePort>, ports: seq<ServicePort>, i: nat, k: nat, target: Option<Int32>)
    requires UniquePorts(ports) && i < k < |ports| && !ContainsPort(acc, ports[k])
    ensures !ContainsPort(if target.Some? then acc + [ports[i].(targetPort := target.value)] else acc, ports[k])
  {
  }

  /**
   Which ports of a service a sync gives a shadow port. For HTTP all suitable ones whose place is in the range; for
   TCP and UDP those that are mapped already, and as many of the others, in order, as there are free ports, counted
   when the ports that are gone have been freed.
   */
  lemma ServedExactly(cfg: Config, st: State, svc: UserService, k: nat)
    requires Syncable(cfg, svc) && svc.trafficType.Some? && k < |svc.ports|
    ensures var tt, freed := svc.trafficType.value, PhasesOf(cfg, st, svc).freed;
            var sp := svc.ports[k];
            var table := TableOf(freed, sp.protocol);
            ContainsPort(ShadowPorts(cfg, Sync(cfg, st, svc).store, svc.id), sp) <==>
            Suitable(tt, sp)
            && if tt == HTTP then HTTPPort(cfg, k).Some?
               else IsMapped(table, MappedTo(svc.id, sp.port))
                    || Waiting(table, svc.id, tt, svc.ports, 0, k) < |FreePorts(cfg, table, sp.protocol)|
  {
    hide RemoveMappings, Unused, Outdated, IsMapped, FreePorts, Waiting, Allocate;
    var ph := PhasesOf(cfg, st, svc);
    var tt, sp := svc.trafficType.value, svc.ports[k];
    SyncIs(cfg, st, svc);
    if !Suitable(tt, sp) {
      UnsuitableIsLeftOut(cfg, ph.freed, svc.id, tt, svc.ports, k);
    } else if tt == HTTP {
      HTTPServedExactly(cfg, ph.freed, svc.id, svc.ports, k);
    } else {
      AllocateServesExactly(cfg, ph.freed, svc.id, tt, svc.ports, 0, [], k, sp.protocol);
    }
  }

  lemma UnsuitableIsLeftOut(cfg: Config, st: State, id: ServiceId, tt: TrafficType, ports: seq<ServicePort>, k: nat)
    requires ValidConfig(cfg) && k < |ports| && !Suitable(tt, ports[k])
    ensures !ContainsPort(Allocate(cfg, st, id, tt, ports, 0, []).0, ports[k])
  {
    hide Allocate;
    var r := Allocate(cfg, st, id, tt, ports, 0, []).0;
    forall j | 0 <= j < |r|
      ensures !(r[j].port == ports[k].port && r[j].protocol == ports[k].protocol)
    {
      AllocateCopies(cfg, st, id, tt, ports, 0, [], j);
    }
  }

  lemma HTTPServedExactly(cfg: Config, st: State, id: ServiceId, ports: seq<ServicePort>, k: nat)
    requires ValidConfig(cfg) && UniquePorts(ports) && k < |ports| && Suitable(HTTP, ports[k])
    ensures ContainsPort(Allocate(cfg, st, id, HTTP, ports, 0, []).0, ports[k]) <==> HTTPPort(cfg, k).Some?
  {
    hide Allocate;
    var r := Allocate(cfg, st, id, HTTP, ports, 0, []).0;
    if HTTPPort(cfg, k).Some? {
      AllocateServesHTTP(cfg, st, id, ports, 0, [], k);
    }
    if ContainsPort(r, ports[k]) {
      var j :| 0 <= j < |r| && r[j].port == ports[k].port && r[j].protocol == ports[k].protocol;
      AllocateCopies(cfg, st, id, HTTP, ports, 0, [], j);
    }
  }

  /** The step is about another service. */
  predicate About(step: Step, id: ServiceId) {
    match step
    case SyncStep(svc) => svc.id == id
    case DeleteStep(other) => other == id
    case RestartStep(_) => false
  }

  lemma StepKeepsStored(cfg: Config, st: State, step: Step, svc: UserService)
    requires ValidConfig(cfg) && ValidStep(cfg, st, step) && !About(step, svc.id) && Parseable(svc.id.namespace)
    requires Synced(cfg, st.store, svc)
    ensures Synced(cfg, Apply(cfg, st, step).store, svc)
    ensures ShadowPorts(cfg, Apply(cfg, st, step).store, svc.id) == ShadowPorts(cfg, st.store, svc.id)
  {
    hide PortStored, HTTPComplete, Allocate, RemoveMappings, Unused, Outdated;
    match step {
      case SyncStep(other) =>
        SyncIs(cfg, st, other);
        OthersKeepName(cfg, other.id, MappedTo(svc.id, 0));
      case DeleteStep(id) =>
        OthersKeepName(cfg, id, MappedTo(svc.id, 0));
      case RestartStep(_) =>
    }
  }

  /** A service synced once stays as it is through any run that is about other services and restarts. */
  lemma {:induction false} RunKeepsStored(cfg: Config, st: State, steps: seq<Step>, svc: UserService)
    requires ValidConfig(cfg) && ValidRun(cfg, st, steps) && Parseable(svc.id.namespace)
    requires forall step :: step in steps ==> !About(step, svc.id)
    requires Synced(cfg, st.store, svc)
    ensures Synced(cfg, Run(cfg, st, steps).store, svc)
    ensures ShadowPorts(cfg, Run(cfg, st, steps).store, svc.id) == ShadowPorts(cfg, st.store, svc.id)
    decreases |steps|
  {
    if steps != [] {
      StepKeepsStored(cfg, st, steps[0], svc);
      RunKeepsStored(cfg, Apply(cfg, st, steps[0]), steps[1..], svc);
    }
  }

  /** In an agreeing state, the table says of each stored TCP or UDP port what the shadow service says. */
  lemma StoredLookup(cfg: Config, st: State, svc: UserService, sp: ServicePort)
    requires ValidConfig(cfg) && Parseable(svc.id.namespace) && Consistent(cfg, st) && Synced(cfg, st.store, svc)
    requires sp in ShadowPorts(cfg, st.store, svc.id) && svc.trafficType.value != HTTP
    ensures sp.protocol != SCTP && FindPort(TableOf(st, sp.protocol), MappedTo(svc.id, sp.port)) == Some(sp.targetPort)
  {
    var ports := ShadowPorts(cfg, st.store, svc.id);
    assert PortStored(cfg, svc, sp);
    var m := MappedTo(svc.id, sp.port);
    assert HasPort(ports, m.port, sp.protocol, sp.targetPort);
    assert Agrees(cfg, st, sp.protocol, sp.targetPort, m);
    ConsistentIsBacked(cfg, st);
    BackedIsInjective(cfg, st, sp.protocol);
    FindPortExact(TableOf(st, sp.protocol), m);
  }
}
