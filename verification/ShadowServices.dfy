/** What syncing and deleting shadow services does to the two port tables and to the stored shadow services. */
module ShadowServices {
  import opened Basics
  import opened Topologies
  import opened ShadowNames
  import opened PortMappings

  datatype Config = Config(
    namespace: string,
    minHTTP: Int32, maxHTTP: Int32,
    minTCP: Int32, maxTCP: Int32,
    minUDP: Int32, maxUDP: Int32)

  /** The three ranges are disjoint, with that of HTTP lowest. */
  predicate ValidConfig(cfg: Config) {
    && cfg.maxHTTP < cfg.minTCP && cfg.maxHTTP < cfg.minUDP
    && (cfg.maxTCP < cfg.minUDP || cfg.maxUDP < cfg.minTCP)
    && cfg.maxTCP < MAX_INT32 && cfg.maxUDP < MAX_INT32
  }

  /** A user service; its traffic type is None when the annotation is invalid. */
  datatype UserService = UserService(id: ServiceId, trafficType: Option<TrafficType>, ports: seq<ServicePort>)

  type Store = map<string, seq<ServicePort>>

  datatype State = State(tcp: Table, udp: Table, store: Store)

  // ---- Tables by protocol ----

  function TableOf(st: State, proto: Protocol): Table {
    match proto
    case TCP => st.tcp
    case UDP => st.udp
    case SCTP => map[]
  }

  function WithTable(st: State, proto: Protocol, table: Table): State {
    match proto
    case TCP => st.(tcp := table)
    case UDP => st.(udp := table)
    case SCTP => st
  }

  function Lo(cfg: Config, proto: Protocol): Int32 {
    match proto
    case TCP => cfg.minTCP
    case UDP => cfg.minUDP
    case SCTP => 1
  }

  function Hi(cfg: Config, proto: Protocol): Int32 {
    match proto
    case TCP => cfg.maxTCP
    case UDP => cfg.maxUDP
    case SCTP => 0
  }

  predicate InRange(cfg: Config, proto: Protocol, q: Int32) {
    Lo(cfg, proto) <= q <= Hi(cfg, proto)
  }

  function MappedTo(id: ServiceId, port: Int32): Mapped {
    Mapped(id.namespace, id.name, port)
  }

  // ---- Removing mappings ----

  /** removeServicePortMapping: HTTP targets have no table. */
  ghost function RemoveMapping(cfg: Config, st: State, id: ServiceId, sp: ServicePort): State {
    if sp.targetPort <= cfg.maxHTTP then st
    else WithTable(st, sp.protocol, Dropped(TableOf(st, sp.protocol), MappedTo(id, sp.port)))
  }

  ghost function RemoveMappings(cfg: Config, st: State, id: ServiceId, sps: seq<ServicePort>): State
    decreases |sps|
  {
    if sps == [] then st else RemoveMappings(cfg, RemoveMapping(cfg, st, id, sps[0]), id, sps[1..])
  }

  predicate ContainsPort(ports: seq<ServicePort>, sp: ServicePort) {
    exists i :: 0 <= i < |ports| && ports[i].port == sp.port && ports[i].protocol == sp.protocol
  }

  predicate NeedsCleanup(ports: seq<ServicePort>, sp: ServicePort) {
    forall i :: 0 <= i < |ports| ==>
      !(ports[i].port == sp.port && ports[i].protocol == sp.protocol && ports[i].targetPort == sp.targetPort)
  }

  /** The shadow ports that the new version of the service no longer has. */
  function Unused(current: seq<ServicePort>, ports: seq<ServicePort>): seq<ServicePort> {
    if current == [] then []
    else (if ContainsPort(ports, current[0]) then [] else [current[0]]) + Unused(current[1..], ports)
  }

  /** The shadow ports that the new shadow ports do not hold as they are. */
  function Outdated(current: seq<ServicePort>, ports: seq<ServicePort>): seq<ServicePort> {
    if current == [] then []
    else (if NeedsCleanup(ports, current[0]) then [current[0]] else []) + Outdated(current[1..], ports)
  }

  // ---- Allocating targets ----

  predicate Suitable(tt: TrafficType, sp: ServicePort) {
    match tt
    case UDPType => sp.protocol == UDP
    case TCPType => sp.protocol == TCP
    case HTTP => sp.protocol == TCP
    case Unknown => false
  }

  function HTTPPort(cfg: Config, portID: nat): Option<Int32> {
    if cfg.minHTTP as int + portID > cfg.maxHTTP as int then None else Some((cfg.minHTTP as int + portID) as Int32)
  }

  /** The port m is mapped to. */
  ghost function FindPort(table: Table, m: Mapped): Option<Int32> {
    if q :| Holds(table, q, m) then Some(q) else None
  }

  /** getMappedPort: the port already mapped, or else the first free one. */
  ghost function MapPort(cfg: Config, st: State, proto: Protocol, m: Mapped): (Option<Int32>, State)
    requires ValidConfig(cfg)
  {
    var table := TableOf(st, proto);
    if FindPort(table, m).Some? then (FindPort(table, m), st)
    else
      var free := NextFree(table, Lo(cfg, proto), Hi(cfg, proto));
      (free, if free.Some? then WithTable(st, proto, table[free.value := m]) else st)
  }

  ghost function TargetPort(cfg: Config, st: State, id: ServiceId, tt: TrafficType, portID: nat,
          port: Int32): (Option<Int32>, State)
    requires ValidConfig(cfg)
  {
    match tt
    case HTTP => (HTTPPort(cfg, portID), st)
    case TCPType => MapPort(cfg, st, TCP, MappedTo(id, port))
    case UDPType => MapPort(cfg, st, UDP, MappedTo(id, port))
    case Unknown => (None, st)
  }

  /** The shadow ports for the service ports from index i on, after those already in acc. */
  ghost function Allocate(cfg: Config, st: State, id: ServiceId, tt: TrafficType, ports: seq<ServicePort>, i: nat,
          acc: seq<ServicePort>)
    : (seq<ServicePort>, State)
    requires ValidConfig(cfg) && i <= |ports|
    decreases |ports| - i
  {
    if i == |ports| then (acc, st)
    else if !Suitable(tt, ports[i]) then Allocate(cfg, st, id, tt, ports, i + 1, acc)
    else
      var (target, st') := TargetPort(cfg, st, id, tt, i, ports[i].port);
      Allocate(cfg, st', id, tt, ports, i + 1, if target.Some? then acc + [ports[i].(targetPort := target.value)]
      else acc)
  }

  // ---- Steps ----

  function ShadowPorts(cfg: Config, store: Store, id: ServiceId): seq<ServicePort> {
    if ShadowName(cfg.namespace, id) in store then store[ShadowName(cfg.namespace, id)] else []
  }

  /** CreateOrUpdate: free, reuse or allocate, clean up, store. */
  ghost function Sync(cfg: Config, st: State, svc: UserService): State
    requires ValidConfig(cfg)
  {
    var current := ShadowPorts(cfg, st.store, svc.id);
    var freed := RemoveMappings(cfg, st, svc.id, Unused(current, svc.ports));
    if svc.trafficType.None? then freed
    else
      var (ports, filled) := Allocate(cfg, freed, svc.id, svc.trafficType.value, svc.ports, 0, []);
      var cleaned := RemoveMappings(cfg, filled, svc.id, Outdated(current, ports));
      cleaned.(store := st.store[ShadowName(cfg.namespace, svc.id) := ports])
  }

  ghost function Delete(cfg: Config, st: State, id: ServiceId): State {
    var name := ShadowName(cfg.namespace, id);
    if name !in st.store then st
    else RemoveMappings(cfg, st, id, st.store[name]).(store := st.store - {name})
  }

  // ---- Agreement ----

  ghost predicate HasPort(ports: seq<ServicePort>, port: Int32, proto: Protocol, q: Int32) {
    exists i :: 0 <= i < |ports| && ports[i].port == port && ports[i].protocol == proto && ports[i].targetPort == q
  }

  predicate UniquePorts(ports: seq<ServicePort>) {
    forall i, j :: 0 <= i < j < |ports| ==> !(ports[i].port == ports[j].port && ports[i].protocol == ports[j].protocol)
  }

  predicate PortPlaced(cfg: Config, sp: ServicePort) {
    sp.targetPort <= cfg.maxHTTP || InRange(cfg, sp.protocol, sp.targetPort)
  }

  /** A stored shadow service is named after a service with a parseable namespace, and its ports are sound. */
  ghost predicate StoreSound(cfg: Config, store: Store) {
    forall name :: name in store ==> NameSound(cfg, name) && PortsSound(cfg, store[name])
  }

  predicate NameSound(cfg: Config, name: string) {
    var id := Parse(cfg.namespace, name);
    id.Some? && Parseable(id.value.namespace) && ShadowName(cfg.namespace, id.value) == name
  }

  predicate PortsSound(cfg: Config, ports: seq<ServicePort>) {
    UniquePorts(ports) && forall i :: 0 <= i < |ports| ==> PortPlaced(cfg, ports[i])
  }

  /**
   Target q is mapped to m exactly when the shadow service of m has the port of m with target q, in the range of
   the table.
   */
  ghost predicate Agrees(cfg: Config, st: State, proto: Protocol, q: Int32, m: Mapped) {
    Holds(TableOf(st, proto), q, m) <==>
    && InRange(cfg, proto, q)
    && Parseable(m.namespace)
    && HasPort(ShadowPorts(cfg, st.store, ServiceId(m.namespace, m.name)), m.port, proto, q)
  }

  /** Tables and store agree. */
  ghost predicate Consistent(cfg: Config, st: State) {
    && StoreSound(cfg, st.store)
    && forall proto, q, m :: Agrees(cfg, st, proto, q, m)
  }

  /** One half of that: whatever a table holds is a port of a stored shadow service. */
  ghost predicate Backed(cfg: Config, st: State) {
    && StoreSound(cfg, st.store)
    && forall proto, q, m :: Holds(TableOf(st, proto), q, m) ==> IsStored(cfg, st.store, proto, q, m)
  }

  ghost predicate IsStored(cfg: Config, store: Store, proto: Protocol, q: Int32, m: Mapped) {
    && InRange(cfg, proto, q)
    && Parseable(m.namespace)
    && HasPort(ShadowPorts(cfg, store, ServiceId(m.namespace, m.name)), m.port, proto, q)
  }

  lemma ConsistentIsBacked(cfg: Config, st: State)
    requires Consistent(cfg, st)
    ensures Backed(cfg, st)
  {
    forall proto, q, m | Holds(TableOf(st, proto), q, m)
      ensures IsStored(cfg, st.store, proto, q, m)
    {
      assert Agrees(cfg, st, proto, q, m);
    }
  }

  lemma HasPortUnique(ports: seq<ServicePort>, port: Int32, proto: Protocol, q: Int32, r: Int32)
    requires UniquePorts(ports) && HasPort(ports, port, proto, q) && HasPort(ports, port, proto, r)
    ensures q == r
  {
  }

  /** Then no service port is mapped twice. */
  lemma BackedIsInjective(cfg: Config, st: State, proto: Protocol)
    requires Backed(cfg, st)
    ensures Injective(TableOf(st, proto))
  {
    var table := TableOf(st, proto);
    forall q, r | q in table && r in table && table[q] == table[r]
      ensures q == r
    {
      var m := table[q];
      assert Holds(table, q, m) && Holds(table, r, m);
      assert IsStored(cfg, st.store, proto, q, m) && IsStored(cfg, st.store, proto, r, m);
      var name := ShadowName(cfg.namespace, ServiceId(m.namespace, m.name));
      assert name in st.store && PortsSound(cfg, st.store[name]);
      HasPortUnique(st.store[name], m.port, proto, q, r);
    }
  }

  // ---- Effect of each phase on one mapping ----

  /** One of the given shadow ports of id leads to the removal of m from the table of proto. */
  ghost predicate Removes(cfg: Config, id: ServiceId, sps: seq<ServicePort>, proto: Protocol, m: Mapped) {
    exists i ::
             0 <= i < |sps| && sps[i].targetPort > cfg.maxHTTP && sps[i].protocol == proto
             && m == MappedTo(id, sps[i].port)
  }

  lemma {:induction false} RemoveMappingsEffect(cfg: Config, st: State, id: ServiceId, sps: seq<ServicePort>,
          proto: Protocol, q: Int32, m: Mapped)
    ensures RemoveMappings(cfg, st, id, sps).store == st.store
    ensures proto != SCTP ==>
              (Holds(TableOf(RemoveMappings(cfg, st, id, sps), proto), q, m) <==>
               Holds(TableOf(st, proto), q, m) && !Removes(cfg, id, sps, proto, m))
    decreases |sps|
  {
    if sps != [] {
      RemoveMappingsEffect(cfg, RemoveMapping(cfg, st, id, sps[0]), id, sps[1..], proto, q, m);
      assert forall i :: 0 < i < |sps| ==> sps[i] == sps[1..][i - 1];
    }
  }

  lemma {:induction false} UnusedMembers(current: seq<ServicePort>, ports: seq<ServicePort>)
    ensures forall sp :: sp in Unused(current, ports) <==> sp in current && !ContainsPort(ports, sp)
  {
    if current != [] {
      UnusedMembers(current[1..], ports);
      assert current == [current[0]] + current[1..];
    }
  }

  lemma {:induction false} OutdatedMembers(current: seq<ServicePort>, ports: seq<ServicePort>)
    ensures forall sp :: sp in Outdated(current, ports) <==> sp in current && NeedsCleanup(ports, sp)
  {
    if current != [] {
      OutdatedMembers(current[1..], ports);
      assert current == [current[0]] + current[1..];
    }
  }

  /** Freed are the shadow ports that the service no longer has, whatever their target. */
  lemma FreedExactly(current: seq<ServicePort>, ports: seq<ServicePort>, sp: ServicePort)
    ensures sp in Unused(current, ports) <==> sp in current && forall q :: !HasPort(ports, sp.port, sp.protocol, q)
  {
    UnusedMembers(current, ports);
    if ContainsPort(ports, sp) {
      var i :| 0 <= i < |ports| && ports[i].port == sp.port && ports[i].protocol == sp.protocol;
      assert HasPort(ports, sp.port, sp.protocol, ports[i].targetPort);
    }
  }

  /** Cleaned up are the shadow ports that are not among the new ones with the same target. */
  lemma CleanedExactly(current: seq<ServicePort>, ports: seq<ServicePort>, sp: ServicePort)
    ensures sp in Outdated(current, ports) <==>
            sp in current && !HasPort(ports, sp.port, sp.protocol, sp.targetPort)
  {
    OutdatedMembers(current, ports);
  }
}
