/** The shadow service manager and the worker that drives it, on mutable port tables. */
module ShadowController {
  import opened Basics
  import opened Topologies
  import opened ShadowNames
  import opened PortMappings
  import opened ShadowServices
  import opened ShadowTheorems
  import opened ShadowFailures
  import opened ShadowDeletions

  class ShadowServiceManager {
    const cfg: Config
    const tcpStateTable: PortMapping
    const udpStateTable: PortMapping
    /** The shadow services held by the cluster. Writes succeed, and listing them shows the latest write. */
    var store: Store

    ghost predicate Valid()
      reads this, tcpStateTable, udpStateTable
    {
      && ValidConfig(cfg)
      && tcpStateTable != udpStateTable
      && tcpStateTable.minPort == cfg.minTCP && tcpStateTable.maxPort == cfg.maxTCP
      && udpStateTable.minPort == cfg.minUDP && udpStateTable.maxPort == cfg.maxUDP
      && Injective(tcpStateTable.table) && Injective(udpStateTable.table)
    }

    ghost function St(): State
      reads this, tcpStateTable, udpStateTable
    {
      State(tcpStateTable.table, udpStateTable.table, store)
    }

    /** Starts a controller on what the cluster holds: fresh tables, loaded from the listed shadow services. */
    constructor (cfg: Config, store: Store, listing: ShadowListing)
      requires ValidConfig(cfg)
      requires Injective(LoadShadows(cfg.namespace, cfg.minTCP, cfg.maxTCP, listing, map[]))
      requires Injective(LoadShadows(cfg.namespace, cfg.minUDP, cfg.maxUDP, listing, map[]))
      ensures Valid() && this.cfg == cfg && fresh(tcpStateTable) && fresh(udpStateTable)
      ensures St() == Restart(cfg, State(map[], map[], store), listing)
    {
      this.cfg := cfg;
      this.store := store;
      tcpStateTable := new PortMapping(cfg.namespace, cfg.minTCP, cfg.maxTCP);
      udpStateTable := new PortMapping(cfg.namespace, cfg.minUDP, cfg.maxUDP);
      new;
      tcpStateTable.LoadState(listing);
      udpStateTable.LoadState(listing);
    }

    method RemoveServicePortMapping(id: ServiceId, sp: ServicePort)
      requires Valid()
      modifies tcpStateTable, udpStateTable
      ensures Valid() && St() == RemoveMapping(cfg, old(St()), id, sp)
    {
      if sp.targetPort <= cfg.maxHTTP {
        return;
      }
      match sp.protocol {
        case TCP =>
          var _ := tcpStateTable.Remove(MappedTo(id, sp.port));
        case UDP =>
          var _ := udpStateTable.Remove(MappedTo(id, sp.port));
        case SCTP =>
      }
    }

    method RemoveUnusedPortMappings(id: ServiceId, current: seq<ServicePort>, ports: seq<ServicePort>)
      requires Valid()
      modifies tcpStateTable, udpStateTable
      ensures Valid() && St() == RemoveMappings(cfg, old(St()), id, Unused(current, ports))
    {
      for i := 0 to |current|
        invariant Valid()
        invariant RemoveMappings(cfg, St(), id, Unused(current[i..], ports)) ==
                    RemoveMappings(cfg, old(St()), id, Unused(current, ports))
      {
        assert current[i..][1..] == current[i + 1..];
        if ContainsPort(ports, current[i]) {
          assert Unused(current[i..], ports) == Unused(current[i + 1..], ports);
          continue;
        }
        assert Unused(current[i..], ports)[1..] == Unused(current[i + 1..], ports);
        RemoveServicePortMapping(id, current[i]);
      }
    }

    method CleanupPortMappings(id: ServiceId, current: seq<ServicePort>, ports: seq<ServicePort>)
      requires Valid()
      modifies tcpStateTable, udpStateTable
      ensures Valid() && St() == RemoveMappings(cfg, old(St()), id, Outdated(current, ports))
    {
      for i := 0 to |current|
        invariant Valid()
        invariant RemoveMappings(cfg, St(), id, Outdated(current[i..], ports)) ==
                    RemoveMappings(cfg, old(St()), id, Outdated(current, ports))
      {
        assert current[i..][1..] == current[i + 1..];
        if !NeedsCleanup(ports, current[i]) {
          assert Outdated(current[i..], ports) == Outdated(current[i + 1..], ports);
          continue;
        }
        assert Outdated(current[i..], ports)[1..] == Outdated(current[i + 1..], ports);
        RemoveServicePortMapping(id, current[i]);
      }
    }

    method GetMappedPort(proto: Protocol, m: Mapped) returns (r: Option<Int32>)
      requires Valid() && proto != SCTP
      modifies tcpStateTable, udpStateTable
      ensures Valid() && (r, St()) == MapPort(cfg, old(St()), proto, m)
    {
      var stateTable := if proto == TCP then tcpStateTable else udpStateTable;
      FindPortExact(stateTable.table, m);
      var mappedPort, ok := stateTable.Find(m);
      if ok {
        return Some(mappedPort);
      }
      assert forall q :: q in stateTable.table ==> !Holds(stateTable.table, q, m);
      r := stateTable.Add(m);
    }

    method GetTargetPort(tt: TrafficType, portID: nat, id: ServiceId, port: Int32) returns (r: Option<Int32>)
      requires Valid()
      modifies tcpStateTable, udpStateTable
      ensures Valid() && (r, St()) == TargetPort(cfg, old(St()), id, tt, portID, port)
    {
      match tt
      case HTTP => r := HTTPPort(cfg, portID);
      case TCPType => r := GetMappedPort(TCP, MappedTo(id, port));
      case UDPType => r := GetMappedPort(UDP, MappedTo(id, port));
      case Unknown => r := None;
    }

    method GetShadowServicePorts(svc: UserService) returns (ports: Option<seq<ServicePort>>)
      requires Valid()
      modifies tcpStateTable, udpStateTable
      ensures Valid()
      ensures svc.trafficType.None? ==> ports.None? && St() == old(St())
      ensures svc.trafficType.Some? ==>
                ports.Some?
                && (ports.value, St()) == Allocate(cfg, old(St()), svc.id, svc.trafficType.value, svc.ports, 0, [])
    {
      if svc.trafficType.None? {
        return None;
      }
      var tt := svc.trafficType.value;
      var acc: seq<ServicePort> := [];
      for i := 0 to |svc.ports|
        invariant Valid()
        invariant Allocate(cfg, St(), svc.id, tt, svc.ports, i, acc) ==
                    Allocate(cfg, old(St()), svc.id, tt, svc.ports, 0, [])
      {
        var sp := svc.ports[i];
        if !Suitable(tt, sp) {
          continue;
        }
        var targetPort := GetTargetPort(tt, i, svc.id, sp.port);
        if targetPort.None? {
          continue;
        }
        acc := acc + [sp.(targetPort := targetPort.value)];
      }
      ports := Some(acc);
    }

    /** Creates or updates the shadow service of svc. On an invalid traffic type nothing is stored. */
    method CreateOrUpdate(svc: UserService) returns (ok: bool)
      requires Valid()
      modifies this, tcpStateTable, udpStateTable
      ensures Valid() && St() == Sync(cfg, old(St()), svc)
      ensures ok <==> svc.trafficType.Some?
    {
      var name := ShadowName(cfg.namespace, svc.id);
      var current := if name in store then store[name] else [];
      if name in store {
        RemoveUnusedPortMappings(svc.id, current, svc.ports);
      }
      var ports := GetShadowServicePorts(svc);
      if ports.None? {
        return false;
      }
      if name in store {
        CleanupPortMappings(svc.id, current, ports.value);
      }
      store := store[name := ports.value];
      ok := true;
    }

    method Delete(id: ServiceId)
      requires Valid()
      modifies this, tcpStateTable, udpStateTable
      ensures Valid() && St() == ShadowServices.Delete(cfg, old(St()), id)
      ensures store == old(store) - {ShadowName(cfg.namespace, id)}
      ensures Parseable(id.namespace) && Backed(cfg, old(St())) ==>
                forall proto, q, m ::
                  Holds(TableOf(St(), proto), q, m) <==>
                  Holds(TableOf(old(St()), proto), q, m) && ServiceId(m.namespace, m.name) != id
    {
      hide Backed;
      if Parseable(id.namespace) && Backed(cfg, St()) {
        DeletedExactly(cfg, St(), id);
      }
      var name := ShadowName(cfg.namespace, id);
      if name !in store {
        return;
      }
      var ports := store[name];
      for i := 0 to |ports|
        invariant Valid() && store == old(store)
        invariant RemoveMappings(cfg, St(), id, ports[i..]) == RemoveMappings(cfg, old(St()), id, ports)
      {
        assert ports[i..][1..] == ports[i + 1..];
        RemoveServicePortMapping(id, ports[i]);
      }
      RemoveMappingsEffect(cfg, old(St()), id, ports, TCP, 0, MappedTo(id, 0));
      store := store - {name};
    }
  }

  /**
   The worker: handles the steps of a run one after the other, from an empty cluster. A restart throws the
   controller away and starts another one on what the cluster holds. Syncs may stop on invalid traffic types;
   when none does, tables and shadow services agree.
   */
  method RunController(cfg: Config, steps: seq<Step>) returns (manager: ShadowServiceManager)
    requires ValidConfig(cfg) && PossibleRun(cfg, EMPTY, steps)
    ensures manager.Valid() && manager.St() == Run(cfg, EMPTY, steps)
    ensures Backed(cfg, manager.St())
    ensures ValidRun(cfg, EMPTY, steps) ==> Consistent(cfg, manager.St())
  {
    hide Backed, Consistent, PossibleStep, ValidRun;
    manager := new ShadowServiceManager(cfg, map[], []);
    EmptyConsistent(cfg);
    ConsistentIsBacked(cfg, EMPTY);
    for i := 0 to |steps|
      invariant manager.Valid() && manager.cfg == cfg && Backed(cfg, manager.St())
      invariant fresh(manager) && fresh(manager.tcpStateTable) && fresh(manager.udpStateTable)
      invariant PossibleRun(cfg, manager.St(), steps[i..])
      invariant Run(cfg, manager.St(), steps[i..]) == Run(cfg, EMPTY, steps)
    {
      assert steps[i..][1..] == steps[i + 1..];
      StepKeepsBacked(cfg, manager.St(), steps[i]);
      match steps[i]
      case SyncStep(svc) => var _ := manager.CreateOrUpdate(svc);
      case DeleteStep(id) => manager.Delete(id);
      case RestartStep(listing) =>
        BackedIsInjective(cfg, Apply(cfg, manager.St(), steps[i]), TCP);
        BackedIsInjective(cfg, Apply(cfg, manager.St(), steps[i]), UDP);
        manager := new ShadowServiceManager(cfg, manager.store, listing);
    }
    if ValidRun(cfg, EMPTY, steps) {
      RunKeepsConsistent(cfg, EMPTY, steps);
    }
  }
}
