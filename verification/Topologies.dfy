/** The topology graph of pkg/topology/topology.go, as values. */
module Topologies {
  import opened Basics

  datatype Key = Key(name: string, namespace: string)

  /** A traffic-target applied on a service. */
  datatype TargetKey = TargetKey(service: Key, target: Key)

  datatype Protocol = TCP | UDP | SCTP

  /** Ports are kept in 32-bit integers. */
  newtype Int32 = x: int | -0x8000_0000 <= x < 0x8000_0000

  const MIN_INT32: Int32 := -0x8000_0000
  const MAX_INT32: Int32 := 0x7FFF_FFFF

  /** A service port; only the integer form of the target port is kept. */
  datatype ServicePort = ServicePort(name: string, port: Int32, protocol: Protocol, targetPort: Int32)

  /** What the traffic-type annotation resolves to. The configured default mode is not validated, hence Unknown. */
  datatype TrafficType = HTTP | TCPType | UDPType | Unknown

  /**
   Annotations after parsing: None where the getter returns an error. Middlewares are named, and listed in the
   order in which the map that holds them is ranged over; so are the headers of a match.
   */
  datatype Annotations = Annotations(
    trafficType: Option<TrafficType>,
    scheme: Option<string>,
    middlewares: Option<seq<(string, string)>>)

  datatype HTTPMatch = HTTPMatch(
    name: string,
    pathRegex: string,
    methods: seq<string>,
    headers: seq<(string, string)>)

  datatype TrafficSpec =
    | HTTPSpec(matches: seq<HTTPMatch>)
    | TCPSpec

  datatype BuildError =
    | NoSpec(key: Key)
    | NoMatch(matchName: string, key: Key)
    | UnknownSpecKind
    | NoRootService(key: Key)
    | NoBackendService(key: Key)
    | PortsMismatch(backend: Key)
    | NoTargetService(key: Key)
    | NoDestinationPort(port: Int32)
    | NoIncoming(cause: WalkError)

  /** Why the incoming pods of a traffic-split cannot be computed. */
  datatype WalkError =
    | Circular(split: Key)
    | NoService(service: Key)
    | NoSplit(missing: Key)
    | NoTarget(target: TargetKey)

  datatype Service = Service(
    name: string,
    namespace: string,
    annotations: Annotations,
    ports: seq<ServicePort>,
    clusterIP: string,
    pods: seq<Key>,
    trafficTargets: seq<TargetKey>,
    trafficSplits: seq<Key>,
    backendOf: seq<Key>)
  {
    function OwnKey(): Key {
      Key(name, namespace)
    }
  }

  datatype Source = Source(serviceAccount: string, namespace: string, pods: seq<Key>)

  datatype Destination = Destination(serviceAccount: string, namespace: string, ports: seq<ServicePort>, pods: seq<Key>)

  datatype Target = Target(
    name: string,
    namespace: string,
    service: Key,
    sources: seq<Source>,
    destination: Destination,
    rules: seq<TrafficSpec>,
    errors: seq<BuildError>)

  datatype Pod = Pod(
    name: string,
    namespace: string,
    serviceAccount: string,
    ip: string,
    sourceOf: seq<TargetKey>,
    destinationOf: seq<TargetKey>)

  datatype Backend = Backend(weight: int, service: Key)

  datatype Split = Split(
    name: string,
    namespace: string,
    service: Key,
    backends: seq<Backend>,
    rules: seq<TrafficSpec>,
    incoming: seq<Key>,
    errors: seq<BuildError>)
  {
    function OwnKey(): Key {
      Key(name, namespace)
    }
  }

  datatype Topo = Topo(
    services: map<Key, Service>,
    pods: map<Key, Pod>,
    targets: map<TargetKey, Target>,
    splits: map<Key, Split>)

  /** All pods of the given sources, in order. */
  function SourcePods(sources: seq<Source>): seq<Key> {
    if sources == [] then [] else sources[0].pods + SourcePods(sources[1..])
  }
}
