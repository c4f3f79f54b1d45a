/** The cluster snapshot the topology is built from, and what is read off it. */
module Resources {
  import opened Basics
  import opened Topologies

  datatype ServiceObject = ServiceObject(
    name: string,
    namespace: string,
    annotations: Annotations,
    ports: seq<ServicePort>,
    clusterIP: string)

  datatype PodObject = PodObject(name: string, namespace: string, serviceAccount: string, ip: string)
  {
    function OwnKey(): Key {
      Key(name, namespace)
    }
  }

  datatype SpecKind = HTTPRouteGroup | TCPRoute | OtherKind

  /** A reference to a route group or a TCP route; matches narrows a route group when it is not empty. */
  datatype SpecRef = SpecRef(kind: SpecKind, name: string, matches: seq<string>)

  datatype BackendObject = BackendObject(service: string, weight: int)

  datatype SplitObject = SplitObject(
    name: string,
    namespace: string,
    service: string,
    backends: seq<BackendObject>,
    matches: seq<SpecRef>)

  datatype Identity = Identity(name: string, namespace: string)

  datatype TargetObject = TargetObject(
    name: string,
    namespace: string,
    destination: Identity,
    destinationPort: Option<Int32>,
    sources: seq<Identity>,
    rules: seq<SpecRef>)

  datatype Snapshot = Snapshot(
    services: map<Key, ServiceObject>,
    splits: map<Key, SplitObject>,
    targets: map<Key, TargetObject>,
    routeGroups: map<Key, seq<HTTPMatch>>,
    tcpRoutes: set<Key>,
    podsBySvc: map<Key, seq<PodObject>>,
    podsBySa: map<Key, seq<PodObject>>,
    podsBySvcBySa: map<Key, map<Key, seq<PodObject>>>)

  /** Objects are indexed by their own name and namespace. */
  ghost predicate Keyed(res: Snapshot) {
    && (forall k :: k in res.services ==> k == Key(res.services[k].name, res.services[k].namespace))
    && (forall k :: k in res.splits ==> k == Key(res.splits[k].name, res.splits[k].namespace))
    && (forall k :: k in res.targets ==> k == Key(res.targets[k].name, res.targets[k].namespace))
  }

  function Lookup<V>(index: map<Key, seq<V>>, k: Key): seq<V> {
    if k in index then index[k] else []
  }

  // ---- Specs ----

  type Built<T> = Result<seq<T>, BuildError>

  /** xs followed by what r built, unless that failed. */
  function Prefixed<T>(xs: seq<T>, r: Built<T>): Built<T> {
    if r.Failure? then r else Success(xs + r.value)
  }

  lemma PrefixedNothing<T>(r: Built<T>)
    ensures Prefixed([], r) == r
  {
    assert r.Success? ==> [] + r.value == r.value;
  }

  lemma PrefixedTwice<T>(xs: seq<T>, ys: seq<T>, r: Built<T>)
    ensures Prefixed(xs, Prefixed(ys, r)) == Prefixed(xs + ys, r)
  {
    if r.Success? {
      assert xs + (ys + r.value) == (xs + ys) + r.value;
    }
  }

  function MatchNamed(matches: seq<HTTPMatch>, name: string): Option<HTTPMatch> {
    if matches == [] then None
    else if matches[0].name == name then Some(matches[0])
    else MatchNamed(matches[1..], name)
  }

  function SelectMatches(names: seq<string>, matches: seq<HTTPMatch>, key: Key): Built<HTTPMatch> {
    if names == [] then Success([])
    else
      match MatchNamed(matches, names[0])
      case None => Failure(NoMatch(names[0], key))
      case Some(m) => Prefixed([m], SelectMatches(names[1..], matches, key))
  }

  function SpecOf(res: Snapshot, ns: string, r: SpecRef): Result<TrafficSpec, BuildError> {
    var key := Key(r.name, ns);
    match r.kind
    case HTTPRouteGroup =>
      if key !in res.routeGroups then Failure(NoSpec(key))
      else if r.matches == [] then Success(HTTPSpec(res.routeGroups[key]))
      else
        (match SelectMatches(r.matches, res.routeGroups[key], key)
         case Failure(e) => Failure(e)
         case Success(ms) => Success(HTTPSpec(ms)))
    case TCPRoute => if key in res.tcpRoutes then Success(TCPSpec) else Failure(NoSpec(key))
    case OtherKind => Failure(UnknownSpecKind)
  }

  function SpecsOf(res: Snapshot, ns: string, refs: seq<SpecRef>): Built<TrafficSpec> {
    if refs == [] then Success([])
    else
      match SpecOf(res, ns, refs[0])
      case Failure(e) => Failure(e)
      case Success(spec) => Prefixed([spec], SpecsOf(res, ns, refs[1..]))
  }

  /** A traffic-split takes every match of the groups it refers to. */
  function WholeGroups(refs: seq<SpecRef>): seq<SpecRef> {
    seq(|refs|, i requires 0 <= i < |refs| => refs[i].(matches := []))
  }

  // ---- Traffic-splits ----

  /** SMI Traffic Split v1alpha3, section "Ports": a backend exposes at least the ports of the root service. */
  predicate Covers(svcPorts: seq<ServicePort>, backendPorts: seq<ServicePort>) {
    forall p :: p in svcPorts ==> exists q :: q in backendPorts && q.port == p.port
  }

  function RootOf(o: SplitObject): Key {
    Key(o.service, o.namespace)
  }

  function BackendOf(o: SplitObject, b: BackendObject): Backend {
    Backend(b.weight, Key(b.service, o.namespace))
  }

  /** What is wrong with one backend, if anything. */
  function BackendFault(res: Snapshot, o: SplitObject, b: BackendObject): Option<BuildError>
    requires RootOf(o) in res.services
  {
    var s := BackendOf(o, b).service;
    if s !in res.services then Some(NoBackendService(s))
    else if !Covers(res.services[RootOf(o)].ports, res.services[s].ports) then Some(PortsMismatch(s))
    else None
  }

  /** The backend, if there is nothing wrong with it. */
  function KeptBackend(res: Snapshot, o: SplitObject, b: BackendObject): seq<Backend>
    requires RootOf(o) in res.services
  {
    if BackendFault(res, o, b).None? then [BackendOf(o, b)] else []
  }

  function KeptBackends(res: Snapshot, o: SplitObject, bs: seq<BackendObject>): seq<Backend>
    requires RootOf(o) in res.services
  {
    if bs == [] then [] else KeptBackend(res, o, bs[0]) + KeptBackends(res, o, bs[1..])
  }

  function Fault(res: Snapshot, o: SplitObject, b: BackendObject): seq<BuildError>
    requires RootOf(o) in res.services
  {
    match BackendFault(res, o, b)
    case None => []
    case Some(e) => [e]
  }

  function BackendFaults(res: Snapshot, o: SplitObject, bs: seq<BackendObject>): seq<BuildError>
    requires RootOf(o) in res.services
  {
    if bs == [] then [] else Fault(res, o, bs[0]) + BackendFaults(res, o, bs[1..])
  }

  /** A split gets attached to its root service when its specs and its root service are found. */
  predicate Attachable(res: Snapshot, o: SplitObject) {
    SpecsOf(res, o.namespace, WholeGroups(o.matches)).Success? && RootOf(o) in res.services
  }

  function SplitOf(res: Snapshot, o: SplitObject): Split {
    var bare := Split(o.name, o.namespace, RootOf(o), [], [], [], []);
    match SpecsOf(res, o.namespace, WholeGroups(o.matches))
    case Failure(e) => bare.(errors := [e])
    case Success(specs) =>
      if RootOf(o) !in res.services then bare.(rules := specs, errors := [NoRootService(RootOf(o))])
      else bare.(rules := specs, backends := KeptBackends(res, o, o.backends),
                 errors := BackendFaults(res, o, o.backends))
  }

  // ---- Traffic-targets ----

  /** Pods whose address is known. */
  function Addressed(pods: seq<PodObject>): seq<PodObject> {
    if pods == [] then [] else (if pods[0].ip == "" then [] else [pods[0]]) + Addressed(pods[1..])
  }

  function PodKeys(pods: seq<PodObject>): seq<Key> {
    seq(|pods|, i requires 0 <= i < |pods| => pods[i].OwnKey())
  }

  function SourceOf(res: Snapshot, id: Identity): Source {
    Source(id.name, id.namespace, PodKeys(Addressed(Lookup(res.podsBySa, Key(id.name, id.namespace)))))
  }

  function SourcesOf(res: Snapshot, o: TargetObject): seq<Source> {
    seq(|o.sources|, i requires 0 <= i < |o.sources| => SourceOf(res, o.sources[i]))
  }

  function DestinationKey(o: TargetObject): Key {
    Key(o.destination.name, o.destination.namespace)
  }

  /** The services, with pods, that expose the destination service account. */
  function Exposed(res: Snapshot, o: TargetObject): map<Key, seq<PodObject>> {
    if DestinationKey(o) in res.podsBySvcBySa then res.podsBySvcBySa[DestinationKey(o)] else map[]
  }

  function PortTargeting(ports: seq<ServicePort>, targetPort: Int32): Option<ServicePort> {
    if ports == [] then None
    else if ports[0].targetPort == targetPort then Some(ports[0])
    else PortTargeting(ports[1..], targetPort)
  }

  function DestinationPorts(ports: seq<ServicePort>, o: TargetObject): Built<ServicePort> {
    match o.destinationPort
    case None => Success(ports)
    case Some(n) =>
      match PortTargeting(ports, n)
      case None => Failure(NoDestinationPort(n))
      case Some(p) => Success([p])
  }

  /** The target gets attached to service s when the service, the rules and the ports are all found. */
  predicate TargetAttachable(res: Snapshot, o: TargetObject, s: Key) {
    && s in res.services
    && SpecsOf(res, o.namespace, o.rules).Success?
    && DestinationPorts(res.services[s].ports, o).Success?
  }

  function TargetOf(res: Snapshot, o: TargetObject, s: Key): Target
    requires s in Exposed(res, o)
  {
    var bare := Target(o.name, o.namespace, s, SourcesOf(res, o), Destination("", "", [], []), [], []);
    if s !in res.services then bare.(errors := [NoTargetService(s)])
    else
      match SpecsOf(res, o.namespace, o.rules)
      case Failure(e) => bare.(errors := [e])
      case Success(specs) =>
        var keys := PodKeys(Addressed(Exposed(res, o)[s]));
        var dest := Destination(o.destination.name, o.destination.namespace, [], keys);
        match DestinationPorts(res.services[s].ports, o)
        case Failure(e) => bare.(rules := specs, destination := dest, errors := [e])
        case Success(ports) => bare.(rules := specs, destination := dest.(ports := ports))
  }

  // ---- Services ----

  function ServiceOf(res: Snapshot, k: Key): Service
    requires k in res.services
  {
    var o := res.services[k];
    Service(o.name, o.namespace, o.annotations, o.ports, o.clusterIP, PodKeys(Lookup(res.podsBySvc, k)), [], [], [])
  }
}
