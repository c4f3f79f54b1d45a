# Traefik Mesh controller: a verified model

Traefik Mesh runs a controller that watches a Kubernetes cluster. It turns services, pods and SMI resources into a
routing graph, keeps a shadow service with mesh ports for every user service, prints both into the configuration of
its proxies, and patches CoreDNS so that names under `traefik.mesh` lead to the shadow services. This project models
these parts in Dafny and proves what they are for. `dafny verify dfyconfig.toml` checks everything.

## What is modelled

**Topology** (`Topologies`, `Resources`, `Specs`, `TopologyLinks`, `TopologyBuilder`, `PodIndex`, `Clusters`,
`BuiltTopologies`, `BuiltObjects`). The pods and endpoints of a cluster are indexed, and the resulting snapshot is built
into services, splits, targets and pods that are linked in both directions. Every step keeps all links in agreement;
`Build` ends with the pass over the split graph. `Specs` and `BuiltObjects` say, without the recursions of the code, what
references to route groups stand for and what becomes of each object of the snapshot.

**Split graph** (`SplitGraph`, `SplitWalks`, `SplitTheorems`, `SplitPass`, `TopologyGraph`). `SplitGraph` says what
should be computed: reachability, cycles, leaves and who is authorised at all of them. `SplitWalks` is the mutual
recursion as the code has it, with its visited set, its nil convention and its early exits. The two are proved to
agree, on graphs with and without cycles, and the class methods in `TopologyGraph` are proved against the recursion.

**Shadow services** (`ShadowNames`, `PortMappings`, `ShadowServices`, `ShadowTheorems`, `ShadowFailures`,
`ShadowStored`, `ShadowDeletions`, `ShadowController`). The state is a TCP table, a UDP table and the stored shadow services; the steps
are a sync, a deletion and a restart. The classes refine functions on this state, and the invariant is proved over all
runs; `ShadowFailures` says what is left of it, and what repairs it, when syncs fail halfway, `ShadowDeletions` what a
deletion takes away and makes room for.

**Configuration** (`Rules`, `RulePriority`, `RuleTexts`, `ConfigWrites`, `ConfigTheorems`, `ConfigResult`, `LastWrites`,
`Routers`, `Middlewares`, `Streams`, `Servers`, `TargetServers`, `Backends`, `Weights`, `Provider`). For each service the provider makes a sequence of writes; later ones
replace earlier ones. The methods of `Provider` are proved to make these writes, and the theorems speak about the
configuration that results: `LastWrites` says which write to a key is the last, `Routers` what this means for rules,
entrypoints and priorities of HTTP routers, `Middlewares` what they go through, `Streams` which TCP and UDP routers
there are, `Servers`, `TargetServers` and `Backends` where traffic is sent, `Weights` how it is spread. The code has the TCP parts once more for UDP; here the transport is a parameter. Rules are
sequences of tokens; they are read back by a reader with the usual precedence, printed as text, and their priority is
counted on that text.

**End to end** (`EndToEnd`, `Access`, `LeafAccess`, `EntryPoints`, `MeshPorts`). From pods, service accounts and
traffic-targets of the cluster to the addresses on emitted whitelists, and from allocated mesh ports to the entrypoints
and servers of emitted routers.

**Examples** (`TopologyExamples`, `Examples`, `StreamExamples`). Snapshots on which the code does not do what one might
expect; the statements hold of every topology that is built from them, in whatever order.

**CoreDNS** (`StubDomains`, `Rewrites`, `CoreDNS`). The text functions on the marked block, literally, the text that any
run of configures and restores leaves, and where the rules in the block send the names of services.

## Where code and comments differ

The model follows the code.

- `unionPod` is said to return the union of two lists (pkg/topology/builder.go:405); it returns the intersection as
  soon as there are two values.
- A traffic-split is said to be added only if all its backends expose the ports of the service
  (pkg/topology/builder.go:212-213); it is added with those backends that do, and has all of them iff none is at
  fault (`TopologyLinks.AllBackendsExactly`, `TopologyExamples.PartialSplit`).
- The pass over the splits is said to detect cycles in the graph (pkg/topology/builder.go:296-298). It does where all
  leaves below name some one pod (`SplitPass.DetectsExactly`); elsewhere a computation may exit early and leave a split
  on a cycle, with nobody let through (`SplitPass.NoCycleStays`), and the order of backends decides
  (`TopologyExamples.CycleCanStay`, `TopologyExamples.OrderDecides`).
- Routers of splits are said to win over those of targets (pkg/provider/provider.go:27-34); indirect ones are put into
  the tier of targets (pkg/provider/provider.go:456), and win iff their rule counts for more
  (`Routers.SplitIndirectWinsExactly`, `Examples.SplitDoesNotWin`).
- With ACL all traffic is said to be forbidden unless a target allows it (pkg/provider/provider.go:146); for TCP and
  UDP a split on the service is enough for a router (`Streams.StreamRouterExactly`, `StreamExamples.SplitOpensPort`).
- Restoring CoreDNS is said to bring back the state before installation (pkg/dns/dns.go:317); once CoreDNS has been
  configured, line breaks stay (`CoreDNS.RestoreIsExact`).
- A reassigned variable gives the direct routers of later ports the indirect rule (pkg/provider/provider.go:346, 452);
  `Routers.SplitDirectRuleExactly` and `Routers.TargetDirectRouteExactly` say when, `Examples.SecondPortIsIndirect`
  shows one.
- Routers of a target with a destination port listen by the place of the port in the destination, not in the service
  (pkg/provider/provider.go:321-322); `EndToEnd.TargetListensExactly` says when that is the right one,
  `Examples.SecondPortListensFirst` shows one where it is not.
- Keys of targets do not name the namespace of the target, so that targets of one name on a service overwrite each
  other; `EndToEnd.TargetAccessExactly` says when access is still right, `Examples.SharedNameMisleads` shows when not.
- Ports that share their number under two protocols share router and servers. `MeshPorts.ShadowPortsServed` says when
  a shadow port is then listened on, `MeshPorts.LeadsToOwnExactly` when it leads to its own servers;
  `Examples.SharedNumberMisses` and `StreamExamples.SharedNumberMisleads` show one each for which this fails.
- Backends of TCP and UDP splits are addressed on the target port of the service (pkg/provider/provider.go:479, 510),
  while the check of backends is about port numbers; `Backends.StreamBackendsExposedExactly` says when this fits,
  `StreamExamples.BackendIsMissed` shows one that does not.
- A sync that stops on an invalid traffic type may have freed targets that a shadow service still points to; another
  service may be given them (`ShadowFailures.TargetShared`).
- Looking for the block of CoreDNS panics when its markers are the wrong way round (`StubDomains.GetPanicsExactly`,
  `StubDomains.SwappedMarkersPanic`); the model returns an error there.

## Model

| member | source | states |
|---|---|---|
| SplitTheorems.IncomingIsExact | pkg/topology/builder.go:329-430 | On any topology whose splits sit where they belong, cyclic or not: the computation for a split succeeds and lists a pod exactly when no cycle is reachable below the split, every reference below resolves, no split below is without backends, and every reachable leaf service names the pod as a source of one of its targets |
| SplitTheorems.SuccessIsExact | pkg/topology/builder.go:329-430 | Whenever the computation succeeds, also after an early exit, it lists exactly the pods that are authorised at every reachable leaf |
| SplitTheorems.NonEmptyIsClean | pkg/topology/builder.go:329-403 | On any graph: success with a non-empty list implies that no cycle is reachable, that all references below resolve, and that every listed pod is authorised all the way down |
| SplitTheorems.FailureIsReal | pkg/topology/builder.go:329-386 | A circular-reference error implies a cycle that can really be reached, although sibling splits share the visited set; any other error implies a reference below that does not resolve |
| SplitTheorems.SplitMonotonic | pkg/topology/builder.go:329-386 | A walk that succeeds gives the same result for every smaller visited set, so what siblings have marked never changes a successful result |
| SplitTheorems.OrderDoesNotMatter | pkg/topology/builder.go:340-384 | Two topologies that differ in the order of backends, splits and targets let the same pods through wherever both computations succeed |
| SplitWalks.UnionPodMembers | pkg/topology/builder.go:406-430 | unionPod intersects: a pod is in the result iff it is in the first list and the second is nil or holds it; a non-empty result needs a non-empty first list |
| SplitWalks.UnionPodOrder | pkg/topology/builder.go:406-430 | The common pods are listed in the order of the second list, as often as they are there |
| SplitWalks.LeafWalk | pkg/topology/builder.go:388-403 | On a service without splits the walk succeeds iff all attached targets are known, fails with a missing target otherwise, and lists exactly the pods that some attached target names |
| SplitWalks.UnvisitedShrinks | pkg/topology/builder.go:329-338 | The termination measure of the mutual recursion: marking a split that is known and not yet visited strictly lowers the number of unvisited splits, and marking anything never raises it |
| TopologyGraph.UnionPods | pkg/topology/builder.go:406-430 | The loop computes the intersection with the nil convention; membership in the result is spelled out |
| TopologyGraph.GetPodsForServiceWithNoTrafficSplits | pkg/topology/builder.go:388-403 | The nested loops append the sources of the targets in order, and stop at the first unknown target |
| TopologyGraph.GetIncomingPodsForTrafficSplit | pkg/topology/builder.go:329-353 | The method, with a mutated visited set that is copied for each backend, refines the recursive definition, marks exactly the split itself in the set of its caller, and terminates on every graph |
| TopologyGraph.GetIncomingPodsForService | pkg/topology/builder.go:355-386 | The method refines the recursive definition, with the visited set shared between the splits of the service |
| SplitPass.FinalIncomingIsExact | pkg/topology/builder.go:299-327 | After loop removal: the list recorded on a split that is still attached holds a pod iff every leaf reachable in the final graph names it as a source and no split on the way is without backends |
| SplitPass.FinalNonEmptyIsClean | pkg/topology/builder.go:299-327 | A split that is still attached and lists a pod has no cycle below it in the final graph |
| SplitPass.DetectsExactly | pkg/topology/builder.go:299-327 | A split below which no split is without backends and every leaf names some one pod as a source fails iff a cycle or a missing reference is reachable from it |
| SplitPass.NoCycleStays | pkg/topology/builder.go:299-327 | A cycle that is left after the pass was there before, and below it no pod is authorised by all leaves and backends |
| SplitPass.ReportedExactly | pkg/topology/builder.go:304-322 | The pass reports on a split iff it is attached and its computation fails, with the cause, which is a cycle or a missing reference below it; earlier reports stay |
| TopologyExamples.CycleCanStay | pkg/topology/builder.go:345-349 | A concrete snapshot: whatever is built from it, the split of its service stays on a cycle, with nobody let through |
| TopologyExamples.OrderDecides | pkg/topology/builder.go:340-353 | The same snapshot with the two backends the other way round: the split fails and is taken off |
| SplitPass.PopulatedWellPlaced | pkg/topology/builder.go:299-327 | The pass keeps every split on its own service, and only once |
| SplitPass.PopulatedReach | pkg/topology/builder.go:846-857 | Loop removal adds no edge: what is reachable afterwards was reachable before |
| SplitPass.KeptMembers | pkg/topology/builder.go:846-857 | A split stays on its service iff its computation did not fail |
| SplitPass.RemoveFailing | pkg/topology/builder.go:846-857 | Splicing the failed splits out one by one leaves the original list without exactly those, in order |
| SplitPass.SameSplitWalk | pkg/topology/builder.go:304-322 | Recording incoming pods and errors does not disturb later computations, so the order of the visits has no influence |
| TopologyGraph.PopulateTrafficSplitsAuthorizedIncomingTraffic | pkg/topology/builder.go:299-327 | Whatever the order in which the map of services is ranged over, the topology ends up as one function of the topology before: own result on each attached split, failed splits removed |
| TopologyGraph.RecordIncoming | pkg/topology/builder.go:304-322 | The computation on the partly updated topology fails iff it fails on the one before the pass, and its result or error is recorded on that split only |
| TopologyGraph.RemoveLoopCausingTrafficSplits | pkg/topology/builder.go:846-857 | Each service loses the first occurrence of every split collected for it, nothing else changes, in any order of the services |
| TopologyGraph.Splice | pkg/topology/builder.go:848-855 | The in-place splice removes the first occurrence and keeps the order |
| TopologyBuilder.Build | pkg/topology/builder.go:56-82 | For every snapshot indexed by name: all links are in agreement before the final pass, everything in the snapshot was evaluated, every pod is one of the snapshot with its address and service account, splits are well placed, the result is what the pass makes of it, and links of backends, targets and pods are in agreement there too |
| TopologyBuilder.EvaluateService | pkg/topology/builder.go:85-104 | Adds the service without links, and its pods as far as they are new |
| TopologyBuilder.EvaluateTrafficSplit | pkg/topology/builder.go:214-275 | Records the split in all cases; attaches it and notes its backends iff specs and root service are found; the faults of refused backends are recorded |
| TopologyBuilder.EvaluateTrafficTarget | pkg/topology/builder.go:110-162 | Keeps all links in agreement while a target is added on every service with pods of the destination account, in any order of these services; exactly those pairs are recorded |
| TopologyBuilder.EvaluateTargetOn | pkg/topology/builder.go:115-161 | One pass of the loop: the pair is recorded; it is attached and linked to its pods iff service, rules and ports are found |
| TopologyBuilder.AddSourceAndDestinationToPods | pkg/topology/builder.go:190-210 | Every source and destination pod that is known gets the key appended, once per occurrence |
| TopologyBuilder.ValidateServiceAndBackendPorts | pkg/topology/builder.go:277-294 | True iff every port number of the root service is among those of the backend (SMI Traffic Split v1alpha3, section "Ports") |
| TopologyBuilder.BuildTrafficTargetSources | pkg/topology/builder.go:434-460 | Sources in order, each with the pods of its service account that have an address; these pods are in the topology afterwards |
| TopologyBuilder.GetTrafficTargetDestinationPorts | pkg/topology/builder.go:588-604 | All ports without a destination port; the first port with that target port otherwise, or an error |
| BuiltObjects.DestinationPortsExactly | pkg/topology/builder.go:588-604 | Without a destination port all ports are allowed; otherwise exactly one, the first whose target port is the destination port, or an error iff no port has that target port |
| TopologyBuilder.BuildMatches | pkg/topology/builder.go:549-570 | The matches asked for by name, in the order asked for; an error names the first one missing |
| TopologyBuilder.BuildSpecs | pkg/topology/builder.go:462-514 | On success the specs stand for the references one by one: for a reference with match names one match per name, the first of that name in the group; without names the whole group; otherwise the error of the first reference that stands for nothing |
| Specs.SpecExactly | pkg/topology/builder.go:516-586 | What one reference stands for: the i-th match of its spec is the first match of the group with the i-th name, or the whole group when it names none; it fails with the group or route that is missing, or with the first name that no match has |
| Specs.SpecsExactly | pkg/topology/builder.go:462-514 | The same for a list of references, which fails with the error of the first that stands for nothing |
| BuiltTopologies.TargetRulesExactly | pkg/topology/builder.go:462-487 | On every built topology the rules of an attached target stand for the rules of its traffic-target, narrowed by match names |
| BuiltTopologies.SplitRulesExactly | pkg/topology/builder.go:489-514 | On every built topology the rules of an attached split are the whole groups and routes it refers to, whatever matches it names |
| TopologyBuilder.GetOrCreatePod | pkg/topology/builder.go:606-627 | A pod that is known stays as it is; a new one starts without links |
| TopologyLinks.SplitAddedKeeps | pkg/topology/builder.go:214-275 | Adding a split keeps every link in agreement: splits on services, backends and their counterparts, targets, pods |
| TopologyLinks.TargetAddedKeeps | pkg/topology/builder.go:110-162 | Adding a target on a service keeps every link in agreement, with the pods created on the way |
| TopologyLinks.SplitCounted | pkg/topology/builder.go:247-271 | BackendOf and Backends agree with multiplicity after a split has been added |
| TopologyLinks.PodLinksExact | pkg/topology/builder.go:190-210 | When linked: a target key is in SourceOf (DestinationOf) of a pod iff the target is attached to its service and the pod is one of its sources (destinations) |
| TopologyLinks.KeptBackendsCover | pkg/topology/builder.go:247-271 | Every backend that was kept exposes all port numbers of the root service |
| TopologyLinks.AllBackendsExactly | pkg/topology/builder.go:243-274 | An attached split has all the backends it asks for iff there is nothing wrong with any of them |
| BuiltObjects.ServiceExactly | pkg/topology/builder.go:85-104 | A service of a built topology has the name, namespace, annotations, ports and cluster address of its object, and the pods listed for it, in order |
| BuiltObjects.TargetExactly | pkg/topology/builder.go:110-188 | What becomes of a traffic-target on a service: names, sources with the addressed pods of their accounts, and either rules, destination accounts, ports and addressed pods, or the one error that says why not |
| BuiltObjects.AddressedConcat | pkg/topology/builder.go:164-188 | Pods with an address are kept in the order in which they are listed |
| BuiltObjects.SourcePodsConcat | pkg/topology/builder.go:434-460 | The pods of a target follow the order of its sources and of the pods of each |
| RuleTexts.ReadinessText | pkg/provider/provider.go:71-108 | The text of the rule of the readiness router |
| BuiltObjects.BuiltTargetsExactly | pkg/topology/builder.go:110-162 | A built topology has a target for each traffic-target and service that exposes its destination account, and attaches it iff the service is known, all rules stand for something and the destination port is targeted |
| BuiltObjects.SplitExactly | pkg/topology/builder.go:214-275 | What becomes of a traffic-split: its names and root service, and either one report for each backend that is unknown or exposes too little, or the one error that says why it is not attached |
| BuiltObjects.BuiltSplitsExactly | pkg/topology/builder.go:214-275 | Before the final pass a split sits on its root service iff that is known and all groups and routes it refers to are found |
| Weights.KeptPlaces | pkg/topology/builder.go:247-271 | The backends of a split are those asked for that exist and expose every port number of the root service, in order, each with its own weight |
| TopologyExamples.PartialSplit | pkg/topology/builder.go:247-274 | A concrete snapshot in which a split is attached with one of its two backends |
| TopologyLinks.LinkedIsWellPlaced | pkg/topology/builder.go:214-275 | Links in agreement imply what the computation on the split graph relies on |
| PodIndex.PodResources.IndexPods | pkg/topology/builder.go:725-730 | From empty indexes: the pods by service and by account are the specified lists, and the index by account and service holds, for every pair, the pods of the service with that account, in order, and no entry without pods |
| Clusters.Snap | pkg/topology/builder.go:629-730 | From the pods and endpoints of a cluster: the snapshot lists under a service the pods that belong to it, under an account the watched pods that have it, and under both those of which both are true; a service is listed under an account iff it has such a pod |
| PodIndex.PodResources.IndexPodsByServiceAccount | pkg/topology/builder.go:732-744 | Pods that are not ignored are listed under their account in order, and known by name |
| PodIndex.PodResources.IndexPodsByService | pkg/topology/builder.go:746-762 | Endpoints that are ignored are skipped; the others contribute in order; both indexes stay in agreement |
| PodIndex.PodResources.IndexPodByService | pkg/topology/builder.go:764-791 | An address without reference, seen before, or of an unknown pod changes nothing; any other appends the pod to both indexes |
| PodIndex.IndexedExactly | pkg/topology/builder.go:732-791 | For arbitrary predicates of what is ignored: a pod is indexed under a service iff it is not ignored and some Endpoints object of that name that is not ignored lists it; never twice when Endpoints have distinct names |
| PodIndex.WithAccountMembers | pkg/topology/builder.go:786-787 | The pods of a service with an account are those with that account, with the same multiplicity |
| ShadowNames.ParseExact | pkg/controller/portmapping.go:139-153 | Reading the printed name of a shadow service gives back namespace and name, whatever the name, iff the marker does not occur in a dash followed by the namespace; reading always succeeds |
| ShadowNames.ShadowNameInjective | pkg/controller/service.go:188-190 | Two services with such namespaces never share the name of their shadow service |
| ShadowNames.ShadowNameCollision | pkg/controller/service.go:188-190 | Without the condition there are pairs of services, for any three texts, whose shadow services have the same name |
| ShadowNames.LastOccurrence | pkg/controller/portmapping.go:139-153 | The greedy first group of the pattern ends at the last occurrence of the marker |
| PortMappings.LeastFree | pkg/controller/portmapping.go:102-121 | The least port of the range that is not taken; none iff all are taken |
| PortMappings.FullExactly | pkg/controller/portmapping.go:102-121 | A port of the range is given out iff the table holds fewer entries than the range has ports; on a full table allocation fails, or, when the range ends at the largest 32-bit integer, wraps around and gives out a port below the range |
| PortMappings.PortMapping.LoadState | pkg/controller/portmapping.go:45-84 | Loads each listed shadow service whose name can be read, in order, by target range only |
| PortMappings.PortMapping.Find | pkg/controller/portmapping.go:87-98 | Finds a port mapped to the service port iff there is one, in whatever order the table is ranged over |
| PortMappings.PortMapping.Add | pkg/controller/portmapping.go:102-121 | Maps the first free port of a scan that wraps around after the largest 32-bit integer, or fails and leaves the table alone |
| PortMappings.PortMapping.Remove | pkg/controller/portmapping.go:124-136 | Removes one mapping of the service port and no other, which is its only one when no service port is mapped twice; fails iff there is none |
| ShadowTheorems.RunKeepsConsistent | pkg/controller/controller.go:312-394 | Over every run of syncs, deletions and restarts: a target is mapped to (namespace, name, port) iff the shadow service of that service has this port with this target, in the range of the table, for TCP and for UDP |
| ShadowTheorems.TargetsNotShared | pkg/controller/service.go:57-142 | After every run from an empty cluster, no two ports of shadow services share a target in the TCP range or in the UDP range |
| ShadowTheorems.SyncKeepsConsistent | pkg/controller/service.go:57-120 | Freeing, reusing, allocating and cleaning up, in this order, keep tables and shadow services in agreement when the traffic type is valid |
| ShadowTheorems.DeleteKeepsConsistent | pkg/controller/service.go:123-142 | So does a deletion |
| ShadowDeletions.DeletedExactly | pkg/controller/service.go:123-142 | After a deletion the shadow service is gone, no table maps any port to the service, and all other shadow services and mappings are as before |
| ShadowDeletions.DeletedPortsAreFree | pkg/controller/service.go:123-142 | The free ports of a range are afterwards those that were free and those that the deleted service had |
| ShadowDeletions.DeletionMakesRoom | pkg/controller/service.go:123-142 | So in the next sync of another service a port is given a target iff fewer suitable ports before it wait than ports were free or taken by the deleted service |
| ShadowTheorems.LoadRebuilds | pkg/controller/portmapping.go:45-84 | In every agreeing state, loading a fresh table from the shadow services, listed in any order and without regard to protocols, rebuilds exactly the current table |
| ShadowTheorems.StepKeepsConsistent | pkg/controller/controller.go:312-394 | Every step keeps the agreement, and a restart changes nothing |
| ShadowTheorems.FailedSyncExactly | pkg/controller/service.go:65-73 | A sync that stops on an invalid traffic type leaves tables and shadow services in agreement iff no mapped shadow port is gone from the new version of the service |
| ShadowFailures.RunKeepsBacked | pkg/controller/service.go:57-142 | Over every run, also with syncs that stop on an invalid traffic type: whatever is mapped is a port of a stored shadow service with that target, in the range, and no service port is mapped twice |
| ShadowFailures.RestartRepairsExactly | pkg/controller/portmapping.go:45-84 | A restart brings tables and shadow services back into agreement, whatever the tables held, iff no two stored ports share a target in a range |
| ShadowFailures.TargetShared | pkg/controller/service.go:65-73 | After a sync that failed, another service is given the freed target, and the shadow services of both point to it; for any two services and any port |
| ShadowFailures.NotRepaired | pkg/controller/service.go:144-152 | A later valid sync of the first service does not repair this: its port gets a new target, and the cleanup of the old one drops the new mapping |
| ShadowTheorems.KeptPortKeepsTarget | pkg/controller/service.go:259-274 | A port that is kept under a traffic type that uses its table keeps its mesh port, even when the table is full |
| ShadowTheorems.SyncFrame | pkg/controller/service.go:57-120 | A sync changes no mapping of any other service |
| ShadowTheorems.OutdatedIsStale | pkg/controller/service.go:144-152 | The cleanup never hits a mapping that a new shadow port relies on |
| ShadowTheorems.AllocateAppends | pkg/controller/service.go:192-221 | Every shadow port is that of a suitable port of the service, with a target that is mapped to it, or within the HTTP range |
| ShadowTheorems.AllocateExtends | pkg/controller/service.go:192-274 | Allocation keeps what is mapped; new mappings are for new shadow ports of the service and lie in the range |
| ShadowTheorems.AllocateReuses | pkg/controller/service.go:259-274 | A port that is mapped already is given the target it has |
| ShadowServices.RemoveMappingsEffect | pkg/controller/service.go:144-185 | A mapping is gone after a removal phase iff one of the given shadow ports, above the HTTP range, has its protocol and port |
| ShadowServices.FreedExactly | pkg/controller/service.go:154-166 | Freed are exactly the shadow ports that the new version of the service no longer has |
| ShadowServices.CleanedExactly | pkg/controller/service.go:144-152 | Cleaned up are exactly the shadow ports that are not among the new ones with the same target |
| ShadowController.ShadowServiceManager.CreateOrUpdate | pkg/controller/service.go:57-120 | On mutable tables and a store, the method does what the phases of a sync say, in their order; it reports failure iff the traffic type is invalid |
| ShadowController.ShadowServiceManager.Delete | pkg/controller/service.go:123-142 | The name of the shadow service leaves the store and nothing else does; when every mapping belongs to a stored port, exactly the mappings of the service leave the tables |
| ShadowController.ShadowServiceManager.RemoveUnusedPortMappings | pkg/controller/service.go:154-166 | The loop frees exactly the unused shadow ports |
| ShadowController.ShadowServiceManager.CleanupPortMappings | pkg/controller/service.go:144-152 | The loop cleans up exactly the outdated shadow ports |
| ShadowController.ShadowServiceManager.RemoveServicePortMapping | pkg/controller/service.go:168-185 | HTTP targets and other protocols are left alone; otherwise the mapping goes from the table of the protocol |
| ShadowController.ShadowServiceManager.GetShadowServicePorts | pkg/controller/service.go:192-221 | Suitable ports in order, each with its target; those without one are skipped; an invalid traffic type fails without effect |
| ShadowController.ShadowServiceManager.GetMappedPort | pkg/controller/service.go:259-274 | The port already mapped, or else the least free one, which is mapped then |
| ShadowController.RunController | pkg/controller/controller.go:312-394 | The worker, with tables that are thrown away and loaded again at each restart, ends in the state of the run, also when syncs fail; all that is mapped is stored there, and when no sync fails tables and store agree |
| ShadowStored.SyncStores | pkg/controller/service.go:192-256 | Every stored shadow port is a port of the service with a target: for HTTP the least HTTP port plus its place, for TCP and UDP one in the range; for HTTP every suitable port whose place is in the range has one |
| ShadowStored.ServedExactly | pkg/controller/service.go:192-274 | Which ports a sync serves: for HTTP the suitable ones whose place is in the range; for TCP and UDP a suitable one iff it is mapped already or fewer suitable ports before it wait for a target than ports of the range are free |
| ShadowStored.RunKeepsStored | pkg/controller/controller.go:337-394 | The shadow ports of a service stay as they are through every run of steps for other services and restarts |
| ShadowStored.StoredLookup | pkg/controller/service.go:259-274 | In an agreeing state a table lookup for a stored TCP or UDP port gives its target |
| Rules.DirectRuleMeaning | pkg/provider/rule.go:11-116 | The printed rule, read with conjunction binding tighter than disjunction, is true of a request iff a host matches and either no match asks anything or some match that asks something is fulfilled: its path test, the pattern without a leading slash; its methods, unless a star is among them; and each of its headers |
| Rules.IndirectRuleMeaning | pkg/provider/rule.go:118-140 | The same, and the forwarding header is required |
| RuleTexts.DirectText | pkg/provider/rule.go:11-116 | The same rule character by character: the text of the service, or both texts in parentheses, where the matches are put together from texts of paths, methods and headers |
| RuleTexts.IndirectText | pkg/provider/rule.go:118-140 | The same for the rule that asks for the header of the proxy |
| Rules.ReadMatches | pkg/provider/rule.go:11-41 | The alternatives of all matches with conditions read as: some of them has all its conditions true |
| Rules.BuildHTTPRuleFromTrafficSpecs | pkg/provider/rule.go:11-41 | The nested loops print the rule of the specs, skipping matches without conditions |
| Rules.AppendMethodFilter | pkg/provider/rule.go:56-76 | No filter without methods or with a star among them |
| Rules.AppendHeaderFilter | pkg/provider/rule.go:78-90 | All header conditions joined into one part, none without headers |
| Rules.BuildMatchCondition | pkg/provider/rule.go:16-34 | Path, methods and headers in this order, in parentheses iff there is more than one part |
| RulePriority.PriorityExact | pkg/provider/rule.go:146-151 | Counted on the printed text, the priority of a balanced rule is 1000 times its tier plus its number of conditions and of operator texts inside them, less one; it tells the number of conditions iff no condition contains the text of an operator |
| RulePriority.PrintedRulesBalanced | pkg/provider/rule.go:92-140 | Every printed rule has one operator fewer than conditions |
| RulePriority.PrintedPriority | pkg/provider/rule.go:92-151 | So the priority of every direct and indirect rule is as above |
| Routers.RouterPriority | pkg/provider/provider.go:892-900 | In every configuration: a router made for a service has 1000 times its tier, which is 1 for services, 2 and 3 for direct and indirect routers of targets, 4 and 3 for those of splits, plus what its rule counts for, less one; one that blocks everything has priority 1 |
| Routers.WinsExactly | pkg/provider/provider.go:27-39 | Of two routers of a configuration that do not block everything, one wins over the other iff its conditions and the operator texts inside them, plus 1000 times its tier, are more |
| Routers.SplitWins | pkg/provider/provider.go:27-39 | The direct router of a split wins over all routers of targets and of services whose rules count for at most 1000 |
| Routers.SplitIndirectWinsExactly | pkg/provider/provider.go:456-456 | The indirect router of a split wins over that of a target iff its rule counts for more, whatever the comment on priorities says |
| Examples.SplitDoesNotWin | pkg/provider/provider.go:456-456 | In a concrete configuration both exist with the same rule and the same priority |
| Routers.BlockAllRanksLast | pkg/provider/provider.go:551-574 | In every configuration a router that blocks everything ranks below every other router made for a service |
| RulePriority.CountConcat | pkg/provider/rule.go:147-148 | Operators are counted without overlap: counts of texts add up unless an operator sits across the seam |
| RulePriority.CountRun | pkg/provider/rule.go:147-148 | Occurrences are counted without overlap: a run of n equal characters holds half as many operators |
| Provider.ConfigProvider.BuildConfig | pkg/provider/provider.go:110-122 | In whatever order services are evaluated, each key of the configuration holds the last write of the one service it is made for, or its default |
| Provider.ConfigProvider.BuildConfigForService | pkg/provider/provider.go:125-167 | The writes for a service, in order: middlewares, own routers, splits; none when an annotation is invalid, none for splits after an unknown traffic type without ACL |
| Provider.ConfigProvider.BuildAnnotationMiddlewares | pkg/provider/provider.go:169-185 | One middleware for each of those asked for, and their keys |
| Provider.ConfigProvider.BuildOwn | pkg/provider/provider.go:187-230 | With ACL block-all routers for HTTP and then the targets; without, the routers of the traffic type |
| Provider.ConfigProvider.BuildHTTPForService | pkg/provider/provider.go:232-250 | Service and router for each port with an entrypoint |
| Provider.ConfigProvider.BuildStreamForService | pkg/provider/provider.go:252-288 | Service and router for each port that is mapped in the table of the transport, TCP or UDP |
| Provider.ConfigProvider.BuildForTarget | pkg/provider/provider.go:290-312 | Targets write by traffic type; unknown service and UDP write nothing |
| Provider.ConfigProvider.BuildHTTPForTarget | pkg/provider/provider.go:314-353 | Whitelist first; then, for each destination port with an entrypoint, service, direct router and, for backends of a split, the indirect whitelist and router, with the rule that is in force at that port |
| Provider.ConfigProvider.BuildTCPForTarget | pkg/provider/provider.go:355-377 | Only with a TCP route among the rules: service and router for each destination port that is mapped |
| Provider.ConfigProvider.BuildForSplit | pkg/provider/provider.go:379-405 | Splits write by traffic type; an unknown root service writes nothing |
| Provider.ConfigProvider.BuildHTTPForSplit | pkg/provider/provider.go:407-459 | Whitelist with ACL; then, for each port, the backends and, if all are known and there is an entrypoint, weighted service, direct router and indirect whitelist and router |
| Provider.ConfigProvider.BuildBackends | pkg/provider/provider.go:525-549 | Stops at the first unknown backend; what was written up to there stays; children are listed iff all backends are known |
| Provider.ConfigProvider.BuildStreamForSplit | pkg/provider/provider.go:461-523 | For TCP and UDP: for each mapped port the backends, then the weighted service and the router under the key of the service itself, which they override |
| Provider.ConfigProvider.BuildBlockAllRouters | pkg/provider/provider.go:551-574 | One router that blocks everything for each port with an entrypoint |
| Routers.PlacesDiffer | pkg/provider/provider.go:576-583 | Different places get different HTTP entrypoints; a place has none iff it is beyond the range, and then no later one has |
| Provider.ConfigProvider.BuildStreamEntrypoint | pkg/provider/provider.go:585-601 | The entrypoint of the port that the TCP or UDP table maps to the service port; none iff there is none |
| Provider.ConfigProvider.BuildServers | pkg/provider/provider.go:603-757 | Servers of the pods in order; pods that are unknown or do not resolve the port are left out |
| Provider.ConfigProvider.BuildWhitelistFromTarget | pkg/provider/provider.go:762-782 | The addresses of the source pods of a target, in order, as far as the pods are known |
| Provider.ConfigProvider.CollectAddresses | pkg/provider/provider.go:787-805 | The addresses of the incoming pods, in order, as far as the pods are known |
| ConfigTheorems.ServiceSound | pkg/provider/provider.go:125-167 | Everything written for a service is its own, refers to defaults or to other writes for it, has the kind its section asks for and, with ACL, is guarded; whitelists hold the addresses they should |
| ConfigTheorems.PutAllEntry | pkg/provider/provider.go:110-167 | An entry holds the value of one of the writes to its key, or is untouched when there is none |
| ConfigResult.ConfigUnique | pkg/provider/provider.go:110-122 | A topology has one configuration, so the order of the services has no influence |
| ConfigResult.ConfigClosed | pkg/provider/provider.go:110-549 | The configuration is closed across HTTP, TCP and UDP: the service and the middlewares of every router exist, and every child of a weighted service |
| ConfigResult.EveryRouterGuarded | pkg/provider/provider.go:196-210 | With ACL, every HTTP router other than readiness blocks everybody or carries the whitelist of its kind, which exists |
| ConfigResult.FixedEntries | pkg/provider/provider.go:71-108 | Every configuration holds the readiness router with its service, the blocking service without servers and the blocking whitelist, as given, and nothing else that is not made for a service |
| Middlewares.RouterMiddlewares | pkg/provider/provider.go:169-194 | An HTTP router goes through the middlewares its service is annotated with, in their order, and with ACL through its whitelist at the end; the routers that block everything go through the blocking one alone |
| Middlewares.AnnotatedExactly | pkg/provider/provider.go:169-186 | The annotated middlewares of a configuration are those that known services with HTTP traffic ask for |
| ConfigResult.PodServersConcat | pkg/provider/provider.go:603-757 | Servers follow the order of the pods, each pod with its own |
| ConfigResult.AddressesConcat | pkg/provider/provider.go:787-826 | Addresses on whitelists follow the order of the pods |
| Routers.PortRouterExactly | pkg/provider/provider.go:232-250 | A port of a service has an HTTP router iff the service has HTTP traffic, its annotations can be read, and some place of the port is in the range |
| ConfigResult.PodServersExact | pkg/provider/provider.go:603-757 | A server is in the list of a port iff it is that of one of the pods, which is known and resolves the port |
| ConfigResult.EntryOrigin | pkg/provider/provider.go:110-167 | Every entry is a default one or a write for the service it is made for |
| EntryPoints.EntryListens | pkg/provider/provider.go:232-523 | Whichever write came last, every router of a service or of a split on it listens only where the port of the service is mapped |
| Routers.SplitDirectRuleExactly | pkg/provider/provider.go:408-457 | In every configuration a direct router of a split has the direct rule iff the last place of its port is the first one, or the service backs no split, or ACL is off |
| Examples.SecondPortIsIndirect | pkg/provider/provider.go:452-452 | A concrete configuration in which the direct router on the second port has the indirect rule |
| Routers.TargetDirectRouteExactly | pkg/provider/provider.go:319-351 | In every configuration a direct router of a target has the direct rule iff the last place of its port in the destination is the first one or the service backs no split; it listens where a place of the service does iff both places are the same |
| EndToEnd.TargetListensExactly | pkg/provider/provider.go:321-322 | On every built topology a router of a target listens where the port of its service is mapped iff the deciding target names no destination port or the port is the first of the service |
| Examples.SecondPortListensFirst | pkg/provider/provider.go:321-322 | On a concrete snapshot the router of a target on the second port listens on the first HTTP port, while the service is mapped to the second |
| Streams.StreamRouterExactly | pkg/provider/provider.go:146-167 | With ACL a TCP or UDP router exists on a mapped port iff the service has that traffic type and either a target with a TCP route covers the port, for TCP only, or the service has the port and any split sits on it |
| StreamExamples.SplitOpensPort | pkg/provider/provider.go:146-167 | On a concrete snapshot without any traffic-target a split makes a router for the TCP port of its service, with ACL |
| MeshPorts.ShadowPortsServed | pkg/provider/provider.go:212-288 | Without ACL, every port of the shadow service of a synced service has a router in the configuration, and the target of that shadow port is its only entrypoint under the condition of the next row |
| MeshPorts.RoutersListenOnTargets | pkg/provider/provider.go:407-523 | Every router that serves a port of the shadow service of a synced service, its own or that of a split, listens on the target of that shadow port and nowhere else iff it is not the case that the service has HTTP traffic and a later port with the same number and an entrypoint; for TCP and UDP it always does |
| Examples.SharedNumberMisses | pkg/provider/provider.go:232-250 | A service with port 53 for TCP and for UDP and HTTP traffic: the shadow service points to the first HTTP port, the router listens on the second |
| Servers.PortServiceIs | pkg/provider/provider.go:232-250 | Without ACL the servers of an HTTP port number are those of the last port with the number and an entrypoint |
| Servers.StreamServiceIs | pkg/provider/provider.go:252-288 | Without ACL the servers of a mapped TCP or UDP port number are those of the last port with the number, whatever its protocol; with splits, the backends of the last one instead |
| TargetServers.TargetForwards | pkg/provider/provider.go:314-353 | With ACL, behind both routers of a target are the servers of the destination pods of the deciding target, for the last place of the port in its destination |
| TargetServers.TargetServiceIs | pkg/provider/provider.go:634-657 | The service of a target name and port exists iff some target of the name has an entrypoint for the port, and holds the servers of the destination pods of the last such target |
| TargetServers.TargetLeadsTo | pkg/provider/provider.go:314-353 | From the cluster: these are exactly the servers of the pods that belong to the service, have the destination account of the deciding traffic-target and an address, and resolve the port |
| TargetServers.StreamServiceWithACL | pkg/provider/provider.go:146-167 | With ACL, behind a mapped TCP or UDP port are the backends of the last split, or else, for TCP, the servers of the last target that allows the port, or else nothing |
| TargetServers.TCPTargetLeadsTo | pkg/provider/provider.go:355-377 | From the cluster to the servers behind a TCP port that a target allows, when no split sits on the service |
| MeshPorts.ShadowPortForwards | pkg/provider/provider.go:212-288 | Behind the router of a shadow port are the servers of the last port with its number, which is the port it is made for or comes after it; for TCP and UDP as long as no split sits on the service |
| MeshPorts.LeadsToOwnExactly | pkg/provider/provider.go:603-757 | These are the servers of its own port if all pods resolve both ports alike and, when addresses of pods are distinct, only then |
| StreamExamples.SharedNumberMisleads | pkg/provider/provider.go:252-270 | A TCP service with port 53 for TCP and for UDP: the router of its TCP shadow port listens where it should, and sends to the port on which the pod serves UDP |
| Backends.HTTPBackendsAreExposed | pkg/provider/provider.go:525-549 | On every built topology an HTTP backend of a split is addressed at its mesh address on the port number of the service, which the backend exposes |
| Weights.HTTPSplitSpreads | pkg/provider/provider.go:407-459 | On every built topology the weighted service of a split and port has one child per kept backend of the split object, in order; child i has the weight of that backend and leads to its mesh address |
| Weights.StreamSplitSpreads | pkg/provider/provider.go:461-523 | The same for each mapped TCP or UDP port of a service with splits, for the backends of the last one on their target port |
| Backends.StreamBackendsExposedExactly | pkg/provider/provider.go:461-523 | A TCP or UDP backend is addressed on the target port of the last port with the number; it exposes that port iff it has a port of that number, which is not checked when the split is built |
| StreamExamples.BackendIsMissed | pkg/provider/provider.go:479-479 | On a concrete snapshot a backend is addressed on a port that it does not expose |
| MeshPorts.RunsEndInSync | pkg/controller/controller.go:337-394 | Every run that syncs a service and afterwards only handles other services and restarts ends in a state for which the two results above hold |
| EndToEnd.SplitRouterAdmits | pkg/provider/provider.go:407-459 | With ACL, from the linked topology to the emitted whitelist: a router of a split admits an address iff it is that of a pod that every leaf reachable from the split in the final topology names as a source |
| EndToEnd.TargetRouterAdmitsLast | pkg/provider/provider.go:314-353 | With ACL: a router of a target admits an address iff it is that of a source pod of the last target of that name on the service; for indirect routers, of the last one with a destination port |
| EndToEnd.TargetAccessExactly | pkg/provider/provider.go:314-353 | So a router named after a target admits exactly the sources of that target iff they have the same addresses as those of the deciding target |
| EndToEnd.TargetRouterAdmits | pkg/provider/provider.go:314-353 | In particular it does when no other target on the service has its name |
| Examples.SharedNameMisleads | pkg/provider/provider.go:314-353 | Two targets of one name from two namespaces: a router made from the first admits the source of the second only |
| EndToEnd.SplitRouterWhitelist | pkg/provider/provider.go:787-829 | The whitelist on a router of a split is that of the split, by remote address on direct routers and by forwarding header, at depth one, on indirect ones |
| EndToEnd.TargetRouterWhitelist | pkg/provider/provider.go:762-817 | The whitelist on a router of a target is that of the last target of its name, by remote address on direct routers; on indirect ones that of the last with a destination port, by forwarding header at depth one |
| BuiltTopologies.BuiltIsReady | pkg/topology/builder.go:56-82 | Every topology that is built has only links that lead somewhere and back, so that the provider finds what it looks up |
| Access.BuildFrom | pkg/topology/builder.go:56-82 | From pods, endpoints and the other objects of a cluster: the topology is the one built from their snapshot, and a pod is in a service iff neither it nor some Endpoints object of the service that lists it is ignored |
| Access.SplitRouterLetsThrough | pkg/provider/provider.go:407-459 | From the cluster to the whitelist: a router of a split admits an address iff it is that of a watched pod that every leaf below the split allows, that is, whose service account is a source of a traffic-target that applies to the leaf |
| Access.TargetRouterLetsThrough | pkg/provider/provider.go:314-353 | A router of a target admits an address iff it is that of a watched pod whose service account is a source of the traffic-target that decides |
| Access.NobodyWithoutAddress | pkg/provider/provider.go:787-805 | No router admits the empty address of a pod that has none yet |
| LeafAccess.SplitLeadsIn | pkg/topology/builder.go:329-403 | An address that a split lets through is a source of some target of each of its leaf backends with HTTP traffic; the leaf lets it in on a port iff it is a source of the last target called like one that has a router for the port; so always when all its targets have one and no two share their name |
| LeafAccess.LetsInExactly | pkg/provider/provider.go:314-353 | Which addresses the routers for requests through a split let in to a service on a port, whatever the names and ports of its targets |
| Access.Refresh | pkg/controller/controller.go:352-362 | From the cluster to the configuration: the topology is built and ready, the configuration is that of the topology, it is closed, and with ACL all routers of splits and targets admit exactly whom the cluster grants |
| CoreDNS.RunText | pkg/dns/dns.go:130-365 | From a configuration without markers, any run of configures (arguments without a hash) and restores leaves that configuration, one line break for each configure that reported a change, and the block of the last operation if it is a configure; pods are restarted once for each change and each restore |
| CoreDNS.RepeatIsQuiet | pkg/dns/dns.go:143-147 | A configure that makes the same block as the one before reports no change and changes nothing |
| CoreDNS.RestoreIsExact | pkg/dns/dns.go:317-338 | After a run that ends in a restore the Corefile is as it was before the run iff the run holds no configure at all |
| CoreDNS.CustomRestarts | pkg/dns/dns.go:340-349 | A restore deletes a custom configuration, so that the count of line breaks starts again from the empty text |
| CoreDNS.StepFrame | pkg/dns/dns.go:162-204 | Only the patched entry of the ConfigMap in use is touched; with a custom ConfigMap the other one stays as it is |
| CoreDNS.ConfiguredEntry | pkg/dns/dns.go:130-204 | A change puts the block at the end of the entry traefik.mesh.server of the custom configuration, or of the Corefile when there is none |
| CoreDNS.RestoredEntry | pkg/dns/dns.go:318-365 | A restore removes the entry traefik.mesh.server from the custom configuration and nothing else, or takes the block and its line end out of the Corefile |
| CoreDNS.ConfigureFailsExactly | pkg/dns/dns.go:130-204 | When configuring fails for want of a deployment, of its version or of a ConfigMap |
| CoreDNS.RestoreFailsExactly | pkg/dns/dns.go:318-365 | When restoring fails; it asks for no version and never slices out of range |
| CoreDNS.Client.ConfigureCoreDNS | pkg/dns/dns.go:130-204 | Fails without effect for want of a deployment, a version or a ConfigMap, in this order; otherwise the new text is stored and the pods restarted iff the block changed |
| CoreDNS.Client.RestoreCoreDNS | pkg/dns/dns.go:318-365 | Fails without effect for want of a deployment or a ConfigMap; otherwise the custom entry is deleted, or the block taken out of the Corefile, and the pods restarted |
| StubDomains.GetFindsBlock | pkg/dns/dns.go:480-489 | Between unmarked lines and any text the block is found exactly as it was written |
| Rewrites.BlockLines | pkg/dns/dns.go:491-534 | The block line by line, with the two rewrite rules and the lines around them |
| Rewrites.UpstreamExactly | pkg/dns/dns.go:518-523 | The line upstream is in the block iff CoreDNS is older than version 1.7 |
| Rewrites.NamesLeadToShadowServices | pkg/dns/dns.go:502-503 | Filling the rewrite target with name and namespace of any service gives the name of its shadow service in the cluster; the pattern of the answer rule spells that same name and its target the name in the mesh |
| StubDomains.RemoveTakesBlockOut | pkg/dns/dns.go:536-553 | Removing takes out the block with its line end and leaves all around it, edited by hand or not |
| StubDomains.AddReplacesBlock | pkg/dns/dns.go:491-534 | Adding replaces the block, which moves to the end, and reports a change iff the block differs |
| StubDomains.AddToUnmarked | pkg/dns/dns.go:491-534 | Without markers the block is appended and a change reported; removing leaves such a text alone |
| StubDomains.GetPanicsExactly | pkg/dns/dns.go:480-489 | Looking for the block slices out of range iff there is a header and every header begins behind the end of some trailer |
| StubDomains.SwappedMarkersPanic | pkg/dns/dns.go:480-489 | So it does on the two markers the wrong way round |
| CoreDNS.ConfigurePanicsExactly | pkg/dns/dns.go:130-204 | A configure does iff CoreDNS can be patched and its text is such a one |
| StubDomains.RemoveDropsRest | pkg/dns/dns.go:536-553 | When the trailer line is gone, removing drops everything from the header on |
| StubDomains.IndexFrom | pkg/dns/dns.go:481-482 | The first occurrence at or after a position, or none |

## Left out

- ShadowTheorems.RunKeepsConsistent: asks that the traffic types of synced services are valid, that a service has no (port, protocol) twice, that namespaces are parseable and that the HTTP, TCP and UDP ranges are disjoint, with HTTP lowest, and end below the largest 32-bit integer; the module `ShadowFailures`, `ShadowNames.ShadowNameCollision` and `PortMappings.FullExactly` show what happens without the first, the third and the last.
- ShadowController.RunController: writes to the Kubernetes API succeed at once and the next listing shows them; stale listers, failed writes and retries are not modelled, nor are labels, selectors and topology keys of shadow services.
- PortMappings.PortMapping.Add: asks that not all 32-bit integers are taken when the range ends at the largest one, since the scan in the code never ends then.
- Routers.PlacesDiffer: the sum of the least HTTP port and the place of a port is taken without wrap-around.
- SplitTheorems.FailureIsReal: asks that each split sits at most once on a service and only on its own; `TopologyBuilder.Build` establishes this.
- SplitTheorems.OrderDoesNotMatter: says nothing when one of the two orders ends in an error that an early exit of the other order passes over; `IncomingIsExact` covers both.
- Routers.SplitWins: asks that the rule of the losing router counts for at most 1000; `WinsExactly` says what happens beyond.
- Rules.DirectRuleMeaning: conditions are atoms with arbitrary truth values; what Traefik makes of hosts, paths, methods and headers is not modelled.
- Provider.ConfigProvider.BuildServers: the resolution of a target port against the containers of a pod is a parameter, and so is the text of the addresses of servers.
- Provider.ConfigProvider.BuildConfig: error messages that the provider attaches to services, targets and splits, and its log, are not modelled; all sections of the configuration are one map keyed by section.
- CoreDNS.RunText: starts from text without markers and asks for arguments without a hash; `ConfigurePanicsExactly` and `StubDomains.RemoveDropsRest` cover some texts edited by hand. The version of CoreDNS, read from its image, is an argument, and ConfigMaps cannot disappear during a run.
- MeshPorts.LeadsToOwnExactly: the converse asks for distinct addresses of pods, since two pods of one address can make the same list of servers in two ways.
- LeafAccess.SplitLeadsIn: asks for leaves with HTTP traffic; rules of requests are not compared, so that a leaf lets an address in when one of its routers for the port does.
- TopologyBuilder.Build: services, targets, splits and pods are values in maps that methods of the topology reassign, where the code updates records through pointers; aliasing between records is thereby left out.
- TopologyBuilder.BuildSpecs: the target ports of services that are given by name, service selectors and pod owners are not modelled.
- TopologyBuilder.GetTrafficTargetDestinationPorts: the destination port of a traffic-target is given as the 32-bit integer that the code makes of it.
- Rewrites.BlockLines: asks for a cluster domain and a mesh namespace without characters that have a meaning in a rule or a pattern; which texts the groups of a pattern match is not modelled.
- Middlewares.AnnotatedExactly: what a middleware does is a text; the builders of retries, rate limits and circuit breakers are not modelled.
- Keys of routers, services and middlewares are structured values; the joined texts of pkg/provider/key.go, which are not injective, are not modelled.
- Loading of resources (pkg/topology/builder.go:629-706, 793-834): listers, the filling of the SMI indexes and the default namespace of a target destination; a snapshot is the result, indexed by name.
- Parsing of annotations (pkg/annotations): annotations are given as parsed traffic type, scheme and middlewares, each of which may be an error.
- Locks in the port tables: one worker drives them.
- KubeDNS (pkg/dns/dns.go:221-299, 368-410), detection of the DNS provider and version parsing.
- Kubernetes clients, informers, the work queue, retries, logging, the HTTP API, the command line and configuration loading.
