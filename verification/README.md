# A verified model of the EdgeCDN-X controller

The EdgeCDN-X controller is a set of Kubernetes controllers and admission webhooks for a CDN.  This
project models four of its parts in Dafny and proves what they guarantee for every input, every run
and every reachable state.

**Prefix list consolidation** (`Cidr`, `Consolidation`, `ConsolidationTheory`,
`ConsolidationEntries`).  A list of CIDR
prefixes (section 3.1 of RFC 4632, section 2.3 of RFC 4291) is rewritten into a smaller one.  One
model, with the address width as a parameter, serves the V4 and the V6 function, which differ in
nothing else.  `Consolidation.Consolidate` is the code, loop by loop; `IsOutput` says which multiset
of entries it returns.  The theory is about every list with `IsOutput`, so it holds whatever the
input order and whatever order Go visits its maps in: the output denotes the same addresses, its blocks
are the maximal ones, there are as few of them as possible, and consolidating again changes nothing.
Merging stops at length 2, and `SameBlocksIff` says exactly what that costs.

**The downstream mirror** (`MirrorObjects`, `MirrorSystem`, `MirrorOwnership`, `MirrorConvergence`,
`MirrorStartup`, `MirrorReconciler`).  Any number of instances copy objects of their upstream
clusters into one local API server.  `MirrorSystem` is a step system: upstream changes, informer
notifications, the client-go queue, retries, the startup sweep, writes by others, and one step per
local API call, each of which can be answered, be refused, or take effect with its answer lost.
`MirrorReconciler` is one pass in the form of the code; it is proved to be a run of those steps.

**DNS admission and the zone lifecycle** (`Names`, `Api`, `DnsAdmission`, `DnsLifecycle`,
`DnsRules`).  The
checks of the two webhooks, the zone reconciler with its finalizer, and runs of both.  The rules are
those of section 3.6.2 of RFC 1034 and sections 8, 10.1 and 10.3 of RFC 2181.

**Reconcilers and tenancy** (`Routing`, `RoutingPass`, `RoutingExact`, `GeneratedRecords`,
`ServiceCache`, `Tenancy`).  The routing pass that keeps the A and AAAA endpoints of a service, the
cache pass that builds its children, and the project references that admission validates.

Beside the theorems about a part's own notions stand theorems that say the same on the plain data, with
none of the model's functions in them: on address numbers and division (`ConsolidationEntries`), on the
labels, specs and local fields of objects (`MirrorReconciler.Served`), on the labels and types of
records (`DnsRules`), on controller UIDs and projects (`RoutingExact`) and on the fields of resources
(`Tenancy.RefsOk`).

## Assumptions

Each is a named predicate and appears in the `requires` of the results that use it.  Where the
code itself can make a result fail, a lemma says exactly when it holds.

- `MirrorOwnership.KeepsMirrors`: other writers do not remove, recreate or relabel mirrors.  It is used
  for ownership over whole runs only; `MirrorOwnership.WritesOwnIffNotReplaced` does without it and
  gives the exact condition for every single call.
- A source ID is not empty, as the constructor demands (internal/controller/downstream_controller.go:68).
- `MirrorConvergence.Cooperative`: other writers leave the content of the mirrors of an instance alone,
  make none, and remove none that is not under deletion; other instances make no Delete that hits an
  object of another label, which `MirrorConvergence.OwningIsCooperative` derives from `KeepsMirrors`.
  Mirrors may be marked for deletion and carry finalizers, and held deletions may complete.
- `DnsLifecycle.NoOrphans`: no zone leaves the store while endpoints name it.  The rules within a
  namespace do not need it.  `OwnersClashIffOrphaned` shows that it is exactly what owner consistency
  across namespaces depends on, and `OrderlyRunsLeaveNoOrphans` and `PatientRunsLeaveNoOrphans` give
  conditions that secure it.
- `RoutingExact.UidsAgree`: a UID identifies its object, so an endpoint with the service's UID as its
  controller names the service.
- `RoutingExact.RoutingAssumptions`: the digests in use do not collide, no two names of the
  service differ in case only, and recorded hashes are truthful.  The second is exact
  (`RoutingExact.AllRecordsIffNamesAgree`).  The third holds in every history of passes,
  failed ones included, as long as other writers record no hash of their own and leave the spec of an
  endpoint that has one alone (`RoutingExact.HistoryIsTruthful`).
- `ServiceCache.Collisionless` and `AllTruthful`: likewise for the cache reconciler.
- `Tenancy.KeepsTargets`: in shared mode, no referenced object is deleted.
  `Tenancy.CrossesIffTargetDeleted` shows that containment depends on exactly this.

## Findings

- A mirror that is being deleted while a finalizer holds it is skipped without a retry
  (internal/controller/downstream_controller.go:351), and when its deletion completes nothing queues its
  key.  As long as other writers are `Cooperative`, an idle system leaves exactly two kinds of keys out of
  sync: those whose mirror is under deletion while upstream lacks it or wants other content, and those
  whose mirror went that way and that nothing has noted since (`MirrorConvergence.IdleIsInSync`,
  `MirrorStartup.TerminatingMirrorIsForgotten`, `MirrorStartup.ReleasedMirrorIsForgotten`).
- Delete has no precondition, so a mirror that somebody replaces between a worker's Get and its Delete
  takes the replacement with it.  This is the only call that can write an object of another owner
  (`MirrorOwnership.WritesOwnIffNotReplaced`, `MirrorStartup.ReplacedMirrorIsDeletedAnyway`).
- Waiting for the cleanup finalizer before a zone is deleted does not by itself keep records in
  order.  If the zone carries a second finalizer, it stays admissible after cleanup has finished, a
  record written then is orphaned when the zone goes, and two namespaces come to own one name.  The
  run needs dedicated tenancy, since shared tenancy admits one namespace, and makes only writes that it
  admits
  (`DnsLifecycle.SecondFinalizerClashes`, `DnsLifecycle.OwnersClashIffOrphaned`).
- In shared mode, deleting an object that another refers to lets the reference come to cross projects
  (`Tenancy.CrossesIffTargetDeleted`).
- Two lists with the same addresses can consolidate to different blocks, if one of them has a block of
  length 0 or 1 (`ConsolidationTheory.ShortBlocksStayApart`).
- A second routing pass writes nothing exactly when no two names differ in case only and no stale
  endpoint was held by a finalizer or already being deleted (`RoutingExact.PassSettles`).
- Six passes of the cache reconciler are enough from any state, five are not, and a service with a Static
  origin but no origins listed, or with an undecodable certificate, never becomes Healthy.  The Service
  webhook (internal/webhook/v1alpha1/service_webhook.go:114) rejects the former at admission
  (`ServiceCache.SixPassesConverge`, `ServiceCache.FivePassesMayNotSuffice`,
  `ServiceCache.HealthyIffNotBlocked`).

## Model

| member | source | states |
|---|---|---|
| `Cidr.ContainsIsInterval` | internal/consolidation/consolidation.go:246 | an address passes the mask test of a block exactly when it lies in the block's interval of 2^(w-len) addresses |
| `Cidr.Halves` | internal/consolidation/consolidation.go:174-178 | the block of length l+1 around an address is the left or the right half of the block of length l around it |
| `Cidr.SameBlockIff` | internal/consolidation/consolidation.go:176-178 | two addresses have the same block of length l exactly when their quotients by 2^(w-l) are equal |
| `Consolidation.GroupByParent` | internal/consolidation/consolidation.go:169-205 | a group has more than one member exactly when both halves of its parent are present, whatever duplicates the list has |
| `Consolidation.AppendMerged` | internal/consolidation/consolidation.go:207-223 | in whatever order the map is visited, exactly one entry is appended per parent with both halves |
| `Consolidation.MergeRound` | internal/consolidation/consolidation.go:153-224 | one round adds exactly the mergeable parents of that length, also when the round is skipped because fewer than two prefixes have the length |
| `Consolidation.MarkUnder` | internal/consolidation/consolidation.go:239-257 | marks exactly the longer blocks under one supernet, and keeps earlier marks |
| `Consolidation.MarkCovered` | internal/consolidation/consolidation.go:226-261 | marks exactly the blocks that lie under a shorter block of the list |
| `Consolidation.KeepUnmarked` | internal/consolidation/consolidation.go:263-274 | keeps every well-formed unmarked entry as often as it occurs, and nothing else |
| `Consolidation.SortByText` | internal/consolidation/consolidation.go:276-281 | a rearrangement ordered by address text |
| `Consolidation.Consolidate` | internal/consolidation/consolidation.go:150-286 | the output is, as a multiset, the entries of the input and of the merge closure that parse and have no supernet in the closure, sorted by text |
| `Consolidation.ConsolidateV4` | internal/consolidation/consolidation.go:150-286 | the same at width 32 |
| `Consolidation.ConsolidateV6` | internal/consolidation/consolidation.go:13-148 | the same at width 128 |
| `ConsolidationTheory.ClosureFacts` | internal/consolidation/consolidation.go:153-224 | the rounds from long to short reach a closed set: every block of length 2 or more with both halves present is present, and every new block has both halves |
| `ConsolidationTheory.ClosureSound` | internal/consolidation/consolidation.go:207-223 | merging adds no address |
| `ConsolidationTheory.WithinHasCover` | internal/consolidation/consolidation.go:153-224 | every block of length 2 or more inside the input's addresses is in the closure or lies under a block of it |
| `ConsolidationTheory.OutputBlocks` | internal/consolidation/consolidation.go:226-274 | the output blocks are exactly those of the closure without a supernet in it |
| `ConsolidationTheory.MeaningPreserved` | internal/consolidation/consolidation.go:153-274 | for every list of prefixes of any length, output and input denote the same addresses |
| `ConsolidationTheory.OutputIsCanonical` | internal/consolidation/consolidation.go:153-274 | for every list, which blocks the output has, said by addresses and not by the algorithm |
| `ConsolidationTheory.LongInputsGiveMaximalBlocks` | internal/consolidation/consolidation.go:153-274 | for inputs of length 2 or more the output blocks are exactly the maximal blocks of length 2 or more inside the input's addresses |
| `ConsolidationTheory.SameBlocksIff` | internal/consolidation/consolidation.go:153 | two inputs with the same addresses give the same blocks if and only if they have the same uncovered blocks of length 0 and 1 |
| `ConsolidationTheory.ShortBlocksStayApart` | internal/consolidation/consolidation.go:153 | a /1 and its two halves denote the same addresses and consolidate to different blocks, at every width |
| `ConsolidationTheory.OneTopPerBlock` | internal/consolidation/consolidation.go:226-274 | a block inside the input's addresses that has length 2 or more, or is an input block, meets one output block only |
| `ConsolidationTheory.OutputIsMinimal` | internal/consolidation/consolidation.go:153-274 | for every list, no set of blocks with the same addresses has fewer blocks than the output, unless it has a block of length 0 or 1 that the list does not have |
| `ConsolidationTheory.OutputIsNormal` | internal/consolidation/consolidation.go:153-274 | no output block lies under another, and no two output blocks of length 3 or more are siblings |
| `ConsolidationTheory.ConsolidateIsIdempotent` | internal/consolidation/consolidation.go:150-286 | consolidating an output again returns the same multiset of entries |
| `ConsolidationEntries.EntriesKeepMeaning` | internal/consolidation/consolidation.go:150-286 | an address agrees in the first size bits with a well-formed entry of the output, host bits or not, if and only if it does with one of the input |
| `ConsolidationEntries.KeptIff` | internal/consolidation/consolidation.go:263-274 | an input entry is kept, as often as it occurs and as it stands, if and only if it is well-formed and no shorter block around it is filled by the input or, below length 2, an entry; at most one copy is added, of size 2 or more and without host bits |
| `ConsolidationEntries.OutputIsSorted` | internal/consolidation/consolidation.go:276-281 | the output is in lexicographic order of the printed addresses |
| `MirrorObjects.SuppressedKeepsDesired` | internal/controller/downstream_controller.go:106-113 | an update event is dropped exactly when labels, annotations and spec are unchanged, and then no source wants a different mirror |
| `MirrorObjects.DesiredEqualIff` | internal/controller/downstream_controller.go:328-337 | two upstream objects want the same mirror exactly when they agree on annotations, spec and all labels but the source label |
| `MirrorObjects.QueueStaysValid` | internal/controller/downstream_controller.go:205-219 | adding, taking and finishing keep the queue's discipline: waiting keys are the dirty ones not being processed, each once |
| `MirrorOwnership.RunKeepsBase` | internal/controller/downstream_controller.go:205-220 | over every run, with any other writers: at most one worker of an instance holds a key, and a stored object whose version a worker read is still the object it read |
| `MirrorOwnership.LocalFieldsSurvive` | internal/controller/downstream_controller.go:341-365 | in every reachable state a worker step leaves status, UID, owner references and finalizers of every object that stays as they are, whatever others wrote between Get and Update |
| `MirrorOwnership.WritesOwnIffNotReplaced` | internal/controller/downstream_controller.go:339-426 | in every reachable state, with arbitrary other writers, a worker step changes only objects whose source label is its own ID if and only if it is not a Delete that takes effect on an object of another label stored since the Get; Create and Update need no assumption |
| `MirrorOwnership.OnlyOwnObjectsAreWritten` | internal/controller/downstream_controller.go:339-426 | over runs in which others leave mirrors in place, instances interleaved at single API calls create, update or delete only objects that carry their own source ID |
| `MirrorConvergence.ReconcileKeepsConverging` | internal/controller/downstream_controller.go:244-266 | one API call of a worker keeps every disagreement accounted for |
| `MirrorConvergence.RunKeepsSound` | internal/controller/downstream_controller.go:95-220 | the convergence invariant holds along every run |
| `MirrorConvergence.OwningIsCooperative` | internal/controller/downstream_controller.go:205-220 | instances never disturb each other as long as others leave their mirrors in place |
| `MirrorConvergence.StartingConverges` | internal/controller/downstream_controller.go:163-182 | the initial notifications and the pending sweep establish it |
| `MirrorConvergence.DisagreementIsActive` | internal/controller/downstream_controller.go:95-220 | in every reachable state a key in scope whose mirror disagrees with the cache is queued, at a worker (also between Done and AddRateLimited), awaiting retry, unswept, has an event that will queue it, has a mirror under deletion, or lost its mirror when such a deletion completed |
| `MirrorConvergence.IdleIsInSync` | internal/controller/downstream_controller.go:95-220 | in an idle system a key in scope fails to mirror upstream if and only if its mirror is under deletion and upstream lacks it or wants other content, or its mirror went when its deletion completed and the key was neither noted nor brought in sync since |
| `MirrorStartup.EnqueuePage` | internal/controller/downstream_controller.go:285-291 | queues exactly the items of a page that pass the namespace filter |
| `MirrorStartup.SweepKind` | internal/controller/downstream_controller.go:270-300 | following continue tokens queues every item of every page, and an error on any page is reported |
| `MirrorStartup.EnqueueExistingMirrors` | internal/controller/downstream_controller.go:268-303 | queues every listed mirror of every kind, in whatever order kinds are visited, and succeeds exactly when every page could be listed |
| `MirrorStartup.StartupConverges` | internal/controller/downstream_controller.go:163-182 | synced informers and a successful sweep establish the convergence invariant, including for objects deleted upstream while the instance was down |
| `MirrorStartup.TerminatingMirrorIsForgotten` | internal/controller/downstream_controller.go:351-353 | for every terminating mirror with stale content there is a run, without any other writer, that ends idle and out of sync |
| `MirrorStartup.ReleasedMirrorIsForgotten` | internal/controller/downstream_controller.go:351-353 | for every mirror under deletion there is a run that ends idle with the object upstream and no mirror, after the deletion completed |
| `MirrorStartup.ReplacedMirrorIsDeletedAnyway` | internal/controller/downstream_controller.go:414-426 | if another writer replaces a mirror between Get and Delete, the foreign object is deleted |
| `MirrorReconciler.DownstreamReconciler.EnsureNamespace` | internal/controller/downstream_controller.go:305-326 | when it succeeds, what it remembers, that remembered namespaces exist, and that after success the namespace exists, created if it was missing |
| `MirrorReconciler.DownstreamReconciler.Upsert` | internal/controller/downstream_controller.go:328-366 | store and result are those of the worker steps from the second Get on, for every way its calls can end |
| `MirrorReconciler.DownstreamReconciler.DeleteMirror` | internal/controller/downstream_controller.go:414-426 | store and result are those of the worker steps of a deletion |
| `MirrorReconciler.DownstreamReconciler.ReconcileKey` | internal/controller/downstream_controller.go:244-266 | store and result are those of the worker steps from picking the key to finishing it; with every call answered the key is served, field by field |
| `MirrorReconciler.SmoothPassServes` | internal/controller/downstream_controller.go:244-426 | with every call answered: a missing mirror is created with the spec, annotations and labels of its source, the source label set and nothing local; a live one gets them and keeps its local fields, unwritten if nothing differs; an unwanted one goes, or is marked if finalizers hold it; other objects stay; and the pass fails exactly on an unknown kind, an empty namespace or an object of another label |
| `MirrorReconciler.FirstKeyIsServed` | internal/controller/downstream_controller.go:205-220 | an idle worker can always, by its own steps alone, serve the first key of the queue and be idle again, with a failed key awaiting its retry |
| `MirrorReconciler.KeysGetQueued` | internal/controller/downstream_controller.go:95-150 | a delayed or unswept key comes to be queued, the cache catches up, and an event queues its key unless it is an update that changes neither labels, annotations nor spec |
| `MirrorReconciler.PassIsRun` | internal/controller/downstream_controller.go:205-220 | those steps are a run of the step system in which only that worker acts, so what holds of all runs holds of the code |
| `MirrorReconciler.SuccessIsInSync` | internal/controller/downstream_controller.go:244-266 | a pass that reports success leaves its key in sync if and only if the mirror it found was not stuck: a wanted one under deletion with other content, or an unwanted one with finalizers; a stuck one it leaves under deletion |
| `MirrorReconciler.InSyncPassKeepsContent` | internal/controller/downstream_controller.go:328-366 | once a key is in sync, a further pass leaves the content of the whole store unchanged, however its calls end |
| `Names.EqualFoldIsToUpper` | internal/webhook/v1alpha1/dnsendpoint_webhook.go:134-136 | the two ways the code compares record types without case agree |
| `Names.OverlapIffCommonName` | internal/webhook/v1alpha1/zone_webhook.go:64 | two zones overlap by the subdomain test exactly when some DNS name lies in both |
| `DnsAdmission.ValidDnsName` | internal/webhook/v1alpha1/dnsendpoint_webhook.go:110-123 | accepts exactly the non-empty domain names in which a wildcard is, if allowed, the whole first label |
| `DnsAdmission.ValidateTargets` | internal/webhook/v1alpha1/dnsendpoint_webhook.go:138-169 | accepts exactly when, under Simple routing, there are targets, all parse, and a CNAME has one, which is no IP address and not its owner |
| `DnsAdmission.MxOrNsTargets` | internal/webhook/v1alpha1/dnsendpoint_webhook.go:212-231 | yields exactly the mail and name server hosts the record points to |
| `DnsAdmission.ConflictsWith` | internal/webhook/v1alpha1/dnsendpoint_webhook.go:181-207 | finds a conflict exactly as the pairwise relation says |
| `DnsAdmission.ValidateConflicts` | internal/webhook/v1alpha1/dnsendpoint_webhook.go:171-210 | accepts exactly when no listed record other than the endpoint itself conflicts |
| `DnsAdmission.ConflictIsIncompatible` | internal/webhook/v1alpha1/dnsendpoint_webhook.go:193-247 | the two target extractors agree, so the check rejects a pair exactly when it is incompatible under a relation that treats both records alike |
| `DnsAdmission.CompatibleSymmetric` | internal/webhook/v1alpha1/dnsendpoint_webhook.go:186-207 | that relation is symmetric |
| `DnsAdmission.ValidateSpec` | internal/webhook/v1alpha1/dnsendpoint_webhook.go:57-108 | accepts an endpoint exactly when its own checks pass and no endpoint of its namespace conflicts |
| `DnsAdmission.ValidateZoneOverlaps` | internal/webhook/v1alpha1/zone_webhook.go:59-75 | returns exactly the names of the other zones that overlap |
| `DnsAdmission.ValidateZone` | internal/webhook/v1alpha1/zone_webhook.go:52-78 | accepts a zone exactly when it overlaps no other zone of the cluster |
| `DnsRules.SpecIffRules` | internal/webhook/v1alpha1/dnsendpoint_webhook.go:57-97 | the non-conflict checks accept exactly the records that satisfy the rules spelled out: spelling, TTL, type, selector, targets, one domain-name target of a CNAME other than its owner, and a zone of the namespace under which the name lies |
| `DnsRules.AdmittedIffRules` | internal/webhook/v1alpha1/dnsendpoint_webhook.go:57-108 | an endpoint is admitted if and only if it satisfies the rules by itself, with its zone and with every other endpoint of its namespace |
| `DnsRules.ZoneAdmittedIff` | internal/webhook/v1alpha1/zone_webhook.go:52-78 | a zone is admitted if and only if no name lies under it and under another zone, by labels |
| `DnsLifecycle.ZoneReconciler.Reconcile` | internal/controller/zone_controller.go:36-96 | the cluster after a pass, in each branch of the finalizer state machine, and for a live zone field by field; what a pass that reports an error may leave, with calls refused or answers lost; that it fails only when a call fails; and that it asks to be repeated exactly while endpoints name a zone under deletion |
| `DnsLifecycle.ZoneReconciler.DeleteReferring` | internal/controller/zone_controller.go:56-73 | deletes exactly the endpoints that name the zone, or some of them if a call fails, and reports whether there are any |
| `DnsLifecycle.EveryPassIsAStep` | internal/controller/zone_controller.go:36-96 | whatever a pass leaves, completed or cut short, is reached by a step of the runs below |
| `DnsLifecycle.LivePassTends` | internal/controller/zone_controller.go:82-95 | a pass over a live zone adds the cleanup finalizer to its own and sets it Healthy, and changes nothing else |
| `DnsLifecycle.TendedZoneIsSafeToDelete` | internal/controller/zone_controller.go:51-86 | once a zone was tended, and after any patient steps, deleting it is patient and orphans nothing whatever refers to it: it stays, under deletion, with all endpoints |
| `DnsLifecycle.NextKeepsInv` | internal/webhook/v1alpha1/dnsendpoint_webhook.go:57-108 | every step that orphans no endpoint keeps zones disjoint and endpoints valid in the zones they name |
| `DnsLifecycle.RunKeepsInv` | internal/webhook/v1alpha1/dnsendpoint_webhook.go:57-108 | so does every run of such steps |
| `DnsLifecycle.RunKeepsNamespaces` | internal/webhook/v1alpha1/dnsendpoint_webhook.go:57-108 | every run, without exception, keeps the endpoints of each namespace pairwise compatible |
| `DnsLifecycle.NamespaceIsConsistent` | internal/webhook/v1alpha1/dnsendpoint_webhook.go:171-251 | in every reachable state of every run, two endpoints of one namespace and owner differ in zone or type and neither is a CNAME, and no MX or NS record points to a CNAME owner, whichever came first |
| `DnsRules.EveryRunObeys` | internal/webhook/v1alpha1/dnsendpoint_webhook.go:57-251 | in every reachable state of every run the stored records satisfy the rules by themselves, and those of one namespace pairwise |
| `DnsRules.ZonesAreObeyed` | internal/webhook/v1alpha1/dnsendpoint_webhook.go:69-85 | in every state reached without an orphan each record lies, by labels, under the zone of its namespace that it names |
| `DnsRules.ZonesAreApart` | internal/webhook/v1alpha1/zone_webhook.go:52-78 | in every reachable state of every run no name lies, by labels, under two zones |
| `DnsLifecycle.NameInOneZone` | internal/webhook/v1alpha1/zone_webhook.go:52-78 | in every reachable state, of any run, no DNS name lies in two zones of the cluster |
| `DnsLifecycle.OwnersShareZone` | internal/webhook/v1alpha1/dnsendpoint_webhook.go:69-85 | two endpoints with one owner name are in one namespace and name one zone |
| `DnsLifecycle.RecordsAreConsistent` | internal/webhook/v1alpha1/dnsendpoint_webhook.go:171-210 | across the cluster, in every state reached without orphaning: two endpoints of one owner are in one namespace and one zone and differ in type, and neither is a CNAME |
| `DnsLifecycle.OwnersClashIffOrphaned` | internal/webhook/v1alpha1/dnsendpoint_webhook.go:99-105 | from a consistent state, two namespaces can come to own one name after a step if and only if that step removes a zone that endpoints still name; writes that dedicated tenancy admits are enough |
| `DnsLifecycle.OrderlyRunsLeaveNoOrphans` | internal/controller/zone_controller.go:51-86 | no run orphans an endpoint if zones are deleted only under the cleanup finalizer, only the reconciler removes it, and nothing is written into a zone after its cleanup |
| `DnsLifecycle.PatientRunsLeaveNoOrphans` | internal/controller/zone_controller.go:51-86 | the first two of those conditions suffice when zones carry no finalizer but the cleanup one |
| `DnsLifecycle.SecondFinalizerClashes` | internal/controller/zone_controller.go:78-79 | the first two of those conditions do not suffice: for every zone and record there is a run that keeps them, with a second finalizer on the zone and only writes that dedicated tenancy admits, that ends with one name owned in two namespaces |
| `DnsLifecycle.ZoneLeavesUnreferenced` | internal/controller/zone_controller.go:74-79 | a zone with the cleanup finalizer leaves the store only by a reconcile and only when no endpoint of its namespace names it |
| `DnsLifecycle.PassSparesOthers` | internal/controller/zone_controller.go:62-73 | a reconcile, completed or cut short, leaves endpoints of other zones and namespaces untouched |
| `DnsLifecycle.CleanupReachesZero` | internal/controller/zone_controller.go:51-76 | after one pass over a zone under deletion, no live endpoint names it, and none does later in any run without new endpoint writes |
| `DnsLifecycle.TwoPassesRemoveZone` | internal/controller/zone_controller.go:51-80 | two passes remove a zone under deletion and all endpoints that name it if and only if it has no other finalizer and none of the endpoints has finalizers or is already being deleted |
| `Routing.EndpointBuilder.WithService` | internal/builder/dnsendpoint_builder.go:67-72 | project, name, type and selector are set, and nothing else |
| `Routing.EndpointBuilder.Build` | internal/builder/dnsendpoint_builder.go:74-89 | the hash is of the object before the annotation that records it |
| `Routing.EndpointNamesDiffer` | internal/controller/service_routing_controller.go:146-155 | endpoint names have at most 253 characters, and two of a service are equal only for the same lowered name and the same record type |
| `Routing.EndpointNameIs` | internal/controller/service_routing_controller.go:146-155 | the name is the service name, the digest of the lowered DNS name and the lowered type; a service name too long is cut so that 253 characters suffice and then loses trailing dashes and dots |
| `Routing.SelectZone` | internal/controller/service_routing_controller.go:62-68 | the loop computes the selection function |
| `Routing.SelectedIsLongest` | internal/controller/service_routing_controller.go:62-71 | the selected zone covers the name, none that covers it is longer, and none is selected exactly when the covering zones have empty names |
| `Routing.LongestZoneIsSelected` | internal/controller/service_routing_controller.go:62-71 | a zone is selected exactly when one of the namespace and project with a non-empty name has the DNS name under it, by labels, and then it is one of the longest |
| `Routing.SelectedIsTheCover` | internal/controller/service_routing_controller.go:61-71 | with disjoint zones the only zone that covers the name is selected, unless its name is the empty text |
| `GeneratedRecords.ReachableSelection` | internal/controller/service_routing_controller.go:61-71 | in every cluster reachable by admissions and zone passes, the selected zone is the only one listed that covers the name |
| `GeneratedRecords.SelectionIgnoresOrder` | internal/controller/service_routing_controller.go:61-71 | hence the selection does not depend on the order of the list |
| `RoutingPass.RoutingReconciler.EnsureEndpoint` | internal/controller/service_routing_controller.go:72-121 | the endpoints after get and create, skip or update, the error cases, what a failed call may leave, and that an up-to-date endpoint is not written |
| `RoutingPass.RoutingReconciler.EnsureRecord` | internal/controller/service_routing_controller.go:72-121 | the same as one more record of the pass, and that it is written to exactly when it was not settled |
| `RoutingPass.RoutingReconciler.EnsureNames` | internal/controller/service_routing_controller.go:61-122 | all wanted records are applied in order, or some first ones of them if the code reports an error or a call fails |
| `RoutingPass.RoutingReconciler.DeleteStale` | internal/controller/service_routing_controller.go:124-141 | deletes exactly the controlled endpoints that are not wanted, or some of them if a call fails |
| `RoutingPass.RoutingReconciler.Reconcile` | internal/controller/service_routing_controller.go:42-144 | the endpoints after a pass; what a failed one may leave, with calls refused or answers lost; that with reliable calls it fails only where the code reports an error; and that a pass without error writes nothing exactly when the state was settled |
| `RoutingExact.EnsuredMatches` | internal/controller/service_routing_controller.go:107-110 | a skipped write was not needed: because the stored hash is truthful, the endpoint already was as wanted |
| `RoutingExact.AppliedMatches` | internal/controller/service_routing_controller.go:61-122 | after the first loop every wanted record is as wanted and nothing else has changed |
| `RoutingExact.WantedRecordsExist` | internal/controller/service_routing_controller.go:51-144 | after an error-free pass every name has its A and its AAAA record, with the service's UID as controller, its project, its selector and a zone of its project under which the name lies |
| `RoutingExact.AllRecordsIffNamesAgree` | internal/controller/service_routing_controller.go:146-148 | after an error-free pass all names have their two records if and only if no two of them differ in case only |
| `RoutingExact.PassSucceedsIff` | internal/controller/service_routing_controller.go:61-122 | with every call answered a pass succeeds if and only if every name lies under a zone of the project and every wanted endpoint is absent, or of the project and without a controller of another kind or name |
| `RoutingExact.ForeignIsLeft` | internal/controller/service_routing_controller.go:104-116 | however a pass ends, a wanted endpoint of another project, or with a controller of another kind or name, is exactly as before |
| `RoutingExact.NothingElseChanges` | internal/controller/service_routing_controller.go:42-144 | however a pass ends, an unwanted endpoint in another namespace, without a controller, or with a controller of another UID is exactly as before, and none appears; after an error-free pass the unwanted ones with the service's UID are gone or being deleted |
| `RoutingExact.PassKeepsTruth` | internal/builder/dnsendpoint_builder.go:74-89 | every pass of every service, failed or not, keeps all recorded hashes truthful, without assumptions on names or digest collisions |
| `RoutingExact.HistoryIsTruthful` | internal/controller/service_routing_controller.go:42-144 | so hashes are truthful in every state of every history of passes of any services interleaved with other writers that record no hash and leave hashed specs alone |
| `RoutingExact.PassSettles` | internal/controller/service_routing_controller.go:107-141 | after an error-free pass the state is settled if and only if no two names differ in case only and no stale endpoint had finalizers or was already being deleted |
| `GeneratedRecords.SpecOkIff` | internal/webhook/v1alpha1/dnsendpoint_webhook.go:57-97 | apart from conflicts, the webhook accepts a built record exactly when the service has a route selector and both names are valid |
| `GeneratedRecords.TenancyIff` | internal/tenancy/validation.go:41-86 | tenancy accepts it exactly when the service's project exists, is not being deleted and is properly placed |
| `GeneratedRecords.BuiltRecordsAreAdmissible` | internal/controller/service_routing_controller.go:61-85 | every record the pass builds for such a service passes both, on creation and on update |
| `GeneratedRecords.PassLeavesAdmissibleRecords` | internal/controller/service_routing_controller.go:61-122 | so does every wanted record found in the store after a pass, written or skipped |
| `ServiceCache.CacheReconciler.Reconcile` | internal/controller/service_cache_controller.go:52-300 | the state after a pass: which child, the first that is not as built, is written, and when Healthy is written; what a pass may leave when calls fail; that services missing or being deleted are left alone; and exactly when it fails or panics with reliable calls |
| `ServiceCache.CacheReconciler.Ensure` | internal/controller/service_cache_controller.go:101-126 | the child is left alone exactly when its recorded hash matches, and otherwise becomes as built, or stays if a call fails |
| `ServiceCache.OneChildPerPass` | internal/controller/service_cache_controller.go:73-299 | a new service is first marked Progressing; after that a pass changes at most one child, and only to what is built for it or, for a deployment that a Static origin does not need, to none |
| `ServiceCache.ChildrenInOrder` | internal/controller/service_cache_controller.go:73-299 | each child is written only when those before it record the hash of what is built now, and the Ingress and the Healthy status only when all do |
| `ServiceCache.PassesStayTruthful` | internal/controller/service_cache_controller.go:119-125 | recorded hashes stay truthful over any series of passes, whole or cut short, however the spec changes between them |
| `ServiceCache.SixPassesConverge` | internal/controller/service_cache_controller.go:73-299 | whatever passes for whatever specs came before, six whole passes for a spec that does not block them, among any failed ones, reach a Healthy service with every required child as built and no superfluous deployment, and then nothing changes |
| `ServiceCache.FivePassesMayNotSuffice` | internal/controller/service_cache_controller.go:73-299 | five passes are not enough from some state |
| `ServiceCache.HealthyMeansAsBuilt` | internal/controller/service_cache_controller.go:288-293 | Healthy is written, for the first time or again, only in a pass that leaves every required child as built, and a status becomes Healthy only by such a write |
| `ServiceCache.BlockedNeverHealthy` | internal/controller/service_cache_controller.go:87-89 | a Static origin without origins, on which the pass panics, or a certificate that does not decode keeps a service from becoming Healthy, however many passes run |
| `ServiceCache.HealthyIffNotBlocked` | internal/controller/service_cache_controller.go:73-299 | with six whole passes, a service that is not Healthy becomes so if and only if neither is the case |
| `Tenancy.ValidateReference` | internal/tenancy/validation.go:64-75 | accepts exactly a named, existing target of the same namespace and project |
| `Tenancy.ValidateLocations` | internal/tenancy/validation.go:90-101 | accepts exactly when every fallback and the parent is another location of the project |
| `Tenancy.ValidateNodes` | internal/tenancy/validation.go:102-113 | accepts exactly when every health check of every group and node is one of the project |
| `Tenancy.ValidateResource` | internal/tenancy/validation.go:37-116 | accepts exactly the resources whose project may place them, is kept and alive, and of which every reference field (zone, destination, fallbacks, parent, health checks of nodes, groups and their nodes) names an object of the namespace and project, a location not itself |
| `Tenancy.DedicatedIsContained` | internal/tenancy/scope.go:23-38 | in dedicated mode every reference that resolves stays within one project, in every reachable state, even after targets are deleted and recreated |
| `Tenancy.KeptTargetsAreContained` | internal/tenancy/validation.go:64-116 | in either mode, over runs in which no referenced object is deleted, every reference resolves within one project |
| `Tenancy.KeptReferencesResolve` | internal/tenancy/validation.go:64-116 | in every reachable state of a run that keeps targets, every reference field of every stored resource names an object of the same namespace and project |
| `Tenancy.DedicatedReferencesAgree` | internal/tenancy/scope.go:23-38 | in dedicated mode, in every reachable state of every run, every stored resource is of the project of its namespace, and so is every object that one of its reference fields names |
| `Tenancy.CrossesIffTargetDeleted` | internal/tenancy/validation.go:64-116 | from a store where every reference resolves, a reference can come to cross projects after a step if and only if the mode is shared and the step deletes an object that another refers to |
| `Tenancy.RecreatedTargetCrossesProjects` | internal/tenancy/validation.go:68-73 | in shared mode a target recreated under another project leaves a reference across projects, for any two projects |

## Left out

- Text of addresses and CIDRs, IPv4-mapped IPv6 and the aliasing of Go slices: an address is an
  integer or malformed, and its printed form, used by the final sort, is a parameter.
- The comparison function of the final sort is applied by insertion; `sort.Slice` promises no more than
  a sorted rearrangement.
- The setters of the mirror's object copies: a copy is a value and a setter a record update, because the
  step system relates whole states under interleaving.  `MirrorReconciler` has the pass in the form of
  the code.
- `ensureNamespace` in the step system: one call that succeeds or fails; its two API calls and its
  memory of known namespaces are in `MirrorReconciler`.  Namespaces are not deleted.
- Rate limits and delays: a delayed key comes back at some later step.
- A claim that a second mirror pass issues no write: the code compares whole objects including managed
  fields, so idempotence is stated on content.
- The record parser, escaped labels and trailing dots: a name is a label sequence, and parsing is a
  function of record type and target.  Zone names are taken as stored without a trailing dot.  Two
  names of a service that differ in a trailing dot only share an endpoint like those that differ in case.
- Stale reads of the webhooks: checking and storing a write is one step.
- MX and NS targets across namespaces, and a service's domain against another's alias: the code does not
  check them.
- Deletion checks of the Zone webhook: the webhook is not registered for deletion.
- MD5 and JSON: one hash without collisions.  The 12-digit name digest is assumed collision-free for the
  names of one service only.
- Interleaving within a pass of the zone, routing and cache reconcilers: a pass, completed or cut short
  by a failed call, is one step.  In the cache reconciler deletions are immediate.
- Contents built for Service, Deployment, Secret and Ingress: opaque, fixed by the spec.
- The challenge reconciler and `GetOwnerInChain`; the HealthCheckProfile, Location and PrefixList
  reconcilers; feature gates; the remaining webhooks: easy to read off, or not about state.
- Start-up wiring, TLS, leader election, logging, generated code and manifests.
