# Locations operator: a verified model

The operator publishes Locations to a federation hub, protects the LocationClasses they name, reports
their readiness, and lets a cell work out which location it serves. This project models those four
parts in Dafny and proves what they promise each other and their users.

## What is modelled

* **Publisher.** For every Location it keeps one ServingLocation and one propagation policy on the hub.
  `Reconciling` is a reconcile as a sequence of API calls (`Advance` makes one call, `Run` all of them);
  `Publisher` is the reconciler as classes whose methods edit the stores, each proved to do what `Run`
  says, for any combination of failing calls. `Protocol` puts the calls among everybody else: users
  editing Locations, actors editing the hub, watches that lag, retries, timers, a new leader. On its runs
  stand `Convergence`, `DeletionSafety`, `PublishedAtHistory`, `Delivery` and `Fleet`. `Settling` shows
  that whole reconciles which wake their own names come to rest; `Quieting` bounds the calls one by one.
  `TakingOver`, `OrphanedPolicies` and `Disturbance` are about what happens between two calls of one
  reconcile; `PublishedAtRaces`, `RemovalRaces` and `Livelock` are runs in which that, or a lagging cache, gets
  in the way.
* **Class finalizer.** `ClassFinalizing` (calls), `ClassController` (classes and methods),
  `ClassProtocol`, `ClassSafety` and `ClassRaces` (runs).
* **Readiness and acceptance.** `Readiness` (calls), `ReadinessController` (classes and methods),
  `ReadinessProtocol` (runs of one operator among others), `ConditionSafety` (what a report does to the
  conditions of others), `AcceptedProtocol` and `ReadyAndAccepted` (runs of the accepting controller, and what
  Ready says of the class), `Operators` (several operators, interleaved call by call).
* **Identity.** `Identity` is the resolution a cell makes; `Delivery` derives what a cell receives from
  the policies on the hub and closes the loop to the Location the cluster's label names.

An API call has one of three fates: it succeeds, it is refused, or it takes effect and the reply is
lost. A cached read is arbitrary while a watch event for what it reads is in flight and current
otherwise.

## What turned out otherwise than intended

Each of these is proved with a concrete input or run, and with the exact condition under which the intended
property holds.

* A Location whose city code carries surrounding white space is stamped anew by every reconcile: the code
  is compared trimmed but copied untrimmed. A publish comes to rest exactly when the code is trimmed
  (`Settling.RestsExactlyWhenTrimmed`).
* The content comparison takes an empty topology value for a missing key, so the timestamp of a publishable
  Location is right for every owned copy exactly when the code is trimmed and no value is empty
  (`ContentEquality.TimestampTracksContentExactly`).
* A retry that reads the hub cache before an earlier write has reached it can stamp the copy anew, and can
  move publishedAt back (`PublishedAtRaces.LaggingReadRestamps`, `LaggingReadGoesBack`). On every run
  publishedAt is right throughout exactly when every publish that lands is informed: a snapshot of the
  Location's content must carry the timestamp due, and where the snapshot has other content so must the
  copy, unless it was stamped at this very time (`PublishedAtHistory.PublishedAtIsLastChangeExactly`).
* The delete carries no precondition. A removal deletes a foreign ServingLocation exactly when the last edit
  since its read left one there or, with no edit since, the object was foreign already and the cache did not
  show it (`DeletionSafety.DeletedObjectIsTheCopyRead`, `RemovalRaces.RelabelledCopyIsDeleted`,
  `StaleReadDeletesTheirs`).
* A policy can outlive its copy for good. On every run, one that is there without its copy stays, while there is
  no copy and nobody edits it, exactly until an unrefused policy delete: a retry, or the next leader, finds no
  copy and ends before that delete (`OrphanedPolicies.PolicyStaysExactly`, `OrphanStaysOnRuns`,
  `RemovalRaces.LeaderChangeOrphansPolicy`; `PolicyOutlivesCopyExactly` is one undisturbed reconcile). It goes on
  serving the kinds of the configuration it was written under (`Delivery.OrphanedPolicyDelivers`).
* A publish makes a foreign object its own exactly when the last edit since its read left one there or, with no
  edit since, it was there at the read and the cache did not show it
  (`TakingOver.OverwrittenObjectIsTheCopyRead`, `TheirsIsTakenOver`).
* A readiness report sends the whole list of conditions, so it keeps those of other kinds exactly when what it
  read of them is what edits have made of them since (`ConditionSafety.OtherConditionsKeptExactly`,
  `ConditionOfAnotherIsLost`).
* The guard lists the clusters before the deletes. On every run the deletes disturb, of the Ready clusters, only
  those that claim the location by then and were not so listed; the policy's delete disturbs a cluster exactly when
  the policy is there and the cluster carries its label (`Disturbance.RemovalDisturbsOnlyLateComers`,
  `PolicyDeleteDisturbsExactly`, `RemovalRaces.LateComerIsDisturbed`).
* Lifting a block also removes annotations added since the read, an override among them, exactly when the
  block was the only annotation read and there are others to lose (`Reconciling.LiftKeepsOthersExactly`,
  `OverrideIsLost`).
* A class is released although a Location names it exactly when the Location's last edit since the listing
  made it name the class or, with no edit since, it did at the listing and the cache did not show it
  (`ClassSafety.OnlyUnlistedReferencesAreMissed`, `ClassRaces.LateReferenceIsMissed`,
  `OlderReferenceIsMissed`).
* Hold and release replace the whole finalizer list, so the finalizers of others are kept exactly when what
  was read of them is what edits have made of them since (`ClassSafety.OtherFinalizersKeptExactly`,
  `ClassRaces.FinalizerOfAnotherIsLost`).
* On a hub whose policies are the publisher's, a cluster can receive two ServingLocations exactly when the
  configuration lists ServingLocation as a location-scoped kind (`Delivery.AtMostOneCopyExactly`).
* Readiness tests the untrimmed city code, so a white-space code is Ready but never published
  (`Readiness.ReadyButUnpublishableExactly`).
* The difference of the fleet gauges is the documented gap exactly when no live copy is stale; over runs, once
  all is quiet, it is the conflicted names less the stale ones (`Fleet.GapIsDocumentedExactly`,
  `QuietGapCounts`).
* With nobody interfering, nothing failing and city codes trimmed, the publisher comes to rest but for its lagging
  reads: from any world of any run, the actions are at most 330 a name and 331 a lagging read, so such runs are
  bounded exactly when their lagging reads are (`Quieting.UndisturbedRunsAreAsLongAsTheyLag`); with reads one
  version behind there are such runs of any length (`Livelock.LaggingReadsNeverSettle`).
* The documentation asks for an Accepted class before a Location becomes ready (docs/api/locations.md:407). The
  code never reads that condition (`ReadyAndAccepted.ReadyExactly`, `ReadyWithoutAcceptance`). Once the accepting
  controller has nothing outstanding for the class of a Ready Location, the class is sure to be accepted exactly
  when it is not being deleted, or says so already (`ReadyAndAccepted.QuietReadyIsAcceptedExactly`).
* The documentation says that a cell given two locations refuses to guess (README.md:74). It refuses exactly
  when none is configured, and otherwise takes the configured one (`Identity.RefusesToGuessExactly`,
  `GuessesAnother`).

## Model

| member | source | states |
|---|---|---|
| Publication.PolicyOwnersInvertsPolicyName | internal/controller/location_publisher_controller.go:644-652 | a policy event wakes exactly the name whose policy it is, also for names that begin with "location-" |
| Publication.PolicyNameInjective | internal/controller/location_publisher_controller.go:452-454 | two names never share a policy |
| Publication.GuardAllowsExactly | internal/controller/location_publisher_controller.go:290-332 | the guard allows a removal iff every Ready cluster carries a non-empty label other than the name |
| Publication.GuardReasonExactly | internal/controller/location_publisher_controller.go:317-331 | the reason is ClustersStillServing iff some Ready cluster claims the name, FleetNotFullyLabelled iff none does and some Ready cluster is unlabelled |
| Publication.RefusalNamesExactly | internal/controller/location_publisher_controller.go:314-331 | a refusal lists, sorted, exactly the Ready clusters with the location's label or, when there are none, those without a label |
| Publication.ClusterReadyExactly | internal/controller/location_publisher_controller.go:334-349 | a cluster is Ready iff its conditions can be read and some entry, at any position, is a map of type "Ready" and status "True" |
| Publication.GuardHeedsReadyAnywhere | internal/controller/location_publisher_controller.go:300-326 | such an entry anywhere in the list of a cluster labelled for the name makes the guard refuse with ClustersStillServing |
| Publication.GuardIgnoresUnready | internal/controller/location_publisher_controller.go:304-332 | a cluster without one plays no part: leaving it out changes neither decision nor message |
| Publication.GuardCanonical | internal/controller/location_publisher_controller.go:300-332 | decision, reason and message do not depend on the order clusters are listed in |
| Text.SortCanonical | internal/controller/location_publisher_controller.go:314-315 | sorting two permutations gives the same list |
| Text.BeforeIsLexicographic | internal/controller/location_publisher_controller.go:314-315 | the order sorted by: a prefix first, else the smaller character at the first difference |
| Text.JoinConcat | internal/controller/location_publisher_controller.go:317-330 | joined strings stand in order with one separator between any two |
| Text.DecimalReads | internal/controller/location_publisher_controller.go:327 | a count is written in digits that read as it, without leading zeros |
| Text.IsSpaceExactly | internal/controller/location_publisher_controller.go:132 | white space is the 25 characters of the Unicode White_Space property |
| Text.TrimSpaceTrims | internal/controller/location_publisher_controller.go:132 | trimming takes white space, and nothing else, off both ends, and leaves none there |
| Text.TrimmedExactly | internal/controller/location_publisher_controller.go:132 | it changes nothing iff neither end is white space, and leaves nothing iff all of it is |
| Text.TrimSpaceIdempotent | internal/controller/location_publisher_controller.go:132 | trimming twice is trimming once |
| Publication.CityCodeExactly | internal/controller/location_publisher_controller.go:132 | publishable iff some character of the code is not white space; trimmed iff the code is empty or neither its first nor its last is |
| ContentEquality.ContentEqualIsExact | internal/controller/location_publisher_controller.go:585-605 | the size test and one-sided loop decide equality of generation and topology, for trimmed codes and non-empty values |
| ContentEquality.EmptyValueFoolsComparison | internal/controller/location_publisher_controller.go:596-603 | for every publishable Location with a trimmed city code and an empty value some owned copy of another topology passes for equal |
| ContentEquality.TimestampTracksContentExactly | internal/controller/location_publisher_controller.go:156-159 | for a publishable Location the timestamp moves exactly with the content, over every owned copy and clock, iff the code is trimmed and no value is empty |
| Reconciling.RunIsLocal | internal/controller/location_publisher_controller.go:126-250 | a reconcile writes no other name's copy or policy, whatever fails |
| Reconciling.RunIgnoresOthers | internal/controller/location_publisher_controller.go:126-250 | its result and effect are decided by its own name's objects |
| Reconciling.ReconcilesCommute | internal/controller/location_publisher_controller.go:104-250 | reconciles of two names leave the same hub and results in either order |
| Reconciling.EmptySourceNeverPrunes | internal/controller/location_publisher_controller.go:271-287 | on one snapshot an empty source list always disables pruning, because the copy itself is held |
| Reconciling.LocalWritesWake | internal/controller/location_publisher_controller.go:618-652 | the hub watches wake a name iff its copy or policy changed, and no other name |
| Reconciling.LiftKeepsOthersExactly | internal/controller/location_publisher_controller.go:372-389 | lifting a block keeps the other annotations iff others were read too or there are none to lose |
| Reconciling.OverrideIsLost | internal/controller/location_publisher_controller.go:383-385 | an override set between read and patch goes with the block |
| Publication.BlockedRequeue | internal/controller/location_publisher_controller.go:252-258 | a held-back removal is looked at again after five minutes, or after the resync period where that is positive and shorter |
| Settling.ReconcileReachesTarget | internal/controller/location_publisher_controller.go:104-250 | a fault-free reconcile, call by call, leaves the hub the one-line specification gives, and comes back after the resync period, the blocked period or not at all |
| Settling.OnlyTrueOverrides | internal/controller/location_publisher_controller.go:210-239 | with the guard refusing and pruning allowed, a fault-free reconcile of an absent name removes its owned copy iff the override annotation reads exactly "true" |
| Settling.FailedListsEndRemoval | internal/controller/location_publisher_controller.go:216-225 | a removal waits when it cannot list Locations or copies and is retried when it cannot list clusters, the hub left alone |
| Settling.OneReconcileRests | internal/controller/location_publisher_controller.go:126-250 | after one reconcile a second writes nothing: published, blocked, removed, prune-disabled and foreign alike |
| Settling.RestsExactlyWhenTrimmed | internal/controller/location_publisher_controller.go:132-167 | a published Location comes to rest iff neither the first nor the last character of its city code is white space |
| Settling.AtRestExactly | internal/controller/location_publisher_controller.go:126-250 | the names no reconcile would touch are exactly those published as desired, gone, or retained with the block recorded |
| Settling.WritesWakeOnlyTheirOwnName | internal/controller/location_publisher_controller.go:618-635 | a reconcile re-enqueues its own name iff it wrote anything, and never another |
| Settling.OthersKeepRest | internal/controller/location_publisher_controller.go:126-250 | another name's reconcile neither disturbs nor settles a name |
| Settling.DrainIsBounded | internal/controller/location_publisher_controller.go:618-635 | draining any backlog in any order takes at most two reconciles a name |
| Settling.DrainedNamesRest | internal/controller/location_publisher_controller.go:104-250 | every name that leaves the queue leaves it at rest |
| Quieting.CallSpends | internal/controller/location_publisher_controller.go:104-250 | a call of an undisturbed reconcile on current reads leaves it knowing where the hub stands, and changes only what its name had left to change |
| Quieting.UndisturbedRunsAreAsLongAsTheyLag | internal/controller/location_publisher_controller.go:104-250 | from any world of any run, with city codes trimmed, undisturbed fault-free actions in any order are at least the lagging reads and at most 330 a name and 331 a lagging read |
| Quieting.CalmRunsEnd | internal/controller/location_publisher_controller.go:618-635 | with reads that do not lag an undisturbed run ends, within 330 actions a name, and 75 if no reconcile rests on an old read to begin with |
| Quieting.CalmRunsEndQuiet | internal/controller/location_publisher_controller.go:618-635 | and where it can go no further every name is quiet and converged |
| Livelock.LaggingReadsNeverSettle | internal/controller/location_publisher_controller.go:143-159 | undisturbed, fault-free runs of any length in which reads are one version behind |
| OrphanedPolicies.PolicyOutlivesCopyExactly | internal/controller/location_publisher_controller.go:237-242 | a policy outlives the copy an undisturbed reconcile took away iff the copy's delete lost its reply or the policy's was refused |
| OrphanedPolicies.OrphanStays | internal/controller/location_publisher_controller.go:196-209 | without Location and copy an undisturbed reconcile writes nothing |
| OrphanedPolicies.PolicyStaysExactly | internal/controller/location_publisher_controller.go:196-250 | on every run, a policy there without its copy is there later, no copy having come and nobody having edited it, iff no unrefused policy delete lies between |
| OrphanedPolicies.OrphanStaysOnRuns | internal/controller/location_publisher_controller.go:199-209 | on every run with current reads, once no removal is under way no reconcile takes the orphan away |
| RemovalRaces.LeaderChangeOrphansPolicy | internal/controller/location_publisher_controller.go:237-242 | a run in which every call succeeds, nobody edits anything, and a change of leader between the two deletes leaves the policy behind |
| Fleet.CountsConserve | internal/controller/location_publisher_controller.go:564-575 | the live copies are the owned ones without the block annotation, the retained ones those with it, and they add up to the owned copies |
| Fleet.PublishableExactly | internal/controller/location_publisher_controller.go:551-556 | the publishable names are those of the Locations whose city code is not all white space |
| Fleet.GapCounts | internal/controller/location_publisher_controller.go:551-575 | publishable less published is publishable without a live copy less live copies no publishable Location stands behind |
| Fleet.GapIsDocumentedExactly | internal/controller/metrics.go:22-24 | that difference is the documented gap iff no live copy is stale |
| Fleet.QuietGapCounts | internal/controller/location_publisher_controller.go:542-576 | on every run, once all is quiet, the gauges differ by the publishable names whose hub object is foreign less the stale live copies |
| Publisher.LocationPublisherReconciler.Reconcile | internal/controller/location_publisher_controller.go:104-124 | does to the hub what the call-by-call protocol does, under any faults, and samples the fleet afterwards |
| Publisher.LocationPublisherReconciler.Publish | internal/controller/location_publisher_controller.go:126-159 | the publishing half is the protocol's |
| Publisher.LocationPublisherReconciler.Apply | internal/controller/location_publisher_controller.go:156-194 | the writes of a publish and their faults are the protocol's |
| Publisher.LocationPublisherReconciler.ApplyPropagationPolicy | internal/controller/location_publisher_controller.go:395-439 | the loop builds the desired policy: conflicts overwritten, placed by the label of its location, one selector for the copy and one a scoped kind |
| Publisher.LocationPublisherReconciler.ClearBlocked | internal/controller/location_publisher_controller.go:372-389 | sends the difference between the annotations read and edited: the block goes, and the whole map with it when nothing else was read |
| Publisher.LocationPublisherReconciler.RecordBlocked | internal/controller/location_publisher_controller.go:351-370 | writes the block once, and nothing when it is already recorded |
| Publisher.LocationPublisherReconciler.Remove | internal/controller/location_publisher_controller.go:196-250 | the removing half is the protocol's |
| Publisher.LocationPublisherReconciler.Delete | internal/controller/location_publisher_controller.go:237-249 | the two deletes and their faults are the protocol's |
| Publisher.LocationPublisherReconciler.PruneAllowed | internal/controller/location_publisher_controller.go:260-288 | true iff both caches are synced, the source lists, and it is not empty or the copies list and none is held; the run goes on accordingly |
| Publisher.LocationPublisherReconciler.EvaluateRemovalGuard | internal/controller/location_publisher_controller.go:290-332 | the loop over clusters computes the guard's decision |
| Publisher.LocationPublisherReconciler.KarmadaClusterReady | internal/controller/location_publisher_controller.go:334-349 | the loop over the raw conditions finds a Ready entry at any position |
| Publisher.LocationPublisherReconciler.RefreshFleetMetrics | internal/controller/location_publisher_controller.go:542-576 | the gauges are the counts of publishable Locations, live and retained copies, or untouched when a list fails |
| Publisher.LocationPublisherReconciler.CountPublishable | internal/controller/location_publisher_controller.go:551-556 | the loop counts the publishable Locations |
| Publisher.LocationPublisherReconciler.CountCopiesByState | internal/controller/location_publisher_controller.go:564-571 | the loop counts live and retained copies |
| Protocol.UndisturbedCallsAreARun | internal/controller/location_publisher_controller.go:104-250 | the interleaved protocol, when nobody interferes, is the whole reconcile |
| Convergence.QuietCallProgresses | internal/controller/location_publisher_controller.go:126-250 | a call that sees the truth and changes nothing keeps the reconcile's knowledge true |
| Convergence.QuiescenceMeansConvergence | internal/controller/location_publisher_controller.go:104-250 | on every run, a name that has gone quiet has its copy and policy as desired, or no owned copy, or a removal on a timer |
| DeletionSafety.OnlyDeleteCallsRemove | internal/controller/location_publisher_controller.go:237-239 | only a name's own delete call takes its copy off the hub |
| DeletionSafety.DeletionIsSafe | internal/controller/location_publisher_controller.go:196-239 | on every run, a deletion rests on what this same reconcile was told, in order: Location absent, copy there and owned, caches synced, source not empty or nothing held, override exactly "true" or fleet moved on; and what the stores then held |
| DeletionSafety.DeletedObjectIsTheCopyRead | internal/controller/location_publisher_controller.go:199-239 | on every run, the object deleted is the one on the hub at the read as edited since: foreign iff the last such edit, or the object at the read, is |
| RemovalRaces.RelabelledCopyIsDeleted | internal/controller/location_publisher_controller.go:210-239 | a run in which a copy relabelled after the read is deleted |
| RemovalRaces.StaleReadDeletesTheirs | internal/controller/location_publisher_controller.go:199-239 | a run in which one relabelled before the read is deleted, nobody editing afterwards |
| TakingOver.OverwrittenObjectIsTheCopyRead | internal/controller/location_publisher_controller.go:143-179 | on every run, the object a publish overwrites and owns is the one on the hub at its read as edited since: foreign iff the last such edit, or the object at the read, is |
| TakingOver.TheirsIsTakenOver | internal/controller/location_publisher_controller.go:147-179 | a run in which an object created after the read becomes the publisher's |
| PublishedAtHistory.StampIsDueExactly | internal/controller/location_publisher_controller.go:156-159 | a publish writes the timestamp due iff what it read of the copy gives it away |
| PublishedAtHistory.PublishedAtIsLastChangeExactly | internal/controller/location_publisher_controller.go:143-173 | on every run, publishedAt has always been the time of the last call that changed generation or topology iff every publish that landed was informed |
| PublishedAtHistory.CurrentReadsTrack | internal/controller/location_publisher_controller.go:143-173 | with current reads every publish is informed and every timestamp right |
| PublishedAtHistory.PublishedAtNeverDecreases | api/v1alpha1/servinglocation_types.go:60-66 | while publishes are informed publishedAt never goes back, not even across a removal |
| PublishedAtRaces.LaggingReadRestamps | internal/controller/location_publisher_controller.go:143-159 | a run in which a stale read of the copy stamps unchanged content anew |
| PublishedAtRaces.LaggingReadGoesBack | internal/controller/location_publisher_controller.go:143-159 | a run, under a clock that does not, in which publishedAt goes back |
| Delivery.GuardAgreesWithPlacement | internal/controller/location_publisher_controller.go:419-427 | the guard's label test and the policy's placement agree on every Ready cluster |
| Delivery.CarriesExactly | internal/controller/location_publisher_controller.go:396-413 | a policy carries exactly the location's copy and the objects naming it under a label configured for their kind |
| Delivery.PoliciesStayOurs | internal/controller/location_publisher_controller.go:395-450 | on every run that leaves policies to the publisher, every policy on the hub stays one it writes |
| Delivery.IsolationIsExact | internal/controller/location_publisher_controller.go:391-432 | on a hub whose policies are the publisher's, an object reaches a cluster iff the cluster's non-empty label names a location whose policy is written and the object is that location's |
| Delivery.OrphanedPolicyDelivers | internal/controller/location_publisher_controller.go:203-242 | a policy left behind under an earlier configuration delivers and no reconcile of its name writes anything |
| Delivery.DeliveredIsTheLabel | internal/controller/location_publisher_controller.go:396-432 | the ServingLocations such a hub delivers to a cluster are the one its label names, or none |
| Delivery.ScopedCopiesCollide | internal/controller/location_publisher_controller.go:403-413 | a hub of the publisher's and a cluster that collide when ServingLocation is configured as scoped |
| Delivery.AtMostOneCopyExactly | internal/controller/location_publisher_controller.go:396-432 | no cluster receives two ServingLocations from any such hub iff ServingLocation is not configured as scoped |
| Delivery.ReconcileSparesOtherClusters | internal/controller/location_publisher_controller.go:104-250 | a reconcile changes no delivery to a cluster labelled for another location or none, whoever wrote the other policies |
| Delivery.AllowedRemovalDisturbsNoReadyCluster | internal/controller/location_publisher_controller.go:290-332 | an undisturbed removal the guard allows changes what no Ready cluster receives |
| Disturbance.PolicyDeleteDisturbsExactly | internal/controller/location_publisher_controller.go:419-450 | deleting a policy changes what a cluster is delivered iff the policy is there and the cluster carries its location's label |
| Disturbance.RemovalDisturbsOnlyLateComers | internal/controller/location_publisher_controller.go:221-242 | on every run, the Ready clusters a removal disturbs without an override of exactly "true" claim the location and did not so when its guard listed them |
| RemovalRaces.LateComerIsDisturbed | internal/controller/location_publisher_controller.go:221-242 | a run in which a cluster relabelled after the guard loses the policy it is then served by |
| Delivery.ResolutionIsDecidedByLabel | pkg/locationidentity/identity.go:58-106 | a cell resolves to its label's published location, else the configured one, else NoLocationIdentity, and is never ambiguous |
| Delivery.QuietCellsResolveTheirLabel | pkg/locationidentity/identity.go:75-82 | on every run, once a publishable Location is quiet every cell labelled for it resolves to it |
| Identity.RefusesToGuessExactly | pkg/locationidentity/identity.go:84-96 | given two locations or more, a cell refuses iff none is configured, and otherwise takes the configured one |
| Identity.GuessesAnother | pkg/locationidentity/identity.go:84-87 | a cell given two locations that takes a third |
| Identity.ResolvesExactly | pkg/locationidentity/identity.go:58-106 | a failed list fails; the answer is the delivered location iff exactly one is, and the configured one iff one is configured and not exactly one delivered |
| ClassFinalizing.IndexByClassExactly | internal/controller/location_class_controller.go:178-191 | a Location is indexed under a class iff its reference has a blank project and, trimmed, that name, not empty |
| ClassFinalizing.Others | internal/controller/location_class_controller.go:109-114 | removing the finalizer removes it everywhere and keeps every other |
| ClassFinalizing.OthersOfHeld | internal/controller/location_class_controller.go:79-84 | a release undoes a hold |
| ClassFinalizing.BlockedMessageCanonical | internal/controller/location_class_controller.go:121-145 | the blocked message does not depend on the order Locations are listed in |
| ClassFinalizing.BlockedMessageShowsFirst | internal/controller/location_class_controller.go:136-145 | it gives the full count and the first ten names in order |
| ClassFinalizing.AdvanceClassIsLocal | internal/controller/location_class_controller.go:54-119 | no call touches another class |
| ClassFinalizing.ReconcileFinalizes | internal/controller/location_class_controller.go:54-119 | a fault-free reconcile holds, blocks or releases its class, call by call as in one line, and comes back after five minutes iff it blocked |
| ClassFinalizing.FinalizedTwice | internal/controller/location_class_controller.go:72-119 | a second reconcile of an unchanged world writes nothing |
| ClassFinalizing.OtherProjectsDoNotHold | internal/controller/location_class_controller.go:87-119 | a terminating class named only from other projects is released |
| ClassController.LocationClassReconciler.Reconcile | internal/controller/location_class_controller.go:54-70 | does to the classes what the call-by-call protocol does, under any faults |
| ClassController.LocationClassReconciler.HoldClass | internal/controller/location_class_controller.go:72-85 | the holding half is the protocol's |
| ClassController.LocationClassReconciler.ReleaseClass | internal/controller/location_class_controller.go:87-119 | the releasing half is the protocol's |
| ClassController.LocationClassReconciler.RecordBlockedDeletion | internal/controller/location_class_controller.go:147-166 | the block is written once and is the protocol's |
| ClassController.LocationClassReconciler.ReferencingLocations | internal/controller/location_class_controller.go:121-134 | the names of the Locations whose reference has no project and names the class, each once, sorted |
| ClassController.LocationClassReconciler.EnqueueLocalClass | internal/controller/location_class_controller.go:214-221 | a Location event wakes exactly the class its reference names, if it has no project |
| ClassSafety.QuietClassesAreTended | internal/controller/location_class_controller.go:66-119 | on every run, a quiet class is gone, live and held, released, or blocked on a timer with a Location naming it |
| ClassSafety.LastDereferenceIsNotLost | internal/controller/location_class_controller.go:206-221 | on every run, a terminating held class no Location names is on its way to a reconcile, not merely on a timer |
| ClassSafety.OnlyReleaseTakesFinalizer | internal/controller/location_class_controller.go:109-115 | only a class's own release call takes the finalizer, or a held class, away |
| ClassSafety.TerminatingNeverRegains | internal/controller/location_class_controller.go:66-85 | on every run, a terminating class that lost the finalizer never has it again, until one of its name is created |
| ClassSafety.HeldClassLeavesOnlyByRelease | internal/controller/location_class_controller.go:87-119 | on every run, a held class leaves the store only by a release whose listing, earlier in the same reconcile, was empty |
| ClassSafety.OnlyUnlistedReferencesAreMissed | internal/controller/location_class_controller.go:93-114 | on every run, a Location names a class at its release iff its last edit since the listing made it or, with none, it did at the listing, unseen |
| ClassSafety.OnlyLaterReferencesAreMissed | internal/controller/location_class_controller.go:93-114 | when the listing was current, the references missed are those made since |
| ClassSafety.OtherFinalizersKeptExactly | internal/controller/location_class_controller.go:79-83 | on every run, a hold or release that lands keeps the finalizers of others, also when the class goes, iff what it read is what edits have made of them since |
| ClassRaces.LateReferenceIsMissed | internal/controller/location_class_controller.go:93-114 | a run in which a class goes although a Location names it |
| ClassRaces.OlderReferenceIsMissed | internal/controller/location_class_controller.go:93-114 | a run in which the Location was there before the listing |
| ClassRaces.FinalizerOfAnotherIsLost | internal/controller/location_class_controller.go:79-83 | a run in which another controller's finalizer is lost |
| Readiness.SetConditionSays | internal/controller/location_readiness_controller.go:133-136 | after setting a condition it is the one found, and every other kind is unchanged |
| Readiness.UnchangedConditionStays | internal/controller/location_readiness_controller.go:133-136 | setting a condition reports a change iff it changes the list |
| Readiness.SetConditionTimes | internal/controller/location_readiness_controller.go:133-136 | the transition time is kept iff there was such a condition of the same status, and is otherwise the time of the call |
| Readiness.ClaimNeedsReference | internal/controller/location_readiness_controller.go:71-81 | a Location without a class reference of this project is nobody's |
| Readiness.VerdictExactly | internal/controller/location_readiness_controller.go:71-120 | for a Location naming a class: unclaimed iff the class is another operator's; else Ready iff it exists and there is a city code, with the reason, the message and the generation observed |
| Readiness.VerdictDependsOnReferencedClassExactly | internal/controller/location_readiness_controller.go:71-106 | the Locations whose verdict some change of a class can alter are exactly those indexed under it |
| Readiness.ReadyButUnpublishableExactly | internal/controller/location_readiness_controller.go:96-105 | Ready and unpublishable at once iff the class exists and the code is nothing but white space |
| Readiness.ReconcileReports | internal/controller/location_readiness_controller.go:46-149 | a fault-free reconcile reports the verdict on its Location and touches nothing else |
| Readiness.ReportsExactly | internal/controller/location_readiness_controller.go:46-69 | it writes iff the Location is live and claimed and does not say so already |
| Readiness.ReportedTwice | internal/controller/location_readiness_controller.go:133-136 | a second report at any later time changes nothing |
| Readiness.AcceptedOnlyByItsOperator | internal/controller/location_readiness_controller.go:211-252 | a live class is accepted by the operator it names (Accepted, status true, at its generation), once, and by no other |
| Readiness.AcceptsAsSpecified | internal/controller/location_readiness_controller.go:211-252 | a fault-free reconcile, call by call, accepts its class and touches nothing else |
| Readiness.AcceptedExactly | internal/controller/location_readiness_controller.go:223-246 | a reconcile by the operator a class names leaves it saying Accepted, status true, at its generation, iff it is live or was accepted already |
| ReadinessController.LocationReadinessReconciler.Reconcile | internal/controller/location_readiness_controller.go:46-69 | does to the Locations what the call-by-call protocol does, under any faults |
| ReadinessController.LocationReadinessReconciler.EvaluateLocation | internal/controller/location_readiness_controller.go:71-106 | computes the verdict, or fails only when there is a class to read |
| ReadinessController.LocationReadinessReconciler.ReportCondition | internal/controller/location_readiness_controller.go:122-149 | writes the condition only when it changes something, as the protocol does |
| ReadinessController.LocationReadinessReconciler.EnqueueLocationsNamingClass | internal/controller/location_readiness_controller.go:174-196 | a class event wakes exactly the Locations indexed under it, each once |
| ReadinessController.LocationClassAcceptedReconciler.Reconcile | internal/controller/location_readiness_controller.go:211-252 | accepts the class as specified, under any faults; where none fails and the class is live and its own, it says Accepted, status true |
| ReadinessProtocol.ClassFrame | internal/controller/location_readiness_controller.go:75-106 | a class change a Location does not name alters nothing known of it |
| ReadinessProtocol.QuietCallProgresses | internal/controller/location_readiness_controller.go:46-149 | a call that sees the truth and changes nothing keeps the reconcile's knowledge true |
| ReadinessProtocol.QuietLocationsAgree | internal/controller/location_readiness_controller.go:46-196 | on every run, a claimed Location with nothing outstanding says of itself what evaluating it now yields |
| ReadinessProtocol.QuietLocationsSay | internal/controller/location_readiness_controller.go:46-196 | and so it says LocationClassNotFound, MissingTopology or Ready as the class and the code now are |
| ConditionSafety.SetKeepsOtherKinds | internal/controller/location_readiness_controller.go:133-137 | setting Ready keeps the conditions of other kinds, in order |
| ConditionSafety.OtherConditionsKeptExactly | internal/controller/location_readiness_controller.go:122-139 | on every run, a report that lands keeps the conditions of other kinds iff what it read of them is what edits have made of them since |
| ConditionSafety.ConditionOfAnotherIsLost | internal/controller/location_readiness_controller.go:133-139 | a run in which another actor's condition is lost |
| AcceptedProtocol.QuietClassesAreAccepted | internal/controller/location_readiness_controller.go:211-252 | on every run, a live class naming the operator with nothing outstanding says Accepted, status true, at its present generation |
| ReadyAndAccepted.ReadyExactly | internal/controller/location_readiness_controller.go:71-106 | Ready by a class iff it is named and exists, names the operator, and the city code is not empty: its conditions play no part |
| ReadyAndAccepted.ReadyWithoutAcceptance | internal/controller/location_readiness_controller.go:92-105 | a Location Ready by a class nobody has accepted |
| ReadyAndAccepted.QuietReadyIsAcceptedExactly | internal/controller/location_readiness_controller.go:211-252 | on every run with nothing outstanding for it, the class of a Ready Location is accepted, iff it is not being deleted or says so already |
| ReadyAndAccepted.TerminatingClassIsLeftAlone | internal/controller/location_readiness_controller.go:226-229 | for every terminating class a run in which it is quiet and nothing was written |
| Operators.ClaimsAgree | internal/controller/location_readiness_controller.go:71-94 | two operators claiming one Location are the same when the class exists and say the same when it does not |
| Operators.ReportReaches | internal/controller/location_readiness_controller.go:122-149 | however old the version read, a claimant's report comes to the same conditions up to time |
| Operators.InterleavingsConfluent | internal/config/config.go:316-319 | any two interleavings of any operators' calls, with faults and old reads, in which a claimant got through leave the same Location up to transition times |
| Operators.NobodysLocationIsLeftAlone | internal/config/config.go:316-319 | no interleaving writes on a Location nobody claims |

## Left out

Assumptions about the world the operator runs in:

* Forced apply overwrites the publisher's label, the whole spec of a copy and the whole spec of a policy, and
  keeps other labels and all annotations. Ownership per field, and keys of a topology that another field
  manager holds, are not modelled.
* A merge patch changes only the keys that differ, a list being replaced whole (section 2 of RFC 7396). The
  API server refuses new finalizers on an object being deleted and drops such an object with its last
  finalizer. A write that changes nothing makes no event.
* An update event wakes what the old and the new object map to. A name is never reconciled twice at once,
  is reconciled again when woken meanwhile, and is retried after an error.
* One delivery hands over every outstanding event of a name, of all kinds and from both clusters. Informers deliver
  event by event, so the figures in `Quieting` are figures of the model.
* One leader is active. Calls a former leader still has under way when it is replaced are not modelled.
* Object names are not empty. Clusters are listed live, not from a cache. The list made when a class event is
  mapped to Locations succeeds.
* Clocks are natural numbers; the reading is arbitrary except where a lemma asks for order.

Of the repository:

* Fleet gauges are modelled; the gauges of single objects, matched-cluster counts, events and logs are not:
  no decision reads them. The report of foreign field managers feeds only those.
* Quoting in messages adds the quotes and escapes nothing.
* The wait for cache synchronisation is its result; its timeout is not modelled.
* Condition fields the operator does not write, and the API server's own defaulting and validation.
* Manager setup, configuration loading, clients, leader election, the command line, generated code and manifests.

Contracts weaker than one might wish:

- PublishedAtHistory.PublishedAtIsLastChangeExactly: is about runs from an empty hub in which other actors leave
  generation, topology and timestamp of a copy alone, and every Location read is well formed
  (`ContentEquality.TimestampTracksContentExactly` says why).
- Convergence.QuiescenceMeansConvergence: promises nothing about the policy of an absent Location, because a failed
  policy delete leaves it for good (`OrphanedPolicies.OrphanStays`).
- Settling.DrainIsBounded: is about whole fault-free reconciles of a frozen source, clusters and configuration, with
  immediate wake-ups; `Quieting.CalmRunsEnd` is about their calls and lagging deliveries.
- Delivery.IsolationIsExact: counts an object as delivered by every policy that selects and places it; how Karmada
  chooses among several is not modelled.
- Operators.InterleavingsConfluent: is about one Location, since no call touches another.
- DeletionSafety.DeletionIsSafe: is about ServingLocations; policies are deleted by name without an ownership test.
