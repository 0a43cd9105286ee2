// The publisher watches the very objects it writes. Why that comes to rest.
module Settling {
  import opened Api
  import opened Publication
  import opened Reconciling
  import Text

  // ---- What an undisturbed, fault-free reconcile leaves on the hub ----

  function Unblocked(copy: ServingLocation): ServingLocation {
    copy.(annotations := copy.annotations - {BLOCKED_ANNOTATION})
  }

  function PublishedCopy(current: Option<ServingLocation>, location: Location, now: nat): ServingLocation {
    Unblocked(AppliedCopy(current, location, PublishedAt(current, location, now)))
  }

  function PublishedHub(config: Config, name: Name, hub: Hub, location: Location, now: nat): Hub {
    Hub(hub.copies[name := PublishedCopy(Get(hub.copies, name), location, now)],
        hub.policies[PolicyName(name) := AppliedPolicy(Get(hub.policies, PolicyName(name)), config, name)])
  }

  function RetainedCopy(copy: ServingLocation, decision: RemovalDecision): ServingLocation {
    copy.(annotations := copy.annotations[BLOCKED_ANNOTATION := BlockedMessage(decision)])
  }

  predicate PruneAllowed(around: Circumstances) {
    around.cachesSynced && around.source != map[]
  }

  predicate RemovalAllowed(name: Name, copy: ServingLocation, clusters: seq<Cluster>) {
    Overridden(copy) || GuardDecision(clusters, name).allowed
  }

  function Target(config: Config, name: Name, hub: Hub, around: Circumstances): Hub {
    var copy := Get(hub.copies, name);
    if name in around.source then
      if !Publishable(around.source[name]) || Foreign(copy) then hub
      else PublishedHub(config, name, hub, around.source[name], around.now)
    else if copy.None? || Foreign(copy) || !PruneAllowed(around) then hub
    else if RemovalAllowed(name, copy.value, around.clusters) then
      Hub(hub.copies - {name}, hub.policies - {PolicyName(name)})
    else
      hub.(copies := hub.copies[name := RetainedCopy(copy.value, GuardDecision(around.clusters, name))])
  }

  // When the name is looked at again, nothing else having woken it.
  function TargetRequeue(config: Config, name: Name, hub: Hub, around: Circumstances): int {
    var copy := Get(hub.copies, name);
    if name in around.source then
      if Publishable(around.source[name]) && !Foreign(copy) then config.resync else 0
    else if copy.None? || Foreign(copy) then 0
    else if PruneAllowed(around) && RemovalAllowed(name, copy.value, around.clusters) then 0
    else BlockedRequeue(config)
  }

  lemma PublishReaches(config: Config, name: Name, hub: Hub, around: Circumstances)
    requires around.FaultFree() && name in around.source
    requires Publishable(around.source[name]) && !Foreign(Get(hub.copies, name))
    ensures Reconcile(config, name, hub, around)
            == (Done(config.resync), PublishedHub(config, name, hub, around.source[name], around.now))
  {
    hide Run, AppliedPolicy, Publishable, GuardDecision, Held, PublishedContentEqual;
    var location, copy := around.source[name], Get(hub.copies, name);
    var applied := AppliedCopy(copy, location, PublishedAt(copy, location, around.now));
    var hub' := hub.(copies := hub.copies[name := applied]);
    RunGoesOn(config, name, Start, hub, around, ReadForPublish(location), hub);
    RunGoesOn(config, name, ReadForPublish(location), hub, around, ApplyCopy(location, copy), hub);
    RunGoesOn(config, name, ApplyCopy(location, copy), hub, around, ApplyPolicy(location, copy), hub');
    PolicyReaches(config, name, hub', location, copy, around);
    var published := PublishedCopy(copy, location, around.now);
    assert hub.copies[name := applied][name := published] == hub.copies[name := published];
  }

  lemma PolicyReaches(
      config: Config, name: Name, hub: Hub, location: Location, snapshot: Option<ServingLocation>,
      around: Circumstances)
    requires around.FaultFree() && name in hub.copies
    requires if snapshot.Some? then snapshot.value.annotations == hub.copies[name].annotations
             else !Blocked(hub.copies[name])
    ensures
      Run(config, name, ApplyPolicy(location, snapshot), hub, around) ==
      (Done(config.resync),
       Hub(hub.copies[name := Unblocked(hub.copies[name])],
           hub.policies[PolicyName(name) := AppliedPolicy(Get(hub.policies, PolicyName(name)), config, name)]))
  {
    hide Run, AppliedPolicy, Publishable, AppliedCopy, PublishedAt, GuardDecision, Held, Owned, Unblocked;
    var applied := AppliedPolicy(Get(hub.policies, PolicyName(name)), config, name);
    var placed := Hub(hub.copies, hub.policies[PolicyName(name) := applied]);
    UnblockedUnlessBlocked(name, hub);
    if snapshot.Some? && Blocked(snapshot.value) {
      var clear := ClearBlock(location, Lifted(snapshot.value.annotations));
      RunGoesOn(config, name, ApplyPolicy(location, snapshot), hub, around, clear, placed);
      ClearReaches(config, name, placed, location, around);
    } else {
      RunGoesOn(config, name, ApplyPolicy(location, snapshot), hub, around, Published(config), placed);
    }
  }

  lemma UnblockedUnlessBlocked(name: Name, hub: Hub)
    requires name in hub.copies
    ensures !Blocked(hub.copies[name]) ==> hub.copies[name := Unblocked(hub.copies[name])] == hub.copies
  {
    var copy := hub.copies[name];
    if !Blocked(copy) {
      assert copy.annotations - {BLOCKED_ANNOTATION} == copy.annotations;
    }
  }

  lemma ClearReaches(config: Config, name: Name, hub: Hub, location: Location, around: Circumstances)
    requires around.FaultFree() && name in hub.copies
    ensures Run(config, name, ClearBlock(location, Lifted(hub.copies[name].annotations)), hub, around)
            == (Done(config.resync), Hub(hub.copies[name := Unblocked(hub.copies[name])], hub.policies))
  {
    hide Run, AppliedPolicy, Publishable, AppliedCopy, PublishedAt, GuardDecision, Held, Owned;
    var cleared := Hub(hub.copies[name := Unblocked(hub.copies[name])], hub.policies);
    var clear := ClearBlock(location, Lifted(hub.copies[name].annotations));
    RunGoesOn(config, name, clear, hub, around, Published(config), cleared);
  }

  lemma RemovalReaches(config: Config, name: Name, hub: Hub, around: Circumstances)
    requires around.FaultFree() && name !in around.source
    ensures Reconcile(config, name, hub, around)
            == (Done(TargetRequeue(config, name, hub, around)), Target(config, name, hub, around))
  {
    hide Run, GuardDecision, Publishable, AppliedCopy, AppliedPolicy, PublishedAt, Held;
    var copy := Get(hub.copies, name);
    if copy.Some? && Owned(copy.value) {
      PrunedReaches(config, name, copy.value, hub, around);
    }
    RunGoesOn(config, name, Start, hub, around, ReadForRemoval, hub);
    if copy.None? || Foreign(copy) {
      RunGoesOn(config, name, ReadForRemoval, hub, around, Returning(Done(0)), hub);
    } else {
      RunGoesOn(config, name, ReadForRemoval, hub, around, AwaitCaches(copy.value), hub);
      PruneReaches(config, name, copy.value, hub, around);
    }
  }

  lemma PruneReaches(config: Config, name: Name, copy: ServingLocation, hub: Hub, around: Circumstances)
    requires around.FaultFree() && Get(hub.copies, name) == Some(copy) && Owned(copy)
    ensures Run(config, name, AwaitCaches(copy), hub, around)
            == if PruneAllowed(around) then Run(config, name, AfterPruneAllowed(copy), hub, around)
               else (Done(BlockedRequeue(config)), hub)
  {
    hide Run, GuardDecision, Publishable, AppliedCopy, AppliedPolicy, PublishedAt, Held;
    if !around.cachesSynced {
      RunGoesOn(config, name, AwaitCaches(copy), hub, around, Blocking(config), hub);
    } else {
      RunGoesOn(config, name, AwaitCaches(copy), hub, around, ListSource(copy), hub);
      if around.source == map[] {
        RunGoesOn(config, name, ListSource(copy), hub, around, ListHeld(copy), hub);
        RetainedIsHeld(name, ListHeld(copy), hub);
        RunGoesOn(config, name, ListHeld(copy), hub, around, Blocking(config), hub);
      } else {
        assert |around.source| > 0;
        RunGoesOn(config, name, ListSource(copy), hub, around, AfterPruneAllowed(copy), hub);
      }
    }
  }

  lemma PrunedReaches(config: Config, name: Name, copy: ServingLocation, hub: Hub, around: Circumstances)
    requires around.FaultFree() && Get(hub.copies, name) == Some(copy)
    ensures Run(config, name, AfterPruneAllowed(copy), hub, around) ==
            if RemovalAllowed(name, copy, around.clusters)
            then (Done(0), Hub(hub.copies - {name}, hub.policies - {PolicyName(name)}))
            else (Done(BlockedRequeue(config)),
                  hub.(copies := hub.copies[name := RetainedCopy(copy, GuardDecision(around.clusters, name))]))
  {
    hide Run, GuardDecision, Owned, Publishable, AppliedCopy, AppliedPolicy, PublishedAt, BlockedMessage, Held;
    if RemovalAllowed(name, copy, around.clusters) {
      if !Overridden(copy) {
        RunGoesOn(config, name, CheckFleet(copy), hub, around, DeleteCopy(copy), hub);
      }
      DeleteReaches(config, name, copy, hub, around);
    } else {
      BlockReaches(config, name, copy, hub, around);
    }
  }

  lemma DeleteReaches(config: Config, name: Name, copy: ServingLocation, hub: Hub, around: Circumstances)
    requires around.FaultFree()
    ensures Run(config, name, DeleteCopy(copy), hub, around)
            == (Done(0), Hub(hub.copies - {name}, hub.policies - {PolicyName(name)}))
  {
    hide Run, GuardDecision, Owned, Publishable, AppliedCopy, AppliedPolicy, PublishedAt, BlockedMessage, Held;
    var emptied := Hub(hub.copies - {name}, hub.policies);
    var cleaned := Hub(hub.copies - {name}, hub.policies - {PolicyName(name)});
    RunGoesOn(config, name, DeleteCopy(copy), hub, around, DeletePolicy, emptied);
    RunGoesOn(config, name, DeletePolicy, emptied, around, Returning(Done(0)), cleaned);
  }

  lemma BlockReaches(config: Config, name: Name, copy: ServingLocation, hub: Hub, around: Circumstances)
    requires around.FaultFree() && Get(hub.copies, name) == Some(copy)
    requires !GuardDecision(around.clusters, name).allowed
    ensures Run(config, name, CheckFleet(copy), hub, around) ==
            (Done(BlockedRequeue(config)),
             hub.(copies := hub.copies[name := RetainedCopy(copy, GuardDecision(around.clusters, name))]))
  {
    hide Run, GuardDecision, Owned, Publishable, AppliedCopy, AppliedPolicy, PublishedAt, Held;
    var message := BlockedMessage(GuardDecision(around.clusters, name));
    var retained := copy.(annotations := copy.annotations[BLOCKED_ANNOTATION := message]);
    if Lookup(copy.annotations, BLOCKED_ANNOTATION) == message {
      assert |message| > 0;
      assert retained.annotations == copy.annotations;
      assert hub.copies[name := retained] == hub.copies;
      RunGoesOn(config, name, CheckFleet(copy), hub, around, Blocking(config), hub);
    } else {
      var hub' := hub.(copies := hub.copies[name := retained]);
      RunGoesOn(config, name, CheckFleet(copy), hub, around, RecordBlock(retained.annotations), hub);
      RunGoesOn(config, name, RecordBlock(retained.annotations), hub, around, Blocking(config), hub');
    }
  }

  // The refinement of the call-by-call reconcile to its one-line meaning.
  lemma ReconcileReachesTarget(config: Config, name: Name, hub: Hub, around: Circumstances)
    requires around.FaultFree()
    ensures Reconcile(config, name, hub, around)
            == (Done(TargetRequeue(config, name, hub, around)), Target(config, name, hub, around))
  {
    hide Run;
    if name !in around.source {
      RemovalReaches(config, name, hub, around);
    } else if Publishable(around.source[name]) && !Foreign(Get(hub.copies, name)) {
      PublishReaches(config, name, hub, around);
    } else {
      var location := around.source[name];
      if Publishable(location) {
        RunGoesOn(config, name, Start, hub, around, ReadForPublish(location), hub);
        RunGoesOn(config, name, ReadForPublish(location), hub, around, Returning(Done(0)), hub);
      } else {
        RunGoesOn(config, name, Start, hub, around, Returning(Done(0)), hub);
      }
    }
  }

  // With the guard refusing, what a reconcile does to the owned copy of an
  // absent Location hangs on the override, which says "true" or nothing.
  lemma OnlyTrueOverrides(config: Config, name: Name, hub: Hub, around: Circumstances)
    requires around.FaultFree() && around.cachesSynced && around.source != map[] && name !in around.source
    requires name in hub.copies && Owned(hub.copies[name]) && !GuardDecision(around.clusters, name).allowed
    ensures name !in Reconcile(config, name, hub, around).1.copies
            <==> Get(hub.copies[name].annotations, OVERRIDE_ANNOTATION) == Some("true")
  {
    hide Reconcile, GuardDecision;
    ReconcileReachesTarget(config, name, hub, around);
  }

  // How a removal that gets as far ends when a list fails: without the source
  // or the copies it waits, without the clusters it is retried.
  lemma FailedListsEndRemoval(config: Config, name: Name, copy: ServingLocation, hub: Hub, around: Circumstances)
    ensures !around.FateOf(ListLocations).Succeeds? ==>
              Run(config, name, ListSource(copy), hub, around) == (Done(BlockedRequeue(config)), hub)
    ensures !around.FateOf(ListCopies).Succeeds? ==>
              Run(config, name, ListHeld(copy), hub, around) == (Done(BlockedRequeue(config)), hub)
    ensures !around.FateOf(ListClusters).Succeeds? ==>
              Run(config, name, CheckFleet(copy), hub, around) == (Failed, hub)
  {
    hide Run, GuardDecision, BlockedMessage, Held;
    if !around.FateOf(ListLocations).Succeeds? {
      RunGoesOn(config, name, ListSource(copy), hub, around, Blocking(config), hub);
    }
    if !around.FateOf(ListCopies).Succeeds? {
      RunGoesOn(config, name, ListHeld(copy), hub, around, Blocking(config), hub);
    }
    if !around.FateOf(ListClusters).Succeeds? {
      RunGoesOn(config, name, CheckFleet(copy), hub, around, Returning(Failed), hub);
    }
  }

  // ---- Fixpoints ----

  // Everything a drain holds still: only the clock, and the order clusters are
  // listed in, may differ between two reconciles.
  datatype Frozen = Frozen(source: map<Name, Location>, clusters: multiset<Cluster>, cachesSynced: bool)

  predicate Within(frozen: Frozen, around: Circumstances) {
    && around.source == frozen.source
    && multiset(around.clusters) == frozen.clusters
    && around.cachesSynced == frozen.cachesSynced
    && around.FaultFree()
  }

  ghost predicate AtRest(config: Config, frozen: Frozen, name: Name, hub: Hub) {
    forall around :: Within(frozen, around) ==> Reconcile(config, name, hub, around).1 == hub
  }

  predicate TrimmedOrUnpublishable(source: map<Name, Location>, name: Name) {
    name in source && Publishable(source[name]) ==> CityCodeTrimmed(source[name])
  }

  lemma PublishedCopyBears(current: Option<ServingLocation>, location: Location, now: nat)
    ensures Bears(PublishedCopy(current, location, now), location)
  {
    hide PublishedAt;
  }

  lemma BearingCopyRests(copy: ServingLocation, location: Location, now: nat)
    requires CityCodeTrimmed(location) && Bears(copy, location)
    ensures PublishedCopy(Some(copy), location, now) == copy
  {
    hide CityCode;
    assert PublishedAt(Some(copy), location, now) == copy.publishedAt;
    assert copy.labels[MANAGED_BY_LABEL := MANAGED_BY_VALUE] == copy.labels;
    assert copy.annotations - {BLOCKED_ANNOTATION} == copy.annotations;
  }

  lemma AppliedPolicyTwice(current: Option<Policy>, config: Config, name: Name)
    ensures var once := AppliedPolicy(current, config, name); AppliedPolicy(Some(once), config, name) == once
  {
    hide DesiredPolicySpec;
    var once := AppliedPolicy(current, config, name);
    assert once.labels[MANAGED_BY_LABEL := MANAGED_BY_VALUE] == once.labels;
  }

  lemma PublishedTwice(
      config: Config, name: Name, hub: Hub, location: Location, first: nat, second: nat)
    requires CityCodeTrimmed(location)
    ensures var once := PublishedHub(config, name, hub, location, first);
            PublishedHub(config, name, once, location, second) == once
  {
    hide PublishedCopy, AppliedPolicy;
    PublishedCopyBears(Get(hub.copies, name), location, first);
    BearingCopyRests(PublishedCopy(Get(hub.copies, name), location, first), location, second);
    AppliedPolicyTwice(Get(hub.policies, PolicyName(name)), config, name);
    var once := PublishedHub(config, name, hub, location, first);
    assert once.copies[name := once.copies[name]] == once.copies;
    assert once.policies[PolicyName(name) := once.policies[PolicyName(name)]] == once.policies;
  }

  // One reconcile is enough: published, blocked, removed, prune-disabled or
  // foreign, a second reconcile of the same name writes nothing.
  lemma OneReconcileRests(config: Config, frozen: Frozen, name: Name, hub: Hub, around: Circumstances)
    requires Within(frozen, around) && TrimmedOrUnpublishable(frozen.source, name)
    ensures AtRest(config, frozen, name, Reconcile(config, name, hub, around).1)
  {
    hide Run, Target;
    ReconcileReachesTarget(config, name, hub, around);
    var once := Target(config, name, hub, around);
    forall later | Within(frozen, later)
      ensures Reconcile(config, name, once, later).1 == once
    {
      ReconcileReachesTarget(config, name, once, later);
      TargetTwice(config, frozen, name, hub, around, later);
    }
  }

  lemma TargetTwice(
      config: Config, frozen: Frozen, name: Name, hub: Hub, around: Circumstances, later: Circumstances)
    requires Within(frozen, around) && Within(frozen, later) && TrimmedOrUnpublishable(frozen.source, name)
    ensures var once := Target(config, name, hub, around); Target(config, name, once, later) == once
  {
    hide GuardDecision;
    var once := Target(config, name, hub, around);
    var copy := Get(hub.copies, name);
    if name in frozen.source {
      if Publishable(frozen.source[name]) && !Foreign(copy) {
        PublishedTwice(config, name, hub, frozen.source[name], around.now, later.now);
        assert Owned(once.copies[name]);
      }
    } else if copy.Some? && Owned(copy.value) && PruneAllowed(around) {
      GuardCanonical(around.clusters, later.clusters, name);
      if !RemovalAllowed(name, copy.value, around.clusters) {
        var retained := RetainedCopy(copy.value, GuardDecision(around.clusters, name));
        assert Overridden(retained) == Overridden(copy.value);
        assert RetainedCopy(retained, GuardDecision(later.clusters, name)) == retained;
        assert once.copies[name := retained] == once.copies;
      }
    }
  }

  // A published Location comes to rest exactly when neither end of its city
  // code is white space. An untrimmed code is compared trimmed but copied
  // untrimmed, so every later reconcile stamps the copy again.
  lemma RestsExactlyWhenTrimmed(config: Config, frozen: Frozen, name: Name, hub: Hub, around: Circumstances)
    requires Within(frozen, around) && name in frozen.source
    requires Publishable(frozen.source[name]) && !Foreign(Get(hub.copies, name))
    ensures var code := Lookup(frozen.source[name].topology, CITY_CODE_KEY);
            code != "" && (AtRest(config, frozen, name, Reconcile(config, name, hub, around).1)
                           <==> !Text.IsSpace(code[0]) && !Text.IsSpace(code[|code| - 1]))
  {
    hide Run;
    var location := frozen.source[name];
    CityCodeExactly(location);
    if CityCodeTrimmed(location) {
      OneReconcileRests(config, frozen, name, hub, around);
    } else {
      ReconcileReachesTarget(config, name, hub, around);
      var once := Target(config, name, hub, around);
      var copy := once.copies[name];
      var later := around.(now := copy.publishedAt + 1);
      assert Within(frozen, later);
      assert copy.topology == location.topology && !PublishedContentEqual(copy, location);
      ReconcileReachesTarget(config, name, once, later);
      assert Target(config, name, once, later).copies[name].publishedAt == copy.publishedAt + 1;
    }
  }

  // What a name at rest looks like, read off the stores.
  predicate Rested(config: Config, around: Circumstances, name: Name, hub: Hub) {
    var copy, policy := Get(hub.copies, name), Get(hub.policies, PolicyName(name));
    if name in around.source then
      var location := around.source[name];
      Publishable(location) && !Foreign(copy) ==>
        && copy.Some? && Bears(copy.value, location)
        && policy.Some? && AppliedPolicy(policy, config, name) == policy.value
        && CityCodeTrimmed(location)
    else
      copy.Some? && Owned(copy.value) && PruneAllowed(around) ==>
        && !RemovalAllowed(name, copy.value, around.clusters)
        && Lookup(copy.value.annotations, BLOCKED_ANNOTATION) == BlockedMessage(GuardDecision(around.clusters, name))
  }

  // A name is at rest exactly when its copy and policy are what they should
  // be: published as desired, gone, or retained with the block recorded.
  lemma AtRestExactly(config: Config, frozen: Frozen, name: Name, hub: Hub, around: Circumstances)
    requires Within(frozen, around)
    ensures AtRest(config, frozen, name, hub) <==> Rested(config, around, name, hub)
  {
    hide Run;
    if Rested(config, around, name, hub) {
      forall later | Within(frozen, later)
        ensures Reconcile(config, name, hub, later).1 == hub
      {
        ReconcileReachesTarget(config, name, hub, later);
        RestedIsTarget(config, frozen, name, hub, around, later);
      }
    } else {
      var later := RestlessMoves(config, frozen, name, hub, around);
      ReconcileReachesTarget(config, name, hub, later);
    }
  }

  lemma RestedIsTarget(
      config: Config, frozen: Frozen, name: Name, hub: Hub, around: Circumstances, later: Circumstances)
    requires Within(frozen, around) && Within(frozen, later) && Rested(config, around, name, hub)
    ensures Target(config, name, hub, later) == hub
  {
    hide Run, GuardDecision, PublishedCopy, Bears, CityCodeTrimmed;
    var copy, policy := Get(hub.copies, name), Get(hub.policies, PolicyName(name));
    GuardCanonical(around.clusters, later.clusters, name);
    if name in around.source {
      var location := around.source[name];
      if Publishable(location) && !Foreign(copy) {
        BearingCopyRests(copy.value, location, later.now);
        assert hub.copies[name := copy.value] == hub.copies;
        assert hub.policies[PolicyName(name) := policy.value] == hub.policies;
      }
    } else if copy.Some? && Owned(copy.value) && PruneAllowed(around) {
      var decision := GuardDecision(later.clusters, name);
      assert |BlockedMessage(decision)| > 0;
      assert RetainedCopy(copy.value, decision).annotations == copy.value.annotations;
      assert hub.copies[name := copy.value] == hub.copies;
    }
  }

  lemma RestlessMoves(config: Config, frozen: Frozen, name: Name, hub: Hub, around: Circumstances)
    returns (later: Circumstances)
    requires Within(frozen, around) && !Rested(config, around, name, hub)
    ensures Within(frozen, later) && Target(config, name, hub, later) != hub
  {
    hide Run, GuardDecision, CityCode;
    later := around;
    var copy, policy := Get(hub.copies, name), Get(hub.policies, PolicyName(name));
    if name in around.source {
      var location := around.source[name];
      if copy.Some? && Bears(copy.value, location) && !CityCodeTrimmed(location) {
        later := around.(now := copy.value.publishedAt + 1);
        assert Target(config, name, hub, later).copies[name].publishedAt == copy.value.publishedAt + 1;
      } else {
        PublishedCopyBears(copy, location, around.now);
        assert Target(config, name, hub, later).copies[name] == PublishedCopy(copy, location, around.now);
        assert Target(config, name, hub, later).policies[PolicyName(name)] == AppliedPolicy(policy, config, name);
      }
    } else if RemovalAllowed(name, copy.value, around.clusters) {
      assert name !in Target(config, name, hub, later).copies;
    } else {
      assert BLOCKED_ANNOTATION in Target(config, name, hub, later).copies[name].annotations;
    }
  }

  // ---- Draining ----

  // A reconcile wakes its own name whenever it writes anything, and never
  // another.
  lemma WritesWakeOnlyTheirOwnName(config: Config, name: Name, hub: Hub, around: Circumstances)
    ensures var after := Reconcile(config, name, hub, around).1;
            Woken(hub, after) == if after == hub then {} else {name}
  {
    hide Run;
    RunIsLocal(config, name, Start, hub, around);
    LocalWritesWake(hub, Reconcile(config, name, hub, around).1, name);
  }

  // The hub and the names waiting for a reconcile.
  datatype Backlog = Backlog(hub: Hub, queue: set<Name>)

  datatype Pick = Pick(name: Name, around: Circumstances)

  function DrainOne(config: Config, backlog: Backlog, pick: Pick): Backlog {
    var after := Reconcile(config, pick.name, backlog.hub, pick.around).1;
    Backlog(after, backlog.queue - {pick.name} + Woken(backlog.hub, after))
  }

  // Each pick takes a waiting name, in any order.
  ghost predicate Drains(config: Config, frozen: Frozen, backlog: Backlog, picks: seq<Pick>)
    decreases |picks|
  {
    picks != [] ==>
      && picks[0].name in backlog.queue
      && Within(frozen, picks[0].around)
      && Drains(config, frozen, DrainOne(config, backlog, picks[0]), picks[1..])
  }

  ghost function Drained(config: Config, backlog: Backlog, picks: seq<Pick>): Backlog
    decreases |picks|
  {
    if picks == [] then backlog else Drained(config, DrainOne(config, backlog, picks[0]), picks[1..])
  }

  ghost function Restless(config: Config, frozen: Frozen, backlog: Backlog): set<Name> {
    set name | name in backlog.queue && !AtRest(config, frozen, name, backlog.hub)
  }

  // Another name's reconcile does not disturb a name at rest, nor put it to rest.
  lemma OthersKeepRest(
      config: Config, frozen: Frozen, name: Name, other: Name, hub: Hub, around: Circumstances)
    requires name != other
    ensures AtRest(config, frozen, other, hub)
            <==> AtRest(config, frozen, other, Reconcile(config, name, hub, around).1)
  {
    hide Run;
    var after := Reconcile(config, name, hub, around).1;
    RunIsLocal(config, name, Start, hub, around);
    ElsewhereKeepsOthers(hub, after, name, other);
    forall later | Within(frozen, later)
      ensures Reconcile(config, other, hub, later).1 == hub <==> Reconcile(config, other, after, later).1 == after
    {
      RunIgnoresOthers(config, other, Start, hub, after, later);
      RunIsLocal(config, other, Start, hub, later);
      RunIsLocal(config, other, Start, after, later);
      var left, right := Reconcile(config, other, hub, later).1, Reconcile(config, other, after, later).1;
      if SameAt(hub, left, other) {
        EqualIfSameAt(hub, left, other);
        EqualIfSameAt(after, right, other);
      }
    }
  }

  lemma RestMeansQuiet(config: Config, frozen: Frozen, name: Name, hub: Hub, around: Circumstances)
    requires Within(frozen, around) && AtRest(config, frozen, name, hub)
    ensures Reconcile(config, name, hub, around).1 == hub
  {
    hide Run;
  }

  lemma DrainOneShrinks(config: Config, frozen: Frozen, backlog: Backlog, pick: Pick)
    requires pick.name in backlog.queue && Within(frozen, pick.around)
    requires TrimmedOrUnpublishable(frozen.source, pick.name)
    ensures var after := DrainOne(config, backlog, pick);
            && |after.queue| + |Restless(config, frozen, after)| < |backlog.queue| + |Restless(config, frozen, backlog)|
            && after.queue <= backlog.queue
  {
    hide Run, Reconcile, AtRest, Within, Woken;
    WritesWakeOnlyTheirOwnName(config, pick.name, backlog.hub, pick.around);
    var after := DrainOne(config, backlog, pick);
    var before', after' := Restless(config, frozen, backlog), Restless(config, frozen, after);
    OneReconcileRests(config, frozen, pick.name, backlog.hub, pick.around);
    forall other | other in backlog.queue && other != pick.name
      ensures other in before' <==> other in after'
    {
      OthersKeepRest(config, frozen, pick.name, other, backlog.hub, pick.around);
    }
    assert after' == before' - {pick.name};
    if after.hub != backlog.hub {
      if AtRest(config, frozen, pick.name, backlog.hub) {
        RestMeansQuiet(config, frozen, pick.name, backlog.hub, pick.around);
      }
      assert pick.name in before';
      assert after.queue == backlog.queue;
    }
  }

  // Self-triggering settles: from any backlog, in any order of picks, with the
  // clock moving, the queue is empty after at most two reconciles per name.
  lemma {:induction false} DrainIsBounded(config: Config, frozen: Frozen, backlog: Backlog, picks: seq<Pick>)
    requires Drains(config, frozen, backlog, picks)
    requires forall name :: name in backlog.queue ==> TrimmedOrUnpublishable(frozen.source, name)
    ensures |picks| + |Drained(config, backlog, picks).queue| <= 2 * |backlog.queue|
  {
    hide Drains, Drained, AtRest;
    MeasureBounds(config, frozen, backlog, picks);
    var restless := Restless(config, frozen, backlog);
    assert backlog.queue == restless + (backlog.queue - restless);
  }

  lemma {:induction false} MeasureBounds(config: Config, frozen: Frozen, backlog: Backlog, picks: seq<Pick>)
    requires Drains(config, frozen, backlog, picks)
    requires forall name :: name in backlog.queue ==> TrimmedOrUnpublishable(frozen.source, name)
    ensures |picks| + |Drained(config, backlog, picks).queue|
            <= |backlog.queue| + |Restless(config, frozen, backlog)|
    decreases |picks|
  {
    hide Run;
    if picks != [] {
      DrainOneShrinks(config, frozen, backlog, picks[0]);
      MeasureBounds(config, frozen, DrainOne(config, backlog, picks[0]), picks[1..]);
    }
  }

  // Every name that left the queue left it at rest; so once the queue is
  // empty, no reconcile of any name that was waiting would write anything.
  lemma {:induction false} DrainedNamesRest(
      config: Config, frozen: Frozen, backlog: Backlog, picks: seq<Pick>, name: Name)
    requires Drains(config, frozen, backlog, picks)
    requires name in backlog.queue || AtRest(config, frozen, name, backlog.hub)
    requires TrimmedOrUnpublishable(frozen.source, name)
    ensures name in Drained(config, backlog, picks).queue
            || AtRest(config, frozen, name, Drained(config, backlog, picks).hub)
    decreases |picks|
  {
    hide Run;
    if picks != [] {
      var pick, after := picks[0], DrainOne(config, backlog, picks[0]);
      WritesWakeOnlyTheirOwnName(config, pick.name, backlog.hub, pick.around);
      if name != pick.name {
        OthersKeepRest(config, frozen, pick.name, name, backlog.hub, pick.around);
      } else if after.hub == backlog.hub {
        QuietReconcileMeansRest(config, frozen, name, backlog.hub, pick.around);
      }
      DrainedNamesRest(config, frozen, after, picks[1..], name);
    }
  }

  // A reconcile that wrote nothing found its name at rest.
  lemma QuietReconcileMeansRest(config: Config, frozen: Frozen, name: Name, hub: Hub, around: Circumstances)
    requires Within(frozen, around) && TrimmedOrUnpublishable(frozen.source, name)
    requires Reconcile(config, name, hub, around).1 == hub
    ensures AtRest(config, frozen, name, hub)
  {
    hide Run;
    OneReconcileRests(config, frozen, name, hub, around);
  }
}
