// The publisher as it runs: a reconciler that reads one cluster, writes
// another, and edits the objects it read in place.
module Publisher {
  import opened Api
  import opened Publication
  import opened Reconciling
  import opened Fleet
  import opened Listing
  import Text

  // The control plane holding the Locations, and its cache.
  class SourceCluster {
    var locations: map<Name, Location>
    var synced: bool
  }

  // The federation hub, and its cache.
  class HubCluster {
    var copies: map<Name, ServingLocation>
    var policies: map<Name, Policy>
    var clusters: seq<Cluster>
    var synced: bool

    function State(): Hub
      reads this`copies, this`policies
    {
      Hub(copies, policies)
    }

    // Create or update. Returns whether the caller sees an error.
    method WriteCopy(name: Name, copy: ServingLocation, fate: Fate) returns (failed: bool)
      modifies this`copies
      ensures State() == SetCopy(old(State()), name, copy, fate) && failed == !fate.Succeeds?
    {
      if !fate.Refused? {
        copies := copies[name := copy];
      }
      failed := !fate.Succeeds?;
    }

    method WritePolicy(name: Name, policy: Policy, fate: Fate) returns (failed: bool)
      modifies this`policies
      ensures State() == SetPolicy(old(State()), name, policy, fate) && failed == !fate.Succeeds?
    {
      if !fate.Refused? {
        policies := policies[PolicyName(name) := policy];
      }
      failed := !fate.Succeeds?;
    }

    // Deleting what is not there is no error.
    method DeleteServing(name: Name, fate: Fate) returns (failed: bool)
      modifies this`copies
      ensures State() == RemoveCopy(old(State()), name, fate) && failed == !fate.Succeeds?
    {
      if !fate.Refused? {
        copies := copies - {name};
      }
      failed := !fate.Succeeds?;
    }

    method DeletePlacement(name: Name, fate: Fate) returns (failed: bool)
      modifies this`policies
      ensures State() == RemovePolicy(old(State()), name, fate) && failed == !fate.Succeeds?
    {
      if !fate.Refused? {
        policies := policies - {PolicyName(name)};
      }
      failed := !fate.Succeeds?;
    }

    // client.MergeFrom of a copy whose annotations were edited after the read.
    method PatchAnnotations(name: Name, edited: map<string, string>, fate: Fate) returns (failed: bool)
      modifies this`copies
      ensures failed == PatchFails(old(State()), name, fate)
      ensures State() == Reconciling.PatchAnnotations(old(State()), name, edited, fate)
    {
      if name !in copies {
        return true;
      }
      var copy := copies[name];
      var annotations := map[];
      if edited != map[] {
        annotations := Put(copy.annotations, BLOCKED_ANNOTATION, Get(edited, BLOCKED_ANNOTATION));
      }
      failed := WriteCopy(name, copy.(annotations := annotations), fate);
    }
  }

  // The gauges sampled at the end of every reconcile.
  class FleetGauges {
    var publishable: nat
    var published: nat
    var retained: nat
  }

  class LocationPublisherReconciler {
    const config: Config
    const source: SourceCluster
    const hub: HubCluster
    const gauges: FleetGauges

    constructor (config: Config, source: SourceCluster, hub: HubCluster, gauges: FleetGauges)
      ensures this.config == config && this.source == source && this.hub == hub && this.gauges == gauges
    {
      this.config, this.source, this.hub, this.gauges := config, source, hub, gauges;
    }

    // What a reconcile started now would meet.
    function Around(now: nat, fates: map<Call, Fate>): Circumstances
      reads source, hub
    {
      Circumstances(source.locations, hub.clusters, now, source.synced && hub.synced, fates)
    }

    // The whole reconcile does to the hub exactly what the call-by-call
    // protocol does, whatever calls fail, and then samples the fleet.
    method Reconcile(name: Name, now: nat, fates: map<Call, Fate>) returns (outcome: Outcome)
      modifies hub`copies, hub`policies, gauges
      ensures (outcome, hub.State()) == old(Reconciling.Reconcile(config, name, hub.State(), Around(now, fates)))
      ensures Around(now, fates) == old(Around(now, fates))
      ensures (forall call | call in {GetLocation, CountLocations, CountCopies} ::
                 Around(now, fates).FateOf(call).Succeeds?) ==>
        && gauges.publishable == |PublishableNames(source.locations)|
        && gauges.published == |LiveNames(hub.State())|
        && gauges.retained == |RetainedNames(hub.State())|
      ensures !Around(now, fates).FateOf(GetLocation).Succeeds? ==> unchanged(gauges)
    {
      ghost var before := hub.State();
      var around := Around(now, fates);
      if !around.FateOf(GetLocation).Succeeds? {
        RunGoesOn(config, name, Start, before, around, Returning(Failed), before);
        return Failed;
      }
      if name in source.locations {
        outcome := Publish(name, source.locations[name], around);
      } else {
        RunGoesOn(config, name, Start, before, around, ReadForRemoval, before);
        outcome := Remove(name, around);
      }
      RefreshFleetMetrics(around);
    }

    method Publish(name: Name, location: Location, around: Circumstances) returns (outcome: Outcome)
      requires around == Around(around.now, around.fates)
      requires name in source.locations && source.locations[name] == location
      requires around.FateOf(GetLocation).Succeeds?
      modifies hub`copies, hub`policies
      ensures (outcome, hub.State()) == Reconciling.Reconcile(config, name, old(hub.State()), around)
    {
      hide Run;
      ghost var before := hub.State();
      if CityCode(location) == "" {
        RunGoesOn(config, name, Start, before, around, Returning(Done(0)), before);
        return Done(0);
      }
      RunGoesOn(config, name, Start, before, around, ReadForPublish(location), before);
      if !around.FateOf(GetCopy).Succeeds? {
        RunGoesOn(config, name, ReadForPublish(location), before, around, Returning(Failed), before);
        return Failed;
      }
      var published := Get(hub.copies, name);
      if published.Some? && !Owned(published.value) {
        RunGoesOn(config, name, ReadForPublish(location), before, around, Returning(Done(0)), before);
        return Done(0);
      }
      RunGoesOn(config, name, ReadForPublish(location), before, around, ApplyCopy(location, published), before);
      outcome := Apply(name, location, published, around);
    }

    // The writes of a publish: copy, policy, and the block lifted.
    method Apply(name: Name, location: Location, published: Option<ServingLocation>, around: Circumstances)
      returns (outcome: Outcome)
      requires published == Get(hub.copies, name)
      modifies hub`copies, hub`policies
      ensures (outcome, hub.State())
              == Run(config, name, ApplyCopy(location, published), old(hub.State()), around)
    {
      hide Run, AppliedPolicy, AppliedCopy, Held, GuardDecision, Publishable;
      ghost var before := hub.State();
      var publishedAt := around.now;
      if published.Some? && PublishedContentEqual(published.value, location) {
        publishedAt := published.value.publishedAt;
      }
      var failed := hub.WriteCopy(name, AppliedCopy(published, location, publishedAt), around.FateOf(PatchCopy));
      ghost var applied := hub.State();
      RunGoesOn(config, name, ApplyCopy(location, published), before, around,
                AfterWrite(around.FateOf(PatchCopy), ApplyPolicy(location, published)), applied);
      if failed {
        return Failed;
      }
      failed := ApplyPropagationPolicy(name, around.FateOf(PatchPolicy));
      ghost var placed := hub.State();
      var blocked := published.Some? && Blocked(published.value);
      RunGoesOn(config, name, ApplyPolicy(location, published), applied, around,
                AfterWrite(around.FateOf(PatchPolicy),
                           if blocked then ClearBlock(location, Lifted(published.value.annotations))
                           else Published(config)),
                placed);
      if failed {
        return Failed;
      }
      if blocked {
        failed := ClearBlocked(name, published.value, around.FateOf(PatchUnblock));
        RunGoesOn(config, name, ClearBlock(location, Lifted(published.value.annotations)), placed, around,
                  if failed then Returning(Failed) else Published(config), hub.State());
        if failed {
          return Failed;
        }
      }
      outcome := Done(config.resync);
    }

    method ApplyPropagationPolicy(name: Name, fate: Fate) returns (failed: bool)
      modifies hub`policies
      ensures hub.State() == SetPolicy(
        old(hub.State()), name, AppliedPolicy(Get(old(hub.policies), PolicyName(name)), config, name), fate)
      ensures failed == !fate.Succeeds?
      ensures !fate.Refused? ==>
                && PolicyName(name) in hub.policies
                && hub.policies[PolicyName(name)].spec.conflictResolution == "Overwrite"
                && hub.policies[PolicyName(name)].spec.placement == map[TOPOLOGY_LABEL := name]
    {
      var selectors := [ByName(LOCATIONS_API_VERSION, "ServingLocation", name)];
      var i := 0;
      while i < |config.scopedResources|
        invariant 0 <= i <= |config.scopedResources|
        invariant selectors == [ByName(LOCATIONS_API_VERSION, "ServingLocation", name)]
                               + ScopedSelectors(config.scopedResources[..i], name)
      {
        var scoped := config.scopedResources[i];
        assert config.scopedResources[..i + 1][..i] == config.scopedResources[..i];
        selectors := selectors + [ByLabels(scoped.apiVersion, scoped.kind, map[scoped.locationLabel := name])];
        i := i + 1;
      }
      assert config.scopedResources[..i] == config.scopedResources;
      var spec := PolicySpec("Overwrite", selectors, map[TOPOLOGY_LABEL := name]);
      var current := Get(hub.policies, PolicyName(name));
      var labels := if current.Some? then current.value.labels else map[];
      failed := hub.WritePolicy(name, Policy(labels[MANAGED_BY_LABEL := MANAGED_BY_VALUE], spec), fate);
    }

    method ClearBlocked(name: Name, published: ServingLocation, fate: Fate) returns (failed: bool)
      modifies hub`copies
      ensures failed == PatchFails(old(hub.State()), name, fate)
      ensures hub.State() == PatchAnnotations(old(hub.State()), name, Lifted(published.annotations), fate)
    {
      var annotations := published.annotations;
      annotations := annotations - {BLOCKED_ANNOTATION};
      failed := hub.PatchAnnotations(name, annotations, fate);
    }

    method RecordBlocked(name: Name, published: ServingLocation, decision: RemovalDecision, fate: Fate)
      returns (failed: bool)
      modifies hub`copies
      ensures Lookup(published.annotations, BLOCKED_ANNOTATION) == BlockedMessage(decision) ==>
        !failed && hub.State() == old(hub.State())
      ensures Lookup(published.annotations, BLOCKED_ANNOTATION) != BlockedMessage(decision) ==>
        && failed == PatchFails(old(hub.State()), name, fate)
        && hub.State() == PatchAnnotations(
             old(hub.State()), name, published.annotations[BLOCKED_ANNOTATION := BlockedMessage(decision)], fate)
    {
      var message := decision.reason + ": " + decision.message;
      if Lookup(published.annotations, BLOCKED_ANNOTATION) == message {
        return false;
      }
      var annotations := published.annotations;
      annotations := annotations[BLOCKED_ANNOTATION := message];
      failed := hub.PatchAnnotations(name, annotations, fate);
    }

    method Remove(name: Name, around: Circumstances) returns (outcome: Outcome)
      requires around == Around(around.now, around.fates)
      modifies hub`copies, hub`policies
      ensures (outcome, hub.State()) == Run(config, name, ReadForRemoval, old(hub.State()), around)
    {
      hide Run, AppliedPolicy, AppliedCopy, GuardDecision, Publishable;
      ghost var before := hub.State();
      if !around.FateOf(GetCopy).Succeeds? {
        RunGoesOn(config, name, ReadForRemoval, before, around, Returning(Failed), before);
        return Failed;
      }
      var published := Get(hub.copies, name);
      if published.None? || !Owned(published.value) {
        RunGoesOn(config, name, ReadForRemoval, before, around, Returning(Done(0)), before);
        return Done(0);
      }
      RunGoesOn(config, name, ReadForRemoval, before, around, AwaitCaches(published.value), before);
      var allowed := PruneAllowed(name, published.value, around);
      if !allowed {
        return Done(BlockedRequeue(config));
      }
      if Lookup(published.value.annotations, OVERRIDE_ANNOTATION) != "true" {
        var decided, decision := EvaluateRemovalGuard(name, around);
        if !decided {
          RunGoesOn(config, name, CheckFleet(published.value), before, around, Returning(Failed), before);
          return Failed;
        }
        if !decision.allowed {
          outcome := Retain(name, published.value, decision, around);
          return;
        }
        RunGoesOn(config, name, CheckFleet(published.value), before, around, DeleteCopy(published.value), before);
      }
      outcome := Delete(name, published.value, around);
    }

    method Retain(name: Name, published: ServingLocation, decision: RemovalDecision, around: Circumstances)
      returns (outcome: Outcome)
      requires around.FateOf(ListClusters).Succeeds?
      requires decision == GuardDecision(around.clusters, name) && !decision.allowed
      modifies hub`copies
      ensures (outcome, hub.State()) == Run(config, name, CheckFleet(published), old(hub.State()), around)
    {
      hide Run, AppliedPolicy, AppliedCopy, GuardDecision, Publishable, Held, BlockedMessage;
      ghost var before := hub.State();
      var failed := RecordBlocked(name, published, decision, around.FateOf(PatchBlock));
      if Lookup(published.annotations, BLOCKED_ANNOTATION) == BlockedMessage(decision) {
        RunGoesOn(config, name, CheckFleet(published), before, around, Blocking(config), before);
      } else {
        ghost var record := RecordBlock(published.annotations[BLOCKED_ANNOTATION := BlockedMessage(decision)]);
        RunGoesOn(config, name, CheckFleet(published), before, around, record, before);
        RunGoesOn(config, name, record, before, around,
                  if failed then Returning(Failed) else Blocking(config), hub.State());
      }
      outcome := if failed then Failed else Done(BlockedRequeue(config));
    }

    method Delete(name: Name, published: ServingLocation, around: Circumstances) returns (outcome: Outcome)
      modifies hub`copies, hub`policies
      ensures (outcome, hub.State()) == Run(config, name, DeleteCopy(published), old(hub.State()), around)
    {
      hide Run, AppliedPolicy, AppliedCopy, GuardDecision, Publishable, Held, BlockedMessage;
      ghost var before := hub.State();
      var failed := hub.DeleteServing(name, around.FateOf(RemoveServing));
      ghost var emptied := hub.State();
      RunGoesOn(config, name, DeleteCopy(published), before, around,
                AfterWrite(around.FateOf(RemoveServing), DeletePolicy), emptied);
      if failed {
        return Failed;
      }
      failed := hub.DeletePlacement(name, around.FateOf(RemovePlacement));
      RunGoesOn(config, name, DeletePolicy, emptied, around,
                AfterWrite(around.FateOf(RemovePlacement), Returning(Done(0))), hub.State());
      outcome := if failed then Failed else Done(0);
    }

    method PruneAllowed(name: Name, published: ServingLocation, around: Circumstances) returns (allowed: bool)
      requires around == Around(around.now, around.fates)
      ensures allowed <==>
                && source.synced && hub.synced && around.FateOf(ListLocations).Succeeds?
                && (source.locations != map[] || (around.FateOf(ListCopies).Succeeds? && Held(hub.State()) == {}))
      ensures Run(config, name, AwaitCaches(published), hub.State(), around)
              == if allowed then Run(config, name, AfterPruneAllowed(published), hub.State(), around)
                 else (Done(BlockedRequeue(config)), hub.State())
    {
      hide Run, AppliedPolicy, AppliedCopy, GuardDecision, Publishable, BlockedMessage;
      ghost var before := hub.State();
      if !source.synced || !hub.synced {
        RunGoesOn(config, name, AwaitCaches(published), before, around, Blocking(config), before);
        return false;
      }
      RunGoesOn(config, name, AwaitCaches(published), before, around, ListSource(published), before);
      if !around.FateOf(ListLocations).Succeeds? {
        RunGoesOn(config, name, ListSource(published), before, around, Blocking(config), before);
        return false;
      }
      if |source.locations| > 0 {
        RunGoesOn(config, name, ListSource(published), before, around, AfterPruneAllowed(published), before);
        return true;
      }
      RunGoesOn(config, name, ListSource(published), before, around, ListHeld(published), before);
      if !around.FateOf(ListCopies).Succeeds? {
        RunGoesOn(config, name, ListHeld(published), before, around, Blocking(config), before);
        return false;
      }
      var held := set n | n in hub.copies && Owned(hub.copies[n]);
      if |held| > 0 {
        RunGoesOn(config, name, ListHeld(published), before, around, Blocking(config), before);
        return false;
      }
      RunGoesOn(config, name, ListHeld(published), before, around, AfterPruneAllowed(published), before);
      return true;
    }

    // Ready iff some entry, at any position, is a map of type "Ready" and status
    // "True".
    static method KarmadaClusterReady(cluster: Cluster) returns (ready: bool)
      ensures ready <==>
                cluster.conditions.Some?
                && exists raw ::
                     && raw in cluster.conditions.value && raw.Fields?
                     && Get(raw.fields, "type") == Some("Ready") && Get(raw.fields, "status") == Some("True")
      ensures ready == ClusterReady(cluster)
    {
      if cluster.conditions.None? {
        return false;
      }
      var conditions := cluster.conditions.value;
      for i := 0 to |conditions|
        invariant forall j :: 0 <= j < i ==> !ReadyCondition(conditions[j])
      {
        if conditions[i].NotAMap? {
          continue;
        }
        var fields := conditions[i].fields;
        if Get(fields, "type") == Some("Ready") && Get(fields, "status") == Some("True") {
          assert conditions[i] in conditions && ReadyCondition(conditions[i]);
          return true;
        }
      }
      return false;
    }

    method EvaluateRemovalGuard(name: Name, around: Circumstances) returns (decided: bool, decision: RemovalDecision)
      requires around.clusters == hub.clusters
      ensures decided == around.FateOf(ListClusters).Succeeds?
      ensures decided ==> decision == GuardDecision(hub.clusters, name)
    {
      if !around.FateOf(ListClusters).Succeeds? {
        return false, RemovalDecision(false, "", "");
      }
      var labelled, unlabelled: seq<Name> := [], [];
      var i := 0;
      while i < |hub.clusters|
        invariant 0 <= i <= |hub.clusters|
        invariant labelled == ClaimingNames(hub.clusters[..i], name)
        invariant unlabelled == UnlabelledNames(hub.clusters[..i], name)
      {
        var item := hub.clusters[i];
        assert hub.clusters[..i + 1][..i] == hub.clusters[..i];
        i := i + 1;
        var ready := KarmadaClusterReady(item);
        if !ready {
          continue;
        }
        var ok := TOPOLOGY_LABEL in item.labels;
        var value := Lookup(item.labels, TOPOLOGY_LABEL);
        if value == name && ok {
          labelled := labelled + [item.name];
        } else if !ok || value == "" {
          unlabelled := unlabelled + [item.name];
        }
      }
      assert hub.clusters[..i] == hub.clusters;
      labelled, unlabelled := Text.SortStrings(labelled), Text.SortStrings(unlabelled);
      decided := true;
      if |labelled| > 0 {
        decision := RemovalDecision(
          false, "ClustersStillServing",
          "clusters still labelled for this location: " + Text.Join(labelled, ", "));
      } else if |unlabelled| > 0 {
        decision := RemovalDecision(
          false, "FleetNotFullyLabelled",
          "no cluster claims this location, but " + Text.Decimal(|unlabelled|)
          + " Ready cluster(s) carry no location label at all: " + Text.Join(unlabelled, ", "));
      } else {
        decision := RemovalDecision(true, "", "");
      }
    }

    method RefreshFleetMetrics(around: Circumstances)
      modifies gauges
      ensures around.FateOf(CountLocations).Succeeds? && around.FateOf(CountCopies).Succeeds? ==>
        && gauges.publishable == |PublishableNames(source.locations)|
        && gauges.published == |LiveNames(hub.State())|
        && gauges.retained == |RetainedNames(hub.State())|
      ensures !(around.FateOf(CountLocations).Succeeds? && around.FateOf(CountCopies).Succeeds?) ==>
        unchanged(gauges)
    {
      if !around.FateOf(CountLocations).Succeeds? {
        return;
      }
      var publishable := CountPublishable();
      if !around.FateOf(CountCopies).Succeeds? {
        return;
      }
      var live, retained := CountCopiesByState();
      gauges.publishable, gauges.published, gauges.retained := publishable, live, retained;
    }

    method CountPublishable() returns (publishable: nat)
      ensures publishable == |PublishableNames(source.locations)|
    {
      var items := ListNames(source.locations.Keys);
      publishable := 0;
      for i := 0 to |items|
        invariant publishable == |Among(items[..i], PublishableNames(source.locations))|
      {
        AmongGrows(items, source.locations.Keys, i, PublishableNames(source.locations));
        assert items[i] in items;
        if Text.TrimSpace(Lookup(source.locations[items[i]].topology, CITY_CODE_KEY)) != "" {
          publishable := publishable + 1;
        }
      }
      AmongAll(items, source.locations.Keys, PublishableNames(source.locations));
    }

    method CountCopiesByState() returns (live: nat, retained: nat)
      ensures live == |LiveNames(hub.State())| && retained == |RetainedNames(hub.State())|
    {
      ghost var held, lives, retains := Held(hub.State()), LiveNames(hub.State()), RetainedNames(hub.State());
      var published := ListNames(Held(hub.State()));
      live, retained := 0, 0;
      for i := 0 to |published|
        invariant live == |Among(published[..i], lives)| && retained == |Among(published[..i], retains)|
      {
        AmongGrows(published, held, i, lives);
        AmongGrows(published, held, i, retains);
        assert published[i] in held;
        if BLOCKED_ANNOTATION in hub.copies[published[i]].annotations {
          retained := retained + 1;
          continue;
        }
        live := live + 1;
      }
      AmongAll(published, held, lives);
      AmongAll(published, held, retains);
    }
  }
}
