// What reaches a cluster, given the policies the publisher writes, and so which
// location the cell there resolves to.
module Delivery {
  import opened Api
  import opened Publication
  import opened Reconciling
  import opened Protocol
  import opened Convergence
  import opened Identity
  import opened Listing
  import OrphanedPolicies
  import Text

  // An object on the hub, as a policy's resource selectors see it.
  datatype HubObject = HubObject(apiVersion: string, kind: string, name: Name, labels: map<string, string>)

  function CopyObject(name: Name, copy: ServingLocation): HubObject {
    HubObject(LOCATIONS_API_VERSION, "ServingLocation", name, copy.labels)
  }

  // A matchLabels selector.
  predicate Matches(matchLabels: map<string, string>, labels: map<string, string>) {
    forall key :: key in matchLabels ==> key in labels && labels[key] == matchLabels[key]
  }

  predicate Selects(selector: ResourceSelector, thing: HubObject) {
    && selector.apiVersion == thing.apiVersion && selector.kind == thing.kind
    && match selector
       case ByName(_, _, name) => name == thing.name
       case ByLabels(_, _, matchLabels) => Matches(matchLabels, thing.labels)
  }

  predicate Carries(spec: PolicySpec, thing: HubObject) {
    exists i :: 0 <= i < |spec.resourceSelectors| && Selects(spec.resourceSelectors[i], thing)
  }

  predicate Places(spec: PolicySpec, cluster: Cluster) {
    Matches(spec.placement, cluster.labels)
  }

  ghost predicate DeliversBy(hub: Hub, policy: Name, cluster: Cluster, thing: HubObject) {
    && policy in hub.policies
    && Carries(hub.policies[policy].spec, thing) && Places(hub.policies[policy].spec, cluster)
  }

  // Whatever policy on the hub does it.
  ghost predicate Delivers(hub: Hub, cluster: Cluster, thing: HubObject) {
    exists policy :: DeliversBy(hub, policy, cluster, thing)
  }

  ghost function DeliveredCopies(hub: Hub, cluster: Cluster): set<Name> {
    set name | name in hub.copies && Delivers(hub, cluster, CopyObject(name, hub.copies[name]))
  }

  // The hub holds the policy the publisher writes for the name.
  predicate Written(config: Config, hub: Hub, name: Name) {
    name != "" && PolicyName(name) in hub.policies
    && hub.policies[PolicyName(name)].spec == DesiredPolicySpec(config, name)
  }

  // ---- Whose policies are on the hub ----

  function NameOf(policy: Name): Name {
    Text.TrimPrefix(policy, "location-")
  }

  predicate OurPolicy(config: Config, policy: Name, spec: PolicySpec) {
    && NameOf(policy) != "" && policy == PolicyName(NameOf(policy))
    && spec == DesiredPolicySpec(config, NameOf(policy))
  }

  // Every policy on the hub is one the publisher writes.
  predicate Ours(config: Config, hub: Hub) {
    forall policy :: policy in hub.policies ==> OurPolicy(config, policy, hub.policies[policy].spec)
  }

  lemma NameOfPolicyName(name: Name)
    ensures NameOf(PolicyName(name)) == name
  {
  }

  lemma AdvanceKeepsOurs(config: Config, name: Name, phase: Phase, hub: Hub, view: View, fate: Fate)
    requires !phase.Returning? && name != "" && Ours(config, hub)
    ensures Ours(config, Advance(config, name, phase, hub, view, fate).1)
  {
    hide Publishable, PublishedAt, AppliedCopy, GuardDecision, BlockedMessage, Owned, Overridden, DesiredPolicySpec;
    NameOfPolicyName(name);
    hide NameOf;
  }

  // Nobody else writes policies, and no name is empty.
  predicate Spares(config: Config, action: Action) {
    match action
    case EditPolicy(policy, spec) => spec.Some? ==> OurPolicy(config, policy, spec.value.spec)
    case Call(name, _, _) => name != ""
    case _ => true
  }

  // On a hub whose policies are left to the publisher, they stay its own.
  lemma {:induction false} PoliciesStayOurs(config: Config, t: Trace, k: nat)
    requires Runs(config, t) && k < |t.worlds| && Ours(config, t.worlds[0].hub)
    requires forall i :: 0 <= i < |t.actions| ==> Spares(config, t.actions[i])
    ensures Ours(config, t.worlds[k].hub)
  {
    hide Next, Enabled, Spares, Ours, Starting;
    if k > 0 {
      PoliciesStayOurs(config, t, k - 1);
      ActionAt(config, t, k - 1);
      ActionKeepsOurs(config, t.worlds[k - 1], t.actions[k - 1]);
    }
  }

  lemma ActionKeepsOurs(config: Config, w: World, action: Action)
    requires Enabled(w, action) && Spares(config, action) && Ours(config, w.hub)
    ensures Ours(config, Next(config, w, action).hub)
  {
    hide Advance, Sees, Woken, OurPolicy;
    if action.Call? {
      AdvanceKeepsOurs(config, action.name, w.active[action.name], w.hub, action.view, action.fate);
    }
  }

  // ---- Placement ----

  // The removal guard's label test and the policy's placement agree, for every
  // Ready cluster and every name.
  lemma GuardAgreesWithPlacement(config: Config, cluster: Cluster, name: Name)
    requires ClusterReady(cluster)
    ensures Claims(cluster, name) <==> Places(DesiredPolicySpec(config, name), cluster)
  {
    PlacesExactly(config, cluster, name);
  }

  lemma PlacesExactly(config: Config, cluster: Cluster, name: Name)
    ensures Places(DesiredPolicySpec(config, name), cluster) <==> Get(cluster.labels, TOPOLOGY_LABEL) == Some(name)
  {
    var placement := DesiredPolicySpec(config, name).placement;
    assert TOPOLOGY_LABEL in placement;
  }

  // The object names the location under a label configured for its kind.
  predicate ScopedTo(config: Config, thing: HubObject, name: Name) {
    exists i :: 0 <= i < |config.scopedResources| && ScopedBy(config.scopedResources[i], thing, name)
  }

  predicate ScopedBy(scoped: ScopedResource, thing: HubObject, name: Name) {
    && scoped.apiVersion == thing.apiVersion && scoped.kind == thing.kind
    && Get(thing.labels, scoped.locationLabel) == Some(name)
  }

  predicate IsCopyOf(thing: HubObject, name: Name) {
    thing.apiVersion == LOCATIONS_API_VERSION && thing.kind == "ServingLocation" && thing.name == name
  }

  lemma CarriesExactly(config: Config, thing: HubObject, name: Name)
    ensures Carries(DesiredPolicySpec(config, name), thing) <==> IsCopyOf(thing, name) || ScopedTo(config, thing, name)
  {
    var selectors, scoped := DesiredPolicySpec(config, name).resourceSelectors, config.scopedResources;
    assert |selectors| == |scoped| + 1 && selectors[0] == ByName(LOCATIONS_API_VERSION, "ServingLocation", name);
    assert Selects(selectors[0], thing) <==> IsCopyOf(thing, name);
    forall i | 0 <= i < |scoped|
      ensures Selects(selectors[i + 1], thing) <==> ScopedBy(scoped[i], thing, name)
    {
      assert selectors[i + 1] == ScopedSelectors(scoped, name)[i];
    }
    hide Selects, ScopedBy, ScopedSelectors, DesiredPolicySpec, IsCopyOf;
    if Carries(DesiredPolicySpec(config, name), thing) {
      var i :| 0 <= i < |selectors| && Selects(selectors[i], thing);
      assert i > 0 ==> ScopedBy(scoped[i - 1], thing, name);
    }
    if ScopedTo(config, thing, name) {
      var i :| 0 <= i < |scoped| && ScopedBy(scoped[i], thing, name);
      assert Selects(selectors[i + 1], thing);
    }
  }

  // Location isolation: on a hub whose policies are the publisher's, an object
  // reaches a cluster exactly when the cluster carries a non-empty location
  // label, that location's policy is written, and the object is that location's
  // copy or names exactly that location under a label configured for its kind.
  // A cluster without a label receives nothing.
  lemma IsolationIsExact(config: Config, hub: Hub, cluster: Cluster, thing: HubObject)
    requires Ours(config, hub)
    ensures
      Delivers(hub, cluster, thing) <==>
      var claimed := Get(cluster.labels, TOPOLOGY_LABEL);
      && claimed.Some? && Written(config, hub, claimed.value)
      && (IsCopyOf(thing, claimed.value) || ScopedTo(config, thing, claimed.value))
  {
    hide DesiredPolicySpec, Carries, Places, NameOf;
    var claimed := Get(cluster.labels, TOPOLOGY_LABEL);
    forall policy | policy in hub.policies
      ensures DeliversBy(hub, policy, cluster, thing) <==>
              && claimed == Some(NameOf(policy))
              && (IsCopyOf(thing, NameOf(policy)) || ScopedTo(config, thing, NameOf(policy)))
    {
      assert OurPolicy(config, policy, hub.policies[policy].spec);
      PlacesExactly(config, cluster, NameOf(policy));
      CarriesExactly(config, thing, NameOf(policy));
    }
    if claimed.Some? {
      NameOfPolicyName(claimed.value);
    }
    hide DeliversBy, ScopedTo, IsCopyOf;
    if claimed.Some? && Written(config, hub, claimed.value) {
      assert DeliversBy(hub, PolicyName(claimed.value), cluster, thing)
             <==> IsCopyOf(thing, claimed.value) || ScopedTo(config, thing, claimed.value);
    }
    if Delivers(hub, cluster, thing) {
      var policy :| DeliversBy(hub, policy, cluster, thing);
      assert policy in hub.policies;
      assert OurPolicy(config, policy, hub.policies[policy].spec);
    }
  }

  // A policy that is not the publisher's present one can still deliver: one
  // left behind by a removal, written under an earlier configuration, serves
  // the kinds of that configuration for good.
  lemma OrphanedPolicyDelivers(
      past: Config, config: Config, scoped: ScopedResource, name: Name, around: Circumstances)
    returns (hub: Hub, cluster: Cluster, thing: HubObject)
    requires scoped in past.scopedResources && name !in around.source && name != ""
    ensures Reconcile(config, name, hub, around).1 == hub
    ensures ScopedBy(scoped, thing, name) && Delivers(hub, cluster, thing)
  {
    hub := Hub(map[], map[PolicyName(name) := Policy(map[], DesiredPolicySpec(past, name))]);
    cluster := Cluster("cell", map[TOPOLOGY_LABEL := name], None);
    thing := HubObject(scoped.apiVersion, scoped.kind, "thing", map[scoped.locationLabel := name]);
    OrphanedPolicies.OrphanStays(config, name, hub, around);
    hide Reconcile, DesiredPolicySpec;
    var i :| 0 <= i < |past.scopedResources| && past.scopedResources[i] == scoped;
    assert ScopedBy(past.scopedResources[i], thing, name);
    CarriesExactly(past, thing, name);
    PlacesExactly(past, cluster, name);
    assert DeliversBy(hub, PolicyName(name), cluster, thing);
  }

  // ---- One location per cluster ----

  // The configuration lists ServingLocation itself as a location-scoped kind.
  predicate ScopesCopies(config: Config) {
    exists i :: 0 <= i < |config.scopedResources| && ScopesCopy(config.scopedResources[i])
  }

  predicate ScopesCopy(scoped: ScopedResource) {
    scoped.apiVersion == LOCATIONS_API_VERSION && scoped.kind == "ServingLocation"
  }

  lemma DeliveredIsTheLabel(config: Config, hub: Hub, cluster: Cluster)
    requires Ours(config, hub) && !ScopesCopies(config)
    ensures DeliveredCopies(hub, cluster) ==
            var claimed := Lookup(cluster.labels, TOPOLOGY_LABEL);
            if claimed in hub.copies && Written(config, hub, claimed) then {claimed} else {}
  {
    hide Ours;
    forall name | name in hub.copies
      ensures Delivers(hub, cluster, CopyObject(name, hub.copies[name]))
              <==> Get(cluster.labels, TOPOLOGY_LABEL) == Some(name) && Written(config, hub, name)
    {
      var thing := CopyObject(name, hub.copies[name]);
      IsolationIsExact(config, hub, cluster, thing);
    }
  }

  // A hub on which one cluster receives two copies, when copies are scoped.
  lemma ScopedCopiesCollide(config: Config) returns (hub: Hub, cluster: Cluster)
    requires ScopesCopies(config)
    ensures Ours(config, hub) && |DeliveredCopies(hub, cluster)| > 1
    ensures forall name :: name in hub.copies ==> Lookup(hub.copies[name].topology, CITY_CODE_KEY) != ""
  {
    var i :| 0 <= i < |config.scopedResources| && ScopesCopy(config.scopedResources[i]);
    var ours := map[MANAGED_BY_LABEL := MANAGED_BY_VALUE];
    var plain := ServingLocation(ours, map[], map[CITY_CODE_KEY := "DFW"], 1, 0);
    var labelled := plain.(labels := ours[config.scopedResources[i].locationLabel := "a"]);
    hub := Hub(map["a" := plain, "b" := labelled],
               map[PolicyName("a") := Policy(ours, DesiredPolicySpec(config, "a"))]);
    cluster := Cluster("cell", map[TOPOLOGY_LABEL := "a"], None);
    NameOfPolicyName("a");
    hide DesiredPolicySpec, NameOf;
    assert Ours(config, hub);
    assert ScopedBy(config.scopedResources[i], CopyObject("b", labelled), "a");
    IsolationIsExact(config, hub, cluster, CopyObject("a", plain));
    IsolationIsExact(config, hub, cluster, CopyObject("b", labelled));
    hide Delivers, Ours;
    TwoDelivered(hub, cluster);
  }

  lemma TwoDelivered(hub: Hub, cluster: Cluster)
    requires hub.copies.Keys == {"a", "b"}
    requires Delivers(hub, cluster, CopyObject("a", hub.copies["a"]))
    requires Delivers(hub, cluster, CopyObject("b", hub.copies["b"]))
    ensures |DeliveredCopies(hub, cluster)| > 1
  {
    hide Delivers;
    assert DeliveredCopies(hub, cluster) == {"a", "b"};
  }

  // No cluster is ever told it serves two locations, on any hub whose policies
  // are the publisher's, exactly when the configuration does not list
  // ServingLocation as a location-scoped kind.
  lemma AtMostOneCopyExactly(config: Config)
    ensures (forall hub, cluster :: Ours(config, hub) ==> |DeliveredCopies(hub, cluster)| <= 1)
            <==> !ScopesCopies(config)
  {
    if ScopesCopies(config) {
      var hub, cluster := ScopedCopiesCollide(config);
    } else {
      forall hub, cluster | Ours(config, hub) ensures |DeliveredCopies(hub, cluster)| <= 1 {
        DeliveredIsTheLabel(config, hub, cluster);
      }
    }
  }

  // ---- Removals ----

  ghost predicate SameDeliveries(before: Hub, after: Hub, cluster: Cluster) {
    forall thing :: (Delivers(before, cluster, thing) <==> Delivers(after, cluster, thing))
  }

  // The name's policy, if there is one, places on clusters of that label, as
  // the publisher has written it under whatever configuration.
  predicate PlacedByLabel(hub: Hub, name: Name) {
    PolicyName(name) in hub.policies ==> hub.policies[PolicyName(name)].spec.placement == map[TOPOLOGY_LABEL := name]
  }

  lemma {:induction false} RunKeepsPlacement(
      config: Config, name: Name, phase: Phase, hub: Hub, around: Circumstances)
    requires PlacedByLabel(hub, name)
    ensures PlacedByLabel(Run(config, name, phase, hub, around).1, name)
    decreases phase.CallsLeft()
  {
    if !phase.Returning? {
      AdvanceProgresses(config, name, phase, hub, ViewOf(name, hub, around), around.FateOf(CallOf(phase)));
      hide Advance;
      var (next, hub') := Step(config, name, phase, hub, around);
      RunKeepsPlacement(config, name, next, hub', around);
    }
  }

  lemma OwnPolicyStaysAway(hub: Hub, name: Name, cluster: Cluster, thing: HubObject)
    requires PlacedByLabel(hub, name) && Lookup(cluster.labels, TOPOLOGY_LABEL) != name
    ensures !DeliversBy(hub, PolicyName(name), cluster, thing)
  {
    hide Carries;
    assert TOPOLOGY_LABEL in map[TOPOLOGY_LABEL := name];
  }

  lemma ElsewhereDeliversSame(a: Hub, b: Hub, name: Name, cluster: Cluster, policy: Name, thing: HubObject)
    requires SameElsewhere(a, b, name) && policy != PolicyName(name)
    ensures DeliversBy(a, policy, cluster, thing) <==> DeliversBy(b, policy, cluster, thing)
  {
    hide Carries, Places;
    assert Get(a.policies, policy) == Get(a.policies - {PolicyName(name)}, policy);
    assert Get(b.policies, policy) == Get(b.policies - {PolicyName(name)}, policy);
  }

  // A reconcile of one name, whatever it does and whatever fails, changes no
  // delivery to a cluster labelled for another location or for none, whoever
  // wrote the other policies on the hub.
  lemma ReconcileSparesOtherClusters(
      config: Config, name: Name, hub: Hub, around: Circumstances, cluster: Cluster)
    requires PlacedByLabel(hub, name) && Lookup(cluster.labels, TOPOLOGY_LABEL) != name
    ensures SameDeliveries(hub, Reconcile(config, name, hub, around).1, cluster)
    ensures name != "" && Ours(config, hub) && !ScopesCopies(config) ==>
              DeliveredCopies(hub, cluster) == DeliveredCopies(Reconcile(config, name, hub, around).1, cluster)
  {
    hide Run, PlacedByLabel, SameElsewhere, DeliveredCopies;
    if name != "" && Ours(config, hub) && !ScopesCopies(config) {
      SameCopiesDelivered(config, name, hub, around, cluster);
    }
    var after := Reconcile(config, name, hub, around).1;
    RunIsLocal(config, name, Start, hub, around);
    RunKeepsPlacement(config, name, Start, hub, around);
    hide Reconcile, DeliversBy;
    forall policy, thing
      ensures DeliversBy(hub, policy, cluster, thing) <==> DeliversBy(after, policy, cluster, thing)
    {
      if policy == PolicyName(name) {
        OwnPolicyStaysAway(hub, name, cluster, thing);
        OwnPolicyStaysAway(after, name, cluster, thing);
      } else {
        ElsewhereDeliversSame(hub, after, name, cluster, policy, thing);
      }
    }
  }

  lemma {:induction false} RunKeepsOurs(config: Config, name: Name, phase: Phase, hub: Hub, around: Circumstances)
    requires name != "" && Ours(config, hub)
    ensures Ours(config, Run(config, name, phase, hub, around).1)
    decreases phase.CallsLeft()
  {
    if !phase.Returning? {
      AdvanceProgresses(config, name, phase, hub, ViewOf(name, hub, around), around.FateOf(CallOf(phase)));
      AdvanceKeepsOurs(config, name, phase, hub, ViewOf(name, hub, around), around.FateOf(CallOf(phase)));
      hide Advance, Ours;
      var (next, hub') := Step(config, name, phase, hub, around);
      RunKeepsOurs(config, name, next, hub', around);
    }
  }

  lemma SameCopiesDelivered(config: Config, name: Name, hub: Hub, around: Circumstances, cluster: Cluster)
    requires name != "" && Ours(config, hub) && !ScopesCopies(config)
    requires Lookup(cluster.labels, TOPOLOGY_LABEL) != name
    ensures DeliveredCopies(hub, cluster) == DeliveredCopies(Reconcile(config, name, hub, around).1, cluster)
  {
    hide Run, Ours, DesiredPolicySpec;
    var after := Reconcile(config, name, hub, around).1;
    RunIsLocal(config, name, Start, hub, around);
    RunKeepsOurs(config, name, Start, hub, around);
    ElsewhereKeepsOthers(hub, after, name, Lookup(cluster.labels, TOPOLOGY_LABEL));
    DeliveredIsTheLabel(config, hub, cluster);
    DeliveredIsTheLabel(config, after, cluster);
  }

  // A removal the guard allows changes what is delivered to no Ready cluster.
  lemma AllowedRemovalDisturbsNoReadyCluster(
      config: Config, name: Name, hub: Hub, around: Circumstances, i: nat)
    requires PlacedByLabel(hub, name) && name != "" && GuardDecision(around.clusters, name).allowed
    requires i < |around.clusters| && ClusterReady(around.clusters[i])
    ensures SameDeliveries(hub, Reconcile(config, name, hub, around).1, around.clusters[i])
    ensures Ours(config, hub) && !ScopesCopies(config) ==>
              DeliveredCopies(hub, around.clusters[i])
              == DeliveredCopies(Reconcile(config, name, hub, around).1, around.clusters[i])
  {
    GuardAllowsExactly(around.clusters, name);
    hide Reconcile, GuardDecision, SameDeliveries;
    ReconcileSparesOtherClusters(config, name, hub, around, around.clusters[i]);
  }

  // ---- Identity ----

  // What a cell resolves to, decided by its cluster's label alone: never
  // ambiguous, the label's location whenever that location is published, and
  // otherwise the configured location if there is one.
  lemma ResolutionIsDecidedByLabel(
      config: Config, hub: Hub, cluster: Cluster, delivered: seq<Name>, configured: Name)
    requires Ours(config, hub) && !ScopesCopies(config) && Lists(delivered, DeliveredCopies(hub, cluster))
    ensures
      var claimed := Lookup(cluster.labels, TOPOLOGY_LABEL);
      Resolve(Some(delivered), configured) ==
      if claimed in hub.copies && Written(config, hub, claimed)
      then Resolved(claimed, Delivered, configured != "" && configured != claimed)
      else if configured != "" then Resolved(configured, Configured, false)
      else Unresolved(NoLocationIdentity)
  {
    DeliveredIsTheLabel(config, hub, cluster);
    hide Delivers, Written, Ours;
  }

  // End to end, over every run: once a publishable Location's name has gone
  // quiet, and its hub object is not somebody else's, every cell on a cluster
  // labelled for it resolves to it.
  lemma QuietCellsResolveTheirLabel(
      config: Config, t: Trace, k: nat, name: Name, cluster: Cluster, delivered: seq<Name>, configured: Name)
    requires Runs(config, t) && k < |t.worlds| && name != "" && !ScopesCopies(config)
    requires Ours(config, t.worlds[0].hub) && forall i :: 0 <= i < |t.actions| ==> Spares(config, t.actions[i])
    requires t.worlds[k].queue.Quiet(name) && name !in t.worlds[k].active
    requires name in t.worlds[k].source && Publishable(t.worlds[k].source[name])
    requires !Foreign(Get(t.worlds[k].hub.copies, name))
    requires Lookup(cluster.labels, TOPOLOGY_LABEL) == name
    requires Lists(delivered, DeliveredCopies(t.worlds[k].hub, cluster))
    ensures Resolve(Some(delivered), configured) == Resolved(name, Delivered, configured != "" && configured != name)
  {
    QuiescenceMeansConvergence(config, t, k, name);
    PoliciesStayOurs(config, t, k);
    hide Runs, Ours, Spares, Publishable, Bears, DesiredPolicySpec;
    ResolutionIsDecidedByLabel(config, t.worlds[k].hub, cluster, delivered, configured);
  }
}
