// Which clusters the deletes of a removal disturb, over runs: the guard lists
// the clusters first, and the deletes are calls of their own.
module Disturbance {
  import opened Api
  import opened Publication
  import opened Reconciling
  import opened Protocol
  import opened Delivery
  import opened DeletionSafety

  // ---- What each delete changes ----

  // Deleting a policy changes what a cluster is delivered exactly when the
  // policy is there and the cluster carries its location's label.
  lemma PolicyDeleteDisturbsExactly(config: Config, hub: Hub, name: Name, fate: Fate, cluster: Cluster)
    requires Ours(config, hub) && name != ""
    ensures SameDeliveries(hub, RemovePolicy(hub, name, fate), cluster)
            <==> fate.Refused? || PolicyName(name) !in hub.policies || Lookup(cluster.labels, TOPOLOGY_LABEL) != name
  {
    hide Ours, SameDeliveries;
    if fate.Refused? || PolicyName(name) !in hub.policies || Lookup(cluster.labels, TOPOLOGY_LABEL) != name {
      PolicyDeleteSpares(config, hub, name, fate, cluster);
    } else {
      PolicyDeleteDisturbs(config, hub, name, fate, cluster);
    }
  }

  lemma PolicyDeleteSpares(config: Config, hub: Hub, name: Name, fate: Fate, cluster: Cluster)
    requires Ours(config, hub) && name != ""
    requires fate.Refused? || PolicyName(name) !in hub.policies || Lookup(cluster.labels, TOPOLOGY_LABEL) != name
    ensures SameDeliveries(hub, RemovePolicy(hub, name, fate), cluster)
  {
    if fate.Refused? || PolicyName(name) !in hub.policies {
      assert RemovePolicy(hub, name, fate).policies == hub.policies;
      SameDeliveriesIfSamePolicies(hub, RemovePolicy(hub, name, fate), cluster);
    } else {
      forall thing
        ensures Delivers(hub, cluster, thing) <==> Delivers(RemovePolicy(hub, name, fate), cluster, thing)
      {
        IsolationIsExact(config, hub, cluster, thing);
        IsolationIsExact(config, RemovePolicy(hub, name, fate), cluster, thing);
      }
    }
  }

  lemma PolicyDeleteDisturbs(config: Config, hub: Hub, name: Name, fate: Fate, cluster: Cluster)
    requires Ours(config, hub) && name != ""
    requires !fate.Refused? && PolicyName(name) in hub.policies && Lookup(cluster.labels, TOPOLOGY_LABEL) == name
    ensures !SameDeliveries(hub, RemovePolicy(hub, name, fate), cluster)
  {
    var copy := HubObject(LOCATIONS_API_VERSION, "ServingLocation", name, map[]);
    IsolationIsExact(config, hub, cluster, copy);
    IsolationIsExact(config, RemovePolicy(hub, name, fate), cluster, copy);
    assert Delivers(hub, cluster, copy) && !Delivers(RemovePolicy(hub, name, fate), cluster, copy);
  }

  // Deleting a copy takes it from the clusters carrying its label, and changes
  // nothing else that is delivered.
  lemma CopyDeleteDisturbsOnlyItsLabel(config: Config, hub: Hub, name: Name, fate: Fate, cluster: Cluster)
    requires Ours(config, hub) && Lookup(cluster.labels, TOPOLOGY_LABEL) != name
    ensures SameDeliveries(hub, RemoveCopy(hub, name, fate), cluster)
    ensures !ScopesCopies(config) ==>
              DeliveredCopies(hub, cluster) == DeliveredCopies(RemoveCopy(hub, name, fate), cluster)
  {
    SameDeliveriesIfSamePolicies(hub, RemoveCopy(hub, name, fate), cluster);
    hide Written, Ours, Delivers, SameDeliveries;
    if !ScopesCopies(config) {
      DeliveredIsTheLabel(config, hub, cluster);
      DeliveredIsTheLabel(config, RemoveCopy(hub, name, fate), cluster);
    }
  }

  lemma SameDeliveriesIfSamePolicies(a: Hub, b: Hub, cluster: Cluster)
    requires a.policies == b.policies
    ensures SameDeliveries(a, b, cluster)
  {
    hide Carries, Places;
    forall policy, thing ensures DeliversBy(a, policy, cluster, thing) <==> DeliversBy(b, policy, cluster, thing) {
    }
  }

  // ---- Runs ----

  lemma DeletePolicyIsEnteredByDelete(config: Config, w: World, action: Action, name: Name)
    requires Enabled(w, action) && name in Next(config, w, action).active
    requires Next(config, w, action).active[name].DeletePolicy?
    ensures name in w.active
    ensures w.active[name].DeletePolicy? || (action.Call? && action.name == name && w.active[name].DeleteCopy?)
  {
    hide Publishable, PublishedAt, AppliedCopy, AppliedPolicy, GuardDecision, BlockedMessage, Woken, Sees;
  }

  // The delete of the copy that the delete of a policy follows.
  lemma {:induction false} PolicyDeleteFollows(config: Config, t: Trace, k: nat, name: Name) returns (d: nat)
    requires Runs(config, t) && k < |t.worlds| && name in t.worlds[k].active && t.worlds[k].active[name].DeletePolicy?
    ensures d < k && Continuous(t, d, k, name) && t.worlds[d].active[name].DeleteCopy?
  {
    hide Next, Enabled;
    assert k > 0;
    ActionAt(config, t, k - 1);
    DeletePolicyIsEnteredByDelete(config, t.worlds[k - 1], t.actions[k - 1], name);
    if t.worlds[k - 1].active[name].DeletePolicy? {
      d := PolicyDeleteFollows(config, t, k - 1, name);
    } else {
      d := k - 1;
    }
  }

  lemma DeletesMeanTheirCalls(config: Config, w: World, action: Action, name: Name)
    requires Enabled(w, action) && action.Call? && action.name == name
    requires w.active[name].DeleteCopy? || w.active[name].DeletePolicy?
    ensures Next(config, w, action).hub
            == if w.active[name].DeleteCopy? then RemoveCopy(w.hub, name, action.fate)
               else RemovePolicy(w.hub, name, action.fate)
  {
    hide Woken, Sees;
  }

  ghost predicate Disturbs(config: Config, before: Hub, after: Hub, cluster: Cluster) {
    || !SameDeliveries(before, after, cluster)
    || (!ScopesCopies(config) && DeliveredCopies(before, cluster) != DeliveredCopies(after, cluster))
  }

  lemma DeletesDisturbOnlyTheirLabel(config: Config, w: World, action: Action, name: Name, cluster: Cluster)
    requires Enabled(w, action) && action.Call? && action.name == name && name != "" && Ours(config, w.hub)
    requires w.active[name].DeleteCopy? || w.active[name].DeletePolicy?
    ensures Disturbs(config, w.hub, Next(config, w, action).hub, cluster) ==>
              Lookup(cluster.labels, TOPOLOGY_LABEL) == name
  {
    DeletesMeanTheirCalls(config, w, action, name);
    hide Next, Enabled, Ours, SameDeliveries, DeliveredCopies, ScopesCopies, Written;
    if Lookup(cluster.labels, TOPOLOGY_LABEL) != name {
      if w.active[name].DeleteCopy? {
        CopyDeleteDisturbsOnlyItsLabel(config, w.hub, name, action.fate, cluster);
      } else {
        var after := RemovePolicy(w.hub, name, action.fate);
        PolicyDeleteDisturbsExactly(config, w.hub, name, action.fate, cluster);
        if !ScopesCopies(config) {
          DeliveredIsTheLabel(config, w.hub, cluster);
          DeliveredIsTheLabel(config, after, cluster);
        }
      }
    }
  }

  // On every run: of the Ready clusters, the deletes of a removal without the
  // override disturb only those that now claim the location, and did not, or
  // were not Ready, or were not there, when the guard of the same reconcile
  // listed the clusters.
  lemma RemovalDisturbsOnlyLateComers(config: Config, t: Trace, k: nat, name: Name, cluster: Cluster)
    returns (retained: ServingLocation, e: Evidence)
    requires Runs(config, t) && k < |t.actions| && t.actions[k].Call? && t.actions[k].name == name && name != ""
    requires name in t.worlds[k].active
    requires t.worlds[k].active[name].DeleteCopy? || t.worlds[k].active[name].DeletePolicy?
    requires Ours(config, t.worlds[k].hub) && ClusterReady(cluster)
    ensures Continuous(t, e.absent, k, name)
    ensures || Get(retained.annotations, OVERRIDE_ANNOTATION) == Some("true")
            || (e.absent < e.judged < k && FleetHasMovedOn(t.worlds[e.judged].clusters, name))
    ensures Disturbs(config, t.worlds[k].hub, t.worlds[k + 1].hub, cluster) ==>
              && Lookup(cluster.labels, TOPOLOGY_LABEL) == name
              && (|| Get(retained.annotations, OVERRIDE_ANNOTATION) == Some("true")
                  || cluster !in t.worlds[e.judged].clusters)
  {
    hide Next, Enabled, Disturbs, Ours, GuardDecision, ClusterReady, FleetHasMovedOn;
    var d := k;
    if t.worlds[k].active[name].DeletePolicy? {
      d := PolicyDeleteFollows(config, t, k, name);
    }
    retained := t.worlds[d].active[name].retained;
    e := Attest(config, t, d, name);
    assert SawReason(t, name, e, d, retained);
    if !Overridden(retained) {
      JudgedFleetHasMovedOn(config, t, d, name, retained, e);
    }
    ActionAt(config, t, k);
    DeletesDisturbOnlyTheirLabel(config, t.worlds[k], t.actions[k], name, cluster);
  }

  lemma JudgedFleetHasMovedOn(
      config: Config, t: Trace, d: nat, name: Name, retained: ServingLocation, e: Evidence)
    requires Runs(config, t) && d < |t.worlds| && name != ""
    requires SawReason(t, name, e, d, retained) && !Overridden(retained)
    ensures FleetHasMovedOn(t.worlds[e.judged].clusters, name)
    ensures forall cluster :: cluster in t.worlds[e.judged].clusters && ClusterReady(cluster) ==>
              Lookup(cluster.labels, TOPOLOGY_LABEL) != name
  {
    hide Next, GuardDecision;
    ActionAt(config, t, e.judged);
    GuardCanonical(t.actions[e.judged].view.clusters, t.worlds[e.judged].clusters, name);
    GuardAllowsExactly(t.worlds[e.judged].clusters, name);
  }
}
