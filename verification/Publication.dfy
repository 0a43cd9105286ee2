// What one Location looks like on the hub: the copy, its propagation policy,
// who owns what, and when a copy may go.
module Publication {
  import opened Api
  import Text

  const MANAGED_BY_LABEL := "networking.datumapis.com/published-by"
  const MANAGED_BY_VALUE := "location-publisher"
  const OVERRIDE_ANNOTATION := "networking.datumapis.com/removal-override"
  const BLOCKED_ANNOTATION := "networking.datumapis.com/removal-blocked"
  // Five minutes, in nanoseconds.
  const REMOVAL_BLOCKED_REQUEUE := 300_000_000_000

  // ---- Ownership and names ----

  predicate Owned(copy: ServingLocation) {
    Lookup(copy.labels, MANAGED_BY_LABEL) == MANAGED_BY_VALUE
  }

  predicate Foreign(copy: Option<ServingLocation>) {
    copy.Some? && !Owned(copy.value)
  }

  predicate Blocked(copy: ServingLocation) {
    BLOCKED_ANNOTATION in copy.annotations
  }

  predicate Overridden(copy: ServingLocation) {
    Lookup(copy.annotations, OVERRIDE_ANNOTATION) == "true"
  }

  function PolicyName(name: Name): Name {
    "location-" + name
  }

  // enqueuePolicyOwner: the names a policy event wakes.
  function PolicyOwners(policy: Name): set<Name> {
    var name := Text.TrimPrefix(policy, "location-");
    if name == policy then {} else {name}
  }

  // A policy event wakes exactly the name whose policy it is: no name is lost
  // and no other name is woken, also for names that themselves begin with
  // "location-".
  lemma PolicyOwnersInvertsPolicyName(policy: Name, name: Name)
    ensures name in PolicyOwners(policy) <==> policy == PolicyName(name)
  {
  }

  lemma PolicyNameInjective(a: Name, b: Name)
    requires PolicyName(a) == PolicyName(b)
    ensures a == b
  {
    assert a == PolicyName(a)[|"location-"|..] == PolicyName(b)[|"location-"|..] == b;
  }

  // ---- The copy ----

  function CityCode(location: Location): string {
    Text.TrimSpace(Lookup(location.topology, CITY_CODE_KEY))
  }

  predicate Publishable(location: Location) {
    CityCode(location) != ""
  }

  predicate CityCodeTrimmed(location: Location) {
    CityCode(location) == Lookup(location.topology, CITY_CODE_KEY)
  }

  // Read off the code itself: publishable when some character of it is not
  // white space, trimmed when none at either end is.
  lemma CityCodeExactly(location: Location)
    ensures Publishable(location) <==> !Text.Blank(Lookup(location.topology, CITY_CODE_KEY))
    ensures CityCodeTrimmed(location) <==> Text.Tight(Lookup(location.topology, CITY_CODE_KEY))
  {
    Text.TrimmedExactly(Lookup(location.topology, CITY_CODE_KEY));
  }

  predicate NoEmptyValues(location: Location) {
    forall key :: key in location.topology ==> location.topology[key] != ""
  }

  predicate PublishedContentEqual(published: ServingLocation, location: Location) {
    && published.generation == location.generation
    && Lookup(published.topology, CITY_CODE_KEY) == CityCode(location)
    && |published.topology| == |location.topology|
    && forall key :: key in location.topology ==> Lookup(published.topology, key) == location.topology[key]
  }

  predicate SameContent(published: ServingLocation, location: Location) {
    published.generation == location.generation && published.topology == location.topology
  }

  // The copy a publish leaves: owned, of the Location's content, not blocked.
  predicate Bears(copy: ServingLocation, location: Location) {
    Owned(copy) && !Blocked(copy) && SameContent(copy, location)
  }

  // The timestamp a publish writes, given the copy it read.
  function PublishedAt(snapshot: Option<ServingLocation>, location: Location, now: nat): nat {
    if snapshot.Some? && PublishedContentEqual(snapshot.value, location)
    then snapshot.value.publishedAt else now
  }

  // Forced server-side apply of the copy: the publisher's label and the whole
  // spec are overwritten; other labels and all annotations stay.
  function AppliedCopy(current: Option<ServingLocation>, location: Location, publishedAt: nat): ServingLocation {
    var labels := if current.Some? then current.value.labels else map[];
    ServingLocation(
      labels[MANAGED_BY_LABEL := MANAGED_BY_VALUE],
      if current.Some? then current.value.annotations else map[],
      location.topology, location.generation, publishedAt)
  }

  // ---- The policy ----

  function ScopedSelectors(scoped: seq<ScopedResource>, name: Name): (r: seq<ResourceSelector>)
    ensures |r| == |scoped|
    ensures forall i :: 0 <= i < |scoped| ==>
      r[i] == ByLabels(scoped[i].apiVersion, scoped[i].kind, map[scoped[i].locationLabel := name])
  {
    if scoped == [] then []
    else
      var last := scoped[|scoped| - 1];
      ScopedSelectors(scoped[..|scoped| - 1], name)
      + [ByLabels(last.apiVersion, last.kind, map[last.locationLabel := name])]
  }

  function DesiredPolicySpec(config: Config, name: Name): PolicySpec {
    PolicySpec(
      "Overwrite",
      [ByName(LOCATIONS_API_VERSION, "ServingLocation", name)]
      + ScopedSelectors(config.scopedResources, name),
      map[TOPOLOGY_LABEL := name])
  }

  function AppliedPolicy(current: Option<Policy>, config: Config, name: Name): Policy {
    var labels := if current.Some? then current.value.labels else map[];
    Policy(labels[MANAGED_BY_LABEL := MANAGED_BY_VALUE], DesiredPolicySpec(config, name))
  }

  // ---- The removal guard ----

  predicate ReadyCondition(raw: RawCondition) {
    && raw.Fields?
    && "type" in raw.fields && raw.fields["type"] == "Ready"
    && "status" in raw.fields && raw.fields["status"] == "True"
  }

  predicate ClusterReady(cluster: Cluster) {
    && cluster.conditions.Some?
    && exists i :: 0 <= i < |cluster.conditions.value| && ReadyCondition(cluster.conditions.value[i])
  }

  // A cluster is Ready exactly when some entry of its conditions, wherever it
  // stands, is a map that says so.
  lemma ClusterReadyExactly(cluster: Cluster)
    ensures ClusterReady(cluster) <==>
              cluster.conditions.Some? && exists raw :: raw in cluster.conditions.value && SaysReady(raw)
  {
    if cluster.conditions.Some? {
      if raw :| raw in cluster.conditions.value && SaysReady(raw) {
        var i :| 0 <= i < |cluster.conditions.value| && cluster.conditions.value[i] == raw;
        assert ReadyCondition(cluster.conditions.value[i]);
      }
      if ClusterReady(cluster) {
        var i :| 0 <= i < |cluster.conditions.value| && ReadyCondition(cluster.conditions.value[i]);
        assert cluster.conditions.value[i] in cluster.conditions.value && SaysReady(cluster.conditions.value[i]);
      }
    }
  }

  predicate SaysReady(raw: RawCondition) {
    raw.Fields? && Get(raw.fields, "type") == Some("Ready") && Get(raw.fields, "status") == Some("True")
  }

  // A Ready cluster claiming the location.
  predicate Claims(cluster: Cluster, name: Name) {
    && ClusterReady(cluster)
    && TOPOLOGY_LABEL in cluster.labels && cluster.labels[TOPOLOGY_LABEL] == name
  }

  // A Ready cluster carrying no location label at all. A cluster already
  // counted as claiming is not counted here.
  predicate Unlabelled(cluster: Cluster, name: Name) {
    && ClusterReady(cluster)
    && !Claims(cluster, name)
    && Lookup(cluster.labels, TOPOLOGY_LABEL) == ""
  }

  function NamesWhere(clusters: seq<Cluster>, which: Cluster -> bool): seq<Name> {
    if clusters == [] then []
    else
      var last := clusters[|clusters| - 1];
      NamesWhere(clusters[..|clusters| - 1], which) + (if which(last) then [last.name] else [])
  }

  function ClaimingNames(clusters: seq<Cluster>, name: Name): seq<Name> {
    NamesWhere(clusters, c => Claims(c, name))
  }

  function UnlabelledNames(clusters: seq<Cluster>, name: Name): seq<Name> {
    NamesWhere(clusters, c => Unlabelled(c, name))
  }

  datatype RemovalDecision = RemovalDecision(allowed: bool, reason: string, message: string)

  function GuardDecision(clusters: seq<Cluster>, name: Name): RemovalDecision {
    var labelled := Text.SortStrings(ClaimingNames(clusters, name));
    var unlabelled := Text.SortStrings(UnlabelledNames(clusters, name));
    if |labelled| > 0 then
      RemovalDecision(false, "ClustersStillServing",
                      "clusters still labelled for this location: " + Text.Join(labelled, ", "))
    else if |unlabelled| > 0 then
      RemovalDecision(false, "FleetNotFullyLabelled",
                      "no cluster claims this location, but " + Text.Decimal(|unlabelled|)
                      + " Ready cluster(s) carry no location label at all: " + Text.Join(unlabelled, ", "))
    else RemovalDecision(true, "", "")
  }

  function BlockedMessage(decision: RemovalDecision): string {
    decision.reason + ": " + decision.message
  }

  // What the guard is for: every Ready cluster names a location, and not this one.
  predicate FleetHasMovedOn(clusters: seq<Cluster>, name: Name) {
    forall i :: 0 <= i < |clusters| && ClusterReady(clusters[i]) ==>
      Lookup(clusters[i].labels, TOPOLOGY_LABEL) != "" && Lookup(clusters[i].labels, TOPOLOGY_LABEL) != name
  }

  lemma {:induction false} NamesWhereEmpty(clusters: seq<Cluster>, which: Cluster -> bool)
    ensures NamesWhere(clusters, which) == [] <==> forall i :: 0 <= i < |clusters| ==> !which(clusters[i])
  {
    if clusters != [] {
      var rest := clusters[..|clusters| - 1];
      NamesWhereEmpty(rest, which);
      assert forall i :: 0 <= i < |rest| ==> clusters[i] == rest[i];
      if forall i :: 0 <= i < |rest| ==> !which(rest[i]) {
        assert forall i :: 0 <= i < |clusters| ==> i < |rest| || clusters[i] == clusters[|clusters| - 1];
      }
    }
  }

  // The guard allows a removal exactly when the fleet has moved on, for every
  // listing of clusters and every non-empty name.
  lemma GuardAllowsExactly(clusters: seq<Cluster>, name: Name)
    requires name != ""
    ensures GuardDecision(clusters, name).allowed <==> FleetHasMovedOn(clusters, name)
  {
    NamesWhereEmpty(clusters, c => Claims(c, name));
    NamesWhereEmpty(clusters, c => Unlabelled(c, name));
    Text.SortStringsSorts(ClaimingNames(clusters, name));
    Text.SortStringsSorts(UnlabelledNames(clusters, name));
  }

  // A refusal gives the first reason that applies, and gives one only then.
  lemma GuardReasonExactly(clusters: seq<Cluster>, name: Name)
    ensures var claimed := exists i :: 0 <= i < |clusters| && Claims(clusters[i], name);
            var unlabelled := exists i :: 0 <= i < |clusters| && Unlabelled(clusters[i], name);
            && (GuardDecision(clusters, name).reason == "ClustersStillServing" <==> claimed)
            && (GuardDecision(clusters, name).reason == "FleetNotFullyLabelled" <==> !claimed && unlabelled)
  {
    NamesWhereEmpty(clusters, c => Claims(c, name));
    NamesWhereEmpty(clusters, c => Unlabelled(c, name));
    Text.SortStringsSorts(ClaimingNames(clusters, name));
    Text.SortStringsSorts(UnlabelledNames(clusters, name));
    hide Claims, Unlabelled, NamesWhere, Text.Join, Text.Decimal, Text.SortStrings;
  }

  lemma {:induction false} NamesWhereHolds(clusters: seq<Cluster>, which: Cluster -> bool, n: Name)
    ensures n in NamesWhere(clusters, which) <==> exists c :: c in clusters && which(c) && c.name == n
  {
    if clusters != [] {
      var rest, last := clusters[..|clusters| - 1], clusters[|clusters| - 1];
      NamesWhereHolds(rest, which, n);
      assert clusters == rest + [last];
    }
  }

  // It lists, sorted, the Ready clusters with the location's label or, when
  // there are none, those without any.
  lemma RefusalNamesExactly(clusters: seq<Cluster>, name: Name) returns (named: seq<Name>)
    ensures Text.Sorted(named)
    ensures var decision := GuardDecision(clusters, name);
            && (decision.reason == "ClustersStillServing" ==>
                  && BlockedMessage(decision)
                     == "ClustersStillServing" + ": "
                        + ("clusters still labelled for this location: " + Text.Join(named, ", "))
                  && forall n :: n in named <==>
                       exists c :: c in clusters && c.name == n && ClusterReady(c)
                                   && Get(c.labels, TOPOLOGY_LABEL) == Some(name))
            && (decision.reason == "FleetNotFullyLabelled" ==>
                  && BlockedMessage(decision)
                     == "FleetNotFullyLabelled" + ": "
                        + ("no cluster claims this location, but " + Text.Decimal(|named|)
                           + " Ready cluster(s) carry no location label at all: " + Text.Join(named, ", "))
                  && forall n :: n in named <==>
                       exists c :: c in clusters && c.name == n && ClusterReady(c)
                                   && Lookup(c.labels, TOPOLOGY_LABEL) == "")
  {
    hide NamesWhere, ClusterReady, Text.Join, Text.Decimal, Text.SortStrings;
    GuardReasonExactly(clusters, name);
    var which := if GuardDecision(clusters, name).reason == "ClustersStillServing"
                 then c => Claims(c, name) else c => Unlabelled(c, name);
    named := Text.SortStrings(NamesWhere(clusters, which));
    Text.SortStringsSorts(NamesWhere(clusters, which));
    forall n ensures n in named <==> exists c :: c in clusters && which(c) && c.name == n {
      NamesWhereHolds(clusters, which, n);
      assert n in named <==> n in multiset(named);
    }
    forall c | c in clusters ensures exists i :: 0 <= i < |clusters| && clusters[i] == c {
    }
  }

  lemma {:induction false} NamesWhereConcat(a: seq<Cluster>, b: seq<Cluster>, which: Cluster -> bool)
    ensures NamesWhere(a + b, which) == NamesWhere(a, which) + NamesWhere(b, which)
  {
    if b == [] {
      assert a + b == a;
    } else {
      var n := |b| - 1;
      NamesWhereConcat(a, b[..n], which);
      assert (a + b)[..|a + b| - 1] == a + b[..n];
    }
  }

  lemma NamesWhereTakesOut(clusters: seq<Cluster>, which: Cluster -> bool, k: nat)
    requires k < |clusters|
    ensures multiset(NamesWhere(clusters, which)) ==
            multiset(NamesWhere(clusters[..k] + clusters[k + 1..], which))
            + multiset(NamesWhere([clusters[k]], which))
  {
    hide NamesWhere;
    var before, it, after := clusters[..k], [clusters[k]], clusters[k + 1..];
    assert clusters == before + it + after;
    NamesWhereConcat(before + it, after, which);
    NamesWhereConcat(before, it, which);
    NamesWhereConcat(before, after, which);
  }

  lemma TakeOutOf(s: seq<Cluster>, k: nat)
    requires k < |s|
    ensures multiset(s[..k] + s[k + 1..]) == multiset(s) - multiset{s[k]}
  {
    assert s == s[..k] + [s[k]] + s[k + 1..];
  }

  lemma {:induction false} NamesWherePermutes(a: seq<Cluster>, b: seq<Cluster>, which: Cluster -> bool)
    requires multiset(a) == multiset(b)
    ensures multiset(NamesWhere(a, which)) == multiset(NamesWhere(b, which))
    decreases |a|
  {
    hide NamesWhere;
    assert |a| == |multiset(a)| == |multiset(b)| == |b|;
    if a == [] {
      assert a == b;
    } else {
      assert a[0] in multiset(b);
      var k :| 0 <= k < |b| && b[k] == a[0];
      TakeOutOf(a, 0);
      TakeOutOf(b, k);
      NamesWherePermutes(a[..0] + a[1..], b[..k] + b[k + 1..], which);
      NamesWhereTakesOut(a, which, 0);
      NamesWhereTakesOut(b, which, k);
    }
  }

  // Whatever stands before and after the entry that says Ready, a cluster so
  // labelled keeps its location.
  lemma GuardHeedsReadyAnywhere(
      clusters: seq<Cluster>, i: nat, name: Name,
      before: seq<RawCondition>, fields: map<string, string>, after: seq<RawCondition>)
    requires i < |clusters| && Get(clusters[i].labels, TOPOLOGY_LABEL) == Some(name)
    requires clusters[i].conditions == Some(before + [Fields(fields)] + after) && SaysReady(Fields(fields))
    ensures !GuardDecision(clusters, name).allowed
    ensures GuardDecision(clusters, name).reason == "ClustersStillServing"
  {
    assert Fields(fields) in clusters[i].conditions.value;
    ClusterReadyExactly(clusters[i]);
    hide ClusterReady;
    assert Claims(clusters[i], name);
    GuardReasonExactly(clusters, name);
  }

  // A cluster with no such entry plays no part.
  lemma GuardIgnoresUnready(clusters: seq<Cluster>, i: nat, name: Name)
    requires i < |clusters|
    requires clusters[i].conditions.Some? ==> forall raw :: raw in clusters[i].conditions.value ==> !SaysReady(raw)
    ensures GuardDecision(clusters, name) == GuardDecision(clusters[..i] + clusters[i + 1..], name)
  {
    ClusterReadyExactly(clusters[i]);
    hide ClusterReady, NamesWhere, Text.SortStrings, Text.Join, Text.Decimal;
    assert !ClusterReady(clusters[i]);
    NamesWhereLeavesOut(clusters, i, c => Claims(c, name));
    NamesWhereLeavesOut(clusters, i, c => Unlabelled(c, name));
    assert ClaimingNames(clusters, name) == ClaimingNames(clusters[..i] + clusters[i + 1..], name);
    assert UnlabelledNames(clusters, name) == UnlabelledNames(clusters[..i] + clusters[i + 1..], name);
  }

  lemma NamesWhereLeavesOut(clusters: seq<Cluster>, i: nat, which: Cluster -> bool)
    requires i < |clusters| && !which(clusters[i])
    ensures NamesWhere(clusters, which) == NamesWhere(clusters[..i] + clusters[i + 1..], which)
  {
    var before, it, after := clusters[..i], [clusters[i]], clusters[i + 1..];
    assert clusters == before + it + after;
    NamesWhereEmpty(it, which);
    hide NamesWhere;
    NamesWhereConcat(before + it, after, which);
    NamesWhereConcat(before, it, which);
    NamesWhereConcat(before, after, which);
  }

  // The guard's decision, reason and message are the same for every order the
  // API may list the clusters in.
  lemma GuardCanonical(a: seq<Cluster>, b: seq<Cluster>, name: Name)
    requires multiset(a) == multiset(b)
    ensures GuardDecision(a, name) == GuardDecision(b, name)
  {
    NamesWherePermutes(a, b, c => Claims(c, name));
    NamesWherePermutes(a, b, c => Unlabelled(c, name));
    Text.SortCanonical(ClaimingNames(a, name), ClaimingNames(b, name));
    Text.SortCanonical(UnlabelledNames(a, name), UnlabelledNames(b, name));
  }

  // ---- Requeueing ----

  function BlockedRequeue(config: Config): (after: int)
    ensures 0 < after <= REMOVAL_BLOCKED_REQUEUE && (config.resync > 0 ==> after <= config.resync)
    ensures after == config.resync || after == REMOVAL_BLOCKED_REQUEUE
  {
    if 0 < config.resync < REMOVAL_BLOCKED_REQUEUE then config.resync else REMOVAL_BLOCKED_REQUEUE
  }
}
