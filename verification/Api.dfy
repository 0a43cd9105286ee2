// The objects the operator reads and writes, as values: what a GET returns.
module Api {

  // The name of a Location, a LocationClass, a cluster or a policy.
  type Name = string

  datatype Option<+T> = None | Some(value: T)

  // Looking up a string key in a Go map: a missing key reads as "".
  function Lookup(m: map<string, string>, key: string): string {
    if key in m then m[key] else ""
  }

  function Get<K, V>(m: map<K, V>, key: K): Option<V> {
    if key in m then Some(m[key]) else None
  }

  function Put<K, V>(m: map<K, V>, key: K, value: Option<V>): map<K, V> {
    match value
    case Some(v) => m[key := v]
    case None => m - {key}
  }

  const CITY_CODE_KEY := "topology.datum.net/city-code"
  const TOPOLOGY_LABEL := "topology.datum.net/location"
  const LOCATIONS_API_VERSION := "locations.miloapis.com/v1alpha1"

  // metav1.Condition; `transitioned` is lastTransitionTime.
  datatype Condition = Condition(
    kind: string, status: bool, reason: string, message: string,
    observedGeneration: int, transitioned: nat)

  datatype ClassReference = ClassReference(name: string, project: string)

  datatype Location = Location(
    generation: int,
    topology: map<string, string>,
    classRef: ClassReference,
    terminating: bool,
    conditions: seq<Condition>)

  datatype LocationClass = LocationClass(
    controllerName: string,
    hasParameters: bool,
    generation: int,
    finalizers: seq<string>,
    annotations: map<string, string>,
    terminating: bool,
    conditions: seq<Condition>)

  datatype ServingLocation = ServingLocation(
    labels: map<string, string>,
    annotations: map<string, string>,
    topology: map<string, string>,
    generation: int,
    publishedAt: nat)

  // One entry of a Karmada cluster's status.conditions: the publisher reads
  // them untyped, so an entry may not be a map at all.
  datatype RawCondition = NotAMap | Fields(fields: map<string, string>)

  // `conditions` is None when status.conditions is missing or not a list.
  datatype Cluster = Cluster(
    name: Name,
    labels: map<string, string>,
    conditions: Option<seq<RawCondition>>)

  datatype ResourceSelector =
    | ByName(apiVersion: string, kind: string, name: Name)
    | ByLabels(apiVersion: string, kind: string, matchLabels: map<string, string>)

  datatype PolicySpec = PolicySpec(
    conflictResolution: string,
    resourceSelectors: seq<ResourceSelector>,
    placement: map<string, string>)

  datatype Policy = Policy(labels: map<string, string>, spec: PolicySpec)

  // config.LocationScopedResource
  datatype ScopedResource = ScopedResource(apiVersion: string, kind: string, locationLabel: string)

  // The part of config.LocationPublisherConfig the reconciler reads.
  // `resync` is SafetyResyncPeriod in nanoseconds.
  datatype Config = Config(scopedResources: seq<ScopedResource>, resync: int)

  // What the publisher may write: the hub.
  datatype Hub = Hub(copies: map<Name, ServingLocation>, policies: map<Name, Policy>)

  // How an API call ends: it takes effect, it is refused, or it takes effect
  // and the reply is lost, which the caller sees as an error.
  datatype Fate = Succeeds | Refused | ReplyLost

  // What a reconcile returns to controller-runtime.
  datatype Outcome = Failed | Done(requeueAfter: int)
}
