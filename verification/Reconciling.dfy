// One reconcile of the publisher as a sequence of API calls. `Advance` makes
// one call; everything another actor does in between is seen only through the
// `View` the call is given. `Run` makes all the calls with nobody in between.
module Reconciling {
  import opened Api
  import opened Publication

  // Where a reconcile stands: the call it makes next, and what it remembers
  // from the calls before.
  datatype Phase =
    | Start
    // publish
    | ReadForPublish(location: Location)
    | ApplyCopy(location: Location, snapshot: Option<ServingLocation>)
    | ApplyPolicy(location: Location, snapshot: Option<ServingLocation>)
    | ClearBlock(location: Location, edited: map<string, string>)
    // remove
    | ReadForRemoval
    | AwaitCaches(retained: ServingLocation)
    | ListSource(retained: ServingLocation)
    | ListHeld(retained: ServingLocation)
    | CheckFleet(retained: ServingLocation)
    | RecordBlock(edited: map<string, string>)
    | DeleteCopy(retained: ServingLocation)
    | DeletePolicy
    // both
    | Returning(outcome: Outcome)
  {
    function CallsLeft(): nat {
      match this
      case Start => 9
      case ReadForPublish(_) => 8
      case ReadForRemoval => 8
      case AwaitCaches(_) => 7
      case ListSource(_) => 6
      case ListHeld(_) => 5
      case CheckFleet(_) => 4
      case ApplyCopy(_, _) => 3
      case DeleteCopy(_) => 3
      case ApplyPolicy(_, _) => 2
      case DeletePolicy => 2
      case RecordBlock(_) => 2
      case ClearBlock(_, _) => 1
      case Returning(_) => 0
    }
  }

  // What the next call sees, should it be a read.
  datatype View = View(
    location: Option<Location>,
    copy: Option<ServingLocation>,
    sourceCount: nat,
    heldCount: nat,
    clusters: seq<Cluster>,
    now: nat,
    cachesSynced: bool)

  // A write that ended with `fate` has landed unless it was refused; only a
  // success lets the reconcile go on.
  function AfterWrite(fate: Fate, next: Phase): Phase {
    if fate.Succeeds? then next else Returning(Failed)
  }

  function SetCopy(hub: Hub, name: Name, copy: ServingLocation, fate: Fate): Hub {
    if fate.Refused? then hub else hub.(copies := hub.copies[name := copy])
  }

  function SetPolicy(hub: Hub, name: Name, policy: Policy, fate: Fate): Hub {
    if fate.Refused? then hub else hub.(policies := hub.policies[PolicyName(name) := policy])
  }

  function RemoveCopy(hub: Hub, name: Name, fate: Fate): Hub {
    if fate.Refused? then hub else hub.(copies := hub.copies - {name})
  }

  function RemovePolicy(hub: Hub, name: Name, fate: Fate): Hub {
    if fate.Refused? then hub else hub.(policies := hub.policies - {PolicyName(name)})
  }

  // Patching an object that is gone fails.
  predicate PatchFails(hub: Hub, name: Name, fate: Fate) {
    name !in hub.copies || !fate.Succeeds?
  }

  // The annotations after client.MergeFrom has sent the difference between a
  // copy as read and as edited: only the block annotation is touched. But a map
  // edited down to nothing is left out of the JSON, which the patch says with a
  // null for the whole map.
  function PatchedAnnotations(current: map<string, string>, edited: map<string, string>): map<string, string> {
    if edited == map[] then map[] else Put(current, BLOCKED_ANNOTATION, Get(edited, BLOCKED_ANNOTATION))
  }

  function PatchAnnotations(hub: Hub, name: Name, edited: map<string, string>, fate: Fate): Hub {
    if name !in hub.copies then hub
    else
      var copy := hub.copies[name];
      SetCopy(hub, name, copy.(annotations := PatchedAnnotations(copy.annotations, edited)), fate)
  }

  function Lifted(annotations: map<string, string>): map<string, string> {
    annotations - {BLOCKED_ANNOTATION}
  }

  // Lifting a block that was read among `read` keeps the other annotations of
  // the copy exactly when others were read too, or there are none to lose.
  lemma LiftKeepsOthersExactly(current: map<string, string>, read: map<string, string>)
    ensures var after := PatchedAnnotations(current, Lifted(read));
            && BLOCKED_ANNOTATION !in after
            && (Lifted(after) == Lifted(current) <==> Lifted(read) != map[] || Lifted(current) == map[])
  {
    var after := PatchedAnnotations(current, Lifted(read));
    if Lifted(read) != map[] {
      assert Lifted(after) == Lifted(current);
    }
  }

  // An override set between the read and the patch goes with the block.
  lemma OverrideIsLost(read: map<string, string>, current: map<string, string>)
    requires read == map[BLOCKED_ANNOTATION := "blocked"] && current == read[OVERRIDE_ANNOTATION := "true"]
    ensures PatchedAnnotations(current, Lifted(read)) == map[]
  {
    assert Lifted(read) == map[];
  }

  function AfterPatch(hub: Hub, name: Name, fate: Fate, next: Phase): Phase {
    if PatchFails(hub, name, fate) then Returning(Failed) else next
  }

  function Blocking(config: Config): Phase {
    Returning(Done(BlockedRequeue(config)))
  }

  function Published(config: Config): Phase {
    Returning(Done(config.resync))
  }

  function AfterPruneAllowed(retained: ServingLocation): Phase {
    if Overridden(retained) then DeleteCopy(retained) else CheckFleet(retained)
  }

  function Advance(config: Config, name: Name, phase: Phase, hub: Hub, view: View, fate: Fate): (Phase, Hub)
    requires !phase.Returning?
  {
    match phase
    case Start =>
      (if !fate.Succeeds? then Returning(Failed)
       else if view.location.None? then ReadForRemoval
       else if !Publishable(view.location.value) then Returning(Done(0))
       else ReadForPublish(view.location.value), hub)
    case ReadForPublish(location) =>
      (if !fate.Succeeds? then Returning(Failed)
       else if Foreign(view.copy) then Returning(Done(0))
       else ApplyCopy(location, view.copy), hub)
    case ApplyCopy(location, snapshot) =>
      var publishedAt := PublishedAt(snapshot, location, view.now);
      (AfterWrite(fate, ApplyPolicy(location, snapshot)),
       SetCopy(hub, name, AppliedCopy(Get(hub.copies, name), location, publishedAt), fate))
    case ApplyPolicy(location, snapshot) =>
      var blocked := snapshot.Some? && Blocked(snapshot.value);
      (AfterWrite(fate, if blocked then ClearBlock(location, Lifted(snapshot.value.annotations))
                        else Published(config)),
       SetPolicy(hub, name, AppliedPolicy(Get(hub.policies, PolicyName(name)), config, name), fate))
    case ClearBlock(location, edited) =>
      (AfterPatch(hub, name, fate, Published(config)), PatchAnnotations(hub, name, edited, fate))
    case ReadForRemoval =>
      (if !fate.Succeeds? then Returning(Failed)
       else if view.copy.None? || Foreign(view.copy) then Returning(Done(0))
       else AwaitCaches(view.copy.value), hub)
    case AwaitCaches(retained) =>
      (if view.cachesSynced then ListSource(retained) else Blocking(config), hub)
    case ListSource(retained) =>
      (if !fate.Succeeds? then Blocking(config)
       else if view.sourceCount > 0 then AfterPruneAllowed(retained)
       else ListHeld(retained), hub)
    case ListHeld(retained) =>
      (if !fate.Succeeds? || view.heldCount > 0 then Blocking(config)
       else AfterPruneAllowed(retained), hub)
    case CheckFleet(retained) =>
      var decision := GuardDecision(view.clusters, name);
      (if !fate.Succeeds? then Returning(Failed)
       else if decision.allowed then DeleteCopy(retained)
       else if Lookup(retained.annotations, BLOCKED_ANNOTATION) == BlockedMessage(decision) then Blocking(config)
       else RecordBlock(retained.annotations[BLOCKED_ANNOTATION := BlockedMessage(decision)]), hub)
    case RecordBlock(edited) =>
      (AfterPatch(hub, name, fate, Blocking(config)), PatchAnnotations(hub, name, edited, fate))
    case DeleteCopy(retained) =>
      (AfterWrite(fate, DeletePolicy), RemoveCopy(hub, name, fate))
    case DeletePolicy =>
      (AfterWrite(fate, Returning(Done(0))), RemovePolicy(hub, name, fate))
  }

  // ---- A whole reconcile, undisturbed ----

  datatype Call =
    | GetLocation | GetCopy | PatchCopy | PatchPolicy | PatchUnblock | WaitForSync
    | ListLocations | ListCopies | ListClusters | PatchBlock | RemoveServing | RemovePlacement
    | CountLocations | CountCopies

  function CallOf(phase: Phase): Call
    requires !phase.Returning?
  {
    match phase
    case Start => GetLocation
    case ReadForPublish(_) => GetCopy
    case ApplyCopy(_, _) => PatchCopy
    case ApplyPolicy(_, _) => PatchPolicy
    case ClearBlock(_, _) => PatchUnblock
    case ReadForRemoval => GetCopy
    case AwaitCaches(_) => WaitForSync
    case ListSource(_) => ListLocations
    case ListHeld(_) => ListCopies
    case CheckFleet(_) => ListClusters
    case RecordBlock(_) => PatchBlock
    case DeleteCopy(_) => RemoveServing
    case DeletePolicy => RemovePlacement
  }

  // Everything a reconcile meets besides the hub: the source, the clusters in
  // the order the API lists them, the clock, the caches, and the fate of each
  // call (a call not in `fates` succeeds).
  datatype Circumstances = Circumstances(
    source: map<Name, Location>,
    clusters: seq<Cluster>,
    now: nat,
    cachesSynced: bool,
    fates: map<Call, Fate>)
  {
    function FateOf(call: Call): Fate {
      if call in fates then fates[call] else Succeeds
    }

    predicate FaultFree() {
      forall call :: call in fates ==> fates[call].Succeeds?
    }
  }

  function Held(hub: Hub): set<Name> {
    set name | name in hub.copies && Owned(hub.copies[name])
  }

  function ViewOf(name: Name, hub: Hub, around: Circumstances): View {
    View(Get(around.source, name), Get(hub.copies, name), |around.source|, |Held(hub)|,
         around.clusters, around.now, around.cachesSynced)
  }

  function Step(config: Config, name: Name, phase: Phase, hub: Hub, around: Circumstances): (Phase, Hub)
    requires !phase.Returning?
  {
    Advance(config, name, phase, hub, ViewOf(name, hub, around), around.FateOf(CallOf(phase)))
  }

  // Every call brings a reconcile closer to returning.
  lemma AdvanceProgresses(config: Config, name: Name, phase: Phase, hub: Hub, view: View, fate: Fate)
    requires !phase.Returning?
    ensures Advance(config, name, phase, hub, view, fate).0.CallsLeft() < phase.CallsLeft()
  {
    hide Publishable, PublishedAt, AppliedCopy, AppliedPolicy, GuardDecision, BlockedMessage, Owned, Overridden;
  }

  function Run(config: Config, name: Name, phase: Phase, hub: Hub, around: Circumstances): (Outcome, Hub)
    decreases phase.CallsLeft()
  {
    if phase.Returning? then (phase.outcome, hub)
    else
      var step := Step(config, name, phase, hub, around);
      AdvanceProgresses(config, name, phase, hub, ViewOf(name, hub, around), around.FateOf(CallOf(phase)));
      Run(config, name, step.0, step.1, around)
  }

  function Reconcile(config: Config, name: Name, hub: Hub, around: Circumstances): (Outcome, Hub) {
    Run(config, name, Start, hub, around)
  }

  // A run goes on from wherever its next call leads.
  lemma RunGoesOn(
      config: Config, name: Name, phase: Phase, hub: Hub, around: Circumstances, next: Phase, hub': Hub)
    requires !phase.Returning? && Step(config, name, phase, hub, around) == (next, hub')
    ensures Run(config, name, phase, hub, around) == Run(config, name, next, hub', around)
    ensures next.Returning? ==> Run(config, name, phase, hub, around) == (next.outcome, hub')
  {
    hide Advance;
  }

  // ---- Non-interference ----

  // Two hubs that hold the same objects for one name.
  predicate SameAt(a: Hub, b: Hub, name: Name) {
    && Get(a.copies, name) == Get(b.copies, name)
    && Get(a.policies, PolicyName(name)) == Get(b.policies, PolicyName(name))
  }

  // Two hubs that differ at most in one name's copy and policy.
  predicate SameElsewhere(a: Hub, b: Hub, name: Name) {
    && a.copies - {name} == b.copies - {name}
    && a.policies - {PolicyName(name)} == b.policies - {PolicyName(name)}
  }

  lemma AdvanceIsLocal(config: Config, name: Name, phase: Phase, hub: Hub, view: View, fate: Fate)
    requires !phase.Returning?
    ensures SameElsewhere(hub, Advance(config, name, phase, hub, view, fate).1, name)
  {
    hide Publishable, PublishedAt, AppliedCopy, AppliedPolicy, GuardDecision, BlockedMessage, Owned, Overridden;
  }

  // A reconcile writes no other name's copy and no other name's policy.
  lemma {:induction false} RunIsLocal(config: Config, name: Name, phase: Phase, hub: Hub, around: Circumstances)
    ensures SameElsewhere(hub, Run(config, name, phase, hub, around).1, name)
    decreases phase.CallsLeft()
  {
    if !phase.Returning? {
      hide Advance;
      var (next, hub') := Step(config, name, phase, hub, around);
      AdvanceIsLocal(config, name, phase, hub, ViewOf(name, hub, around), around.FateOf(CallOf(phase)));
      AdvanceProgresses(config, name, phase, hub, ViewOf(name, hub, around), around.FateOf(CallOf(phase)));
      RunIsLocal(config, name, next, hub', around);
    }
  }

  // While nobody interferes, a removal that has read an owned copy still has
  // it in front of it, so the copy itself is among those held.
  predicate Retains(name: Name, phase: Phase, hub: Hub) {
    (phase.AwaitCaches? || phase.ListSource? || phase.ListHeld? || phase.CheckFleet? || phase.DeleteCopy?) ==>
      Get(hub.copies, name) == Some(phase.retained) && Owned(phase.retained)
  }

  lemma RetainedIsHeld(name: Name, phase: Phase, hub: Hub)
    requires Retains(name, phase, hub) && phase.ListHeld?
    ensures |Held(hub)| > 0
  {
    assert name in Held(hub);
  }

  lemma StepRetains(config: Config, name: Name, phase: Phase, hub: Hub, around: Circumstances)
    requires !phase.Returning? && Retains(name, phase, hub)
    ensures var (next, hub') := Step(config, name, phase, hub, around); Retains(name, next, hub')
  {
    hide Publishable, PublishedAt, AppliedCopy, AppliedPolicy, GuardDecision, BlockedMessage, Overridden;
  }

  // On one snapshot the zero-held branch of pruneAllowed cannot be taken: a
  // removal that finds the source empty always refuses to prune.
  lemma EmptySourceNeverPrunes(config: Config, name: Name, phase: Phase, hub: Hub, around: Circumstances)
    requires phase.ListHeld? && Retains(name, phase, hub)
    ensures Step(config, name, phase, hub, around) == (Blocking(config), hub)
  {
    RetainedIsHeld(name, phase, hub);
  }

  lemma StepIgnoresOthers(config: Config, name: Name, phase: Phase, a: Hub, b: Hub, around: Circumstances)
    requires !phase.Returning? && SameAt(a, b, name) && Retains(name, phase, a)
    ensures Step(config, name, phase, a, around).0 == Step(config, name, phase, b, around).0
    ensures SameAt(Step(config, name, phase, a, around).1, Step(config, name, phase, b, around).1, name)
  {
    hide Publishable, PublishedAt, AppliedCopy, AppliedPolicy, GuardDecision, BlockedMessage, Overridden;
    if phase.ListHeld? {
      RetainedIsHeld(name, phase, a);
      RetainedIsHeld(name, phase, b);
    }
  }

  // What a reconcile of `name` returns and does to `name` is decided by
  // `name`'s own objects: other copies and policies on the hub play no part.
  lemma {:induction false} RunIgnoresOthers(
      config: Config, name: Name, phase: Phase, a: Hub, b: Hub, around: Circumstances)
    requires SameAt(a, b, name) && Retains(name, phase, a)
    ensures Run(config, name, phase, a, around).0 == Run(config, name, phase, b, around).0
    ensures SameAt(Run(config, name, phase, a, around).1, Run(config, name, phase, b, around).1, name)
    decreases phase.CallsLeft()
  {
    if !phase.Returning? {
      StepIgnoresOthers(config, name, phase, a, b, around);
      StepRetains(config, name, phase, a, around);
      AdvanceProgresses(config, name, phase, a, ViewOf(name, a, around), around.FateOf(CallOf(phase)));
      hide Step, Advance;
      var next := Step(config, name, phase, a, around).0;
      var a', b' := Step(config, name, phase, a, around).1, Step(config, name, phase, b, around).1;
      RunIgnoresOthers(config, name, next, a', b', around);
    }
  }

  lemma ElsewhereKeepsOthers(a: Hub, b: Hub, name: Name, other: Name)
    requires SameElsewhere(a, b, name) && name != other
    ensures SameAt(a, b, other)
  {
    if PolicyName(name) == PolicyName(other) {
      PolicyNameInjective(name, other);
    }
    assert Get(a.copies, other) == Get(a.copies - {name}, other);
    assert Get(b.copies, other) == Get(b.copies - {name}, other);
    var p, q := PolicyName(name), PolicyName(other);
    assert Get(a.policies, q) == Get(a.policies - {p}, q);
    assert Get(b.policies, q) == Get(b.policies - {p}, q);
  }

  lemma EqualIfSameAt(before: Hub, after: Hub, name: Name)
    requires SameElsewhere(before, after, name) && SameAt(before, after, name)
    ensures before == after
  {
    MapFromParts(before.copies, after.copies, name, name);
    MapFromParts(before.policies, after.policies, PolicyName(name), PolicyName(name));
  }

  // ---- Watches ----

  function Changed<V(==)>(before: map<Name, V>, after: map<Name, V>): set<Name> {
    set key | key in before.Keys + after.Keys && Get(before, key) != Get(after, key)
  }

  // The names the hub watches wake when the hub changes: enqueueByName for
  // copies, enqueuePolicyOwner for policies.
  function Woken(before: Hub, after: Hub): set<Name> {
    Changed(before.copies, after.copies)
    + (set policy, name | policy in Changed(before.policies, after.policies) && name in PolicyOwners(policy) :: name)
  }

  lemma LocalWritesWake(before: Hub, after: Hub, name: Name)
    requires SameElsewhere(before, after, name)
    ensures Woken(before, after) == if after == before then {} else {name}
  {
    forall other | other != name ensures other !in Woken(before, after) {
      ElsewhereKeepsOthers(before, after, name, other);
      forall policy | other in PolicyOwners(policy)
        ensures policy !in Changed(before.policies, after.policies)
      {
        PolicyOwnersInvertsPolicyName(policy, other);
      }
    }
    if name !in Woken(before, after) {
      PolicyOwnersInvertsPolicyName(PolicyName(name), name);
      assert PolicyName(name) !in Changed(before.policies, after.policies);
      EqualIfSameAt(before, after, name);
    }
  }

  // Reconciles of two different names commute: in either order, under the same
  // source, clusters, clock and faults, they leave the same hub and return the
  // same results.
  lemma ReconcilesCommute(
      config: Config, n: Name, m: Name, hub: Hub, aroundN: Circumstances, aroundM: Circumstances)
    requires n != m
    ensures
      var (outcomeN, afterN) := Reconcile(config, n, hub, aroundN);
      var (outcomeM, afterM) := Reconcile(config, m, hub, aroundM);
      && Reconcile(config, m, afterN, aroundM).0 == outcomeM
      && Reconcile(config, n, afterM, aroundN).0 == outcomeN
      && Reconcile(config, m, afterN, aroundM).1 == Reconcile(config, n, afterM, aroundN).1
  {
    hide Run;
    var afterN, afterM := Reconcile(config, n, hub, aroundN).1, Reconcile(config, m, hub, aroundM).1;
    var nm, mn := Reconcile(config, m, afterN, aroundM).1, Reconcile(config, n, afterM, aroundN).1;
    RunIsLocal(config, n, Start, hub, aroundN);
    RunIsLocal(config, m, Start, hub, aroundM);
    RunIsLocal(config, m, Start, afterN, aroundM);
    RunIsLocal(config, n, Start, afterM, aroundN);
    ElsewhereKeepsOthers(hub, afterN, n, m);
    ElsewhereKeepsOthers(hub, afterM, m, n);
    ElsewhereKeepsOthers(afterN, nm, m, n);
    ElsewhereKeepsOthers(afterM, mn, n, m);
    RunIgnoresOthers(config, m, Start, hub, afterN, aroundM);
    RunIgnoresOthers(config, n, Start, hub, afterM, aroundN);
    EqualFromParts(hub, afterN, nm, afterM, mn, n, m);
  }

  lemma EqualFromParts(hub: Hub, afterN: Hub, nm: Hub, afterM: Hub, mn: Hub, n: Name, m: Name)
    requires SameElsewhere(hub, afterN, n) && SameElsewhere(afterN, nm, m)
    requires SameElsewhere(hub, afterM, m) && SameElsewhere(afterM, mn, n)
    requires SameAt(nm, mn, n) && SameAt(nm, mn, m)
    ensures nm == mn
  {
    assert nm.copies - {n} - {m} == (nm.copies - {m}) - {n} == (afterN.copies - {m}) - {n};
    assert mn.copies - {n} - {m} == (afterM.copies - {n}) - {m};
    assert (afterN.copies - {m}) - {n} == (afterN.copies - {n}) - {m} == (hub.copies - {n}) - {m};
    assert (afterM.copies - {n}) - {m} == (afterM.copies - {m}) - {n} == (hub.copies - {m}) - {n};
    MapFromParts(nm.copies, mn.copies, n, m);
    var p, q := PolicyName(n), PolicyName(m);
    assert nm.policies - {p} - {q} == (nm.policies - {q}) - {p} == (afterN.policies - {q}) - {p};
    assert mn.policies - {p} - {q} == (afterM.policies - {p}) - {q};
    assert (afterN.policies - {q}) - {p} == (afterN.policies - {p}) - {q} == (hub.policies - {p}) - {q};
    assert (afterM.policies - {p}) - {q} == (afterM.policies - {q}) - {p} == (hub.policies - {q}) - {p};
    MapFromParts(nm.policies, mn.policies, p, q);
  }

  lemma MapFromParts<V>(a: map<Name, V>, b: map<Name, V>, n: Name, m: Name)
    requires a - {n} - {m} == b - {n} - {m}
    requires Get(a, n) == Get(b, n) && Get(a, m) == Get(b, m)
    ensures a == b
  {
    forall key ensures key in a <==> key in b {
      if key != n && key != m {
        assert key in a <==> key in a - {n} - {m};
        assert key in b <==> key in b - {n} - {m};
      }
    }
    forall key | key in a ensures a[key] == b[key] {
      if key != n && key != m {
        assert a[key] == (a - {n} - {m})[key] == (b - {n} - {m})[key] == b[key];
      }
    }
  }
}
