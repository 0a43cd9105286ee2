// What the publisher promises about a name that has gone quiet.
module Convergence {
  import opened Api
  import opened Publication
  import opened Reconciling
  import opened Protocol

  predicate Placed(config: Config, hub: Hub, name: Name) {
    var policy := Get(hub.policies, PolicyName(name));
    policy.Some? && policy.value.spec == DesiredPolicySpec(config, name)
    && Lookup(policy.value.labels, MANAGED_BY_LABEL) == MANAGED_BY_VALUE
  }

  // A publishable Location has its copy and policy as desired, unless the hub
  // object of that name is somebody else's; an absent Location has no owned
  // copy, unless its removal is being retried on a timer.
  predicate Converged(config: Config, location: Option<Location>, hub: Hub, name: Name, onTimer: bool) {
    var copy := Get(hub.copies, name);
    if location.Some? then
      Publishable(location.value) ==>
        Foreign(copy) || (copy.Some? && Bears(copy.value, location.value) && Placed(config, hub, name))
    else copy.None? || Foreign(copy) || onTimer
  }

  // What a reconcile knows while nothing has happened to its name since it
  // began: its snapshots are current, and its writes so far changed nothing.
  predicate Progress(
      config: Config, location: Option<Location>, hub: Hub, name: Name, onTimer: bool, phase: Phase)
  {
    var copy := Get(hub.copies, name);
    match phase
    case Start => true
    case ReadForPublish(l) => location == Some(l) && Publishable(l)
    case ApplyCopy(l, snapshot) => location == Some(l) && Publishable(l) && snapshot == copy && !Foreign(copy)
    case ApplyPolicy(l, snapshot) =>
      location == Some(l) && Publishable(l) && snapshot == copy
      && copy.Some? && Owned(copy.value) && SameContent(copy.value, l)
    case ClearBlock(l, edited) =>
      location == Some(l) && Publishable(l) && copy.Some? && Blocked(copy.value) && BLOCKED_ANNOTATION !in edited
    case DeletePolicy => location.None? && copy.None?
    case Returning(Failed) => true
    case Returning(Done(after)) => Converged(config, location, hub, name, onTimer || after > 0)
    case _ => location.None?
  }

  // A call that sees the truth and changes nothing keeps the reconcile's
  // knowledge true.
  lemma QuietCallProgresses(
      config: Config, location: Option<Location>, hub: Hub, name: Name, onTimer: bool,
      phase: Phase, view: View, fate: Fate)
    requires !phase.Returning? && Progress(config, location, hub, name, onTimer, phase)
    requires view.location == location && view.copy == Get(hub.copies, name)
    requires Advance(config, name, phase, hub, view, fate).1 == hub
    ensures Progress(config, location, hub, name, onTimer, Advance(config, name, phase, hub, view, fate).0)
  {
    hide GuardDecision, PublishedAt, Publishable, DesiredPolicySpec;
    if phase.ApplyCopy? && fate.Succeeds? {
      var applied := AppliedCopy(
        Get(hub.copies, name), phase.location, PublishedAt(phase.snapshot, phase.location, view.now));
      assert hub.copies[name := applied][name] == applied;
    } else if phase.ApplyPolicy? && fate.Succeeds? {
      var applied := AppliedPolicy(Get(hub.policies, PolicyName(name)), config, name);
      assert hub.policies[PolicyName(name) := applied][PolicyName(name)] == applied;
    }
  }

  predicate Converging(config: Config, w: World, name: Name) {
    w.queue.Quiet(name) ==>
      var onTimer := name in w.queue.timers;
      if name in w.active
      then Progress(config, Get(w.source, name), w.hub, name, onTimer, w.active[name])
      else Converged(config, Get(w.source, name), w.hub, name, onTimer)
  }

  lemma CallKeeps(config: Config, w: World, action: Action, name: Name)
    requires Enabled(w, action) && action.Call? && Converging(config, w, name)
    ensures Converging(config, Next(config, w, action), name)
  {
    hide Publishable, GuardDecision, Advance, Woken;
    var hub := Next(config, w, action).hub;
    AdvanceIsLocal(config, action.name, w.active[action.name], w.hub, action.view, action.fate);
    LocalWritesWake(w.hub, hub, action.name);
    if action.name != name {
      ElsewhereKeepsOthers(w.hub, hub, action.name, name);
    } else if hub == w.hub && w.queue.Quiet(name) {
      QuietCallProgresses(config, Get(w.source, name), w.hub, name, name in w.queue.timers,
                          w.active[name], action.view, action.fate);
    }
  }

  lemma NextKeeps(config: Config, w: World, action: Action, name: Name)
    requires Enabled(w, action) && Converging(config, w, name)
    ensures Converging(config, Next(config, w, action), name)
  {
    hide Advance, Publishable, GuardDecision;
    if action.Call? {
      CallKeeps(config, w, action, name);
    } else if action.EditPolicy? {
      PolicyOwnersInvertsPolicyName(action.policy, name);
    }
  }

  lemma {:induction false} RunKeeps(config: Config, t: Trace, k: nat, name: Name)
    requires Runs(config, t) && k < |t.worlds|
    ensures Converging(config, t.worlds[k], name)
  {
    if k > 0 {
      RunKeeps(config, t, k - 1, name);
      ActionAt(config, t, k - 1);
      hide Next, Enabled, Converging;
      NextKeeps(config, t.worlds[k - 1], t.actions[k - 1], name);
    }
  }

  // Quiescence implies convergence: on every run, with every interleaving,
  // fault, lagging watch, hub edit and change of leader, a name that is not in
  // flight, not queued and not being reconciled is as it should be.
  lemma QuiescenceMeansConvergence(config: Config, t: Trace, k: nat, name: Name)
    requires Runs(config, t) && k < |t.worlds|
    requires t.worlds[k].queue.Quiet(name) && name !in t.worlds[k].active
    ensures Converged(config, Get(t.worlds[k].source, name), t.worlds[k].hub, name, name in t.worlds[k].queue.timers)
  {
    RunKeeps(config, t, k, name);
  }
}
