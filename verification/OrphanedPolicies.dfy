// A removal deletes the copy and then the policy, and begins by looking for the
// copy: what becomes of the policy when only the first delete lands.
module OrphanedPolicies {
  import opened Api
  import opened Publication
  import opened Reconciling
  import opened Protocol

  // ---- One undisturbed reconcile ----

  // A policy outlives the copy that an undisturbed reconcile took away exactly
  // when that reconcile stopped after deleting the copy.
  lemma PolicyOutlivesCopyExactly(config: Config, name: Name, hub: Hub, around: Circumstances)
    requires name !in around.source && name in hub.copies && PolicyName(name) in hub.policies
    requires name !in Reconcile(config, name, hub, around).1.copies
    ensures PolicyName(name) in Reconcile(config, name, hub, around).1.policies
            <==> around.FateOf(RemoveServing).ReplyLost? || around.FateOf(RemovePlacement).Refused?
  {
    RemovalDeletes(config, name, Start, hub, around);
  }

  predicate Reads(phase: Phase) {
    || phase.Start? || phase.ReadForRemoval? || phase.AwaitCaches?
    || phase.ListSource? || phase.ListHeld? || phase.CheckFleet?
  }

  lemma ReadLeadsToRead(config: Config, name: Name, phase: Phase, hub: Hub, around: Circumstances)
    requires name !in around.source && Reads(phase)
    ensures Step(config, name, phase, hub, around).1 == hub
    ensures var next := Step(config, name, phase, hub, around).0;
            Reads(next) || next.RecordBlock? || next.DeleteCopy? || next.Returning?
  {
    hide GuardDecision, BlockedMessage, Held;
  }

  lemma BlockKeepsCopy(config: Config, name: Name, edited: map<string, string>, hub: Hub, around: Circumstances)
    requires name in hub.copies
    ensures name in Run(config, name, RecordBlock(edited), hub, around).1.copies
  {
    hide Run;
    var (next, hub') := Step(config, name, RecordBlock(edited), hub, around);
    RunGoesOn(config, name, RecordBlock(edited), hub, around, next, hub');
  }

  lemma DeleteMayStop(config: Config, name: Name, retained: ServingLocation, hub: Hub, around: Circumstances)
    requires name in hub.copies && name !in Run(config, name, DeleteCopy(retained), hub, around).1.copies
    ensures Run(config, name, DeleteCopy(retained), hub, around).1.policies
            == if around.FateOf(RemoveServing).ReplyLost? || around.FateOf(RemovePlacement).Refused?
               then hub.policies else hub.policies - {PolicyName(name)}
  {
    hide Run, GuardDecision, Owned, Publishable, AppliedCopy, AppliedPolicy, PublishedAt, BlockedMessage, Held;
    var emptied := Hub(hub.copies - {name}, hub.policies);
    if around.FateOf(RemoveServing).Refused? {
      RunGoesOn(config, name, DeleteCopy(retained), hub, around, Returning(Failed), hub);
    } else if around.FateOf(RemoveServing).ReplyLost? {
      RunGoesOn(config, name, DeleteCopy(retained), hub, around, Returning(Failed), emptied);
    } else {
      RunGoesOn(config, name, DeleteCopy(retained), hub, around, DeletePolicy, emptied);
      PolicyDeleteMayFail(config, name, emptied, around);
    }
  }

  lemma PolicyDeleteMayFail(config: Config, name: Name, hub: Hub, around: Circumstances)
    ensures Run(config, name, DeletePolicy, hub, around).1.policies
            == if around.FateOf(RemovePlacement).Refused? then hub.policies else hub.policies - {PolicyName(name)}
  {
    hide Run, GuardDecision, Owned, Publishable, AppliedCopy, AppliedPolicy, PublishedAt, BlockedMessage, Held;
    var fate := around.FateOf(RemovePlacement);
    RunGoesOn(config, name, DeletePolicy, hub, around,
              AfterWrite(fate, Returning(Done(0))), RemovePolicy(hub, name, fate));
  }

  // An undisturbed run that takes the copy away ends in these two deletes.
  lemma {:induction false} RemovalDeletes(config: Config, name: Name, phase: Phase, hub: Hub, around: Circumstances)
    requires Reads(phase) || phase.RecordBlock? || phase.DeleteCopy? || phase.Returning?
    requires name !in around.source && name in hub.copies && name !in Run(config, name, phase, hub, around).1.copies
    ensures Run(config, name, phase, hub, around).1.policies
            == if around.FateOf(RemoveServing).ReplyLost? || around.FateOf(RemovePlacement).Refused?
               then hub.policies else hub.policies - {PolicyName(name)}
    decreases phase.CallsLeft()
  {
    hide Advance;
    if Reads(phase) {
      ReadLeadsToRead(config, name, phase, hub, around);
      AdvanceProgresses(config, name, phase, hub, ViewOf(name, hub, around), around.FateOf(CallOf(phase)));
      RemovalDeletes(config, name, Step(config, name, phase, hub, around).0, hub, around);
    } else if phase.RecordBlock? {
      BlockKeepsCopy(config, name, phase.edited, hub, around);
    } else if phase.DeleteCopy? {
      DeleteMayStop(config, name, phase.retained, hub, around);
    }
  }

  // From then on the policy stays: whatever fails or succeeds, no reconcile of
  // an absent Location without a copy writes anything.
  lemma OrphanStays(config: Config, name: Name, hub: Hub, around: Circumstances)
    requires name !in around.source && name !in hub.copies
    ensures Reconcile(config, name, hub, around).1 == hub
  {
    var view, fate := ViewOf(name, hub, around), around.FateOf(GetLocation);
    hide Run;
    if fate.Succeeds? {
      RunGoesOn(config, name, Start, hub, around, ReadForRemoval, hub);
      var next := if around.FateOf(GetCopy).Succeeds? then Returning(Done(0)) else Returning(Failed);
      RunGoesOn(config, name, ReadForRemoval, hub, around, next, hub);
    } else {
      RunGoesOn(config, name, Start, hub, around, Returning(Failed), hub);
    }
  }

  // ---- Runs ----

  // An unrefused call that deletes the name's policy.
  predicate DeletesPolicy(w: World, action: Action, name: Name) {
    && action.Call? && action.name == name && !action.fate.Refused?
    && name in w.active && w.active[name].DeletePolicy?
  }

  predicate EditsPolicy(action: Action, name: Name) {
    action.EditPolicy? && action.policy == PolicyName(name)
  }

  // While the copy is absent, a policy that is gone is not about to be applied.
  predicate GoneForGood(w: World, name: Name) {
    PolicyName(name) !in w.hub.policies ==> !(name in w.active && w.active[name].ApplyPolicy?)
  }

  lemma PolicyStep(config: Config, w: World, action: Action, name: Name)
    requires Enabled(w, action) && !EditsPolicy(action, name) && GoneForGood(w, name)
    requires name !in w.hub.copies && name !in Next(config, w, action).hub.copies
    ensures GoneForGood(Next(config, w, action), name)
    ensures PolicyName(name) in Next(config, w, action).hub.policies
            <==> PolicyName(name) in w.hub.policies && !DeletesPolicy(w, action, name)
  {
    hide Publishable, PublishedAt, AppliedCopy, AppliedPolicy, GuardDecision, BlockedMessage, Woken, Sees;
    if action.Call? && action.name != name {
      AdvanceIsLocal(config, action.name, w.active[action.name], w.hub, action.view, action.fate);
      hide Advance;
      ElsewhereKeepsOthers(w.hub, Next(config, w, action).hub, action.name, name);
    }
  }

  ghost predicate WithoutCopy(t: Trace, m: nat, k: nat, name: Name)
    requires |t.worlds| == |t.actions| + 1 && k <= |t.actions|
  {
    && (forall j :: m <= j <= k ==> name !in t.worlds[j].hub.copies)
    && (forall j :: m <= j < k ==> !EditsPolicy(t.actions[j], name))
  }

  ghost predicate NeverDeleted(t: Trace, m: nat, k: nat, name: Name)
    requires |t.worlds| == |t.actions| + 1 && k <= |t.actions|
  {
    forall j :: m <= j < k ==> !DeletesPolicy(t.worlds[j], t.actions[j], name)
  }

  // Over every run, with any faults, lags and changes of leader: a policy that
  // is there without its copy stays, for as long as there is no copy and nobody
  // edits it, exactly until an unrefused policy delete of a removal. The retry
  // that would make up for one that failed, or that a change of leader cut off,
  // is not among them: a removal that finds no copy ends before it.
  lemma {:induction false} PolicyStaysExactly(config: Config, t: Trace, m: nat, k: nat, name: Name)
    requires Runs(config, t) && m <= k <= |t.actions| && WithoutCopy(t, m, k, name)
    requires PolicyName(name) in t.worlds[m].hub.policies
    ensures GoneForGood(t.worlds[k], name)
    ensures PolicyName(name) in t.worlds[k].hub.policies <==> NeverDeleted(t, m, k, name)
    decreases k
  {
    hide Next, Enabled, DeletesPolicy, GoneForGood, EditsPolicy, Starting, Follows;
    if m < k {
      PolicyStaysExactly(config, t, m, k - 1, name);
      ActionAt(config, t, k - 1);
      assert t.worlds[k] == Next(config, t.worlds[k - 1], t.actions[k - 1]);
      PolicyStep(config, t.worlds[k - 1], t.actions[k - 1], name);
    } else {
      ThereIsNotGone(t.worlds[m], name);
    }
  }

  lemma ThereIsNotGone(w: World, name: Name)
    requires PolicyName(name) in w.hub.policies
    ensures GoneForGood(w, name)
  {
  }

  // No removal of the name is past its read.
  predicate NotRemoving(w: World, name: Name) {
    name in w.active ==>
      var phase := w.active[name];
      && !phase.AwaitCaches? && !phase.ListSource? && !phase.ListHeld? && !phase.CheckFleet?
      && !phase.DeleteCopy? && !phase.DeletePolicy?
  }

  predicate SeesNoCopy(action: Action, name: Name) {
    action.Call? && action.name == name ==> action.view.copy.None?
  }

  lemma NotRemovingLasts(config: Config, w: World, action: Action, name: Name)
    requires Enabled(w, action) && NotRemoving(w, name) && SeesNoCopy(action, name)
    ensures NotRemoving(Next(config, w, action), name) && !DeletesPolicy(w, action, name)
  {
    hide Publishable, PublishedAt, AppliedCopy, AppliedPolicy, GuardDecision, BlockedMessage, Woken, Sees;
  }

  lemma {:induction false} RunNotRemoving(config: Config, t: Trace, m: nat, k: nat, name: Name)
    requires Runs(config, t) && m <= k <= |t.actions| && NotRemoving(t.worlds[m], name)
    requires forall j :: m <= j < k ==> SeesNoCopy(t.actions[j], name)
    ensures NotRemoving(t.worlds[k], name) && NeverDeleted(t, m, k, name)
    decreases k
  {
    hide Next, Enabled, DeletesPolicy, SeesNoCopy, NotRemoving, Starting, Follows;
    if m < k {
      RunNotRemoving(config, t, m, k - 1, name);
      ActionAt(config, t, k - 1);
      assert t.worlds[k] == Next(config, t.worlds[k - 1], t.actions[k - 1]);
      NotRemovingLasts(config, t.worlds[k - 1], t.actions[k - 1], name);
    }
  }

  // So once no removal is under way and reads of the copy are current, an
  // orphaned policy stays for good: until somebody edits it or a copy is there
  // again, no reconcile takes it away.
  lemma OrphanStaysOnRuns(config: Config, t: Trace, m: nat, k: nat, name: Name)
    requires Runs(config, t) && m <= k <= |t.actions| && WithoutCopy(t, m, k, name)
    requires PolicyName(name) in t.worlds[m].hub.policies && NotRemoving(t.worlds[m], name)
    requires forall j :: m <= j < k ==> SeesNoCopy(t.actions[j], name)
    ensures PolicyName(name) in t.worlds[k].hub.policies
  {
    RunNotRemoving(config, t, m, k, name);
    PolicyStaysExactly(config, t, m, k, name);
  }
}
