// What must have been seen, in which order, before the publisher deletes.
module DeletionSafety {
  import opened Api
  import opened Publication
  import opened Reconciling
  import opened WorkQueue
  import opened Protocol

  // The call `name`'s worker makes as action i, standing at `phase`, succeeds.
  ghost predicate CallsAt(t: Trace, i: nat, name: Name, phase: Phase)
    requires |t.worlds| == |t.actions| + 1
  {
    && i < |t.actions|
    && t.actions[i].Call? && t.actions[i].name == name
    && name in t.worlds[i].active && t.worlds[i].active[name] == phase
    && (t.actions[i].fate.Succeeds? || phase.AwaitCaches?)
  }

  // The indices of the reads a removal rests on.
  datatype Evidence = Evidence(absent: nat, owned: nat, synced: nat, listed: nat, judged: nat)

  ghost predicate SawAbsent(t: Trace, name: Name, e: Evidence, k: nat)
    requires |t.worlds| == |t.actions| + 1 && k < |t.worlds|
  {
    && e.absent < k && Continuous(t, e.absent, k, name)
    && CallsAt(t, e.absent, name, Start) && t.actions[e.absent].view.location.None?
  }

  ghost predicate SawOwned(t: Trace, name: Name, e: Evidence, k: nat, retained: ServingLocation)
    requires |t.worlds| == |t.actions| + 1 && k < |t.worlds|
  {
    && SawAbsent(t, name, e, k) && e.absent < e.owned < k
    && CallsAt(t, e.owned, name, ReadForRemoval)
    && t.actions[e.owned].view.copy == Some(retained) && Owned(retained)
    && t.worlds[e.owned + 1].active[name] == AwaitCaches(retained)
  }

  ghost predicate SawSynced(t: Trace, name: Name, e: Evidence, k: nat, retained: ServingLocation)
    requires |t.worlds| == |t.actions| + 1 && k < |t.worlds|
  {
    && SawOwned(t, name, e, k, retained) && e.owned < e.synced < k
    && CallsAt(t, e.synced, name, AwaitCaches(retained)) && t.actions[e.synced].view.cachesSynced
  }

  // The source list held something, or neither list held anything.
  ghost predicate SawListed(t: Trace, name: Name, e: Evidence, k: nat, retained: ServingLocation)
    requires |t.worlds| == |t.actions| + 1 && k < |t.worlds|
  {
    && SawSynced(t, name, e, k, retained) && e.synced < e.listed < k
    && (|| (CallsAt(t, e.listed, name, ListSource(retained)) && t.actions[e.listed].view.sourceCount > 0)
        || (CallsAt(t, e.listed, name, ListHeld(retained)) && t.actions[e.listed].view.heldCount == 0))
  }

  ghost predicate SawReason(t: Trace, name: Name, e: Evidence, k: nat, retained: ServingLocation)
    requires |t.worlds| == |t.actions| + 1 && k < |t.worlds|
  {
    && SawListed(t, name, e, k, retained)
    && (|| Overridden(retained)
        || (&& e.listed < e.judged < k
            && CallsAt(t, e.judged, name, CheckFleet(retained))
            && GuardDecision(t.actions[e.judged].view.clusters, name).allowed))
  }

  ghost predicate Attested(t: Trace, k: nat, name: Name, phase: Phase, e: Evidence)
    requires |t.worlds| == |t.actions| + 1 && k < |t.worlds|
  {
    match phase
    case ReadForRemoval => SawAbsent(t, name, e, k)
    case AwaitCaches(retained) => SawOwned(t, name, e, k, retained)
    case ListSource(retained) => SawSynced(t, name, e, k, retained)
    case ListHeld(retained) => SawSynced(t, name, e, k, retained)
    case CheckFleet(retained) => SawListed(t, name, e, k, retained)
    case DeleteCopy(retained) => SawReason(t, name, e, k, retained)
    case _ => true
  }

  lemma AttestationLasts(t: Trace, k: nat, name: Name, phase: Phase, e: Evidence)
    requires |t.worlds| == |t.actions| + 1 && k + 1 < |t.worlds| && name in t.worlds[k + 1].active
    requires Attested(t, k, name, phase, e)
    ensures Attested(t, k + 1, name, phase, e)
  {
  }

  // Every removal under way can name the reads it rests on.
  lemma {:induction false} Attest(config: Config, t: Trace, k: nat, name: Name) returns (e: Evidence)
    requires Runs(config, t) && k < |t.worlds| && name in t.worlds[k].active
    ensures Attested(t, k, name, t.worlds[k].active[name], e)
  {
    e := Evidence(0, 0, 0, 0, 0);
    if k > 0 && !t.worlds[k].active[name].Start? {
      ActionAt(config, t, k - 1);
      hide Next, Enabled, Attested;
      e := Attest(config, t, k - 1, name);
      if t.worlds[k].active[name] == t.worlds[k - 1].active[name] {
        AttestationLasts(t, k - 1, name, t.worlds[k - 1].active[name], e);
      } else {
        e := AttestCall(config, t, k - 1, name, e);
      }
    }
  }

  // Action k is a call by the worker of a removal whose reads so far are `e`.
  ghost predicate CallUnderway(config: Config, t: Trace, k: nat, name: Name, e: Evidence)
    requires |t.worlds| == |t.actions| + 1 && k < |t.actions|
  {
    && Follows(config, t, k)
    && name in t.worlds[k].active && !t.worlds[k].active[name].Returning? && name in t.worlds[k + 1].active
    && t.actions[k].Call? && t.actions[k].name == name
    && Attested(t, k, name, t.worlds[k].active[name], e)
  }

  // The calls that may add to the evidence.
  predicate Gathers(phase: Phase) {
    || phase.Start? || phase.ReadForRemoval? || phase.CheckFleet?
    || phase.AwaitCaches? || phase.ListSource? || phase.ListHeld?
  }

  lemma AttestCall(config: Config, t: Trace, k: nat, name: Name, e: Evidence) returns (e': Evidence)
    requires |t.worlds| == |t.actions| + 1 && k < |t.actions| && CallUnderway(config, t, k, name, e)
    ensures Attested(t, k + 1, name, t.worlds[k + 1].active[name], e')
  {
    var phase := t.worlds[k].active[name];
    hide Attested, CallUnderway;
    e' := e;
    if !Gathers(phase) {
      WritesNeedNoEvidence(config, t, k, name, e);
    } else if phase.Start? || phase.ReadForRemoval? {
      e' := AttestRead(config, t, k, name, e);
    } else if phase.CheckFleet? {
      e' := AttestFleet(config, t, k, name, e);
    } else {
      e' := AttestPrune(config, t, k, name, e);
    }
  }

  lemma AttestRead(config: Config, t: Trace, k: nat, name: Name, e: Evidence) returns (e': Evidence)
    requires |t.worlds| == |t.actions| + 1 && k < |t.actions| && CallUnderway(config, t, k, name, e)
    requires t.worlds[k].active[name].Start? || t.worlds[k].active[name].ReadForRemoval?
    ensures Attested(t, k + 1, name, t.worlds[k + 1].active[name], e')
  {
    hide GuardDecision, Publishable, PublishedAt, AppliedCopy, AppliedPolicy, Woken, Sees;
    AttestationLasts(t, k, name, t.worlds[k].active[name], e);
    e' := if t.worlds[k].active[name].Start? then e.(absent := k) else e.(owned := k);
  }

  lemma AttestPrune(config: Config, t: Trace, k: nat, name: Name, e: Evidence) returns (e': Evidence)
    requires |t.worlds| == |t.actions| + 1 && k < |t.actions| && CallUnderway(config, t, k, name, e)
    requires var phase := t.worlds[k].active[name]; phase.AwaitCaches? || phase.ListSource? || phase.ListHeld?
    ensures Attested(t, k + 1, name, t.worlds[k + 1].active[name], e')
  {
    hide GuardDecision, Publishable, PublishedAt, AppliedCopy, AppliedPolicy, Woken, Sees;
    AttestationLasts(t, k, name, t.worlds[k].active[name], e);
    e' := if t.worlds[k].active[name].AwaitCaches? then e.(synced := k) else e.(listed := k);
  }

  lemma AttestFleet(config: Config, t: Trace, k: nat, name: Name, e: Evidence) returns (e': Evidence)
    requires |t.worlds| == |t.actions| + 1 && k < |t.actions| && CallUnderway(config, t, k, name, e)
    requires t.worlds[k].active[name].CheckFleet?
    ensures Attested(t, k + 1, name, t.worlds[k + 1].active[name], e')
  {
    hide GuardDecision, Next, Enabled, SawListed, Continuous;
    var retained := t.worlds[k].active[name].retained;
    FleetVerdict(config, t.worlds[k], t.actions[k], name);
    AttestationLasts(t, k, name, t.worlds[k].active[name], e);
    JudgingIsLater(t, k, name, retained, e, k);
    JudgingIsLater(t, k + 1, name, retained, e, k);
    e' := e.(judged := k);
  }

  lemma FleetVerdict(config: Config, w: World, action: Action, name: Name)
    requires Enabled(w, action) && action.Call? && action.name == name && w.active[name].CheckFleet?
    ensures name in Next(config, w, action).active
    ensures var next := Next(config, w, action).active[name];
            || next.Returning? || next.RecordBlock?
            || (&& next == DeleteCopy(w.active[name].retained) && action.fate.Succeeds?
                && GuardDecision(action.view.clusters, name).allowed)
  {
    hide GuardDecision, Woken, Sees;
  }

  lemma JudgingIsLater(t: Trace, k: nat, name: Name, retained: ServingLocation, e: Evidence, judged: nat)
    requires |t.worlds| == |t.actions| + 1 && k < |t.worlds| && SawListed(t, name, e, k, retained)
    ensures SawListed(t, name, e.(judged := judged), k, retained) && e.listed < k
  {
    hide GuardDecision;
  }

  lemma WritesNeedNoEvidence(config: Config, t: Trace, k: nat, name: Name, e: Evidence)
    requires |t.worlds| == |t.actions| + 1 && k < |t.actions| && CallUnderway(config, t, k, name, e)
    requires !Gathers(t.worlds[k].active[name])
    ensures Attested(t, k + 1, name, t.worlds[k + 1].active[name], e)
  {
    WritesDecideNothing(config, t.worlds[k], t.actions[k], name);
    hide Next, Enabled;
  }

  lemma WritesDecideNothing(config: Config, w: World, action: Action, name: Name)
    requires Enabled(w, action) && action.Call? && action.name == name
    requires !Gathers(w.active[name])
    ensures name in Next(config, w, action).active
    ensures var next := Next(config, w, action).active[name]; !next.ReadForRemoval? && !Deciding(next)
  {
    hide GuardDecision, Publishable, PublishedAt, AppliedCopy, AppliedPolicy, Woken, Sees;
  }

  // Only the reconcile of a name, at its delete call, takes that name's copy
  // off the hub.
  lemma OnlyDeleteCallsRemove(config: Config, w: World, action: Action, name: Name)
    requires Enabled(w, action) && action.Call?
    requires name in w.hub.copies && name !in Next(config, w, action).hub.copies
    ensures action.name == name && w.active[name].DeleteCopy? && !action.fate.Refused?
  {
    hide GuardDecision, Publishable, PublishedAt, AppliedCopy, AppliedPolicy, Woken, Sees;
  }

  // Deletion safety over whole runs. Whenever the publisher takes a copy off
  // the hub, this same reconcile has been told, in this order: that the Location
  // is absent; that the copy is there and owned; that both caches are synced;
  // that the source is not empty, or no owned copy is held; and, unless the copy
  // carries the override, that every Ready cluster names another location.
  // What a cached read says holds of the store unless an event for that name was
  // in flight; in particular an empty source list passes only if the hub's event
  // for the copy itself was, or the copy had gone or become foreign since.
  lemma DeletionIsSafe(config: Config, t: Trace, k: nat, name: Name) returns (retained: ServingLocation, e: Evidence)
    requires Runs(config, t) && k < |t.actions| && t.actions[k].Call? && name != ""
    requires name in t.worlds[k].hub.copies && name !in t.worlds[k + 1].hub.copies
    ensures t.actions[k].name == name && name in t.worlds[k].active
    ensures t.worlds[k].active[name] == DeleteCopy(retained) && SawReason(t, name, e, k, retained)
    ensures name !in t.worlds[e.absent].source || name in t.worlds[e.absent].queue.inFlight
    ensures Get(t.worlds[e.owned].hub.copies, name) == Some(retained) || name in t.worlds[e.owned].queue.inFlight
    ensures if t.worlds[e.listed].active[name].ListHeld?
            then name in t.worlds[e.listed].queue.inFlight || name !in Held(t.worlds[e.listed].hub)
            else t.worlds[e.listed].source.Keys + t.worlds[e.listed].queue.inFlight != {}
    ensures Get(retained.annotations, OVERRIDE_ANNOTATION) == Some("true")
            || (e.listed < e.judged < k && FleetHasMovedOn(t.worlds[e.judged].clusters, name))
  {
    hide Next, Advance, GuardDecision, Publishable, Woken;
    ActionAt(config, t, k);
    OnlyDeleteCallsRemove(config, t.worlds[k], t.actions[k], name);
    e := Attest(config, t, k, name);
    retained := t.worlds[k].active[name].retained;
    ActionAt(config, t, e.absent);
    ActionAt(config, t, e.owned);
    ActionAt(config, t, e.listed);
    if !Overridden(retained) {
      ActionAt(config, t, e.judged);
      var seen, there := t.actions[e.judged].view.clusters, t.worlds[e.judged].clusters;
      GuardCanonical(seen, there, name);
      GuardAllowsExactly(there, name);
    }
  }

  // ---- Whose object is deleted ----

  // What edits by others have made of a copy that was `first` at `from`.
  function LastEdit(
      actions: seq<Action>, since: nat, until: nat, name: Name, first: Option<ServingLocation>
    ): Option<ServingLocation>
    requires since <= until <= |actions|
    decreases until
  {
    if since == until then first
    else
      var action := actions[until - 1];
      if action.EditCopy? && action.name == name then action.copy else LastEdit(actions, since, until - 1, name, first)
  }

  predicate Deciding(phase: Phase) {
    phase.AwaitCaches? || phase.ListSource? || phase.ListHeld? || phase.CheckFleet? || phase.DeleteCopy?
  }

  lemma CallsGoDown(config: Config, w: World, action: Action, name: Name)
    requires Enabled(w, action) && name in w.active && name in Next(config, w, action).active
    ensures Next(config, w, action).active[name].CallsLeft() <= w.active[name].CallsLeft()
  {
    if action.Call? && action.name == name {
      AdvanceProgresses(config, name, w.active[name], w.hub, action.view, action.fate);
    }
    hide Advance, Woken, Sees;
  }

  // Within one reconcile the calls left only go down.
  lemma {:induction false} CallsRunOut(config: Config, t: Trace, i: nat, k: nat, name: Name)
    requires Runs(config, t) && i <= k < |t.worlds| && Continuous(t, i, k, name)
    ensures t.worlds[k].active[name].CallsLeft() <= t.worlds[i].active[name].CallsLeft()
  {
    hide Next, Enabled;
    if i < k {
      CallsRunOut(config, t, i, k - 1, name);
      ActionAt(config, t, k - 1);
      CallsGoDown(config, t.worlds[k - 1], t.actions[k - 1], name);
    }
  }

  lemma DecidingCallsComeFromDeciding(config: Config, w: World, action: Action, name: Name)
    requires Enabled(w, action) && name in w.active && name in Next(config, w, action).active
    requires Deciding(Next(config, w, action).active[name]) && w.active[name].CallsLeft() <= 7
    ensures Deciding(w.active[name])
    ensures !(action.EditCopy? && action.name == name) ==>
              Get(Next(config, w, action).hub.copies, name) == Get(w.hub.copies, name)
  {
    hide GuardDecision, Publishable, PublishedAt, AppliedCopy, AppliedPolicy, Woken, Sees;
    if action.Call? && action.name != name {
      AdvanceIsLocal(config, action.name, w.active[action.name], w.hub, action.view, action.fate);
      ElsewhereKeepsOthers(w.hub, Next(config, w, action).hub, action.name, name);
    }
  }

  lemma {:induction false} CopySinceRead(config: Config, t: Trace, i: nat, k: nat, name: Name)
    requires Runs(config, t) && i <= k < |t.worlds| && Continuous(t, i, k, name)
    requires t.worlds[i].active[name].AwaitCaches? && Deciding(t.worlds[k].active[name])
    ensures Get(t.worlds[k].hub.copies, name)
            == LastEdit(t.actions, i, k, name, Get(t.worlds[i].hub.copies, name))
  {
    hide Next, Enabled;
    if i < k {
      ActionAt(config, t, k - 1);
      CallsRunOut(config, t, i, k - 1, name);
      DecidingCallsComeFromDeciding(config, t.worlds[k - 1], t.actions[k - 1], name);
      CopySinceRead(config, t, i, k - 1, name);
      EditTakes(config, t.worlds[k - 1], t.actions[k - 1], name);
    }
  }

  lemma EditTakes(config: Config, w: World, action: Action, name: Name)
    requires Enabled(w, action)
    ensures action.EditCopy? && action.name == name ==>
              Get(Next(config, w, action).hub.copies, name) == action.copy
  {
    hide Advance;
  }

  // On every run, however old what the removal read: the object it deletes is
  // the one on the hub at that read, as edited by others since. So it deletes a
  // foreign object exactly when the last edit since the read left one there,
  // or, with no edit since, the object was foreign already at the read.
  lemma DeletedObjectIsTheCopyRead(config: Config, t: Trace, k: nat, name: Name)
    returns (retained: ServingLocation, read: nat)
    requires Runs(config, t) && k < |t.actions| && t.actions[k].Call?
    requires name in t.worlds[k].hub.copies && name !in t.worlds[k + 1].hub.copies
    ensures read < k && Continuous(t, read, k, name) && Owned(retained)
    ensures CallsAt(t, read, name, ReadForRemoval) && t.actions[read].view.copy == Some(retained)
    ensures var there := Get(t.worlds[read].hub.copies, name);
            && Get(t.worlds[k].hub.copies, name) == LastEdit(t.actions, read + 1, k, name, there)
            && (!Owned(t.worlds[k].hub.copies[name]) <==> Foreign(LastEdit(t.actions, read + 1, k, name, there)))
    ensures Get(t.worlds[read].hub.copies, name) == Some(retained) || name in t.worlds[read].queue.inFlight
  {
    hide Next, Enabled;
    ActionAt(config, t, k);
    OnlyDeleteCallsRemove(config, t.worlds[k], t.actions[k], name);
    var e := Attest(config, t, k, name);
    assert SawReason(t, name, e, k, t.worlds[k].active[name].retained);
    retained, read := t.worlds[k].active[name].retained, e.owned;
    ActionAt(config, t, read);
    ReadKeepsHub(config, t.worlds[read], t.actions[read], name);
    CopySinceRead(config, t, read + 1, k, name);
  }

  lemma ReadKeepsHub(config: Config, w: World, action: Action, name: Name)
    requires Enabled(w, action) && action.Call? && action.name == name && w.active[name].ReadForRemoval?
    ensures Next(config, w, action).hub == w.hub
    ensures name !in w.queue.inFlight ==> action.view.copy == Get(w.hub.copies, name)
  {
    hide Woken;
  }
}
