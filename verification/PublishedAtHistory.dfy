// What publishedAt tells about the past of a copy, over whole runs.
module PublishedAtHistory {
  import opened Api
  import opened Publication
  import opened Reconciling
  import opened Protocol
  import ContentEquality

  predicate WellFormed(location: Location) {
    CityCodeTrimmed(location) && NoEmptyValues(location)
  }

  // ---- One publish ----

  // The timestamp a publish owes: the copy's own while its content stays.
  function Due(copy: Option<ServingLocation>, location: Location, now: nat): nat {
    if copy.Some? && SameContent(copy.value, location) then copy.value.publishedAt else now
  }

  // What was read of the copy gives its timestamp away. Where the snapshot has
  // the Location's content, its timestamp is the one due; where it does not,
  // the copy has other content too, or was stamped at this very time.
  predicate Informed(
      snapshot: Option<ServingLocation>, copy: Option<ServingLocation>, location: Location, now: nat)
  {
    if snapshot.Some? && SameContent(snapshot.value, location)
    then snapshot.value.publishedAt == Due(copy, location, now)
    else copy.Some? && SameContent(copy.value, location) ==> copy.value.publishedAt == now
  }

  lemma StampIsDueExactly(
      snapshot: Option<ServingLocation>, copy: Option<ServingLocation>, location: Location, now: nat)
    requires WellFormed(location)
    ensures PublishedAt(snapshot, location, now) == Due(copy, location, now)
            <==> Informed(snapshot, copy, location, now)
  {
    if snapshot.Some? {
      ContentEquality.ContentEqualIsExact(snapshot.value, location);
    }
    hide PublishedContentEqual, WellFormed;
  }

  // ---- Runs ----

  // The same copy but for its labels and annotations.
  predicate SameStamp(before: Option<ServingLocation>, after: Option<ServingLocation>) {
    && (before.Some? <==> after.Some?)
    && (after.Some? ==>
          after.value == before.value.(labels := after.value.labels, annotations := after.value.annotations))
  }

  // The publisher's hub: the Locations read are well formed, and other actors
  // edit only labels and annotations of a copy, or take it away. Reads may be
  // of any age and calls may fail.
  predicate Respects(w: World, action: Action) {
    match action
    case Call(_, view, _) => view.location.Some? ==> WellFormed(view.location.value)
    case EditCopy(name, copy) => SameStamp(Get(w.hub.copies, name), copy) || copy.None?
    case _ => true
  }

  ghost predicate Maintained(config: Config, t: Trace) {
    && Runs(config, t)
    && t.worlds[0].hub.copies == map[]
    && (forall i :: 0 <= i < |t.actions| ==> Respects(t.worlds[i], t.actions[i]))
  }

  function Content(hub: Hub, name: Name): Option<(int, map<string, string>)> {
    if name in hub.copies then Some((hub.copies[name].generation, hub.copies[name].topology)) else None
  }

  // The time of the last call, among the first k actions, that changed the
  // (generation, topology) of the name's copy; 0 when there was none.
  function LastChange(t: Trace, k: nat, name: Name): nat
    requires |t.worlds| == |t.actions| + 1 && k <= |t.actions|
  {
    if k == 0 then 0
    else if t.actions[k - 1].Call? && Content(t.worlds[k - 1].hub, name) != Content(t.worlds[k].hub, name)
    then t.actions[k - 1].view.now
    else LastChange(t, k - 1, name)
  }

  predicate Stamped(w: World, name: Name, changed: nat) {
    name in w.hub.copies ==> w.hub.copies[name].publishedAt == changed
  }

  // If the action lands a publish of the name, it was informed.
  predicate Faithful(w: World, action: Action, name: Name) {
    action.Call? && action.name == name && name in w.active && w.active[name].ApplyCopy? && !action.fate.Refused? ==>
      Informed(w.active[name].snapshot, Get(w.hub.copies, name), w.active[name].location, action.view.now)
  }

  predicate Prepared(w: World, name: Name) {
    name in w.active ==>
      match w.active[name]
      case ReadForPublish(location) => WellFormed(location)
      case ApplyCopy(location, _) => WellFormed(location)
      case _ => true
  }

  function ChangedBy(w: World, action: Action, w': World, name: Name, changed: nat): nat {
    if action.Call? && Content(w.hub, name) != Content(w'.hub, name) then action.view.now else changed
  }

  // The one call that stamps.
  lemma ApplyStampsExactly(config: Config, w: World, action: Action, name: Name, changed: nat)
    requires Enabled(w, action) && action.Call? && action.name == name && w.active[name].ApplyCopy?
    requires Prepared(w, name) && Stamped(w, name, changed)
    ensures var w' := Next(config, w, action);
            && Prepared(w', name)
            && (Stamped(w', name, ChangedBy(w, action, w', name, changed)) <==> Faithful(w, action, name))
  {
    var phase := w.active[name];
    StampIsDueExactly(phase.snapshot, Get(w.hub.copies, name), phase.location, action.view.now);
    hide PublishedAt, Informed, WellFormed, Publishable, GuardDecision, Woken, AppliedPolicy, Sees;
  }

  lemma OtherCallsKeepStamp(config: Config, w: World, action: Action, name: Name, changed: nat)
    requires Enabled(w, action) && action.Call? && action.name == name && !w.active[name].ApplyCopy?
    requires Respects(w, action) && Prepared(w, name) && Stamped(w, name, changed)
    ensures Prepared(Next(config, w, action), name) && Stamped(Next(config, w, action), name, changed)
    ensures name in Next(config, w, action).hub.copies ==>
              Content(w.hub, name) == Content(Next(config, w, action).hub, name)
  {
    hide PublishedAt, WellFormed, Publishable, GuardDecision, BlockedMessage, Woken, AppliedPolicy, AppliedCopy, Sees;
  }

  lemma ActionStampsExactly(config: Config, w: World, action: Action, name: Name, changed: nat)
    requires Enabled(w, action) && Respects(w, action) && Prepared(w, name) && Stamped(w, name, changed)
    ensures var w' := Next(config, w, action);
            && Prepared(w', name)
            && (Stamped(w', name, ChangedBy(w, action, w', name, changed)) <==> Faithful(w, action, name))
  {
    hide Advance, WellFormed, Woken, Sees, Informed;
    if action.Call? && action.name == name {
      if w.active[name].ApplyCopy? {
        ApplyStampsExactly(config, w, action, name, changed);
      } else {
        OtherCallsKeepStamp(config, w, action, name, changed);
      }
    } else if action.Call? {
      AdvanceIsLocal(config, action.name, w.active[action.name], w.hub, action.view, action.fate);
      ElsewhereKeepsOthers(w.hub, Next(config, w, action).hub, action.name, name);
    }
  }

  // Up to its k-th world, the run's copy of the name has carried the time of
  // the last call that changed its content.
  ghost predicate Tracks(t: Trace, k: nat, name: Name)
    requires |t.worlds| == |t.actions| + 1 && k <= |t.actions|
  {
    forall j :: 0 <= j <= k ==> Stamped(t.worlds[j], name, LastChange(t, j, name))
  }

  ghost predicate FaithfulUntil(t: Trace, k: nat, name: Name)
    requires |t.worlds| == |t.actions| + 1 && k <= |t.actions|
  {
    forall j :: 0 <= j < k ==> Faithful(t.worlds[j], t.actions[j], name)
  }

  // publishedAt tracks content over whole runs: at every moment, on the copy, it
  // is the time of the last call that changed generation or topology, exactly
  // when every publish that landed was informed, whatever calls failed and
  // whatever else happened in between.
  lemma {:induction false} PublishedAtIsLastChangeExactly(config: Config, t: Trace, k: nat, name: Name)
    requires Maintained(config, t) && k <= |t.actions|
    ensures Tracks(t, k, name) <==> FaithfulUntil(t, k, name)
    ensures Tracks(t, k, name) ==> Prepared(t.worlds[k], name)
  {
    hide Starting, Follows, Respects, Stamped, Faithful, Prepared, LastChange;
    if k > 0 {
      PublishedAtIsLastChangeExactly(config, t, k - 1, name);
      if Tracks(t, k - 1, name) {
        TracksOneFurther(config, t, k - 1, name);
      }
    } else {
      StartIsStamped(config, t, name);
    }
  }

  lemma TracksOneFurther(config: Config, t: Trace, k: nat, name: Name)
    requires Maintained(config, t) && k < |t.actions| && Prepared(t.worlds[k], name)
    requires Stamped(t.worlds[k], name, LastChange(t, k, name))
    ensures Prepared(t.worlds[k + 1], name)
    ensures Stamped(t.worlds[k + 1], name, LastChange(t, k + 1, name)) <==> Faithful(t.worlds[k], t.actions[k], name)
  {
    hide Next, Enabled, Respects, Stamped, Faithful, Prepared;
    ActionAt(config, t, k);
    ActionStampsExactly(config, t.worlds[k], t.actions[k], name, LastChange(t, k, name));
  }

  lemma StartIsStamped(config: Config, t: Trace, name: Name)
    requires Maintained(config, t)
    ensures Stamped(t.worlds[0], name, LastChange(t, 0, name)) && Prepared(t.worlds[0], name)
  {
  }

  // ---- Current reads are enough ----

  // Reads of copies are current, and copies are taken away only while no
  // reconcile of them is under way.
  predicate Current(w: World, action: Action) {
    match action
    case Call(name, view, _) => view.copy == Get(w.hub.copies, name)
    case EditCopy(name, copy) => copy.None? ==> name !in w.active
    case _ => true
  }

  predicate Aware(w: World, name: Name) {
    name in w.active && w.active[name].ApplyCopy? ==> SameStamp(w.active[name].snapshot, Get(w.hub.copies, name))
  }

  lemma ActionKeepsAware(config: Config, w: World, action: Action, name: Name)
    requires Enabled(w, action) && Respects(w, action) && Current(w, action) && Aware(w, name)
    ensures Aware(Next(config, w, action), name)
  {
    hide PublishedAt, WellFormed, Publishable, GuardDecision, BlockedMessage, Woken, AppliedPolicy, AppliedCopy, Sees;
    if action.Call? && action.name != name {
      AdvanceIsLocal(config, action.name, w.active[action.name], w.hub, action.view, action.fate);
      hide Advance;
      ElsewhereKeepsOthers(w.hub, Next(config, w, action).hub, action.name, name);
    }
  }

  lemma {:induction false} RunKeepsAware(config: Config, t: Trace, k: nat, name: Name)
    requires Maintained(config, t) && k <= |t.actions|
    requires forall i :: 0 <= i < |t.actions| ==> Current(t.worlds[i], t.actions[i])
    ensures Aware(t.worlds[k], name)
  {
    hide Next, Enabled, Respects, Current;
    if k > 0 {
      RunKeepsAware(config, t, k - 1, name);
      ActionAt(config, t, k - 1);
      ActionKeepsAware(config, t.worlds[k - 1], t.actions[k - 1], name);
    }
  }

  // With current reads every publish is informed, and so every timestamp right.
  lemma CurrentReadsTrack(config: Config, t: Trace, k: nat, name: Name)
    requires Maintained(config, t) && k <= |t.actions|
    requires forall i :: 0 <= i < |t.actions| ==> Current(t.worlds[i], t.actions[i])
    ensures FaithfulUntil(t, k, name) && Tracks(t, k, name)
  {
    forall j | 0 <= j < k ensures Faithful(t.worlds[j], t.actions[j], name) {
      RunKeepsAware(config, t, j, name);
    }
    PublishedAtIsLastChangeExactly(config, t, k, name);
  }

  // ---- publishedAt does not go back ----

  // One clock, which may stand still but does not run backwards.
  predicate InOrder(actions: seq<Action>) {
    forall i, j :: 0 <= i < j < |actions| && actions[i].Call? && actions[j].Call? ==>
      actions[i].view.now <= actions[j].view.now
  }

  lemma {:induction false} LastChangeIsPast(t: Trace, k: nat, name: Name)
    requires |t.worlds| == |t.actions| + 1 && k <= |t.actions|
    ensures LastChange(t, k, name) == 0
            || exists i :: 0 <= i < k && t.actions[i].Call? && t.actions[i].view.now == LastChange(t, k, name)
  {
    hide Content;
    if k > 0 {
      LastChangeIsPast(t, k - 1, name);
    }
  }

  lemma {:induction false} LastChangeGrows(t: Trace, j: nat, k: nat, name: Name)
    requires |t.worlds| == |t.actions| + 1 && j <= k <= |t.actions| && InOrder(t.actions)
    ensures LastChange(t, j, name) <= LastChange(t, k, name)
  {
    hide Content;
    if j < k {
      LastChangeGrows(t, j, k - 1, name);
      LastChangeIsPast(t, k - 1, name);
    }
  }

  // While publishes are informed it never goes back, not even when the copy was
  // removed and published again in between.
  lemma PublishedAtNeverDecreases(config: Config, t: Trace, j: nat, k: nat, name: Name)
    requires Maintained(config, t) && InOrder(t.actions) && j <= k <= |t.actions| && FaithfulUntil(t, k, name)
    requires name in t.worlds[j].hub.copies && name in t.worlds[k].hub.copies
    ensures t.worlds[j].hub.copies[name].publishedAt <= t.worlds[k].hub.copies[name].publishedAt
  {
    PublishedAtIsLastChangeExactly(config, t, k, name);
    assert Stamped(t.worlds[j], name, LastChange(t, j, name)) && Stamped(t.worlds[k], name, LastChange(t, k, name));
    LastChangeGrows(t, j, k, name);
  }
}
