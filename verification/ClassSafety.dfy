// What the class finalizer protects, and that nothing it waits for is missed.
module ClassSafety {
  import opened Api
  import opened ClassFinalizing
  import opened ClassProtocol
  import opened Listing
  import Publication

  predicate Released(class': Option<LocationClass>) {
    class'.None? || !Holds(class'.value.finalizers)
  }

  // ---- No lost wake-up ----

  // A class that has gone quiet is gone, or live and held, or terminating and
  // released; or it is terminating, on a timer, and some Location names it.
  predicate Tended(w: ClassWorld, name: Name, onTimer: bool) {
    var class' := Get(w.classes, name);
    class'.Some? ==>
      if class'.value.terminating
      then Released(class') || (onTimer && References(w.locations, name) != {})
      else Holds(class'.value.finalizers)
  }

  predicate ClassProgress(w: ClassWorld, name: Name, phase: ClassPhase) {
    var class' := Get(w.classes, name);
    match phase
    case ReadClass => true
    case Hold(snapshot) => class' == Some(snapshot) && !snapshot.terminating
    case ListReferences(snapshot) => class' == Some(snapshot) && snapshot.terminating
    case RecordDeletion(_) => class'.Some? && class'.value.terminating && References(w.locations, name) != {}
    case Release(snapshot) => class' == Some(snapshot) && snapshot.terminating && Holds(snapshot.finalizers)
    case Returned(Failed) => true
    case Returned(Done(after)) => Tended(w, name, name in w.queue.timers || after > 0)
  }

  predicate Tending(w: ClassWorld, name: Name) {
    w.queue.Quiet(name) ==>
      if name in w.active then ClassProgress(w, name, w.active[name])
      else Tended(w, name, name in w.queue.timers)
  }

  lemma CallKeeps(w: ClassWorld, action: Action, name: Name)
    requires Enabled(w, action) && action.Call? && Tending(w, name)
    ensures Tending(Next(w, action), name)
  {
    var w' := Next(w, action);
    if action.name != name {
      AdvanceClassIsLocal(action.name, w.active[action.name], w.classes, action.view, action.fate, name);
    } else if w'.queue.Quiet(name) {
      assert w'.classes == w.classes;
    }
  }

  lemma NextKeeps(w: ClassWorld, action: Action, name: Name)
    requires Enabled(w, action) && Tending(w, name)
    ensures Tending(Next(w, action), name)
  {
    var w' := Next(w, action);
    if action.Call? {
      CallKeeps(w, action, name);
    } else if action.Restart? {
      assert name !in w'.queue.inFlight ==> name !in w.classes;
    }
  }

  lemma {:induction false} RunKeeps(t: Trace, k: nat, name: Name)
    requires Runs(t) && k < |t.worlds|
    ensures Tending(t.worlds[k], name)
  {
    if k > 0 {
      RunKeeps(t, k - 1, name);
      ActionAt(t, k - 1);
      hide Next, Enabled, Tending;
      NextKeeps(t.worlds[k - 1], t.actions[k - 1], name);
    } else {
      hide References;
      assert name in t.worlds[0].classes ==> name in Everybody(t.worlds[0]);
    }
  }

  // No lost wake-up, over every run: a class that is neither in flight, queued
  // nor being reconciled is tended to.
  lemma QuietClassesAreTended(t: Trace, k: nat, name: Name)
    requires Runs(t) && k < |t.worlds|
    requires t.worlds[k].queue.Quiet(name) && name !in t.worlds[k].active
    ensures Tended(t.worlds[k], name, name in t.worlds[k].queue.timers)
  {
    RunKeeps(t, k, name);
  }

  // In particular the last de-reference is never lost: a terminating class that
  // is still held and that no Location names is on its way, and not merely on a
  // timer.
  lemma LastDereferenceIsNotLost(t: Trace, k: nat, name: Name)
    requires Runs(t) && k < |t.worlds| && name in t.worlds[k].classes
    requires t.worlds[k].classes[name].terminating && Holds(t.worlds[k].classes[name].finalizers)
    requires References(t.worlds[k].locations, name) == {}
    ensures name in t.worlds[k].queue.inFlight || name in t.worlds[k].queue.dirty || name in t.worlds[k].active
  {
    RunKeeps(t, k, name);
    hide References;
  }

  // ---- Finalizer safety ----

  // Only the reconcile of a class, at its release call, takes the finalizer off
  // the class or the held class out of the store.
  lemma OnlyReleaseTakesFinalizer(w: ClassWorld, action: Action, name: Name)
    requires Enabled(w, action)
    requires !Released(Get(w.classes, name)) && Released(Get(Next(w, action).classes, name))
    ensures action.Call? && action.name == name && w.active[name].Release?
  {
    hide BlockedMessage, References, Lists;
  }

  // The listing a release under way rests on.
  ghost predicate ListedEmpty(t: Trace, j: nat, k: nat, name: Name)
    requires |t.worlds| == |t.actions| + 1 && k < |t.worlds|
  {
    && j < k && Continuous(t, j, k, name)
    && t.actions[j].Call? && t.actions[j].name == name && t.worlds[j].active[name].ListReferences?
    && t.actions[j].view.references == [] && t.worlds[j + 1].active[name].Release?
    && t.worlds[j + 1].locations == t.worlds[j].locations
    && (name !in t.worlds[j].queue.inFlight ==> References(t.worlds[j].locations, name) == {})
  }

  lemma {:induction false} ReleaseRestsOnListing(t: Trace, k: nat, name: Name) returns (j: nat)
    requires Runs(t) && k < |t.worlds| && name in t.worlds[k].active && t.worlds[k].active[name].Release?
    ensures ListedEmpty(t, j, k, name)
  {
    assert k > 0;
    ActionAt(t, k - 1);
    hide Next, Enabled, References;
    if t.worlds[k].active[name] == t.worlds[k - 1].active[name] {
      j := ReleaseRestsOnListing(t, k - 1, name);
    } else {
      j := k - 1;
    }
  }

  // Finalizer safety over whole runs: a class leaves the store while held, or
  // loses the finalizer, only by a release, and earlier in the same reconcile
  // the listed Locations held none naming it.
  lemma HeldClassLeavesOnlyByRelease(t: Trace, k: nat, name: Name) returns (j: nat)
    requires Runs(t) && k < |t.actions|
    requires !Released(Get(t.worlds[k].classes, name)) && Released(Get(t.worlds[k + 1].classes, name))
    ensures t.actions[k].Call? && t.actions[k].name == name
    ensures name in t.worlds[k].active && t.worlds[k].active[name].Release?
    ensures ListedEmpty(t, j, k, name)
  {
    ActionAt(t, k);
    OnlyReleaseTakesFinalizer(t.worlds[k], t.actions[k], name);
    j := ReleaseRestsOnListing(t, k, name);
  }

  // ---- References the listing could not see ----

  // What edits have made of a Location that was `first` at `since`.
  function LastEdit(
      actions: seq<Action>, since: nat, until: nat, name: Name, first: Option<Location>
    ): Option<Location>
    requires since <= until <= |actions|
    decreases until
  {
    if since == until then first
    else
      var action := actions[until - 1];
      if action.EditLocation? && action.name == name then action.location
      else LastEdit(actions, since, until - 1, name, first)
  }

  lemma {:induction false} LocationSince(t: Trace, i: nat, k: nat, name: Name)
    requires Runs(t) && i <= k < |t.worlds|
    ensures Get(t.worlds[k].locations, name) == LastEdit(t.actions, i, k, name, Get(t.worlds[i].locations, name))
  {
    hide Next, Enabled;
    if i < k {
      LocationSince(t, i, k - 1, name);
      ActionAt(t, k - 1);
      EditTakes(t.worlds[k - 1], t.actions[k - 1], name);
    }
  }

  lemma EditTakes(w: ClassWorld, action: Action, name: Name)
    requires Enabled(w, action)
    ensures Get(Next(w, action).locations, name)
            == if action.EditLocation? && action.name == name then action.location else Get(w.locations, name)
  {
    hide AdvanceClass;
  }

  // The listing and the patch are two calls, and the listing may be old. On
  // every run a Location names the class at its release exactly when its last
  // edit since the listing made it do so or, with no edit since, it did already
  // at the listing; and then an event for the class was still in flight.
  lemma OnlyUnlistedReferencesAreMissed(t: Trace, k: nat, name: Name, location: Name) returns (j: nat)
    requires Runs(t) && k < |t.actions|
    requires !Released(Get(t.worlds[k].classes, name)) && Released(Get(t.worlds[k + 1].classes, name))
    ensures j < k && ListedEmpty(t, j, k, name)
    ensures var listed := Get(t.worlds[j].locations, location);
            location in References(t.worlds[k].locations, name)
            <==> name in Indexed(LastEdit(t.actions, j, k, location, listed))
    ensures location in References(t.worlds[j].locations, name) ==> name in t.worlds[j].queue.inFlight
  {
    j := HeldClassLeavesOnlyByRelease(t, k, name);
    LocationSince(t, j, k, location);
  }

  // So when the listing was current, the references missed are those made
  // since, and no others.
  lemma OnlyLaterReferencesAreMissed(t: Trace, k: nat, name: Name, location: Name) returns (j: nat)
    requires Runs(t) && k < |t.actions|
    requires !Released(Get(t.worlds[k].classes, name)) && Released(Get(t.worlds[k + 1].classes, name))
    ensures j < k && ListedEmpty(t, j, k, name)
    ensures name !in t.worlds[j].queue.inFlight ==>
              (location in References(t.worlds[k].locations, name)
               <==> name in Indexed(LastEdit(t.actions, j, k, location, None)))
  {
    j := OnlyUnlistedReferencesAreMissed(t, k, name, location);
    if name !in t.worlds[j].queue.inFlight {
      LastEditForgets(t.actions, j, k, location, Get(t.worlds[j].locations, location), name);
    }
  }

  lemma {:induction false} LastEditForgets(
      actions: seq<Action>, since: nat, until: nat, location: Name, first: Option<Location>, name: Name)
    requires since <= until <= |actions| && name !in Indexed(first)
    ensures name in Indexed(LastEdit(actions, since, until, location, first))
            <==> name in Indexed(LastEdit(actions, since, until, location, None))
    decreases until
  {
    if since < until {
      LastEditForgets(actions, since, until - 1, location, first, name);
    }
  }

  // ---- A lost finalizer stays lost ----

  predicate GoingWithout(class': Option<LocationClass>) {
    class'.None? || (class'.value.terminating && Released(class'))
  }

  // Over every run: a terminating class that has lost the finalizer never has
  // it again, until a class of the same name is created.
  lemma {:induction false} TerminatingNeverRegains(t: Trace, i: nat, k: nat, name: Name)
    requires Runs(t) && i <= k < |t.worlds| && GoingWithout(Get(t.worlds[i].classes, name))
    requires forall j :: i <= j < k ==> !(t.actions[j].CreateClass? && t.actions[j].name == name)
    ensures GoingWithout(Get(t.worlds[k].classes, name))
    decreases k
  {
    hide Next, Enabled;
    if i < k {
      TerminatingNeverRegains(t, i, k - 1, name);
      ActionAt(t, k - 1);
      NoActionRegains(t.worlds[k - 1], t.actions[k - 1], name);
    }
  }

  lemma NoActionRegains(w: ClassWorld, action: Action, name: Name)
    requires Enabled(w, action) && GoingWithout(Get(w.classes, name))
    requires !(action.CreateClass? && action.name == name)
    ensures GoingWithout(Get(Next(w, action).classes, name))
  {
    hide BlockedMessage, References, Lists;
    if action.Call? && action.name == name && w.active[name].Hold? {
      var finalizers := w.active[name].snapshot.finalizers;
      assert (finalizers + [FINALIZER])[|finalizers|] == FINALIZER;
    }
  }

  // ---- The finalizers of others ----

  // The finalizers others hold on a class; none once it is gone.
  function OthersOn(class': Option<LocationClass>): seq<string> {
    if class'.Some? then Others(class'.value.finalizers) else []
  }

  predicate Patching(phase: ClassPhase) {
    phase.Hold? || phase.Release?
  }

  function Patched(phase: ClassPhase): seq<string>
    requires Patching(phase)
  {
    if phase.Hold? then phase.snapshot.finalizers + [FINALIZER] else Others(phase.snapshot.finalizers)
  }

  // A patch that lands leaves the others the snapshot had.
  lemma PatchWritesSnapshot(w: ClassWorld, action: Action)
    requires Enabled(w, action) && action.Call? && Patching(w.active[action.name])
    requires !PatchRefused(w.classes, action.name, Patched(w.active[action.name]), action.fate)
    ensures OthersOn(Get(Next(w, action).classes, action.name)) == Others(w.active[action.name].snapshot.finalizers)
  {
    hide BlockedMessage, References, Lists;
    OthersOfHeld(w.active[action.name].snapshot.finalizers);
  }

  // What edits have made of the finalizers others hold.
  function LastOthers(actions: seq<Action>, since: nat, until: nat, name: Name, first: seq<string>): seq<string>
    requires since <= until <= |actions|
    decreases until
  {
    if since == until then first
    else
      var action := actions[until - 1];
      if (action.EditClass? || action.CreateClass?) && action.name == name then Others(action.class'.finalizers)
      else LastOthers(actions, since, until - 1, name, first)
  }

  // A reconcile that goes to its patch has written nothing before.
  predicate Unwritten(phase: ClassPhase) {
    Patching(phase) || phase.ListReferences?
  }

  lemma OnlyEditsChangeOthers(w: ClassWorld, action: Action, name: Name)
    requires Enabled(w, action) && name in w.active && name in Next(w, action).active
    requires Unwritten(w.active[name]) && Unwritten(Next(w, action).active[name])
    ensures Next(w, action).active[name].snapshot == w.active[name].snapshot
    ensures OthersOn(Get(Next(w, action).classes, name))
            == if (action.EditClass? || action.CreateClass?) && action.name == name
               then Others(action.class'.finalizers) else OthersOn(Get(w.classes, name))
  {
    hide BlockedMessage, References, Lists;
    if action.Call? && action.name != name {
      AdvanceClassIsLocal(action.name, w.active[action.name], w.classes, action.view, action.fate, name);
    }
  }

  lemma UnwrittenIsEnteredByRead(w: ClassWorld, action: Action, name: Name)
    requires Enabled(w, action) && name in Next(w, action).active && Unwritten(Next(w, action).active[name])
    ensures name in w.active
    ensures || Unwritten(w.active[name])
            || (&& action.Call? && action.name == name && w.active[name].ReadClass?
                && action.view.class' == Some(Next(w, action).active[name].snapshot)
                && Next(w, action).classes == w.classes)
  {
    hide BlockedMessage, References, Lists;
  }

  // The read a patch under way rests on, and what edits since it have done.
  ghost predicate ReadAt(t: Trace, j: nat, k: nat, name: Name)
    requires |t.worlds| == |t.actions| + 1 && k < |t.worlds|
    requires name in t.worlds[k].active && Unwritten(t.worlds[k].active[name])
  {
    && j < k && Continuous(t, j, k, name)
    && t.actions[j].Call? && t.actions[j].name == name && t.worlds[j].active[name].ReadClass?
    && t.actions[j].view.class' == Some(t.worlds[k].active[name].snapshot)
    && OthersOn(Get(t.worlds[k].classes, name))
       == LastOthers(t.actions, j + 1, k, name, OthersOn(Get(t.worlds[j].classes, name)))
  }

  lemma {:induction false} PatchRestsOnRead(t: Trace, k: nat, name: Name) returns (j: nat)
    requires Runs(t) && k < |t.worlds| && name in t.worlds[k].active && Unwritten(t.worlds[k].active[name])
    ensures ReadAt(t, j, k, name)
  {
    hide Next, Enabled, OthersOn;
    assert k > 0;
    ActionAt(t, k - 1);
    UnwrittenIsEnteredByRead(t.worlds[k - 1], t.actions[k - 1], name);
    if Unwritten(t.worlds[k - 1].active[name]) {
      j := PatchRestsOnRead(t, k - 1, name);
      OnlyEditsChangeOthers(t.worlds[k - 1], t.actions[k - 1], name);
    } else {
      j := k - 1;
    }
  }

  // A hold or a release replaces the whole list. On every run, one that lands
  // keeps the finalizers of others, also when the class goes with it, exactly
  // when what it read of them is what edits have made of them since.
  lemma OtherFinalizersKeptExactly(t: Trace, k: nat) returns (j: nat)
    requires Runs(t) && k < |t.actions| && t.actions[k].Call?
    requires t.actions[k].name in t.worlds[k].active && Patching(t.worlds[k].active[t.actions[k].name])
    requires !PatchRefused(t.worlds[k].classes, t.actions[k].name,
                           Patched(t.worlds[k].active[t.actions[k].name]), t.actions[k].fate)
    ensures ReadAt(t, j, k, t.actions[k].name)
    ensures var name := t.actions[k].name;
            var read := Others(t.actions[j].view.class'.value.finalizers);
            var there := OthersOn(Get(t.worlds[j].classes, name));
            && (OthersOn(Get(t.worlds[k + 1].classes, name)) == OthersOn(Get(t.worlds[k].classes, name))
                <==> read == LastOthers(t.actions, j + 1, k, name, there))
            && (read == there || name in t.worlds[j].queue.inFlight)
  {
    var name := t.actions[k].name;
    j := PatchRestsOnRead(t, k, name);
    ActionAt(t, k);
    ActionAt(t, j);
    PatchWritesSnapshot(t.worlds[k], t.actions[k]);
    hide Next, OthersOn, Others;
    assert t.actions[j].view.class' == Get(t.worlds[j].classes, name) || name in t.worlds[j].queue.inFlight;
    assert OthersOn(t.actions[j].view.class') == Others(t.actions[j].view.class'.value.finalizers);
  }

}
