// When nobody interferes and nothing fails, the call-by-call protocol runs out
// of work but for its lagging reads: watches deliver when they like, workers
// take names in any order, and every write wakes its own name again.
module Quieting {
  import opened Api
  import opened Publication
  import opened Reconciling
  import opened Protocol
  import opened Listing
  import Convergence
  import Settling

  // The calls whose reads a reconcile goes by.
  predicate Reading(phase: Phase) {
    phase.Start? || phase.ReadForPublish? || phase.ReadForRemoval?
  }

  // Nobody edits, nothing fails, no timer fires and no leader goes.
  predicate Undisturbing(action: Action) {
    action.Deliver? || action.Take? || action.Finish? || (action.Call? && action.fate.Succeeds?)
  }

  // A read of a name's objects while an event for the name is on its way.
  predicate Lags(w: World, action: Action) {
    action.Call? && action.name in w.active && Reading(w.active[action.name]) && action.name in w.queue.inFlight
  }

  predicate Calm(w: World, action: Action) {
    Undisturbing(action) && !Lags(w, action)
  }

  // ---- What a reconcile that read current objects knows ----

  predicate UpToDate(copy: Option<ServingLocation>, location: Location) {
    copy.Some? && Owned(copy.value) && SameContent(copy.value, location)
  }

  function AnnotationsOf(copy: Option<ServingLocation>): map<string, string> {
    if copy.Some? then copy.value.annotations else map[]
  }

  function Refusal(clusters: seq<Cluster>, name: Name): string {
    BlockedMessage(GuardDecision(clusters, name))
  }

  predicate Knows(
      location: Option<Location>, clusters: seq<Cluster>, copy: Option<ServingLocation>, name: Name, phase: Phase)
  {
    match phase
    case Start => true
    case ReadForPublish(l) => location == Some(l) && Publishable(l)
    case ApplyCopy(l, snapshot) => location == Some(l) && Publishable(l) && snapshot == copy && !Foreign(copy)
    case ApplyPolicy(l, snapshot) =>
      location == Some(l) && Publishable(l) && UpToDate(copy, l) && AnnotationsOf(snapshot) == AnnotationsOf(copy)
    case ClearBlock(l, edited) =>
      location == Some(l) && Publishable(l) && UpToDate(copy, l) && edited == Lifted(AnnotationsOf(copy))
      && Blocked(copy.value)
    case ReadForRemoval => location.None?
    case CheckFleet(retained) => location.None? && copy == Some(retained) && Owned(retained) && !Overridden(retained)
    case RecordBlock(edited) =>
      && location.None? && copy.Some? && Owned(copy.value)
      && !Settling.RemovalAllowed(name, copy.value, clusters)
      && edited == copy.value.annotations[BLOCKED_ANNOTATION := Refusal(clusters, name)]
    case DeleteCopy(retained) =>
      && location.None? && copy == Some(retained) && Owned(retained)
      && Settling.RemovalAllowed(name, retained, clusters)
    case DeletePolicy => location.None? && copy.None?
    case Returning(outcome) => outcome.Done?
    case _ => location.None? && copy == Some(phase.retained) && Owned(phase.retained)
  }

  predicate Sound(w: World, name: Name) {
    name in w.active ==> Knows(Get(w.source, name), w.clusters, Get(w.hub.copies, name), name, w.active[name])
  }

  // ---- The changes a name's objects have left to go through ----

  function Count(b: bool): nat {
    if b then 1 else 0
  }

  predicate PlacedAsApplied(config: Config, policy: Option<Policy>, name: Name) {
    policy.Some? && AppliedPolicy(policy, config, name) == policy.value
  }

  function Changes(
      config: Config, location: Option<Location>, clusters: seq<Cluster>, hub: Hub, name: Name, deleting: bool): nat
  {
    var copy, policy := Get(hub.copies, name), Get(hub.policies, PolicyName(name));
    if location.Some? then
      if !Publishable(location.value) || Foreign(copy) then 0
      else Count(!UpToDate(copy, location.value)) + Count(!PlacedAsApplied(config, policy, name))
           + Count(copy.Some? && Blocked(copy.value))
    else if copy.None? then Count(deleting && policy.Some?)
    else if Foreign(copy) then 0
    else if Settling.RemovalAllowed(name, copy.value, clusters) then 2
    else Count(Lookup(copy.value.annotations, BLOCKED_ANNOTATION) != Refusal(clusters, name))
  }

  predicate Involved(w: World, name: Name) {
    name in w.queue.inFlight || name in w.queue.dirty || name in w.active
  }

  predicate Deleting(w: World, name: Name) {
    name in w.active && w.active[name].DeletePolicy?
  }

  // Every action about a name spends some of this, and no action adds to it.
  function Cost(config: Config, w: World, name: Name): nat {
    if !Involved(w, name) then 0
    else
      13 * Changes(config, Get(w.source, name), w.clusters, w.hub, name, Deleting(w, name))
      + 13 * Count(name in w.queue.inFlight) + 12 * Count(name in w.queue.dirty)
      + if name in w.active then w.active[name].CallsLeft() + 2 else 0
  }

  const MOST := 75

  lemma CostIsBounded(config: Config, w: World, name: Name)
    ensures Cost(config, w, name) <= MOST
  {
    hide Publishable, GuardDecision, AppliedPolicy;
  }

  // ---- One call ----

  lemma PublishCallSpends(
      config: Config, location: Location, clusters: seq<Cluster>, hub: Hub, name: Name, phase: Phase, view: View)
    requires phase.ApplyCopy? || phase.ApplyPolicy? || phase.ClearBlock?
    requires Knows(Some(location), clusters, Get(hub.copies, name), name, phase) && CityCodeTrimmed(location)
    ensures var (next, hub') := Advance(config, name, phase, hub, view, Succeeds);
            && Knows(Some(location), clusters, Get(hub'.copies, name), name, next)
            && Changes(config, Some(location), clusters, hub', name, false) + Count(hub' != hub)
               <= Changes(config, Some(location), clusters, hub, name, false)
  {
    hide GuardDecision, Publishable, CityCode, DesiredPolicySpec;
    var copy, policy := Get(hub.copies, name), Get(hub.policies, PolicyName(name));
    match phase
    case ApplyCopy(_, _) =>
      if UpToDate(copy, location) {
        var applied := AppliedCopy(copy, location, copy.value.publishedAt);
        assert applied.labels == copy.value.labels;
        assert hub.copies[name := applied] == hub.copies;
      }
    case ApplyPolicy(_, snapshot) =>
      Settling.AppliedPolicyTwice(policy, config, name);
      var applied := AppliedPolicy(policy, config, name);
      if PlacedAsApplied(config, policy, name) {
        assert hub.policies[PolicyName(name) := applied] == hub.policies;
      }
    case ClearBlock(_, edited) =>
  }

  lemma RemovalReadsSpend(config: Config, clusters: seq<Cluster>, hub: Hub, name: Name, phase: Phase, view: View)
    requires phase.AwaitCaches? || phase.ListSource? || phase.ListHeld? || phase.CheckFleet?
    requires Knows(None, clusters, Get(hub.copies, name), name, phase) && multiset(view.clusters) == multiset(clusters)
    ensures var (next, hub') := Advance(config, name, phase, hub, view, Succeeds);
            Knows(None, clusters, Get(hub'.copies, name), name, next) && hub' == hub && !next.DeletePolicy?
  {
    hide GuardDecision, BlockedMessage, Publishable, AppliedCopy, AppliedPolicy;
    GuardCanonical(view.clusters, clusters, name);
  }

  lemma RemovalWritesSpend(config: Config, clusters: seq<Cluster>, hub: Hub, name: Name, phase: Phase, view: View)
    requires phase.RecordBlock? || phase.DeleteCopy? || phase.DeletePolicy?
    requires Knows(None, clusters, Get(hub.copies, name), name, phase)
    ensures var (next, hub') := Advance(config, name, phase, hub, view, Succeeds);
            && Knows(None, clusters, Get(hub'.copies, name), name, next)
            && Changes(config, None, clusters, hub', name, next.DeletePolicy?) + Count(hub' != hub)
               <= Changes(config, None, clusters, hub, name, phase.DeletePolicy?)
  {
    hide GuardDecision, BlockedMessage, Publishable, AppliedCopy, AppliedPolicy;
    match phase
    case RecordBlock(edited) =>
      var copy := hub.copies[name];
      if Lookup(copy.annotations, BLOCKED_ANNOTATION) == Refusal(clusters, name) {
        assert |Refusal(clusters, name)| > 0 by {
          RefusalSpeaks(clusters, name);
        }
        assert PatchedAnnotations(copy.annotations, edited) == copy.annotations;
        assert hub.copies[name := copy] == hub.copies;
      }
    case DeleteCopy(_) =>
    case DeletePolicy =>
      if PolicyName(name) !in hub.policies {
        assert hub.policies - {PolicyName(name)} == hub.policies;
      }
      assert name !in hub.copies;
  }

  lemma RefusalSpeaks(clusters: seq<Cluster>, name: Name)
    ensures |Refusal(clusters, name)| > 0
  {
    hide GuardDecision;
  }

  lemma ReadsSpend(
      config: Config, location: Option<Location>, clusters: seq<Cluster>, hub: Hub, name: Name,
      phase: Phase, view: View)
    requires Reading(phase) && Knows(location, clusters, Get(hub.copies, name), name, phase)
    requires view.location == location && view.copy == Get(hub.copies, name)
    ensures var (next, hub') := Advance(config, name, phase, hub, view, Succeeds);
            Knows(location, clusters, Get(hub'.copies, name), name, next) && hub' == hub && !next.DeletePolicy?
  {
    hide GuardDecision, BlockedMessage, Publishable, AppliedCopy, AppliedPolicy;
  }

  // A calm call leaves the reconcile knowing, and every change it makes to the
  // hub is one its name had left.
  lemma CallSpends(config: Config, w: World, action: Action, name: Name)
    requires Enabled(w, action) && Calm(w, action) && action.Call? && action.name == name
    requires Sound(w, name) && Settling.TrimmedOrUnpublishable(w.source, name)
    ensures var (next, hub') := Advance(config, name, w.active[name], w.hub, action.view, action.fate);
            && Knows(Get(w.source, name), w.clusters, Get(hub'.copies, name), name, next)
            && Changes(config, Get(w.source, name), w.clusters, hub', name, next.DeletePolicy?) + Count(hub' != w.hub)
               <= Changes(config, Get(w.source, name), w.clusters, w.hub, name, w.active[name].DeletePolicy?)
  {
    hide Advance, Changes, Publishable, CityCodeTrimmed;
    var phase, location := w.active[name], Get(w.source, name);
    if Reading(phase) {
      ReadsSpend(config, location, w.clusters, w.hub, name, phase, action.view);
    } else if phase.ApplyCopy? || phase.ApplyPolicy? || phase.ClearBlock? {
      PublishCallSpends(config, location.value, w.clusters, w.hub, name, phase, action.view);
      assert !Advance(config, name, phase, w.hub, action.view, action.fate).0.DeletePolicy?;
    } else if phase.RecordBlock? || phase.DeleteCopy? || phase.DeletePolicy? {
      RemovalWritesSpend(config, w.clusters, w.hub, name, phase, action.view);
    } else {
      RemovalReadsSpend(config, w.clusters, w.hub, name, phase, action.view);
    }
  }

  // ---- One action ----

  // A reconcile that rests on an old read may still write anything; every call
  // brings it closer to its end.
  function UnsoundCost(w: World, name: Name): nat {
    56 + 13 * Count(name in w.queue.inFlight) + 12 * Count(name in w.queue.dirty)
    + if name in w.active then 27 * w.active[name].CallsLeft() else 0
  }

  // What a name may still spend on actions, unless it lags again.
  function Budget(config: Config, w: World, name: Name): nat {
    if Sound(w, name) then Cost(config, w, name) else UnsoundCost(w, name)
  }

  const MOST_UNSOUND := 330

  lemma BudgetIsBounded(config: Config, w: World, name: Name)
    ensures Budget(config, w, name) <= if Involved(w, name) then MOST_UNSOUND else 0
    ensures Sound(w, name) ==> Budget(config, w, name) <= MOST
  {
    hide Changes, Knows;
    CostIsBounded(config, w, name);
  }

  lemma SoundCallSpends(config: Config, w: World, action: Action)
    requires Enabled(w, action) && Calm(w, action) && action.Call?
    requires Sound(w, action.name) && Settling.TrimmedOrUnpublishable(w.source, action.name)
    ensures Sound(Next(config, w, action), action.name)
    ensures Cost(config, Next(config, w, action), action.name) < Cost(config, w, action.name)
  {
    hide Advance, Changes, Knows, Woken, Sees, Settling.TrimmedOrUnpublishable;
    var name, phase := action.name, w.active[action.name];
    var hub' := Advance(config, name, phase, w.hub, action.view, action.fate).1;
    CallSpends(config, w, action, name);
    AdvanceProgresses(config, name, phase, w.hub, action.view, action.fate);
    AdvanceIsLocal(config, name, phase, w.hub, action.view, action.fate);
    LocalWritesWake(w.hub, hub', name);
  }

  lemma ChangesAreFew(
      config: Config, location: Option<Location>, clusters: seq<Cluster>, hub: Hub, name: Name, deleting: bool)
    ensures Changes(config, location, clusters, hub, name, deleting) <= 3
  {
    hide UpToDate, PlacedAsApplied, Refusal, Settling.RemovalAllowed;
  }

  // From an old read every call still spends, wherever it leads.
  lemma UnsoundCallSpends(config: Config, w: World, action: Action)
    requires Enabled(w, action) && Undisturbing(action) && action.Call? && !Sound(w, action.name)
    ensures Budget(config, Next(config, w, action), action.name) < Budget(config, w, action.name)
  {
    hide Advance, Changes, Knows, Woken, Sees;
    var name, phase, w' := action.name, w.active[action.name], Next(config, w, action);
    AdvanceProgresses(config, name, phase, w.hub, action.view, action.fate);
    AdvanceIsLocal(config, name, phase, w.hub, action.view, action.fate);
    LocalWritesWake(w.hub, w'.hub, name);
    ChangesAreFew(config, Get(w'.source, name), w'.clusters, w'.hub, name, Deleting(w', name));
  }

  lemma OwnActionSpends(config: Config, w: World, action: Action)
    requires Enabled(w, action) && Undisturbing(action) && !action.Call?
    ensures Sound(w, action.name) ==> Sound(Next(config, w, action), action.name)
    ensures Budget(config, Next(config, w, action), action.name) < Budget(config, w, action.name)
  {
    hide Changes;
    ChangesAreFew(config, Get(w.source, action.name), w.clusters, w.hub, action.name, false);
  }

  lemma OtherActionsSpendNothing(config: Config, w: World, action: Action, name: Name)
    requires Enabled(w, action) && Undisturbing(action) && action.name != name
    ensures Sound(Next(config, w, action), name) == Sound(w, name)
    ensures Budget(config, Next(config, w, action), name) == Budget(config, w, name)
  {
    hide Advance, Knows, Woken, Sees, UpToDate, PlacedAsApplied, Refusal, Settling.RemovalAllowed;
    if action.Call? {
      var hub' := Next(config, w, action).hub;
      AdvanceIsLocal(config, action.name, w.active[action.name], w.hub, action.view, action.fate);
      LocalWritesWake(w.hub, hub', action.name);
      ElsewhereKeepsOthers(w.hub, hub', action.name, name);
    }
  }

  // A lagging read may give its name a whole new budget; every other action
  // spends some of what there is.
  lemma ActionSpendsOwn(config: Config, w: World, action: Action)
    requires Enabled(w, action) && Undisturbing(action) && Settling.TrimmedOrUnpublishable(w.source, action.name)
    ensures Budget(config, Next(config, w, action), action.name) + 1
            <= Budget(config, w, action.name) + if Lags(w, action) then MOST_UNSOUND + 1 else 0
    ensures Sound(w, action.name) && !Lags(w, action) ==> Sound(Next(config, w, action), action.name)
  {
    hide Next, Enabled, Sound, Cost, UnsoundCost, Settling.TrimmedOrUnpublishable;
    BudgetIsBounded(config, Next(config, w, action), action.name);
    if !action.Call? {
      OwnActionSpends(config, w, action);
    } else if !Sound(w, action.name) {
      UnsoundCallSpends(config, w, action);
    } else if !Lags(w, action) {
      SoundCallSpends(config, w, action);
    }
  }

  // ---- Whole runs ----

  ghost predicate UndisturbedFrom(t: Trace, i: nat, k: nat)
    requires |t.worlds| == |t.actions| + 1 && k <= |t.actions|
  {
    forall j :: i <= j < k ==> Undisturbing(t.actions[j])
  }

  ghost predicate CalmFrom(t: Trace, i: nat, k: nat)
    requires |t.worlds| == |t.actions| + 1 && k <= |t.actions|
  {
    forall j :: i <= j < k ==> Calm(t.worlds[j], t.actions[j])
  }

  // How many of the actions from i to k are lagging reads.
  function Lagging(t: Trace, i: nat, k: nat): nat
    requires |t.worlds| == |t.actions| + 1 && i <= k <= |t.actions|
    decreases k
  {
    if i == k then 0 else Lagging(t, i, k - 1) + Count(Lags(t.worlds[k - 1], t.actions[k - 1]))
  }

  lemma {:induction false} LagsAreActions(t: Trace, i: nat, k: nat)
    requires |t.worlds| == |t.actions| + 1 && i <= k <= |t.actions|
    ensures Lagging(t, i, k) <= k - i
    decreases k
  {
    if i < k {
      LagsAreActions(t, i, k - 1);
    }
  }

  function TotalBudget(config: Config, w: World, names: seq<Name>): nat {
    if names == [] then 0 else Budget(config, w, names[0]) + TotalBudget(config, w, names[1..])
  }

  lemma {:induction false} ActionSpends(config: Config, w: World, action: Action, names: seq<Name>)
    requires Enabled(w, action) && Undisturbing(action)
    requires Settling.TrimmedOrUnpublishable(w.source, action.name)
    requires forall i, j :: 0 <= i < j < |names| ==> names[i] != names[j]
    ensures TotalBudget(config, Next(config, w, action), names) + Count(action.name in names)
            <= TotalBudget(config, w, names)
               + if action.name in names && Lags(w, action) then MOST_UNSOUND + 1 else 0
  {
    hide Next, Enabled, Sound, Budget, Settling.TrimmedOrUnpublishable, Lags;
    if names != [] {
      ActionSpends(config, w, action, names[1..]);
      assert names == [names[0]] + names[1..];
      assert names[0] !in names[1..];
      if action.name != names[0] {
        OtherActionsSpendNothing(config, w, action, names[0]);
      } else {
        ActionSpendsOwn(config, w, action);
      }
    }
  }

  lemma {:induction false} TotalIsBounded(config: Config, w: World, names: seq<Name>)
    ensures TotalBudget(config, w, names) <= MOST_UNSOUND * |names|
    ensures (forall name :: name in names ==> Sound(w, name)) ==> TotalBudget(config, w, names) <= MOST * |names|
  {
    hide Budget, Sound;
    if names != [] {
      TotalIsBounded(config, w, names[1..]);
      BudgetIsBounded(config, w, names[0]);
      assert names == [names[0]] + names[1..];
    }
  }

  // Undisturbing actions involve nobody new, and leave the source alone.
  lemma NobodyJoins(config: Config, w: World, action: Action, name: Name)
    requires Enabled(w, action) && Undisturbing(action)
    ensures Involved(w, action.name) && Next(config, w, action).source == w.source
    ensures Involved(Next(config, w, action), name) ==> Involved(w, name)
  {
    hide Advance, Woken, Sees;
    if action.Call? {
      AdvanceIsLocal(config, action.name, w.active[action.name], w.hub, action.view, action.fate);
      LocalWritesWake(w.hub, Next(config, w, action).hub, action.name);
    }
  }

  lemma {:induction false} UndisturbedRunSpends(config: Config, t: Trace, i: nat, k: nat, names: seq<Name>)
    requires Runs(config, t) && i <= k <= |t.actions| && UndisturbedFrom(t, i, k)
    requires Lists(names, Involving(t.worlds[i]))
    requires forall name :: Involved(t.worlds[i], name) ==> Settling.TrimmedOrUnpublishable(t.worlds[i].source, name)
    ensures forall name :: Involved(t.worlds[k], name) ==> Involved(t.worlds[i], name)
    ensures t.worlds[k].source == t.worlds[i].source
    ensures k - i + TotalBudget(config, t.worlds[k], names)
            <= TotalBudget(config, t.worlds[i], names) + (MOST_UNSOUND + 1) * Lagging(t, i, k)
    decreases k
  {
    hide Next, Enabled, Lags, Settling.TrimmedOrUnpublishable, Involved, TotalBudget, Starting, Follows;
    if i < k {
      UndisturbedRunSpends(config, t, i, k - 1, names);
      var w, action := t.worlds[k - 1], t.actions[k - 1];
      ActionAt(config, t, k - 1);
      NobodyJoins(config, w, action, action.name);
      InvolvingAreInvolved(t.worlds[i], action.name);
      ActionSpends(config, w, action, names);
      forall name | Involved(t.worlds[k], name) ensures Involved(t.worlds[i], name) {
        NobodyJoins(config, w, action, name);
      }
    }
  }

  function Involving(w: World): set<Name> {
    w.queue.inFlight + w.queue.dirty + w.active.Keys
  }

  lemma InvolvingAreInvolved(w: World, name: Name)
    ensures name in Involving(w) <==> Involved(w, name)
  {
  }

  // Self-triggering settles on the protocol itself, but for lagging reads. From
  // any world of any run, also one in which reconciles rest on old reads, an
  // undisturbed run has at most 330 actions a name, and 331 for each read that
  // lags, in whatever order watches, workers and calls move. As the lagging
  // reads are among the actions, undisturbed runs are bounded exactly when the
  // lagging reads in them are.
  lemma UndisturbedRunsAreAsLongAsTheyLag(config: Config, t: Trace, i: nat, k: nat)
    requires Runs(config, t) && i <= k <= |t.actions| && UndisturbedFrom(t, i, k)
    requires forall name :: Involved(t.worlds[i], name) ==> Settling.TrimmedOrUnpublishable(t.worlds[i].source, name)
    ensures Lagging(t, i, k) <= k - i
    ensures k - i <= MOST_UNSOUND * |Involving(t.worlds[i])| + (MOST_UNSOUND + 1) * Lagging(t, i, k)
  {
    hide Starting, Follows, Settling.TrimmedOrUnpublishable, TotalBudget, UndisturbedFrom;
    LagsAreActions(t, i, k);
    var names := SomeListing(Involving(t.worlds[i]));
    UndisturbedRunSpends(config, t, i, k, names);
    TotalIsBounded(config, t.worlds[i], names);
  }

  lemma {:induction false} CalmRunsDoNotLag(t: Trace, i: nat, k: nat)
    requires |t.worlds| == |t.actions| + 1 && i <= k <= |t.actions| && CalmFrom(t, i, k)
    ensures Lagging(t, i, k) == 0 && UndisturbedFrom(t, i, k)
    decreases k
  {
    if i < k {
      CalmRunsDoNotLag(t, i, k - 1);
    }
  }

  // So with reads that do not lag every undisturbed run ends, and within 75
  // actions a name if no reconcile rests on an old read to begin with.
  lemma CalmRunsEnd(config: Config, t: Trace, i: nat, k: nat)
    requires Runs(config, t) && i <= k <= |t.actions| && CalmFrom(t, i, k)
    requires forall name :: Involved(t.worlds[i], name) ==> Settling.TrimmedOrUnpublishable(t.worlds[i].source, name)
    ensures k - i <= MOST_UNSOUND * |Involving(t.worlds[i])|
    ensures (forall name :: Involved(t.worlds[i], name) ==> Sound(t.worlds[i], name)) ==>
              k - i <= MOST * |Involving(t.worlds[i])|
  {
    hide Starting, Follows, Sound, Settling.TrimmedOrUnpublishable, TotalBudget, CalmFrom, UndisturbedFrom;
    CalmRunsDoNotLag(t, i, k);
    var names := SomeListing(Involving(t.worlds[i]));
    assert forall name :: name in names ==> Involved(t.worlds[i], name);
    UndisturbedRunSpends(config, t, i, k, names);
    TotalIsBounded(config, t.worlds[i], names);
  }

  // While a name is involved there is a calm action to take for it.
  lemma SomethingToDo(w: World, name: Name) returns (action: Action)
    requires Involved(w, name)
    ensures Enabled(w, action) && Calm(w, action) && action.name == name
  {
    if name in w.queue.inFlight {
      action := Deliver(name);
    } else if name !in w.active {
      action := Take(name, false);
    } else if w.active[name].Returning? {
      action := Finish(name);
    } else {
      action := Call(name, View(Get(w.source, name), Get(w.hub.copies, name), |w.source|, |Held(w.hub)|,
                                w.clusters, 0, true), Succeeds);
    }
  }

  // So a calm run that can go no further has left every name quiet, and with
  // that converged.
  lemma CalmRunsEndQuiet(config: Config, t: Trace, k: nat, name: Name)
    requires Runs(config, t) && k < |t.worlds|
    requires forall action :: Enabled(t.worlds[k], action) ==> !Calm(t.worlds[k], action)
    ensures t.worlds[k].queue.Quiet(name) && name !in t.worlds[k].active
    ensures Convergence.Converged(
              config, Get(t.worlds[k].source, name), t.worlds[k].hub, name, name in t.worlds[k].queue.timers)
  {
    if Involved(t.worlds[k], name) {
      var action := SomethingToDo(t.worlds[k], name);
    }
    hide Enabled, Calm;
    Convergence.QuiescenceMeansConvergence(config, t, k, name);
  }
}
