// The controller that accepts classes among everybody else.
module AcceptedProtocol {
  import opened Api
  import opened ClassFinalizing
  import opened Readiness
  import opened WorkQueue

  datatype AcceptWorld = AcceptWorld(classes: map<Name, LocationClass>, queue: Queue, active: map<Name, AcceptPhase>)

  datatype Action =
    // the environment
    | EditClass(name: Name, class': Option<LocationClass>)
    // the machinery
    | Deliver(name: Name)
    | Take(name: Name)
    | Restart
    // the controller
    | Call(name: Name, seen: Option<LocationClass>, now: nat, fate: Fate)
    | Finish(name: Name)

  predicate Starting(w: AcceptWorld) {
    && w.active == map[] && w.queue.dirty == {} && w.queue.timers == {}
    && w.classes.Keys <= w.queue.inFlight
  }

  predicate Enabled(w: AcceptWorld, action: Action) {
    match action
    case Deliver(name) => name in w.queue.inFlight
    case Take(name) => name in w.queue.dirty && name !in w.active
    case Call(name, seen, _, _) =>
      && name in w.active && !w.active[name].Over?
      && (name !in w.queue.inFlight ==> seen == Get(w.classes, name))
    case Finish(name) => name in w.active && w.active[name].Over?
    case _ => true
  }

  function Next(controller: string, w: AcceptWorld, action: Action): AcceptWorld
    requires Enabled(w, action)
  {
    match action
    case EditClass(name, class') => w.(classes := Put(w.classes, name, class'), queue := w.queue.Notify({name}))
    case Deliver(name) => w.(queue := w.queue.Deliver(name))
    case Take(name) => w.(queue := w.queue.Take(name, false), active := w.active[name := Look])
    case Restart => w.(queue := Queue(w.classes.Keys, {}, {}), active := map[])
    case Call(name, seen, now, fate) =>
      var (phase, classes) := AdvanceAccept(controller, name, w.active[name], w.classes, seen, now, fate);
      w.(classes := classes, active := w.active[name := phase],
         queue := if classes == w.classes then w.queue else w.queue.Notify({name}))
    case Finish(name) =>
      w.(queue := w.queue.Finish(name, w.active[name].outcome), active := w.active - {name})
  }

  datatype Trace = Trace(worlds: seq<AcceptWorld>, actions: seq<Action>)

  predicate Follows(controller: string, t: Trace, i: nat)
    requires |t.worlds| == |t.actions| + 1 && i < |t.actions|
  {
    Enabled(t.worlds[i], t.actions[i]) && t.worlds[i + 1] == Next(controller, t.worlds[i], t.actions[i])
  }

  ghost predicate Runs(controller: string, t: Trace) {
    && |t.worlds| == |t.actions| + 1
    && Starting(t.worlds[0])
    && forall i :: 0 <= i < |t.actions| ==> Follows(controller, t, i)
  }

  // ---- Acceptance ----

  // A live class naming the operator is accepted, as it is now.
  predicate AcceptedNow(controller: string, class': Option<LocationClass>) {
    class'.Some? && !class'.value.terminating && class'.value.controllerName == controller ==>
      SaysAccepted(class'.value)
  }

  predicate Progress(controller: string, class': Option<LocationClass>, phase: AcceptPhase) {
    match phase
    case Look => true
    case Accept(snapshot) => class' == Some(snapshot)
    case Over(outcome) => outcome.Failed? || AcceptedNow(controller, class')
  }

  predicate Accepting(controller: string, w: AcceptWorld, name: Name) {
    w.queue.Quiet(name) ==>
      if name in w.active then Progress(controller, Get(w.classes, name), w.active[name])
      else AcceptedNow(controller, Get(w.classes, name))
  }

  lemma CallAccepts(controller: string, w: AcceptWorld, action: Action, name: Name)
    requires Enabled(w, action) && action.Call? && Accepting(controller, w, name)
    ensures Accepting(controller, Next(controller, w, action), name)
  {
    hide SetStatusCondition, FindStatusCondition, AcceptedCondition;
    if action.name == name && w.active[name].Accept? {
      var snapshot := w.active[name].snapshot;
      UnchangedConditionStays(snapshot.conditions, AcceptedCondition(snapshot), action.now);
      AcceptedKind(snapshot);
      if w.queue.Quiet(name) && name in w.classes {
        var conditions := SetStatusCondition(snapshot.conditions, AcceptedCondition(snapshot), action.now);
        assert PatchClassConditions(w.classes, name, conditions, Succeeds) == w.classes ==>
            Get(w.classes, name) == Get(PatchClassConditions(w.classes, name, conditions, Succeeds), name);
      }
    }
  }

  lemma AcceptedKind(class': LocationClass)
    ensures AcceptedCondition(class').kind == ACCEPTED
  {
  }

  lemma NextAccepts(controller: string, w: AcceptWorld, action: Action, name: Name)
    requires Enabled(w, action) && Accepting(controller, w, name)
    ensures Accepting(controller, Next(controller, w, action), name)
  {
    hide AdvanceAccept, AcceptedNow;
    if action.Call? {
      CallAccepts(controller, w, action, name);
    } else {
      OtherActionsAccept(controller, w, action, name);
    }
  }

  lemma OtherActionsAccept(controller: string, w: AcceptWorld, action: Action, name: Name)
    requires Enabled(w, action) && !action.Call? && Accepting(controller, w, name)
    ensures Accepting(controller, Next(controller, w, action), name)
  {
    hide SaysAccepted;
  }

  lemma {:induction false} RunAccepts(controller: string, t: Trace, k: nat, name: Name)
    requires Runs(controller, t) && k < |t.worlds|
    ensures Accepting(controller, t.worlds[k], name)
  {
    hide Next, Enabled, SaysAccepted;
    if k > 0 {
      RunAccepts(controller, t, k - 1, name);
      assert Follows(controller, t, k - 1);
      NextAccepts(controller, t.worlds[k - 1], t.actions[k - 1], name);
    }
  }

  // Acceptance, over every run: a live class naming the operator, with nothing
  // outstanding, is accepted as it is now.
  lemma QuietClassesAreAccepted(controller: string, t: Trace, k: nat, name: Name)
    requires Runs(controller, t) && k < |t.worlds|
    requires t.worlds[k].queue.Quiet(name) && name !in t.worlds[k].active
    ensures AcceptedNow(controller, Get(t.worlds[k].classes, name))
    ensures var class' := Get(t.worlds[k].classes, name);
            class'.Some? && !class'.value.terminating && class'.value.controllerName == controller ==>
              TakenOn(class'.value)
  {
    RunAccepts(controller, t, k, name);
    hide TakenOn, SaysAccepted;
  }
}
