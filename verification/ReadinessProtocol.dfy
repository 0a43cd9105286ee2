// The readiness controller among everybody else: users editing Locations and
// classes, other operators writing conditions, two watches that lag, calls that
// fail, a leader that may be replaced.
module ReadinessProtocol {
  import opened Api
  import opened ClassFinalizing
  import opened Readiness
  import opened WorkQueue

  // `classEvents`: classes a watch event has yet to reach the cache for.
  datatype ReadyWorld = ReadyWorld(
    locations: map<Name, Location>,
    classes: map<Name, LocationClass>,
    queue: Queue,
    classEvents: set<Name>,
    active: map<Name, ReadyPhase>)

  datatype Action =
    // the environment
    | EditLocation(name: Name, location: Option<Location>)
    | EditClass(class': Name, spec: Option<LocationClass>)
    // the machinery
    | Deliver(name: Name)
    | DeliverClass(class': Name, listed: set<Name>)
    | Take(name: Name)
    | Restart
    // the controller
    | Call(name: Name, view: ReadyView, fate: Fate)
    | Finish(name: Name)

  predicate Starting(w: ReadyWorld) {
    && w.active == map[] && w.queue.dirty == {} && w.queue.timers == {}
    && w.locations.Keys <= w.queue.inFlight && w.classes.Keys <= w.classEvents
  }

  // Cached reads speak for the store unless an event for what they read is
  // still on its way.
  ghost predicate Sees(w: ReadyWorld, name: Name, view: ReadyView) {
    && (name !in w.queue.inFlight ==> view.location == Get(w.locations, name))
    && forall class' :: class' !in w.classEvents ==> Get(view.classes, class') == Get(w.classes, class')
  }

  // The list a class event is mapped through is a cached read too.
  ghost predicate ListsNaming(w: ReadyWorld, class': Name, listed: set<Name>) {
    forall name :: name !in w.queue.inFlight ==> (name in listed <==> name in References(w.locations, class'))
  }

  ghost predicate Enabled(w: ReadyWorld, action: Action) {
    match action
    case Deliver(name) => name in w.queue.inFlight
    case DeliverClass(class', listed) => class' in w.classEvents && ListsNaming(w, class', listed)
    case Take(name) => name in w.queue.dirty && name !in w.active
    case Call(name, view, _) => name in w.active && !w.active[name].Ended? && Sees(w, name, view)
    case Finish(name) => name in w.active && w.active[name].Ended?
    case _ => true
  }

  function Next(controller: string, w: ReadyWorld, action: Action): ReadyWorld
    requires action.Call? ==> action.name in w.active && !w.active[action.name].Ended?
    requires action.Finish? ==> action.name in w.active && w.active[action.name].Ended?
  {
    match action
    case EditLocation(name, location) =>
      w.(locations := Put(w.locations, name, location), queue := w.queue.Notify({name}))
    case EditClass(class', spec) =>
      w.(classes := Put(w.classes, class', spec), classEvents := w.classEvents + {class'})
    case Deliver(name) => w.(queue := w.queue.Deliver(name))
    case DeliverClass(class', listed) =>
      w.(queue := w.queue.(dirty := w.queue.dirty + listed), classEvents := w.classEvents - {class'})
    case Take(name) => w.(queue := w.queue.Take(name, false), active := w.active[name := ReadLocation])
    case Restart =>
      w.(queue := Queue(w.locations.Keys, {}, {}), classEvents := w.classes.Keys, active := map[])
    case Call(name, view, fate) =>
      var (phase, locations) := AdvanceReady(controller, name, w.active[name], w.locations, view, fate);
      w.(locations := locations, active := w.active[name := phase],
         queue := if locations == w.locations then w.queue else w.queue.Notify({name}))
    case Finish(name) =>
      w.(queue := w.queue.Finish(name, w.active[name].outcome), active := w.active - {name})
  }

  datatype Trace = Trace(worlds: seq<ReadyWorld>, actions: seq<Action>)

  ghost predicate Follows(controller: string, t: Trace, i: nat)
    requires |t.worlds| == |t.actions| + 1 && i < |t.actions|
  {
    Enabled(t.worlds[i], t.actions[i]) && t.worlds[i + 1] == Next(controller, t.worlds[i], t.actions[i])
  }

  ghost predicate Runs(controller: string, t: Trace) {
    && |t.worlds| == |t.actions| + 1
    && Starting(t.worlds[0])
    && forall i :: 0 <= i < |t.actions| ==> Follows(controller, t, i)
  }

  // ---- Agreement ----

  // The Ready condition is what the Location and its class make it now:
  // status, reason, message and observed generation.
  predicate Agreed(controller: string, name: Name, location: Option<Location>, classes: map<Name, LocationClass>) {
    location.Some? && !location.value.terminating ==>
      var verdict := Evaluate(controller, name, location.value, classes);
      verdict.Claimed? ==> Says(FindStatusCondition(location.value.conditions, READY), verdict.condition)
  }

  // Nothing has happened to the Location, nor to the class it names, that its
  // next reconcile has yet to see.
  predicate Unprovoked(w: ReadyWorld, name: Name) {
    && w.queue.Quiet(name)
    && (name in w.locations ==> forall class' :: class' in w.classEvents ==> !NamesClass(w.locations[name], class'))
  }

  predicate Progress(
      controller: string, name: Name, location: Option<Location>, classes: map<Name, LocationClass>, phase: ReadyPhase)
  {
    match phase
    case ReadLocation => true
    case Consult(snapshot) => location == Some(snapshot) && !snapshot.terminating
    case Report(snapshot, condition) =>
      && location == Some(snapshot) && condition.kind == READY
      && Evaluate(controller, name, snapshot, classes) == Claimed(condition)
    case Ended(outcome) => outcome.Failed? || Agreed(controller, name, location, classes)
  }

  predicate Reporting(controller: string, w: ReadyWorld, name: Name) {
    Unprovoked(w, name) ==>
      if name in w.active
      then Progress(controller, name, Get(w.locations, name), w.classes, w.active[name])
      else Agreed(controller, name, Get(w.locations, name), w.classes)
  }

  lemma VerdictIsReady(controller: string, name: Name, location: Location, classes: map<Name, LocationClass>)
    ensures var verdict := Evaluate(controller, name, location, classes);
            verdict.Claimed? ==> verdict.condition.kind == READY
  {
  }

  // A class change the Location does not name leaves what is known of it.
  lemma ClassFrame(
      controller: string, name: Name, location: Option<Location>,
      classes: map<Name, LocationClass>, changed: map<Name, LocationClass>, phase: ReadyPhase)
    requires location.Some? ==>
               forall class' :: NamesClass(location.value, class') ==> Get(classes, class') == Get(changed, class')
    ensures Agreed(controller, name, location, classes) == Agreed(controller, name, location, changed)
    ensures Progress(controller, name, location, classes, phase) == Progress(controller, name, location, changed, phase)
  {
    if location.Some? {
      EvaluateReadsItsClass(controller, name, location.value, classes, changed);
    }
    hide Evaluate, FindStatusCondition;
  }

  // A call that sees the truth and changes nothing keeps the reconcile's
  // knowledge true.
  lemma QuietCallProgresses(
      controller: string, name: Name, phase: ReadyPhase, locations: map<Name, Location>,
      classes: map<Name, LocationClass>, view: ReadyView, fate: Fate)
    requires !phase.Ended? && Progress(controller, name, Get(locations, name), classes, phase)
    requires view.location == Get(locations, name)
    requires name in locations ==> forall class' :: NamesClass(locations[name], class') ==>
               Get(view.classes, class') == Get(classes, class')
    requires AdvanceReady(controller, name, phase, locations, view, fate).1 == locations
    ensures Progress(controller, name, Get(locations, name), classes,
                     AdvanceReady(controller, name, phase, locations, view, fate).0)
  {
    hide Evaluate, SetStatusCondition, FindStatusCondition;
    match phase
    case ReadLocation =>
    case Consult(snapshot) =>
      EvaluateReadsItsClass(controller, name, snapshot, classes, view.classes);
      EvaluateNeedsIndex(controller, name, snapshot, classes);
      VerdictIsReady(controller, name, snapshot, classes);
    case Report(snapshot, condition) =>
      UnchangedConditionStays(snapshot.conditions, condition, view.now);
      var conditions := SetStatusCondition(snapshot.conditions, condition, view.now);
      assert locations[name := snapshot.(conditions := conditions)][name].conditions == conditions;
  }

  lemma CallKeeps(controller: string, w: ReadyWorld, action: Action, name: Name)
    requires Enabled(w, action) && action.Call? && Reporting(controller, w, name)
    ensures Reporting(controller, Next(controller, w, action), name)
  {
    hide Evaluate, SetStatusCondition, FindStatusCondition;
    var w' := Next(controller, w, action);
    if action.name != name {
      assert Get(w'.locations, name) == Get(w.locations, name);
    } else if w'.locations == w.locations && Unprovoked(w, name) {
      hide AdvanceReady, Progress;
      QuietCallProgresses(controller, name, w.active[name], w.locations, w.classes, action.view, action.fate);
    }
  }

  lemma EditClassKeeps(controller: string, w: ReadyWorld, action: Action, name: Name)
    requires action.EditClass? && Reporting(controller, w, name)
    ensures Reporting(controller, Next(controller, w, action), name)
  {
    var w' := Next(controller, w, action);
    if Unprovoked(w', name) {
      ClassFrame(controller, name, Get(w.locations, name), w.classes, w'.classes,
                 if name in w.active then w.active[name] else ReadLocation);
      hide Agreed, Progress;
      assert Unprovoked(w, name);
    }
  }

  lemma NextKeeps(controller: string, w: ReadyWorld, action: Action, name: Name)
    requires Enabled(w, action) && Reporting(controller, w, name)
    ensures Reporting(controller, Next(controller, w, action), name)
  {
    hide Evaluate, FindStatusCondition, AdvanceReady;
    if action.Call? {
      CallKeeps(controller, w, action, name);
    } else if action.EditClass? {
      EditClassKeeps(controller, w, action, name);
    }
  }

  lemma {:induction false} RunKeeps(controller: string, t: Trace, k: nat, name: Name)
    requires Runs(controller, t) && k < |t.worlds|
    ensures Reporting(controller, t.worlds[k], name)
  {
    if k > 0 {
      RunKeeps(controller, t, k - 1, name);
      assert Follows(controller, t, k - 1);
      hide Next, Enabled, Reporting;
      NextKeeps(controller, t.worlds[k - 1], t.actions[k - 1], name);
    } else {
      hide Evaluate;
    }
  }

  // What a Location with a Ready condition of its own says.
  predicate SaysReady(location: Location, status: bool, reason: string) {
    var found := FindStatusCondition(location.conditions, "Ready");
    && found.Some? && found.value.status == status && found.value.reason == reason
    && found.value.observedGeneration == location.generation
  }

  // Readiness agreement, over every run: once neither the Location nor the
  // class it names has anything outstanding, a Location this operator claims
  // says of itself exactly what it would be found to be now.
  lemma QuietLocationsAgree(controller: string, t: Trace, k: nat, name: Name)
    requires Runs(controller, t) && k < |t.worlds|
    requires Unprovoked(t.worlds[k], name) && name !in t.worlds[k].active
    ensures Agreed(controller, name, Get(t.worlds[k].locations, name), t.worlds[k].classes)
  {
    RunKeeps(controller, t, k, name);
  }

  // Read off the stores: missing class, missing city code, or Ready.
  lemma QuietLocationsSay(controller: string, t: Trace, k: nat, name: Name, class': Name)
    requires Runs(controller, t) && k < |t.worlds|
    requires Unprovoked(t.worlds[k], name) && name !in t.worlds[k].active
    requires name in t.worlds[k].locations && Refers(t.worlds[k].locations[name], class')
    requires !t.worlds[k].locations[name].terminating
    ensures var location, classes := t.worlds[k].locations[name], t.worlds[k].classes;
            if class' !in classes then SaysReady(location, false, "LocationClassNotFound")
            else classes[class'].controllerName == controller ==>
              if Lookup(location.topology, CITY_CODE_KEY) == "" then SaysReady(location, false, "MissingTopology")
              else SaysReady(location, true, "Ready")
  {
    QuietLocationsAgree(controller, t, k, name);
    VerdictExactly(controller, name, t.worlds[k].locations[name], t.worlds[k].classes, class');
    hide Evaluate, Refers, Runs, Unprovoked;
  }
}
