// The class controller among everybody else: users creating, retargeting and
// deleting Locations and classes, other controllers editing classes, watches
// that lag, calls that fail, a leader that may be replaced.
module ClassProtocol {
  import opened Api
  import opened ClassFinalizing
  import opened Listing
  import opened WorkQueue

  datatype ClassWorld = ClassWorld(
    locations: map<Name, Location>,
    classes: map<Name, LocationClass>,
    queue: Queue,
    active: map<Name, ClassPhase>)

  datatype Action =
    // the environment
    | EditLocation(name: Name, location: Option<Location>)
    | CreateClass(name: Name, class': LocationClass)
    | EditClass(name: Name, class': LocationClass)
    | DeleteClassRequest(name: Name)
    // the machinery
    | Deliver(name: Name)
    | Fire(name: Name)
    | Take(name: Name, keepTimer: bool)
    | Restart
    // the controller
    | Call(name: Name, view: ClassView, fate: Fate)
    | Finish(name: Name)

  function Indexed(location: Option<Location>): set<Name> {
    if location.None? then {} else set name | name in IndexByClass(location.value.classRef)
  }

  // enqueueLocalClass over every Location, and every class.
  function Everybody(w: ClassWorld): set<Name> {
    w.classes.Keys + (set l, name | l in w.locations && name in Indexed(Some(w.locations[l])) :: name)
  }

  predicate Starting(w: ClassWorld) {
    && w.active == map[] && w.queue.dirty == {} && w.queue.timers == {}
    && Everybody(w) <= w.queue.inFlight
    && forall name :: name in w.classes ==> Stored(w.classes[name])
  }

  // Cached reads speak for the store unless an event for the class, which a
  // change to a Location naming it also is, is still in flight.
  ghost predicate Sees(w: ClassWorld, name: Name, view: ClassView) {
    name !in w.queue.inFlight ==>
      view.class' == Get(w.classes, name) && Lists(view.references, References(w.locations, name))
  }

  // Another actor's update of a class: it may not touch this controller's
  // finalizer, cannot undo a deletion, and cannot add finalizers during one.
  predicate PermittedEdit(before: LocationClass, after: LocationClass) {
    && before.terminating == after.terminating
    && (Holds(before.finalizers) <==> Holds(after.finalizers))
    && (before.terminating ==> forall f :: f in after.finalizers ==> f in before.finalizers)
  }

  ghost predicate Enabled(w: ClassWorld, action: Action) {
    match action
    case CreateClass(name, class') => name !in w.classes && !class'.terminating
    case EditClass(name, class') => name in w.classes && PermittedEdit(w.classes[name], class')
    case Deliver(name) => name in w.queue.inFlight
    case Fire(name) => name in w.queue.timers
    case Take(name, _) => name in w.queue.dirty && name !in w.active
    case Call(name, view, _) => name in w.active && !w.active[name].Returned? && Sees(w, name, view)
    case Finish(name) => name in w.active && w.active[name].Returned?
    case _ => true
  }

  // A change to a Location wakes the class it named and the class it names now.
  function Next(w: ClassWorld, action: Action): ClassWorld
    requires action.Call? ==> action.name in w.active && !w.active[action.name].Returned?
    requires action.Finish? ==> action.name in w.active && w.active[action.name].Returned?
  {
    match action
    case EditLocation(name, location) =>
      w.(locations := Put(w.locations, name, location),
         queue := w.queue.Notify(Indexed(Get(w.locations, name)) + Indexed(location)))
    case CreateClass(name, class') =>
      w.(classes := w.classes[name := class'], queue := w.queue.Notify({name}))
    case EditClass(name, class') =>
      w.(classes := UpdateClass(w.classes, name, class'), queue := w.queue.Notify({name}))
    case DeleteClassRequest(name) =>
      w.(classes := DeleteClass(w.classes, name), queue := w.queue.Notify({name}))
    case Deliver(name) => w.(queue := w.queue.Deliver(name))
    case Fire(name) => w.(queue := w.queue.Fire(name))
    case Take(name, keepTimer) => w.(queue := w.queue.Take(name, keepTimer), active := w.active[name := ReadClass])
    case Restart => w.(queue := Queue(Everybody(w), {}, {}), active := map[])
    case Call(name, view, fate) =>
      var (phase, classes) := AdvanceClass(name, w.active[name], w.classes, view, fate);
      w.(classes := classes, active := w.active[name := phase],
         queue := if classes == w.classes then w.queue else w.queue.Notify({name}))
    case Finish(name) =>
      w.(queue := w.queue.Finish(name, w.active[name].outcome), active := w.active - {name})
  }

  datatype Trace = Trace(worlds: seq<ClassWorld>, actions: seq<Action>)

  ghost predicate Follows(t: Trace, i: nat)
    requires |t.worlds| == |t.actions| + 1 && i < |t.actions|
  {
    Enabled(t.worlds[i], t.actions[i]) && t.worlds[i + 1] == Next(t.worlds[i], t.actions[i])
  }

  ghost predicate Runs(t: Trace) {
    && |t.worlds| == |t.actions| + 1
    && Starting(t.worlds[0])
    && forall i :: 0 <= i < |t.actions| ==> Follows(t, i)
  }

  lemma ActionAt(t: Trace, i: nat)
    requires Runs(t) && i < |t.actions|
    ensures Enabled(t.worlds[i], t.actions[i])
    ensures t.worlds[i + 1] == Next(t.worlds[i], t.actions[i])
  {
    assert Follows(t, i);
  }

  ghost predicate Continuous(t: Trace, i: nat, k: nat, name: Name)
    requires k < |t.worlds|
  {
    forall j :: i <= j <= k ==> name in t.worlds[j].active
  }
}
