// The publisher among everybody else: users at the source, actors on the hub,
// watches that lag, calls that fail, and a leader that may be replaced. Every
// API call is a step of its own, so anything may happen between two of them.
module Protocol {
  import opened Api
  import opened Publication
  import opened Reconciling
  import opened WorkQueue

  datatype World = World(
    source: map<Name, Location>,
    hub: Hub,
    clusters: seq<Cluster>,
    queue: Queue,
    active: map<Name, Phase>)

  datatype Action =
    // the environment
    | EditLocation(name: Name, location: Option<Location>)
    | EditCopy(name: Name, copy: Option<ServingLocation>)
    | EditPolicy(policy: Name, spec: Option<Policy>)
    | EditClusters(clusters: seq<Cluster>)
    // the machinery
    | Deliver(name: Name)
    | Fire(name: Name)
    | Take(name: Name, keepTimer: bool)
    | Restart
    // the publisher
    | Call(name: Name, view: View, fate: Fate)
    | Finish(name: Name)

  function Everybody(source: map<Name, Location>, hub: Hub): set<Name> {
    source.Keys + hub.copies.Keys
    + (set policy, name | policy in hub.policies && name in PolicyOwners(policy) :: name)
  }

  // A publisher that has just started: its informers are about to deliver an
  // event for every object there is.
  predicate Starting(w: World) {
    w.active == map[] && w.queue.dirty == {} && w.queue.timers == {}
    && Everybody(w.source, w.hub) <= w.queue.inFlight
  }

  // What a call by `name`'s worker may see. Reads go through a cache, which is
  // behind for a name only while a watch event for that name is in flight; the
  // clusters are read live. The clock and the caches are anyone's guess.
  predicate Sees(w: World, name: Name, view: View) {
    && (name !in w.queue.inFlight ==>
          view.location == Get(w.source, name) && view.copy == Get(w.hub.copies, name))
    && multiset(view.clusters) == multiset(w.clusters)
    && (view.sourceCount == 0 ==> w.source.Keys <= w.queue.inFlight)
    && (view.sourceCount > 0 ==> w.source != map[] || w.queue.inFlight != {})
    && (view.heldCount == 0 ==> Held(w.hub) <= w.queue.inFlight)
    && (view.heldCount > 0 ==> Held(w.hub) != {} || w.queue.inFlight != {})
  }

  predicate Enabled(w: World, action: Action) {
    match action
    case Deliver(name) => name in w.queue.inFlight
    case Fire(name) => name in w.queue.timers
    case Take(name, _) => name in w.queue.dirty && name !in w.active
    case Call(name, view, _) => name in w.active && !w.active[name].Returning? && Sees(w, name, view)
    case Finish(name) => name in w.active && w.active[name].Returning?
    case _ => true
  }

  function Next(config: Config, w: World, action: Action): World
    requires Enabled(w, action)
  {
    match action
    case EditLocation(name, location) =>
      w.(source := Put(w.source, name, location), queue := w.queue.Notify({name}))
    case EditCopy(name, copy) =>
      w.(hub := w.hub.(copies := Put(w.hub.copies, name, copy)), queue := w.queue.Notify({name}))
    case EditPolicy(policy, spec) =>
      w.(hub := w.hub.(policies := Put(w.hub.policies, policy, spec)), queue := w.queue.Notify(PolicyOwners(policy)))
    case EditClusters(clusters) => w.(clusters := clusters)
    case Deliver(name) => w.(queue := w.queue.Deliver(name))
    case Fire(name) => w.(queue := w.queue.Fire(name))
    case Take(name, keepTimer) => w.(queue := w.queue.Take(name, keepTimer), active := w.active[name := Start])
    case Restart => w.(queue := Queue(Everybody(w.source, w.hub), {}, {}), active := map[])
    case Call(name, view, fate) =>
      var (phase, hub) := Advance(config, name, w.active[name], w.hub, view, fate);
      w.(hub := hub, queue := w.queue.Notify(Woken(w.hub, hub)), active := w.active[name := phase])
    case Finish(name) =>
      w.(queue := w.queue.Finish(name, w.active[name].outcome), active := w.active - {name})
  }

  // A run: worlds[i + 1] follows from worlds[i] by actions[i].
  datatype Trace = Trace(worlds: seq<World>, actions: seq<Action>)

  predicate Follows(config: Config, t: Trace, i: nat)
    requires |t.worlds| == |t.actions| + 1 && i < |t.actions|
  {
    Enabled(t.worlds[i], t.actions[i]) && t.worlds[i + 1] == Next(config, t.worlds[i], t.actions[i])
  }

  ghost predicate Runs(config: Config, t: Trace) {
    && |t.worlds| == |t.actions| + 1
    && Starting(t.worlds[0])
    && forall i :: 0 <= i < |t.actions| ==> Follows(config, t, i)
  }

  lemma ActionAt(config: Config, t: Trace, i: nat)
    requires Runs(config, t) && i < |t.actions|
    ensures Enabled(t.worlds[i], t.actions[i])
    ensures t.worlds[i + 1] == Next(config, t.worlds[i], t.actions[i])
  {
    assert Follows(config, t, i);
  }

  function Last(t: Trace): World
    requires t.worlds != []
  {
    t.worlds[|t.worlds| - 1]
  }

  function Extend(config: Config, t: Trace, action: Action): Trace
    requires t.worlds != [] && Enabled(Last(t), action)
  {
    Trace(t.worlds + [Next(config, Last(t), action)], t.actions + [action])
  }

  lemma ExtendRuns(config: Config, t: Trace, action: Action)
    requires Runs(config, t) && Enabled(Last(t), action)
    ensures Runs(config, Extend(config, t, action))
    ensures Last(Extend(config, t, action)) == Next(config, Last(t), action)
  {
    hide Next, Enabled;
    var longer := Extend(config, t, action);
    forall i | 0 <= i < |longer.actions| ensures Follows(config, longer, i) {
      if i < |t.actions| {
        assert Follows(config, t, i);
      }
    }
  }

  // Extending a run to a world given outright.
  lemma Go(config: Config, t: Trace, action: Action, w: World) returns (longer: Trace)
    requires Runs(config, t) && t.worlds != [] && Enabled(Last(t), action) && w == Next(config, Last(t), action)
    ensures Runs(config, longer) && longer.worlds != [] && Last(longer) == w
    ensures longer.actions == t.actions + [action] && longer.worlds == t.worlds + [w]
  {
    longer := Extend(config, t, action);
    ExtendRuns(config, t, action);
  }

  // From i to k the name is with one and the same worker call: the same
  // reconcile.
  ghost predicate Continuous(t: Trace, i: nat, k: nat, name: Name)
    requires k < |t.worlds|
  {
    forall j :: i <= j <= k ==> name in t.worlds[j].active
  }

  // The protocol undisturbed is the atomic reconcile: when from i on only
  // `name`'s worker moves, seeing the stores as they are, it leaves the hub and
  // the outcome that `Run` computes.
  ghost predicate Undisturbed(t: Trace, i: nat, name: Name, around: Circumstances)
    requires |t.worlds| == |t.actions| + 1
  {
    forall j :: i <= j < |t.actions| ==>
      && name in t.worlds[j].active && !t.worlds[j].active[name].Returning?
      && t.actions[j] == Call(name, ViewOf(name, t.worlds[j].hub, around),
                              around.FateOf(CallOf(t.worlds[j].active[name])))
  }

  lemma UndisturbedCall(config: Config, w: World, action: Action, name: Name, around: Circumstances)
    requires Enabled(w, action) && name in w.active && !w.active[name].Returning?
    requires action == Call(name, ViewOf(name, w.hub, around), around.FateOf(CallOf(w.active[name])))
    ensures name in Next(config, w, action).active
    ensures Step(config, name, w.active[name], w.hub, around)
            == (Next(config, w, action).active[name], Next(config, w, action).hub)
  {
    hide Advance, Woken;
  }

  lemma {:induction false} UndisturbedCallsAreARun(
      config: Config, t: Trace, i: nat, name: Name, around: Circumstances)
    requires Runs(config, t) && i < |t.worlds| && Undisturbed(t, i, name, around)
    requires name in t.worlds[i].active
    requires var last := t.worlds[|t.actions|]; name in last.active && last.active[name].Returning?
    ensures var last := t.worlds[|t.actions|];
            Run(config, name, t.worlds[i].active[name], t.worlds[i].hub, around)
            == (last.active[name].outcome, last.hub)
    decreases |t.worlds| - i
  {
    if i < |t.actions| {
      hide Run, Step, Next, Enabled;
      ActionAt(config, t, i);
      var w, next := t.worlds[i], t.worlds[i + 1];
      UndisturbedCall(config, w, t.actions[i], name, around);
      RunGoesOn(config, name, w.active[name], w.hub, around, next.active[name], next.hub);
      UndisturbedCallsAreARun(config, t, i + 1, name, around);
    }
  }
}
