// Runs in which somebody acts between the class controller's read and its
// patch, and what that costs.
module ClassRaces {
  import opened Api
  import opened ClassFinalizing
  import opened ClassProtocol
  import opened Listing
  import opened WorkQueue

  function Last(t: Trace): ClassWorld
    requires t.worlds != []
  {
    t.worlds[|t.worlds| - 1]
  }

  lemma Go(t: Trace, action: Action, w: ClassWorld) returns (longer: Trace)
    requires Runs(t) && t.worlds != [] && Enabled(Last(t), action) && w == Next(Last(t), action)
    ensures Runs(longer) && longer.worlds == t.worlds + [w] && longer.actions == t.actions + [action]
  {
    hide Next, Enabled;
    longer := Trace(t.worlds + [w], t.actions + [action]);
    forall i | 0 <= i < |longer.actions| ensures Follows(longer, i) {
      if i < |t.actions| {
        assert Follows(t, i);
      }
    }
  }

  lemma Begin(start: ClassWorld) returns (t: Trace)
    requires Starting(start)
    ensures Runs(t) && t == Trace([start], [])
  {
    t := Trace([start], []);
  }

  const IDLE := Queue({}, {}, {})
  const PLAIN := LocationClass("example.com/edge", false, 1, [], map[], false, [])
  const NAMING := Location(1, map[], ClassReference("c", ""), false, [])

  function Worlds(
      locations: map<Name, Location>, class': Option<LocationClass>, queue: Queue, phase: Option<ClassPhase>
    ): ClassWorld
  {
    ClassWorld(locations, Put(map[], "c", class'), queue, Put(map[], "c", phase))
  }

  lemma NamingIsIndexed()
    ensures IndexByClass(NAMING.classRef) == ["c"]
  {
  }

  // A Location created between the listing and the release is not seen: the
  // class it names is gone.
  lemma LateReferenceIsMissed() returns (t: Trace)
    ensures Runs(t) && |t.actions| == 6
    ensures "c" in t.worlds[5].classes && Holds(t.worlds[5].classes["c"].finalizers)
    ensures "l" in References(t.worlds[5].locations, "c") && "c" !in t.worlds[6].classes
  {
    var going := PLAIN.(finalizers := [FINALIZER], terminating := true);
    var start := Worlds(map[], Some(going), Queue({"c"}, {}, {}), None);
    assert Starting(start);
    t := Begin(start);
    t := Go(t, Deliver("c"), Worlds(map[], Some(going), Queue({}, {"c"}, {}), None));
    t := Go(t, Take("c", false), Worlds(map[], Some(going), IDLE, Some(ReadClass)));
    var view := ClassView(Some(going), []);
    assert References(map[], "c") == {};
    t := Go(t, Call("c", view, Succeeds), Worlds(map[], Some(going), IDLE, Some(ListReferences(going))));
    t := Go(t, Call("c", view, Succeeds), Worlds(map[], Some(going), IDLE, Some(Release(going))));
    t := LocationAppears(t, going, Release(going));
    t := ClassGoes(t, going, view);
  }

  lemma LocationAppears(t: Trace, going: LocationClass, phase: ClassPhase) returns (longer: Trace)
    requires Runs(t) && t.worlds != [] && Last(t) == Worlds(map[], Some(going), IDLE, Some(phase))
    ensures var w := Worlds(map["l" := NAMING], Some(going), Queue({"c"}, {}, {}), Some(phase));
            && Runs(longer) && longer.worlds == t.worlds + [w]
            && longer.actions == t.actions + [EditLocation("l", Some(NAMING))]
            && "l" in References(w.locations, "c")
  {
    NamingIsIndexed();
    hide IndexByClass;
    assert Indexed(Some(NAMING)) == {"c"};
    longer := Go(t, EditLocation("l", Some(NAMING)),
                 Worlds(map["l" := NAMING], Some(going), Queue({"c"}, {}, {}), Some(phase)));
  }

  lemma ClassGoes(t: Trace, going: LocationClass, view: ClassView) returns (longer: Trace)
    requires going.finalizers == [FINALIZER] && going.terminating
    requires Runs(t) && t.worlds != []
    requires Last(t) == Worlds(map["l" := NAMING], Some(going), Queue({"c"}, {}, {}), Some(Release(going)))
    ensures Runs(longer) && |longer.worlds| == |t.worlds| + 1
    ensures longer.actions == t.actions + [Call("c", view, Succeeds)]
    ensures longer.worlds[..|t.worlds|] == t.worlds && "c" !in Last(longer).classes
  {
    assert Others([FINALIZER]) == Others([FINALIZER][1..]);
    var action := Call("c", view, Succeeds);
    longer := Go(t, action, Next(Last(t), action));
  }

  // One created before the listing, which an event still in flight hides, is
  // not seen either.
  lemma OlderReferenceIsMissed() returns (t: Trace)
    ensures Runs(t) && |t.actions| == 6
    ensures t.actions[3] == EditLocation("l", Some(NAMING)) && t.actions[4].Call? && t.actions[4].view.references == []
    ensures "c" in t.worlds[5].classes && Holds(t.worlds[5].classes["c"].finalizers)
    ensures "l" in References(t.worlds[4].locations, "c") && "c" !in t.worlds[6].classes
  {
    var going := PLAIN.(finalizers := [FINALIZER], terminating := true);
    var start := Worlds(map[], Some(going), Queue({"c"}, {}, {}), None);
    assert Starting(start);
    t := Begin(start);
    t := Go(t, Deliver("c"), Worlds(map[], Some(going), Queue({}, {"c"}, {}), None));
    t := Go(t, Take("c", false), Worlds(map[], Some(going), IDLE, Some(ReadClass)));
    var view := ClassView(Some(going), []);
    assert References(map[], "c") == {};
    t := Go(t, Call("c", view, Succeeds), Worlds(map[], Some(going), IDLE, Some(ListReferences(going))));
    t := LocationAppears(t, going, ListReferences(going));
    t := Go(t, Call("c", view, Succeeds),
            Worlds(map["l" := NAMING], Some(going), Queue({"c"}, {}, {}), Some(Release(going))));
    t := ClassGoes(t, going, view);
  }

  // A finalizer another controller adds between the read and the hold is lost:
  // the patch replaces the whole list.
  lemma FinalizerOfAnotherIsLost() returns (t: Trace)
    ensures Runs(t) && |t.actions| == 6
    ensures "c" in t.worlds[5].classes && t.worlds[5].classes["c"].finalizers == ["other"]
    ensures "c" in t.worlds[6].classes && t.worlds[6].classes["c"].finalizers == [FINALIZER]
  {
    var start := Worlds(map[], None, IDLE, None);
    var shared := PLAIN.(finalizers := ["other"]);
    assert Starting(start);
    t := Begin(start);
    t := Go(t, CreateClass("c", PLAIN), Worlds(map[], Some(PLAIN), Queue({"c"}, {}, {}), None));
    t := Go(t, Deliver("c"), Worlds(map[], Some(PLAIN), Queue({}, {"c"}, {}), None));
    t := Go(t, Take("c", false), Worlds(map[], Some(PLAIN), IDLE, Some(ReadClass)));
    var view := ClassView(Some(PLAIN), []);
    assert References(map[], "c") == {};
    t := Go(t, Call("c", view, Succeeds), Worlds(map[], Some(PLAIN), IDLE, Some(Hold(PLAIN))));
    t := Go(t, EditClass("c", shared), Worlds(map[], Some(shared), Queue({"c"}, {}, {}), Some(Hold(PLAIN))));
    var held := PLAIN.(finalizers := [FINALIZER]);
    assert [] + [FINALIZER] == [FINALIZER];
    t := Go(t, Call("c", view, Succeeds), Worlds(map[], Some(held), Queue({"c"}, {}, {}), Some(FINISHED)));
  }
}
