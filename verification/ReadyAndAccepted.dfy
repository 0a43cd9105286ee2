// When a Location that is Ready names a class that is Accepted: the
// documentation wants it always, the code makes it so where it can.
module ReadyAndAccepted {
  import opened Api
  import opened AcceptedProtocol
  import opened ClassFinalizing
  import opened Readiness
  import opened WorkQueue

  // A Location the operator finds Ready, and the class it is Ready by.
  predicate ReadyBy(
      controller: string, name: Name, location: Location, classes: map<Name, LocationClass>, class': Name)
  {
    var verdict := Evaluate(controller, name, location, classes);
    verdict.Claimed? && verdict.condition.status && NamesClass(location, class')
  }

  // Readiness never reads the condition: it is there exactly when its class
  // exists, names the operator, and the Location has a city code.
  lemma ReadyExactly(
      controller: string, name: Name, location: Location, classes: map<Name, LocationClass>, class': Name)
    ensures ReadyBy(controller, name, location, classes, class') <==>
            && NamesClass(location, class') && class' in classes && classes[class'].controllerName == controller
            && Lookup(location.topology, CITY_CODE_KEY) != ""
  {
    var index := IndexByClass(location.classRef);
    assert index != [] ==> index[0] in index;
  }

  const HERE := Location(1, map[CITY_CODE_KEY := "DFW"], ClassReference("c", ""), false, [])

  function Unaccepted(controller: string): LocationClass {
    LocationClass(controller, false, 1, [], map[], false, [])
  }

  // A Location that is Ready by a class nobody has accepted.
  lemma ReadyWithoutAcceptance(controller: string, name: Name)
    ensures ReadyBy(controller, name, HERE, map["c" := Unaccepted(controller)], "c")
    ensures FindStatusCondition(Unaccepted(controller).conditions, ACCEPTED) == None
  {
    ReadyExactly(controller, name, HERE, map["c" := Unaccepted(controller)], "c");
  }

  // ---- Once the class is quiet ----

  ghost predicate QuietAt(controller: string, t: Trace, k: nat, class': Name, value: LocationClass) {
    && Runs(controller, t) && k < |t.worlds|
    && t.worlds[k].queue.Quiet(class') && class' !in t.worlds[k].active
    && Get(t.worlds[k].classes, class') == Some(value)
  }

  // A Location is Ready by a class. Once the accepting controller has nothing
  // outstanding for the class, the class is sure to be accepted, on every run,
  // exactly when it is not being deleted, or says so already.
  lemma QuietReadyIsAcceptedExactly(
      controller: string, name: Name, location: Location, classes: map<Name, LocationClass>, class': Name)
    requires ReadyBy(controller, name, location, classes, class')
    ensures class' in classes
    ensures (forall t, k: nat :: QuietAt(controller, t, k, class', classes[class']) ==> SaysAccepted(classes[class']))
            <==> !classes[class'].terminating || SaysAccepted(classes[class'])
  {
    ReadyExactly(controller, name, location, classes, class');
    var value := classes[class'];
    hide SaysAccepted, Evaluate;
    if !value.terminating {
      forall t, k: nat | QuietAt(controller, t, k, class', value) ensures SaysAccepted(value) {
        QuietClassesAreAccepted(controller, t, k, class');
      }
    } else {
      var t := TerminatingClassIsLeftAlone(controller, class', value);
      assert QuietAt(controller, t, 5, class', value);
    }
  }

  function Alone(class': Name, value: Option<LocationClass>, queue: Queue, phase: Option<AcceptPhase>): AcceptWorld {
    AcceptWorld(Put(map[], class', value), queue, Put(map[], class', phase))
  }

  // A run in which a class is already being deleted when its first reconcile
  // reads it: nothing is written.
  lemma TerminatingClassIsLeftAlone(controller: string, class': Name, value: LocationClass) returns (t: Trace)
    requires value.terminating
    ensures QuietAt(controller, t, 5, class', value)
  {
    var idle := Queue({}, {}, {});
    var w0, w1 := Alone(class', None, idle, None), Alone(class', Some(value), Queue({class'}, {}, {}), None);
    var w2 := Alone(class', Some(value), Queue({}, {class'}, {}), None);
    var w3 := Alone(class', Some(value), idle, Some(Look));
    var w4 := Alone(class', Some(value), idle, Some(Over(Done(0))));
    var w5 := Alone(class', Some(value), idle, None);
    assert Next(controller, w0, EditClass(class', Some(value))) == w1;
    assert Next(controller, w1, Deliver(class')) == w2;
    assert Next(controller, w2, Take(class')) == w3;
    assert Next(controller, w3, Call(class', Some(value), 0, Succeeds)) == w4;
    assert Next(controller, w4, Finish(class')) == w5;
    t := Trace([w0, w1, w2, w3, w4, w5],
               [EditClass(class', Some(value)), Deliver(class'), Take(class'),
                Call(class', Some(value), 0, Succeeds), Finish(class')]);
    assert forall i :: 0 <= i < 5 ==> Follows(controller, t, i);
  }
}
