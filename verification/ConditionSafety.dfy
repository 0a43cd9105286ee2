// What a readiness report does to the conditions of others: it sends the whole
// list, as it read it.
module ConditionSafety {
  import opened Api
  import opened ClassFinalizing
  import opened Readiness
  import opened ReadinessProtocol
  import opened WorkQueue

  // The conditions other actors keep on the Location, in their order.
  function OtherKinds(conditions: seq<Condition>): seq<Condition> {
    if conditions == [] then []
    else if conditions[0].kind == READY then OtherKinds(conditions[1..])
    else [conditions[0]] + OtherKinds(conditions[1..])
  }

  lemma {:induction false} SetKeepsOtherKinds(conditions: seq<Condition>, condition: Condition, now: nat)
    requires condition.kind == READY
    ensures OtherKinds(SetStatusCondition(conditions, condition, now)) == OtherKinds(conditions)
  {
    var once := SetStatusCondition(conditions, condition, now);
    if conditions == [] {
      assert once[1..] == [];
    } else if conditions[0].kind == condition.kind {
      assert once[1..] == conditions[1..];
    } else {
      SetKeepsOtherKinds(conditions[1..], condition, now);
      assert once[1..] == SetStatusCondition(conditions[1..], condition, now);
    }
  }

  // What edits have made of a Location that was `first` at `since`.
  function LastEdit(
      actions: seq<Action>, since: nat, until: nat, name: Name, first: Option<Location>
    ): Option<Location>
    requires since <= until <= |actions|
    decreases until
  {
    if since == until then first
    else
      var action := actions[until - 1];
      if action.EditLocation? && action.name == name then action.location
      else LastEdit(actions, since, until - 1, name, first)
  }

  predicate Resting(phase: ReadyPhase) {
    phase.Consult? || phase.Report?
  }

  // The read a report under way rests on, and what edits since it have done.
  ghost predicate ReadAt(t: Trace, j: nat, k: nat, name: Name)
    requires |t.worlds| == |t.actions| + 1 && k < |t.worlds|
    requires name in t.worlds[k].active && Resting(t.worlds[k].active[name])
  {
    && j < k && (forall i :: j <= i <= k ==> name in t.worlds[i].active)
    && t.actions[j].Call? && t.actions[j].name == name && t.worlds[j].active[name].ReadLocation?
    && t.actions[j].view.location == Some(t.worlds[k].active[name].snapshot)
    && Get(t.worlds[k].locations, name)
       == LastEdit(t.actions, j + 1, k, name, Get(t.worlds[j].locations, name))
    && (t.worlds[k].active[name].Report? ==> t.worlds[k].active[name].condition.kind == READY)
  }

  lemma OnlyEditsTouchRested(controller: string, w: ReadyWorld, action: Action, name: Name)
    requires Enabled(w, action) && name in w.active && name in Next(controller, w, action).active
    requires Resting(w.active[name]) && Resting(Next(controller, w, action).active[name])
    ensures Next(controller, w, action).active[name].snapshot == w.active[name].snapshot
    ensures Get(Next(controller, w, action).locations, name)
            == if action.EditLocation? && action.name == name then action.location else Get(w.locations, name)
    ensures (w.active[name].Report? ==> w.active[name].condition.kind == READY) ==>
              Next(controller, w, action).active[name].Report? ==>
                Next(controller, w, action).active[name].condition.kind == READY
  {
    hide Evaluate, SetStatusCondition, FindStatusCondition, References;
    if action.Call? && action.name == name && w.active[name].Consult? {
      VerdictIsReady(controller, name, w.active[name].snapshot, action.view.classes);
    }
  }

  lemma RestingIsEnteredByRead(controller: string, w: ReadyWorld, action: Action, name: Name)
    requires Enabled(w, action) && name in Next(controller, w, action).active
    requires Resting(Next(controller, w, action).active[name])
    ensures name in w.active
    ensures || Resting(w.active[name])
            || (&& action.Call? && action.name == name && w.active[name].ReadLocation?
                && Next(controller, w, action).active[name].Consult?
                && action.view.location == Some(Next(controller, w, action).active[name].snapshot)
                && Next(controller, w, action).locations == w.locations)
  {
    hide Evaluate, SetStatusCondition, FindStatusCondition, References;
  }

  lemma {:induction false} ReportRestsOnRead(controller: string, t: Trace, k: nat, name: Name) returns (j: nat)
    requires Runs(controller, t) && k < |t.worlds| && name in t.worlds[k].active && Resting(t.worlds[k].active[name])
    ensures ReadAt(t, j, k, name)
  {
    hide Next, Enabled;
    assert k > 0;
    assert Follows(controller, t, k - 1);
    var w, action := t.worlds[k - 1], t.actions[k - 1];
    RestingIsEnteredByRead(controller, w, action, name);
    if Resting(w.active[name]) {
      j := ReportRestsOnRead(controller, t, k - 1, name);
      OnlyEditsTouchRested(controller, w, action, name);
    } else {
      j := k - 1;
    }
  }

  // The report of the name lands.
  predicate Reports(w: ReadyWorld, action: Action) {
    && action.Call? && action.name in w.active && w.active[action.name].Report?
    && ConditionChanges(w.active[action.name].snapshot.conditions, w.active[action.name].condition)
    && action.name in w.locations && !action.fate.Refused?
  }

  lemma ReportWritesSnapshot(controller: string, w: ReadyWorld, action: Action)
    requires Enabled(w, action) && Reports(w, action) && w.active[action.name].condition.kind == READY
    ensures action.name in Next(controller, w, action).locations
    ensures OtherKinds(Next(controller, w, action).locations[action.name].conditions)
            == OtherKinds(w.active[action.name].snapshot.conditions)
  {
    var phase := w.active[action.name];
    SetKeepsOtherKinds(phase.snapshot.conditions, phase.condition, action.view.now);
    hide OtherKinds, SetStatusCondition, ConditionChanges;
  }

  // On every run, a report that lands keeps the conditions of other kinds
  // exactly when what it read of them is what edits have made of them since.
  lemma OtherConditionsKeptExactly(controller: string, t: Trace, k: nat) returns (j: nat)
    requires Runs(controller, t) && k < |t.actions| && Reports(t.worlds[k], t.actions[k])
    ensures ReadAt(t, j, k, t.actions[k].name)
    ensures var name := t.actions[k].name;
            var there := LastEdit(t.actions, j + 1, k, name, Get(t.worlds[j].locations, name));
            && there.Some? && name in t.worlds[k + 1].locations
            && (OtherKinds(t.worlds[k + 1].locations[name].conditions)
                == OtherKinds(t.worlds[k].locations[name].conditions)
                <==> OtherKinds(t.actions[j].view.location.value.conditions) == OtherKinds(there.value.conditions))
            && (t.actions[j].view.location == Get(t.worlds[j].locations, name) || name in t.worlds[j].queue.inFlight)
  {
    hide Next, OtherKinds;
    var name := t.actions[k].name;
    j := ReportRestsOnRead(controller, t, k, name);
    assert Follows(controller, t, k) && Follows(controller, t, j);
    ReportWritesSnapshot(controller, t.worlds[k], t.actions[k]);
  }

  // ---- A run ----

  const HERE := Location(1, map[CITY_CODE_KEY := "DFW"], ClassReference("c", ""), false, [])
  const THEIRS := HERE.(conditions := [Condition("Drained", true, "Drained", "", 1, 0)])

  function There(location: Option<Location>, queue: Queue, phase: Option<ReadyPhase>): ReadyWorld {
    ReadyWorld(Put(map[], "l", location), map[], queue, {}, Put(map[], "l", phase))
  }

  const IDLE := Queue({}, {}, {})
  const EVENT := Queue({"l"}, {}, {})
  const CALL := Call("l", ReadyView(Some(HERE), map[], 0), Succeeds)

  function Reporting(controller: string): ReadyPhase {
    var verdict := Evaluate(controller, "l", HERE, map[]);
    if verdict.Claimed? then Report(HERE, verdict.condition) else Ended(Failed)
  }

  lemma MissingClassIsReported(controller: string)
    ensures Reporting(controller).Report? && Reporting(controller).snapshot == HERE
    ensures Reporting(controller).condition.kind == READY
    ensures Evaluate(controller, "l", HERE, map[]) == Claimed(Reporting(controller).condition)
    ensures IndexByClass(HERE.classRef) == ["c"]
  {
  }

  ghost predicate Moves(controller: string, w: ReadyWorld, action: Action, w': ReadyWorld) {
    Enabled(w, action) && w' == Next(controller, w, action)
  }

  lemma FirstSteps(controller: string)
    ensures Moves(controller, There(None, IDLE, None), EditLocation("l", Some(HERE)), There(Some(HERE), EVENT, None))
    ensures Moves(controller, There(Some(HERE), EVENT, None), Deliver("l"),
                  There(Some(HERE), Queue({}, {"l"}, {}), None))
    ensures Moves(controller, There(Some(HERE), Queue({}, {"l"}, {}), None), Take("l"),
                  There(Some(HERE), IDLE, Some(ReadLocation)))
    ensures Moves(controller, There(Some(HERE), IDLE, Some(ReadLocation)), CALL,
                  There(Some(HERE), IDLE, Some(Consult(HERE))))
  {
    hide Evaluate, SetStatusCondition;
  }

  lemma LastSteps(controller: string)
    ensures Moves(controller, There(Some(HERE), IDLE, Some(Consult(HERE))), CALL,
                  There(Some(HERE), IDLE, Some(Reporting(controller))))
    ensures Moves(controller, There(Some(HERE), IDLE, Some(Reporting(controller))), EditLocation("l", Some(THEIRS)),
                  There(Some(THEIRS), EVENT, Some(Reporting(controller))))
  {
    MissingClassIsReported(controller);
    hide Evaluate, SetStatusCondition, IndexByClass, Reporting;
  }

  lemma ReportLands(controller: string) returns (w: ReadyWorld)
    ensures var before := There(Some(THEIRS), EVENT, Some(Reporting(controller)));
            && Moves(controller, before, CALL, w) && Reports(before, CALL)
            && "l" in w.locations && OtherKinds(w.locations["l"].conditions) == []
  {
    MissingClassIsReported(controller);
    hide Evaluate, IndexByClass, Reporting;
    SetKeepsOtherKinds(HERE.conditions, Reporting(controller).condition, 0);
    w := Next(controller, There(Some(THEIRS), EVENT, Some(Reporting(controller))), CALL);
  }

  // A condition another actor sets between the read and the report is lost.
  lemma ConditionOfAnotherIsLost(controller: string) returns (t: Trace)
    ensures Runs(controller, t) && |t.actions| == 7
    ensures t.actions[5] == EditLocation("l", Some(THEIRS)) && Reports(t.worlds[6], t.actions[6])
    ensures Get(t.worlds[6].locations, "l") == Some(THEIRS) && OtherKinds(THEIRS.conditions) == THEIRS.conditions
    ensures "l" in t.worlds[7].locations && OtherKinds(t.worlds[7].locations["l"].conditions) == []
  {
    FirstSteps(controller);
    LastSteps(controller);
    var last := ReportLands(controller);
    hide Next, Enabled, Evaluate, Reporting, Reports;
    t := Trace([There(None, IDLE, None), There(Some(HERE), EVENT, None), There(Some(HERE), Queue({}, {"l"}, {}), None),
                There(Some(HERE), IDLE, Some(ReadLocation)), There(Some(HERE), IDLE, Some(Consult(HERE))),
                There(Some(HERE), IDLE, Some(Reporting(controller))),
                There(Some(THEIRS), EVENT, Some(Reporting(controller))), last],
               [EditLocation("l", Some(HERE)), Deliver("l"), Take("l"), CALL, CALL,
                EditLocation("l", Some(THEIRS)), CALL]);
    assert forall i :: 0 <= i < 7 ==> Follows(controller, t, i);
    assert THEIRS.conditions[1..] == [];
  }
}
