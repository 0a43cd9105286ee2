// Whether a Location is Ready, and who may say so.
module Readiness {
  import opened Api
  import opened ClassFinalizing
  import Publication
  import Text

  const READY := "Ready"
  const ACCEPTED := "Accepted"

  // ---- Conditions ----

  // meta.SetStatusCondition: the first condition of the kind is updated in
  // place, its transition time only with its status; else one is appended.
  function SetStatusCondition(conditions: seq<Condition>, condition: Condition, now: nat): seq<Condition> {
    if conditions == [] then [condition.(transitioned := now)]
    else if conditions[0].kind == condition.kind then
      var since := if conditions[0].status == condition.status then conditions[0].transitioned else now;
      [condition.(transitioned := since)] + conditions[1..]
    else [conditions[0]] + SetStatusCondition(conditions[1..], condition, now)
  }

  function FindStatusCondition(conditions: seq<Condition>, kind: string): Option<Condition> {
    if conditions == [] then None
    else if conditions[0].kind == kind then Some(conditions[0])
    else FindStatusCondition(conditions[1..], kind)
  }

  // Two conditions that say the same, whenever they began to.
  predicate Says(found: Option<Condition>, condition: Condition) {
    found.Some? && found.value.(transitioned := 0) == condition.(transitioned := 0)
  }

  lemma {:induction false} SetConditionSays(conditions: seq<Condition>, condition: Condition, now: nat)
    ensures Says(FindStatusCondition(SetStatusCondition(conditions, condition, now), condition.kind), condition)
    ensures forall kind :: kind != condition.kind ==>
              FindStatusCondition(SetStatusCondition(conditions, condition, now), kind)
              == FindStatusCondition(conditions, kind)
  {
    if conditions != [] && conditions[0].kind != condition.kind {
      SetConditionSays(conditions[1..], condition, now);
    }
  }

  // The time a condition keeps is when its status last changed.
  lemma {:induction false} SetConditionTimes(conditions: seq<Condition>, condition: Condition, now: nat)
    ensures var before := FindStatusCondition(conditions, condition.kind);
            var after := FindStatusCondition(SetStatusCondition(conditions, condition, now), condition.kind);
            && after.Some?
            && after.value.transitioned
               == if before.Some? && before.value.status == condition.status then before.value.transitioned else now
  {
    if conditions != [] && conditions[0].kind != condition.kind {
      SetConditionTimes(conditions[1..], condition, now);
    }
  }

  // The return value of SetStatusCondition: whether it changed anything.
  predicate ConditionChanges(conditions: seq<Condition>, condition: Condition) {
    !Says(FindStatusCondition(conditions, condition.kind), condition)
  }

  lemma {:induction false} UnchangedConditionStays(conditions: seq<Condition>, condition: Condition, now: nat)
    ensures ConditionChanges(conditions, condition) <==> SetStatusCondition(conditions, condition, now) != conditions
  {
    if conditions != [] && conditions[0].kind != condition.kind {
      UnchangedConditionStays(conditions[1..], condition, now);
      assert SetStatusCondition(conditions, condition, now)[1..]
             == SetStatusCondition(conditions[1..], condition, now);
    } else if conditions != [] {
      assert conditions == [conditions[0]] + conditions[1..];
      assert SetStatusCondition(conditions, condition, now)[0].kind == conditions[0].kind;
    }
  }

  // ---- Evaluating ----

  datatype Verdict = Unclaimed | Claimed(condition: Condition)

  function ReadyCondition(location: Location, status: bool, reason: string, message: string): Condition {
    Condition(READY, status, reason, message, location.generation, 0)
  }

  function Quote(s: string): string {
    "\"" + s + "\""
  }

  function Evaluate(controller: string, name: Name, location: Location, classes: map<Name, LocationClass>): Verdict {
    var classNames := IndexByClass(location.classRef);
    if classNames == [] then Unclaimed
    else
      var className := classNames[0];
      if className !in classes then
        Claimed(ReadyCondition(
          location, false, "LocationClassNotFound",
          "LocationClass " + Quote(className) + " does not exist in this control plane"))
      else if classes[className].controllerName != controller then Unclaimed
      else if Lookup(location.topology, CITY_CODE_KEY) == "" then
        Claimed(ReadyCondition(
          location, false, "MissingTopology",
          "Location " + Quote(name) + " carries no " + CITY_CODE_KEY + ", so it cannot be placed or published"))
      else
        Claimed(ReadyCondition(location, true, READY, "Backed by LocationClass " + Quote(className)))
  }

  // The class a reference to this control plane names.
  predicate Refers(location: Location, class': Name) {
    Text.Blank(location.classRef.project) && Text.TrimSpace(location.classRef.name) == class' && class' != ""
  }

  // What the verdict is: nobody's without a local reference or with another
  // operator's class; otherwise Ready, of this generation, and true exactly when
  // the class exists and the city code is there, with the reason saying which
  // is missing.
  lemma VerdictExactly(
      controller: string, name: Name, location: Location, classes: map<Name, LocationClass>, class': Name)
    requires Refers(location, class')
    ensures var verdict := Evaluate(controller, name, location, classes);
            var missing, coded := class' !in classes, Lookup(location.topology, CITY_CODE_KEY) != "";
            && (verdict.Unclaimed? <==> !missing && classes[class'].controllerName != controller)
            && (verdict.Claimed? ==>
                  && verdict.condition.kind == "Ready" && verdict.condition.observedGeneration == location.generation
                  && (verdict.condition.status <==> !missing && coded)
                  && verdict.condition.reason
                     == (if missing then "LocationClassNotFound" else if coded then "Ready" else "MissingTopology")
                  && verdict.condition.message
                     == (if missing then "LocationClass " + Quote(class') + " does not exist in this control plane"
                         else if coded then "Backed by LocationClass " + Quote(class')
                         else "Location " + Quote(name) + " carries no " + CITY_CODE_KEY
                              + ", so it cannot be placed or published"))
  {
    IndexByClassExactly(location.classRef, class');
    hide Text.TrimSpace, Text.Blank;
  }

  lemma ClaimNeedsReference(controller: string, name: Name, location: Location, classes: map<Name, LocationClass>)
    returns (class': Name)
    requires Evaluate(controller, name, location, classes).Claimed?
    ensures Refers(location, class')
  {
    class' := IndexByClass(location.classRef)[0];
    IndexByClassExactly(location.classRef, class');
  }

  predicate Elsewhere(a: map<Name, LocationClass>, b: map<Name, LocationClass>, class': Name) {
    forall name :: name in a.Keys + b.Keys && name != class' ==> Get(a, name) == Get(b, name)
  }

  // Two values of a class that a Location naming it is judged differently for.
  lemma ClassMatters(
      controller: string, name: Name, location: Location, classes: map<Name, LocationClass>, class': Name)
    returns (changed: map<Name, LocationClass>)
    requires NamesClass(location, class')
    ensures Elsewhere(classes, changed, class')
    ensures Evaluate(controller, name, location, changed) != Evaluate(controller, name, location, classes)
  {
    if class' in classes {
      changed := classes - {class'};
      assert Evaluate(controller, name, location, changed).condition.reason == "LocationClassNotFound";
    } else {
      var other := LocationClass(controller + "x", false, 1, [], map[], false, []);
      changed := classes[class' := other];
      assert |other.controllerName| == |controller| + 1;
    }
  }

  // One reference relation everywhere: the Locations a class change can alter
  // the verdict of are exactly those indexed under the class, which are those
  // that block its deletion and those its events wake.
  lemma VerdictDependsOnReferencedClassExactly(
      controller: string, locations: map<Name, Location>, name: Name, classes: map<Name, LocationClass>, class': Name)
    requires name in locations
    ensures
      name in References(locations, class') <==>
      exists changed :: Elsewhere(classes, changed, class')
                        && Evaluate(controller, name, locations[name], changed)
                           != Evaluate(controller, name, locations[name], classes)
  {
    var location := locations[name];
    if NamesClass(location, class') {
      var changed := ClassMatters(controller, name, location, classes, class');
    } else {
      forall changed | Elsewhere(classes, changed, class')
        ensures Evaluate(controller, name, location, changed) == Evaluate(controller, name, location, classes)
      {
        EvaluateFrame(controller, name, location, classes, changed, class');
      }
    }
  }

  lemma EvaluateFrame(
      controller: string, name: Name, location: Location,
      classes: map<Name, LocationClass>, changed: map<Name, LocationClass>, class': Name)
    requires Elsewhere(classes, changed, class') && !NamesClass(location, class')
    ensures Evaluate(controller, name, location, changed) == Evaluate(controller, name, location, classes)
  {
    var index := IndexByClass(location.classRef);
    if index != [] {
      assert index[0] in index && index[0] != class';
      EvaluateReadsItsClass(controller, name, location, classes, changed);
    }
  }

  lemma EvaluateReadsItsClass(
      controller: string, name: Name, location: Location,
      classes: map<Name, LocationClass>, changed: map<Name, LocationClass>)
    requires forall class' :: NamesClass(location, class') ==> Get(classes, class') == Get(changed, class')
    ensures Evaluate(controller, name, location, changed) == Evaluate(controller, name, location, classes)
  {
    var index := IndexByClass(location.classRef);
    if index != [] {
      assert NamesClass(location, index[0]);
      assert Get(classes, index[0]) == Get(changed, index[0]);
    }
  }

  // Readiness tests the city code as written, publishing tests it trimmed: they
  // disagree exactly on a code that is nothing but white space.
  lemma ReadyButUnpublishableExactly(
      controller: string, name: Name, location: Location, classes: map<Name, LocationClass>)
    requires Evaluate(controller, name, location, classes).Claimed?
    ensures
      Evaluate(controller, name, location, classes).condition.status && !Publication.Publishable(location) <==>
      && (exists class' :: class' in classes && NamesClass(location, class'))
      && Lookup(location.topology, CITY_CODE_KEY) != ""
      && Text.TrimSpace(Lookup(location.topology, CITY_CODE_KEY)) == ""
  {
    hide Text.TrimSpace;
    var index := IndexByClass(location.classRef);
    assert index[0] in index;
  }

  // ---- A reconcile, call by call ----

  datatype ReadyPhase =
    | ReadLocation
    | Consult(snapshot: Location)
    | Report(snapshot: Location, condition: Condition)
    | Ended(outcome: Outcome)
  {
    function CallsLeft(): nat {
      match this
      case ReadLocation => 3
      case Consult(_) => 2
      case Report(_, _) => 1
      case Ended(_) => 0
    }
  }

  datatype ReadyView = ReadyView(location: Option<Location>, classes: map<Name, LocationClass>, now: nat)

  // A merge patch of the status replaces the whole list of conditions with the
  // one made from the snapshot.
  function PatchConditions(
      locations: map<Name, Location>, name: Name, conditions: seq<Condition>, fate: Fate
    ): map<Name, Location>
  {
    if name !in locations || fate.Refused? then locations
    else locations[name := locations[name].(conditions := conditions)]
  }

  function AfterVerdict(snapshot: Location, verdict: Verdict): ReadyPhase {
    if verdict.Unclaimed? then Ended(Done(0)) else Report(snapshot, verdict.condition)
  }

  function AdvanceReady(
      controller: string, name: Name, phase: ReadyPhase, locations: map<Name, Location>, view: ReadyView, fate: Fate
    ): (ReadyPhase, map<Name, Location>)
    requires !phase.Ended?
  {
    match phase
    case ReadLocation =>
      (if !fate.Succeeds? then Ended(Failed)
       else if view.location.None? || view.location.value.terminating then Ended(Done(0))
       else Consult(view.location.value), locations)
    case Consult(snapshot) =>
      (if IndexByClass(snapshot.classRef) == [] then Ended(Done(0))
       else if !fate.Succeeds? then Ended(Failed)
       else AfterVerdict(snapshot, Evaluate(controller, name, snapshot, view.classes)), locations)
    case Report(snapshot, condition) =>
      if !ConditionChanges(snapshot.conditions, condition) then (Ended(Done(0)), locations)
      else
        var conditions := SetStatusCondition(snapshot.conditions, condition, view.now);
        (if name !in locations || !fate.Succeeds? then Ended(Failed) else Ended(Done(0)),
         PatchConditions(locations, name, conditions, fate))
  }

  // ---- Whole reconciles, undisturbed ----

  // Fault-free: what an operator makes of a Location it reconciles.
  function Reported(
      controller: string, name: Name, location: Location, classes: map<Name, LocationClass>, now: nat
    ): Location
  {
    var verdict := Evaluate(controller, name, location, classes);
    if location.terminating || verdict.Unclaimed? then location
    else location.(conditions := SetStatusCondition(location.conditions, verdict.condition, now))
  }

  // A report changes a Location exactly when it is not being deleted, is
  // claimed, and does not say so yet.
  lemma ReportsExactly(
      controller: string, name: Name, location: Location, classes: map<Name, LocationClass>, now: nat)
    ensures var verdict := Evaluate(controller, name, location, classes);
            Reported(controller, name, location, classes, now) != location <==>
            && !location.terminating && verdict.Claimed?
            && !Says(FindStatusCondition(location.conditions, READY), verdict.condition)
  {
    hide SetStatusCondition, FindStatusCondition;
    var verdict := Evaluate(controller, name, location, classes);
    if verdict.Claimed? {
      UnchangedConditionStays(location.conditions, verdict.condition, now);
    }
  }

  datatype ReadyFates = ReadyFates(getLocation: Fate, getClass: Fate, patchStatus: Fate) {
    function Of(phase: ReadyPhase): Fate {
      if phase.ReadLocation? then getLocation else if phase.Consult? then getClass else patchStatus
    }
  }

  const NO_FAULTS := ReadyFates(Succeeds, Succeeds, Succeeds)

  function RunReady(
      controller: string, name: Name, phase: ReadyPhase, locations: map<Name, Location>,
      classes: map<Name, LocationClass>, now: nat, fates: ReadyFates
    ): (Outcome, map<Name, Location>)
    decreases phase.CallsLeft()
  {
    if phase.Ended? then (phase.outcome, locations)
    else
      var view := ReadyView(Get(locations, name), classes, now);
      var (next, locations') := AdvanceReady(controller, name, phase, locations, view, fates.Of(phase));
      RunReady(controller, name, next, locations', classes, now, fates)
  }

  function ReconcileReady(
      controller: string, name: Name, locations: map<Name, Location>, classes: map<Name, LocationClass>,
      now: nat, fates: ReadyFates
    ): (Outcome, map<Name, Location>)
  {
    RunReady(controller, name, ReadLocation, locations, classes, now, fates)
  }

  lemma ReadyGoesOn(
      controller: string, name: Name, phase: ReadyPhase, locations: map<Name, Location>,
      classes: map<Name, LocationClass>, now: nat, fates: ReadyFates,
      next: ReadyPhase, locations': map<Name, Location>)
    requires !phase.Ended?
    requires (next, locations') == AdvanceReady(
      controller, name, phase, locations, ReadyView(Get(locations, name), classes, now), fates.Of(phase))
    ensures RunReady(controller, name, phase, locations, classes, now, fates)
            == RunReady(controller, name, next, locations', classes, now, fates)
    ensures next.Ended? ==>
              RunReady(controller, name, phase, locations, classes, now, fates) == (next.outcome, locations')
  {
    hide AdvanceReady;
  }

  lemma ReconcileReports(
      controller: string, name: Name, locations: map<Name, Location>, classes: map<Name, LocationClass>, now: nat)
    ensures
      ReconcileReady(controller, name, locations, classes, now, NO_FAULTS)
      == (Done(0),
          if name in locations then locations[name := Reported(controller, name, locations[name], classes, now)]
          else locations)
  {
    hide Evaluate, SetStatusCondition, ConditionChanges, RunReady;
    var start := ReadLocation;
    if name !in locations || locations[name].terminating {
      assert name in locations ==> locations[name := locations[name]] == locations;
      ReadyGoesOn(controller, name, start, locations, classes, now, NO_FAULTS, Ended(Done(0)), locations);
    } else {
      var location := locations[name];
      var verdict := Evaluate(controller, name, location, classes);
      assert locations[name := location] == locations;
      ReadyGoesOn(controller, name, start, locations, classes, now, NO_FAULTS, Consult(location), locations);
      EvaluateNeedsIndex(controller, name, location, classes);
      var next := AfterVerdict(location, verdict);
      ReadyGoesOn(controller, name, Consult(location), locations, classes, now, NO_FAULTS, next, locations);
      if verdict.Claimed? {
        UnchangedConditionStays(location.conditions, verdict.condition, now);
        ReadyGoesOn(controller, name, next, locations, classes, now, NO_FAULTS, Ended(Done(0)),
                    locations[name := Reported(controller, name, location, classes, now)]);
      }
    }
  }

  lemma EvaluateNeedsIndex(controller: string, name: Name, location: Location, classes: map<Name, LocationClass>)
    ensures IndexByClass(location.classRef) == [] ==> Evaluate(controller, name, location, classes).Unclaimed?
  {
  }

  // Settling: a second report, at whatever time, changes nothing.
  lemma ReportedTwice(
      controller: string, name: Name, location: Location, classes: map<Name, LocationClass>, now: nat, later: nat)
    ensures var once := Reported(controller, name, location, classes, now);
            Reported(controller, name, once, classes, later) == once
  {
    var once := Reported(controller, name, location, classes, now);
    var verdict := Evaluate(controller, name, location, classes);
    if verdict.Claimed? && !location.terminating {
      SetConditionSays(location.conditions, verdict.condition, now);
      UnchangedConditionStays(once.conditions, verdict.condition, later);
    }
  }

  // ---- Accepting classes ----

  function AcceptedMessage(class': LocationClass): string {
    "Taken on by controller " + Quote(class'.controllerName)
    + if class'.hasParameters then "; spec.parametersRef is not read by this controller" else ""
  }

  function AcceptedCondition(class': LocationClass): Condition {
    Condition(ACCEPTED, true, ACCEPTED, AcceptedMessage(class'), class'.generation, 0)
  }

  // Fault-free: what an operator makes of a class it reconciles.
  function Accepted(controller: string, class': LocationClass, now: nat): LocationClass {
    if class'.controllerName != controller || class'.terminating then class'
    else class'.(conditions := SetStatusCondition(class'.conditions, AcceptedCondition(class'), now))
  }

  function PatchClassConditions(
      classes: map<Name, LocationClass>, name: Name, conditions: seq<Condition>, fate: Fate
    ): map<Name, LocationClass>
  {
    if name !in classes || fate.Refused? then classes
    else UpdateClass(classes, name, classes[name].(conditions := conditions))
  }

  datatype AcceptPhase = Look | Accept(snapshot: LocationClass) | Over(outcome: Outcome)

  function AdvanceAccept(
      controller: string, name: Name, phase: AcceptPhase, classes: map<Name, LocationClass>,
      seen: Option<LocationClass>, now: nat, fate: Fate
    ): (r: (AcceptPhase, map<Name, LocationClass>))
    requires !phase.Over?
    ensures phase.Accept? ==> r.0.Over?
  {
    match phase
    case Look =>
      (if !fate.Succeeds? then Over(Failed)
       else if seen.None? || seen.value.controllerName != controller || seen.value.terminating then Over(Done(0))
       else Accept(seen.value), classes)
    case Accept(snapshot) =>
      if !ConditionChanges(snapshot.conditions, AcceptedCondition(snapshot)) then (Over(Done(0)), classes)
      else
        var conditions := SetStatusCondition(snapshot.conditions, AcceptedCondition(snapshot), now);
        (if name in classes && fate.Succeeds? then Over(Done(0)) else Over(Failed),
         PatchClassConditions(classes, name, conditions, fate))
  }

  // A reconcile of one class, undisturbed, with whatever faults its two calls
  // meet.
  function AcceptClass(
      controller: string, name: Name, classes: map<Name, LocationClass>, now: nat, get: Fate, patch: Fate
    ): (Outcome, map<Name, LocationClass>)
  {
    var (next, _) := AdvanceAccept(controller, name, Look, classes, Get(classes, name), now, get);
    if next.Over? then (next.outcome, classes)
    else
      var (last, classes') := AdvanceAccept(controller, name, next, classes, Get(classes, name), now, patch);
      (last.outcome, classes')
  }

  lemma AcceptsAsSpecified(controller: string, name: Name, classes: map<Name, LocationClass>, now: nat)
    requires name in classes && Stored(classes[name])
    ensures AcceptClass(controller, name, classes, now, Succeeds, Succeeds)
            == (Done(0), classes[name := Accepted(controller, classes[name], now)])
  {
    var class' := classes[name];
    assert classes[name := class'] == classes;
    UnchangedConditionStays(class'.conditions, AcceptedCondition(class'), now);
    hide SetStatusCondition, ConditionChanges, AcceptedCondition;
  }

  // The class says that it is accepted, as it is now.
  predicate TakenOn(class': LocationClass) {
    var found := FindStatusCondition(class'.conditions, "Accepted");
    && found.Some? && found.value.status && found.value.reason == "Accepted"
    && found.value.observedGeneration == class'.generation
  }

  predicate SaysAccepted(class': LocationClass) {
    Says(FindStatusCondition(class'.conditions, ACCEPTED), AcceptedCondition(class'))
  }

  // What a reconcile by the operator a class names leaves is accepted exactly
  // when the class is live or was so already; and then it says so.
  lemma AcceptedExactly(controller: string, class': LocationClass, now: nat)
    requires class'.controllerName == controller
    ensures SaysAccepted(Accepted(controller, class', now)) <==> !class'.terminating || SaysAccepted(class')
    ensures !class'.terminating ==> TakenOn(Accepted(controller, class', now))
  {
    SetConditionSays(class'.conditions, AcceptedCondition(class'), now);
  }

  // A class is accepted by the operator it names and by no other, once.
  lemma AcceptedOnlyByItsOperator(controller: string, other: string, class': LocationClass, now: nat, later: nat)
    requires !class'.terminating
    ensures var once := Accepted(controller, class', now);
            && (controller == class'.controllerName ==> TakenOn(once))
            && (Accepted(other, once, later) != once ==> other == class'.controllerName != controller)
  {
    var once := Accepted(controller, class', now);
    SetConditionSays(class'.conditions, AcceptedCondition(class'), now);
    UnchangedConditionStays(once.conditions, AcceptedCondition(class'), later);
  }
}
