// Several operators in one control plane: each reports readiness under its own
// controller name, call by call, on one Location whose spec and classes stay
// put.
module Operators {
  import opened Api
  import opened ClassFinalizing
  import opened Readiness

  // ---- Who may claim a Location ----

  // Operators never fight: where the class exists at most one of them claims
  // the Location, and where it is missing they all say the same.
  lemma ClaimsAgree(a: string, b: string, name: Name, location: Location, classes: map<Name, LocationClass>)
    requires Evaluate(a, name, location, classes).Claimed? && Evaluate(b, name, location, classes).Claimed?
    ensures Evaluate(a, name, location, classes) == Evaluate(b, name, location, classes)
    ensures (exists class' :: class' in classes && NamesClass(location, class')) ==> a == b
  {
    var className := IndexByClass(location.classRef)[0];
    assert forall class' :: NamesClass(location, class') ==> class' == className;
  }

  // ---- The shared Location ----

  // `versions`: what the Location has been, latest last; a cached read may
  // return any of them. `finished`: operators that have completed a reconcile.
  datatype Shared = Shared(versions: seq<Location>, active: map<string, ReadyPhase>, finished: set<string>)

  datatype Action =
    | Take(controller: string)
    | Call(controller: string, seen: nat, now: nat, fate: Fate)
    | Finish(controller: string)
    | Restart(controller: string)

  function Current(w: Shared): Location
    requires w.versions != []
  {
    w.versions[|w.versions| - 1]
  }

  predicate Enabled(w: Shared, action: Action) {
    match action
    case Take(controller) => controller !in w.active
    case Call(controller, seen, _, _) =>
      controller in w.active && !w.active[controller].Ended? && seen < |w.versions|
    case Finish(controller) => controller in w.active && w.active[controller].Ended?
    case Restart(_) => true
  }

  function Next(name: Name, classes: map<Name, LocationClass>, w: Shared, action: Action): (r: Shared)
    requires w.versions != [] && Enabled(w, action)
    ensures r.versions != []
  {
    match action
    case Take(controller) => w.(active := w.active[controller := ReadLocation])
    case Call(controller, seen, now, fate) =>
      var view := ReadyView(Some(w.versions[seen]), classes, now);
      var (phase, locations) :=
        AdvanceReady(controller, name, w.active[controller], map[name := Current(w)], view, fate);
      w.(active := w.active[controller := phase],
         versions := if locations[name] == Current(w) then w.versions else w.versions + [locations[name]])
    case Finish(controller) =>
      w.(active := w.active - {controller},
         finished := if w.active[controller].outcome.Done? then w.finished + {controller} else w.finished)
    case Restart(controller) => w.(active := w.active - {controller})
  }

  // Any interleaving of the operators' calls from a Location nobody is at work
  // on.
  function Interleave(name: Name, classes: map<Name, LocationClass>, start: Location, actions: seq<Action>): (r: Shared)
    ensures r.versions != []
    decreases |actions|
  {
    if actions == [] then Shared([start], map[], {})
    else
      var w := Interleave(name, classes, start, actions[..|actions| - 1]);
      var action := actions[|actions| - 1];
      // A step that is not possible is not taken.
      if Enabled(w, action) then Next(name, classes, w, action) else w
  }

  // ---- Confluence ----

  // Conditions up to when they last changed.
  function Timeless(conditions: seq<Condition>): seq<Condition> {
    seq(|conditions|, i requires 0 <= i < |conditions| => conditions[i].(transitioned := 0))
  }

  lemma {:induction false} TimelessSet(a: seq<Condition>, b: seq<Condition>, condition: Condition, now: nat, later: nat)
    requires Timeless(a) == Timeless(b)
    ensures Timeless(SetStatusCondition(a, condition, now)) == Timeless(SetStatusCondition(b, condition, later))
  {
    if a != [] {
      assert |a| == |Timeless(a)| == |b|;
      assert Timeless(a)[0] == Timeless(b)[0];
      assert Timeless(a[1..]) == Timeless(a)[1..] == Timeless(b[1..]);
      if a[0].kind != condition.kind {
        TimelessSet(a[1..], b[1..], condition, now, later);
        TimelessCons(a[0], SetStatusCondition(a[1..], condition, now));
        TimelessCons(b[0], SetStatusCondition(b[1..], condition, later));
      } else {
        TimelessCons(SetStatusCondition(a, condition, now)[0], a[1..]);
        TimelessCons(SetStatusCondition(b, condition, later)[0], b[1..]);
      }
    } else {
      assert |b| == |Timeless(b)| == 0;
    }
  }

  lemma TimelessCons(first: Condition, rest: seq<Condition>)
    ensures Timeless([first] + rest) == [first.(transitioned := 0)] + Timeless(rest)
  {
  }

  // Saying the same again changes nothing, up to time.
  lemma SetTwice(conditions: seq<Condition>, condition: Condition, now: nat, later: nat)
    ensures var once := SetStatusCondition(conditions, condition, now);
            SetStatusCondition(once, condition, later) == once
  {
    SetConditionSays(conditions, condition, now);
    UnchangedConditionStays(SetStatusCondition(conditions, condition, now), condition, later);
  }

  // What the Location comes to once a claim is reported.
  function Goal(start: Location, condition: Condition): seq<Condition> {
    Timeless(SetStatusCondition(start.conditions, condition, 0))
  }

  predicate Reached(start: Location, condition: Condition, location: Location) {
    Timeless(location.conditions) == Goal(start, condition)
  }

  // The Location as it was, or as the claim makes it.
  predicate Version(start: Location, condition: Condition, location: Location) {
    && location == start.(conditions := location.conditions)
    && (Reached(start, condition, location) || Timeless(location.conditions) == Timeless(start.conditions))
  }

  // However old the version an operator read, its report is the goal.
  lemma ReportReaches(start: Location, condition: Condition, location: Location, now: nat)
    requires Version(start, condition, location)
    ensures Timeless(SetStatusCondition(location.conditions, condition, now)) == Goal(start, condition)
  {
    var once := SetStatusCondition(start.conditions, condition, 0);
    if Reached(start, condition, location) {
      TimelessSet(location.conditions, once, condition, now, 0);
      SetTwice(start.conditions, condition, 0, 0);
    } else {
      TimelessSet(location.conditions, start.conditions, condition, now, 0);
    }
  }

  predicate ClaimedBy(controller: string, name: Name, classes: map<Name, LocationClass>, start: Location) {
    !start.terminating && Evaluate(controller, name, start, classes).Claimed?
  }

  // What an operator at work knows.
  predicate Knows(
      name: Name, classes: map<Name, LocationClass>, start: Location, condition: Condition,
      w: Shared, controller: string)
    requires controller in w.active && w.versions != []
  {
    match w.active[controller]
    case ReadLocation => true
    case Consult(snapshot) => snapshot in w.versions
    case Report(snapshot, said) => snapshot in w.versions && said == condition
    case Ended(outcome) =>
      outcome.Done? && ClaimedBy(controller, name, classes, start) ==> Reached(start, condition, Current(w))
  }

  predicate Agreeing(
      name: Name, classes: map<Name, LocationClass>, start: Location, condition: Condition, w: Shared)
    requires w.versions != []
  {
    && (forall v :: v in w.versions ==> Version(start, condition, v))
    && (forall v :: v in w.versions && Reached(start, condition, v) ==> Reached(start, condition, Current(w)))
    && (forall c :: c in w.active ==> Knows(name, classes, start, condition, w, c))
    && (forall c :: c in w.finished && ClaimedBy(c, name, classes, start) ==>
          Reached(start, condition, Current(w)))
  }

  lemma EvaluateIgnoresConditions(
      controller: string, name: Name, location: Location, start: Location, classes: map<Name, LocationClass>)
    requires location == start.(conditions := location.conditions)
    ensures Evaluate(controller, name, location, classes) == Evaluate(controller, name, start, classes)
  {
  }

  lemma ReportAgrees(
      name: Name, classes: map<Name, LocationClass>, start: Location, condition: Condition, w: Shared, action: Action)
    requires w.versions != [] && Enabled(w, action) && action.Call? && w.active[action.controller].Report?
    requires Agreeing(name, classes, start, condition, w)
    ensures Agreeing(name, classes, start, condition, Next(name, classes, w, action))
  {
    hide Evaluate, SetStatusCondition, FindStatusCondition, Timeless, Goal;
    var phase := w.active[action.controller];
    var conditions := SetStatusCondition(phase.snapshot.conditions, condition, action.now);
    var goal := Current(w).(conditions := conditions);
    assert Knows(name, classes, start, condition, w, action.controller);
    assert Current(w) in w.versions;
    ReportReaches(start, condition, phase.snapshot, action.now);
    UnchangedConditionStays(phase.snapshot.conditions, condition, action.now);
    assert Reached(start, condition, goal) && Version(start, condition, goal);
    var (next, locations) := AdvanceReady(
      action.controller, name, phase, map[name := Current(w)],
      ReadyView(Some(w.versions[action.seen]), classes, action.now), action.fate);
    assert locations[name] == Current(w) || locations[name] == goal;
    assert next.outcome.Done? ==> locations[name] == goal || Reached(start, condition, Current(w));
    hide AdvanceReady, Version, Reached;
  }

  lemma CallAgrees(
      claimant: string, name: Name, classes: map<Name, LocationClass>, start: Location, condition: Condition,
      w: Shared, action: Action)
    requires Evaluate(claimant, name, start, classes) == Claimed(condition) && !start.terminating
    requires w.versions != [] && Enabled(w, action) && action.Call?
    requires Agreeing(name, classes, start, condition, w)
    ensures Agreeing(name, classes, start, condition, Next(name, classes, w, action))
  {
    hide Evaluate, SetStatusCondition, FindStatusCondition, Timeless, Goal;
    var phase := w.active[action.controller];
    match phase
    case ReadLocation =>
      assert w.versions[action.seen] in w.versions;
    case Consult(snapshot) =>
      EvaluateNeedsIndex(action.controller, name, snapshot, classes);
      EvaluateIgnoresConditions(action.controller, name, snapshot, start, classes);
      if ClaimedBy(action.controller, name, classes, start) {
        ClaimsAgree(action.controller, claimant, name, start, classes);
      }
    case Report(snapshot, said) =>
      ReportAgrees(name, classes, start, condition, w, action);
  }

  lemma StepAgrees(
      claimant: string, name: Name, classes: map<Name, LocationClass>, start: Location, condition: Condition,
      w: Shared, action: Action)
    requires Evaluate(claimant, name, start, classes) == Claimed(condition) && !start.terminating
    requires w.versions != [] && Enabled(w, action) && Agreeing(name, classes, start, condition, w)
    ensures Agreeing(name, classes, start, condition, Next(name, classes, w, action))
  {
    hide Evaluate, SetStatusCondition, FindStatusCondition, Timeless, Goal, AdvanceReady;
    if action.Call? {
      CallAgrees(claimant, name, classes, start, condition, w, action);
    }
  }

  lemma {:induction false} InterleavingAgrees(
      claimant: string, name: Name, classes: map<Name, LocationClass>, start: Location, condition: Condition,
      actions: seq<Action>)
    requires Evaluate(claimant, name, start, classes) == Claimed(condition) && !start.terminating
    ensures Agreeing(name, classes, start, condition, Interleave(name, classes, start, actions))
  {
    if actions != [] {
      var n := |actions| - 1;
      InterleavingAgrees(claimant, name, classes, start, condition, actions[..n]);
      hide Evaluate, Agreeing, Next, Enabled;
      var w := Interleave(name, classes, start, actions[..n]);
      if Enabled(w, actions[n]) {
        StepAgrees(claimant, name, classes, start, condition, w, actions[n]);
      }
    }
  }

  // Any two interleavings, of any operators' calls with any faults and however
  // old reads, in each of which some claimant got its report through, leave the
  // same Location up to transition times.
  lemma InterleavingsConfluent(
      name: Name, classes: map<Name, LocationClass>, start: Location,
      actions: seq<Action>, others: seq<Action>, a: string, b: string)
    requires a in Interleave(name, classes, start, actions).finished && ClaimedBy(a, name, classes, start)
    requires b in Interleave(name, classes, start, others).finished && ClaimedBy(b, name, classes, start)
    ensures var one := Current(Interleave(name, classes, start, actions));
            var other := Current(Interleave(name, classes, start, others));
            && one == other.(conditions := one.conditions)
            && Timeless(one.conditions) == Timeless(other.conditions)
            && Timeless(one.conditions) == Goal(start, Evaluate(a, name, start, classes).condition)
  {
    var condition := Evaluate(a, name, start, classes).condition;
    ClaimsAgree(a, b, name, start, classes);
    InterleavingAgrees(a, name, classes, start, condition, actions);
    InterleavingAgrees(a, name, classes, start, condition, others);
    hide Evaluate, Interleave, Timeless;
    assert Current(Interleave(name, classes, start, actions)) in Interleave(name, classes, start, actions).versions;
    assert Current(Interleave(name, classes, start, others)) in Interleave(name, classes, start, others).versions;
  }

  // An operator writes nothing on a Location it does not claim.
  predicate Untouched(name: Name, classes: map<Name, LocationClass>, start: Location, w: Shared) {
    && w.versions == [start]
    && forall c :: c in w.active ==>
         match w.active[c]
         case Consult(snapshot) => snapshot == start && !start.terminating
         case Report(_, _) => ClaimedBy(c, name, classes, start)
         case _ => true
  }

  lemma {:induction false} NobodysLocationIsLeftAlone(
      name: Name, classes: map<Name, LocationClass>, start: Location, actions: seq<Action>)
    requires forall c :: !ClaimedBy(c, name, classes, start)
    ensures Untouched(name, classes, start, Interleave(name, classes, start, actions))
  {
    hide Evaluate, SetStatusCondition, FindStatusCondition;
    if actions != [] {
      var n := |actions| - 1;
      NobodysLocationIsLeftAlone(name, classes, start, actions[..n]);
    }
  }
}
