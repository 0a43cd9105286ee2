// The two readiness reconcilers as they run: they edit the conditions of the
// object they read in place and patch the difference.
module ReadinessController {
  import opened Api
  import opened Listing
  import opened Readiness
  import opened Stores
  import ClassFinalizing

  class LocationReadinessReconciler {
    const client: ControlPlane
    const controllerName: string

    constructor (client: ControlPlane, controllerName: string)
      ensures this.client == client && this.controllerName == controllerName
    {
      this.client, this.controllerName := client, controllerName;
    }

    // A reconcile leaves the Locations as the call-by-call protocol does,
    // whatever fails.
    method Reconcile(name: Name, now: nat, fates: ReadyFates) returns (outcome: Outcome)
      modifies client`locations
      ensures (outcome, client.locations)
              == ReconcileReady(controllerName, name, old(client.locations), client.classes, now, fates)
    {
      hide RunReady, Evaluate;
      ghost var before, classes := client.locations, client.classes;
      if !fates.getLocation.Succeeds? {
        ReadyGoesOn(controllerName, name, ReadLocation, before, classes, now, fates, Ended(Failed), before);
        return Failed;
      }
      if name !in client.locations || client.locations[name].terminating {
        ReadyGoesOn(controllerName, name, ReadLocation, before, classes, now, fates, Ended(Done(0)), before);
        return Done(0);
      }
      var location := client.locations[name];
      ReadyGoesOn(controllerName, name, ReadLocation, before, classes, now, fates, Consult(location), before);
      var failed, verdict := EvaluateLocation(name, location, fates.getClass);
      if failed || verdict.Unclaimed? {
        outcome := if failed then Failed else Done(0);
        ReadyGoesOn(controllerName, name, Consult(location), before, classes, now, fates, Ended(outcome), before);
        return;
      }
      EvaluateNeedsIndex(controllerName, name, location, classes);
      ReadyGoesOn(controllerName, name, Consult(location), before, classes, now, fates,
                  Report(location, verdict.condition), before);
      outcome := ReportCondition(name, location, verdict.condition, now, fates);
    }

    // evaluate
    method EvaluateLocation(name: Name, location: Location, fate: Fate) returns (failed: bool, verdict: Verdict)
      ensures failed == (ClassFinalizing.IndexByClass(location.classRef) != [] && !fate.Succeeds?)
      ensures !failed ==> verdict == Evaluate(controllerName, name, location, client.classes)
    {
      failed, verdict := false, Unclaimed;
      var classNames := ClassFinalizing.IndexByClass(location.classRef);
      if |classNames| == 0 {
        return;
      }
      var className := classNames[0];
      if !fate.Succeeds? {
        failed := true;
      } else if className !in client.classes {
        verdict := Claimed(ReadyCondition(
          location, false, "LocationClassNotFound",
          "LocationClass " + Quote(className) + " does not exist in this control plane"));
      } else if client.classes[className].controllerName == controllerName {
        if Lookup(location.topology, CITY_CODE_KEY) == "" {
          verdict := Claimed(ReadyCondition(
            location, false, "MissingTopology",
            "Location " + Quote(name) + " carries no " + CITY_CODE_KEY + ", so it cannot be placed or published"));
        } else {
          verdict := Claimed(ReadyCondition(location, true, READY, "Backed by LocationClass " + Quote(className)));
        }
      }
    }

    // report
    method ReportCondition(name: Name, location: Location, condition: Condition, now: nat, fates: ReadyFates)
      returns (outcome: Outcome)
      modifies client`locations
      ensures (outcome, client.locations)
              == RunReady(controllerName, name, Report(location, condition), old(client.locations),
                          client.classes, now, fates)
    {
      hide RunReady, SetStatusCondition, FindStatusCondition;
      ghost var before, classes := client.locations, client.classes;
      var edited := location.(conditions := SetStatusCondition(location.conditions, condition, now));
      UnchangedConditionStays(location.conditions, condition, now);
      if edited.conditions == location.conditions {
        outcome := Done(0);
      } else {
        var failed := client.WriteConditions(name, edited.conditions, fates.patchStatus);
        outcome := if failed then Failed else Done(0);
      }
      ReadyGoesOn(controllerName, name, Report(location, condition), before, classes, now, fates,
                  Ended(outcome), client.locations);
    }

    static method RequestsFor(requests: seq<Name>, name: Name, location: Location, class': Name)
      returns (more: seq<Name>)
      ensures more == if ClassFinalizing.NamesClass(location, class') then requests + [name] else requests
    {
      more := requests;
      var names := ClassFinalizing.IndexByClass(location.classRef);
      for i := 0 to |names|
        invariant more == if class' in names[..i] then requests + [name] else requests
      {
        if names[i] != class' {
          continue;
        }
        more := more + [name];
      }
      assert names[..|names|] == names;
    }

    // The Locations an event for a class wakes: exactly those naming it.
    method EnqueueLocationsNamingClass(class': Name) returns (requests: seq<Name>)
      ensures Lists(requests, ClassFinalizing.References(client.locations, class'))
    {
      var items := ListNames(client.locations.Keys);
      ghost var naming := ClassFinalizing.References(client.locations, class');
      requests := [];
      for i := 0 to |items|
        invariant Lists(requests, Among(items[..i], naming))
      {
        AmongGrows(items, client.locations.Keys, i, naming);
        hide Lists;
        if items[i] in naming {
          AppendLists(requests, Among(items[..i], naming), items[i]);
        }
        requests := RequestsFor(requests, items[i], client.locations[items[i]], class');
      }
      AmongAll(items, client.locations.Keys, naming);
    }
  }

  class LocationClassAcceptedReconciler {
    const client: ControlPlane
    const controllerName: string

    constructor (client: ControlPlane, controllerName: string)
      ensures this.client == client && this.controllerName == controllerName
    {
      this.client, this.controllerName := client, controllerName;
    }

    method Reconcile(name: Name, now: nat, get: Fate, patch: Fate) returns (outcome: Outcome)
      modifies client`classes
      ensures (outcome, client.classes) == AcceptClass(controllerName, name, old(client.classes), now, get, patch)
      ensures var before := Get(old(client.classes), name);
              && outcome.Done? && before.Some? && !before.value.terminating
              && before.value.controllerName == controllerName ==>
                name in client.classes && TakenOn(client.classes[name])
    {
      if !get.Succeeds? {
        return Failed;
      }
      if name !in client.classes {
        return Done(0);
      }
      var class' := client.classes[name];
      if class'.controllerName != controllerName {
        return Done(0);
      }
      if class'.terminating {
        return Done(0);
      }
      UnchangedConditionStays(class'.conditions, AcceptedCondition(class'), now);
      AcceptedExactly(controllerName, class', now);
      var conditions := SetStatusCondition(class'.conditions, AcceptedCondition(class'), now);
      if conditions == class'.conditions {
        return Done(0);
      }
      var failed := client.WriteClassConditions(name, conditions, patch);
      outcome := if failed then Failed else Done(0);
    }
  }
}
