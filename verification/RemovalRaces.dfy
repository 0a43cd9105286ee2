// Runs in which something comes between two calls of a removal, and what that
// costs.
module RemovalRaces {
  import opened Api
  import opened Publication
  import opened Reconciling
  import opened WorkQueue
  import opened Protocol
  import Delivery
  import Disturbance

  // Location "a" is gone and "b" is there. The hub holds the policy of "a", and
  // its copy or not; one Ready cluster is labelled for some location.
  const PLACE := map[CITY_CODE_KEY := "DFW"]
  const SOURCE := map["b" := Location(1, PLACE, ClassReference("c", ""), false, [])]

  function Mine(overridden: bool): ServingLocation {
    ServingLocation(map[MANAGED_BY_LABEL := MANAGED_BY_VALUE],
                    if overridden then map[OVERRIDE_ANNOTATION := "true"] else map[], PLACE, 1, 0)
  }

  const THEIRS := ServingLocation(map[], map[], PLACE, 1, 0)

  function Cell(location: Name): Cluster {
    Cluster("cell", map[TOPOLOGY_LABEL := location], Some([Fields(map["type" := "Ready", "status" := "True"])]))
  }

  function At(config: Config, copy: Option<ServingLocation>): Hub {
    Hub(Put(map[], "a", copy), map[PolicyName("a") := AppliedPolicy(None, config, "a")])
  }

  function There(config: Config, copy: Option<ServingLocation>, cell: Name, queue: Queue, phase: Option<Phase>): World {
    World(SOURCE, At(config, copy), [Cell(cell)], queue, Put(map[], "a", phase))
  }

  function Told(copy: Option<ServingLocation>, cell: Name): View {
    View(None, copy, 1, 1, [Cell(cell)], 0, true)
  }

  // The event of the copy of "a" delivered, and in flight.
  const CURRENT := Queue({"b"}, {}, {})
  const BEHIND := Queue({"a", "b"}, {}, {})

  // Nobody edits anything and no call fails.
  predicate Unfailing(actions: seq<Action>) {
    forall i :: 0 <= i < |actions| ==> Plain(actions[i])
  }

  predicate Plain(action: Action) {
    action.Deliver? || action.Take? || action.Restart? || action.Finish? || (action.Call? && action.fate.Succeeds?)
  }

  lemma Move(config: Config, t: Trace, action: Action, w: World) returns (longer: Trace)
    requires Runs(config, t) && Enabled(Last(t), action) && w == Next(config, Last(t), action)
    ensures Runs(config, longer) && longer.worlds == t.worlds + [w] && longer.actions == t.actions + [action]
    ensures Unfailing(t.actions) && Plain(action) ==> Unfailing(longer.actions)
  {
    hide Next, Enabled, Starting, Follows, Plain;
    longer := Go(config, t, action, w);
  }

  lemma RemovalAdvances(config: Config, overridden: bool, copy: Option<ServingLocation>)
    ensures var hub, view, mine := At(config, copy), Told(Some(Mine(overridden)), "b"), Mine(overridden);
            && Advance(config, "a", Start, hub, view, Succeeds) == (ReadForRemoval, hub)
            && Advance(config, "a", ReadForRemoval, hub, view, Succeeds) == (AwaitCaches(mine), hub)
            && Advance(config, "a", AwaitCaches(mine), hub, view, Succeeds) == (ListSource(mine), hub)
            && Advance(config, "a", ListSource(mine), hub, view, Succeeds)
               == (if overridden then DeleteCopy(mine) else CheckFleet(mine), hub)
            && Advance(config, "a", CheckFleet(mine), hub, view, Succeeds) == (DeleteCopy(mine), hub)
  {
    hide GuardDecision, Publishable, AppliedCopy, AppliedPolicy, PublishedAt, BlockedMessage;
    GuardAllowsExactly([Cell("b")], "a");
  }

  lemma ToldIsSeen(
      config: Config, copy: Option<ServingLocation>, cell: Name, queue: Queue, phase: Phase,
      told: Option<ServingLocation>)
    requires queue == BEHIND || (queue == CURRENT && told == copy)
    ensures Sees(There(config, copy, cell, queue, Some(phase)), "a", Told(told, cell))
  {
    assert "b" in SOURCE;
  }

  // A call that reads.
  lemma Read(
      config: Config, t: Trace, copy: Option<ServingLocation>, queue: Queue, told: Option<ServingLocation>,
      phase: Phase, next: Phase)
    returns (longer: Trace)
    requires Runs(config, t) && Last(t) == There(config, copy, "b", queue, Some(phase)) && !phase.Returning?
    requires queue == BEHIND || (queue == CURRENT && told == copy)
    requires Advance(config, "a", phase, At(config, copy), Told(told, "b"), Succeeds) == (next, At(config, copy))
    ensures Runs(config, longer) && longer.actions == t.actions + [Call("a", Told(told, "b"), Succeeds)]
    ensures longer.worlds == t.worlds + [There(config, copy, "b", queue, Some(next))]
    ensures Unfailing(t.actions) ==> Unfailing(longer.actions)
  {
    hide Advance, Woken, Starting, Follows, Sees, At, Told, Unfailing;
    ToldIsSeen(config, copy, "b", queue, phase, told);
    LocalWritesWake(At(config, copy), At(config, copy), "a");
    longer := Move(config, t, Call("a", Told(told, "b"), Succeeds), There(config, copy, "b", queue, Some(next)));
  }

  lemma EverybodyThere(config: Config, copy: Option<ServingLocation>)
    ensures Everybody(SOURCE, At(config, copy)) == {"a", "b"}
  {
    hide AppliedPolicy;
    PolicyOwnersInvertsPolicyName(PolicyName("a"), "a");
    assert forall name :: name in PolicyOwners(PolicyName("a")) ==> name == "a";
    assert PolicyName("a") in At(config, copy).policies;
  }

  // The event of "a" arrives and a worker takes the name.
  lemma Awakes(config: Config, t: Trace, copy: Option<ServingLocation>) returns (longer: Trace)
    requires Runs(config, t) && Last(t) == There(config, copy, "b", BEHIND, None)
    ensures Runs(config, longer) && |longer.actions| == |t.actions| + 2
    ensures Unfailing(t.actions) ==> Unfailing(longer.actions)
    ensures Last(longer) == There(config, copy, "b", CURRENT, Some(Start))
  {
    hide Starting, Follows, Unfailing, At, Everybody, Advance, Cell, Woken, Sees;
    longer := Move(config, t, Deliver("a"), There(config, copy, "b", Queue({"b"}, {"a"}, {}), None));
    longer := Move(config, longer, Take("a", false), There(config, copy, "b", CURRENT, Some(Start)));
  }

  lemma RemovalStarts(config: Config, overridden: bool) returns (t: Trace)
    ensures Runs(config, t) && Unfailing(t.actions) && |t.actions| == 2
    ensures Last(t) == There(config, Some(Mine(overridden)), "b", CURRENT, Some(Start))
  {
    hide AppliedPolicy, Everybody, Follows;
    var mine := Some(Mine(overridden));
    EverybodyThere(config, mine);
    t := Awakes(config, Trace([There(config, mine, "b", BEHIND, None)], []), mine);
  }

  lemma RemovalReachesDelete(config: Config, overridden: bool) returns (t: Trace)
    ensures Runs(config, t) && Unfailing(t.actions) && |t.actions| == if overridden then 6 else 7
    ensures Last(t) == There(config, Some(Mine(overridden)), "b", CURRENT, Some(DeleteCopy(Mine(overridden))))
    ensures !overridden ==> t.worlds[6] == There(config, Some(Mine(false)), "b", CURRENT, Some(CheckFleet(Mine(false))))
  {
    hide Advance, Starting, Follows, There, Next, Enabled, Unfailing, Mine;
    var mine := Mine(overridden);
    RemovalAdvances(config, overridden, Some(mine));
    t := RemovalStarts(config, overridden);
    t := Read(config, t, Some(mine), CURRENT, Some(mine), Start, ReadForRemoval);
    t := Read(config, t, Some(mine), CURRENT, Some(mine), ReadForRemoval, AwaitCaches(mine));
    t := Read(config, t, Some(mine), CURRENT, Some(mine), AwaitCaches(mine), ListSource(mine));
    if overridden {
      t := Read(config, t, Some(mine), CURRENT, Some(mine), ListSource(mine), DeleteCopy(mine));
    } else {
      t := Read(config, t, Some(mine), CURRENT, Some(mine), ListSource(mine), CheckFleet(mine));
      t := Read(config, t, Some(mine), CURRENT, Some(mine), CheckFleet(mine), DeleteCopy(mine));
    }
  }

  // The delete of the copy, whoever's object it is by then.
  lemma Delete(config: Config, t: Trace, copy: ServingLocation, cell: Name, queue: Queue, mine: ServingLocation)
    returns (longer: Trace)
    requires Runs(config, t) && Last(t) == There(config, Some(copy), cell, queue, Some(DeleteCopy(mine)))
    requires queue == BEHIND || (queue == CURRENT && copy == mine)
    ensures Runs(config, longer) && longer.actions == t.actions + [Call("a", Told(Some(mine), cell), Succeeds)]
    ensures longer.worlds == t.worlds + [There(config, None, cell, BEHIND, Some(DeletePolicy))]
    ensures Unfailing(t.actions) ==> Unfailing(longer.actions)
  {
    hide Starting, Follows, Next, Enabled, There, Unfailing, Told;
    DeleteMoves(config, copy, cell, queue, mine);
    longer := Move(config, t, Call("a", Told(Some(mine), cell), Succeeds),
                   There(config, None, cell, BEHIND, Some(DeletePolicy)));
  }

  lemma DeleteMoves(config: Config, copy: ServingLocation, cell: Name, queue: Queue, mine: ServingLocation)
    requires queue == BEHIND || (queue == CURRENT && copy == mine)
    ensures var w, call := There(config, Some(copy), cell, queue, Some(DeleteCopy(mine))),
                           Call("a", Told(Some(mine), cell), Succeeds);
            Enabled(w, call) && Next(config, w, call) == There(config, None, cell, BEHIND, Some(DeletePolicy))
  {
    hide Woken, Sees, AppliedPolicy, Cell;
    var before, after := At(config, Some(copy)), At(config, None);
    assert before.copies - {"a"} == map[] == after.copies - {"a"};
    assert "a" in before.copies && "a" !in after.copies;
    LocalWritesWake(before, after, "a");
    ToldIsSeen(config, Some(copy), cell, queue, DeleteCopy(mine), Some(mine));
  }

  lemma Relabel(config: Config, t: Trace, phase: Phase) returns (longer: Trace)
    requires Runs(config, t) && Last(t) == There(config, Some(Mine(true)), "b", CURRENT, Some(phase))
    ensures Runs(config, longer) && longer.actions == t.actions + [EditCopy("a", Some(THEIRS))]
    ensures longer.worlds == t.worlds + [There(config, Some(THEIRS), "b", BEHIND, Some(phase))]
  {
    hide Starting, Follows, AppliedPolicy, Cell;
    assert map["a" := Mine(true)]["a" := THEIRS] == map["a" := THEIRS];
    longer := Move(config, t, EditCopy("a", Some(THEIRS)), There(config, Some(THEIRS), "b", BEHIND, Some(phase)));
  }

  // ---- Foreign objects deleted ----

  // A run in which the copy is relabelled between the read and the delete, and
  // the foreign object is deleted.
  lemma RelabelledCopyIsDeleted(config: Config) returns (t: Trace)
    ensures Runs(config, t) && |t.actions| == 8
    ensures t.actions[6] == EditCopy("a", Some(THEIRS))
    ensures t.actions[7] == Call("a", Told(Some(Mine(true)), "b"), Succeeds)
    ensures Get(t.worlds[7].hub.copies, "a") == Some(THEIRS) && "a" !in t.worlds[8].hub.copies
  {
    hide Starting, Follows, Next, Enabled, Unfailing;
    t := RemovalReachesDelete(config, true);
    t := Relabel(config, t, DeleteCopy(Mine(true)));
    t := Delete(config, t, THEIRS, "b", BEHIND, Mine(true));
  }

  // A run in which it is relabelled before the read, which the cache still
  // answers with the owned copy: nobody edits anything after the read.
  lemma StaleReadDeletesTheirs(config: Config) returns (t: Trace)
    ensures Runs(config, t) && |t.actions| == 8 && t.actions[3] == EditCopy("a", Some(THEIRS))
    ensures forall i :: 4 <= i < 8 ==> t.actions[i] == Call("a", Told(Some(Mine(true)), "b"), Succeeds)
    ensures Get(t.worlds[7].hub.copies, "a") == Some(THEIRS) && "a" !in t.worlds[8].hub.copies
  {
    hide Starting, Follows, Next, Enabled, Unfailing, Advance;
    var mine := Mine(true);
    RemovalAdvances(config, true, Some(mine));
    RemovalAdvances(config, true, Some(THEIRS));
    t := RemovalStarts(config, true);
    t := Read(config, t, Some(mine), CURRENT, Some(mine), Start, ReadForRemoval);
    t := Relabel(config, t, ReadForRemoval);
    t := Read(config, t, Some(THEIRS), BEHIND, Some(mine), ReadForRemoval, AwaitCaches(mine));
    t := Read(config, t, Some(THEIRS), BEHIND, Some(mine), AwaitCaches(mine), ListSource(mine));
    t := Read(config, t, Some(THEIRS), BEHIND, Some(mine), ListSource(mine), DeleteCopy(mine));
    t := Delete(config, t, THEIRS, "b", BEHIND, mine);
  }

  // ---- A change of leader ----

  lemma NextLeaderFindsNothing(config: Config, t: Trace) returns (longer: Trace)
    requires Runs(config, t) && Unfailing(t.actions)
    requires Last(t) == There(config, None, "b", BEHIND, Some(DeletePolicy))
    ensures Runs(config, longer) && Unfailing(longer.actions) && |longer.actions| == |t.actions| + 6
    ensures Last(longer) == There(config, None, "b", CURRENT, None)
  {
    hide Starting, Follows, Unfailing, At, Everybody, Advance, Told, Cell, Woken, Sees;
    EverybodyThere(config, None);
    NoCopyEndsRemoval(config);
    longer := Move(config, t, Restart, There(config, None, "b", BEHIND, None));
    longer := Awakes(config, longer, None);
    longer := Read(config, longer, None, CURRENT, None, Start, ReadForRemoval);
    longer := Read(config, longer, None, CURRENT, None, ReadForRemoval, Returning(Done(0)));
    longer := Move(config, longer, Finish("a"), There(config, None, "b", CURRENT, None));
  }

  lemma NoCopyEndsRemoval(config: Config)
    ensures var hub, view := At(config, None), Told(None, "b");
            && Advance(config, "a", Start, hub, view, Succeeds) == (ReadForRemoval, hub)
            && Advance(config, "a", ReadForRemoval, hub, view, Succeeds) == (Returning(Done(0)), hub)
  {
    hide AppliedPolicy, Publishable;
  }

  // A run in which every call succeeds and nobody edits anything, and the
  // policy outlives the copy: the leader goes between the two deletes, and the
  // next one finds no copy to remove.
  lemma LeaderChangeOrphansPolicy(config: Config) returns (t: Trace)
    ensures Runs(config, t) && Unfailing(t.actions) && |t.actions| == 13
    ensures Last(t) == There(config, None, "b", CURRENT, None)
    ensures Last(t).queue.Quiet("a") && PolicyName("a") in Last(t).hub.policies && "a" !in Last(t).hub.copies
  {
    hide Starting, Follows, Next, Enabled, Unfailing;
    t := RemovalReachesDelete(config, true);
    t := Delete(config, t, Mine(true), "b", CURRENT, Mine(true));
    t := NextLeaderFindsNothing(config, t);
  }

  // ---- A cluster relabelled ----

  lemma PolicyIsMissed(config: Config)
    ensures ClusterReady(Cell("a"))
    ensures Disturbance.Disturbs(config, At(config, None), RemovePolicy(At(config, None), "a", Succeeds), Cell("a"))
  {
    var hub := At(config, None);
    Delivery.NameOfPolicyName("a");
    assert ReadyCondition(Cell("a").conditions.value[0]);
    hide DesiredPolicySpec, Delivery.NameOf;
    assert Delivery.Ours(config, hub);
    Disturbance.PolicyDeleteDisturbsExactly(config, hub, "a", Succeeds, Cell("a"));
  }

  lemma PolicyDelete(config: Config, t: Trace) returns (longer: Trace)
    requires Runs(config, t) && Last(t) == There(config, None, "a", BEHIND, Some(DeletePolicy))
    ensures Runs(config, longer) && |longer.actions| == |t.actions| + 1
    ensures longer.worlds == t.worlds + [Last(longer)]
    ensures Last(longer).hub == RemovePolicy(At(config, None), "a", Succeeds)
  {
    hide Starting, Follows, Woken, Sees, AppliedPolicy, Cell;
    ToldIsSeen(config, None, "a", BEHIND, DeletePolicy, None);
    var call := Call("a", Told(None, "a"), Succeeds);
    longer := Move(config, t, call, Next(config, Last(t), call));
  }

  // A run in which the cell served "b" when the guard listed it, and is
  // relabelled for "a" before the deletes: the policy it is then served by goes.
  lemma LateComerIsDisturbed(config: Config) returns (t: Trace)
    ensures Runs(config, t) && |t.actions| == 10
    ensures t.worlds[6].clusters == [Cell("b")] && t.worlds[6].active == map["a" := CheckFleet(Mine(false))]
    ensures t.worlds[9].clusters == [Cell("a")] && t.worlds[9].active == map["a" := DeletePolicy]
    ensures ClusterReady(Cell("a")) && Disturbance.Disturbs(config, t.worlds[9].hub, t.worlds[10].hub, Cell("a"))
  {
    hide Starting, Follows, At, Disturbance.Disturbs, Unfailing, Cell, Mine;
    PolicyIsMissed(config);
    t := RemovalReachesDelete(config, false);
    t := Move(config, t, EditClusters([Cell("a")]),
              There(config, Some(Mine(false)), "a", CURRENT, Some(DeleteCopy(Mine(false)))));
    t := Delete(config, t, Mine(false), "a", CURRENT, Mine(false));
    t := PolicyDelete(config, t);
  }
}
