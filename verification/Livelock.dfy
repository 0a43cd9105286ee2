// A run that nobody disturbs and in which nothing fails, and that never
// settles: each read of the copy is one version behind.
module Livelock {
  import opened Api
  import opened Publication
  import opened Reconciling
  import opened WorkQueue
  import opened Protocol
  import opened Quieting
  import Races = PublishedAtRaces
  import Settling

  function At(config: Config, stamp: nat): Hub {
    Hub(map["a" := Races.Copy(stamp)], map[PolicyName("a") := AppliedPolicy(None, config, "a")])
  }

  function There(config: Config, stamp: nat, queue: Queue, active: map<Name, Phase>): World {
    World(map["a" := Races.THERE], At(config, stamp), [], queue, active)
  }

  // Waiting for a worker, with the last write's event still in flight.
  function Waiting(config: Config, stamp: nat, timers: set<Name>): World {
    There(config, stamp, Queue({"a"}, {"a"}, timers), map[])
  }

  function Told(stamp: nat): View {
    View(Some(Races.THERE), Some(Races.Copy(stamp)), 1, 1, [], 0, true)
  }

  ghost predicate UndisturbedSince(t: Trace, i: nat) {
    forall j :: i <= j < |t.actions| ==> Undisturbing(t.actions[j])
  }

  lemma Move(config: Config, t: Trace, action: Action, w: World) returns (longer: Trace)
    requires Runs(config, t) && |t.actions| >= 2 && UndisturbedSince(t, 2) && Undisturbing(action)
    requires Enabled(Last(t), action) && w == Next(config, Last(t), action)
    ensures Runs(config, longer) && UndisturbedSince(longer, 2)
    ensures longer.worlds == t.worlds + [w] && longer.actions == t.actions + [action]
  {
    hide Next, Enabled, Starting, Follows;
    longer := Go(config, t, action, w);
  }

  lemma ToldIsSeen(config: Config, stamp: nat, inFlight: set<Name>, dirty: set<Name>, phase: Phase, seen: nat)
    requires seen == stamp || inFlight == {"a"}
    ensures Sees(There(config, stamp, Queue(inFlight, dirty, {}), map["a" := phase]), "a", Told(seen))
  {
    assert "a" in map["a" := Races.THERE];
    assert "a" in Held(At(config, stamp));
  }

  lemma ToldAdvances(config: Config, stamp: nat, seen: nat)
    ensures var hub, before := At(config, stamp), Some(Races.Copy(seen));
            && Advance(config, "a", Start, hub, Told(seen), Succeeds) == (ReadForPublish(Races.THERE), hub)
            && Advance(config, "a", ReadForPublish(Races.THERE), hub, Told(seen), Succeeds)
               == (ApplyCopy(Races.THERE, before), hub)
            && Advance(config, "a", ApplyCopy(Races.THERE, before), hub, Told(stamp), Succeeds)
               == (ApplyPolicy(Races.THERE, before), At(config, seen))
            && Advance(config, "a", ApplyPolicy(Races.THERE, before), hub, Told(stamp), Succeeds)
               == (Returning(Done(config.resync)), hub)
  {
    hide GuardDecision, DesiredPolicySpec;
    assert CityCode(Races.THERE) == "DFW";
    var hub, labels := At(config, stamp), map[MANAGED_BY_LABEL := MANAGED_BY_VALUE];
    assert labels[MANAGED_BY_LABEL := MANAGED_BY_VALUE] == labels;
    assert PublishedAt(Some(Races.Copy(seen)), Races.THERE, 0) == seen;
    assert hub.copies["a" := AppliedCopy(Get(hub.copies, "a"), Races.THERE, seen)] == map["a" := Races.Copy(seen)];
    Settling.AppliedPolicyTwice(None, config, "a");
    assert hub.policies[PolicyName("a") := hub.policies[PolicyName("a")]] == hub.policies;
  }

  lemma OnlyTheCopyWakes(config: Config, stamp: nat, seen: nat)
    ensures Woken(At(config, stamp), At(config, seen)) == if seen == stamp then {} else {"a"}
  {
    assert At(config, stamp).copies - {"a"} == map[] == At(config, seen).copies - {"a"};
    LocalWritesWake(At(config, stamp), At(config, seen), "a");
    hide Woken;
    if seen != stamp {
      assert At(config, stamp).copies["a"].publishedAt != At(config, seen).copies["a"].publishedAt;
    }
  }

  lemma ToldCall(
      config: Config, t: Trace, stamp: nat, inFlight: set<Name>, dirty: set<Name>, phase: Phase, seen: nat,
      next: Phase, written: nat)
    returns (longer: Trace)
    requires Runs(config, t) && |t.actions| >= 2 && UndisturbedSince(t, 2)
    requires Last(t) == There(config, stamp, Queue(inFlight, dirty, {}), map["a" := phase]) && !phase.Returning?
    requires seen == stamp || inFlight == {"a"}
    requires Advance(config, "a", phase, At(config, stamp), Told(seen), Succeeds) == (next, At(config, written))
    ensures Runs(config, longer) && UndisturbedSince(longer, 2) && |longer.actions| == |t.actions| + 1
    ensures Last(longer)
            == There(config, written, Queue(inFlight + if written == stamp then {} else {"a"}, dirty, {}),
                     map["a" := next])
  {
    hide Runs, UndisturbedSince, Starting;
    var call := Call("a", Told(seen), Succeeds);
    var w := There(config, written, Queue(inFlight + if written == stamp then {} else {"a"}, dirty, {}),
                   map["a" := next]);
    CallMoves(config, stamp, inFlight, dirty, phase, seen, next, written);
    hide Next, Enabled, Advance, There;
    longer := Move(config, t, call, w);
  }

  lemma CallMoves(
      config: Config, stamp: nat, inFlight: set<Name>, dirty: set<Name>, phase: Phase, seen: nat,
      next: Phase, written: nat)
    requires (seen == stamp || inFlight == {"a"}) && !phase.Returning?
    requires Advance(config, "a", phase, At(config, stamp), Told(seen), Succeeds) == (next, At(config, written))
    ensures var w, call := There(config, stamp, Queue(inFlight, dirty, {}), map["a" := phase]),
                           Call("a", Told(seen), Succeeds);
            && Enabled(w, call)
            && Next(config, w, call)
               == There(config, written, Queue(inFlight + if written == stamp then {} else {"a"}, dirty, {}),
                        map["a" := next])
  {
    ToldIsSeen(config, stamp, inFlight, dirty, phase, seen);
    OnlyTheCopyWakes(config, stamp, written);
    hide Advance, Woken, Sees, At, Told;
    assert map["a" := phase]["a" := next] == map["a" := next];
  }

  lemma ReadsBehind(config: Config, t: Trace, stamp: nat, seen: nat, timers: set<Name>) returns (longer: Trace)
    requires Runs(config, t) && |t.actions| >= 2 && UndisturbedSince(t, 2)
    requires Last(t) == Waiting(config, stamp, timers) && timers <= {"a"}
    ensures Runs(config, longer) && UndisturbedSince(longer, 2) && |longer.actions| == |t.actions| + 3
    ensures Last(longer) == There(config, stamp, Queue({"a"}, {}, {}),
                                  map["a" := ApplyCopy(Races.THERE, Some(Races.Copy(seen)))])
  {
    ToldAdvances(config, stamp, seen);
    hide Advance, Runs, UndisturbedSince, At, Sees, Woken, Told, Races.Copy;
    assert timers - {"a"} == {} && {"a"} - {"a"} == {};
    var look := ReadForPublish(Races.THERE);
    longer := Move(config, t, Take("a", false), There(config, stamp, Queue({"a"}, {}, {}), map["a" := Start]));
    longer := ToldCall(config, longer, stamp, {"a"}, {}, Start, seen, look, stamp);
    longer := ToldCall(config, longer, stamp, {"a"}, {}, look, seen,
                       ApplyCopy(Races.THERE, Some(Races.Copy(seen))), stamp);
  }

  lemma WritesBack(config: Config, t: Trace, stamp: nat, seen: nat) returns (longer: Trace, timers: set<Name>)
    requires Runs(config, t) && |t.actions| >= 2 && UndisturbedSince(t, 2) && seen != stamp
    requires Last(t) == There(config, stamp, Queue({"a"}, {}, {}),
                              map["a" := ApplyCopy(Races.THERE, Some(Races.Copy(seen)))])
    ensures Runs(config, longer) && UndisturbedSince(longer, 2) && |longer.actions| == |t.actions| + 4
    ensures Last(longer) == Waiting(config, seen, timers) && timers <= {"a"}
  {
    ToldAdvances(config, stamp, seen);
    ToldAdvances(config, seen, seen);
    hide Advance, Runs, UndisturbedSince, At, Sees, Woken, Told, Races.Copy;
    var before := Some(Races.Copy(seen));
    longer := Move(config, t, Deliver("a"),
                   There(config, stamp, Queue({}, {"a"}, {}), map["a" := ApplyCopy(Races.THERE, before)]));
    longer := ToldCall(config, longer, stamp, {}, {"a"}, ApplyCopy(Races.THERE, before), stamp,
                       ApplyPolicy(Races.THERE, before), seen);
    longer := ToldCall(config, longer, seen, {"a"}, {"a"}, ApplyPolicy(Races.THERE, before), seen,
                       Returning(Done(config.resync)), seen);
    timers := if config.resync > 0 then {"a"} else {};
    longer := Move(config, longer, Finish("a"), Waiting(config, seen, timers));
  }

  lemma RunStarts(config: Config) returns (t: Trace)
    ensures Runs(config, t) && |t.actions| == 2 && UndisturbedSince(t, 2) && Last(t) == Waiting(config, 2, {})
  {
    var start := There(config, 1, Queue({"a"}, {}, {}), map[]);
    PolicyOwnersInvertsPolicyName(PolicyName("a"), "a");
    assert Everybody(start.source, start.hub) == {"a"};
    hide AppliedPolicy, Runs, Woken;
    t := Go(config, Trace([start], []), Deliver("a"), There(config, 1, Queue({}, {"a"}, {}), map[]));
    assert map["a" := Races.Copy(1)]["a" := Races.Copy(2)] == map["a" := Races.Copy(2)];
    t := Go(config, t, EditCopy("a", Some(Races.Copy(2))), Waiting(config, 2, {}));
  }

  // However many rounds one asks for, there is a run of that many in which,
  // after its first two actions, nobody edits, nothing fails and no timer
  // fires. So settling needs reads that are current.
  lemma {:induction false} LaggingReadsNeverSettle(config: Config, rounds: nat)
    returns (t: Trace, stamp: nat, timers: set<Name>)
    ensures Runs(config, t) && UndisturbedSince(t, 2) && |t.actions| == 2 + 7 * rounds
    ensures Last(t) == Waiting(config, stamp, timers) && timers <= {"a"} && (stamp == 1 || stamp == 2)
  {
    if rounds == 0 {
      t := RunStarts(config);
      stamp, timers := 2, {};
    } else {
      t, stamp, timers := LaggingReadsNeverSettle(config, rounds - 1);
      // The read of the copy is behind, the event arrives after it, and the
      // publish writes the older timestamp back.
      t := ReadsBehind(config, t, stamp, 3 - stamp, timers);
      t, timers := WritesBack(config, t, stamp, 3 - stamp);
      stamp := 3 - stamp;
    }
  }
}
