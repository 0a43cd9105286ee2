// Runs in which a lagging cache answers for the copy, and what its timestamp
// then says.
module PublishedAtRaces {
  import opened Api
  import opened Publication
  import opened Reconciling
  import opened WorkQueue
  import opened Protocol
  import opened PublishedAtHistory

  const THERE := Location(1, map[CITY_CODE_KEY := "DFW"], ClassReference("c", ""), false, [])

  function Copy(stamp: nat): ServingLocation {
    ServingLocation(map[MANAGED_BY_LABEL := MANAGED_BY_VALUE], map[], THERE.topology, 1, stamp)
  }

  // The hub before the first publish, or with a copy.
  function At(stamp: Option<nat>): Hub {
    if stamp.Some? then Hub(map["a" := Copy(stamp.value)], map[]) else Hub(map[], map[])
  }

  function Seeing(seen: Option<nat>): Option<ServingLocation> {
    if seen.Some? then Some(Copy(seen.value)) else None
  }

  // Once there is a copy, its event stays in flight.
  function There(stamp: Option<nat>, dirty: set<Name>, active: map<Name, Phase>): World {
    World(map["a" := THERE], At(stamp), [], Queue(if stamp.Some? then {"a"} else {}, dirty, {}), active)
  }

  function Told(seen: Option<nat>, now: nat): View {
    View(Some(THERE), Seeing(seen), 1, 0, [], now, true)
  }

  // No call so far was later than `now`.
  predicate Clocked(actions: seq<Action>, now: nat) {
    InOrder(actions) && forall i :: 0 <= i < |actions| && actions[i].Call? ==> actions[i].view.now <= now
  }

  lemma Continue(config: Config, t: Trace, action: Action, w: World, before: nat, now: nat) returns (longer: Trace)
    requires Maintained(config, t) && Clocked(t.actions, before) && before <= now
    requires Enabled(Last(t), action) && Respects(Last(t), action) && w == Next(config, Last(t), action)
    requires action.Call? ==> action.view.now == now
    ensures Maintained(config, longer) && Clocked(longer.actions, now)
    ensures longer.worlds == t.worlds + [w] && longer.actions == t.actions + [action]
  {
    hide Next, Enabled, Respects, Starting, Follows;
    longer := Go(config, t, action, w);
    forall i | 0 <= i < |longer.actions| ensures Respects(longer.worlds[i], longer.actions[i]) {
      if i < |t.actions| {
        assert Respects(t.worlds[i], t.actions[i]);
      }
    }
  }

  lemma ToldIsSeen(stamp: Option<nat>, active: map<Name, Phase>, seen: Option<nat>, now: nat)
    requires seen.Some? ==> stamp.Some?
    ensures Sees(There(stamp, {}, active), "a", Told(seen, now))
  {
    assert "a" in map["a" := THERE];
    assert forall name :: name in Held(At(stamp)) ==> name == "a";
  }

  function StampWritten(seen: Option<nat>, now: nat): nat {
    if seen.Some? then seen.value else now
  }

  lemma ToldAdvances(config: Config, stamp: Option<nat>, seen: Option<nat>, now: nat)
    ensures var hub, view := At(stamp), Told(seen, now);
            && Advance(config, "a", Start, hub, view, Succeeds) == (ReadForPublish(THERE), hub)
            && Advance(config, "a", ReadForPublish(THERE), hub, view, Succeeds)
               == (ApplyCopy(THERE, Seeing(seen)), hub)
            && Advance(config, "a", ApplyCopy(THERE, Seeing(seen)), hub, view, Succeeds)
               == (ApplyPolicy(THERE, Seeing(seen)), At(Some(StampWritten(seen, now))))
  {
    hide GuardDecision, AppliedPolicy;
    var labels := map[MANAGED_BY_LABEL := MANAGED_BY_VALUE];
    assert labels[MANAGED_BY_LABEL := MANAGED_BY_VALUE] == labels;
    var hub, written := At(stamp), StampWritten(seen, now);
    assert PublishedAt(Seeing(seen), THERE, now) == written;
    assert hub.copies["a" := AppliedCopy(Get(hub.copies, "a"), THERE, written)] == map["a" := Copy(written)];
  }

  lemma OnlyTheCopyWakes(stamp: Option<nat>, written: Option<nat>)
    requires written == stamp || written.Some?
    ensures There(stamp, {}, map[]).queue.inFlight + Woken(At(stamp), At(written))
            == There(written, {}, map[]).queue.inFlight
  {
    assert At(stamp).copies - {"a"} == map[] && At(written).copies - {"a"} == map[];
    LocalWritesWake(At(stamp), At(written), "a");
    hide Woken;
    if stamp.None? && written.Some? {
      assert "a" in At(written).copies && "a" !in At(stamp).copies;
    }
  }

  lemma ToldCall(
      config: Config, t: Trace, stamp: Option<nat>, phase: Phase, seen: Option<nat>, before: nat, now: nat,
      next: Phase, written: Option<nat>)
    returns (longer: Trace)
    requires Maintained(config, t) && Clocked(t.actions, before) && before <= now
    requires Last(t) == There(stamp, {}, map["a" := phase]) && !phase.Returning?
    requires (seen.Some? ==> stamp.Some?) && (written == stamp || written.Some?)
    requires Advance(config, "a", phase, At(stamp), Told(seen, now), Succeeds) == (next, At(written))
    ensures Maintained(config, longer) && Clocked(longer.actions, now)
    ensures longer.worlds == t.worlds + [There(written, {}, map["a" := next])]
    ensures longer.actions == t.actions + [Call("a", Told(seen, now), Succeeds)]
  {
    CallMoves(config, stamp, phase, seen, now, next, written);
    ToldIsKept(Last(t), seen, now, Succeeds);
    hide Maintained, Clocked, Next, Enabled, Respects, Advance, There;
    longer := Continue(config, t, Call("a", Told(seen, now), Succeeds), There(written, {}, map["a" := next]),
                       before, now);
  }

  lemma ToldIsKept(w: World, seen: Option<nat>, now: nat, fate: Fate)
    ensures Respects(w, Call("a", Told(seen, now), fate))
  {
  }

  lemma CallMoves(
      config: Config, stamp: Option<nat>, phase: Phase, seen: Option<nat>, now: nat,
      next: Phase, written: Option<nat>)
    requires !phase.Returning? && (seen.Some? ==> stamp.Some?) && (written == stamp || written.Some?)
    requires Advance(config, "a", phase, At(stamp), Told(seen, now), Succeeds) == (next, At(written))
    ensures var w, call := There(stamp, {}, map["a" := phase]), Call("a", Told(seen, now), Succeeds);
            && Enabled(w, call) && Next(config, w, call) == There(written, {}, map["a" := next])
  {
    ToldIsSeen(stamp, map["a" := phase], seen, now);
    OnlyTheCopyWakes(stamp, written);
    hide Advance, Woken, Sees, At;
    assert map["a" := phase]["a" := next] == map["a" := next];
  }

  // Taking the name and publishing it, the read of the copy answering `seen`.
  lemma Publishes(
      config: Config, t: Trace, stamp: Option<nat>, seen: Option<nat>, before: nat, now: nat)
    returns (longer: Trace)
    requires Maintained(config, t) && Clocked(t.actions, before) && before <= now
    requires Last(t) == There(stamp, {"a"}, map[]) && (seen.Some? ==> stamp.Some?)
    ensures Maintained(config, longer) && Clocked(longer.actions, now) && |longer.actions| == |t.actions| + 4
    ensures Last(longer)
            == There(Some(StampWritten(seen, now)), {}, map["a" := ApplyPolicy(THERE, Seeing(seen))])
    ensures longer.worlds[|longer.worlds| - 2] == There(stamp, {}, map["a" := ApplyCopy(THERE, Seeing(seen))])
    ensures longer.actions[|longer.actions| - 1] == Call("a", Told(seen, now), Succeeds)
  {
    ToldAdvances(config, stamp, seen, now);
    var written := Some(StampWritten(seen, now));
    hide Advance, Clocked, Maintained;
    longer := Continue(config, t, Take("a", false), There(stamp, {}, map["a" := Start]), before, before);
    longer := ToldCall(config, longer, stamp, Start, seen, before, now, ReadForPublish(THERE), stamp);
    longer := ToldCall(config, longer, stamp, ReadForPublish(THERE), seen, now, now,
                       ApplyCopy(THERE, Seeing(seen)), stamp);
    longer := ToldCall(config, longer, stamp, ApplyCopy(THERE, Seeing(seen)), seen, now, now,
                       ApplyPolicy(THERE, Seeing(seen)), written);
  }

  // The policy is refused, so the name goes back to the queue.
  lemma PolicyFails(config: Config, t: Trace, stamp: nat, seen: Option<nat>, now: nat) returns (longer: Trace)
    requires Maintained(config, t) && Clocked(t.actions, now)
    requires Last(t) == There(Some(stamp), {}, map["a" := ApplyPolicy(THERE, Seeing(seen))])
    ensures Maintained(config, longer) && Clocked(longer.actions, now) && |longer.actions| == |t.actions| + 2
    ensures Last(longer) == There(Some(stamp), {"a"}, map[])
  {
    RefusalMoves(config, stamp, seen, now);
    FinishMoves(config, stamp);
    ToldIsKept(Last(t), seen, now, Refused);
    hide Maintained, Clocked, Respects, Next, Enabled, At, Seeing;
    longer := Continue(config, t, Call("a", Told(seen, now), Refused),
                       There(Some(stamp), {}, map["a" := Returning(Failed)]), now, now);
    longer := Continue(config, longer, Finish("a"), There(Some(stamp), {"a"}, map[]), now, now);
  }

  lemma FinishMoves(config: Config, stamp: nat)
    ensures var w := There(Some(stamp), {}, map["a" := Returning(Failed)]);
            && Enabled(w, Finish("a")) && Respects(w, Finish("a"))
            && Next(config, w, Finish("a")) == There(Some(stamp), {"a"}, map[])
  {
  }

  lemma RefusalMoves(config: Config, stamp: nat, seen: Option<nat>, now: nat)
    ensures var w := There(Some(stamp), {}, map["a" := ApplyPolicy(THERE, Seeing(seen))]);
            var call := Call("a", Told(seen, now), Refused);
            && Enabled(w, call) && Next(config, w, call) == There(Some(stamp), {}, map["a" := Returning(Failed)])
  {
    ToldIsSeen(Some(stamp), map["a" := ApplyPolicy(THERE, Seeing(seen))], seen, now);
    OnlyTheCopyWakes(Some(stamp), Some(stamp));
    hide Woken, Sees, At, Seeing, AppliedPolicy;
  }

  lemma RunStarts(config: Config) returns (t: Trace)
    ensures Maintained(config, t) && Clocked(t.actions, 0) && |t.actions| == 1
    ensures Last(t) == There(None, {"a"}, map[])
  {
    var start := There(None, {}, map[]).(queue := Queue({"a"}, {}, {}));
    assert Everybody(start.source, start.hub) == {"a"};
    t := Continue(config, Trace([start], []), Deliver("a"), There(None, {"a"}, map[]), 0, 0);
  }

  // A retry that does not see the copy it has just written stamps it anew
  // though its content has not changed: an uninformed publish.
  lemma LaggingReadRestamps(config: Config) returns (t: Trace)
    ensures Maintained(config, t) && Clocked(t.actions, 2) && |t.actions| == 11
    ensures t.worlds[10].hub == At(Some(1)) && t.worlds[11].hub == At(Some(2))
    ensures Last(t) == There(Some(2), {}, map["a" := ApplyPolicy(THERE, None)])
    ensures !Faithful(t.worlds[10], t.actions[10], "a") && !Tracks(t, 11, "a")
  {
    hide Respects, Follows, Starting, Clocked, At, Tracks;
    t := RunStarts(config);
    t := Publishes(config, t, None, None, 0, 1);
    t := PolicyFails(config, t, 1, None, 1);
    t := Publishes(config, t, Some(1), None, 1, 2);
    RestampIsUnfaithful();
    PublishedAtIsLastChangeExactly(config, t, 11, "a");
  }

  lemma RestampIsUnfaithful()
    ensures !Faithful(There(Some(1), {}, map["a" := ApplyCopy(THERE, None)]), Call("a", Told(None, 2), Succeeds), "a")
  {
    assert Get(At(Some(1)).copies, "a") == Some(Copy(1)) && SameContent(Copy(1), THERE);
  }

  // A retry that sees the copy as it was before that moves publishedAt back,
  // under a clock that does not.
  lemma LaggingReadGoesBack(config: Config) returns (t: Trace)
    ensures Maintained(config, t) && InOrder(t.actions) && |t.actions| == 17
    ensures t.worlds[16].hub == At(Some(2)) && t.worlds[17].hub == At(Some(1))
  {
    hide Respects, Follows, Starting, Tracks;
    t := LaggingReadRestamps(config);
    t := PolicyFails(config, t, 2, None, 2);
    t := Publishes(config, t, Some(2), Some(1), 2, 3);
  }
}
