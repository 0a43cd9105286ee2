// Whose object a publish overwrites: it looks for the label first, and forces
// its own in another call.
module TakingOver {
  import opened Api
  import opened Publication
  import opened Reconciling
  import opened WorkQueue
  import opened Protocol
  import DeletionSafety
  import Races = PublishedAtRaces

  // The read a publish under way rests on, and what edits since it have done.
  ghost predicate ReadAt(t: Trace, j: nat, k: nat, name: Name)
    requires |t.worlds| == |t.actions| + 1 && k < |t.worlds|
    requires name in t.worlds[k].active && t.worlds[k].active[name].ApplyCopy?
  {
    var phase := t.worlds[k].active[name];
    && j < k && Continuous(t, j, k, name)
    && DeletionSafety.CallsAt(t, j, name, ReadForPublish(phase.location))
    && t.actions[j].view.copy == phase.snapshot && !Foreign(phase.snapshot)
    && Get(t.worlds[k].hub.copies, name)
       == DeletionSafety.LastEdit(t.actions, j + 1, k, name, Get(t.worlds[j].hub.copies, name))
  }

  lemma ApplyIsEnteredByRead(config: Config, w: World, action: Action, name: Name)
    requires Enabled(w, action) && name in Next(config, w, action).active
    requires Next(config, w, action).active[name].ApplyCopy?
    ensures name in w.active
    ensures var phase := Next(config, w, action).active[name];
            || w.active[name] == phase
            || (&& action.Call? && action.name == name && action.fate.Succeeds?
                && w.active[name] == ReadForPublish(phase.location) && action.view.copy == phase.snapshot
                && !Foreign(phase.snapshot) && Next(config, w, action).hub == w.hub)
  {
    hide Publishable, PublishedAt, AppliedCopy, AppliedPolicy, GuardDecision, BlockedMessage, Woken, Sees;
  }

  lemma WaitingKeepsCopy(config: Config, w: World, action: Action, name: Name)
    requires Enabled(w, action) && !(action.Call? && action.name == name)
    ensures Get(Next(config, w, action).hub.copies, name)
            == if action.EditCopy? && action.name == name then action.copy else Get(w.hub.copies, name)
  {
    hide Advance, Woken, Sees;
    if action.Call? {
      AdvanceIsLocal(config, action.name, w.active[action.name], w.hub, action.view, action.fate);
      ElsewhereKeepsOthers(w.hub, Next(config, w, action).hub, action.name, name);
    }
  }

  lemma ApplyCallLeaves(config: Config, w: World, action: Action, name: Name)
    requires Enabled(w, action) && action.Call? && action.name == name && w.active[name].ApplyCopy?
    ensures !Next(config, w, action).active[name].ApplyCopy?
  {
    hide PublishedAt, AppliedCopy, Woken, Sees;
  }

  lemma {:induction false} PublishRestsOnRead(config: Config, t: Trace, k: nat, name: Name) returns (j: nat)
    requires Runs(config, t) && k < |t.worlds| && name in t.worlds[k].active && t.worlds[k].active[name].ApplyCopy?
    ensures ReadAt(t, j, k, name)
  {
    hide Next, Enabled;
    assert k > 0;
    ActionAt(config, t, k - 1);
    var w, action := t.worlds[k - 1], t.actions[k - 1];
    ApplyIsEnteredByRead(config, w, action, name);
    if w.active[name] == t.worlds[k].active[name] {
      j := PublishRestsOnRead(config, t, k - 1, name);
      if action.Call? && action.name == name {
        ApplyCallLeaves(config, w, action, name);
      }
      WaitingKeepsCopy(config, w, action, name);
    } else {
      j := k - 1;
    }
  }

  lemma ApplyOwns(config: Config, w: World, action: Action, name: Name)
    requires Enabled(w, action) && action.Call? && action.name == name && w.active[name].ApplyCopy?
    requires !action.fate.Refused?
    ensures name in Next(config, w, action).hub.copies && Owned(Next(config, w, action).hub.copies[name])
  {
    hide PublishedAt, Woken, Sees;
  }

  // On every run, however old what the publish read: the object it overwrites,
  // and owns from then on, is the one on the hub at that read, as edited by
  // others since. So it takes over a foreign object exactly when the last edit
  // since the read left one there or, with no edit since, it was there already
  // at the read, which an event in flight then hid.
  lemma OverwrittenObjectIsTheCopyRead(config: Config, t: Trace, k: nat, name: Name) returns (j: nat)
    requires Runs(config, t) && k < |t.actions| && t.actions[k].Call? && t.actions[k].name == name
    requires name in t.worlds[k].active && t.worlds[k].active[name].ApplyCopy? && !t.actions[k].fate.Refused?
    ensures ReadAt(t, j, k, name)
    ensures var there := Get(t.worlds[j].hub.copies, name);
            Foreign(Get(t.worlds[k].hub.copies, name))
            <==> Foreign(DeletionSafety.LastEdit(t.actions, j + 1, k, name, there))
    ensures Foreign(Get(t.worlds[j].hub.copies, name)) ==> name in t.worlds[j].queue.inFlight
    ensures name in t.worlds[k + 1].hub.copies && Owned(t.worlds[k + 1].hub.copies[name])
  {
    hide Next;
    j := PublishRestsOnRead(config, t, k, name);
    ActionAt(config, t, j);
    ActionAt(config, t, k);
    ApplyOwns(config, t.worlds[k], t.actions[k], name);
  }

  // ---- A run ----

  const THEIRS := ServingLocation(map[], map[], map[CITY_CODE_KEY := "IAD"], 7, 0)

  // A run in which somebody creates an object between the publish's read and
  // its apply, and the publish makes it its own.
  lemma TheirsIsTakenOver(config: Config) returns (t: Trace)
    ensures Runs(config, t) && |t.actions| == 6
    ensures t.actions[4] == EditCopy("a", Some(THEIRS)) && t.actions[5].Call?
    ensures Get(t.worlds[5].hub.copies, "a") == Some(THEIRS) && !Owned(THEIRS)
    ensures "a" in t.worlds[6].hub.copies && Owned(t.worlds[6].hub.copies["a"])
    ensures t.worlds[6].hub.copies["a"].topology == Races.THERE.topology
  {
    t := ReadFindsNothing(config);
    t := TheyAppear(config, t);
    t := ApplyLands(config, t);
  }

  lemma ReadFindsNothing(config: Config) returns (t: Trace)
    ensures Runs(config, t) && |t.actions| == 4 && |t.worlds| == 5
    ensures Last(t) == Races.There(None, {}, map["a" := ApplyCopy(Races.THERE, None)])
  {
    hide Advance, Races.Clocked, Races.At, Starting, Follows;
    t := Races.RunStarts(config);
    Races.ToldAdvances(config, None, None, 0);
    t := Races.Continue(config, t, Take("a", false), Races.There(None, {}, map["a" := Start]), 0, 0);
    t := Races.ToldCall(config, t, None, Start, None, 0, 0, ReadForPublish(Races.THERE), None);
    t := Races.ToldCall(config, t, None, ReadForPublish(Races.THERE), None, 0, 0,
                        ApplyCopy(Races.THERE, None), None);
  }

  function Appeared(): World {
    World(map["a" := Races.THERE], Hub(map["a" := THEIRS], map[]), [], Queue({"a"}, {}, {}),
          map["a" := ApplyCopy(Races.THERE, None)])
  }

  lemma TheyAppear(config: Config, t: Trace) returns (longer: Trace)
    requires Runs(config, t) && t.worlds != []
    requires Last(t) == Races.There(None, {}, map["a" := ApplyCopy(Races.THERE, None)])
    ensures Runs(config, longer) && longer.worlds == t.worlds + [Appeared()]
    ensures longer.actions == t.actions + [EditCopy("a", Some(THEIRS))]
  {
    hide Starting, Follows;
    longer := Go(config, t, EditCopy("a", Some(THEIRS)), Appeared());
  }

  lemma ApplyLands(config: Config, t: Trace) returns (longer: Trace)
    requires Runs(config, t) && t.worlds != [] && Last(t) == Appeared()
    ensures Runs(config, longer) && |longer.worlds| == |t.worlds| + 1 && longer.worlds[..|t.worlds|] == t.worlds
    ensures longer.actions == t.actions + [Call("a", Races.Told(None, 0), Succeeds)]
    ensures var copies := Last(longer).hub.copies;
            "a" in copies && Owned(copies["a"]) && copies["a"].topology == Races.THERE.topology
  {
    var call := Call("a", Races.Told(None, 0), Succeeds);
    hide Starting, Follows, Advance, Woken, Next, Enabled;
    longer := Go(config, t, call, Next(config, Last(t), call));
  }

}
