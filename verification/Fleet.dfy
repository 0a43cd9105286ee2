// The fleet counts the publisher reports, and what their difference means.
module Fleet {
  import opened Api
  import opened Publication
  import opened Reconciling
  import opened Protocol
  import Convergence
  import Text

  function PublishableNames(source: map<Name, Location>): set<Name> {
    set name | name in source && Publishable(source[name])
  }

  // Owned copies no removal is blocked on.
  function LiveNames(hub: Hub): set<Name> {
    set name | name in Held(hub) && !Blocked(hub.copies[name])
  }

  function RetainedNames(hub: Hub): set<Name> {
    set name | name in Held(hub) && Blocked(hub.copies[name])
  }

  lemma CountsConserve(hub: Hub)
    ensures |LiveNames(hub)| + |RetainedNames(hub)| == |Held(hub)|
    ensures forall name :: name in LiveNames(hub) <==>
              && name in hub.copies && Get(hub.copies[name].labels, MANAGED_BY_LABEL) == Some(MANAGED_BY_VALUE)
              && BLOCKED_ANNOTATION !in hub.copies[name].annotations
    ensures forall name :: name in RetainedNames(hub) <==>
              && name in hub.copies && Get(hub.copies[name].labels, MANAGED_BY_LABEL) == Some(MANAGED_BY_VALUE)
              && BLOCKED_ANNOTATION in hub.copies[name].annotations
  {
    assert LiveNames(hub) + RetainedNames(hub) == Held(hub);
    assert LiveNames(hub) !! RetainedNames(hub);
  }

  lemma PublishableExactly(source: map<Name, Location>, name: Name)
    ensures name in PublishableNames(source) <==>
            name in source && !Text.Blank(Lookup(source[name].topology, CITY_CODE_KEY))
  {
    if name in source {
      CityCodeExactly(source[name]);
    }
  }

  // publishable - published is the number of publishable Locations without a
  // live copy, less the live copies no publishable Location stands behind.
  lemma GapCounts(source: map<Name, Location>, hub: Hub)
    ensures |PublishableNames(source)| - |LiveNames(hub)|
            == |PublishableNames(source) - LiveNames(hub)| - |LiveNames(hub) - PublishableNames(source)|
  {
    var publishable, live := PublishableNames(source), LiveNames(hub);
    assert publishable == (publishable - live) + (publishable * live);
    assert live == (live - publishable) + (publishable * live);
  }

  // The difference is the documented gap, "locations not published", exactly
  // when no live copy is stale.
  lemma GapIsDocumentedExactly(source: map<Name, Location>, hub: Hub)
    ensures |PublishableNames(source)| - |LiveNames(hub)| == |PublishableNames(source) - LiveNames(hub)|
            <==> LiveNames(hub) <= PublishableNames(source)
  {
    GapCounts(source, hub);
    var stale := LiveNames(hub) - PublishableNames(source);
    if LiveNames(hub) <= PublishableNames(source) {
      assert stale == {};
    } else {
      var name :| name in LiveNames(hub) && name !in PublishableNames(source);
      assert name in stale;
    }
  }

  // Publishable Locations whose hub object is somebody else's.
  function ConflictedNames(source: map<Name, Location>, hub: Hub): set<Name> {
    set name | name in PublishableNames(source) && Foreign(Get(hub.copies, name))
  }

  // Live copies whose Location has lost its city code, or is gone with the
  // removal waiting on a timer.
  function StaleNames(source: map<Name, Location>, hub: Hub, timers: set<Name>): set<Name> {
    set name | name in LiveNames(hub) && if name in source then !Publishable(source[name]) else name in timers
  }

  // What the gap means over every run: once every name has gone quiet, the two
  // gauges differ by the conflicted names less the stale ones, so that the
  // documented gap is the conflicts exactly when nothing is stale.
  lemma QuietGapCounts(config: Config, t: Trace, k: nat)
    requires Runs(config, t) && k < |t.worlds|
    requires forall name :: t.worlds[k].queue.Quiet(name) && name !in t.worlds[k].active
    ensures var w := t.worlds[k];
            && PublishableNames(w.source) - LiveNames(w.hub) == ConflictedNames(w.source, w.hub)
            && LiveNames(w.hub) - PublishableNames(w.source) == StaleNames(w.source, w.hub, w.queue.timers)
            && |PublishableNames(w.source)| - |LiveNames(w.hub)|
               == |ConflictedNames(w.source, w.hub)| - |StaleNames(w.source, w.hub, w.queue.timers)|
  {
    hide Runs, Publishable, Held, Foreign, Blocked;
    var w := t.worlds[k];
    forall name {
      QuietNameCounts(config, t, k, name);
    }
    GapCounts(w.source, w.hub);
    assert PublishableNames(w.source) - LiveNames(w.hub) == ConflictedNames(w.source, w.hub);
    assert LiveNames(w.hub) - PublishableNames(w.source) == StaleNames(w.source, w.hub, w.queue.timers);
  }

  lemma QuietNameCounts(config: Config, t: Trace, k: nat, name: Name)
    requires Runs(config, t) && k < |t.worlds| && t.worlds[k].queue.Quiet(name) && name !in t.worlds[k].active
    ensures var w := t.worlds[k];
            && (name in PublishableNames(w.source) ==>
                  (name in LiveNames(w.hub) <==> !Foreign(Get(w.hub.copies, name))))
            && (name in LiveNames(w.hub) ==> name in w.source || name in w.queue.timers)
  {
    hide Runs, Publishable, Convergence.Placed;
    Convergence.QuiescenceMeansConvergence(config, t, k, name);
  }
}
