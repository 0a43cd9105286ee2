// Which location a cell serves: pkg/locationidentity.
module Identity {
  import opened Api

  datatype Source = Delivered | Configured

  datatype Reason = NoLocationIdentity | AmbiguousLocationIdentity

  datatype Resolution =
    | Resolved(name: Name, source: Source, mismatch: bool)
    | Unresolved(reason: Reason)
    | ReadFailed

  // `delivered` lists the ServingLocations on the cell, None when the list
  // call failed; `configured` is "" when no location is configured.
  function Resolve(delivered: Option<seq<Name>>, configured: Name): Resolution {
    if delivered.None? then ReadFailed
    else if |delivered.value| == 1 then
      var name := delivered.value[0];
      Resolved(name, Delivered, configured != "" && configured != name)
    else if |delivered.value| > 1 then
      if configured != "" then Resolved(configured, Configured, false) else Unresolved(AmbiguousLocationIdentity)
    else if configured != "" then Resolved(configured, Configured, false)
    else Unresolved(NoLocationIdentity)
  }

  // What a cell is given decides: without an answer nothing is resolved, one
  // location is taken, and anything else leaves the configured one, if any.
  lemma ResolvesExactly(delivered: Option<seq<Name>>, configured: Name, name: Name)
    ensures Resolve(delivered, configured) == ReadFailed <==> delivered.None?
    ensures Resolve(delivered, configured) == Resolved(name, Delivered, configured !in {"", name}) <==>
            delivered == Some([name])
    ensures Resolve(delivered, configured) == Resolved(name, Configured, false) <==>
            delivered.Some? && |delivered.value| != 1 && name == configured != ""
    ensures Resolve(delivered, configured) == Unresolved(NoLocationIdentity) <==>
            delivered == Some([]) && configured == ""
  {
    if delivered.Some? && |delivered.value| == 1 {
      assert delivered.value == [delivered.value[0]];
    }
  }

  // A cell that has been given two locations or more refuses to guess exactly
  // when none is configured: a configured one it takes, whether it is among
  // them or not.
  lemma RefusesToGuessExactly(delivered: seq<Name>, configured: Name)
    requires |delivered| >= 2
    ensures Resolve(Some(delivered), configured) == Unresolved(AmbiguousLocationIdentity) <==> configured == ""
    ensures configured != "" ==> Resolve(Some(delivered), configured) == Resolved(configured, Configured, false)
  {
  }

  // One that does not refuse, and takes a location that it was not given.
  lemma GuessesAnother()
    ensures Resolve(Some(["dfw", "iad"]), "lhr") == Resolved("lhr", Configured, false)
  {
  }
}
