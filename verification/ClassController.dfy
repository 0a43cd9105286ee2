// The class controller as it runs: it edits the class it read in place and
// patches the difference.
module ClassController {
  import opened Api
  import opened ClassFinalizing
  import opened Listing
  import opened Stores
  import Publication
  import Text

  class LocationClassReconciler {
    const client: ControlPlane

    constructor (client: ControlPlane)
      ensures this.client == client
    {
      this.client := client;
    }

    // A reconcile leaves the classes as the call-by-call protocol does, for the
    // listing of the Locations naming the class it got and whatever fails.
    method Reconcile(name: Name, fates: map<ClassCall, Fate>) returns (outcome: Outcome, ghost listing: seq<Name>)
      modifies client`classes
      ensures Lists(listing, References(client.locations, name))
      ensures (outcome, client.classes) == ReconcileClass(name, old(client.classes), listing, fates)
    {
      hide RunClass;
      ghost var before := client.classes;
      listing := SomeListing(References(client.locations, name));
      if !FateOf(fates, GetClass).Succeeds? {
        ClassGoesOn(name, ReadClass, before, listing, fates, Returned(Failed), before);
        return Failed, listing;
      }
      if name !in client.classes {
        ClassGoesOn(name, ReadClass, before, listing, fates, FINISHED, before);
        return Done(0), listing;
      }
      var read := client.classes[name];
      if !read.terminating {
        outcome := HoldClass(name, read, listing, fates);
      } else {
        outcome, listing := ReleaseClass(name, read, fates);
        ClassGoesOn(name, ReadClass, before, listing, fates, ListReferences(read), before);
      }
    }

    method HoldClass(name: Name, read: LocationClass, ghost listing: seq<Name>, fates: map<ClassCall, Fate>)
      returns (outcome: Outcome)
      requires FateOf(fates, GetClass).Succeeds?
      requires name in client.classes && client.classes[name] == read && !read.terminating
      modifies client`classes
      ensures (outcome, client.classes) == ReconcileClass(name, old(client.classes), listing, fates)
    {
      hide RunClass;
      ghost var before := client.classes;
      if FINALIZER in read.finalizers {
        ClassGoesOn(name, ReadClass, before, listing, fates, FINISHED, before);
        return Done(0);
      }
      ClassGoesOn(name, ReadClass, before, listing, fates, Hold(read), before);
      var failed := client.WriteFinalizers(name, read.finalizers + [FINALIZER], FateOf(fates, PatchHold));
      ClassGoesOn(name, Hold(read), before, listing, fates,
                  if failed then Returned(Failed) else FINISHED, client.classes);
      outcome := if failed then Failed else Done(0);
    }

    method ReleaseClass(name: Name, read: LocationClass, fates: map<ClassCall, Fate>)
      returns (outcome: Outcome, ghost listing: seq<Name>)
      modifies client`classes
      ensures Lists(listing, References(client.locations, name))
      ensures (outcome, client.classes)
              == RunClass(name, ListReferences(read), old(client.classes), listing, fates)
    {
      hide RunClass, BlockedMessage;
      ghost var before := client.classes;
      var referencing := ReferencingLocations(name);
      listing := referencing;
      if !FateOf(fates, ListLocations).Succeeds? {
        ClassGoesOn(name, ListReferences(read), before, referencing, fates, Returned(Failed), before);
        return Failed, listing;
      }
      if |referencing| > 0 {
        outcome := RecordBlockedDeletion(name, read, referencing, fates);
        return;
      }
      if FINALIZER in read.finalizers {
        ClassGoesOn(name, ListReferences(read), before, referencing, fates, Release(read), before);
        var failed := client.WriteFinalizers(name, Others(read.finalizers), FateOf(fates, PatchRelease));
        ClassGoesOn(name, Release(read), before, referencing, fates,
                    if failed then Returned(Failed) else FINISHED, client.classes);
        return if failed then Failed else Done(0), listing;
      }
      ClassGoesOn(name, ListReferences(read), before, referencing, fates, FINISHED, before);
      outcome := Done(0);
    }

    method RecordBlockedDeletion(
        name: Name, read: LocationClass, referencing: seq<Name>, fates: map<ClassCall, Fate>)
      returns (outcome: Outcome)
      requires FateOf(fates, ListLocations).Succeeds? && |referencing| > 0
      modifies client`classes
      ensures (outcome, client.classes)
              == RunClass(name, ListReferences(read), old(client.classes), referencing, fates)
    {
      hide RunClass, BlockedMessage;
      ghost var before := client.classes;
      var message := BlockedMessage(referencing);
      if Lookup(read.annotations, Publication.BLOCKED_ANNOTATION) == message {
        ClassGoesOn(name, ListReferences(read), before, referencing, fates, BLOCKED, before);
        return Done(Publication.REMOVAL_BLOCKED_REQUEUE);
      }
      ClassGoesOn(name, ListReferences(read), before, referencing, fates, RecordDeletion(message), before);
      var failed := client.WriteAnnotation(name, message, FateOf(fates, PatchBlocked));
      ClassGoesOn(name, RecordDeletion(message), before, referencing, fates,
                  if failed then Returned(Failed) else BLOCKED, client.classes);
      outcome := if failed then Failed else Done(Publication.REMOVAL_BLOCKED_REQUEUE);
    }

    // The classes an event for a Location wakes: exactly those it is indexed
    // under.
    static method EnqueueLocalClass(location: Location) returns (requests: seq<Name>)
      ensures forall class' :: class' in requests <==>
                && Text.Blank(location.classRef.project) && Text.TrimSpace(location.classRef.name) == class'
                && class' != ""
    {
      forall class' {
        IndexByClassExactly(location.classRef, class');
      }
      hide Text.TrimSpace, Text.Blank;
      requests := [];
      var names := IndexByClass(location.classRef);
      for i := 0 to |names|
        invariant forall class' :: class' in requests <==> class' in names[..i]
      {
        requests := requests + [names[i]];
      }
      assert names[..|names|] == names;
    }

    // The names of the Locations indexed under the class, sorted.
    method ReferencingLocations(name: Name) returns (names: seq<Name>)
      ensures Lists(names, References(client.locations, name)) && Text.Sorted(names)
      ensures forall l :: l in names <==>
                && l in client.locations && Text.Blank(client.locations[l].classRef.project)
                && Text.TrimSpace(client.locations[l].classRef.name) == name && name != ""
    {
      forall l | l in client.locations {
        IndexByClassExactly(client.locations[l].classRef, name);
      }
      hide IndexByClass;
      var items := ListNames(client.locations.Keys);
      ghost var naming := References(client.locations, name);
      names := [];
      for i := 0 to |items|
        invariant Lists(names, Among(items[..i], naming))
      {
        AmongGrows(items, client.locations.Keys, i, naming);
        hide Lists;
        if name in IndexByClass(client.locations[items[i]].classRef) {
          AppendLists(names, Among(items[..i], naming), items[i]);
          names := names + [items[i]];
        }
      }
      AmongAll(items, client.locations.Keys, naming);
      SortedLists(names, naming);
      names := Text.SortStrings(names);
    }
  }
}
