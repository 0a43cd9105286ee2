// The finalizer on a LocationClass: what a reconcile of one class does, call by
// call.
module ClassFinalizing {
  import opened Api
  import opened Listing
  import Publication
  import Text

  const FINALIZER := "location-exists-finalizer.locations.miloapis.com"
  const BLOCKED_REASON := "LocationsStillReference"
  const BLOCKED_SAMPLE := 10

  // ---- Which class a Location names ----

  // IndexLocationsByClass: the local class named, if any.
  function IndexByClass(reference: ClassReference): seq<Name> {
    if Text.TrimSpace(reference.project) != "" then []
    else
      var name := Text.TrimSpace(reference.name);
      if name == "" then [] else [name]
  }

  // A reference names a class of this control plane exactly when it has no
  // project and the class's name, white space around either aside.
  lemma IndexByClassExactly(reference: ClassReference, class': Name)
    ensures class' in IndexByClass(reference) <==>
            Text.Blank(reference.project) && Text.TrimSpace(reference.name) == class' && class' != ""
  {
    Text.TrimmedExactly(reference.project);
  }

  predicate NamesClass(location: Location, class': Name) {
    class' in IndexByClass(location.classRef)
  }

  // The Locations indexed under a class.
  function References(locations: map<Name, Location>, class': Name): set<Name> {
    set name | name in locations && NamesClass(locations[name], class')
  }

  // ---- Finalizers ----

  predicate Holds(finalizers: seq<string>) {
    FINALIZER in finalizers
  }

  // controllerutil.RemoveFinalizer: every occurrence goes, the rest keep their
  // order.
  function Others(finalizers: seq<string>): (r: seq<string>)
    ensures forall f :: f in r <==> f in finalizers && f != FINALIZER
    ensures !Holds(finalizers) ==> r == finalizers
  {
    if finalizers == [] then []
    else if finalizers[0] == FINALIZER then Others(finalizers[1..])
    else [finalizers[0]] + Others(finalizers[1..])
  }

  lemma {:induction false} OthersOfHeld(finalizers: seq<string>)
    ensures Others(finalizers + [FINALIZER]) == Others(finalizers)
  {
    if finalizers == [] {
      assert Others([FINALIZER]) == Others([FINALIZER][1..]);
    } else {
      OthersOfHeld(finalizers[1..]);
      assert (finalizers + [FINALIZER])[1..] == finalizers[1..] + [FINALIZER];
    }
  }

  // ---- The API server ----

  // An update of a class. A class that is being deleted goes once its last
  // finalizer is gone.
  function UpdateClass(classes: map<Name, LocationClass>, name: Name, class': LocationClass): map<Name, LocationClass> {
    if class'.terminating && class'.finalizers == [] then classes - {name} else classes[name := class']
  }

  // Deleting a class that has finalizers only marks it.
  function DeleteClass(classes: map<Name, LocationClass>, name: Name): map<Name, LocationClass> {
    if name in classes then UpdateClass(classes, name, classes[name].(terminating := true)) else classes
  }

  // A merge patch replaces the whole list. The API server refuses new
  // finalizers on a class that is being deleted.
  predicate PatchRefused(classes: map<Name, LocationClass>, name: Name, finalizers: seq<string>, fate: Fate) {
    || name !in classes || fate.Refused?
    || (classes[name].terminating && exists f :: f in finalizers && f !in classes[name].finalizers)
  }

  function PatchFinalizers(
      classes: map<Name, LocationClass>, name: Name, finalizers: seq<string>, fate: Fate
    ): map<Name, LocationClass>
  {
    if PatchRefused(classes, name, finalizers, fate) then classes
    else UpdateClass(classes, name, classes[name].(finalizers := finalizers))
  }

  function PatchAnnotation(
      classes: map<Name, LocationClass>, name: Name, message: string, fate: Fate
    ): map<Name, LocationClass>
  {
    if name !in classes || fate.Refused? then classes
    else
      var class' := classes[name];
      UpdateClass(classes, name,
                  class'.(annotations := class'.annotations[Publication.BLOCKED_ANNOTATION := message]))
  }

  // ---- A reconcile, call by call ----

  datatype ClassPhase =
    | ReadClass
    | Hold(snapshot: LocationClass)
    | ListReferences(snapshot: LocationClass)
    | RecordDeletion(message: string)
    | Release(snapshot: LocationClass)
    | Returned(outcome: Outcome)
  {
    function CallsLeft(): nat {
      match this
      case ReadClass => 3
      case ListReferences(_) => 2
      case Returned(_) => 0
      case _ => 1
    }
  }

  datatype ClassView = ClassView(class': Option<LocationClass>, references: seq<Name>)

  function BlockedMessage(references: seq<Name>): string {
    var names := Text.SortStrings(references);
    var sample := if |names| > BLOCKED_SAMPLE then names[..BLOCKED_SAMPLE] else names;
    var suffix := if |names| > BLOCKED_SAMPLE then ", ..." else "";
    BLOCKED_REASON + ": " + Text.Decimal(|names|) + " location(s) still name this class: "
    + Text.Join(sample, ", ") + suffix
  }

  // The blocked message does not depend on the order Locations are listed in.
  lemma BlockedMessageCanonical(a: seq<Name>, b: seq<Name>, names: set<Name>)
    requires Lists(a, names) && Lists(b, names)
    ensures BlockedMessage(a) == BlockedMessage(b)
  {
    ListMultiset(a, names);
    ListMultiset(b, names);
    Text.SortCanonical(a, b);
  }

  // It counts every Location naming the class and shows the first ten of them,
  // in name order.
  lemma BlockedMessageShowsFirst(references: seq<Name>, names: set<Name>) returns (sample: seq<Name>)
    requires Lists(references, names)
    ensures Text.Sorted(sample) && |sample| == if |names| > BLOCKED_SAMPLE then BLOCKED_SAMPLE else |names|
    ensures forall name :: name in sample ==> name in names
    ensures forall name, shown :: name in names && name !in sample && shown in sample ==> Text.Before(shown, name)
    ensures BlockedMessage(references)
            == BLOCKED_REASON + ": " + Text.Decimal(|names|) + " location(s) still name this class: "
               + Text.Join(sample, ", ") + if |names| > BLOCKED_SAMPLE then ", ..." else ""
  {
    SortedLists(references, names);
    hide Text.SortStrings, Text.Decimal, Text.Join;
    var sorted := Text.SortStrings(references);
    sample := if |sorted| > BLOCKED_SAMPLE then sorted[..BLOCKED_SAMPLE] else sorted;
    forall name, shown | name in names && name !in sample && shown in sample ensures Text.Before(shown, name) {
      assert name in sorted;
      var i, j :| 0 <= i < |sample| && sample[i] == shown && 0 <= j < |sorted| && sorted[j] == name;
      assert i < j;
    }
  }

  function AfterWrite(refused: bool, fate: Fate, next: ClassPhase): ClassPhase {
    if refused || !fate.Succeeds? then Returned(Failed) else next
  }

  const BLOCKED := Returned(Done(Publication.REMOVAL_BLOCKED_REQUEUE))
  const FINISHED := Returned(Done(0))

  function AdvanceClass(
      name: Name, phase: ClassPhase, classes: map<Name, LocationClass>, view: ClassView, fate: Fate
    ): (ClassPhase, map<Name, LocationClass>)
    requires !phase.Returned?
  {
    match phase
    case ReadClass =>
      (if !fate.Succeeds? then Returned(Failed)
       else if view.class'.None? then FINISHED
       else if view.class'.value.terminating then ListReferences(view.class'.value)
       else if Holds(view.class'.value.finalizers) then FINISHED
       else Hold(view.class'.value), classes)
    case Hold(snapshot) =>
      var finalizers := snapshot.finalizers + [FINALIZER];
      (AfterWrite(PatchRefused(classes, name, finalizers, fate), fate, FINISHED),
       PatchFinalizers(classes, name, finalizers, fate))
    case ListReferences(snapshot) =>
      var message := BlockedMessage(view.references);
      (if !fate.Succeeds? then Returned(Failed)
       else if |view.references| > 0 then
         if Lookup(snapshot.annotations, Publication.BLOCKED_ANNOTATION) == message then BLOCKED
         else RecordDeletion(message)
       else if Holds(snapshot.finalizers) then Release(snapshot)
       else FINISHED, classes)
    case RecordDeletion(message) =>
      (AfterWrite(name !in classes, fate, BLOCKED), PatchAnnotation(classes, name, message, fate))
    case Release(snapshot) =>
      var finalizers := Others(snapshot.finalizers);
      (AfterWrite(PatchRefused(classes, name, finalizers, fate), fate, FINISHED),
       PatchFinalizers(classes, name, finalizers, fate))
  }

  lemma AdvanceClassIsLocal(
      name: Name, phase: ClassPhase, classes: map<Name, LocationClass>, view: ClassView, fate: Fate, other: Name)
    requires !phase.Returned? && other != name
    ensures Get(AdvanceClass(name, phase, classes, view, fate).1, other) == Get(classes, other)
  {
    hide BlockedMessage, Others;
  }

  // ---- A whole reconcile, undisturbed ----

  datatype ClassCall = GetClass | PatchHold | ListLocations | PatchBlocked | PatchRelease

  function CallOf(phase: ClassPhase): ClassCall
    requires !phase.Returned?
  {
    match phase
    case ReadClass => GetClass
    case Hold(_) => PatchHold
    case ListReferences(_) => ListLocations
    case RecordDeletion(_) => PatchBlocked
    case Release(_) => PatchRelease
  }

  function FateOf(fates: map<ClassCall, Fate>, call: ClassCall): Fate {
    if call in fates then fates[call] else Succeeds
  }

  // `listing` is the order the API lists the Locations naming the class in.
  function RunClass(
      name: Name, phase: ClassPhase, classes: map<Name, LocationClass>, listing: seq<Name>,
      fates: map<ClassCall, Fate>
    ): (Outcome, map<Name, LocationClass>)
    decreases phase.CallsLeft()
  {
    if phase.Returned? then (phase.outcome, classes)
    else
      var view, fate := ClassView(Get(classes, name), listing), FateOf(fates, CallOf(phase));
      var (next, classes') := AdvanceClass(name, phase, classes, view, fate);
      RunClass(name, next, classes', listing, fates)
  }

  function ReconcileClass(
      name: Name, classes: map<Name, LocationClass>, listing: seq<Name>, fates: map<ClassCall, Fate>
    ): (Outcome, map<Name, LocationClass>)
  {
    RunClass(name, ReadClass, classes, listing, fates)
  }

  lemma ClassGoesOn(
      name: Name, phase: ClassPhase, classes: map<Name, LocationClass>, listing: seq<Name>,
      fates: map<ClassCall, Fate>, next: ClassPhase, classes': map<Name, LocationClass>)
    requires !phase.Returned?
    requires (next, classes') == AdvanceClass(
      name, phase, classes, ClassView(Get(classes, name), listing), FateOf(fates, CallOf(phase)))
    ensures RunClass(name, phase, classes, listing, fates) == RunClass(name, next, classes', listing, fates)
    ensures next.Returned? ==> RunClass(name, phase, classes, listing, fates) == (next.outcome, classes')
  {
    hide AdvanceClass;
  }

  // What an undisturbed, fault-free reconcile leaves of its class: a live class
  // is held, a terminating one is released when nothing names it and otherwise
  // carries the reason it is still there. Its other finalizers stay.
  function Finalized(class': LocationClass, listing: seq<Name>): Option<LocationClass> {
    if !class'.terminating then
      Some(if Holds(class'.finalizers) then class' else class'.(finalizers := class'.finalizers + [FINALIZER]))
    else if |listing| > 0 then
      Some(class'.(annotations := class'.annotations[Publication.BLOCKED_ANNOTATION := BlockedMessage(listing)]))
    else if !Holds(class'.finalizers) then Some(class')
    else if Others(class'.finalizers) == [] then None
    else Some(class'.(finalizers := Others(class'.finalizers)))
  }

  // No object outlives its last finalizer once it is being deleted.
  predicate Stored(class': LocationClass) {
    class'.terminating ==> class'.finalizers != []
  }

  lemma ReconcileFinalizes(name: Name, classes: map<Name, LocationClass>, listing: seq<Name>)
    requires name in classes && Stored(classes[name])
    ensures ReconcileClass(name, classes, listing, map[]).1 == Put(classes, name, Finalized(classes[name], listing))
    ensures ReconcileClass(name, classes, listing, map[]).0
            == Done(if classes[name].terminating && |listing| > 0 then Publication.REMOVAL_BLOCKED_REQUEUE else 0)
  {
    var class' := classes[name];
    hide RunClass, BlockedMessage, Others;
    assert classes[name := class'] == classes;
    if !class'.terminating {
      if Holds(class'.finalizers) {
        ClassGoesOn(name, ReadClass, classes, listing, map[], FINISHED, classes);
      } else {
        ClassGoesOn(name, ReadClass, classes, listing, map[], Hold(class'), classes);
        ClassGoesOn(name, Hold(class'), classes, listing, map[], FINISHED,
                    classes[name := class'.(finalizers := class'.finalizers + [FINALIZER])]);
      }
    } else {
      ClassGoesOn(name, ReadClass, classes, listing, map[], ListReferences(class'), classes);
      ReleaseFinalizes(name, classes, listing);
    }
  }

  // Locations whose references go to other projects do not hold a class: with no
  // others naming it, a terminating class is released.
  lemma OtherProjectsDoNotHold(
      name: Name, locations: map<Name, Location>, classes: map<Name, LocationClass>, listing: seq<Name>)
    requires name in classes && Stored(classes[name]) && classes[name].terminating
    requires forall l :: l in locations && Text.TrimSpace(locations[l].classRef.name) == name ==>
               !Text.Blank(locations[l].classRef.project)
    requires Lists(listing, References(locations, name))
    ensures var after := Get(ReconcileClass(name, classes, listing, map[]).1, name);
            after.None? || FINALIZER !in after.value.finalizers
  {
    forall l | l in locations ensures !NamesClass(locations[l], name) {
      IndexByClassExactly(locations[l].classRef, name);
    }
    assert References(locations, name) == {};
    ReconcileFinalizes(name, classes, listing);
    hide ReconcileClass, IndexByClass;
  }

  lemma ReleaseFinalizes(name: Name, classes: map<Name, LocationClass>, listing: seq<Name>)
    requires name in classes && Stored(classes[name]) && classes[name].terminating
    ensures RunClass(name, ListReferences(classes[name]), classes, listing, map[]).0
            == Done(if |listing| > 0 then Publication.REMOVAL_BLOCKED_REQUEUE else 0)
    ensures RunClass(name, ListReferences(classes[name]), classes, listing, map[]).1
            == Put(classes, name, Finalized(classes[name], listing))
  {
    hide RunClass, BlockedMessage, PatchRefused, PatchFinalizers, PatchAnnotation, UpdateClass, Others;
    var class' := classes[name];
    if |listing| > 0 {
      BlockFinalizes(name, classes, listing);
    } else if Holds(class'.finalizers) {
      ClassGoesOn(name, ListReferences(class'), classes, listing, map[], Release(class'), classes);
      TakeOffFinalizes(name, classes, listing);
    } else {
      assert classes[name := class'] == classes;
      ClassGoesOn(name, ListReferences(class'), classes, listing, map[], FINISHED, classes);
    }
  }

  lemma TakeOffFinalizes(name: Name, classes: map<Name, LocationClass>, listing: seq<Name>)
    requires name in classes && classes[name].terminating && listing == [] && Holds(classes[name].finalizers)
    ensures RunClass(name, Release(classes[name]), classes, listing, map[])
            == (Done(0), Put(classes, name, Finalized(classes[name], listing)))
  {
    hide RunClass, BlockedMessage;
    ClassGoesOn(name, Release(classes[name]), classes, listing, map[], FINISHED,
                Put(classes, name, Finalized(classes[name], listing)));
  }

  lemma BlockFinalizes(name: Name, classes: map<Name, LocationClass>, listing: seq<Name>)
    requires name in classes && Stored(classes[name]) && classes[name].terminating && |listing| > 0
    ensures RunClass(name, ListReferences(classes[name]), classes, listing, map[]).0
            == Done(Publication.REMOVAL_BLOCKED_REQUEUE)
    ensures RunClass(name, ListReferences(classes[name]), classes, listing, map[]).1
            == Put(classes, name, Finalized(classes[name], listing))
  {
    hide RunClass, BlockedMessage, PatchRefused, PatchFinalizers, Others;
    var class', message := classes[name], BlockedMessage(listing);
    MessageNotEmpty(listing);
    var recorded := class'.(annotations := class'.annotations[Publication.BLOCKED_ANNOTATION := message]);
    assert Finalized(class', listing) == Some(recorded);
    hide AdvanceClass;
    if Lookup(class'.annotations, Publication.BLOCKED_ANNOTATION) == message {
      assert recorded.annotations == class'.annotations;
      assert classes[name := class'] == classes;
      ListedGoesOn(name, class', classes, listing, BLOCKED);
    } else {
      ListedGoesOn(name, class', classes, listing, RecordDeletion(message));
      RecordFinalizes(name, classes, listing, message);
    }
  }

  lemma ListedGoesOn(
      name: Name, class': LocationClass, classes: map<Name, LocationClass>, listing: seq<Name>, next: ClassPhase)
    requires |listing| > 0
    requires next == if Lookup(class'.annotations, Publication.BLOCKED_ANNOTATION) == BlockedMessage(listing)
                     then BLOCKED else RecordDeletion(BlockedMessage(listing))
    ensures RunClass(name, ListReferences(class'), classes, listing, map[])
            == RunClass(name, next, classes, listing, map[])
    ensures next.Returned? ==> RunClass(name, next, classes, listing, map[]) == (next.outcome, classes)
  {
    hide RunClass, BlockedMessage;
    ClassGoesOn(name, ListReferences(class'), classes, listing, map[], next, classes);
  }

  lemma RecordFinalizes(name: Name, classes: map<Name, LocationClass>, listing: seq<Name>, message: string)
    requires name in classes && Stored(classes[name])
    ensures var recorded := classes[name].(
              annotations := classes[name].annotations[Publication.BLOCKED_ANNOTATION := message]);
            RunClass(name, RecordDeletion(message), classes, listing, map[])
            == (Done(Publication.REMOVAL_BLOCKED_REQUEUE), classes[name := recorded])
  {
    hide RunClass, BlockedMessage, PatchRefused, PatchFinalizers, Others;
    var recorded := classes[name].(
      annotations := classes[name].annotations[Publication.BLOCKED_ANNOTATION := message]);
    ClassGoesOn(name, RecordDeletion(message), classes, listing, map[], BLOCKED, classes[name := recorded]);
  }

  lemma MessageNotEmpty(listing: seq<Name>)
    ensures |BlockedMessage(listing)| > 0
  {
    hide Text.SortStrings, Text.Decimal, Text.Join;
  }

  // Settling: with the Locations unchanged, a second reconcile writes nothing,
  // whatever order they are listed in.
  lemma FinalizedTwice(class': LocationClass, a: seq<Name>, b: seq<Name>, names: set<Name>)
    requires Lists(a, names) && Lists(b, names)
    ensures Finalized(class', a).Some? ==> Finalized(Finalized(class', a).value, b) == Finalized(class', a)
  {
    BlockedMessageCanonical(a, b, names);
    hide BlockedMessage;
    if class'.terminating && |a| > 0 {
      var message := BlockedMessage(a);
      assert class'.annotations[Publication.BLOCKED_ANNOTATION := message][Publication.BLOCKED_ANNOTATION := message]
             == class'.annotations[Publication.BLOCKED_ANNOTATION := message];
    }
  }
}
