// The control plane as its clients write to it.
module Stores {
  import opened Api
  import opened ClassFinalizing
  import Publication
  import Readiness

  // The control plane holding Locations and LocationClasses.
  class ControlPlane {
    var locations: map<Name, Location>
    var classes: map<Name, LocationClass>

    method WriteFinalizers(name: Name, finalizers: seq<string>, fate: Fate) returns (failed: bool)
      modifies this`classes
      ensures classes == PatchFinalizers(old(classes), name, finalizers, fate)
      ensures failed == (PatchRefused(old(classes), name, finalizers, fate) || !fate.Succeeds?)
    {
      var refused := name !in classes || fate.Refused?;
      if !refused && classes[name].terminating {
        refused := exists f :: f in finalizers && f !in classes[name].finalizers;
      }
      if !refused {
        classes := UpdateClass(classes, name, classes[name].(finalizers := finalizers));
      }
      failed := refused || !fate.Succeeds?;
    }

    method WriteAnnotation(name: Name, message: string, fate: Fate) returns (failed: bool)
      modifies this`classes
      ensures classes == PatchAnnotation(old(classes), name, message, fate)
      ensures failed == (name !in old(classes) || !fate.Succeeds?)
    {
      if name in classes && !fate.Refused? {
        var edited := classes[name];
        edited := edited.(annotations := edited.annotations[Publication.BLOCKED_ANNOTATION := message]);
        classes := UpdateClass(classes, name, edited);
        return !fate.Succeeds?;
      }
      failed := true;
    }

    method WriteConditions(name: Name, conditions: seq<Condition>, fate: Fate) returns (failed: bool)
      modifies this`locations
      ensures locations == Readiness.PatchConditions(old(locations), name, conditions, fate)
      ensures failed == (name !in old(locations) || !fate.Succeeds?)
    {
      if name in locations && !fate.Refused? {
        locations := locations[name := locations[name].(conditions := conditions)];
        return !fate.Succeeds?;
      }
      failed := true;
    }

    method WriteClassConditions(name: Name, conditions: seq<Condition>, fate: Fate) returns (failed: bool)
      modifies this`classes
      ensures classes == Readiness.PatchClassConditions(old(classes), name, conditions, fate)
      ensures failed == (name !in old(classes) || !fate.Succeeds?)
    {
      if name in classes && !fate.Refused? {
        classes := UpdateClass(classes, name, classes[name].(conditions := conditions));
        return !fate.Succeeds?;
      }
      failed := true;
    }
  }
}
