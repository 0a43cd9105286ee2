// When publishedContentEqual, and so the timestamp it guards, is exact.
module ContentEquality {
  import opened Api
  import opened Publication

  lemma SubsetOfSameSize<T>(a: set<T>, b: set<T>)
    requires a <= b && |a| == |b|
    ensures a == b
  {
    assert |b - a| == |b| - |a|;
  }

  // The size test and the one-sided loop with defaulted lookup decide equality
  // of the two topologies, because no source value can be mistaken for a
  // missing key.
  lemma ContentEqualIsExact(published: ServingLocation, location: Location)
    requires CityCodeTrimmed(location) && NoEmptyValues(location)
    ensures PublishedContentEqual(published, location) <==> SameContent(published, location)
  {
    if PublishedContentEqual(published, location) {
      forall key | key in location.topology
        ensures key in published.topology && published.topology[key] == location.topology[key]
      {
        assert Lookup(published.topology, key) == location.topology[key] != "";
      }
      assert |published.topology.Keys| == |location.topology.Keys|;
      SubsetOfSameSize(location.topology.Keys, published.topology.Keys);
      assert published.topology.Keys == location.topology.Keys;
      assert published.topology == location.topology;
    }
  }

  lemma {:induction false} LongerThanAll(keys: set<string>) returns (unused: string)
    ensures forall key :: key in keys ==> |key| < |unused|
    decreases |keys|
  {
    if keys == {} {
      unused := "";
    } else {
      var key :| key in keys;
      var longer := LongerThanAll(keys - {key});
      unused := longer + key + "x";
    }
  }

  // An owned copy of the topology, as the publisher leaves one.
  function OwnedCopy(topology: map<string, string>, generation: int): ServingLocation {
    ServingLocation(map[MANAGED_BY_LABEL := MANAGED_BY_VALUE], map[], topology, generation, 0)
  }

  // With an empty value in a publishable Location, some owned copy with another
  // topology passes for equal: the key holding "" is traded for one the
  // Location lacks. The copy keeps the city code every ServingLocation carries.
  lemma EmptyValueFoolsComparison(location: Location) returns (impostor: ServingLocation)
    requires Publishable(location) && CityCodeTrimmed(location) && !NoEmptyValues(location)
    ensures Owned(impostor) && Lookup(impostor.topology, CITY_CODE_KEY) != ""
    ensures PublishedContentEqual(impostor, location) && !SameContent(impostor, location)
    ensures impostor.publishedAt == 0
  {
    var key :| key in location.topology && location.topology[key] == "";
    var unused := LongerThanAll(location.topology.Keys + {CITY_CODE_KEY});
    assert unused !in location.topology && unused != CITY_CODE_KEY;
    var topology := (location.topology - {key})[unused := "x"];
    assert topology.Keys == location.topology.Keys - {key} + {unused};
    assert |topology| == |topology.Keys| == |location.topology.Keys| == |location.topology|;
    impostor := OwnedCopy(topology, location.generation);
    assert unused in impostor.topology;
  }

  // The published timestamp of a publishable Location moves exactly with its
  // content, for every owned copy and every clock reading, if and only if its
  // city code is trimmed and none of its topology values is empty.
  lemma TimestampTracksContentExactly(location: Location)
    requires Publishable(location)
    ensures
      (forall published: ServingLocation, now: nat :: Owned(published) ==>
         PublishedAt(Some(published), location, now)
         == if SameContent(published, location) then published.publishedAt else now)
      <==> CityCodeTrimmed(location) && NoEmptyValues(location)
  {
    if CityCodeTrimmed(location) && NoEmptyValues(location) {
      forall published: ServingLocation, now: nat
        ensures PublishedAt(Some(published), location, now)
                == if SameContent(published, location) then published.publishedAt else now
      {
        ContentEqualIsExact(published, location);
      }
    } else if !CityCodeTrimmed(location) {
      var same := OwnedCopy(location.topology, location.generation);
      assert Owned(same) && PublishedAt(Some(same), location, 1) == 1 && SameContent(same, location);
    } else {
      var impostor := EmptyValueFoolsComparison(location);
      assert PublishedAt(Some(impostor), location, 1) == 0;
    }
  }
}
