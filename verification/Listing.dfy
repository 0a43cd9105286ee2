// What a list call returns: every object once, in an order of the API's
// choosing.
module Listing {
  import opened Api
  import Text

  ghost predicate Lists(items: seq<Name>, names: set<Name>) {
    && |items| == |names|
    && (forall i, j :: 0 <= i < j < |items| ==> items[i] != items[j])
    && (forall name :: name in items <==> name in names)
  }

  method ListNames(names: set<Name>) returns (items: seq<Name>)
    ensures Lists(items, names)
  {
    items := [];
    var rest := names;
    while rest != {}
      invariant rest <= names && Lists(items, names - rest)
      decreases rest
    {
      var name :| name in rest;
      items, rest := items + [name], rest - {name};
    }
  }

  lemma {:induction false} SomeListing(names: set<Name>) returns (items: seq<Name>)
    ensures Lists(items, names)
    decreases |names|
  {
    if names == {} {
      items := [];
    } else {
      var name :| name in names;
      var rest := SomeListing(names - {name});
      items := rest + [name];
    }
  }

  lemma AppendLists(items: seq<Name>, names: set<Name>, name: Name)
    requires Lists(items, names) && name !in names
    ensures Lists(items + [name], names + {name})
  {
    assert name !in items;
  }

  // The listed names that are in `which`.
  function Among(items: seq<Name>, which: set<Name>): set<Name> {
    set name | name in items && name in which
  }

  lemma AmongGrows(items: seq<Name>, names: set<Name>, i: nat, which: set<Name>)
    requires Lists(items, names) && i < |items|
    ensures items[i] in names && items[i] !in Among(items[..i], which)
    ensures Among(items[..i + 1], which) == Among(items[..i], which) + if items[i] in which then {items[i]} else {}
    ensures |Among(items[..i + 1], which)| == |Among(items[..i], which)| + if items[i] in which then 1 else 0
  {
    assert items[i] in items && items[i] !in items[..i];
    assert Among(items[..i + 1], which)
           == Among(items[..i], which) + if items[i] in which then {items[i]} else {};
  }

  lemma AmongAll(items: seq<Name>, names: set<Name>, which: set<Name>)
    requires Lists(items, names) && which <= names
    ensures Among(items[..|items|], which) == which
  {
  }

  lemma {:induction false} ListMultiset(items: seq<Name>, names: set<Name>)
    requires Lists(items, names)
    ensures multiset(items) == multiset(names)
    decreases |items|
  {
    if items == [] {
      assert names == {};
    } else {
      var n := |items| - 1;
      var rest := items[..n];
      assert items == rest + [items[n]];
      assert items[n] in items && items[n] !in rest;
      assert forall name :: name in rest <==> name in items && name != items[n];
      ListMultiset(rest, names - {items[n]});
      assert multiset(names) == multiset(names - {items[n]}) + multiset{items[n]};
    }
  }

  lemma SortedLists(items: seq<Name>, names: set<Name>)
    requires Lists(items, names)
    ensures Lists(Text.SortStrings(items), names) && Text.Sorted(Text.SortStrings(items))
  {
    var sorted := Text.SortStrings(items);
    Text.SortStringsSorts(items);
    ListMultiset(items, names);
    assert forall name :: name in sorted <==> name in multiset(sorted);
    forall i, j | 0 <= i < j < |sorted| ensures sorted[i] != sorted[j] {
      TwiceInMultiset(sorted, i, j);
    }
  }

  lemma TwiceInMultiset(s: seq<Name>, i: nat, j: nat)
    requires i < j < |s|
    ensures s[i] == s[j] ==> multiset(s)[s[i]] >= 2
  {
    assert s == s[..i] + [s[i]] + s[i + 1..j] + [s[j]] + s[j + 1..];
  }
}
