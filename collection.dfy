/**
 * Number and string sets supplied by the host as arguments
 * (collection.go). A `MapNumberCollection` is a map from numbers to
 * flags; only its keys matter for membership.
 */
module Collection {

  /** A set of numbers backed by a map (collection.go:10-12). */
  datatype MapNumberCollection = MapNumberCollection(items: map<real, bool>) {

    /** Membership is presence of the key, whatever flag is stored under it. */
    predicate Has(number: real): (present: bool)
      ensures present <==> number in items
    {
      number in items
    }
  }

  /** Wraps the given map unchanged (collection.go:14-16). */
  function NewMapNumberCollection(items: map<real, bool>): (c: MapNumberCollection)
    ensures forall x :: c.Has(x) <==> x in items
    ensures c.items == items
  {
    MapNumberCollection(items)
  }

  /** The collection that `NewMapNumberCollectionFromList` builds: every element maps to true. */
  function ListCollection(items: seq<real>): (c: MapNumberCollection)
  {
    MapNumberCollection(map x | x in items :: true)
  }

  /**
   * Fills a fresh map from the list, one element at a time
   * (collection.go:18-26). The source asserts every element is a float64
   * and panics otherwise; the parameter type rules that out here.
   */
  method NewMapNumberCollectionFromList(items: seq<real>) returns (c: MapNumberCollection)
    ensures forall x :: c.Has(x) <==> x in items
    ensures forall x :: x in c.items ==> c.items[x]
    ensures c == ListCollection(items)
  {
    var itemsMap: map<real, bool> := map[];
    for i := 0 to |items|
      invariant forall x :: x in itemsMap <==> x in items[..i]
      invariant forall x :: x in itemsMap ==> itemsMap[x]
    {
      itemsMap := itemsMap[items[i] := true];
    }
    assert items[..|items|] == items;
    c := NewMapNumberCollection(itemsMap);
    var expected := ListCollection(items).items;
    assert itemsMap.Keys == expected.Keys by {
      forall x ensures x in itemsMap <==> x in expected {
        ListCollectionMembers(items, x);
      }
    }
  }

  /** A number is a member of a list-built collection exactly when it occurs in the list. */
  lemma ListCollectionMembers(items: seq<real>, x: real)
    ensures ListCollection(items).Has(x) <==> x in items
    ensures x in ListCollection(items).items ==> ListCollection(items).items[x]
  {
  }

  /** Building from a list ignores order and duplicates: only the elements matter. */
  lemma ListCollectionIgnoresOrderAndDuplicates(xs: seq<real>, ys: seq<real>)
    requires forall x :: x in xs <==> x in ys
    ensures ListCollection(xs) == ListCollection(ys)
  {
    var m, n := ListCollection(xs).items, ListCollection(ys).items;
    forall x ensures x in m <==> x in n {
      ListCollectionMembers(xs, x);
      ListCollectionMembers(ys, x);
    }
    assert m.Keys == n.Keys;
  }

  /** The empty list gives a collection that holds nothing. */
  lemma EmptyListHoldsNothing(x: real)
    ensures !ListCollection([]).Has(x)
  {
  }

  /** A key stored with a false flag is still a member. */
  lemma HasIgnoresStoredFlag(items: map<real, bool>, x: real)
    requires x in items && !items[x]
    ensures NewMapNumberCollection(items).Has(x)
  {
  }

  /** `Has` compares keys exactly: a nearby number is not a member. */
  lemma HasIsExact()
    ensures ListCollection([1.0]).Has(1.0)
    ensures !ListCollection([1.0]).Has(1.0000001)
  {
    assert 1.0 in [1.0];
    assert 1.0000001 !in [1.0];
  }

  /**
   * A set of strings supplied by the host. Its Go definition is not part
   * of this model; it is represented by the set of its keys.
   */
  datatype MapStringCollection = MapStringCollection(items: set<string>) {

    predicate Has(s: string) {
      s in items
    }
  }
}
