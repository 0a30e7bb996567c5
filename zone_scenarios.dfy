/** The zone list over the catalogue the screen ships with: the orders and searches a user
    sees. */
module ZoneScenarios {
  import opened Strings
  import opened Zones
  import opened ZoneSort
  import opened ZoneManagement
  import opened StableSort

  const ZoneA := ZonesData[0]
  const ZoneB := ZonesData[1]
  const ColdStorage := ZonesData[2]
  const HeavyItems := ZonesData[3]

  lemma CatalogueOrder()
    ensures ZonesData == [ZoneA, ZoneB, ColdStorage, HeavyItems]
  {
  }

  lemma FoldedNames()
    ensures ToLower(ZoneA.name) == "zone a"
    ensures ToLower(ZoneB.name) == "zone b"
    ensures ToLower(ColdStorage.name) == "cold storage"
    ensures ToLower(HeavyItems.name) == "heavy items"
  {
  }

  /** A zone none of whose searched fields contains the first character of the folded query
      does not pass the search. */
  lemma MissesFirstChar(z: Zone, query: string)
    requires query != []
    requires ToLower(query)[0] !in ToLower(z.name)
    requires ToLower(query)[0] !in ToLower(z.matricule)
    requires ToLower(query)[0] !in ToLower(TypeLabel(z.zoneType))
    ensures !Matches(z, query)
  {
    var q := ToLower(query);
    IncludesNeedsFirstChar(ToLower(z.name), q);
    IncludesNeedsFirstChar(ToLower(z.matricule), q);
    IncludesNeedsFirstChar(ToLower(TypeLabel(z.zoneType)), q);
  }

  // ---------------------------------------------------------------- sorting

  /** The insertion steps for four elements whose sorted order is b, d, a, c. */
  lemma SortFourAsBDAC<T>(a: T, b: T, c: T, d: T, cmp: (T, T) -> int)
    requires cmp(c, d) > 0 && cmp(b, d) <= 0 && cmp(a, b) > 0 && cmp(a, d) > 0 && cmp(a, c) <= 0
    ensures Sort([a, b, c, d], cmp) == [b, d, a, c]
  {
    SortCons(d, [], cmp);
    assert [d] + [] == [d];
    SortCons(c, [d], cmp);
    InsertAfter(c, d, [], cmp);
    assert [c] + [d] == [c, d];
    SortCons(b, [c, d], cmp);
    InsertBefore(b, d, [c], cmp);
    assert [b] + [c, d] == [b, c, d];
    SortCons(a, [b, c, d], cmp);
    assert [a] + [b, c, d] == [a, b, c, d];
    InsertAfter(a, b, [d, c], cmp);
    InsertAfter(a, d, [c], cmp);
    InsertBefore(a, c, [], cmp);
    assert [b] + [d, c] == [b, d, c] && [d] + [c] == [d, c];
  }

  /** The insertion steps for four elements whose sorted order is c, d, a, b. */
  lemma SortFourAsCDAB<T>(a: T, b: T, c: T, d: T, cmp: (T, T) -> int)
    requires cmp(c, d) <= 0 && cmp(b, c) > 0 && cmp(b, d) > 0
    requires cmp(a, c) > 0 && cmp(a, d) > 0 && cmp(a, b) <= 0
    ensures Sort([a, b, c, d], cmp) == [c, d, a, b]
  {
    SortCons(d, [], cmp);
    assert [d] + [] == [d];
    SortCons(c, [d], cmp);
    InsertBefore(c, d, [], cmp);
    assert [c] + [d] == [c, d];
    SortCons(b, [c, d], cmp);
    InsertAfter(b, c, [d], cmp);
    InsertAfter(b, d, [], cmp);
    assert [b] + [c, d] == [b, c, d];
    SortCons(a, [b, c, d], cmp);
    assert [a] + [b, c, d] == [a, b, c, d];
    InsertAfter(a, c, [d, b], cmp);
    InsertAfter(a, d, [b], cmp);
    InsertBefore(a, b, [], cmp);
    assert [c] + [d, b] == [c, d, b] && [d] + [b] == [d, b];
  }

  /** Sorting the catalogue by saturation ascending gives Zone B (45), Heavy Items (60),
      Zone A (75), Cold Storage (90). */
  lemma SaturationAscending()
    ensures VisibleZones(ZonesData, "", Saturation, Asc) == [ZoneB, HeavyItems, ZoneA, ColdStorage]
  {
    FilterEmptyQuery(ZonesData);
    CatalogueOrder();
    SortFourAsBDAC(ZoneA, ZoneB, ColdStorage, HeavyItems, ZoneComparator(Saturation, Asc));
  }

  lemma ReverseFour<T>(a: T, b: T, c: T, d: T)
    ensures Reverse([a, b, c, d]) == [d, c, b, a]
  {
  }

  /** No two catalogue zones share a saturation. */
  lemma DistinctSaturations()
    ensures DistinctKeys(ZonesData, Saturation)
  {
  }

  /** No two catalogue zones share a folded name. */
  lemma DistinctNames()
    ensures DistinctKeys(ZonesData, Name)
  {
    FoldedNames();
  }

  /** The descending order by saturation is the ascending order reversed. */
  lemma SaturationDescending()
    ensures VisibleZones(ZonesData, "", Saturation, Desc) == [ColdStorage, ZoneA, HeavyItems, ZoneB]
  {
    FilterEmptyQuery(ZonesData);
    DistinctSaturations();
    DescendingIsReversedAscending(ZonesData, Saturation);
    SaturationAscending();
    ReverseFour(ZoneB, HeavyItems, ZoneA, ColdStorage);
  }

  /** How the folded catalogue names compare. */
  lemma NameOrder()
    ensures var cmp := ZoneComparator(Name, Asc);
      && cmp(ColdStorage, HeavyItems) < 0
      && cmp(ZoneB, ColdStorage) > 0 && cmp(ZoneB, HeavyItems) > 0
      && cmp(ZoneA, ColdStorage) > 0 && cmp(ZoneA, HeavyItems) > 0 && cmp(ZoneA, ZoneB) < 0
  {
    FoldedNames();
  }

  /** The list as first displayed, sorted by name ascending: Cold Storage, Heavy Items,
      Zone A, Zone B. */
  lemma NameAscending()
    ensures VisibleZones(ZonesData, "", Name, Asc) == [ColdStorage, HeavyItems, ZoneA, ZoneB]
  {
    FilterEmptyQuery(ZonesData);
    CatalogueOrder();
    NameOrder();
    SortFourAsCDAB(ZoneA, ZoneB, ColdStorage, HeavyItems, ZoneComparator(Name, Asc));
  }

  /** Clicking the name header once more sorts the names in reverse. */
  lemma NameDescending()
    ensures VisibleZones(ZonesData, "", Name, Desc) == [ZoneB, ZoneA, HeavyItems, ColdStorage]
  {
    FilterEmptyQuery(ZonesData);
    DistinctNames();
    DescendingIsReversedAscending(ZonesData, Name);
    NameAscending();
    ReverseFour(ColdStorage, HeavyItems, ZoneA, ZoneB);
  }

  // ---------------------------------------------------------------- searching

  /** The filter over four zones of which exactly the first two pass the search. */
  lemma FilterFirstTwo(a: Zone, b: Zone, c: Zone, d: Zone, query: string)
    requires Matches(a, query) && Matches(b, query) && !Matches(c, query) && !Matches(d, query)
    ensures FilterZones([a, b, c, d], query) == [a, b]
  {
    assert [a, b, c, d][1..] == [b, c, d] && [b, c, d][1..] == [c, d] && [c, d][1..] == [d];
    assert FilterZones([d], query) == [];
    assert FilterZones([c, d], query) == [];
    assert FilterZones([b, c, d], query) == [b];
    assert FilterZones([a, b, c, d], query) == [a] + [b];
  }

  lemma ZoneQueryFolded()
    ensures ToLower("zone") == "zone"
  {
  }

  /** "zone" is a prefix of the folded names of Zone A and Zone B. */
  lemma ZoneQueryMatches()
    ensures Matches(ZoneA, "zone") && Matches(ZoneB, "zone")
  {
    FoldedNames();
    ZoneQueryFolded();
    assert StartsWith(ToLower(ZoneA.name), ToLower("zone"));
    assert StartsWith(ToLower(ZoneB.name), ToLower("zone"));
  }

  /** Cold Storage and Heavy Items have no "z" in any searched field. */
  lemma ZoneQueryMisses(i: nat)
    requires 2 <= i < |ZonesData|
    ensures !Matches(ZonesData[i], "zone")
  {
    ZoneQueryFolded();
    MissesFirstChar(ZonesData[i], "zone");
  }

  /** Searching for "zone" keeps Zone A and Zone B, in catalogue order. */
  lemma SearchZone()
    ensures FilterZones(ZonesData, "zone") == [ZoneA, ZoneB]
  {
    CatalogueOrder();
    ZoneQueryMatches();
    ZoneQueryMisses(2);
    ZoneQueryMisses(3);
    FilterFirstTwo(ZoneA, ZoneB, ColdStorage, HeavyItems, "zone");
  }

  lemma ZoneABeforeZoneB()
    ensures Compare(ZoneA, ZoneB, Name, Asc) < 0
  {
    FoldedNames();
  }

  /** The displayed list for "zone", sorted by name ascending: Zone A, then Zone B. */
  lemma SearchZoneDisplayed()
    ensures VisibleZones(ZonesData, "zone", Name, Asc) == [ZoneA, ZoneB]
  {
    SearchZone();
    var cmp := ZoneComparator(Name, Asc);
    ZoneABeforeZoneB();
    assert Sort([ZoneB], cmp) == [ZoneB] by {
      SortCons(ZoneB, [], cmp);
    }
    assert Sort([ZoneA, ZoneB], cmp) == [ZoneA, ZoneB] by {
      assert [ZoneA, ZoneB] == [ZoneA] + [ZoneB];
      SortCons(ZoneA, [ZoneB], cmp);
      InsertBefore(ZoneA, ZoneB, [], cmp);
    }
  }

  /** Searching "ZONE" keeps the same zones as searching "zone". */
  lemma SearchZoneUpperCase()
    ensures FilterZones(ZonesData, "ZONE") == [ZoneA, ZoneB]
  {
    assert EqualIgnoringCase("ZONE", "zone");
    FilterCaseInsensitive(ZonesData, "ZONE", "zone");
    SearchZone();
  }

  /** No searched field of a catalogue zone contains an "x". */
  lemma MissesXyz(i: nat)
    requires i < |ZonesData|
    ensures !Matches(ZonesData[i], "xyz123")
  {
    assert ToLower("xyz123")[0] == 'x';
    MissesFirstChar(ZonesData[i], "xyz123");
  }

  /** A search that no zone passes leaves an empty list rather than failing. */
  lemma SearchNothing()
    ensures VisibleZones(ZonesData, "xyz123", Name, Asc) == []
  {
    forall z | z in ZonesData ensures !Matches(z, "xyz123") {
      var i :| 0 <= i < |ZonesData| && ZonesData[i] == z;
      MissesXyz(i);
    }
    FilterNoMatch(ZonesData, "xyz123");
  }
}
