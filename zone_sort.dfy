/** The zone list's sort: the stable sort driven by the zone comparator for the selected field
    and direction. */
module ZoneSort {
  import opened Zones
  import opened StableSort

  /** The comparator callback handed to the sort for a field and direction. */
  function ZoneComparator(field: ZoneField, dir: Direction): (Zone, Zone) -> int {
    (a: Zone, b: Zone) => Compare(a, b, field, dir)
  }

  /** What the comparator for `field` looks at. */
  function ZoneKey(field: ZoneField): Zone -> SortKey {
    (z: Zone) => KeyOf(z, field)
  }

  /** The zone comparator is a consistent total preorder whose ties are the zones with equal
      keys, in both directions. */
  lemma ZoneComparatorConsistent(field: ZoneField, dir: Direction)
    ensures Consistent(ZoneComparator(field, dir), ZoneKey(field))
  {
    var cmp, key := ZoneComparator(field, dir), ZoneKey(field);
    forall a, b ensures cmp(a, b) == 0 <==> key(a) == key(b) {
      CompareZeroIff(a, b, field, dir);
    }
    forall a, b ensures cmp(b, a) == -cmp(a, b) {
      CompareAntisymmetric(a, b, field, dir);
    }
    forall a, b, c | cmp(a, b) <= 0 && cmp(b, c) <= 0 ensures cmp(a, c) <= 0 {
      CompareTransitive(a, b, c, field, dir);
    }
  }

  /** The zones ordered by `field` in direction `dir`. */
  function SortZones(zones: seq<Zone>, field: ZoneField, dir: Direction): (r: seq<Zone>)
    ensures |r| == |zones|
  {
    Sort(zones, ZoneComparator(field, dir))
  }

  /** The sorted list is a permutation of the input in comparator order, and zones with equal
      keys keep the order they had in the input. */
  lemma SortZonesOrdered(zones: seq<Zone>, field: ZoneField, dir: Direction)
    ensures multiset(SortZones(zones, field, dir)) == multiset(zones)
    ensures forall i, j :: 0 <= i < j < |SortZones(zones, field, dir)| ==>
      Compare(SortZones(zones, field, dir)[i], SortZones(zones, field, dir)[j], field, dir) <= 0
    ensures forall k :: WithKey(SortZones(zones, field, dir), ZoneKey(field), k) == WithKey(zones, ZoneKey(field), k)
  {
    ZoneComparatorConsistent(field, dir);
    SortPermutation(zones, ZoneComparator(field, dir));
    SortSorted(zones, ZoneComparator(field, dir), ZoneKey(field));
    forall k ensures WithKey(SortZones(zones, field, dir), ZoneKey(field), k) == WithKey(zones, ZoneKey(field), k) {
      SortStable(zones, ZoneComparator(field, dir), ZoneKey(field), k);
    }
  }

  /** Any list that is in comparator order and keeps tied zones in input order is the sorted
      list. */
  lemma SortZonesUnique(zones: seq<Zone>, r: seq<Zone>, field: ZoneField, dir: Direction)
    requires forall i, j :: 0 <= i < j < |r| ==> Compare(r[i], r[j], field, dir) <= 0
    requires forall k :: WithKey(r, ZoneKey(field), k) == WithKey(zones, ZoneKey(field), k)
    ensures r == SortZones(zones, field, dir)
  {
    ZoneComparatorConsistent(field, dir);
    SortUnique(zones, r, ZoneComparator(field, dir), ZoneKey(field));
  }

  /** No two zones share the value of the sorted field. */
  predicate DistinctKeys(zones: seq<Zone>, field: ZoneField) {
    forall i, j :: 0 <= i < j < |zones| ==> KeyOf(zones[i], field) != KeyOf(zones[j], field)
  }

  /** When the zones all differ on the sorted field, the descending list is the ascending list
      read back to front. */
  lemma DescendingIsReversedAscending(zones: seq<Zone>, field: ZoneField)
    requires DistinctKeys(zones, field)
    ensures SortZones(zones, field, Desc) == Reverse(SortZones(zones, field, Asc))
  {
    var asc, desc, key := ZoneComparator(field, Asc), ZoneComparator(field, Desc), ZoneKey(field);
    ZoneComparatorConsistent(field, Asc);
    ZoneComparatorConsistent(field, Desc);
    forall a, b ensures desc(a, b) == asc(b, a) {
      DescendingNegatesAscending(a, b, field);
      CompareAntisymmetric(a, b, field, Asc);
    }
    forall k ensures |WithKey(zones, key, k)| <= 1 {
      DistinctKeysClasses(zones, key, k);
    }
    SortFlippedIsReversed(zones, asc, desc, key);
  }

  /** Sorting by a field that is neither text nor numeric leaves the list as it is. */
  lemma UnsortableFieldKeepsOrder(zones: seq<Zone>, field: ZoneField, dir: Direction)
    requires !field.IsText() && !field.IsNumeric()
    ensures SortZones(zones, field, dir) == zones
  {
    var cmp := ZoneComparator(field, dir);
    forall a, b ensures cmp(a, b) == 0 {
      CompareZeroIff(a, b, field, dir);
    }
    SortAllEqualKeepsOrder(zones, cmp);
  }
}
