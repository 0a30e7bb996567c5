/** The zone list controller: the four pieces of view state, the sort-header toggle, the list
    that is displayed (search filter, then sort), the saturation colour band and the sort
    indicator. */
module ZoneManagement {
  import opened Strings
  import opened Zones
  import opened ZoneSort
  import StableSort

  datatype ViewMode = Grid | List

  // ---------------------------------------------------------------- search filter

  /** The zones that pass the search, in catalogue order. */
  function FilterZones(zones: seq<Zone>, query: string): (r: seq<Zone>)
    ensures |r| <= |zones|
  {
    if zones == [] then []
    else (if Matches(zones[0], query) then [zones[0]] else []) + FilterZones(zones[1..], query)
  }

  /** `a` is `b` with some elements dropped and the rest kept in order. */
  ghost predicate Subsequence<T>(a: seq<T>, b: seq<T>)
    decreases |b|
  {
    if b == [] then a == []
    else (a != [] && a[0] == b[0] && Subsequence(a[1..], b[1..])) || Subsequence(a, b[1..])
  }

  /** A zone is in the filtered list exactly when it is in the catalogue and passes the search. */
  lemma {:induction false} FilterMembers(zones: seq<Zone>, query: string, z: Zone)
    ensures z in FilterZones(zones, query) <==> z in zones && Matches(z, query)
  {
    if zones != [] {
      FilterMembers(zones[1..], query, z);
      assert z in zones <==> z == zones[0] || z in zones[1..];
    }
  }

  /** The filter keeps every copy of a matching zone and no copy of any other zone, so it never
      duplicates a zone. */
  lemma {:induction false} FilterCount(zones: seq<Zone>, query: string, z: Zone)
    ensures multiset(FilterZones(zones, query))[z] == if Matches(z, query) then multiset(zones)[z] else 0
  {
    if zones != [] {
      FilterCount(zones[1..], query, z);
      assert zones == [zones[0]] + zones[1..];
    }
  }

  /** The filtered list keeps the catalogue's order. */
  lemma {:induction false} FilterSubsequence(zones: seq<Zone>, query: string)
    ensures Subsequence(FilterZones(zones, query), zones)
  {
    if zones != [] {
      FilterSubsequence(zones[1..], query);
      var rest := FilterZones(zones[1..], query);
      if Matches(zones[0], query) {
        assert FilterZones(zones, query) == [zones[0]] + rest;
        assert ([zones[0]] + rest)[1..] == rest;
      } else {
        assert FilterZones(zones, query) == rest;
      }
    }
  }

  /** The empty search keeps the whole catalogue. */
  lemma {:induction false} FilterEmptyQuery(zones: seq<Zone>)
    ensures FilterZones(zones, "") == zones
  {
    if zones != [] {
      MatchesEmptyQuery(zones[0]);
      FilterEmptyQuery(zones[1..]);
      assert zones == [zones[0]] + zones[1..];
    }
  }

  /** Lower-casing the search text before filtering changes nothing. */
  lemma {:induction false} FilterIgnoresQueryCase(zones: seq<Zone>, query: string)
    ensures FilterZones(zones, ToLower(query)) == FilterZones(zones, query)
  {
    if zones != [] {
      MatchesIgnoresQueryCase(zones[0], query);
      FilterIgnoresQueryCase(zones[1..], query);
    }
  }

  /** Search texts that differ only in the case of their letters give the same list. */
  lemma {:induction false} FilterCaseInsensitive(zones: seq<Zone>, q1: string, q2: string)
    requires EqualIgnoringCase(q1, q2)
    ensures FilterZones(zones, q1) == FilterZones(zones, q2)
  {
    if zones != [] {
      MatchesCaseInsensitive(zones[0], q1, q2);
      FilterCaseInsensitive(zones[1..], q1, q2);
    }
  }

  /** A search that no zone passes gives the empty list. */
  lemma {:induction false} FilterNoMatch(zones: seq<Zone>, query: string)
    requires forall z :: z in zones ==> !Matches(z, query)
    ensures FilterZones(zones, query) == []
  {
    if zones != [] {
      assert zones[0] in zones;
      assert forall z :: z in zones[1..] ==> z in zones;
      FilterNoMatch(zones[1..], query);
    }
  }

  // ---------------------------------------------------------------- displayed list

  /** The list on screen: the catalogue filtered by the search, then sorted. */
  function VisibleZones(zones: seq<Zone>, query: string, field: ZoneField, dir: Direction): (r: seq<Zone>)
    ensures |r| <= |zones|
    ensures query == [] ==> |r| == |zones|
  {
    FilterEmptyQuery(zones);
    SortZones(FilterZones(zones, query), field, dir)
  }

  /** The displayed list holds every matching copy of a catalogue zone and nothing else, is in
      comparator order, and lists zones with equal keys in catalogue order. */
  lemma VisibleZonesSpec(zones: seq<Zone>, query: string, field: ZoneField, dir: Direction, z: Zone)
    ensures multiset(VisibleZones(zones, query, field, dir))[z] ==
      if Matches(z, query) then multiset(zones)[z] else 0
    ensures forall i, j :: 0 <= i < j < |VisibleZones(zones, query, field, dir)| ==>
      Compare(VisibleZones(zones, query, field, dir)[i], VisibleZones(zones, query, field, dir)[j], field, dir) <= 0
    ensures forall k ::
      (StableSort.WithKey(VisibleZones(zones, query, field, dir), ZoneKey(field), k)
       == StableSort.WithKey(FilterZones(zones, query), ZoneKey(field), k))
  {
    FilterCount(zones, query, z);
    SortZonesOrdered(FilterZones(zones, query), field, dir);
  }

  // ---------------------------------------------------------------- sort header

  /** The column the list is sorted by and the direction. */
  datatype SortState = SortState(field: ZoneField, direction: Direction)

  /** The sort after a click on the header of `field`: the same column flips the direction, a
      new column starts ascending. */
  function NextSort(s: SortState, field: ZoneField): (r: SortState)
    ensures r.field == field
    ensures r.direction == Asc <==> s.field != field || s.direction == Desc
  {
    if s.field == field then
      SortState(field, if s.direction == Asc then Desc else Asc)
    else
      SortState(field, Asc)
  }

  /** Two clicks on the sorted column restore the sort. */
  lemma NextSortTwiceRestores(s: SortState)
    ensures NextSort(NextSort(s, s.field), s.field) == s
  {
  }

  /** Two clicks on a new column sort it descending. */
  lemma NextSortNewColumnTwice(s: SortState, field: ZoneField)
    requires s.field != field
    ensures NextSort(NextSort(s, field), field) == SortState(field, Desc)
  {
  }

  // ---------------------------------------------------------------- indicators

  /** The header arrow: both ways for unsorted columns, up or down for the sorted one. */
  datatype SortIndicator = Neutral | Up | Down

  function SortIcon(s: SortState, field: ZoneField): (r: SortIndicator)
    ensures r == Neutral <==> field != s.field
    ensures r == Up <==> field == s.field && s.direction == Asc
    ensures r == Down <==> field == s.field && s.direction == Desc
  {
    if s.field != field then Neutral
    else
      match s.direction
      case Asc => Up
      case Desc => Down
  }

  /** After a click on a header, exactly that column shows a direction arrow. */
  lemma ClickedColumnShowsArrow(s: SortState, clicked: ZoneField, field: ZoneField)
    ensures SortIcon(NextSort(s, clicked), field) != Neutral <==> field == clicked
  {
  }

  /** The fill colour of a saturation bar. */
  datatype BarColor = Green | Yellow | Red

  function SaturationColor(saturation: int): (c: BarColor)
    ensures c == Green <==> saturation < 50
    ensures c == Yellow <==> 50 <= saturation < 80
    ensures c == Red <==> 80 <= saturation
  {
    if saturation < 50 then Green
    else if saturation < 80 then Yellow
    else Red
  }

  function Severity(c: BarColor): nat {
    match c
    case Green => 0
    case Yellow => 1
    case Red => 2
  }

  /** A fuller zone never gets a milder colour. */
  lemma SaturationColorMonotone(s: int, t: int)
    requires s <= t
    ensures Severity(SaturationColor(s)) <= Severity(SaturationColor(t))
  {
  }

  // ---------------------------------------------------------------- controller

  /** The screen's view state. The catalogue is the constant `ZonesData`; nothing here changes
      it, because the displayed list is computed afresh from it. */
  class ZoneListController {
    var viewMode: ViewMode
    var sortField: ZoneField
    var sortDirection: Direction
    var searchQuery: string

    function CurrentSort(): SortState
      reads this
    {
      SortState(sortField, sortDirection)
    }

    /** The list the screen displays for the current state. */
    function Visible(): seq<Zone>
      reads this
    {
      VisibleZones(ZonesData, searchQuery, sortField, sortDirection)
    }

    /** The arrow shown in the header of `field`. */
    function Icon(field: ZoneField): SortIndicator
      reads this
    {
      SortIcon(CurrentSort(), field)
    }

    /** Grid view, sorted by name ascending, no search text. */
    constructor()
      ensures viewMode == Grid && sortField == Name && sortDirection == Asc && searchQuery == ""
    {
      viewMode := Grid;
      sortField := Name;
      sortDirection := Asc;
      searchQuery := "";
    }

    /** A click on the header of `field`. */
    method HandleSort(field: ZoneField)
      modifies this
      ensures CurrentSort() == NextSort(old(CurrentSort()), field)
      ensures viewMode == old(viewMode) && searchQuery == old(searchQuery)
    {
      if sortField == field {
        sortDirection := if sortDirection == Asc then Desc else Asc;
      } else {
        sortField := field;
        sortDirection := Asc;
      }
    }

    /** Typing in the search box. */
    method SetSearchQuery(query: string)
      modifies this
      ensures searchQuery == query
      ensures viewMode == old(viewMode) && CurrentSort() == old(CurrentSort())
    {
      searchQuery := query;
    }

    /** The grid and list buttons. */
    method SetViewMode(mode: ViewMode)
      modifies this
      ensures viewMode == mode
      ensures searchQuery == old(searchQuery) && CurrentSort() == old(CurrentSort())
    {
      viewMode := mode;
    }
  }
}
