/** The storage-zone record shown by the zone management screen, the mock catalogue it is fed
    with, the search matcher and the field-dependent comparator used to order the list. */
module Zones {
  import opened Strings

  datatype ZoneType = RackStorage | BulkStorage

  /** A closed interval such as a temperature or humidity band. */
  datatype Interval = Interval(min: int, max: int)

  /** Length, width and height in metres. */
  datatype Extent = Extent(length: int, width: int, height: int)

  datatype Zone = Zone(
    id: string,
    name: string,
    zoneType: ZoneType,
    matricule: string,
    temperature: Interval,
    humidity: Interval,
    weightCapacity: int,
    dimensions: Extent,
    saturation: int)

  /** The text a zone's type is displayed (and searched and sorted) as. */
  function TypeLabel(t: ZoneType): string {
    match t
    case RackStorage => "Rack Storage"
    case BulkStorage => "Bulk Storage"
  }

  /** Every key of the zone record; the sort state may hold any of them. */
  datatype ZoneField =
    | Id | Name | Type | Matricule | Temperature | Humidity
    | WeightCapacity | Dimensions | Saturation
  {
    predicate IsText() { this == Name || this == Type || this == Matricule }
    predicate IsNumeric() { this == WeightCapacity || this == Saturation }
  }

  datatype Direction = Asc | Desc

  /** The catalogue the screen displays. */
  const ZonesData: seq<Zone> := [
    Zone("1", "Zone A", RackStorage, "ZA-001", Interval(15, 25), Interval(40, 60), 5000, Extent(10, 8, 12), 75),
    Zone("2", "Zone B", BulkStorage, "ZB-002", Interval(10, 20), Interval(30, 50), 8000, Extent(15, 12, 8), 45),
    Zone("3", "Cold Storage", RackStorage, "CS-003", Interval(2, 8), Interval(60, 80), 3000, Extent(8, 6, 10), 90),
    Zone("4", "Heavy Items", BulkStorage, "HI-004", Interval(18, 28), Interval(35, 55), 12000, Extent(20, 18, 10), 60)
  ]

  // ---------------------------------------------------------------- search

  /** A zone passes the search when the lower-cased query occurs in its lower-cased name,
      matricule or type label. */
  function Matches(z: Zone, query: string): (r: bool)
    ensures query == [] ==> r
    ensures StartsWith(ToLower(z.name), ToLower(query)) ==> r
  {
    var q := ToLower(query);
    Includes(ToLower(z.name), q)
    || Includes(ToLower(z.matricule), q)
    || Includes(ToLower(TypeLabel(z.zoneType)), q)
  }

  /** The search condition spelled out as "occurs at some position" in one of the three fields. */
  lemma MatchesIff(z: Zone, query: string)
    ensures Matches(z, query) <==>
      || (exists i :: OccursAt(ToLower(z.name), ToLower(query), i))
      || (exists i :: OccursAt(ToLower(z.matricule), ToLower(query), i))
      || (exists i :: OccursAt(ToLower(TypeLabel(z.zoneType)), ToLower(query), i))
  {
    var q := ToLower(query);
    var n, m, t := ToLower(z.name), ToLower(z.matricule), ToLower(TypeLabel(z.zoneType));
    IncludesIff(n, q);
    IncludesIff(m, q);
    IncludesIff(t, q);
    assert Matches(z, query) == (Includes(n, q) || Includes(m, q) || Includes(t, q));
    assert Includes(n, q) <==> exists i :: OccursAt(ToLower(z.name), ToLower(query), i);
    assert Includes(m, q) <==> exists i :: OccursAt(ToLower(z.matricule), ToLower(query), i);
    assert Includes(t, q) <==> exists i :: OccursAt(ToLower(TypeLabel(z.zoneType)), ToLower(query), i);
  }

  /** The empty query matches every zone. */
  lemma MatchesEmptyQuery(z: Zone)
    ensures Matches(z, "")
  {
    assert OccursAt(ToLower(z.name), ToLower(""), 0);
    MatchesIff(z, "");
  }

  /** Matching a lower-cased query is matching the query itself. */
  lemma MatchesIgnoresQueryCase(z: Zone, query: string)
    ensures Matches(z, ToLower(query)) == Matches(z, query)
  {
    ToLowerIdempotent(query);
  }

  /** Queries that differ only in the case of their letters select the same zones. */
  lemma MatchesCaseInsensitive(z: Zone, q1: string, q2: string)
    requires EqualIgnoringCase(q1, q2)
    ensures Matches(z, q1) == Matches(z, q2)
  {
    ToLowerCaseInsensitive(q1, q2);
  }

  // ---------------------------------------------------------------- comparator

  /** The text a text field holds. */
  function FieldText(z: Zone, field: ZoneField): string
    requires field.IsText()
  {
    match field
    case Name => z.name
    case Type => TypeLabel(z.zoneType)
    case Matricule => z.matricule
  }

  /** The number a numeric field holds. */
  function FieldNumber(z: Zone, field: ZoneField): int
    requires field.IsNumeric()
  {
    match field
    case WeightCapacity => z.weightCapacity
    case Saturation => z.saturation
  }

  /** The sort comparator: lower-cased text compared lexicographically for name, type and
      matricule, the difference of the values for weight capacity and saturation, with the
      operands swapped for a descending sort, and 0 for every other field. A negative result
      puts `a` first. */
  function Compare(a: Zone, b: Zone, field: ZoneField, dir: Direction): (r: int)
    ensures field.IsText() ==> -1 <= r <= 1
    ensures field.IsNumeric() ==> (r == 0 <==> FieldNumber(a, field) == FieldNumber(b, field))
    ensures !field.IsText() && !field.IsNumeric() ==> r == 0
  {
    if field.IsText() then
      var aValue := ToLower(FieldText(a, field));
      var bValue := ToLower(FieldText(b, field));
      if dir == Asc then LexCompare(aValue, bValue) else LexCompare(bValue, aValue)
    else if field.IsNumeric() then
      var aValue := FieldNumber(a, field);
      var bValue := FieldNumber(b, field);
      if dir == Asc then aValue - bValue else bValue - aValue
    else
      0
  }

  /** What the comparator looks at for a field: two zones compare equal exactly when their
      keys agree. */
  datatype SortKey = TextKey(text: string) | NumKey(num: int) | NoKey

  function KeyOf(z: Zone, field: ZoneField): SortKey {
    if field.IsText() then TextKey(ToLower(FieldText(z, field)))
    else if field.IsNumeric() then NumKey(FieldNumber(z, field))
    else NoKey
  }

  /** Two zones compare equal exactly when they agree on the sorted field's (folded) value;
      for a field that is neither text nor numeric, every pair compares equal. */
  lemma CompareZeroIff(a: Zone, b: Zone, field: ZoneField, dir: Direction)
    ensures Compare(a, b, field, dir) == 0 <==> KeyOf(a, field) == KeyOf(b, field)
    ensures !field.IsText() && !field.IsNumeric() ==> Compare(a, b, field, dir) == 0
  {
    if field.IsText() {
      LexCompareZeroIff(ToLower(FieldText(a, field)), ToLower(FieldText(b, field)));
      LexCompareZeroIff(ToLower(FieldText(b, field)), ToLower(FieldText(a, field)));
    }
  }

  /** The descending comparator is the exact negation of the ascending one. */
  lemma DescendingNegatesAscending(a: Zone, b: Zone, field: ZoneField)
    ensures Compare(a, b, field, Desc) == -Compare(a, b, field, Asc)
  {
    if field.IsText() {
      LexCompareAntisymmetric(ToLower(FieldText(a, field)), ToLower(FieldText(b, field)));
    }
  }

  /** Swapping the zones negates the comparison, in either direction. */
  lemma CompareAntisymmetric(a: Zone, b: Zone, field: ZoneField, dir: Direction)
    ensures Compare(b, a, field, dir) == -Compare(a, b, field, dir)
  {
    if field.IsText() {
      LexCompareAntisymmetric(ToLower(FieldText(a, field)), ToLower(FieldText(b, field)));
    }
  }

  /** "Sorts no later than" is transitive, so the comparator is a consistent total preorder. */
  lemma CompareTransitive(a: Zone, b: Zone, c: Zone, field: ZoneField, dir: Direction)
    requires Compare(a, b, field, dir) <= 0 && Compare(b, c, field, dir) <= 0
    ensures Compare(a, c, field, dir) <= 0
  {
    if field.IsText() {
      var x, y, w := ToLower(FieldText(a, field)), ToLower(FieldText(b, field)), ToLower(FieldText(c, field));
      if dir == Asc {
        LexCompareTransitive(x, y, w);
      } else {
        LexCompareTransitive(w, y, x);
      }
    }
  }

  /** For weight capacity and saturation the ascending comparator is negative exactly when the
      value of `a` is smaller, so the smaller value comes first; descending puts the larger
      value first. */
  lemma NumericCompareMeansLess(a: Zone, b: Zone, field: ZoneField)
    ensures field.IsNumeric() ==>
      (Compare(a, b, field, Asc) < 0 <==> FieldNumber(a, field) < FieldNumber(b, field))
    ensures field.IsNumeric() ==>
      (Compare(a, b, field, Desc) < 0 <==> FieldNumber(b, field) < FieldNumber(a, field))
  {
  }

  /** For text fields the ascending comparator is negative exactly when the folded value of `a`
      is lexicographically before that of `b`. */
  lemma TextCompareMeansLexLess(a: Zone, b: Zone, field: ZoneField)
    requires field.IsText()
    ensures Compare(a, b, field, Asc) < 0 <==> LexLess(ToLower(FieldText(a, field)), ToLower(FieldText(b, field)))
  {
    LexCompareNegativeIff(ToLower(FieldText(a, field)), ToLower(FieldText(b, field)));
  }
}
