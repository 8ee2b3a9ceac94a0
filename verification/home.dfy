/**
 * The home page's two status filters. A school filter looks at the cross of two flags
 * (visited, has quota); a house filter gives `isNotAvailable` precedence over `isVisited`.
 */
module Home {
  import opened Records
  import opened Sequences

  /** The school filter (`FilterType`). */
  datatype SchoolFilter = All | Visited | WithoutQuota

  /** The house filter (`HouseFilterType`). */
  datatype HouseFilter = All | Visited | NotAvailable

  predicate IsVisitedWithQuota(s: School) { s.isVisited && s.hasQuota }

  predicate IsVisitedWithoutQuota(s: School) { s.isVisited && !s.hasQuota }

  predicate IsVisitedSchool(s: School) { s.isVisited }

  predicate IsVisitedAvailable(h: House) { h.isVisited && !h.isNotAvailable }

  predicate IsNotAvailable(h: House) { h.isNotAvailable }

  /** `getFilteredSchools`: every result is the input with some schools dropped, order kept. */
  function FilteredSchools(schools: seq<School>, filter: SchoolFilter): (r: seq<School>)
    ensures IsSubsequence(r, schools) && |r| <= |schools|
    ensures filter == SchoolFilter.All ==> r == schools
    ensures filter == SchoolFilter.Visited ==>
      forall s :: multiset(r)[s] == if s.isVisited && s.hasQuota then multiset(schools)[s] else 0
    ensures filter == SchoolFilter.WithoutQuota ==>
      forall s :: multiset(r)[s] == if s.isVisited && !s.hasQuota then multiset(schools)[s] else 0
  {
    match filter
    case Visited => KeepCount(schools, IsVisitedWithQuota); KeepSubsequence(schools, IsVisitedWithQuota); Keep(schools, IsVisitedWithQuota)
    case WithoutQuota => KeepCount(schools, IsVisitedWithoutQuota); KeepSubsequence(schools, IsVisitedWithoutQuota); Keep(schools, IsVisitedWithoutQuota)
    case All => SubsequenceOfItself(schools); schools
  }

  /** `getFilteredHouses`: every result is the input with some houses dropped, order kept. */
  function FilteredHouses(houses: seq<House>, filter: HouseFilter): (r: seq<House>)
    ensures IsSubsequence(r, houses) && |r| <= |houses|
    ensures filter == HouseFilter.All ==> r == houses
    ensures filter == HouseFilter.Visited ==>
      forall h :: multiset(r)[h] == if h.isVisited && !h.isNotAvailable then multiset(houses)[h] else 0
    ensures filter == HouseFilter.NotAvailable ==>
      forall h :: multiset(r)[h] == if h.isNotAvailable then multiset(houses)[h] else 0
  {
    match filter
    case Visited => KeepCount(houses, IsVisitedAvailable); KeepSubsequence(houses, IsVisitedAvailable); Keep(houses, IsVisitedAvailable)
    case NotAvailable => KeepCount(houses, IsNotAvailable); KeepSubsequence(houses, IsNotAvailable); Keep(houses, IsNotAvailable)
    case All => SubsequenceOfItself(houses); houses
  }

  /**
   * The `visited` and `withoutQuota` school results share no school and together hold
   * exactly the visited schools, so an unvisited school is in neither.
   */
  lemma VisitedSchoolsPartition(schools: seq<School>)
    ensures multiset(FilteredSchools(schools, SchoolFilter.Visited)) * multiset(FilteredSchools(schools, SchoolFilter.WithoutQuota)) == multiset{}
    ensures multiset(FilteredSchools(schools, SchoolFilter.Visited)) + multiset(FilteredSchools(schools, SchoolFilter.WithoutQuota))
         == multiset(Keep(schools, IsVisitedSchool))
    ensures |FilteredSchools(schools, SchoolFilter.Visited)| + |FilteredSchools(schools, SchoolFilter.WithoutQuota)|
         == |Keep(schools, IsVisitedSchool)|
    ensures forall s: School :: !s.isVisited ==>
      s !in FilteredSchools(schools, SchoolFilter.Visited) && s !in FilteredSchools(schools, SchoolFilter.WithoutQuota)
  {
    KeepDisjoint(schools, IsVisitedWithQuota, IsVisitedWithoutQuota);
    KeepPartition(schools, IsVisitedSchool, IsVisitedWithQuota, IsVisitedWithoutQuota);
  }

  /** A one-school list survives the `visited` filter exactly when the school is visited and has quota. */
  lemma SingleSchoolVisited(s: School)
    ensures FilteredSchools([s], SchoolFilter.Visited) != [] <==> s.isVisited && s.hasQuota
  {
    var r := FilteredSchools([s], SchoolFilter.Visited);
    assert multiset(r)[s] == if s.isVisited && s.hasQuota then 1 else 0;
    if r != [] {
      assert multiset(r)[r[0]] > 0;
    }
  }

  /** A one-house list survives the `notAvailable` filter exactly when the house is not available. */
  lemma SingleHouseNotAvailable(h: House)
    ensures FilteredHouses([h], HouseFilter.NotAvailable) != [] <==> h.isNotAvailable
  {
    var r := FilteredHouses([h], HouseFilter.NotAvailable);
    assert multiset(r)[h] == if h.isNotAvailable then 1 else 0;
    if r != [] {
      assert multiset(r)[r[0]] > 0;
    }
  }

  /**
   * The `visited` and `notAvailable` house results share no house; a house that is both
   * visited and not available is listed under `notAvailable` only.
   */
  lemma HouseFiltersDisjoint(houses: seq<House>)
    ensures multiset(FilteredHouses(houses, HouseFilter.Visited)) * multiset(FilteredHouses(houses, HouseFilter.NotAvailable)) == multiset{}
    ensures forall h: House :: h in houses && h.isVisited && h.isNotAvailable ==>
      h in FilteredHouses(houses, HouseFilter.NotAvailable) && h !in FilteredHouses(houses, HouseFilter.Visited)
  {
    KeepDisjoint(houses, IsVisitedAvailable, IsNotAvailable);
    var rn := FilteredHouses(houses, HouseFilter.NotAvailable);
    forall h | h in houses && h.isVisited && h.isNotAvailable
      ensures h in rn
    {
      assert multiset(rn)[h] == multiset(houses)[h];
    }
  }
}
