/**
 * The school statistics panel: how many schools there are, how many were visited, and how
 * many have a quota.
 */
module StatsPanel {
  import opened Records
  import opened Sequences
  import opened Home
  import opened SchoolMap

  /** The panel's own test for a visited school. */
  predicate CountedVisited(s: School) { s.isVisited }

  /** The panel's own test for a school with a quota, visited or not. */
  predicate CountedWithQuota(s: School) { s.hasQuota }

  predicate IsUnvisitedWithQuota(s: School) { !s.isVisited && s.hasQuota }

  datatype SchoolCounts = SchoolCounts(total: nat, visited: nat, withQuota: nat)

  /**
   * `total`, `visited` and `withQuota` over the schools passed in. The visited schools are
   * exactly those the home page's `visited` and `withoutQuota` filters share out between
   * them; the schools with a quota are the `visited` filter's schools plus the unvisited
   * schools that have one.
   */
  function Counts(schools: seq<School>): (r: SchoolCounts)
    ensures r.total == |schools|
    ensures r.visited <= r.total && r.withQuota <= r.total
    ensures r.visited == |FilteredSchools(schools, SchoolFilter.Visited)| + |FilteredSchools(schools, SchoolFilter.WithoutQuota)|
    ensures r.withQuota == |FilteredSchools(schools, SchoolFilter.Visited)| + |Keep(schools, IsUnvisitedWithQuota)|
  {
    VisitedSchoolsPartition(schools);
    KeepSamePredicate(schools, CountedVisited, IsVisitedSchool);
    KeepPartition(schools, CountedWithQuota, IsVisitedWithQuota, IsUnvisitedWithQuota);
    SchoolCounts(|schools|, |Keep(schools, CountedVisited)|, |Keep(schools, CountedWithQuota)|)
  }

  /** The visited count is the number of green markers plus the number of red ones. */
  lemma VisitedCountIsColoredMarkers(schools: seq<School>)
    ensures Counts(schools).visited == |Keep(schools, IsGreen)| + |Keep(schools, IsRed)|
  {
    ColorsMatchFilters(schools);
  }
}
