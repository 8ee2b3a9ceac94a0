/**
 * The house statistics panel: three counts taken over every house, each shown in a section
 * that selects the matching house filter when clicked.
 */
module HouseStatsPanel {
  import opened Records
  import opened Sequences
  import opened Home
  import opened UrlFilters

  /** The panel's own test for a visited house that is still available. */
  predicate CountedVisited(h: House) { h.isVisited && !h.isNotAvailable }

  /** The panel's own test for a house that is no longer available. */
  predicate CountedNotAvailable(h: House) { h.isNotAvailable }

  datatype HouseCounts = HouseCounts(total: nat, visited: nat, notAvailable: nat)

  /**
   * `total`, `visited` and `notAvailable`, taken over `allHouses` (never the filtered list):
   * each count is the length of the list the home page shows under the matching filter,
   * and a house is never counted twice.
   */
  function Counts(allHouses: seq<House>): (r: HouseCounts)
    ensures r.total == |allHouses|
    ensures r.visited == |FilteredHouses(allHouses, HouseFilter.Visited)|
    ensures r.notAvailable == |FilteredHouses(allHouses, HouseFilter.NotAvailable)|
    ensures r.visited + r.notAvailable <= r.total
  {
    KeepSamePredicate(allHouses, CountedVisited, IsVisitedAvailable);
    KeepSamePredicate(allHouses, CountedNotAvailable, IsNotAvailable);
    KeepDisjointLength(allHouses, CountedVisited, CountedNotAvailable);
    HouseCounts(|allHouses|, |Keep(allHouses, CountedVisited)|, |Keep(allHouses, CountedNotAvailable)|)
  }

  /** One clickable section of the panel: the filter it selects, the count it shows, its label and colour. */
  datatype Section = Section(id: HouseFilter, value: nat, caption: string, color: string)

  /**
   * `filterSections`: one section per house filter, in the order all, visited, not
   * available; each shows how many houses the home page lists once that filter is chosen.
   */
  function FilterSections(allHouses: seq<House>): (r: seq<Section>)
    ensures |r| == 3
    ensures r[0].id == HouseFilter.All && r[1].id == HouseFilter.Visited && r[2].id == HouseFilter.NotAvailable
    ensures forall f: HouseFilter :: r[SectionIndex(f)].id == f
    ensures forall i, j :: 0 <= i < j < |r| ==> r[i].id != r[j].id
    ensures forall i :: 0 <= i < |r| ==> IsValidHouseFilter(HouseFilterName(r[i].id))
    ensures forall i :: 0 <= i < |r| ==> r[i].value == |FilteredHouses(allHouses, r[i].id)|
  {
    var c := Counts(allHouses);
    var r := [
      Section(HouseFilter.All, c.total, "Total", "text-gray-900"),
      Section(HouseFilter.Visited, c.visited, "Visitados", "text-emerald-600"),
      Section(HouseFilter.NotAvailable, c.notAvailable, "No disponible", "text-red-600")
    ];
    r
  }

  /** Where the section of each filter sits in the panel. */
  function SectionIndex(f: HouseFilter): (i: nat)
    ensures i < 3
  {
    match f
    case All => 0
    case Visited => 1
    case NotAvailable => 2
  }

  /**
   * Clicking a section hands its own id to `onFilterChange`; with that filter the home page
   * lists exactly as many houses as the section showed.
   */
  lemma ClickShowsSectionCount(allHouses: seq<House>, f: HouseFilter)
    ensures var s := FilterSections(allHouses)[SectionIndex(f)];
      s.id == f && |FilteredHouses(allHouses, s.id)| == s.value
  {
  }
}
