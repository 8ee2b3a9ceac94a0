/**
 * The `useUrlFilters` hook: the school and house filters live in the `schoolFilter` and
 * `houseFilter` query parameters. A filter equal to `all` is written as an absent parameter,
 * and an absent or unknown value reads back as `all`.
 */
module UrlFilters {
  import opened Wrappers
  import opened SearchParams
  import opened Home

  const SCHOOL_PARAM: string := "schoolFilter"
  const HOUSE_PARAM: string := "houseFilter"

  /** The string each school filter is written as. */
  function SchoolFilterName(f: SchoolFilter): string {
    match f
    case All => "all"
    case Visited => "visited"
    case WithoutQuota => "withoutQuota"
  }

  /** The string each house filter is written as. */
  function HouseFilterName(f: HouseFilter): string {
    match f
    case All => "all"
    case Visited => "visited"
    case NotAvailable => "notAvailable"
  }

  const VALID_SCHOOL_FILTERS: seq<string> := ["all", "visited", "withoutQuota"]
  const VALID_HOUSE_FILTERS: seq<string> := ["all", "visited", "notAvailable"]

  /** `isValidSchoolFilter`: the string names one of the school filters. */
  function IsValidSchoolFilter(s: string): (r: bool)
    ensures r <==> exists f: SchoolFilter :: SchoolFilterName(f) == s
  {
    assert SchoolFilterName(SchoolFilter.All) == VALID_SCHOOL_FILTERS[0];
    assert SchoolFilterName(SchoolFilter.Visited) == VALID_SCHOOL_FILTERS[1];
    assert SchoolFilterName(SchoolFilter.WithoutQuota) == VALID_SCHOOL_FILTERS[2];
    s in VALID_SCHOOL_FILTERS
  }

  /** `isValidHouseFilter`: the string names one of the house filters. */
  function IsValidHouseFilter(s: string): (r: bool)
    ensures r <==> exists f: HouseFilter :: HouseFilterName(f) == s
  {
    assert HouseFilterName(HouseFilter.All) == VALID_HOUSE_FILTERS[0];
    assert HouseFilterName(HouseFilter.Visited) == VALID_HOUSE_FILTERS[1];
    assert HouseFilterName(HouseFilter.NotAvailable) == VALID_HOUSE_FILTERS[2];
    s in VALID_HOUSE_FILTERS
  }

  /** The school filter named by a parameter value: the named one if valid, `all` otherwise. */
  function ParseSchoolFilter(v: Option<string>): (f: SchoolFilter)
    ensures v.Some? && IsValidSchoolFilter(v.value) ==> SchoolFilterName(f) == v.value
    ensures !(v.Some? && IsValidSchoolFilter(v.value)) ==> f == SchoolFilter.All
  {
    // `get` returns null for an absent parameter, and `null || ''` is the empty string
    var s := if v.Some? then v.value else "";
    if !IsValidSchoolFilter(s) then SchoolFilter.All
    else if s == "visited" then SchoolFilter.Visited
    else if s == "withoutQuota" then SchoolFilter.WithoutQuota
    else SchoolFilter.All
  }

  /** The house filter named by a parameter value: the named one if valid, `all` otherwise. */
  function ParseHouseFilter(v: Option<string>): (f: HouseFilter)
    ensures v.Some? && IsValidHouseFilter(v.value) ==> HouseFilterName(f) == v.value
    ensures !(v.Some? && IsValidHouseFilter(v.value)) ==> f == HouseFilter.All
  {
    var s := if v.Some? then v.value else "";
    if !IsValidHouseFilter(s) then HouseFilter.All
    else if s == "visited" then HouseFilter.Visited
    else if s == "notAvailable" then HouseFilter.NotAvailable
    else HouseFilter.All
  }

  /** The pair of filters the hook holds (`UrlFilters`). */
  datatype Filters = Filters(school: SchoolFilter, house: HouseFilter)

  /** `parseFiltersFromUrl`, given the current query. */
  function ParseFilters(q: Query): Filters
  {
    Filters(ParseSchoolFilter(Get(q, SCHOOL_PARAM)), ParseHouseFilter(Get(q, HOUSE_PARAM)))
  }

  /**
   * The query `updateUrlWithFilters` writes: a filter other than `all` is set, and an `all`
   * filter's parameter is deleted.
   */
  function WithFilters(q: Query, s: SchoolFilter, h: HouseFilter): (r: Query)
    ensures Get(r, SCHOOL_PARAM) == if s == SchoolFilter.All then None else Some(SchoolFilterName(s))
    ensures Get(r, HOUSE_PARAM) == if h == HouseFilter.All then None else Some(HouseFilterName(h))
  {
    var q1 := if s == SchoolFilter.All then Delete(q, SCHOOL_PARAM) else Set(q, SCHOOL_PARAM, SchoolFilterName(s));
    if h == HouseFilter.All then
      GetAfterDelete(q1, HOUSE_PARAM, SCHOOL_PARAM);
      Delete(q1, HOUSE_PARAM)
    else
      GetAfterSet(q1, HOUSE_PARAM, HouseFilterName(h), SCHOOL_PARAM);
      Set(q1, HOUSE_PARAM, HouseFilterName(h))
  }

  /** The query with both filter parameters removed: everything a filter write must keep. */
  function OtherParams(q: Query): (r: Query)
    ensures !Named(r, SCHOOL_PARAM) && !Named(r, HOUSE_PARAM)
  {
    DeleteCommutes(q, SCHOOL_PARAM, HOUSE_PARAM);
    Delete(Delete(q, SCHOOL_PARAM), HOUSE_PARAM)
  }

  /** The location the hook reads and rewrites: a path and its query. */
  datatype Location = Location(pathname: string, search: Query)

  /** The URL handed to `replaceState`: the bare path when the query is empty. */
  function Href(loc: Location): (r: string)
    ensures r == loc.pathname <==> loc.search == []
    ensures loc.search != [] ==> r == loc.pathname + "?" + Serialize(loc.search)
  {
    var query := Serialize(loc.search);
    if query != [] then loc.pathname + "?" + query else loc.pathname
  }

  /** Parsing what a write produced gives back the written filters, for every query. */
  lemma RoundTrip(q: Query, s: SchoolFilter, h: HouseFilter)
    ensures ParseFilters(WithFilters(q, s, h)) == Filters(s, h)
  {
    var r := WithFilters(q, s, h);
    match s {
      case All =>
      case Visited =>
        assert IsValidSchoolFilter(SchoolFilterName(s));
      case WithoutQuota =>
        assert IsValidSchoolFilter(SchoolFilterName(s));
    }
    match h {
      case All =>
      case Visited =>
        assert IsValidHouseFilter(HouseFilterName(h));
      case NotAvailable =>
        assert IsValidHouseFilter(HouseFilterName(h));
    }
  }

  /** A write keeps every other parameter, with its value and in its order. */
  lemma {:induction false} OtherParamsKept(q: Query, s: SchoolFilter, h: HouseFilter)
    ensures OtherParams(WithFilters(q, s, h)) == OtherParams(q)
  {
    var q1 := if s == SchoolFilter.All then Delete(q, SCHOOL_PARAM) else Set(q, SCHOOL_PARAM, SchoolFilterName(s));
    var r := WithFilters(q, s, h);
    assert r == if h == HouseFilter.All then Delete(q1, HOUSE_PARAM) else Set(q1, HOUSE_PARAM, HouseFilterName(h));
    if s == SchoolFilter.All { DeleteTwice(q, SCHOOL_PARAM); }
    assert Delete(q1, SCHOOL_PARAM) == Delete(q, SCHOOL_PARAM);
    if h == HouseFilter.All { DeleteTwice(q1, HOUSE_PARAM); }
    assert Delete(r, HOUSE_PARAM) == Delete(q1, HOUSE_PARAM);
    calc {
      OtherParams(r);
      Delete(Delete(r, SCHOOL_PARAM), HOUSE_PARAM);
      { DeleteCommutes(r, SCHOOL_PARAM, HOUSE_PARAM); }
      Delete(Delete(q1, HOUSE_PARAM), SCHOOL_PARAM);
      { DeleteCommutes(q1, SCHOOL_PARAM, HOUSE_PARAM); }
      Delete(Delete(q, SCHOOL_PARAM), HOUSE_PARAM);
    }
  }

  /**
   * Writing (`all`, `all`) leaves neither filter parameter; with no other parameter the
   * query is empty and the URL is the bare path, with no `?`.
   */
  lemma AllFiltersLeaveBarePath(loc: Location)
    ensures var r := WithFilters(loc.search, SchoolFilter.All, HouseFilter.All);
      !Named(r, SCHOOL_PARAM) && !Named(r, HOUSE_PARAM) &&
      (OtherParams(loc.search) == [] ==> Href(Location(loc.pathname, r)) == loc.pathname)
  {
    var r := WithFilters(loc.search, SchoolFilter.All, HouseFilter.All);
    assert r == OtherParams(loc.search);
  }

  /**
   * The hook's state: the browser location it reads and rewrites, and the filters it holds.
   */
  class UrlFilterHook {
    var location: Location
    var filters: Filters

    /** The held filters are what parsing the current location gives. */
    ghost predicate Synced()
      reads this
    {
      filters == ParseFilters(location.search)
    }

    /** The initial state is parsed from the location the page was loaded with. */
    constructor (initial: Location)
      ensures location == initial && filters == ParseFilters(initial.search)
      ensures Synced()
    {
      location := initial;
      filters := ParseFilters(initial.search);
    }

    /**
     * `updateUrlWithFilters`: edit the query in place, then replace the current history
     * entry; `fullUrl` is the URL handed to `replaceState`.
     */
    method UpdateUrlWithFilters(s: SchoolFilter, h: HouseFilter) returns (fullUrl: string)
      modifies this`location
      ensures location == Location(old(location.pathname), WithFilters(old(location.search), s, h))
      ensures fullUrl == Href(location)
    {
      var params := location.search;
      if s == SchoolFilter.All {
        params := Delete(params, SCHOOL_PARAM);
      } else {
        params := Set(params, SCHOOL_PARAM, SchoolFilterName(s));
      }
      if h == HouseFilter.All {
        params := Delete(params, HOUSE_PARAM);
      } else {
        params := Set(params, HOUSE_PARAM, HouseFilterName(h));
      }
      fullUrl := Href(Location(location.pathname, params));
      location := Location(location.pathname, params);
    }

    /** `setSchoolFilter`: change the school filter, keep the house filter, rewrite the URL. */
    method SetSchoolFilter(f: SchoolFilter)
      modifies this
      ensures filters == Filters(f, old(filters.house))
      ensures location == Location(old(location.pathname), WithFilters(old(location.search), f, old(filters.house)))
      ensures Synced()
    {
      var newFilters := filters.(school := f);
      var _ := UpdateUrlWithFilters(newFilters.school, newFilters.house);
      RoundTrip(old(location.search), newFilters.school, newFilters.house);
      filters := newFilters;
    }

    /** `setHouseFilter`: change the house filter, keep the school filter, rewrite the URL. */
    method SetHouseFilter(f: HouseFilter)
      modifies this
      ensures filters == Filters(old(filters.school), f)
      ensures location == Location(old(location.pathname), WithFilters(old(location.search), old(filters.school), f))
      ensures Synced()
    {
      var newFilters := filters.(house := f);
      var _ := UpdateUrlWithFilters(newFilters.school, newFilters.house);
      RoundTrip(old(location.search), newFilters.school, newFilters.house);
      filters := newFilters;
    }

    /** The effect run when the location changes (back/forward): re-parse the URL. */
    method OnLocationChange()
      modifies this`filters
      ensures filters == ParseFilters(location.search)
      ensures Synced()
    {
      filters := ParseFilters(location.search);
    }
  }
}
