/**
 * The school map's marker logic: the colour of each school's marker, the click and
 * `popupclose` handlers that track the one open popup, and the loading of the markers
 * with its two counters. Leaflet itself is not modelled; a marker is an object that
 * remembers its school and its colour, and the popups Leaflet shows are a set of markers.
 */
module SchoolMap {
  import opened Wrappers
  import opened Records
  import opened Sequences
  import opened Home

  const GREEN: string := "#059669"
  const RED: string := "#dc2626"
  const BLACK: string := "#374151"

  /** The fill colour `createCustomIcon` gives a school's marker. */
  function IconColor(school: School): (color: string)
    ensures color == GREEN <==> school.isVisited && school.hasQuota
    ensures color == RED <==> school.isVisited && !school.hasQuota
    ensures color == BLACK <==> !school.isVisited
  {
    if school.isVisited && school.hasQuota then GREEN
    else if school.isVisited && !school.hasQuota then RED
    else BLACK
  }

  /**
   * The colours line up with the home page's school filters: a green marker is a school the
   * `visited` filter keeps, a red one a school the `withoutQuota` filter keeps, and a black
   * one a school neither keeps.
   */
  lemma ColorsMatchFilters(schools: seq<School>)
    ensures FilteredSchools(schools, SchoolFilter.Visited) == Keep(schools, IsGreen)
    ensures FilteredSchools(schools, SchoolFilter.WithoutQuota) == Keep(schools, IsRed)
    ensures forall s: School :: IconColor(s) == BLACK ==>
      s !in FilteredSchools(schools, SchoolFilter.Visited) && s !in FilteredSchools(schools, SchoolFilter.WithoutQuota)
  {
    KeepSamePredicate(schools, IsVisitedWithQuota, IsGreen);
    KeepSamePredicate(schools, IsVisitedWithoutQuota, IsRed);
    VisitedSchoolsPartition(schools);
  }

  predicate IsGreen(s: School) { IconColor(s) == GREEN }

  predicate IsRed(s: School) { IconColor(s) == RED }

  /** A Leaflet marker placed for a school; its icon is drawn once, from the school it was made for. */
  class Marker {
    const school: School

    constructor (school: School)
      ensures this.school == school
    {
      this.school := school;
    }

    /** The colour of the marker's icon. */
    function Color(): string {
      IconColor(school)
    }
  }

  /** The schools of a list of markers, in order. */
  function MarkerSchools(markers: seq<Marker>): (r: seq<School>)
    ensures |r| == |markers|
    ensures forall i :: 0 <= i < |markers| ==> r[i] == markers[i].school
  {
    seq(|markers|, i requires 0 <= i < |markers| => markers[i].school)
  }

  /** Appending a marker appends its school. */
  lemma MarkerSchoolsSnoc(markers: seq<Marker>, m: Marker)
    ensures MarkerSchools(markers + [m]) == MarkerSchools(markers) + [m.school]
  {
  }

  /**
   * Whether a school gets a marker: it has usable coordinates, and Leaflet does not throw
   * while the marker is built. Both are decided outside this model and passed in.
   */
  function PlacedTest(hasCoords: School -> bool, throws: School -> bool): School -> bool {
    s => hasCoords(s) && !throws(s)
  }

  function MissingTest(hasCoords: School -> bool): School -> bool {
    s => !hasCoords(s)
  }

  /** The schools that end up with a marker, in list order. */
  function Placed(schools: seq<School>, hasCoords: School -> bool, throws: School -> bool): seq<School> {
    Keep(schools, PlacedTest(hasCoords, throws))
  }

  /** The schools counted as having no coordinates, in list order. */
  function Missing(schools: seq<School>, hasCoords: School -> bool): seq<School> {
    Keep(schools, MissingTest(hasCoords))
  }

  /**
   * A school gets a marker exactly when it has coordinates and Leaflet does not throw, and
   * is counted as missing exactly when it has no coordinates; no school is both.
   */
  lemma PlacedAndMissingMembers(schools: seq<School>, hasCoords: School -> bool, throws: School -> bool)
    ensures forall s: School :: s in Placed(schools, hasCoords, throws) <==> s in schools && hasCoords(s) && !throws(s)
    ensures forall s: School :: s in Missing(schools, hasCoords) <==> s in schools && !hasCoords(s)
    ensures |Placed(schools, hasCoords, throws)| + |Missing(schools, hasCoords)| <= |schools|
  {
    var p, m := Placed(schools, hasCoords, throws), Missing(schools, hasCoords);
    KeepCount(schools, PlacedTest(hasCoords, throws));
    KeepCount(schools, MissingTest(hasCoords));
    assert forall s :: s in p <==> multiset(p)[s] > 0;
    assert forall s :: s in m <==> multiset(m)[s] > 0;
    KeepDisjointLength(schools, PlacedTest(hasCoords, throws), MissingTest(hasCoords));
  }

  /** Looking at one more school extends the placed list by at most that school. */
  lemma PlacedSnoc(schools: seq<School>, i: nat, hasCoords: School -> bool, throws: School -> bool)
    requires i < |schools|
    ensures Placed(schools[..i + 1], hasCoords, throws)
         == Placed(schools[..i], hasCoords, throws) + (if hasCoords(schools[i]) && !throws(schools[i]) then [schools[i]] else [])
  {
    assert schools[..i + 1] == schools[..i] + [schools[i]];
    KeepAppend(schools[..i], [schools[i]], PlacedTest(hasCoords, throws));
    KeepSingleton(schools[i], PlacedTest(hasCoords, throws));
  }

  /** Looking at one more school extends the list without coordinates by at most that school. */
  lemma MissingSnoc(schools: seq<School>, i: nat, hasCoords: School -> bool)
    requires i < |schools|
    ensures Missing(schools[..i + 1], hasCoords)
         == Missing(schools[..i], hasCoords) + (if !hasCoords(schools[i]) then [schools[i]] else [])
  {
    assert schools[..i + 1] == schools[..i] + [schools[i]];
    KeepAppend(schools[..i], [schools[i]], MissingTest(hasCoords));
    KeepSingleton(schools[i], MissingTest(hasCoords));
  }

  /**
   * The map component's marker state: whether the map exists yet (`mapInstanceRef`), the
   * placed markers (`markersRef`), the marker whose popup the handlers consider open
   * (`currentOpenPopup`), and the markers whose popup Leaflet is showing.
   */
  class MarkerLayer {
    var mapReady: bool
    var markers: seq<Marker>
    var currentOpenPopup: Option<Marker>
    var openPopups: set<Marker>

    /** The popups the handlers consider open: the current one, if any. */
    function Current(): set<Marker>
      reads this
    {
      if currentOpenPopup.Some? then {currentOpenPopup.value} else {}
    }

    /** At most one popup is showing, it is the current one, and it belongs to a placed marker. */
    ghost predicate Valid()
      reads this
    {
      && openPopups <= Current()
      && forall m :: m in openPopups ==> m in markers
    }

    /** A map that is not created yet, with no markers. */
    constructor ()
      ensures !mapReady && markers == [] && currentOpenPopup == None && openPopups == {}
      ensures Valid()
    {
      mapReady := false;
      markers := [];
      currentOpenPopup := None;
      openPopups := {};
    }

    /** The map has been created (`mapInstanceRef.current = map`); markers and popups are untouched. */
    method MapCreated()
      requires Valid()
      modifies this`mapReady
      ensures mapReady && Valid()
    {
      mapReady := true;
    }

    /**
     * The `click` handler of marker `m`: clicking the current marker closes its popup;
     * clicking any other closes the current popup and opens this one.
     */
    method Click(m: Marker)
      requires Valid()
      requires m in markers
      modifies this`currentOpenPopup, this`openPopups
      ensures Valid()
      ensures old(currentOpenPopup) == Some(m) ==> currentOpenPopup == None && openPopups == {}
      ensures old(currentOpenPopup) != Some(m) ==> currentOpenPopup == Some(m) && openPopups == {m}
    {
      if currentOpenPopup == Some(m) {
        openPopups := openPopups - {m};
        currentOpenPopup := None;
      } else {
        if currentOpenPopup.Some? {
          openPopups := openPopups - {currentOpenPopup.value};
        }
        openPopups := openPopups + {m};
        currentOpenPopup := Some(m);
      }
    }

    /**
     * Leaflet closes the popup of marker `m` (for example through its close button) and
     * fires `popupclose`: the current popup is cleared only if it is `m`'s.
     */
    method PopupClose(m: Marker)
      requires Valid()
      modifies this`currentOpenPopup, this`openPopups
      ensures Valid()
      ensures old(currentOpenPopup) == Some(m) ==> currentOpenPopup == None && openPopups == {}
      ensures old(currentOpenPopup) != Some(m) ==>
        currentOpenPopup == old(currentOpenPopup) && openPopups == old(openPopups)
    {
      openPopups := openPopups - {m};
      if currentOpenPopup == Some(m) {
        currentOpenPopup := None;
      }
    }

    /**
     * The reset at the start of `loadSchoolMarkers`: every placed marker is removed from the
     * map, which closes its popup, the marker list is emptied and no popup is current.
     */
    method ClearMarkers()
      requires Valid()
      modifies this`markers, this`currentOpenPopup, this`openPopups
      ensures Valid()
      ensures markers == [] && currentOpenPopup == None && openPopups == {}
    {
      for i := 0 to |markers|
        invariant markers == old(markers)
        invariant forall m :: m in openPopups ==> m in markers[i..]
      {
        assert markers[i..] == [markers[i]] + markers[i + 1..];
        openPopups := openPopups - {markers[i]};
      }
      assert forall m :: m !in openPopups;
      markers := [];
      currentOpenPopup := None;
    }

    /**
     * The loop body of `loadSchoolMarkers` for one school: a school without coordinates is
     * only reported; otherwise a marker is built and pushed, unless Leaflet throws.
     */
    method AddSchoolMarker(school: School, hasCoords: School -> bool, throws: School -> bool)
      returns (added: bool, missing: bool)
      modifies this`markers
      ensures added <==> hasCoords(school) && !throws(school)
      ensures missing <==> !hasCoords(school)
      ensures MarkerSchools(markers) == MarkerSchools(old(markers)) + (if added then [school] else [])
      ensures forall m :: m in markers ==> m in old(markers) || fresh(m)
    {
      added, missing := false, false;
      if hasCoords(school) {
        if !throws(school) {
          var marker := new Marker(school);
          MarkerSchoolsSnoc(markers, marker);
          markers := markers + [marker];
          added := true;
        }
      } else {
        missing := true;
      }
    }

    /**
     * `loadSchoolMarkers`: without a map nothing happens. Otherwise every old marker is
     * removed (which closes its popup), the popup tracking is reset, and one marker is
     * placed per school that has coordinates and does not make Leaflet throw; the two
     * counters say how many markers were placed and how many schools had no coordinates.
     */
    method LoadSchoolMarkers(schools: seq<School>, hasCoords: School -> bool, throws: School -> bool)
      returns (markersAdded: nat, schoolsWithoutCoords: nat)
      requires Valid()
      modifies this`markers, this`currentOpenPopup, this`openPopups
      ensures Valid()
      ensures !mapReady ==>
        markersAdded == 0 && schoolsWithoutCoords == 0 &&
        markers == old(markers) && currentOpenPopup == old(currentOpenPopup) && openPopups == old(openPopups)
      ensures mapReady ==> currentOpenPopup == None && openPopups == {}
      ensures mapReady ==> |markers| == markersAdded && markersAdded + schoolsWithoutCoords <= |schools|
      ensures mapReady ==> MarkerSchools(markers) == Placed(schools, hasCoords, throws)
      ensures mapReady ==> schoolsWithoutCoords == |Missing(schools, hasCoords)|
      ensures mapReady ==> forall m :: m in markers ==> fresh(m)
    {
      if !mapReady {
        markersAdded, schoolsWithoutCoords := 0, 0;
        return;
      }
      ClearMarkers();
      markersAdded, schoolsWithoutCoords := PlaceMarkers(schools, hasCoords, throws);
    }

    /** The loop of `loadSchoolMarkers` over the schools, starting from an empty marker list. */
    method PlaceMarkers(schools: seq<School>, hasCoords: School -> bool, throws: School -> bool)
      returns (markersAdded: nat, schoolsWithoutCoords: nat)
      requires markers == []
      modifies this`markers
      ensures |markers| == markersAdded && markersAdded + schoolsWithoutCoords <= |schools|
      ensures MarkerSchools(markers) == Placed(schools, hasCoords, throws)
      ensures schoolsWithoutCoords == |Missing(schools, hasCoords)|
      ensures forall m :: m in markers ==> fresh(m)
    {
      markersAdded, schoolsWithoutCoords := 0, 0;
      for i := 0 to |schools|
        invariant |markers| == markersAdded
        invariant MarkerSchools(markers) == Placed(schools[..i], hasCoords, throws)
        invariant schoolsWithoutCoords == |Missing(schools[..i], hasCoords)|
        invariant forall m :: m in markers ==> fresh(m)
      {
        PlacedSnoc(schools, i, hasCoords, throws);
        MissingSnoc(schools, i, hasCoords);
        var added, missing := AddSchoolMarker(schools[i], hasCoords, throws);
        if added {
          markersAdded := markersAdded + 1;
        }
        if missing {
          schoolsWithoutCoords := schoolsWithoutCoords + 1;
        }
      }
      assert schools[..|schools|] == schools;
      PlacedAndMissingMembers(schools, hasCoords, throws);
    }
  }
}
