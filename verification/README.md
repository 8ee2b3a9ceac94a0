# Alicante schools map — a verified model of its filter, URL, storage and marker logic

The application shows schools on a map and tracks visits to them: whether a school was visited
and whether it has a quota. It also lists rental houses, each of which may be visited and may be
no longer available. This project models the logic under that user interface in Dafny and
proves what it promises:

- **Home page filters** (`Home`). `FilteredSchools` and `FilteredHouses` are the two status filters. Each is a
  selection over two boolean flags. Both are built on `Sequences.Keep`, a model of `Array.prototype.filter`.
- **Filters in the URL** (`SearchParams`, `UrlFilters`). The query string is a list of name/value pairs,
  read and edited as `URLSearchParams` does (`get`, `set`, `delete` and `toString`, section 6.2 of the
  WHATWG URL Standard). Two filter values live in that query. The hook `UrlFilterHook` holds the
  browser location and the parsed filters. Its setters rewrite the URL and keep the two in step.
- **Server store** (`Storage`). `MemStorage` keeps schools and users in maps that remember insertion
  order, and keeps two id counters. It seeds itself from the school dataset, and it lists, patches
  and creates records.
- **Map markers** (`SchoolMap`). This covers:
  - the marker colour of a school;
  - the click and `popupclose` handlers that track the one open popup;
  - `loadSchoolMarkers`, which clears the old markers, places one marker per school that has
    coordinates, and counts what it placed and what it skipped.
- **Statistics panels** (`StatsPanel`, `HouseStatsPanel`). The school panel's `visited` count
  is proved equal to the sum of the `visited` and `withoutQuota` filter result lengths. Its
  `withQuota` count is the `visited` result length plus the number of unvisited schools that
  have a quota. The house panel's `visited` and `notAvailable` counts equal the lengths of the
  house filter results of the same names. The home page does not render the house panel: its
  use is commented out at `client/src/pages/home.tsx:100`.

The files are `wrappers.dfy`, `sequences.dfy`, `records.dfy`, `home.dfy`, `search_params.dfy`,
`url_filters.dfy`, `storage.dfy`, `map.dfy`, `house_stats_panel.dfy` and `stats_panel.dfy`. They
verify together.

## Model

| member | source | states |
|---|---|---|
| Home.FilteredSchools | client/src/pages/home.tsx:27-37 | `all` returns the input unchanged. `visited` keeps every occurrence of a school with `isVisited ∧ hasQuota` and nothing else. `withoutQuota` does the same for `isVisited ∧ ¬hasQuota`. Every result is an order-preserving subsequence of the input, no longer than it. |
| Home.FilteredHouses | client/src/pages/home.tsx:40-50 | `all` returns the input. `visited` keeps exactly the houses with `isVisited ∧ ¬isNotAvailable`. `notAvailable` keeps exactly the houses with `isNotAvailable`, whatever `isVisited` is. Order is kept and the result is never longer than the input. |
| Home.VisitedSchoolsPartition | client/src/pages/home.tsx:29-32 | The `visited` and `withoutQuota` results share no school. Together they hold exactly the visited schools, with matching lengths. An unvisited school is in neither. |
| Home.SingleSchoolVisited | client/src/pages/home.tsx:29-30 | One school passes `visited` if and only if it is visited and has a quota. |
| Home.SingleHouseNotAvailable | client/src/pages/home.tsx:44-45 | One house passes `notAvailable` if and only if it is not available. |
| Home.HouseFiltersDisjoint | client/src/pages/home.tsx:42-45 | The `visited` and `notAvailable` house results share no house. A house that is both visited and not available is listed under `notAvailable` only. |
| Sequences.KeepCount | client/src/pages/home.tsx:29-32 | `filter` keeps every occurrence of an element that satisfies the test, and no other element. |
| Sequences.KeepSubsequence | client/src/pages/home.tsx:42-45 | `filter` drops elements without reordering the rest. |
| SearchParams.Get | client/src/hooks/use-url-filters.ts:34-35 | `get` gives nothing exactly when no pair has the name. Otherwise it gives the value of the first pair with that name. |
| SearchParams.Delete | client/src/hooks/use-url-filters.ts:48-49 | `delete` leaves no pair with the name. It keeps every other pair, with its multiplicity and in its order. |
| SearchParams.Set | client/src/hooks/use-url-filters.ts:50-51 | After `set`, `get` gives the new value. Apart from that name the query is what `delete` would leave. Exactly one pair has the name. |
| SearchParams.SetSkipsPrefix | client/src/hooks/use-url-filters.ts:50-51 | `set` leaves alone a leading run of pairs that does not hold the name. |
| SearchParams.SetAppendsWhenAbsent | client/src/hooks/use-url-filters.ts:50-51 | When no pair has the name, `set` appends the new pair at the end and changes nothing else. |
| SearchParams.SetReplacesFirst | client/src/hooks/use-url-filters.ts:50-51 | When the first pair with the name is at index `i`, `set` keeps the pairs before `i`, writes the new pair at `i`, and keeps the later pairs except those with the name. |
| SearchParams.Serialize | client/src/hooks/use-url-filters.ts:60 | `toString` is empty exactly when the query has no pairs. |
| SearchParams.DeleteTwice | client/src/hooks/use-url-filters.ts:48-49 | Deleting a name twice is the same as deleting it once. |
| SearchParams.DeleteCommutes | client/src/hooks/use-url-filters.ts:47-58 | Deleting two names gives the same query in either order. |
| SearchParams.GetAfterDelete | client/src/hooks/use-url-filters.ts:54-55 | Deleting one name leaves `get` of any other name unchanged. |
| SearchParams.GetAfterSet | client/src/hooks/use-url-filters.ts:56-57 | Setting one name leaves `get` of any other name unchanged. |
| SearchParams.DeleteCons | client/src/hooks/use-url-filters.ts:48-49 | `delete` drops the first pair exactly when that pair has the name. |
| UrlFilters.IsValidSchoolFilter | client/src/hooks/use-url-filters.ts:18-24 | A string is valid exactly when it is the name of some school filter. |
| UrlFilters.IsValidHouseFilter | client/src/hooks/use-url-filters.ts:19-28 | A string is valid exactly when it is the name of some house filter. |
| UrlFilters.ParseSchoolFilter | client/src/hooks/use-url-filters.ts:34-38 | A present, valid value parses to the filter it names. An absent or unknown value parses to `all`, never to an error. |
| UrlFilters.ParseHouseFilter | client/src/hooks/use-url-filters.ts:35-39 | The same for the house parameter. |
| UrlFilters.WithFilters | client/src/hooks/use-url-filters.ts:47-58 | After the write, a filter equal to `all` has no parameter. Any other filter reads back its own name. |
| UrlFilters.OtherParams | client/src/hooks/use-url-filters.ts:45-58 | With both filter parameters deleted, neither name remains. |
| UrlFilters.Href | client/src/hooks/use-url-filters.ts:60-62 | The URL is the bare pathname exactly when the query is empty. Otherwise it is pathname, `?` and the serialized query. |
| UrlFilters.RoundTrip | client/src/hooks/use-url-filters.ts:31-66 | For every query and every pair of filters, parsing the written query gives that pair back. |
| UrlFilters.OtherParamsKept | client/src/hooks/use-url-filters.ts:45-62 | A write keeps every parameter other than the two filter parameters, with its value and in its order. |
| UrlFilters.AllFiltersLeaveBarePath | client/src/hooks/use-url-filters.ts:48-62 | Writing (`all`, `all`) leaves neither filter parameter. When no other parameter exists, the URL is the bare pathname. |
| UrlFilters.UrlFilterHook.constructor | client/src/hooks/use-url-filters.ts:69-70 | The initial filters are the parse of the initial location. |
| UrlFilters.UrlFilterHook.UpdateUrlWithFilters | client/src/hooks/use-url-filters.ts:44-66 | The pathname is kept. The new query is the written query. The URL handed to `replaceState` is that location's URL. |
| UrlFilters.UrlFilterHook.SetSchoolFilter | client/src/hooks/use-url-filters.ts:79-85 | The school filter changes and the house filter is kept. The URL is rewritten from both, and afterwards the held filters equal the parse of the new URL. |
| UrlFilters.UrlFilterHook.SetHouseFilter | client/src/hooks/use-url-filters.ts:88-94 | The house filter changes and the school filter is kept. The URL is rewritten, and the state and the URL stay in step. |
| UrlFilters.UrlFilterHook.OnLocationChange | client/src/hooks/use-url-filters.ts:73-76 | The held filters are replaced by a fresh parse of the current URL. |
| Storage.Values | server/storage.ts:62 | `Array.from(map.values())` has one entry per key, in insertion order. |
| Storage.SeededSchools | server/storage.ts:29-41 | Entry i of the dataset becomes a school with id `firstId + i` and the same name, address, phone and email. It is not visited, has no quota and has empty comments. |
| Storage.SeededSchoolsSnoc | server/storage.ts:29-41 | Seeding one more entry appends exactly one school, at the end. |
| Storage.ApplyPatch | server/storage.ts:71 | `{ ...school, ...updates }` overwrites exactly the fields the patch carries and keeps every other field, including the id. |
| Storage.ApplyPatchIdempotent | server/storage.ts:71 | Applying the same patch twice is the same as applying it once. |
| Storage.CommentsPatchOnly | server/routes.ts:21-25 | A patch that carries only comments changes the comments and nothing else. |
| Storage.ValuesAppend | server/storage.ts:40 | Setting a new key appends its value at the end of the values listing. |
| Storage.TableInsert | server/storage.ts:54-59 | Storing a record under the counter's value and advancing the counter keeps a table well formed, and appends the record to its listing. |
| Storage.KeyOrderAppend | server/storage.ts:57 | Inserting a key above every present key keeps the key order increasing and complete. |
| Storage.KeyOrderCount | server/storage.ts:61-63 | The insertion order has exactly as many entries as the map has keys. |
| Storage.MemStorage.constructor | server/storage.ts:18-26 | Both counters start at 1 and there are no users. After seeding from n entries, the schools are the seeded list with ids 1..n in input order, and the school counter is n+1. |
| Storage.MemStorage.InitializeSchools | server/storage.ts:28-42 | Each entry takes the counter's value as its id, in input order. The counter advances by the number of entries, and the listing grows by exactly the seeded schools. |
| Storage.MemStorage.AddSeededSchool | server/storage.ts:30-40 | One turn of the seeding loop: the counter is post-incremented and the seeded school is appended under the old counter value. |
| Storage.MemStorage.GetUser | server/storage.ts:44-46 | Returns the user stored under the id, or nothing when the id is absent. |
| Storage.MemStorage.GetUserByUsername | server/storage.ts:48-52 | Returns nothing exactly when no user has that username. Otherwise it returns the first such user in insertion order. |
| Storage.MemStorage.CreateUser | server/storage.ts:54-59 | The new user gets the counter's value as its id, an id not yet used, and the counter is incremented. The user is stored under that id and appended to the insertion order, so `GetUser` on that id returns it. |
| Storage.MemStorage.GetAllSchools | server/storage.ts:61-63 | Returns every stored school exactly once, in insertion order, which is increasing id order. |
| Storage.MemStorage.UpdateSchool | server/storage.ts:65-74 | For an unknown id it returns nothing and changes nothing. For a known id the patch is applied, and the stored record is the returned record. The key set, every other record and the record's position in `getAllSchools` are unchanged. |
| SchoolMap.IconColor | client/src/components/map.tsx:153-164 | The colour is green exactly for visited schools with a quota, red exactly for visited schools without a quota, and black exactly for unvisited schools. |
| SchoolMap.ColorsMatchFilters | client/src/components/map.tsx:158-163 | The green schools are the home page's `visited` result and the red schools are its `withoutQuota` result. A black school is in neither. |
| SchoolMap.Marker.constructor | client/src/components/map.tsx:285-287 | A marker remembers the school it was made for. Its icon colour is that school's colour. |
| SchoolMap.PlacedAndMissingMembers | client/src/components/map.tsx:276-335 | A school gets a marker exactly when it has coordinates and Leaflet does not throw. A school is counted as missing exactly when it has no coordinates. The two counts add up to at most the number of schools. |
| SchoolMap.PlacedSnoc | client/src/components/map.tsx:283-322 | Looking at one more school adds it to the placed list exactly when it gets a marker. |
| SchoolMap.MissingSnoc | client/src/components/map.tsx:329-330 | Looking at one more school adds it to the missing list exactly when it has no coordinates. |
| SchoolMap.MarkerLayer.constructor | client/src/components/map.tsx:27-29 | Before the map exists there are no markers and no current popup. |
| SchoolMap.MarkerLayer.MapCreated | client/src/components/map.tsx:61 | Once the map is created, markers may be loaded. The markers and popups are unchanged. |
| SchoolMap.MarkerLayer.Click | client/src/components/map.tsx:298-312 | Clicking the current marker closes its popup and clears the current popup. Clicking any other marker closes the current popup and opens the clicked one, so exactly that popup is open. At most one popup is ever open, and it is the current one. |
| SchoolMap.MarkerLayer.PopupClose | client/src/components/map.tsx:315-319 | A close event from the current marker clears the current popup. A close event from any other marker changes nothing. |
| SchoolMap.MarkerLayer.ClearMarkers | client/src/components/map.tsx:264-268 | Every old marker is removed and its popup closed. The marker list is empty and no popup is current. |
| SchoolMap.MarkerLayer.AddSchoolMarker | client/src/components/map.tsx:277-334 | For one school: a marker is pushed exactly when the school has coordinates and Leaflet does not throw. The school is reported as missing exactly when it has no coordinates. |
| SchoolMap.MarkerLayer.PlaceMarkers | client/src/components/map.tsx:273-335 | After the loop the marker list has `markersAdded` new markers, one for each placed school, in list order. `schoolsWithoutCoords` counts the schools without coordinates. The two counters add up to at most the number of schools. |
| SchoolMap.MarkerLayer.LoadSchoolMarkers | client/src/components/map.tsx:260-341 | Without a map nothing changes. Otherwise the reset runs first, and then the markers and counters are those of the loop, with no popup open or current. |
| HouseStatsPanel.Counts | client/src/components/house-stats-panel.tsx:19-24 | `total` is the number of houses. `visited` and `notAvailable` equal the lengths of the home page's `visited` and `notAvailable` results, taken over all houses. `visited + notAvailable ≤ total`. |
| HouseStatsPanel.FilterSections | client/src/components/house-stats-panel.tsx:26-45 | There are three sections, in the order `all`, `visited`, `notAvailable`. Every filter has exactly one section, and every id is a valid house filter. Each section's value is the number of houses listed under its filter. |
| HouseStatsPanel.ClickShowsSectionCount | client/src/components/house-stats-panel.tsx:55-61 | Clicking a section selects its own filter, and under that filter the home page lists as many houses as the section shows. |
| StatsPanel.Counts | client/src/components/stats-panel.tsx:9-11 | `total` is the number of schools, and `visited` and `withQuota` are each at most `total`. `visited` is the sum of the `visited` and `withoutQuota` result lengths. `withQuota` is the `visited` result length plus the number of unvisited schools with a quota. |
| StatsPanel.VisitedCountIsColoredMarkers | client/src/components/stats-panel.tsx:10 | The visited count equals the number of green markers plus the number of red markers. |

## Left out

- Leaflet itself is not modelled: building the map (only its assignment to `mapInstanceRef` is kept, as `MapCreated`), tile layers, icon and popup HTML, and CSS. A marker is an object holding its school. Its colour is a function of that school.
- Leaflet's own popup behaviour is not modelled. That covers the toggle that `bindPopup` attaches to a click and the `autoClose` of other popups. The model's set of open popups changes only through the two handlers and through marker removal.
- SchoolMap.MarkerLayer.Click requires the clicked marker to be a placed one. A click can only come from a marker on the map.
- `parseFloat`, `NaN` and the truthiness test on coordinates are floating-point checks. The coordinate check is the parameter `hasCoords`.
- Whether Leaflet throws while building a marker is the parameter `throws`. A marker that Leaflet had already added to the map before throwing stays on the map untracked. The model does not represent it.
- Console logging, `setTimeout` delays and polling, and geocoding through the network are not modelled.
- The `mapInstanceRef` test inside the loop always holds after the test at the start of `loadSchoolMarkers`, so only the first test is modelled, as the `mapReady` field that `MapCreated` sets.
- SearchParams.Serialize: states only that the string is empty exactly when the query is. Percent-encoding of names and values is not part of the model.
- A location keeps its query as the parsed list of pairs. The browser's re-parsing of the URL handed to `replaceState` is not modelled. `Href` gives that URL as a string.
- `replaceState` itself is modelled as assigning the location field. React's state, effect and callback mechanics are modelled as plain calls: a state updater runs once, synchronously.
- The `Promise` wrappers on `MemStorage` are treated as synchronous calls.
- The school dataset that `MemStorage` loads from a JSON file is the constructor's `data` parameter.
- The Express handlers, the zod validation and the HTTP status codes in `server/routes.ts` are not modelled. Only the three-field patch shape is kept, as `SchoolPatch`. `updateSchool`'s `Partial<School>` is narrowed to that shape.
- The drizzle table definitions are used only for the record fields and the seeded defaults.
- The client's optional `lat`/`lng` on a school are not part of `School`. They are abstracted by `hasCoords`.
- `Agent` is declared and never used by the modelled code.
- `HouseFilterType` is declared in `client/src/components/house-stats-panel.tsx:4` but modelled in `Home`. This avoids a cycle between the panel and the home page.
- UrlFilters.ParseFilters has no contract of its own. What it promises is stated by `ParseSchoolFilter`, `ParseHouseFilter` and `RoundTrip`.
- A section's label and colour are carried as data. The highlighting of the selected section is not modelled.
- Ids are unbounded integers. JavaScript numbers lose precision above 2^53, and the model does not represent that.
