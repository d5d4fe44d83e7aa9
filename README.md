# DogFriendlyMap: a verified model of park normalisation, ranking and profile state

DogFriendlyMap is a browser front end that shows Brisbane City Council's dog
parks on a map and keeps a local user profile. Under its UI code sit a few
small, deterministic pieces of logic. This project models them in Dafny and
proves what the code promises about them:

- **Park normalisation** (`Normalize`): `buildPark` turns one raw open-data
  record into a uniform park, or rejects it. It is built from the ordered
  coordinate-shape chain `extractCoordinates`, the `isWithinBrisbane` box, the
  `isTruthy` yes/no coercion, the facility tag set and the name and id
  fallback chains. The module also covers the response envelope of
  `fetchAPIData`.
- **Filtering and ranking** (`Ranking`): `getFilteredParks` (a logical AND of
  the active filters), `getActiveFilterLabels`, and `nearestByPoint`. The
  last one either keeps the first `limit` parks in input order or ranks them
  by a distance function that is a parameter.
- **Map page state** (`MapApp`): a class `App` holds `allParks`,
  `currentFilters` and `localStorage`. Its methods model `loadParkData` (given
  the two parsed responses), `toggleTopFilter` (with its `forEach` loop) and
  `deleteFavorite`. The module also holds `escapeHtml` and the
  geocoding-query suffix rule of `performGeocodingSearch`.
- **Profile page state** (`Profile`): a class `ProfilePage` holds `state`
  and `localStorage`, and covers:
  - `readState` merging stored state over `DEFAULTS`, and the `init`
    migration of legacy preferences;
  - the preference labels of `refreshUI`;
  - the handlers `saveLocationFromModal`, `handleDelete`,
    `saveUserIdFromModal`, `savePrefsFromModal` and `saveDogFromModal`;
  - the `renderStars` loop, and the page's own `escapeHtml`, which unlike
    the map page's leaves `'` alone.
- **Shared pieces**:
  - `Js` models JavaScript values as `JSON.parse` yields them, with
    truthiness, `||`, `?.`, `Number(...)`, `trim` and `toLowerCase`.
  - `Storage` models `localStorage` as a map from key to parsed or
    unparsable text, plus the favourites splice both pages perform.

Numbers are exact reals, and NaN is a separate case of `Js.Numeric`
(see "## Left out" for what that drops).
`JSON.stringify` followed by `JSON.parse` is the identity on the values the
pages store. Each profile handler that changes the profile ends with
`writeState` and `refreshUI`, and `refreshUI` reads the profile back. So each
such method states its new state as that read-back value. There are two
exceptions:
- `saveLocationFromModal` returns before any write when the trimmed name is
  empty (profile.js:357-360).
- The favourites branch of `handleDelete` (profile.js:378-382) writes
  `park-favorites` directly with `localStorage.setItem`, not with
  `writeState`. `Profile.ProfilePage.HandleDelete` models it through
  `Storage.RemoveFavorite`, not `Commit`. `refreshUI` still reads the
  profile back.

## Model

| member | source | states |
|---|---|---|
| Storage.LoadFavorites | profile.js:128-135 | the saved parks as last written; an empty list when nothing is stored or the text does not parse |
| Storage.SpliceStart | script.js:1094 | where `splice(start, 1)` starts: a negative start counts back from the end, and both ends are clamped to the array (below `-len` it starts at 0, past the end at the length) |
| Storage.Splice1 | script.js:1094 | `splice(start, 1)` removes one element exactly when the clamped start is inside the array, and shifts the later elements down by one |
| Storage.SpliceRestore | script.js:1094 | putting the removed element back at its index restores the array, and the multiset of elements drops by exactly that element |
| Storage.RemoveFavorite | script.js:1085-1098 | a stored array is spliced and written back; a stored value with no `splice` (not an array) throws, so storage is unchanged |
| Storage.RemoveFavoriteAt | script.js:1088-1095 | deleting the favourite at a valid index removes exactly that park, keeps the others in order, and leaves every other storage key alone |
| Normalize.IsTruthy | script.js:603-611 | `isTruthy` accepts a value only if JavaScript also calls it truthy and it is a boolean, a number or a string |
| Normalize.IsTruthyIgnoresCaseAndPadding | script.js:606-609 | the string rule ignores surrounding white space and the case of ASCII letters |
| Normalize.FirstMatch | script.js:569-597 | no coordinates iff every shape fails; otherwise the first shape that matches wins |
| Normalize.ExtractCoordinates | script.js:569-597 | a falsy record has no coordinates; otherwise the shapes are tried in the source's fixed order |
| Normalize.GeopointSwapped | script.js:572-574 | a `geopoint` pair `[a, b]` wins over every other shape and is returned as `[b, a]` |
| Normalize.NoShapeNoCoordinates | script.js:596 | a record that matches no shape yields null |
| Normalize.AddTag | script.js:550-553 | `Set.add` keeps the tags free of duplicates and the earlier tags in insertion order, and adds exactly the new tag |
| Normalize.AddIfPresent | script.js:550-553 | one guarded `facilities.add`: the tag list grows by the tag only when its condition holds, staying free of duplicates |
| Normalize.CollectTags | script.js:547-553 | the four guarded `add` calls on the base set build the tag list of the reference definition `TagsFor`, with no duplicates |
| Normalize.CollectFacilities | script.js:547-561 | the facilities of a record, as `Array.from` of the set, equal `Facilities`, with no duplicates |
| Normalize.WithNewTag | script.js:550-553 | adding a tag of a length not yet present keeps the list free of duplicates, and a tag is present iff it was already or was just added |
| Normalize.TagsForShape | script.js:547-553 | the first tag is "Dog Friendly", there are no duplicates, and each optional tag is present iff its flag is set |
| Normalize.FacilitiesShape | script.js:547-561 | tags start with "Dog Friendly", have no duplicates, and contain "Fencing" iff the trimmed, lower-cased fencing field is exactly "fully fenced"; each other tag is present iff `isTruthy` of its field |
| Normalize.IdFallback | script.js:556 | the id is the first truthy id field, or else `name-lat-lng` |
| Normalize.BuildPark | script.js:534-567 | every park built lies inside the Brisbane box, carries the given off-leash flag and has no distance yet |
| Normalize.BuildParkAcceptance | script.js:535-543 | a record is rejected iff its fields are falsy, no shape matches, or a coordinate is NaN or outside the box; otherwise the park sits at the found position |
| Normalize.BuiltFacilities | script.js:547-561 | a built park's facilities satisfy `FacilitiesShape` for its record |
| Normalize.BuiltNameFallback | script.js:545 | with every name field falsy the park is called "Park " followed by `index + 1` |
| Normalize.BuiltIdFallback | script.js:556 | a built park's id is the first truthy id field, or else its name, latitude and longitude |
| Normalize.GeopointRecordPosition | script.js:572-574 | a record with just `geopoint: [-27.5, 153.0]` yields the pair `[153.0, -27.5]` |
| Normalize.GeopointRecordName | script.js:545 | that record is named "Park 1" at index 0 |
| Normalize.GeopointRecordTags | script.js:547-553 | that record gets only the "Dog Friendly" tag |
| Normalize.GeopointScenario | script.js:534-567 | `buildPark` on that record gives a park at `[153.0, -27.5]`, named "Park 1", not off-leash, tagged "Dog Friendly" only |
| Normalize.BuiltFrom | script.js:505-511 | the `map(buildPark).filter(Boolean)` result holds the park of every accepted record, is never longer than the records, and all its parks are inside the box with the given flag |
| Normalize.BuiltFromOrigin | script.js:505-511 | every park in a built dataset is what `buildPark` made of one of its records |
| Normalize.KeptIndices | script.js:505-510 | the indices `.filter(Boolean)` keeps: strictly increasing, each an in-range attempt that succeeded, and every successful attempt's index among them |
| Normalize.KeptInOrder | script.js:505-510 | `.filter(Boolean)` keeps each successful attempt exactly once and in order: its `k`-th element is the value of the `k`-th successful attempt |
| Normalize.BuiltFromIsKept | script.js:505-511 | the built dataset is literally `.map(buildPark)` followed by `.filter(Boolean)` |
| Normalize.BuiltParksInOrder | script.js:505-511 | the built dataset holds one park per accepted record, in record order: with `idx` the increasing indices of the accepted records, which include every accepted record, park `k` is `buildPark` of record `idx[k]` |
| Normalize.EnvelopeRecords | script.js:531 | null or undefined data throw; an object's first truthy `records`, `results` or `data` field is the record list; an array is taken as is; an object with no truthy envelope field, or a non-object, gives `[]` |
| Ranking.PassesIffEveryActiveRequirement | script.js:631-638 | the five early returns keep a park iff it meets the requirement of every active filter key |
| Ranking.FilteredParks | script.js:629-639 | the filtered list is never longer than the input |
| Ranking.FilteredParksCounts | script.js:631-638 | each park occurs in the result exactly as often as in the input if it passes, and not at all otherwise |
| Ranking.FilteredParksMembers | script.js:631-638 | a park is in the result iff it is in the input and passes every active filter |
| Ranking.FilteredParksAppend | script.js:631-638 | filtering works element by element, so input order is kept |
| Ranking.NoActiveFilterKeepsAll | script.js:629-639 | with no active filter every park is returned, in order |
| Ranking.ActiveKeys | script.js:344-352 | never more active keys than keys |
| Ranking.ActiveKeysAppend | script.js:344-352 | the active keys of a concatenation are those of each part in turn, so selection keeps the keys' order |
| Ranking.ActiveKeysMembers | script.js:344-352 | a key is listed iff it is one of the keys and its filter is on |
| Ranking.LabelsOf | script.js:344-352 | one label per key, in the same order |
| Ranking.FilterKeyLabels | script.js:346-350 | the five filter keys' labels are "night lighting", "fencing", "off-leash access", "small dog areas" and "dog agility equipment" |
| Ranking.ActiveFilterLabelsInKeyOrder | script.js:344-352 | `getActiveFilterLabels` lists the labels of exactly the active filters, in `FILTER_KEYS` order |
| Ranking.NoLabelsKeepsAll | script.js:344-352 | when no label is shown, no filter is switched on and every park is kept |
| Ranking.WithDistances | script.js:647-652 | each park gets exactly its distance from the origin added, and nothing else changes |
| Ranking.Insert | script.js:653 | insertion adds exactly one park and keeps the multiset |
| Ranking.InsertSorted | script.js:653 | insertion into a list sorted by distance keeps it sorted |
| Ranking.SortByDistance | script.js:653 | the sort is a permutation that is non-decreasing in distance |
| Ranking.InsertStable | script.js:653 | insertion keeps the relative order of parks with equal distance |
| Ranking.SortStable | script.js:653 | the sort is stable: parks with equal distance keep their input order |
| Ranking.NearestByPoint | script.js:641-655 | the length is `min(limit, |parks|)`; with no origin or a NaN coordinate it is the first `limit` parks in input order; otherwise it is a prefix of the sorted list |
| Ranking.NearestRanked | script.js:646-654 | with an origin the result is sorted by distance and is a sub-multiset of the input parks with their distances |
| Ranking.NearestFromInput | script.js:647-652 | with an origin every result entry is an input park with only its distance added |
| MapApp.LoadedParks | script.js:497-511 | a load succeeds exactly when both responses give record arrays, and then `allParks` is the general parks built from the first followed by the off-leash parks built from the second |
| MapApp.LoadedParksShape | script.js:505-511 | the loaded parks are all inside the box: first the general parks, not off-leash, then the off-leash areas |
| MapApp.LoadedParksOrigin | script.js:505-511 | every loaded park was built from one record of its own dataset |
| MapApp.Completed | script.js:617-619 | completing the filters only adds keys |
| MapApp.CompletedKeeps | script.js:617-619 | filters already set keep their value, each added key is false, and afterwards every filter key is defined |
| MapApp.ToggledFlipsOnlyKey | script.js:615-620 | a known key is flipped, every other filter keeps its state, and every key of `FILTER_KEYS` is defined |
| MapApp.ToggleTwice | script.js:620 | toggling the same key twice restores which filters are on |
| MapApp.App.constructor | script.js:30-31 | the page starts with no parks and no filters, over whatever storage the browser has |
| MapApp.App.LoadParkData | script.js:497-523 | a successful load replaces `allParks` with the loaded parks and keeps them inside the box; a failed one changes nothing |
| MapApp.App.ToggleTopFilter | script.js:615-625 | an unknown key changes nothing; a known key leaves the filters as `Toggled` says, through the `forEach` loop and its invariant; the loaded parks stay inside the box |
| MapApp.App.DeleteFavorite | script.js:1085-1098 | once confirmed, the favourites are spliced as `RemoveFavorite` says; otherwise nothing changes; the loaded parks stay inside the box |
| MapApp.EscapeHtml | script.js:1132-1140 | no `<`, `>`, `"` or `'` is left raw, and the text never gets shorter |
| MapApp.EscapeRoundTrip | script.js:1132-1140 | the browser reads the escaped text back as the original text |
| MapApp.GeocodeQuery | script.js:258-261 | the query always mentions Brisbane or QLD, starts with the address, and equals it iff the address already does |
| MapApp.SuffixMentionsBrisbane | script.js:261 | the appended suffix makes any address mention Brisbane |
| MapApp.GeocodeQueryIdempotent | script.js:258-261 | building the query from a query changes nothing |
| Profile.ReadState | profile.js:29-39 | the profile read always holds every default key |
| Profile.ReadStateEmpty | profile.js:31-37 | nothing stored, an empty text or text that does not parse gives the defaults |
| Profile.ReadStateMerge | profile.js:33-34 | a stored object overrides the defaults key by key and keeps the defaults it lacks; a stored number, boolean or null gives the defaults |
| Profile.ReadStored | profile.js:29-39 | a stored profile that holds the default keys reads back as itself |
| Profile.ReadAfterWrite | profile.js:40-42 | reading back what `writeState` wrote gives the same profile, and no other storage key changes |
| Profile.Defaulted | profile.js:461-463 | `field || fallback` makes the field truthy and no other field changes |
| Profile.MigratePrefs | profile.js:458-464 | the migrated preferences are an object with all three fields truthy |
| Profile.MigratePrefsCases | profile.js:458-464 | the legacy shape becomes the default preferences; otherwise truthy fields and other keys are kept, and each falsy field gets its default |
| Profile.MigratePrefsIdempotent | profile.js:458-464 | migrating twice is the same as migrating once |
| Profile.Initialized | profile.js:453-465 | `init` adds exactly the list, dog-details, preferences and avatar keys |
| Profile.InitializedShape | profile.js:455-465 | after `init` the list and dog details are truthy and truthy values are kept; the preferences are migrated; a falsy avatar becomes ""; all other keys are untouched |
| Profile.FreshProfile | profile.js:453-468 | with nothing stored, the page starts from exactly the defaults |
| Profile.WalkerText | profile.js:87-90 | "Evening walker" exactly for a stored "Evening", "Morning walker" otherwise |
| Profile.SizeText | profile.js:88-91 | "Large buddies" exactly for a stored "Large", "Small buddies" otherwise |
| Profile.ExperienceText | profile.js:89-92 | "Experienced" exactly for a stored "Experienced", "New walker" otherwise |
| Profile.Entered | profile.js:437-438 | the saved id or name is the trimmed entry when that is non-empty, the fallback otherwise, and never empty |
| Profile.Chosen | profile.js:419-421 | a non-empty selection is kept, an empty one gives exactly the default, and the result is never empty |
| Profile.SaveNeedsName | profile.js:357-368 | nothing is saved iff the trimmed name is empty or the update throws |
| Profile.SaveAppends | profile.js:361-364 | creating a location appends exactly the trimmed item, one longer, with the rest of the profile unchanged |
| Profile.SaveReplaces | profile.js:365-368 | editing the item at an index replaces only that item: same length, other items and keys unchanged |
| Profile.SavePastEnd | profile.js:365-368 | editing at an index past the end keeps the old items in front, fills the gap with the nulls the JSON round trip writes for holes, and puts the item at the index, for a length of index + 1; other keys unchanged |
| Profile.SavedPrefsLabels | profile.js:418-425 | after saving preferences, each label is the non-default one exactly when that choice was made |
| Profile.PlacedKeepsObject | profile.js:361-368 | an index assignment on an object section leaves it an object |
| Js.ParseIntOfDecimal | profile.js:239-245 | `parseInt` reads the decimal text of a natural number back as that number |
| Profile.DeleteButtonTargetsItsPark | profile.js:239-245 | the index a favourite's delete button carries (`data-index`, line 165) parses back to its position, so the delete removes exactly that park and keeps the others in order |
| Profile.ProfilePage.constructor | profile.js:453-468 | loading the page reads the profile, runs `init`, writes it and reads it back |
| Profile.ProfilePage.Commit | profile.js:40-42 | `writeState` followed by the re-read in `refreshUI` leaves storage holding exactly the new profile |
| Profile.ProfilePage.SaveLocationFromModal | profile.js:352-372 | the profile becomes `SavedLocation`, written and read back, or stays unchanged when nothing is saved |
| Profile.ProfilePage.HandleDelete | profile.js:374-389 | unconfirmed changes nothing; favourites are spliced as `RemoveFavorite` says; another section is spliced if it is an array, else nothing is written |
| Profile.ProfilePage.SaveUserIdFromModal | profile.js:436-444 | the id and display name become their trimmed entries, or "guest" and "Guest" when empty |
| Profile.ProfilePage.SavePrefsFromModal | profile.js:418-425 | the three preference fields become the selected values, or their defaults when empty |
| Profile.ProfilePage.SaveDogFromModal | profile.js:325-334 | the dog details become exactly the four trimmed fields |
| Profile.SpanGlyph | profile.js:177 | each span holds exactly one star, filled or empty as asked |
| Profile.SpansGlyphs | profile.js:176-178 | the spans show one star per flag, filled exactly where the flag is set |
| Profile.Filled | profile.js:177 | star `i` is to be filled exactly when `i <= n` |
| Profile.RenderStars | profile.js:174-180 | the loop emits exactly five stars, and star `i` is filled iff `i <= n` |
| Profile.Substituted | profile.js:447-450 | replacing each character by its entity leaves no raw `<`, `>` or `"` |
| Profile.ReplacedSubstitutes | profile.js:449 | the four `replaceAll` calls, `&` first, equal replacing every character by its entity at once |
| Profile.EscapeHtml | profile.js:447-450 | a falsy value gives ""; a string gives its substitution, with no raw `<`, `>` or `"`; any other value throws |
| Profile.SameAsMapWithoutApostrophe | profile.js:447-450 | on text without `'` the profile and map versions agree |
| Profile.ApostropheKept | profile.js:449 | an apostrophe passes through the profile version raw, while the map version leaves none |
| Profile.EscapeRoundTrip | profile.js:447-450 | the browser reads the escaped text back as the original text |

## Left out

- `calculateDistance` (script.js:657-664) uses trigonometry and `toFixed(1)`. That is floating point, so the distance is a parameter `dist` of the ranking functions.
- Network and async work (`fetch`, `Promise.all`, `response.ok`) is left out. `loadParkData` takes the two parsed bodies, with `None` for a failed request.
- Google Maps (markers, info windows, directions, the geocoder call), geolocation, `FileReader` avatar upload and `base64EncodeUnicode` are foreign or browser calls, so they are left out.
- DOM and UI code is left out: rendering, modals, notifications, `markFieldError`, `setTimeout`, and the confirm Promise. The confirm answer is a parameter `confirmed`.
- `applyFiltersNear` (script.js:330-342) is left out as a member. It returns early when no filter is on. Otherwise it only composes `Ranking.FilteredParks` and `Ranking.NearestByPoint` with `Ranking.ParkLimit`, then shows markers and notifications.
- `renderSavedLocations` and the other renderers only format HTML, so they are left out.
- `Js.ToNumber` parses decimal strings only. Hexadecimal, octal, binary and `Infinity` literals read as NaN, which is not how JavaScript reads them. No field the core reads holds them.
- `Js.Lower` lower-cases ASCII letters only. The two non-ASCII capitals JavaScript lower-cases to ASCII letters are the Kelvin sign, which gives `k`, and U+0130, which gives `i` followed by the combining dot U+0307. No compared token (`y`, `yes`, `true`, `1`, `fully fenced`, `brisbane`, `qld`) contains a `k`. Where U+0130 stands for the `i` of `brisbane`, JavaScript's result keeps the combining dot after the `i`, so it does not match either, just as in the model.
- `Normalize.BuildPark` keeps the composite id `name-lat-lng` as its three parts. JavaScript's number-to-string formatting is not modelled.
- `Profile.KeyOf`: a property name that is in no label table stands for all property names outside the tables. The model does not cover names inherited from `Object.prototype` (such as "constructor"), whose lookup returns a truthy function.
- `Profile.ProfilePage.HandleDelete` and `Profile.ProfilePage.SaveLocationFromModal` take the index as an integer. `Js.ParseInt` gives `None` for NaN, but the handlers' NaN path is not modelled: `splice(NaN, 1)` removes the first element, and `list[NaN] = item` sets a named property that JSON drops. The buttons the page renders always carry a natural index (`Profile.DeleteButtonTargetsItsPark`).
- `Js.ParseInt` reads a `0x` prefix as 0, where `parseInt` reads hexadecimal. The `data-index` texts it reads are plain decimals.
- `MapApp.EscapeHtml` takes the text of `String(value || '')` rather than any value. Non-string input is not modelled: a falsy value gives "", while a number (a stored `favorite.id`, script.js:1073) or another value is converted with JavaScript's number and object formatting, which the model does not have.
- Numbers are exact reals, not IEEE doubles. Rounding is left out where a coordinate is read (`Number(...)`, script.js:541-542) and where it is compared against the Brisbane box (`isWithinBrisbane`, script.js:1142-1145). A value within rounding distance of a bound may be accepted or rejected differently. Infinity is read as NaN.
- The shallow copies of `DEFAULTS` are not modelled: `readState` returns `{...DEFAULTS}`, so `state.prefs` can be `DEFAULTS.prefs` itself. The model uses values instead. The sharing is never observable, because `init` writes the profile and reads it back before any handler runs.
- `JSON.stringify` followed by `JSON.parse` is identity on stored values. Its dropping of `undefined` fields and NaN is not modelled, because the handlers never store such values.
- `Ranking.NearestByPoint` takes any natural `limit`. Every caller passes `ParkLimit`.
