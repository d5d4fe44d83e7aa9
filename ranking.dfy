/** Filtering and ranking in script.js: the five facility filters the user can
    switch on, and the nearest-first ordering of the parks that pass them.
    Distances come from a function the caller supplies; the haversine formula
    behind it is not part of this model. */
module Ranking {
  import opened Js
  import opened Normalize

  // ---- the filters ---------------------------------------------------------

  /** FILTER_KEYS */
  const FilterKeys: seq<string> := ["nightLighting", "fenced", "offLeash", "smallDogEnclosure", "agility"]

  /** `currentFilters`: a key that is absent reads as `undefined`. */
  type Filters = map<string, bool>

  /** `currentFilters[k]` is truthy. */
  predicate Active(f: Filters, k: string) {
    k in f && f[k]
  }

  /** What a park must have for one switched-on filter. */
  predicate Requirement(key: string, p: Park) {
    if key == "nightLighting" then NightLighting in p.facilities
    else if key == "fenced" then Fencing in p.facilities
    else if key == "offLeash" then p.isOffLeash
    else if key == "smallDogEnclosure" then SmallDogEnclosure in p.facilities
    else if key == "agility" then AgilityEquipment in p.facilities
    else true
  }

  /** The callback of `allParks.filter`: five early `return false`s. */
  predicate Passes(p: Park, f: Filters) {
    if Active(f, "nightLighting") && NightLighting !in p.facilities then false
    else if Active(f, "fenced") && Fencing !in p.facilities then false
    else if Active(f, "offLeash") && !p.isOffLeash then false
    else if Active(f, "smallDogEnclosure") && SmallDogEnclosure !in p.facilities then false
    else if Active(f, "agility") && AgilityEquipment !in p.facilities then false
    else true
  }

  /** The filters combine by logical AND: a park passes exactly when it meets
      the requirement of every filter that is switched on. */
  lemma PassesIffEveryActiveRequirement(p: Park, f: Filters)
    ensures Passes(p, f) <==>
      forall i :: 0 <= i < |FilterKeys| && Active(f, FilterKeys[i]) ==> Requirement(FilterKeys[i], p)
  {
    if !Passes(p, f) {
      if Active(f, "nightLighting") && NightLighting !in p.facilities {
        assert Active(f, FilterKeys[0]) && !Requirement(FilterKeys[0], p);
      } else if Active(f, "fenced") && Fencing !in p.facilities {
        assert Active(f, FilterKeys[1]) && !Requirement(FilterKeys[1], p);
      } else if Active(f, "offLeash") && !p.isOffLeash {
        assert Active(f, FilterKeys[2]) && !Requirement(FilterKeys[2], p);
      } else if Active(f, "smallDogEnclosure") && SmallDogEnclosure !in p.facilities {
        assert Active(f, FilterKeys[3]) && !Requirement(FilterKeys[3], p);
      } else {
        assert Active(f, FilterKeys[4]) && !Requirement(FilterKeys[4], p);
      }
    }
  }

  /** `getFilteredParks()` over `parks`. */
  function FilteredParks(parks: seq<Park>, f: Filters): (r: seq<Park>)
    ensures |r| <= |parks|
  {
    if parks == [] then []
    else
      var rest := FilteredParks(parks[1..], f);
      if Passes(parks[0], f) then [parks[0]] + rest else rest
  }

  /** Each passing park is kept as often as it occurs, every other one dropped. */
  lemma {:induction false} FilteredParksCounts(parks: seq<Park>, f: Filters, p: Park)
    ensures multiset(FilteredParks(parks, f))[p] == if Passes(p, f) then multiset(parks)[p] else 0
  {
    if parks != [] {
      assert parks == [parks[0]] + parks[1..];
      FilteredParksCounts(parks[1..], f, p);
    }
  }

  /** `[p]` when `p` passes the filters. */
  function KeptIf(p: Park, f: Filters): seq<Park> {
    if Passes(p, f) then [p] else []
  }

  lemma FilteredParksCons(p: Park, s: seq<Park>, f: Filters)
    ensures FilteredParks([p] + s, f) == KeptIf(p, f) + FilteredParks(s, f)
  {
    assert ([p] + s)[1..] == s;
  }

  /** A park is kept exactly when it is one of the input parks and passes. */
  lemma FilteredParksMembers(parks: seq<Park>, f: Filters)
    ensures forall p :: p in FilteredParks(parks, f) <==> p in parks && Passes(p, f)
  {
    forall p ensures p in FilteredParks(parks, f) <==> p in parks && Passes(p, f) {
      FilteredParksCounts(parks, f, p);
      assert p in FilteredParks(parks, f) <==> p in multiset(FilteredParks(parks, f));
    }
  }

  /** Filtering keeps the input order: it distributes over concatenation. */
  lemma {:induction false} FilteredParksAppend(a: seq<Park>, b: seq<Park>, f: Filters)
    ensures FilteredParks(a + b, f) == FilteredParks(a, f) + FilteredParks(b, f)
  {
    if a == [] {
      assert a + b == b;
    } else {
      var a0, a1 := a[0], a[1..];
      assert a == [a0] + a1;
      assert a + b == [a0] + (a1 + b);
      FilteredParksAppend(a1, b, f);
      FilteredParksCons(a0, a1 + b, f);
      FilteredParksCons(a0, a1, f);
      var h, x, y := KeptIf(a0, f), FilteredParks(a1, f), FilteredParks(b, f);
      assert h + (x + y) == (h + x) + y;
    }
  }

  /** With no filter switched on every park is kept, in order. */
  lemma {:induction false} NoActiveFilterKeepsAll(parks: seq<Park>, f: Filters)
    requires forall i :: 0 <= i < |FilterKeys| ==> !Active(f, FilterKeys[i])
    ensures FilteredParks(parks, f) == parks
  {
    if parks != [] {
      assert !Active(f, FilterKeys[0]) && !Active(f, FilterKeys[1]) && !Active(f, FilterKeys[2]);
      assert !Active(f, FilterKeys[3]) && !Active(f, FilterKeys[4]);
      NoActiveFilterKeepsAll(parks[1..], f);
    }
  }

  /** The notification wording of each filter. */
  function FilterLabel(key: string): string {
    if key == "nightLighting" then "night lighting"
    else if key == "fenced" then "fencing"
    else if key == "offLeash" then "off-leash access"
    else if key == "smallDogEnclosure" then "small dog areas"
    else "dog agility equipment"
  }

  /** `if (cond) list.push(x)` */
  function PushIf(list: seq<string>, cond: bool, x: string): seq<string> {
    if cond then list + [x] else list
  }

  /** The keys in `keys` whose filter is switched on, in their order. */
  function ActiveKeys(f: Filters, keys: seq<string>): (r: seq<string>)
    ensures |r| <= |keys|
  {
    if keys == [] then []
    else
      var last := keys[|keys| - 1];
      PushIf(ActiveKeys(f, keys[..|keys| - 1]), Active(f, last), last)
  }

  /** The active keys are the keys whose filter is on. */
  lemma {:induction false} ActiveKeysMembers(f: Filters, keys: seq<string>)
    ensures forall k :: k in ActiveKeys(f, keys) <==> k in keys && Active(f, k)
  {
    if keys != [] {
      var init := keys[..|keys| - 1];
      assert keys == init + [keys[|keys| - 1]];
      ActiveKeysMembers(f, init);
    }
  }

  /** Selecting the active keys works segment by segment, so the keys keep
      their order. */
  lemma {:induction false} ActiveKeysAppend(f: Filters, a: seq<string>, b: seq<string>)
    ensures ActiveKeys(f, a + b) == ActiveKeys(f, a) + ActiveKeys(f, b)
    decreases |b|
  {
    if b == [] {
      assert a + b == a;
    } else {
      var init, last := b[..|b| - 1], b[|b| - 1];
      assert (a + b)[..|a + b| - 1] == a + init;
      assert (a + b)[|a + b| - 1] == last;
      ActiveKeysAppend(f, a, init);
    }
  }

  /** The labels of `keys`, in order. */
  function LabelsOf(keys: seq<string>): (r: seq<string>)
    ensures |r| == |keys|
    ensures forall i :: 0 <= i < |keys| ==> r[i] == FilterLabel(keys[i])
  {
    if keys == [] then []
    else
      var init := keys[..|keys| - 1];
      assert forall i :: 0 <= i < |init| ==> init[i] == keys[i];
      LabelsOf(init) + [FilterLabel(keys[|keys| - 1])]
  }

  lemma LabelsOfPushIf(keys: seq<string>, cond: bool, k: string)
    ensures LabelsOf(PushIf(keys, cond, k)) == PushIf(LabelsOf(keys), cond, FilterLabel(k))
  {
    if cond {
      assert (keys + [k])[..|keys|] == keys;
    }
  }

  /** `getActiveFilterLabels()`: a label pushed for each switched-on filter. */
  function ActiveFilterLabels(f: Filters): seq<string> {
    var l1 := PushIf([], Active(f, "nightLighting"), "night lighting");
    var l2 := PushIf(l1, Active(f, "fenced"), "fencing");
    var l3 := PushIf(l2, Active(f, "offLeash"), "off-leash access");
    var l4 := PushIf(l3, Active(f, "smallDogEnclosure"), "small dog areas");
    PushIf(l4, Active(f, "agility"), "dog agility equipment")
  }

  /** The active keys among five, pushed one key at a time. */
  lemma ActiveKeysOfFive(f: Filters, k: seq<string>)
    requires |k| == 5
    ensures ActiveKeys(f, k) ==
      PushIf(PushIf(PushIf(PushIf(PushIf([], Active(f, k[0]), k[0]),
        Active(f, k[1]), k[1]), Active(f, k[2]), k[2]), Active(f, k[3]), k[3]), Active(f, k[4]), k[4])
  {
    assert k[..4][..3] == k[..3] && k[..3][..2] == k[..2] && k[..2][..1] == k[..1] && k[..1][..0] == [];
    var a1 := PushIf([], Active(f, k[0]), k[0]);
    var a2 := PushIf(a1, Active(f, k[1]), k[1]);
    var a3 := PushIf(a2, Active(f, k[2]), k[2]);
    var a4 := PushIf(a3, Active(f, k[3]), k[3]);
    assert ActiveKeys(f, k[..1]) == a1;
    assert ActiveKeys(f, k[..2]) == a2;
    assert ActiveKeys(f, k[..3]) == a3;
    assert ActiveKeys(f, k[..4]) == a4;
    assert k[..5] == k;
  }

  lemma FilterKeyLabels()
    ensures FilterLabel(FilterKeys[0]) == "night lighting"
    ensures FilterLabel(FilterKeys[1]) == "fencing"
    ensures FilterLabel(FilterKeys[2]) == "off-leash access"
    ensures FilterLabel(FilterKeys[3]) == "small dog areas"
    ensures FilterLabel(FilterKeys[4]) == "dog agility equipment"
  {
  }

  /** The labels of five keys pushed under given conditions are those labels
      pushed under the same conditions. */
  lemma LabelsOfPushes(k: seq<string>, c0: bool, c1: bool, c2: bool, c3: bool, c4: bool)
    requires |k| == 5
    ensures LabelsOf(PushIf(PushIf(PushIf(PushIf(PushIf([], c0, k[0]), c1, k[1]), c2, k[2]), c3, k[3]), c4, k[4])) ==
      PushIf(PushIf(PushIf(PushIf(PushIf([], c0, FilterLabel(k[0])), c1, FilterLabel(k[1])),
        c2, FilterLabel(k[2])), c3, FilterLabel(k[3])), c4, FilterLabel(k[4]))
  {
    var a1 := PushIf([], c0, k[0]);
    var a2 := PushIf(a1, c1, k[1]);
    var a3 := PushIf(a2, c2, k[2]);
    var a4 := PushIf(a3, c3, k[3]);
    var l1 := PushIf([], c0, FilterLabel(k[0]));
    var l2 := PushIf(l1, c1, FilterLabel(k[1]));
    var l3 := PushIf(l2, c2, FilterLabel(k[2]));
    var l4 := PushIf(l3, c3, FilterLabel(k[3]));
    LabelsOfPushIf([], c0, k[0]);
    assert LabelsOf(a1) == l1;
    LabelsOfPushIf(a1, c1, k[1]);
    assert LabelsOf(a2) == l2;
    LabelsOfPushIf(a2, c2, k[2]);
    assert LabelsOf(a3) == l3;
    LabelsOfPushIf(a3, c3, k[3]);
    assert LabelsOf(a4) == l4;
    LabelsOfPushIf(a4, c4, k[4]);
  }

  lemma LabelsOfFive(f: Filters, k: seq<string>)
    requires |k| == 5
    ensures LabelsOf(ActiveKeys(f, k)) ==
      PushIf(PushIf(PushIf(PushIf(PushIf([], Active(f, k[0]), FilterLabel(k[0])),
        Active(f, k[1]), FilterLabel(k[1])), Active(f, k[2]), FilterLabel(k[2])),
        Active(f, k[3]), FilterLabel(k[3])), Active(f, k[4]), FilterLabel(k[4]))
  {
    var c0, c1, c2, c3, c4 := Active(f, k[0]), Active(f, k[1]), Active(f, k[2]), Active(f, k[3]), Active(f, k[4]);
    ActiveKeysOfFive(f, k);
    LabelsOfPushes(k, c0, c1, c2, c3, c4);
  }

  /** The labels are those of the switched-on filters, in `FilterKeys` order. */
  lemma ActiveFilterLabelsInKeyOrder(f: Filters)
    ensures ActiveFilterLabels(f) == LabelsOf(ActiveKeys(f, FilterKeys))
  {
    LabelsOfFive(f, FilterKeys);
    FilterKeyLabels();
  }

  /** No labels means no filter is on, and then nothing is filtered out. */
  lemma NoLabelsKeepsAll(parks: seq<Park>, f: Filters)
    requires ActiveFilterLabels(f) == []
    ensures forall i :: 0 <= i < |FilterKeys| ==> !Active(f, FilterKeys[i])
    ensures FilteredParks(parks, f) == parks
  {
    ActiveFilterLabelsInKeyOrder(f);
    ActiveKeysMembers(f, FilterKeys);
    forall i | 0 <= i < |FilterKeys| ensures !Active(f, FilterKeys[i]) {
      assert FilterKeys[i] !in ActiveKeys(f, FilterKeys);
    }
    NoActiveFilterKeepsAll(parks, f);
  }

  // ---- nearest first -------------------------------------------------------

  /** A `{lat, lng}` point. */
  datatype Point = Point(lat: real, lng: real)

  /** `userLocation` or the searched spot: its coordinates may be NaN. */
  datatype Origin = Origin(lat: Numeric, lng: Numeric)

  /** The park's own position, `{lat: coordinates[1], lng: coordinates[0]}`. */
  function Where(p: Park): Point {
    Point(Lat(p), Lng(p))
  }

  /** The `map` step of `nearestByPoint`: each park with its distance from `o`. */
  function WithDistances(parks: seq<Park>, o: Point, dist: (Point, Point) -> real): (r: seq<Park>)
    ensures |r| == |parks|
    ensures forall i :: 0 <= i < |parks| ==> r[i] == parks[i].(distance := Some(dist(o, Where(parks[i]))))
  {
    if parks == [] then []
    else [parks[0].(distance := Some(dist(o, Where(parks[0]))))] + WithDistances(parks[1..], o, dist)
  }

  /** The sort key, `park.distance`. */
  function Key(p: Park): real {
    if p.distance.Some? then p.distance.value else 0.0
  }

  predicate SortedByDistance(s: seq<Park>) {
    forall i, j :: 0 <= i < j < |s| ==> Key(s[i]) <= Key(s[j])
  }

  /** Place `x` in front of the first element with a key at least as large. */
  function Insert(x: Park, s: seq<Park>): (r: seq<Park>)
    ensures multiset(r) == multiset(s) + multiset{x}
    ensures |r| == |s| + 1
  {
    if s == [] || Key(x) <= Key(s[0]) then [x] + s
    else
      assert s == [s[0]] + s[1..];
      [s[0]] + Insert(x, s[1..])
  }

  lemma SortedTail(s: seq<Park>)
    requires s != [] && SortedByDistance(s)
    ensures SortedByDistance(s[1..])
  {
    var t := s[1..];
    forall i, j | 0 <= i < j < |t| ensures Key(t[i]) <= Key(t[j]) {
      assert t[i] == s[i + 1] && t[j] == s[j + 1];
    }
  }

  /** A park in front of a sorted list whose keys are all at least its own
      keeps the list sorted. */
  lemma ConsSorted(a: Park, t: seq<Park>)
    requires SortedByDistance(t) && forall k :: 0 <= k < |t| ==> Key(a) <= Key(t[k])
    ensures SortedByDistance([a] + t)
  {
    var r := [a] + t;
    assert forall k :: 1 <= k < |r| ==> r[k] == t[k - 1];
  }

  /** Inserting keeps every key above a common lower bound. */
  lemma {:induction false} InsertBound(x: Park, s: seq<Park>, b: real)
    requires b <= Key(x) && forall k :: 0 <= k < |s| ==> b <= Key(s[k])
    ensures forall k :: 0 <= k < |Insert(x, s)| ==> b <= Key(Insert(x, s)[k])
  {
    var r := Insert(x, s);
    if s == [] || Key(x) <= Key(s[0]) {
      assert forall k :: 1 <= k < |r| ==> r[k] == s[k - 1];
    } else {
      InsertBound(x, s[1..], b);
      var rest := Insert(x, s[1..]);
      assert forall k :: 1 <= k < |r| ==> r[k] == rest[k - 1];
    }
  }

  /** Inserting into a sorted sequence keeps it sorted. */
  lemma {:induction false} InsertSorted(x: Park, s: seq<Park>)
    requires SortedByDistance(s)
    ensures SortedByDistance(Insert(x, s))
  {
    if s == [] || Key(x) <= Key(s[0]) {
      ConsSorted(x, s);
    } else {
      var s0, s1 := s[0], s[1..];
      SortedTail(s);
      InsertSorted(x, s1);
      assert forall k :: 0 <= k < |s1| ==> Key(s0) <= Key(s1[k]) by {
        assert forall k :: 0 <= k < |s1| ==> s1[k] == s[k + 1];
      }
      InsertBound(x, s1, Key(s0));
      ConsSorted(s0, Insert(x, s1));
    }
  }

  /** `.sort((a, b) => a.distance - b.distance)`: a stable sort, written as
      an insertion sort. */
  function SortByDistance(s: seq<Park>): (r: seq<Park>)
    ensures multiset(r) == multiset(s)
    ensures |r| == |s|
    ensures SortedByDistance(r)
  {
    if s == [] then []
    else
      assert s == [s[0]] + s[1..];
      var sorted := SortByDistance(s[1..]);
      InsertSorted(s[0], sorted);
      Insert(s[0], sorted)
  }

  /** The parks of `s` whose distance is `d`, in order. */
  function WithKey(s: seq<Park>, d: real): seq<Park> {
    if s == [] then [] else AtKey(s[0], d) + WithKey(s[1..], d)
  }

  /** `[p]` when `p` is at distance `d`. */
  function AtKey(p: Park, d: real): seq<Park> {
    if Key(p) == d then [p] else []
  }

  lemma WithKeyCons(p: Park, s: seq<Park>, d: real)
    ensures WithKey([p] + s, d) == AtKey(p, d) + WithKey(s, d)
  {
    assert ([p] + s)[1..] == s;
  }

  lemma {:induction false} InsertStable(x: Park, s: seq<Park>, d: real)
    requires SortedByDistance(s)
    ensures WithKey(Insert(x, s), d) == WithKey([x] + s, d)
  {
    if s != [] && Key(x) > Key(s[0]) {
      var s0, s1 := s[0], s[1..];
      assert s == [s0] + s1;
      SortedTail(s);
      InsertStable(x, s1, d);
      var w := WithKey(s1, d);
      WithKeyCons(s0, Insert(x, s1), d);
      WithKeyCons(x, s1, d);
      WithKeyCons(x, s, d);
      WithKeyCons(s0, s1, d);
      // at most one of `s0` and `x` is at distance `d`
      if Key(s0) == d {
        assert AtKey(x, d) == [];
        assert AtKey(x, d) + w == w;
        assert AtKey(x, d) + (AtKey(s0, d) + w) == AtKey(s0, d) + w;
      } else {
        assert AtKey(s0, d) == [];
        assert AtKey(s0, d) + (AtKey(x, d) + w) == AtKey(x, d) + w;
        assert AtKey(s0, d) + w == w;
      }
    }
  }

  /** The sort is stable: parks at the same distance keep their input order. */
  lemma {:induction false} SortStable(s: seq<Park>, d: real)
    ensures WithKey(SortByDistance(s), d) == WithKey(s, d)
  {
    if s != [] {
      SortStable(s[1..], d);
      InsertStable(s[0], SortByDistance(s[1..]), d);
      WithKeyCons(s[0], SortByDistance(s[1..]), d);
      WithKeyCons(s[0], s[1..], d);
      assert s == [s[0]] + s[1..];
    }
  }

  function Min(a: nat, b: nat): nat {
    if a <= b then a else b
  }

  /** `PARK_LIMIT`, the `limit` every caller passes. */
  const ParkLimit: nat := 20

  /** `nearestByPoint(parks, origin, limit)`; `None` is a missing origin. */
  function NearestByPoint(parks: seq<Park>, origin: Option<Origin>, limit: nat, dist: (Point, Point) -> real)
    : (r: seq<Park>)
    ensures |r| == Min(limit, |parks|)
    ensures origin.None? || origin.value.lat.NaN? || origin.value.lng.NaN? ==> r == parks[..Min(limit, |parks|)]
    ensures origin.Some? && origin.value.lat.Finite? && origin.value.lng.Finite? ==>
      var o := Point(origin.value.lat.value, origin.value.lng.value);
      r == SortByDistance(WithDistances(parks, o, dist))[..Min(limit, |parks|)]
  {
    if |parks| == 0 then []
    else if origin.None? || origin.value.lat.NaN? || origin.value.lng.NaN? then parks[..Min(limit, |parks|)]
    else
      var o := Point(origin.value.lat.value, origin.value.lng.value);
      SortByDistance(WithDistances(parks, o, dist))[..Min(limit, |parks|)]
  }

  lemma PrefixMultiset(s: seq<Park>, n: nat)
    requires n <= |s|
    ensures multiset(s[..n]) <= multiset(s)
  {
    assert s == s[..n] + s[n..];
  }

  /** With a usable origin the result runs nearest first and is drawn from
      the input parks with their distances filled in. */
  lemma NearestRanked(parks: seq<Park>, lat: real, lng: real, limit: nat, dist: (Point, Point) -> real)
    ensures var r := NearestByPoint(parks, Some(Origin(Finite(lat), Finite(lng))), limit, dist);
      && SortedByDistance(r)
      && multiset(r) <= multiset(WithDistances(parks, Point(lat, lng), dist))
  {
    var sorted := SortByDistance(WithDistances(parks, Point(lat, lng), dist));
    var n := Min(limit, |parks|);
    PrefixMultiset(sorted, n);
  }

  /** Each entry of the ranked result is one of the input parks with only its
      distance filled in. */
  lemma NearestFromInput(parks: seq<Park>, lat: real, lng: real, limit: nat, dist: (Point, Point) -> real)
    ensures var r := NearestByPoint(parks, Some(Origin(Finite(lat), Finite(lng))), limit, dist);
      forall k :: 0 <= k < |r| ==>
        exists i :: 0 <= i < |parks| && r[k] == parks[i].(distance := Some(dist(Point(lat, lng), Where(parks[i]))))
  {
    var r := NearestByPoint(parks, Some(Origin(Finite(lat), Finite(lng))), limit, dist);
    NearestRanked(parks, lat, lng, limit, dist);
    forall k | 0 <= k < |r|
      ensures exists i :: 0 <= i < |parks| && r[k] == parks[i].(distance := Some(dist(Point(lat, lng), Where(parks[i]))))
    {
      assert r[k] in multiset(r);
      InWithDistances(parks, Point(lat, lng), dist, r[k]);
    }
  }

  lemma InWithDistances(parks: seq<Park>, o: Point, dist: (Point, Point) -> real, y: Park)
    requires y in multiset(WithDistances(parks, o, dist))
    ensures exists i :: 0 <= i < |parks| && y == parks[i].(distance := Some(dist(o, Where(parks[i]))))
  {
    var w := WithDistances(parks, o, dist);
    var i :| 0 <= i < |w| && w[i] == y;
  }
}
