/** Park normalisation in script.js: `buildPark` turns one loosely shaped record
    from the council's open-data API into a uniform park, or rejects it. */
module Normalize {
  import opened Js

  // ---- the Brisbane bounding box (BRISBANE_BOUNDS) -------------------------

  const South: real := -27.7
  const North: real := -27.2
  const West: real := 152.8
  const East: real := 153.3

  /** `isWithinBrisbane(lat, lng)` */
  predicate IsWithinBrisbane(lat: real, lng: real) {
    South <= lat <= North && West <= lng <= East
  }

  // ---- the yes/no coercion for facility flags ------------------------------

  const AffirmativeTokens: seq<string> := ["y", "yes", "true", "1"]

  /** `isTruthy(value)`: a boolean as it is, a number when positive, a string
      when its trimmed, lower-cased text is an affirmative token; anything
      else is false. It never accepts a value JavaScript calls falsy. */
  predicate IsTruthy(v: Value)
    ensures IsTruthy(v) ==> Truthy(v)
    ensures IsTruthy(v) ==> v.Bool? || v.Num? || v.Str?
  {
    match v
    case Bool(b) => b
    case Num(x) => x > 0.0
    case Str(s) => Lower(Trim(s)) in AffirmativeTokens
    case _ => false
  }

  /** The string rule of `isTruthy` ignores surrounding white space and the
      case of ASCII letters: `" YES "`, `"Yes"` and `"yes"` read alike. */
  lemma IsTruthyIgnoresCaseAndPadding(w1: string, s: string, w2: string, t: string)
    requires AllSpace(w1) && AllSpace(w2) && Lower(s) == Lower(t)
    ensures IsTruthy(Str(w1 + s + w2)) == IsTruthy(Str(t))
  {
    TrimPadded(w1, s, w2);
    LowerTrim(s);
    LowerTrim(t);
  }

  // ---- coordinate extraction -----------------------------------------------

  /** The record shapes `extractCoordinates` recognises, one per branch. */
  datatype Shape =
    | Geopoint             // `geopoint: [lat, lng]`
    | GeoShapePoint        // `geo_shape: {type: 'Point', coordinates}`
    | GeometryPoint        // `geometry: {type: 'Point', coordinates}`
    | LocationCoordinates  // `location: {coordinates}`
    | LatLong              // `lat` and `long`
    | LatitudeLongitude    // `latitude` and `longitude`
    | LatLng               // `lat` and `lng`
    | CoordinatesPair      // `coordinates: [lng, lat, ...]`

  /** The order in which `extractCoordinates` tries the shapes. */
  const ShapeOrder: seq<Shape> :=
    [Geopoint, GeoShapePoint, GeometryPoint, LocationCoordinates, LatLong, LatitudeLongitude, LatLng, CoordinatesPair]

  /** A point geometry `{type: 'Point', coordinates: [...]}` and its coordinates. */
  function PointGeometry(g: Value): Option<Value> {
    if Prop(g, "type") == Str("Point") && Prop(g, "coordinates").Arr? then Some(Prop(g, "coordinates")) else None
  }

  /** Two truthy fields, returned as the pair `[lng, lat]`. */
  function FieldPair(f: Value, latKey: string, lngKey: string): Option<Value> {
    var lat, lng := Prop(f, latKey), Prop(f, lngKey);
    if Truthy(lat) && Truthy(lng) then Some(Arr([lng, lat])) else None
  }

  /** One recogniser: the `[lng, lat]` candidate a shape finds in `f`, if any. */
  function Recognize(shape: Shape, f: Value): Option<Value> {
    match shape
    case Geopoint =>
      var g := Prop(f, "geopoint");
      if g.Arr? && |g.items| >= 2 then Some(Arr([g.items[1], g.items[0]])) else None
    case GeoShapePoint => PointGeometry(Prop(f, "geo_shape"))
    case GeometryPoint => PointGeometry(Prop(f, "geometry"))
    case LocationCoordinates =>
      var c := Prop(Prop(f, "location"), "coordinates");
      if Truthy(c) then Some(c) else None
    case LatLong => FieldPair(f, "lat", "long")
    case LatitudeLongitude => FieldPair(f, "latitude", "longitude")
    case LatLng => FieldPair(f, "lat", "lng")
    case CoordinatesPair =>
      var c := Prop(f, "coordinates");
      if c.Arr? && |c.items| >= 2 then Some(c) else None
  }

  /** The first recogniser in `shapes` that matches wins. */
  function FirstMatch(shapes: seq<Shape>, f: Value): (r: Option<Value>)
    ensures r.None? <==> forall i :: 0 <= i < |shapes| ==> Recognize(shapes[i], f).None?
    ensures forall i :: 0 <= i < |shapes| ==>
              (Recognize(shapes[i], f).Some? && (forall j :: 0 <= j < i ==> Recognize(shapes[j], f).None?)) ==>
              r == Recognize(shapes[i], f)
  {
    if shapes == [] then None
    else match Recognize(shapes[0], f)
      case Some(c) => Some(c)
      case None => FirstMatch(shapes[1..], f)
  }

  /** `extractCoordinates(fields)`: the first shape in `ShapeOrder` that
      matches, or null. */
  function ExtractCoordinates(f: Value): (r: Option<Value>)
    ensures !Truthy(f) ==> r.None?
    ensures Truthy(f) ==> r == FirstMatch(ShapeOrder, f)
  {
    if !Truthy(f) then None else FirstMatch(ShapeOrder, f)
  }

  /** A `geopoint` pair `[a, b]` wins over every other shape and comes back
      swapped, as `[b, a]`. */
  lemma GeopointSwapped(f: Value)
    requires Prop(f, "geopoint").Arr? && |Prop(f, "geopoint").items| >= 2
    ensures var g := Prop(f, "geopoint").items;
      ExtractCoordinates(f) == Some(Arr([g[1], g[0]]))
  {
    assert Recognize(ShapeOrder[0], f).Some?;
  }

  /** A record with none of the recognised shapes has no coordinates. */
  lemma NoShapeNoCoordinates(f: Value)
    requires forall s :: Recognize(s, f).None?
    ensures ExtractCoordinates(f).None?
  {
    assert forall i :: 0 <= i < |ShapeOrder| ==> Recognize(ShapeOrder[i], f).None?;
  }

  // ---- facilities ----------------------------------------------------------

  const DogFriendly: string := "Dog Friendly"
  const NightLighting: string := "Night Lighting"
  const Fencing: string := "Fencing"
  const SmallDogEnclosure: string := "SMALL DOG ENCLOSURE"
  const AgilityEquipment: string := "DOG AGILITY EQUIPMENT"

  /** `extractFacilities()`: the tag every park carries. */
  function BaseFacilities(): seq<string> {
    [DogFriendly]
  }

  function LightingFlag(f: Value): Value {
    Or(Prop(f, "LIGHTING"), Prop(f, "lighting"))
  }
  function FencingField(f: Value): Value {
    FirstTruthy(f, ["FENCING", "fencing"], Str(""))
  }
  function SmallDogFlag(f: Value): Value {
    Or(Prop(f, "SMALL_DOG_ENCLOSURE"), Prop(f, "small_dog_enclosure"))
  }
  function AgilityFlag(f: Value): Value {
    Or(Prop(f, "DOG_AGILITY_EQUIPMENT"), Prop(f, "dog_agility_equipment"))
  }

  /** `v.toString().trim().toLowerCase() === 'fully fenced'`. An array reads as
      its joined elements, so a one-element array reads as that element and a
      longer one always has a comma in it; numbers, booleans and objects never
      read as those words. */
  predicate ReadsFullyFenced(v: Value)
    decreases v
  {
    match v
    case Str(s) => Lower(Trim(s)) == "fully fenced"
    case Arr(items) => |items| == 1 && ReadsFullyFenced(items[0])
    case _ => false
  }

  /** `tags`, followed by `t` when `present`. */
  function WithTag(tags: seq<string>, present: bool, t: string): seq<string> {
    if present then tags + [t] else tags
  }

  /** The facility tags for the four flags, in the order `buildPark` adds them. */
  function TagsFor(lit: bool, fenced: bool, small: bool, agility: bool): seq<string> {
    var t1 := WithTag(BaseFacilities(), lit, NightLighting);
    var t2 := WithTag(t1, fenced, Fencing);
    var t3 := WithTag(t2, small, SmallDogEnclosure);
    WithTag(t3, agility, AgilityEquipment)
  }

  /** The facility tags of a record. */
  function Facilities(f: Value): seq<string> {
    TagsFor(IsTruthy(LightingFlag(f)), ReadsFullyFenced(FencingField(f)),
            IsTruthy(SmallDogFlag(f)), IsTruthy(AgilityFlag(f)))
  }

  predicate NoDuplicates(s: seq<string>) {
    forall i, j :: 0 <= i < j < |s| ==> s[i] != s[j]
  }

  /** `set.add(t)` on an insertion-ordered set kept as a sequence. */
  function AddTag(tags: seq<string>, t: string): (r: seq<string>)
    ensures NoDuplicates(tags) ==> NoDuplicates(r)
    ensures forall x :: x in r <==> x in tags || x == t
    ensures |r| >= |tags| && r[..|tags|] == tags
  {
    if t in tags then tags else tags + [t]
  }

  /** `if (present) set.add(t)`, for a tag `t` the set cannot hold yet: one
      whose length no tag already in it has. (The five facility tags have five
      different lengths.) */
  method AddIfPresent(tags: seq<string>, present: bool, t: string, ghost lengths: set<nat>)
      returns (r: seq<string>)
    requires forall i :: 0 <= i < |tags| ==> |tags[i]| in lengths
    requires |t| !in lengths
    ensures r == WithTag(tags, present, t)
    ensures forall i :: 0 <= i < |r| ==> |r[i]| in lengths + {|t|}
    ensures NoDuplicates(tags) ==> NoDuplicates(r)
  {
    r := tags;
    if present {
      assert t !in tags;
      r := AddTag(tags, t);
    }
  }

  /** The `Set` of lines 548-553 of `buildPark`: seeded with the base tags,
      grown with `add` for each flag that is set, and read back in insertion
      order. */
  method CollectTags(lit: bool, fenced: bool, small: bool, agility: bool) returns (tags: seq<string>)
    ensures tags == TagsFor(lit, fenced, small, agility)
    ensures NoDuplicates(tags)
  {
    assert |DogFriendly| == 12 && |NightLighting| == 14 && |Fencing| == 7;
    assert |SmallDogEnclosure| == 19 && |AgilityEquipment| == 21;
    tags := BaseFacilities();
    tags := AddIfPresent(tags, lit, NightLighting, {12});
    tags := AddIfPresent(tags, fenced, Fencing, {12, 14});
    tags := AddIfPresent(tags, small, SmallDogEnclosure, {12, 14, 7});
    tags := AddIfPresent(tags, agility, AgilityEquipment, {12, 14, 7, 19});
  }

  /** Lines 548-553 and 561 of `buildPark`: the record's flags decide which
      tags are added. */
  method CollectFacilities(f: Value) returns (tags: seq<string>)
    ensures tags == Facilities(f)
    ensures NoDuplicates(tags)
  {
    tags := CollectTags(IsTruthy(LightingFlag(f)), ReadsFullyFenced(FencingField(f)),
                        IsTruthy(SmallDogFlag(f)), IsTruthy(AgilityFlag(f)));
  }

  /** The facility list of every record starts with the base tag, repeats no
      tag, and holds each conditional tag exactly when its field says so; in
      particular `Fencing` only for a fencing field reading "fully fenced". */
  lemma FacilitiesShape(f: Value)
    ensures var tags := Facilities(f);
      && |tags| >= 1 && tags[0] == DogFriendly
      && NoDuplicates(tags)
      && (NightLighting in tags <==> IsTruthy(LightingFlag(f)))
      && (Fencing in tags <==> ReadsFullyFenced(FencingField(f)))
      && (SmallDogEnclosure in tags <==> IsTruthy(SmallDogFlag(f)))
      && (AgilityEquipment in tags <==> IsTruthy(AgilityFlag(f)))
  {
    TagsForShape(IsTruthy(LightingFlag(f)), ReadsFullyFenced(FencingField(f)),
                 IsTruthy(SmallDogFlag(f)), IsTruthy(AgilityFlag(f)));
  }

  /** A tag of a new length keeps the tags free of duplicates. */
  lemma WithNewTag(tags: seq<string>, present: bool, t: string, lengths: set<nat>)
    requires forall i :: 0 <= i < |tags| ==> |tags[i]| in lengths
    requires |t| !in lengths
    requires NoDuplicates(tags)
    ensures NoDuplicates(WithTag(tags, present, t))
    ensures forall i :: 0 <= i < |WithTag(tags, present, t)| ==> |WithTag(tags, present, t)[i]| in lengths + {|t|}
    ensures forall x :: x in WithTag(tags, present, t) <==> x in tags || (present && x == t)
  {
  }

  lemma TagsForShape(lit: bool, fenced: bool, small: bool, agility: bool)
    ensures var tags := TagsFor(lit, fenced, small, agility);
      && |tags| >= 1 && tags[0] == DogFriendly
      && NoDuplicates(tags)
      && (NightLighting in tags <==> lit)
      && (Fencing in tags <==> fenced)
      && (SmallDogEnclosure in tags <==> small)
      && (AgilityEquipment in tags <==> agility)
  {
    assert |DogFriendly| == 12 && |NightLighting| == 14 && |Fencing| == 7;
    assert |SmallDogEnclosure| == 19 && |AgilityEquipment| == 21;
    var t0 := BaseFacilities();
    var t1 := WithTag(t0, lit, NightLighting);
    var t2 := WithTag(t1, fenced, Fencing);
    var t3 := WithTag(t2, small, SmallDogEnclosure);
    var t4 := WithTag(t3, agility, AgilityEquipment);
    WithNewTag(t0, lit, NightLighting, {12});
    WithNewTag(t1, fenced, Fencing, {12, 14});
    WithNewTag(t2, small, SmallDogEnclosure, {12, 14, 7});
    WithNewTag(t3, agility, AgilityEquipment, {12, 14, 7, 19});
    assert t4[0] == DogFriendly;
  }

  // ---- the park record -----------------------------------------------------

  /** A park's identifier: a field of the record, or `${name}-${lat}-${lng}`. */
  datatype ParkId = GivenId(value: Value) | CompositeId(name: Value, lat: real, lng: real)

  /** The uniform park record `buildPark` returns; `coordinates` is
      `[lng, lat]`. `distance` is absent until `nearestByPoint` adds it. */
  datatype Park = Park(
    id: ParkId,
    name: Value,
    coordinates: (real, real),
    suburb: Value,
    address: Value,
    facilities: seq<string>,
    isOffLeash: bool,
    hours: Value,
    restrictions: Value,
    photo: Value,
    distance: Option<real>)

  function Lng(p: Park): real { p.coordinates.0 }
  function Lat(p: Park): real { p.coordinates.1 }

  predicate InBrisbane(p: Park) {
    IsWithinBrisbane(Lat(p), Lng(p))
  }

  const NameKeys: seq<string> := ["park_name", "name", "facility_name", "site_name", "title"]
  const IdKeys: seq<string> := ["global_id", "cartodb_id", "id"]

  /** `item?.record?.fields || item?.fields || item` */
  function RecordFields(item: Value): Value {
    Or(Prop(Prop(item, "record"), "fields"), Or(Prop(item, "fields"), item))
  }

  /** `Park ${index + 1}` */
  function PlaceholderName(index: nat): string {
    "Park " + NatToDecimal(index + 1)
  }

  /** `[Number(coords[0]), Number(coords[1])]`, the longitude and latitude. */
  function Position(coords: Value): (Numeric, Numeric) {
    (ToNumber(At(coords, 0)), ToNumber(At(coords, 1)))
  }

  /** A found position that is a pair of numbers inside the box. */
  predicate Acceptable(pos: (Numeric, Numeric)) {
    pos.0.Finite? && pos.1.Finite? && IsWithinBrisbane(pos.1.value, pos.0.value)
  }

  /** `fields.global_id || fields.cartodb_id || fields.id || `${name}-${lat}-${lng}`` */
  function ParkIdFor(fields: Value, name: Value, lat: real, lng: real): ParkId {
    var id := FirstTruthy(fields, IdKeys, Undefined);
    if Truthy(id) then GivenId(id) else CompositeId(name, lat, lng)
  }

  /** With every id field falsy the id is made of the name and the position;
      otherwise it is the first truthy id field. */
  lemma IdFallback(fields: Value, name: Value, lat: real, lng: real)
    ensures (forall i :: 0 <= i < |IdKeys| ==> !Truthy(Prop(fields, IdKeys[i]))) ==>
              ParkIdFor(fields, name, lat, lng) == CompositeId(name, lat, lng)
    ensures (exists i :: 0 <= i < |IdKeys| && Truthy(Prop(fields, IdKeys[i]))) ==>
              ParkIdFor(fields, name, lat, lng) == GivenId(FirstTruthy(fields, IdKeys, Undefined))
              && Truthy(FirstTruthy(fields, IdKeys, Undefined))
  {
    var id := FirstTruthy(fields, IdKeys, Undefined);
    if exists i :: 0 <= i < |IdKeys| && Truthy(Prop(fields, IdKeys[i])) {
      assert Truthy(id) by {
        if !Truthy(Prop(fields, IdKeys[0])) && !Truthy(Prop(fields, IdKeys[1])) {
          assert Truthy(Prop(fields, IdKeys[2]));
        }
      }
    }
  }

  /** `buildPark(item, index, isOffLeash)`; `None` is its `null`. */
  function BuildPark(item: Value, index: nat, isOffLeash: bool): (r: Option<Park>)
    ensures r.Some? ==> InBrisbane(r.value)
    ensures r.Some? ==> r.value.isOffLeash == isOffLeash && r.value.distance.None?
  {
    var fields := RecordFields(item);
    if !Truthy(fields) then None
    else match ExtractCoordinates(fields)
      case None => None
      case Some(coords) =>
        var pos := Position(coords);
        if !Acceptable(pos) then None
        else
          var lng, lat := pos.0.value, pos.1.value;
          var name := FirstTruthy(fields, NameKeys, Str(PlaceholderName(index)));
          Some(Park(
            id := ParkIdFor(fields, name, lat, lng),
            name := name,
            coordinates := (lng, lat),
            suburb := FirstTruthy(fields, ["suburb", "locality", "district"], Str("")),
            address := FirstTruthy(fields, ["address", "street_address", "full_address"], Str("")),
            facilities := Facilities(fields),
            isOffLeash := isOffLeash,
            hours := FirstTruthy(fields, ["opening_hours", "hours"], Str("")),
            restrictions := FirstTruthy(fields, ["restrictions", "rules"], Str("")),
            photo := FirstTruthy(fields, ["photo"], Str("")),
            distance := None))
  }

  /** A record is rejected exactly when it has no fields, no recognised
      coordinate shape, a coordinate that is not a number, or a point outside
      the box; otherwise the park sits at the found position, as `[lng, lat]`. */
  lemma BuildParkAcceptance(item: Value, index: nat, isOffLeash: bool)
    ensures var fields := RecordFields(item);
      var coords := ExtractCoordinates(fields);
      && (BuildPark(item, index, isOffLeash).None? <==>
            !Truthy(fields) || coords.None? || !Acceptable(Position(coords.value)))
      && (BuildPark(item, index, isOffLeash).Some? ==>
            var pos := Position(coords.value);
            BuildPark(item, index, isOffLeash).value.coordinates == (pos.0.value, pos.1.value))
  {
  }

  /** The facilities of a built park obey `FacilitiesShape`. */
  lemma BuiltFacilities(item: Value, index: nat, isOffLeash: bool)
    requires BuildPark(item, index, isOffLeash).Some?
    ensures var p := BuildPark(item, index, isOffLeash).value;
      var f := RecordFields(item);
      && p.facilities[0] == DogFriendly
      && NoDuplicates(p.facilities)
      && (Fencing in p.facilities <==> ReadsFullyFenced(FencingField(f)))
      && (NightLighting in p.facilities <==> IsTruthy(LightingFlag(f)))
      && (SmallDogEnclosure in p.facilities <==> IsTruthy(SmallDogFlag(f)))
      && (AgilityEquipment in p.facilities <==> IsTruthy(AgilityFlag(f)))
  {
    FacilitiesShape(RecordFields(item));
  }

  /** With every name field falsy the park is called "Park <index + 1>". */
  lemma BuiltNameFallback(item: Value, index: nat, isOffLeash: bool)
    requires BuildPark(item, index, isOffLeash).Some?
    requires forall i :: 0 <= i < |NameKeys| ==> !Truthy(Prop(RecordFields(item), NameKeys[i]))
    ensures BuildPark(item, index, isOffLeash).value.name == Str("Park " + NatToDecimal(index + 1))
  {
  }

  /** A built park's id follows `IdFallback`. */
  lemma BuiltIdFallback(item: Value, index: nat, isOffLeash: bool)
    requires BuildPark(item, index, isOffLeash).Some?
    ensures var p := BuildPark(item, index, isOffLeash).value;
      var f := RecordFields(item);
      && ((forall i :: 0 <= i < |IdKeys| ==> !Truthy(Prop(f, IdKeys[i]))) ==>
            p.id == CompositeId(p.name, Lat(p), Lng(p)))
      && ((exists i :: 0 <= i < |IdKeys| && Truthy(Prop(f, IdKeys[i]))) ==>
            p.id == GivenId(FirstTruthy(f, IdKeys, Undefined)) && Truthy(p.id.value))
  {
    var p := BuildPark(item, index, isOffLeash).value;
    var f := RecordFields(item);
    assert p.id == ParkIdFor(f, p.name, Lat(p), Lng(p));
    IdFallback(f, p.name, Lat(p), Lng(p));
  }

  /** A record holding only `geopoint: [-27.5, 153.0]`. */
  const GeopointRecord: Value := Obj(map["geopoint" := Arr([Num(-27.5), Num(153.0)])])

  lemma GeopointRecordPosition()
    ensures RecordFields(GeopointRecord) == GeopointRecord
    ensures ExtractCoordinates(GeopointRecord) == Some(Arr([Num(153.0), Num(-27.5)]))
    ensures Position(Arr([Num(153.0), Num(-27.5)])) == (Finite(153.0), Finite(-27.5))
  {
    var f := GeopointRecord;
    assert Prop(f, "record") == Undefined && Prop(f, "fields") == Undefined;
    GeopointSwapped(f);
  }

  lemma GeopointRecordName()
    ensures FirstTruthy(GeopointRecord, NameKeys, Str(PlaceholderName(0))) == Str("Park 1")
  {
    var f := GeopointRecord;
    assert forall i :: 0 <= i < |NameKeys| ==> !Truthy(Prop(f, NameKeys[i]));
    assert NatToDecimal(1) == "1";
  }

  lemma GeopointRecordTags()
    ensures Facilities(GeopointRecord) == [DogFriendly]
  {
    var f := GeopointRecord;
    assert Prop(f, "LIGHTING") == Undefined && Prop(f, "lighting") == Undefined;
    assert Prop(f, "FENCING") == Undefined && Prop(f, "fencing") == Undefined;
    assert Prop(f, "SMALL_DOG_ENCLOSURE") == Undefined && Prop(f, "small_dog_enclosure") == Undefined;
    assert Prop(f, "DOG_AGILITY_EQUIPMENT") == Undefined && Prop(f, "dog_agility_equipment") == Undefined;
    assert FencingField(f) == Str("");
    assert Facilities(f) == TagsFor(false, false, false, false);
  }

  /** The record `{geopoint: [-27.5, 153.0]}` becomes a park at
      `[153.0, -27.5]`, not off-leash, named "Park 1" and tagged
      "Dog Friendly" only. */
  lemma GeopointScenario()
    ensures var p := BuildPark(GeopointRecord, 0, false);
      && p.Some?
      && p.value.coordinates == (153.0, -27.5)
      && !p.value.isOffLeash
      && p.value.facilities == [DogFriendly]
      && p.value.name == Str("Park 1")
  {
    GeopointRecordPosition();
    GeopointRecordName();
    GeopointRecordTags();
    assert Acceptable((Finite(153.0), Finite(-27.5)));
  }

  // ---- a whole dataset -------------------------------------------------------

  /** `records.map((r, i) => buildPark(r, i, isOffLeash)).filter(Boolean)`,
      from position `start` on. */
  function BuiltFrom(records: seq<Value>, start: nat, isOffLeash: bool): (parks: seq<Park>)
    requires start <= |records|
    ensures |parks| <= |records| - start
    ensures forall p :: p in parks ==> InBrisbane(p) && p.isOffLeash == isOffLeash
    ensures forall i :: start <= i < |records| && BuildPark(records[i], i, isOffLeash).Some? ==>
              BuildPark(records[i], i, isOffLeash).value in parks
    decreases |records| - start
  {
    if start == |records| then []
    else
      var rest := BuiltFrom(records, start + 1, isOffLeash);
      match BuildPark(records[start], start, isOffLeash)
      case Some(p) => [p] + rest
      case None => rest
  }

  function BuiltParks(records: seq<Value>, isOffLeash: bool): seq<Park> {
    BuiltFrom(records, 0, isOffLeash)
  }

  /** Every park of a built dataset comes from one of its records. */
  lemma {:induction false} BuiltFromOrigin(records: seq<Value>, start: nat, isOffLeash: bool, p: Park)
    requires start <= |records|
    requires p in BuiltFrom(records, start, isOffLeash)
    ensures exists i :: start <= i < |records| && BuildPark(records[i], i, isOffLeash) == Some(p)
    decreases |records| - start
  {
    if BuildPark(records[start], start, isOffLeash) != Some(p) {
      BuiltFromOrigin(records, start + 1, isOffLeash, p);
    }
  }

  /** `records.map((r, i) => buildPark(r, i, isOffLeash))`: one attempt per
      record, at the record's own index. */
  function Attempts(records: seq<Value>, isOffLeash: bool): (r: seq<Option<Park>>)
    ensures |r| == |records|
    ensures forall i :: 0 <= i < |records| ==> r[i] == BuildPark(records[i], i, isOffLeash)
  {
    seq(|records|, i requires 0 <= i < |records| => BuildPark(records[i], i, isOffLeash))
  }

  /** `.filter(Boolean)` on a list of attempts, from position `start` on. */
  function Kept<T>(opts: seq<Option<T>>, start: nat): seq<T>
    requires start <= |opts|
    decreases |opts| - start
  {
    if start == |opts| then []
    else
      var rest := Kept(opts, start + 1);
      match opts[start]
      case Some(x) => [x] + rest
      case None => rest
  }

  /** The positions, from `start` on, of the attempts that succeeded, in
      increasing order: the indices `.filter(Boolean)` keeps. */
  function KeptIndices<T>(opts: seq<Option<T>>, start: nat): (idx: seq<nat>)
    requires start <= |opts|
    ensures forall k :: 0 <= k < |idx| ==> start <= idx[k] < |opts| && opts[idx[k]].Some?
    ensures forall k, l :: 0 <= k < l < |idx| ==> idx[k] < idx[l]
    ensures forall i :: start <= i < |opts| && opts[i].Some? ==> i in idx
    decreases |opts| - start
  {
    if start == |opts| then []
    else
      var rest := KeptIndices(opts, start + 1);
      if opts[start].Some? then [start] + rest else rest
  }

  /** `.filter(Boolean)` keeps every successful attempt once, in order: its
      `k`-th element is the value of the `k`-th successful attempt. */
  lemma {:induction false} KeptInOrder<T>(opts: seq<Option<T>>, start: nat)
    requires start <= |opts|
    ensures var kept, idx := Kept(opts, start), KeptIndices(opts, start);
      && |kept| == |idx|
      && forall k :: 0 <= k < |idx| ==> opts[idx[k]] == Some(kept[k])
    decreases |opts| - start
  {
    if start < |opts| {
      KeptInOrder(opts, start + 1);
      var rest, later := Kept(opts, start + 1), KeptIndices(opts, start + 1);
      if opts[start].Some? {
        var kept, idx := [opts[start].value] + rest, [start] + later;
        assert kept == Kept(opts, start) && idx == KeptIndices(opts, start);
        forall k | 0 <= k < |idx|
          ensures opts[idx[k]] == Some(kept[k])
        {
          if k > 0 {
            assert idx[k] == later[k - 1] && kept[k] == rest[k - 1];
          }
        }
      } else {
        assert rest == Kept(opts, start) && later == KeptIndices(opts, start);
      }
    }
  }

  /** `BuiltFrom` is `.map(buildPark).filter(Boolean)` taken literally. */
  lemma {:induction false} BuiltFromIsKept(records: seq<Value>, start: nat, isOffLeash: bool)
    requires start <= |records|
    ensures BuiltFrom(records, start, isOffLeash) == Kept(Attempts(records, isOffLeash), start)
    decreases |records| - start
  {
    if start < |records| {
      BuiltFromIsKept(records, start + 1, isOffLeash);
      assert Attempts(records, isOffLeash)[start] == BuildPark(records[start], start, isOffLeash);
    }
  }

  /** A built dataset holds one park per accepted record, in record order:
      with `idx` the increasing indices of the accepted records, its `k`-th
      park is `buildPark` of record `idx[k]`. */
  lemma BuiltParksInOrder(records: seq<Value>, isOffLeash: bool)
    ensures var parks, idx := BuiltParks(records, isOffLeash), KeptIndices(Attempts(records, isOffLeash), 0);
      && |parks| == |idx|
      && (forall k, l :: 0 <= k < l < |idx| ==> idx[k] < idx[l])
      && (forall i :: 0 <= i < |records| && BuildPark(records[i], i, isOffLeash).Some? ==> i in idx)
      && forall k :: 0 <= k < |idx| ==> idx[k] < |records| && BuildPark(records[idx[k]], idx[k], isOffLeash) == Some(parks[k])
  {
    BuiltFromIsKept(records, 0, isOffLeash);
    KeptInOrder(Attempts(records, isOffLeash), 0);
  }

  const EnvelopeKeys: seq<string> := ["records", "results", "data"]

  /** `data.records || data.results || data.data || (Array.isArray(data) ? data : [])`
      on the parsed response body; `None` for a `null` (or `undefined`) body,
      where reading `.records` throws. */
  function EnvelopeRecords(data: Value): (r: Option<Value>)
    ensures data.Null? || data.Undefined? <==> r.None?
    ensures data.Arr? ==> r == Some(data)
    ensures forall i :: 0 <= i < |EnvelopeKeys| ==>
              (data.Obj? && Truthy(Prop(data, EnvelopeKeys[i])) &&
               (forall j :: 0 <= j < i ==> !Truthy(Prop(data, EnvelopeKeys[j])))) ==>
              r == Some(Prop(data, EnvelopeKeys[i]))
    ensures data.Obj? && (forall i :: 0 <= i < |EnvelopeKeys| ==> !Truthy(Prop(data, EnvelopeKeys[i]))) ==> r == Some(Arr([]))
    ensures !data.Null? && !data.Undefined? && !data.Arr? && !data.Obj? ==> r == Some(Arr([]))
  {
    if data.Null? || data.Undefined? then None
    else Some(FirstTruthy(data, EnvelopeKeys, if data.Arr? then data else Arr([])))
  }
}
