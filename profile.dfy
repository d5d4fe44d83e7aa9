/** The profile page: a profile object kept in `localStorage` under its own key
    and merged over fixed defaults, the legacy preferences migration run at
    start-up, the preference labels, the saved-locations editor, deletion of
    favourites, the star renderer and the page's own `escapeHtml`. */
module Profile {
  import opened Js
  import opened Storage
  import MapApp

  // ---- the stored profile --------------------------------------------------

  /** `LS_KEY`, where the profile lives. */
  const LsKey: string := "dfm_profile_v1"

  /** `DEFAULTS.prefs` */
  const DefaultPrefs: map<string, Value> :=
    map["walkerTime" := Str("Morning"), "dogSize" := Str("Small"), "experience" := Str("New walker")]

  /** `DEFAULTS` */
  const Defaults: map<string, Value> :=
    map["userId" := Str("guest"), "displayName" := Str("Guest"), "avatar" := Str(""),
        "prefs" := Obj(DefaultPrefs),
        "dogDetails" := Obj(map["name" := Str(""), "breed" := Str(""), "age" := Str(""), "notes" := Str("")]),
        "savedLocations" := Arr([])]

  /** Distinct natural numbers have distinct decimal names, so the index keys
      of an array or a string name one element each. */
  lemma DecimalKeysDistinct()
    ensures forall a: nat, b: nat :: NatToDecimal(a) == NatToDecimal(b) ==> a == b
  {
    forall a: nat, b: nat | NatToDecimal(a) == NatToDecimal(b) ensures a == b {
      DecimalInjective(a, b);
    }
  }

  /** An array's index keys `"0"`, `"1"`, … with their elements. */
  function IndexMap(items: seq<Value>): map<string, Value> {
    DecimalKeysDistinct();
    map i: nat | i < |items| :: NatToDecimal(i) := items[i]
  }

  /** The own enumerable properties object spread copies out of a parsed
      value: an object's fields, an array's or a string's indices, and
      nothing for `null`, a boolean or a number. */
  function OwnProps(v: Value): map<string, Value> {
    match v
    case Obj(fields) => fields
    case Arr(items) => IndexMap(items)
    case Str(s) => IndexMap(seq(|s|, i requires 0 <= i < |s| => Str([s[i]])))
    case _ => map[]
  }

  /** `readState()`: no text, an empty text or text `JSON.parse` rejects give
      the defaults; otherwise the parsed value is spread over the defaults. */
  function ReadState(store: Store): (r: map<string, Value>)
    ensures Defaults.Keys <= r.Keys
  {
    if LsKey in store && store[LsKey].Json? then Defaults + OwnProps(store[LsKey].value)
    else Defaults
  }

  /** `writeState(state)` */
  function WriteState(store: Store, state: map<string, Value>): Store {
    store[LsKey := Json(Obj(state))]
  }

  /** Nothing usable stored: the defaults. */
  lemma ReadStateEmpty(store: Store)
    requires LsKey !in store || store[LsKey].Garbage?
    ensures ReadState(store) == Defaults
  {
  }

  /** A stored object overrides the defaults key by key, and every default key
      the object lacks keeps its default; a stored number, boolean or `null`
      leaves the defaults as they are. */
  lemma ReadStateMerge(store: Store)
    requires LsKey in store && store[LsKey].Json?
    ensures var v, r := store[LsKey].value, ReadState(store);
      && (v.Obj? ==> forall k :: (k in r <==> k in Defaults || k in v.fields)
                                && (k in v.fields ==> r[k] == v.fields[k])
                                && (k in Defaults && k !in v.fields ==> r[k] == Defaults[k]))
      && (v.Num? || v.Bool? || v.Null? ==> r == Defaults)
  {
  }

  /** A stored profile that holds every default key reads back as itself. */
  lemma ReadStored(store: Store, state: map<string, Value>)
    requires Defaults.Keys <= state.Keys
    requires LsKey in store && store[LsKey] == Json(Obj(state))
    ensures ReadState(store) == state
  {
    var r := ReadState(store);
    assert r.Keys == state.Keys;
    assert forall k :: k in r ==> r[k] == state[k];
  }

  /** Reading back what was written gives the same profile once it holds every
      default key, and the write touches no other key of storage. */
  lemma ReadAfterWrite(store: Store, state: map<string, Value>)
    requires Defaults.Keys <= state.Keys
    ensures ReadState(WriteState(store, state)) == state
    ensures forall k :: k in store && k != LsKey ==> k in WriteState(store, state) && WriteState(store, state)[k] == store[k]
  {
    ReadStored(WriteState(store, state), state);
  }

  // ---- start-up ------------------------------------------------------------

  /** The preference keys `init` looks for. */
  const PrefKeys: seq<string> := ["walkerTime", "dogSize", "experience"]

  /** `prefs` has the legacy shape: falsy, not an object, or an object with
      none of the three keys (`typeof` of an array is also "object", but an
      array owns none of them). */
  predicate LegacyPrefs(p: Value) {
    !(p.Obj? && ("walkerTime" in p.fields || "dogSize" in p.fields || "experience" in p.fields))
  }

  /** `field || fallback` on a preferences object. */
  function Defaulted(fields: map<string, Value>, key: string, fallback: string): (r: map<string, Value>)
    requires fallback != ""
    ensures r.Keys == fields.Keys + {key}
    ensures Truthy(r[key])
    ensures forall k :: k in fields && k != key ==> r[k] == fields[k]
  {
    fields[key := Or(Get(fields, key), Str(fallback))]
  }

  /** The preferences migration in `init`. */
  function MigratePrefs(p: Value): (r: Value)
    ensures r.Obj?
    ensures forall i :: 0 <= i < |PrefKeys| ==> PrefKeys[i] in r.fields && Truthy(r.fields[PrefKeys[i]])
  {
    if LegacyPrefs(p) then Obj(DefaultPrefs)
    else
      Obj(Defaulted(Defaulted(Defaulted(p.fields, "walkerTime", "Morning"), "dogSize", "Small"), "experience", "New walker"))
  }

  /** The legacy shape becomes a copy of the default preferences; any other
      object keeps its truthy fields and its other keys, and each falsy or
      missing field gets its default. */
  lemma MigratePrefsCases(p: Value)
    ensures LegacyPrefs(p) ==> MigratePrefs(p) == Obj(DefaultPrefs)
    ensures !LegacyPrefs(p) ==>
      var r := MigratePrefs(p).fields;
      && r.Keys == p.fields.Keys + {"walkerTime", "dogSize", "experience"}
      && (forall k :: k in p.fields && (Truthy(p.fields[k]) || k !in PrefKeys) ==> r[k] == p.fields[k])
      && (!Truthy(Get(p.fields, "walkerTime")) ==> r["walkerTime"] == Str("Morning"))
      && (!Truthy(Get(p.fields, "dogSize")) ==> r["dogSize"] == Str("Small"))
      && (!Truthy(Get(p.fields, "experience")) ==> r["experience"] == Str("New walker"))
  {
  }

  /** Running the migration again changes nothing. */
  lemma MigratePrefsIdempotent(p: Value)
    ensures MigratePrefs(MigratePrefs(p)) == MigratePrefs(p)
  {
    var r := MigratePrefs(p);
    assert "walkerTime" in r.fields;
    assert !LegacyPrefs(r);
    var s := MigratePrefs(r);
    assert s.fields.Keys == r.fields.Keys;
  }

  /** `init` on the profile read at load time: the list and the dog details
      default to empty ones, the preferences are migrated and a falsy avatar
      becomes the empty string. */
  function Initialized(state: map<string, Value>): (r: map<string, Value>)
    ensures r.Keys == state.Keys + {"savedLocations", "dogDetails", "prefs", "avatar"}
  {
    var s1 := state["savedLocations" := Or(Get(state, "savedLocations"), Arr([]))];
    var s2 := s1["dogDetails" := Or(Get(s1, "dogDetails"), Obj(map[]))];
    var s3 := s2["prefs" := MigratePrefs(Get(s2, "prefs"))];
    if Truthy(Get(s3, "avatar")) then s3 else s3["avatar" := Str("")]
  }

  /** After `init` the list and the dog details are present, the preferences
      are an object with all three fields set, and keys `init` does not touch
      are as read. */
  lemma InitializedShape(state: map<string, Value>)
    ensures var r := Initialized(state);
      && Truthy(r["savedLocations"]) && Truthy(r["dogDetails"])
      && r["prefs"] == MigratePrefs(Get(state, "prefs"))
      && (Truthy(Get(state, "savedLocations")) ==> r["savedLocations"] == state["savedLocations"])
      && (Truthy(Get(state, "dogDetails")) ==> r["dogDetails"] == state["dogDetails"])
      && (Truthy(Get(state, "avatar")) ==> r["avatar"] == state["avatar"])
      && (!Truthy(Get(state, "avatar")) ==> r["avatar"] == Str(""))
      && (forall k :: k in state && k !in {"savedLocations", "dogDetails", "prefs", "avatar"} ==> r[k] == state[k])
  {
  }

  /** Starting from nothing stored, the page shows exactly the defaults. */
  lemma FreshProfile(store: Store)
    requires LsKey !in store
    ensures Initialized(ReadState(store)) == Defaults
  {
    var r := Initialized(Defaults);
    assert r.Keys == Defaults.Keys;
    assert !LegacyPrefs(Obj(DefaultPrefs));
    assert MigratePrefs(Obj(DefaultPrefs)).fields == DefaultPrefs;
  }

  // ---- preference labels ---------------------------------------------------

  /** The property name a stored preference value looks up in a label table:
      a string is its own name, and an array of one string or nested array is
      named like that element. `None` stands for every other name (digits,
      "true", "null", "undefined", "[object Object]", names with a comma or
      the empty name), none of which is in any table. */
  function KeyOf(v: Value): Option<string> {
    match v
    case Str(s) => Some(s)
    case Arr(items) => if |items| == 1 && (items[0].Str? || items[0].Arr?) then KeyOf(items[0]) else None
    case _ => None
  }

  const WalkerLabels: map<string, string> := map["Morning" := "Morning walker", "Evening" := "Evening walker"]
  const SizeLabels: map<string, string> := map["Small" := "Small buddies", "Large" := "Large buddies"]
  const ExperienceLabels: map<string, string> := map["New walker" := "New walker", "Experienced" := "Experienced"]

  /** `TABLE[value] || TABLE[fallback]`; every label is non-empty, so a hit
      is always taken. */
  function Label(table: map<string, string>, v: Value, fallback: string): string
    requires fallback in table
  {
    var k := KeyOf(v);
    if k.Some? && k.value in table then table[k.value] else table[fallback]
  }

  /** The walker-time label: "Evening walker" exactly for a stored "Evening",
      "Morning walker" for anything else. */
  function WalkerText(prefs: Value): (r: string)
    ensures r == "Evening walker" <==> KeyOf(Prop(prefs, "walkerTime")) == Some("Evening")
    ensures r == "Morning walker" <==> KeyOf(Prop(prefs, "walkerTime")) != Some("Evening")
  {
    Label(WalkerLabels, Prop(prefs, "walkerTime"), "Morning")
  }

  /** The dog-size label: "Large buddies" exactly for a stored "Large",
      "Small buddies" for anything else. */
  function SizeText(prefs: Value): (r: string)
    ensures r == "Large buddies" <==> KeyOf(Prop(prefs, "dogSize")) == Some("Large")
    ensures r == "Small buddies" <==> KeyOf(Prop(prefs, "dogSize")) != Some("Large")
  {
    Label(SizeLabels, Prop(prefs, "dogSize"), "Small")
  }

  /** The experience label: "Experienced" exactly for a stored "Experienced",
      "New walker" for anything else. */
  function ExperienceText(prefs: Value): (r: string)
    ensures r == "Experienced" <==> KeyOf(Prop(prefs, "experience")) == Some("Experienced")
    ensures r == "New walker" <==> KeyOf(Prop(prefs, "experience")) != Some("Experienced")
  {
    Label(ExperienceLabels, Prop(prefs, "experience"), "New walker")
  }

  // ---- editing -------------------------------------------------------------

  /** `s.trim() || fallback` for a text field. */
  function Entered(raw: string, fallback: string): (r: string)
    requires fallback != ""
    ensures r != ""
    ensures Trim(raw) != "" ==> r == Trim(raw)
    ensures Trim(raw) == "" ==> r == fallback
  {
    var t := Trim(raw);
    if t != "" then t else fallback
  }

  /** A select's `value || fallback`. */
  function Chosen(value: string, fallback: string): (r: string)
    requires fallback != ""
    ensures r != "" && (value != "" ==> r == value)
    ensures value == "" ==> r == fallback
  {
    if value != "" then value else fallback
  }

  /** The object `saveLocationFromModal` stores; the rating is always 0. */
  function LocationItem(name: string, address: string, tags: string): Value {
    Obj(map["name" := Str(name), "address" := Str(address), "tags" := Str(tags), "rating" := Num(0.0)])
  }

  /** The property name `String(i)` of an integer index. */
  function IntKey(i: int): string {
    if i >= 0 then NatToDecimal(i) else "-" + NatToDecimal(-i)
  }

  /** The holes an assignment past the end leaves; `JSON.stringify` writes
      them as `null`. */
  function Nulls(n: nat): (r: seq<Value>)
    ensures |r| == n && forall i :: 0 <= i < n ==> r[i] == Null
  {
    seq(n, _ => Null)
  }

  /** The section after `push(item)` (no index) or `section[index] = item`, as
      it reads back from storage; `None` when the statement throws (no `push`
      on a non-array, or an index into `null`/`undefined`). A negative index
      on an array is a named property `JSON.stringify` drops; an assignment
      into a string, number or boolean is ignored. */
  function Placed(target: Value, index: Option<int>, item: Value): Option<Value> {
    match index
    case None => if target.Arr? then Some(Arr(target.items + [item])) else None
    case Some(i) =>
      if target.Null? || target.Undefined? then None
      else if target.Arr? then
        if 0 <= i < |target.items| then Some(Arr(target.items[i := item]))
        else if i >= |target.items| then Some(Arr(target.items + Nulls(i - |target.items|) + [item]))
        else Some(target)
      else if target.Obj? then Some(Obj(target.fields[IntKey(i) := item]))
      else Some(target)
  }

  /** The profile `saveLocationFromModal(section)` saves, or `None` when it
      saves nothing: the trimmed name is empty, or the update throws. */
  function SavedLocation(state: map<string, Value>, section: string, name: string, address: string,
                         tags: string, index: Option<int>): Option<map<string, Value>>
  {
    var n := Trim(name);
    if n == "" then None
    else
      match Placed(Get(state, section), index, LocationItem(n, Trim(address), Trim(tags)))
      case None => None
      case Some(t) => Some(state[section := t])
  }

  /** A name that trims to nothing saves nothing. */
  lemma SaveNeedsName(state: map<string, Value>, section: string, name: string, address: string,
                      tags: string, index: Option<int>)
    ensures SavedLocation(state, section, name, address, tags, index).None? <==>
      Trim(name) == "" || Placed(Get(state, section), index, LocationItem(Trim(name), Trim(address), Trim(tags))).None?
  {
  }

  /** Creating a location on a list appends exactly the trimmed item and
      changes nothing else. */
  lemma SaveAppends(state: map<string, Value>, section: string, name: string, address: string, tags: string)
    requires Trim(name) != "" && Get(state, section).Arr?
    ensures var r := SavedLocation(state, section, name, address, tags, None);
      var before := Get(state, section).items;
      && r.Some? && section in r.value && r.value[section].Arr?
      && r.value[section].items == before + [LocationItem(Trim(name), Trim(address), Trim(tags))]
      && |r.value[section].items| == |before| + 1
      && (forall k :: k in state && k != section ==> k in r.value && r.value[k] == state[k])
  {
  }

  /** Editing the location at an index of the list replaces that item only:
      the length and every other item stay as they were. */
  lemma SaveReplaces(state: map<string, Value>, section: string, name: string, address: string, tags: string, i: int)
    requires Trim(name) != "" && Get(state, section).Arr? && 0 <= i < |Get(state, section).items|
    ensures var r := SavedLocation(state, section, name, address, tags, Some(i));
      var before := Get(state, section).items;
      && r.Some? && section in r.value && r.value[section].Arr?
      && |r.value[section].items| == |before|
      && r.value[section].items[i] == LocationItem(Trim(name), Trim(address), Trim(tags))
      && (forall j :: 0 <= j < |before| && j != i ==> r.value[section].items[j] == before[j])
      && (forall k :: k in state && k != section ==> k in r.value && r.value[k] == state[k])
  {
    var item := LocationItem(Trim(name), Trim(address), Trim(tags));
    var before := Get(state, section).items;
    assert Placed(Get(state, section), Some(i), item) == Some(Arr(before[i := item]));
  }

  /** Editing at an index past the end of the list grows it to that index:
      the old items stay in front, the gap is filled with nulls (the holes
      `JSON.stringify` writes as null), and the item lands at the index. */
  lemma SavePastEnd(state: map<string, Value>, section: string, name: string, address: string, tags: string, i: int)
    requires Trim(name) != "" && Get(state, section).Arr? && i >= |Get(state, section).items|
    ensures var r := SavedLocation(state, section, name, address, tags, Some(i));
      var before := Get(state, section).items;
      var item := LocationItem(Trim(name), Trim(address), Trim(tags));
      && r.Some? && section in r.value && r.value[section].Arr?
      && r.value[section].items == before + Nulls(i - |before|) + [item]
      && |r.value[section].items| == i + 1
      && r.value[section].items[i] == item
      && r.value[section].items[..|before|] == before
      && (forall j :: |before| <= j < i ==> r.value[section].items[j] == Null)
      && (forall k :: k in state && k != section ==> k in r.value && r.value[k] == state[k])
  {
    var item := LocationItem(Trim(name), Trim(address), Trim(tags));
    var before := Get(state, section).items;
    var pad := Nulls(i - |before|);
    assert Placed(Get(state, section), Some(i), item) == Some(Arr(before + pad + [item]));
    PaddedShape(before, pad, item);
  }

  /** `before + pad + [x]` starts with `before`, continues with `pad` and ends
      with `x`. */
  lemma PaddedShape<T>(before: seq<T>, pad: seq<T>, x: T)
    ensures var r := before + pad + [x];
      && |r| == |before| + |pad| + 1
      && r[|before| + |pad|] == x
      && r[..|before|] == before
      && (forall j :: |before| <= j < |before| + |pad| ==> r[j] == pad[j - |before|])
  {
    var r := before + pad + [x];
    assert r[..|before|] == before;
  }

  /** `state.prefs` after `savePrefsFromModal`. */
  function SavedPrefs(fields: map<string, Value>, walker: string, size: string, experience: string): map<string, Value> {
    fields["walkerTime" := Str(Chosen(walker, "Morning"))]["dogSize" := Str(Chosen(size, "Small"))]
      ["experience" := Str(Chosen(experience, "New walker"))]
  }

  /** After saving preferences the page shows the label of what was chosen,
      and the default label for an empty choice. */
  lemma SavedPrefsLabels(fields: map<string, Value>, walker: string, size: string, experience: string)
    ensures var p := Obj(SavedPrefs(fields, walker, size, experience));
      && (WalkerText(p) == "Evening walker" <==> walker == "Evening")
      && (SizeText(p) == "Large buddies" <==> size == "Large")
      && (ExperienceText(p) == "Experienced" <==> experience == "Experienced")
  {
  }

  /** The `push` or the index assignment leaves an object section an object. */
  lemma PlacedKeepsObject(target: Value, index: Option<int>, item: Value)
    requires target.Obj?
    ensures Placed(target, index, item).Some? ==> Placed(target, index, item).value.Obj?
  {
  }

  /** The delete button of the favourite at `i` carries `String(i)` in its
      `data-index`; the click handler's `parseInt` reads back `i`, so the
      favourites lose exactly that park and keep the others in order. */
  lemma DeleteButtonTargetsItsPark(store: Store, i: nat)
    requires LoadFavorites(store).Arr? && i < |LoadFavorites(store).items|
    ensures ParseInt(NatToDecimal(i)) == Some(i)
    ensures var before := LoadFavorites(store).items;
      var after := LoadFavorites(RemoveFavorite(store, ParseInt(NatToDecimal(i)).value));
      after.Arr? && after.items == before[..i] + before[i + 1..]
  {
    ParseIntOfDecimal(i);
    RemoveFavoriteAt(store, i);
  }

  /** The page: its `state` object and `localStorage`. */
  class ProfilePage {
    /** `state` */
    var state: map<string, Value>
    /** `localStorage` */
    var storage: Store

    /** What every handler leaves behind: the profile holds the default keys,
        its preferences are an object, and storage holds exactly the profile
        (each handler ends with `writeState` and `refreshUI` reads it back). */
    ghost predicate Valid()
      reads this
    {
      && Defaults.Keys <= state.Keys
      && state["prefs"].Obj?
      && LsKey in storage && storage[LsKey] == Json(Obj(state))
    }

    /** Loading the page: `readState()`, then `init`, its `writeState` and the
        re-read in `refreshUI`. */
    constructor (store: Store)
      ensures state == Initialized(ReadState(store))
      ensures storage == WriteState(store, state)
      ensures Valid()
    {
      var s := ReadState(store);
      s := s["savedLocations" := Or(Get(s, "savedLocations"), Arr([]))];
      s := s["dogDetails" := Or(Get(s, "dogDetails"), Obj(map[]))];
      s := s["prefs" := MigratePrefs(Get(s, "prefs"))];
      if !Truthy(Get(s, "avatar")) {
        s := s["avatar" := Str("")];
      }
      var written := WriteState(store, s);
      ReadAfterWrite(store, s);
      storage := written;
      state := ReadState(written);
    }

    /** `writeState(state); refreshUI()` after `state` was changed to `s`. */
    method Commit(s: map<string, Value>)
      requires Defaults.Keys <= s.Keys && s["prefs"].Obj?
      modifies this
      ensures storage == WriteState(old(storage), s) && state == s
      ensures Valid()
    {
      ReadAfterWrite(storage, s);
      storage := WriteState(storage, s);
      state := ReadState(storage);
    }

    /** `saveLocationFromModal(section)` with the three field values and the
        index being edited (`None` for a new location). */
    method SaveLocationFromModal(section: string, name: string, address: string, tags: string, index: Option<int>)
      requires Valid()
      modifies this
      ensures Valid()
      ensures var r := SavedLocation(old(state), section, name, address, tags, index);
        && (r.None? ==> state == old(state) && storage == old(storage))
        && (r.Some? ==> state == r.value && storage == WriteState(old(storage), state))
    {
      var n, a, t := Trim(name), Trim(address), Trim(tags);
      if n == "" {
        return;
      }
      var placed := Placed(Get(state, section), index, LocationItem(n, a, t));
      if placed.None? {
        return;
      }
      if section == "prefs" {
        PlacedKeepsObject(Get(state, section), index, LocationItem(n, a, t));
      }
      Commit(state[section := placed.value]);
    }

    /** `handleDelete(section, index)` once the confirmation has answered:
        the favourites lose one park; any other section is spliced in the
        profile, and one that is not an array throws before anything is
        written. */
    method HandleDelete(confirmed: bool, section: string, index: int)
      requires Valid()
      modifies this
      ensures Valid()
      ensures !confirmed ==> state == old(state) && storage == old(storage)
      ensures confirmed && section == "savedLocations" ==>
        state == old(state) && storage == RemoveFavorite(old(storage), index)
      ensures confirmed && section != "savedLocations" && Get(old(state), section).Arr? ==>
        state == old(state)[section := Arr(Splice1(Get(old(state), section).items, index))]
        && storage == WriteState(old(storage), state)
      ensures confirmed && section != "savedLocations" && !Get(old(state), section).Arr? ==>
        state == old(state) && storage == old(storage)
    {
      if !confirmed {
        return;
      }
      if section == "savedLocations" {
        assert FavoritesKey != LsKey by { assert FavoritesKey[0] != LsKey[0]; }
        storage := RemoveFavorite(storage, index);
        ReadStored(storage, state);
        state := ReadState(storage);
      } else {
        var target := Get(state, section);
        if !target.Arr? {
          return;
        }
        Commit(state[section := Arr(Splice1(target.items, index))]);
      }
    }

    /** `saveUserIdFromModal()` with the two field values. */
    method SaveUserIdFromModal(userId: string, displayName: string)
      requires Valid()
      modifies this
      ensures Valid()
      ensures state == old(state)["userId" := Str(Entered(userId, "guest"))]["displayName" := Str(Entered(displayName, "Guest"))]
      ensures storage == WriteState(old(storage), state)
    {
      var uid := Entered(userId, "guest");
      var dname := Entered(displayName, "Guest");
      Commit(state["userId" := Str(uid)]["displayName" := Str(dname)]);
    }

    /** `savePrefsFromModal()` with the three selected values. */
    method SavePrefsFromModal(walker: string, size: string, experience: string)
      requires Valid()
      modifies this
      ensures Valid()
      ensures state == old(state)["prefs" := Obj(SavedPrefs(old(state)["prefs"].fields, walker, size, experience))]
      ensures storage == WriteState(old(storage), state)
    {
      var prefs := state["prefs"].fields;
      prefs := prefs["walkerTime" := Str(Chosen(walker, "Morning"))];
      prefs := prefs["dogSize" := Str(Chosen(size, "Small"))];
      prefs := prefs["experience" := Str(Chosen(experience, "New walker"))];
      Commit(state["prefs" := Obj(prefs)]);
    }

    /** `saveDogFromModal()` with the four field values, each trimmed. */
    method SaveDogFromModal(name: string, breed: string, age: string, notes: string)
      requires Valid()
      modifies this
      ensures Valid()
      ensures state == old(state)["dogDetails" := Obj(map["name" := Str(Trim(name)), "breed" := Str(Trim(breed)),
                                                        "age" := Str(Trim(age)), "notes" := Str(Trim(notes))])]
      ensures storage == WriteState(old(storage), state)
    {
      var details := map["name" := Str(Trim(name)), "breed" := Str(Trim(breed)), "age" := Str(Trim(age)), "notes" := Str(Trim(notes))];
      Commit(state["dogDetails" := Obj(details)]);
    }
  }

  // ---- stars ---------------------------------------------------------------

  const FilledStar: char := '\U{2605}'
  const EmptyStar: char := '\U{2606}'
  const StarOpen: string := "<span class=\"star\">"
  const StarClose: string := "</span>"

  predicate IsStar(c: char) {
    c == FilledStar || c == EmptyStar
  }

  /** `i <= n` for a number `i` and any value `n`: `n` is converted with
      `Number`, and a comparison with NaN is false. */
  predicate AtMost(i: int, n: Value) {
    match ToNumber(n)
    case NaN => false
    case Finite(x) => i as real <= x
  }

  /** One `<span class="star">…</span>`. */
  function StarSpan(filled: bool): string {
    StarOpen + [if filled then FilledStar else EmptyStar] + StarClose
  }

  /** One span per flag, in order. */
  function Spans(flags: seq<bool>): string {
    if flags == [] then "" else Spans(flags[..|flags| - 1]) + StarSpan(flags[|flags| - 1])
  }

  /** The star characters of a text, in order. */
  function Glyphs(s: string): (g: seq<char>)
    ensures forall i :: 0 <= i < |g| ==> IsStar(g[i])
  {
    if s == [] then []
    else Glyphs(s[..|s| - 1]) + (if IsStar(s[|s| - 1]) then [s[|s| - 1]] else [])
  }

  lemma {:induction false} GlyphsAppend(a: string, b: string)
    ensures Glyphs(a + b) == Glyphs(a) + Glyphs(b)
    decreases |b|
  {
    if b == [] {
      assert a + b == a;
    } else {
      var b' := b[..|b| - 1];
      assert (a + b)[..|a + b| - 1] == a + b';
      GlyphsAppend(a, b');
    }
  }

  lemma {:induction false} NoGlyphs(s: string)
    requires forall i :: 0 <= i < |s| ==> !IsStar(s[i])
    ensures Glyphs(s) == []
  {
    if s != [] {
      NoGlyphs(s[..|s| - 1]);
    }
  }

  /** Each span carries exactly one star, filled or not as asked. */
  lemma SpanGlyph(filled: bool)
    ensures Glyphs(StarSpan(filled)) == [if filled then FilledStar else EmptyStar]
  {
    var c: char := if filled then FilledStar else EmptyStar;
    NoGlyphs(StarOpen);
    NoGlyphs(StarClose);
    GlyphsAppend(StarOpen + [c], StarClose);
    GlyphsAppend(StarOpen, [c]);
    assert Glyphs([c]) == Glyphs([]) + [c];
  }

  /** The spans show one star per flag, filled exactly where the flag is set. */
  lemma {:induction false} SpansGlyphs(flags: seq<bool>)
    ensures var g := Glyphs(Spans(flags));
      |g| == |flags| && forall i :: 0 <= i < |flags| ==> (g[i] == FilledStar <==> flags[i])
  {
    if flags != [] {
      var init, last := flags[..|flags| - 1], flags[|flags| - 1];
      SpansGlyphs(init);
      GlyphsAppend(Spans(init), StarSpan(last));
      SpanGlyph(last);
      var g0 := Glyphs(Spans(init));
      var g := g0 + [if last then FilledStar else EmptyStar];
      assert Glyphs(Spans(flags)) == g;
      forall i | 0 <= i < |flags| ensures g[i] == FilledStar <==> flags[i] {
        if i < |init| {
          assert g[i] == g0[i] && flags[i] == init[i];
        }
      }
    }
  }

  /** How many stars `renderStars` draws. */
  const StarCount: nat := 5

  /** Which of the stars `1` to `StarCount` are filled for `n`. */
  function Filled(n: Value): (f: seq<bool>)
    ensures |f| == StarCount && forall i :: 1 <= i <= StarCount ==> f[i - 1] == AtMost(i, n)
  {
    seq(StarCount, i requires 0 <= i < StarCount => AtMost(i + 1, n))
  }

  /** `renderStars(n)`: `StarCount` stars, star `i` filled exactly when
      `i <= n`. */
  method RenderStars(n: Value) returns (s: string)
    ensures s == Spans(Filled(n))
    ensures var g := Glyphs(s);
      |g| == StarCount && forall i :: 1 <= i <= StarCount ==> (g[i - 1] == FilledStar <==> AtMost(i, n))
  {
    ghost var f := Filled(n);
    s := "";
    var i := 1;
    while i <= StarCount
      invariant 1 <= i <= StarCount + 1
      invariant s == Spans(f[..i - 1])
    {
      assert f[..i][..i - 1] == f[..i - 1];
      s := s + StarSpan(AtMost(i, n));
      i := i + 1;
    }
    assert f[..StarCount] == f;
    SpansGlyphs(f);
  }

  // ---- escaping ------------------------------------------------------------

  /** `s.replaceAll(c, rep)` for a one-character pattern. */
  function ReplaceAll(s: string, c: char, rep: string): string {
    if s == [] then [] else (if s[0] == c then rep else [s[0]]) + ReplaceAll(s[1..], c, rep)
  }

  lemma {:induction false} ReplaceAllAppend(a: string, b: string, c: char, rep: string)
    ensures ReplaceAll(a + b, c, rep) == ReplaceAll(a, c, rep) + ReplaceAll(b, c, rep)
  {
    if a == [] {
      assert a + b == b;
    } else {
      assert (a + b)[1..] == a[1..] + b;
      ReplaceAllAppend(a[1..], b, c, rep);
    }
  }

  lemma {:induction false} ReplaceAllAbsent(s: string, c: char, rep: string)
    requires forall i :: 0 <= i < |s| ==> s[i] != c
    ensures ReplaceAll(s, c, rep) == s
  {
    if s != [] {
      ReplaceAllAbsent(s[1..], c, rep);
    }
  }

  /** The four `replaceAll` calls, `&` first. */
  function Replaced(s: string): string {
    ReplaceAll(ReplaceAll(ReplaceAll(ReplaceAll(s, '&', "&amp;"), '<', "&lt;"), '>', "&gt;"), '"', "&quot;")
  }

  /** The entity for one character; the apostrophe is left as it is. */
  function Entity(c: char): string {
    if c == '&' then "&amp;"
    else if c == '<' then "&lt;"
    else if c == '>' then "&gt;"
    else if c == '"' then "&quot;"
    else [c]
  }

  /** Each character replaced by its entity. */
  function Substituted(s: string): (r: string)
    ensures forall i :: 0 <= i < |r| ==> r[i] != '<' && r[i] != '>' && r[i] != '"'
  {
    if s == [] then []
    else
      var head, rest := Entity(s[0]), Substituted(s[1..]);
      assert forall i :: 0 <= i < |head| ==> head[i] != '<' && head[i] != '>' && head[i] != '"';
      head + rest
  }

  lemma ReplacedChar(c: char)
    ensures Replaced([c]) == Entity(c)
  {
    var e := Entity(c);
    assert ReplaceAll([c], '&', "&amp;") == (if c == '&' then "&amp;" else [c]);
    var s1 := ReplaceAll([c], '&', "&amp;");
    if c != '<' { ReplaceAllAbsent(s1, '<', "&lt;"); }
    else { assert ReplaceAll(s1, '<', "&lt;") == "&lt;"; }
    var s2 := ReplaceAll(s1, '<', "&lt;");
    if c != '>' { ReplaceAllAbsent(s2, '>', "&gt;"); }
    else { assert ReplaceAll(s2, '>', "&gt;") == "&gt;"; }
    var s3 := ReplaceAll(s2, '>', "&gt;");
    if c != '"' { ReplaceAllAbsent(s3, '"', "&quot;"); }
    else { assert ReplaceAll(s3, '"', "&quot;") == "&quot;"; }
  }

  lemma ReplacedAppend(a: string, b: string)
    ensures Replaced(a + b) == Replaced(a) + Replaced(b)
  {
    ReplaceAllAppend(a, b, '&', "&amp;");
    var a1, b1 := ReplaceAll(a, '&', "&amp;"), ReplaceAll(b, '&', "&amp;");
    ReplaceAllAppend(a1, b1, '<', "&lt;");
    var a2, b2 := ReplaceAll(a1, '<', "&lt;"), ReplaceAll(b1, '<', "&lt;");
    ReplaceAllAppend(a2, b2, '>', "&gt;");
    var a3, b3 := ReplaceAll(a2, '>', "&gt;"), ReplaceAll(b2, '>', "&gt;");
    ReplaceAllAppend(a3, b3, '"', "&quot;");
  }

  /** Running the four replacements one after the other, `&` first, is the
      same as replacing every character by its entity at once: no entity the
      earlier passes write is touched again. */
  lemma {:induction false} ReplacedSubstitutes(s: string)
    ensures Replaced(s) == Substituted(s)
  {
    if s != [] {
      assert s == [s[0]] + s[1..];
      ReplacedAppend([s[0]], s[1..]);
      ReplacedChar(s[0]);
      ReplacedSubstitutes(s[1..]);
    }
  }

  /** `escapeHtml(s)` on the profile page: a falsy value gives the empty
      text; a string is escaped; any other value has no `replaceAll` and the
      call throws (`None`). */
  function EscapeHtml(v: Value): (r: Option<string>)
    ensures !Truthy(v) ==> r == Some("")
    ensures Truthy(v) ==> (r.Some? <==> v.Str?)
    ensures v.Str? ==> r == Some(Substituted(v.s))
    ensures r.Some? ==> forall i :: 0 <= i < |r.value| ==> r.value[i] != '<' && r.value[i] != '>' && r.value[i] != '"'
  {
    if !Truthy(v) then Some("")
    else if v.Str? then
      ReplacedSubstitutes(v.s);
      Some(Replaced(v.s))
    else None
  }

  /** Both pages escape a text without apostrophes the same way. */
  lemma {:induction false} SameAsMapWithoutApostrophe(s: string)
    requires forall i :: 0 <= i < |s| ==> s[i] != '\''
    ensures Substituted(s) == MapApp.EscapeHtml(s)
  {
    if s != [] {
      SameAsMapWithoutApostrophe(s[1..]);
    }
  }

  /** The profile page lets an apostrophe through raw, where the map page
      writes `&#39;`. */
  lemma {:induction false} ApostropheKept(s: string, i: nat)
    requires i < |s| && s[i] == '\''
    ensures exists j :: 0 <= j < |Substituted(s)| && Substituted(s)[j] == '\''
    ensures forall j :: 0 <= j < |MapApp.EscapeHtml(s)| ==> MapApp.EscapeHtml(s)[j] != '\''
  {
    if i == 0 {
      assert Substituted(s)[0] == '\'';
    } else {
      ApostropheKept(s[1..], i - 1);
      var j :| 0 <= j < |Substituted(s[1..])| && Substituted(s[1..])[j] == '\'';
      assert Substituted(s)[|Entity(s[0])| + j] == '\'';
    }
  }

  lemma UnescapeEntity(c: char, rest: string)
    ensures MapApp.UnescapeHtml(Entity(c) + rest) == [c] + MapApp.UnescapeHtml(rest)
  {
    var e := Entity(c);
    var t := e + rest;
    assert t[|e|..] == rest;
    assert forall i :: 0 <= i < |e| ==> t[i] == e[i];
  }

  /** The escaped text reads back, in the browser, as the text itself. */
  lemma {:induction false} EscapeRoundTrip(s: string)
    ensures MapApp.UnescapeHtml(Substituted(s)) == s
  {
    if s != [] {
      EscapeRoundTrip(s[1..]);
      UnescapeEntity(s[0], Substituted(s[1..]));
      assert s == [s[0]] + s[1..];
    }
  }
}
