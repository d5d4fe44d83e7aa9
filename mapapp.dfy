/** The state script.js keeps at module level (`allParks`, `currentFilters`)
    together with the browser storage it writes, and the operations that
    change it: loading the two council datasets, switching a top filter,
    deleting a favourite. Also the two text helpers the page uses on user
    input: `escapeHtml` and the geocoding query rule. */
module MapApp {
  import opened Js
  import opened Storage
  import opened Normalize
  import opened Ranking

  // ---- loading the datasets ------------------------------------------------

  /** `fetchAPIData(url)` once the body has arrived: `None` when the request
      failed, the status was not ok, the body was not JSON or reading the
      envelope threw; `body` is the parsed response. */
  function FetchedRecords(body: Option<Value>): Option<Value> {
    if body.None? then None else EnvelopeRecords(body.value)
  }

  /** What `loadParkData` assigns to `allParks`: the general parks followed by
      the off-leash areas, or `None` when either request failed or either
      record list has no `map` (it is not an array) and the `catch` runs. */
  function LoadedParks(parksBody: Option<Value>, offLeashBody: Option<Value>): (r: Option<seq<Park>>)
    ensures r.Some? <==>
      && FetchedRecords(parksBody).Some? && FetchedRecords(parksBody).value.Arr?
      && FetchedRecords(offLeashBody).Some? && FetchedRecords(offLeashBody).value.Arr?
    ensures r.Some? ==>
      r.value == BuiltParks(FetchedRecords(parksBody).value.items, false)
               + BuiltParks(FetchedRecords(offLeashBody).value.items, true)
  {
    var a, b := FetchedRecords(parksBody), FetchedRecords(offLeashBody);
    if a.Some? && a.value.Arr? && b.Some? && b.value.Arr? then
      Some(BuiltParks(a.value.items, false) + BuiltParks(b.value.items, true))
    else None
  }

  /** A successful load holds parks inside the Brisbane box only, first the
      general parks and then the off-leash areas. */
  lemma LoadedParksShape(parksBody: Option<Value>, offLeashBody: Option<Value>)
    requires LoadedParks(parksBody, offLeashBody).Some?
    ensures var all := LoadedParks(parksBody, offLeashBody).value;
      var general := FetchedRecords(parksBody).value.items;
      var offLeash := FetchedRecords(offLeashBody).value.items;
      var n := |BuiltParks(general, false)|;
      && n <= |all| && |all| - n <= |offLeash| && n <= |general|
      && (forall i :: 0 <= i < |all| ==> InBrisbane(all[i]))
      && (forall i :: 0 <= i < n ==> !all[i].isOffLeash)
      && (forall i :: n <= i < |all| ==> all[i].isOffLeash)
  {
    var all := LoadedParks(parksBody, offLeashBody).value;
    var g := BuiltParks(FetchedRecords(parksBody).value.items, false);
    var o := BuiltParks(FetchedRecords(offLeashBody).value.items, true);
    assert all == g + o;
    forall i | 0 <= i < |all| ensures InBrisbane(all[i]) && (i < |g| <==> !all[i].isOffLeash) {
      if i < |g| { assert all[i] == g[i] && g[i] in g; } else { assert all[i] == o[i - |g|] && o[i - |g|] in o; }
    }
  }

  /** `p` is what `buildPark` makes of one of `records`. */
  ghost predicate MadeFrom(records: seq<Value>, isOffLeash: bool, p: Park) {
    exists j :: 0 <= j < |records| && BuildPark(records[j], j, isOffLeash) == Some(p)
  }

  /** The park at position `i` of a built dataset, traced back to its record. */
  lemma BuiltIndexOrigin(records: seq<Value>, isOffLeash: bool, parks: seq<Park>, i: nat, p: Park)
    requires parks == BuiltParks(records, isOffLeash) && i < |parks| && p == parks[i]
    ensures MadeFrom(records, isOffLeash, p)
  {
    assert p in parks;
    BuiltFromOrigin(records, 0, isOffLeash, p);
  }

  /** The parks of two built datasets, put one after the other, each trace
      back to a record of their own dataset. */
  lemma ConcatOrigin(general: seq<Value>, offLeash: seq<Value>, all: seq<Park>)
    requires all == BuiltParks(general, false) + BuiltParks(offLeash, true)
    ensures var n := |BuiltParks(general, false)|;
      && (forall i :: 0 <= i < n ==> MadeFrom(general, false, all[i]))
      && (forall i :: n <= i < |all| ==> MadeFrom(offLeash, true, all[i]))
  {
    var g, o := BuiltParks(general, false), BuiltParks(offLeash, true);
    forall i | 0 <= i < |g| ensures MadeFrom(general, false, all[i]) {
      BuiltIndexOrigin(general, false, g, i, all[i]);
    }
    forall i | |g| <= i < |all| ensures MadeFrom(offLeash, true, all[i]) {
      BuiltIndexOrigin(offLeash, true, o, i - |g|, all[i]);
    }
  }

  /** Each loaded park is what `buildPark` made of one record of its dataset. */
  lemma LoadedParksOrigin(parksBody: Option<Value>, offLeashBody: Option<Value>)
    requires LoadedParks(parksBody, offLeashBody).Some?
    ensures var all := LoadedParks(parksBody, offLeashBody).value;
      var general := FetchedRecords(parksBody).value.items;
      var offLeash := FetchedRecords(offLeashBody).value.items;
      var n := |BuiltParks(general, false)|;
      && (forall i :: 0 <= i < n ==> MadeFrom(general, false, all[i]))
      && (forall i :: n <= i < |all| ==> MadeFrom(offLeash, true, all[i]))
  {
    ConcatOrigin(FetchedRecords(parksBody).value.items, FetchedRecords(offLeashBody).value.items,
                 LoadedParks(parksBody, offLeashBody).value);
  }

  // ---- the top filters -----------------------------------------------------

  /** `filters` with each of `keys` that is still `undefined` set to false. */
  function Completed(filters: Filters, keys: seq<string>): (r: Filters)
    ensures filters.Keys <= r.Keys
  {
    if keys == [] then filters
    else
      var g := Completed(filters, keys[..|keys| - 1]);
      var k := keys[|keys| - 1];
      if k in g then g else g[k := false]
  }

  /** Completing only adds keys set to false: every entry already present keeps
      its value, and afterwards each of `keys` is defined. */
  lemma {:induction false} CompletedKeeps(filters: Filters, keys: seq<string>)
    ensures forall k :: k in filters ==> Completed(filters, keys)[k] == filters[k]
    ensures forall k :: k in Completed(filters, keys) && k !in filters ==> !Completed(filters, keys)[k] && k in keys
    ensures forall i :: 0 <= i < |keys| ==> keys[i] in Completed(filters, keys)
  {
    if keys != [] {
      var init := keys[..|keys| - 1];
      CompletedKeeps(filters, init);
      assert forall i :: 0 <= i < |init| ==> init[i] == keys[i];
    }
  }

  /** The filters after `toggleTopFilter(key)` for a key of FILTER_KEYS. */
  function Toggled(filters: Filters, key: string): Filters {
    var g := Completed(filters, FilterKeys);
    g[key := !Active(g, key)]
  }

  /** Toggling a filter key flips that filter, leaves every other filter as it
      was, and leaves every key of FILTER_KEYS defined. */
  lemma ToggledFlipsOnlyKey(filters: Filters, key: string)
    ensures Active(Toggled(filters, key), key) == !Active(filters, key)
    ensures forall k :: k != key ==> Active(Toggled(filters, key), k) == Active(filters, k)
    ensures forall k :: k != key && k in filters ==> k in Toggled(filters, key) && Toggled(filters, key)[k] == filters[k]
    ensures forall i :: 0 <= i < |FilterKeys| ==> FilterKeys[i] in Toggled(filters, key)
  {
    CompletedKeeps(filters, FilterKeys);
  }

  /** Toggling the same key twice switches the same filters on as before. */
  lemma ToggleTwice(filters: Filters, key: string)
    ensures forall k :: Active(Toggled(Toggled(filters, key), key), k) == Active(filters, k)
  {
    ToggledFlipsOnlyKey(filters, key);
    ToggledFlipsOnlyKey(Toggled(filters, key), key);
  }

  // ---- the page state ------------------------------------------------------

  class App {
    /** `allParks` */
    var allParks: seq<Park>
    /** `currentFilters` */
    var currentFilters: Filters
    /** `localStorage` */
    var storage: Store

    /** Every loaded park lies inside the Brisbane box. */
    ghost predicate Valid()
      reads this
    {
      forall i :: 0 <= i < |allParks| ==> InBrisbane(allParks[i])
    }

    /** The module-level initial values, over whatever storage the browser has. */
    constructor (store: Store)
      ensures allParks == [] && currentFilters == map[] && storage == store
      ensures Valid()
    {
      allParks := [];
      currentFilters := map[];
      storage := store;
    }

    /** `loadParkData()`, given the two parsed responses. */
    method LoadParkData(parksBody: Option<Value>, offLeashBody: Option<Value>)
      requires Valid()
      modifies this
      ensures Valid()
      ensures LoadedParks(parksBody, offLeashBody).Some? ==> allParks == LoadedParks(parksBody, offLeashBody).value
      ensures LoadedParks(parksBody, offLeashBody).None? ==> allParks == old(allParks)
      ensures currentFilters == old(currentFilters) && storage == old(storage)
    {
      var loaded := LoadedParks(parksBody, offLeashBody);
      if loaded.Some? {
        LoadedParksShape(parksBody, offLeashBody);
        allParks := loaded.value;
      }
    }

    /** `toggleTopFilter(key)`: an unknown key is ignored; otherwise every
        filter key that is still undefined is set to false, then `key` flips. */
    method ToggleTopFilter(key: string)
      requires Valid()
      modifies this
      ensures Valid()
      ensures key !in FilterKeys ==> currentFilters == old(currentFilters)
      ensures key in FilterKeys ==> currentFilters == Toggled(old(currentFilters), key)
      ensures allParks == old(allParks) && storage == old(storage)
    {
      if key !in FilterKeys {
        return;
      }
      var i := 0;
      while i < |FilterKeys|
        invariant 0 <= i <= |FilterKeys|
        invariant currentFilters == Completed(old(currentFilters), FilterKeys[..i])
        invariant allParks == old(allParks) && storage == old(storage)
      {
        assert FilterKeys[..i + 1][..i] == FilterKeys[..i];
        if FilterKeys[i] !in currentFilters {
          currentFilters := currentFilters[FilterKeys[i] := false];
        }
        i := i + 1;
      }
      assert FilterKeys[..i] == FilterKeys;
      currentFilters := currentFilters[key := !Active(currentFilters, key)];
    }

    /** `deleteFavorite(index)` once the confirm dialog has answered. */
    method DeleteFavorite(confirmed: bool, index: int)
      requires Valid()
      modifies this
      ensures Valid()
      ensures confirmed ==> storage == RemoveFavorite(old(storage), index)
      ensures !confirmed ==> storage == old(storage)
      ensures allParks == old(allParks) && currentFilters == old(currentFilters)
    {
      if confirmed {
        storage := RemoveFavorite(storage, index);
      }
    }
  }

  // ---- escaping ------------------------------------------------------------

  /** The replacement `escapeHtml` looks up for one character. */
  function EscapeChar(c: char): string {
    if c == '&' then "&amp;"
    else if c == '<' then "&lt;"
    else if c == '>' then "&gt;"
    else if c == '"' then "&quot;"
    else if c == '\'' then "&#39;"
    else [c]
  }

  /** A character the markup must not receive raw. */
  predicate Markup(c: char) {
    c == '<' || c == '>' || c == '"' || c == '\''
  }

  /** `escapeHtml(s)` for a string `s` (`String(s || '')` is `s` itself). */
  function EscapeHtml(s: string): (r: string)
    ensures |r| >= |s|
    ensures forall i :: 0 <= i < |r| ==> !Markup(r[i])
  {
    if s == [] then []
    else
      var head, rest := EscapeChar(s[0]), EscapeHtml(s[1..]);
      assert forall i :: 0 <= i < |head| ==> !Markup(head[i]);
      head + rest
  }

  /** The browser's reading of the five entities `escapeHtml` writes. */
  function UnescapeHtml(t: string): string
    decreases |t|
  {
    if t == [] then []
    else if t[0] != '&' then [t[0]] + UnescapeHtml(t[1..])
    else if |t| >= 5 && t[1] == 'a' && t[2] == 'm' && t[3] == 'p' && t[4] == ';' then "&" + UnescapeHtml(t[5..])
    else if |t| >= 4 && t[1] == 'l' && t[2] == 't' && t[3] == ';' then "<" + UnescapeHtml(t[4..])
    else if |t| >= 4 && t[1] == 'g' && t[2] == 't' && t[3] == ';' then ">" + UnescapeHtml(t[4..])
    else if |t| >= 6 && t[1] == 'q' && t[2] == 'u' && t[3] == 'o' && t[4] == 't' && t[5] == ';' then
      "\"" + UnescapeHtml(t[6..])
    else if |t| >= 5 && t[1] == '#' && t[2] == '3' && t[3] == '9' && t[4] == ';' then "'" + UnescapeHtml(t[5..])
    else [t[0]] + UnescapeHtml(t[1..])
  }

  lemma UnescapeEscapeChar(c: char, rest: string)
    ensures UnescapeHtml(EscapeChar(c) + rest) == [c] + UnescapeHtml(rest)
  {
    var e := EscapeChar(c);
    var t := e + rest;
    assert t[|e|..] == rest;
    assert forall i :: 0 <= i < |e| ==> t[i] == e[i];
  }

  /** Escaping loses nothing: the page shows exactly the text it was given. */
  lemma {:induction false} EscapeRoundTrip(s: string)
    ensures UnescapeHtml(EscapeHtml(s)) == s
  {
    if s != [] {
      EscapeRoundTrip(s[1..]);
      UnescapeEscapeChar(s[0], EscapeHtml(s[1..]));
      assert s == [s[0]] + s[1..];
    }
  }

  // ---- the geocoding query -------------------------------------------------

  const City: string := "Brisbane"
  const QuerySuffix: string := ", " + City + ", Queensland, Australia"

  /** The lower-cased address mentions "brisbane" or "qld". */
  predicate MentionsBrisbane(address: string) {
    Contains(Lower(address), "brisbane") || Contains(Lower(address), "qld")
  }

  /** The query `performGeocodingSearch` sends: the address as typed, with the
      suffix appended unless it already names the city or the state. */
  function GeocodeQuery(address: string): (q: string)
    ensures MentionsBrisbane(q)
    ensures |q| >= |address| && q[..|address|] == address
    ensures MentionsBrisbane(address) <==> q == address
  {
    if MentionsBrisbane(address) then address
    else
      SuffixMentionsBrisbane(address);
      address + QuerySuffix
  }

  lemma SuffixMentionsBrisbane(address: string)
    ensures MentionsBrisbane(address + QuerySuffix)
  {
    var x, y := address + ", ", ", Queensland, Australia";
    assert address + QuerySuffix == x + City + y;
    LowerAppend(x + City, y);
    LowerAppend(x, City);
    assert Lower(City) == "brisbane";
    ContainsAfter(Lower(x), "brisbane", Lower(y));
  }

  /** Building the query twice changes nothing the second time. */
  lemma GeocodeQueryIdempotent(address: string)
    ensures GeocodeQuery(GeocodeQuery(address)) == GeocodeQuery(address)
  {
  }
}
