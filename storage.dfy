/** The browser's `localStorage` as both pages use it: a map from key to the
    text stored under it. A text is either valid JSON, kept as the value
    `JSON.parse` gives back, or text `JSON.parse` rejects (the empty text
    included). Writing with `JSON.stringify` stores the value itself. */
module Storage {
  import opened Js

  datatype Stored = Json(value: Value) | Garbage

  type Store = map<string, Stored>

  /** The key both pages keep the saved parks under. */
  const FavoritesKey: string := "park-favorites"

  /** `JSON.parse(localStorage.getItem(FavoritesKey) || '[]')`, with a
      `catch` that falls back to `[]`. */
  function LoadFavorites(store: Store): (v: Value)
    ensures FavoritesKey !in store ==> v == Arr([])
    ensures FavoritesKey in store && store[FavoritesKey].Json? ==> v == store[FavoritesKey].value
    ensures FavoritesKey in store && store[FavoritesKey].Garbage? ==> v == Arr([])
  {
    if FavoritesKey in store && store[FavoritesKey].Json? then store[FavoritesKey].value else Arr([])
  }

  /** Where `splice(start, 1)` starts on an array of `len` elements: a negative
      `start` counts back from the end, and both ends are clamped. */
  function SpliceStart(len: nat, start: int): (k: nat)
    ensures k <= len
    ensures 0 <= start <= len ==> k == start
    ensures -(len as int) <= start < 0 ==> k == len + start
    ensures start > len ==> k == len
    ensures start < -(len as int) ==> k == 0
  {
    if start < 0 then (if len + start < 0 then 0 else len + start)
    else if start > len then len
    else start
  }

  /** The array left by `a.splice(start, 1)`. */
  function Splice1<T>(s: seq<T>, start: int): (r: seq<T>)
    ensures var k := SpliceStart(|s|, start);
      && |r| == (if k < |s| then |s| - 1 else |s|)
      && (forall i :: 0 <= i < |r| ==> r[i] == if i < k then s[i] else s[i + 1])
  {
    var k := SpliceStart(|s|, start);
    if k < |s| then s[..k] + s[k + 1..] else s
  }

  /** Putting the removed element back where it was restores the array. */
  lemma SpliceRestore<T>(s: seq<T>, i: nat)
    requires i < |s|
    ensures Splice1(s, i)[..i] + [s[i]] + Splice1(s, i)[i..] == s
    ensures multiset(Splice1(s, i)) + multiset{s[i]} == multiset(s)
  {
    var r := Splice1(s, i);
    assert r[..i] == s[..i];
    assert r[i..] == s[i + 1..];
    assert s == s[..i] + [s[i]] + s[i + 1..];
    calc {
      multiset(s);
      multiset(s[..i]) + multiset{s[i]} + multiset(s[i + 1..]);
      multiset(r[..i]) + multiset(r[i..]) + multiset{s[i]};
      { assert r == r[..i] + r[i..]; }
      multiset(r) + multiset{s[i]};
    }
  }

  /** The deletion both pages perform once the user confirms: read the
      favourites, splice out one element, write them back. A stored value that
      is not an array has no `splice`; the call throws and nothing is written. */
  function RemoveFavorite(store: Store, index: int): (r: Store)
    ensures var favs := LoadFavorites(store);
      && (favs.Arr? ==> r == store[FavoritesKey := Json(Arr(Splice1(favs.items, index)))])
      && (!favs.Arr? ==> r == store)
  {
    var favs := LoadFavorites(store);
    if favs.Arr? then store[FavoritesKey := Json(Arr(Splice1(favs.items, index)))] else store
  }

  /** Deleting one favourite by its rendered index takes out exactly that park:
      one fewer, the others in their order, and nothing else in storage moves. */
  lemma RemoveFavoriteAt(store: Store, index: nat)
    requires LoadFavorites(store).Arr? && index < |LoadFavorites(store).items|
    ensures var before := LoadFavorites(store).items;
      var after := LoadFavorites(RemoveFavorite(store, index));
      && after.Arr?
      && after.items == before[..index] + before[index + 1..]
      && multiset(after.items) + multiset{before[index]} == multiset(before)
    ensures forall k :: k in store && k != FavoritesKey ==> k in RemoveFavorite(store, index) && RemoveFavorite(store, index)[k] == store[k]
  {
    var before := LoadFavorites(store).items;
    SpliceRestore(before, index);
    assert Splice1(before, index) == before[..index] + before[index + 1..];
  }
}
