/**
 The favorites list: pressing the heart of an item adds it when no favorite
 has its id, and otherwise takes out the first favorite that does.
 */
module Favorites {
  import opened Wrappers
  import opened Records
  import opened Storage

  /** `handleAddToFavorites(item)`: append when absent, splice out the first match when present. */
  function Toggle(favorites: seq<Item>, item: Item): (r: seq<Item>)
    ensures !HasId(favorites, item.id) ==> r == favorites + [item]
    ensures HasId(favorites, item.id) ==>
      exists k :: IsFirstWithId(favorites, item.id, k) && r == favorites[..k] + favorites[k + 1..]
    ensures |r| == if HasId(favorites, item.id) then |favorites| - 1 else |favorites| + 1
  {
    match FindIndex(favorites, item.id)
    case None => favorites + [item]
    case Some(k) => favorites[..k] + favorites[k + 1..]
  }

  /** Adding an absent item and pressing it again gives back exactly the old list. */
  lemma ToggleTwiceRestores(favorites: seq<Item>, item: Item)
    requires !HasId(favorites, item.id)
    ensures Toggle(Toggle(favorites, item), item) == favorites
  {
    var added := favorites + [item];
    assert IsFirstWithId(added, item.id, |favorites|);
    var k :| IsFirstWithId(added, item.id, k) && Toggle(added, item) == added[..k] + added[k + 1..];
    FirstWithIdUnique(added, item.id, k, |favorites|);
    assert added[..|favorites|] == favorites;
  }

  /** Toggling keeps the favorite ids distinct. */
  lemma ToggleKeepsDistinct(favorites: seq<Item>, item: Item)
    requires DistinctIds(favorites)
    ensures DistinctIds(Toggle(favorites, item))
  {
    var r := Toggle(favorites, item);
    if HasId(favorites, item.id) {
      var k :| IsFirstWithId(favorites, item.id, k) && r == favorites[..k] + favorites[k + 1..];
      forall i, j | 0 <= i < j < |r|
        ensures r[i].id != r[j].id
      {
        var i' := if i < k then i else i + 1;
        var j' := if j < k then j else j + 1;
        assert r[i] == favorites[i'] && r[j] == favorites[j'];
      }
    }
  }

  /** With distinct ids, every press flips whether the item is a favorite. */
  lemma ToggleFlipsMembership(favorites: seq<Item>, item: Item)
    requires DistinctIds(favorites)
    ensures HasId(Toggle(favorites, item), item.id) <==> !HasId(favorites, item.id)
  {
    var r := Toggle(favorites, item);
    if HasId(favorites, item.id) {
      var k :| IsFirstWithId(favorites, item.id, k) && r == favorites[..k] + favorites[k + 1..];
      forall i | 0 <= i < |r|
        ensures r[i].id != item.id
      {
        assert r[i] == favorites[if i < k then i else i + 1];
      }
    } else {
      assert r[|favorites|] == item;
    }
  }

  /**
   With distinct ids, pressing a present item twice brings back the same ids
   (the item moves to the end of the list).
   */
  lemma ToggleTwiceSameIds(favorites: seq<Item>, item: Item)
    requires DistinctIds(favorites) && HasId(favorites, item.id)
    ensures forall id :: HasId(Toggle(Toggle(favorites, item), item), id) <==> HasId(favorites, id)
  {
    var once := Toggle(favorites, item);
    ToggleFlipsMembership(favorites, item);
    var k :| IsFirstWithId(favorites, item.id, k) && once == favorites[..k] + favorites[k + 1..];
    var twice := Toggle(once, item);
    assert twice == once + [item];
    forall id
      ensures HasId(twice, id) <==> HasId(favorites, id)
    {
      if HasId(favorites, id) {
        var i :| 0 <= i < |favorites| && favorites[i].id == id;
        if i < k {
          assert twice[i] == favorites[i];
        } else if i > k {
          assert twice[i - 1] == favorites[i];
        } else {
          assert twice[|once|].id == id;
        }
      }
      if HasId(twice, id) {
        var i :| 0 <= i < |twice| && twice[i].id == id;
        if i < k {
          assert favorites[i] == twice[i];
        } else if i < |once| {
          assert favorites[i + 1] == twice[i];
        } else {
          assert favorites[k].id == id;
        }
      }
    }
  }

  /** `handleAddToFavorites`, with its write to the store. */
  function HandleAddToFavorites(store: Store, favorites: seq<Item>, item: Item): (r: Committed)
    ensures r.items == Toggle(favorites, item)
    ensures LoadItems(r.store, FavoritesKey) == r.items
    ensures |r.items| == |favorites| + 1 || |r.items| == |favorites| - 1
    ensures forall k :: k != FavoritesKey ==> Untouched(store, r.store, k)
  {
    Commit(store, FavoritesKey, Toggle(favorites, item))
  }
}
