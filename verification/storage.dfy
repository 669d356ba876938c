/**
 The browser's key-value store, seen abstractly. The source writes JSON text under
 each key and parses it back; for the records kept here (strings and numbers) that
 round trip is the identity, so the model stores the decoded values directly.
 */
module Storage {
  import opened Records

  /** The shapes of value the modelled handlers write: the user list, the cart and the favorites. */
  datatype Value =
    | UserList(users: seq<User>)
    | ItemList(items: seq<Item>)

  type Store = map<string, Value>

  const UsersKey: string := "users"
  const CartKey: string := "cart"
  const FavoritesKey: string := "favorites"

  /** Key `k` holds the same value (or is absent) in both stores. */
  predicate Untouched(before: Store, after: Store, k: string) {
    (k in before <==> k in after) && (k in before ==> before[k] == after[k])
  }

  /** `saveToLocalStorage(key, value)`: overwrite one key, leave every other key as it was. */
  function Save(store: Store, key: string, v: Value): (r: Store)
    ensures key in r && r[key] == v
    ensures forall k :: k != key ==> Untouched(store, r, k)
  {
    store[key := v]
  }

  /** The user list read from the store, or the empty list when none was stored. */
  function LoadUsers(store: Store): (r: seq<User>)
    ensures UsersKey !in store ==> r == []
  {
    if UsersKey in store && store[UsersKey].UserList? then store[UsersKey].users else []
  }

  /** The cart or favorites list read from the store, or the empty list when none was stored. */
  function LoadItems(store: Store, key: string): (r: seq<Item>)
    ensures key !in store ==> r == []
  {
    if key in store && store[key].ItemList? then store[key].items else []
  }

  /** What a list handler leaves behind: the list now in component state, and the store it wrote. */
  datatype Committed = Committed(items: seq<Item>, store: Store)

  /** Put the new list in state and persist it under `key` in the same step. */
  function Commit(store: Store, key: string, items: seq<Item>): (r: Committed)
    ensures LoadItems(r.store, key) == r.items == items
    ensures forall k :: k != key ==> Untouched(store, r.store, k)
  {
    Committed(items, Save(store, key, ItemList(items)))
  }

  /** Reading the users back after saving them yields exactly what was saved. */
  lemma LoadSavedUsers(store: Store, users: seq<User>)
    ensures LoadUsers(Save(store, UsersKey, UserList(users))) == users
  {
  }
}
