/**
 The records the storefront keeps in its lists, and the lookups by id shared by the
 cart and the favorites list.
 */
module Records {
  import opened Wrappers

  /** A registered account. The password is kept in plain text, as the store keeps it. */
  datatype User = User(email: string, password: string)

  /**
   A product in the cart or in the favorites list. Prices are whole cents and
   quantities are unbounded integers; the store does not enforce a sign on either.
   */
  datatype Item = Item(id: int, name: string, price: int, quantity: int, image: string)

  /** Some item of the list carries `id`. */
  predicate HasId(items: seq<Item>, id: int) {
    exists i :: 0 <= i < |items| && items[i].id == id
  }

  /** No two items of the list share an id. */
  predicate DistinctIds(items: seq<Item>) {
    forall i, j :: 0 <= i < j < |items| ==> items[i].id != items[j].id
  }

  /** `k` is the position of the first item with id `id`. */
  predicate IsFirstWithId(items: seq<Item>, id: int, k: int) {
    && 0 <= k < |items|
    && items[k].id == id
    && forall j :: 0 <= j < k ==> items[j].id != id
  }

  /** Every item's quantity is at least one. */
  predicate AllPositive(items: seq<Item>) {
    forall i :: 0 <= i < |items| ==> items[i].quantity >= 1
  }

  /** The same product, whatever its quantity. */
  predicate SameProduct(a: Item, b: Item) {
    a.id == b.id && a.name == b.name && a.price == b.price && a.image == b.image
  }

  /**
   The index `findIndex` returns for the predicate "has id `id`": the first
   matching position, or nothing (the source's -1) when no item matches.
   */
  function FindIndex(items: seq<Item>, id: int): (r: Option<nat>)
    ensures r.None? <==> !HasId(items, id)
    ensures r.Some? ==> IsFirstWithId(items, id, r.value)
  {
    if |items| == 0 then None
    else if items[0].id == id then Some(0)
    else match FindIndex(items[1..], id)
      case None => None
      case Some(k) => Some(k + 1)
  }

  /** The first position with a given id is unique. */
  lemma FirstWithIdUnique(items: seq<Item>, id: int, k: int, k': int)
    requires IsFirstWithId(items, id, k) && IsFirstWithId(items, id, k')
    ensures k == k'
  {
  }
}
