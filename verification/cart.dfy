/**
 The cart panel's own handlers. Its quantity change differs from the home
 screen's: it touches only the first item with the id, and a change that would
 take the quantity below one is skipped rather than floored.
 */
module CartPanel {
  import opened Wrappers
  import opened Records
  import opened Storage
  import Home

  /**
   `handleChangeQuantity(id, change)`: find the first item with `id`; when
   its quantity plus `change` is at least one, that becomes its quantity;
   otherwise, or when no item has the id, the cart stays as it was.
   */
  function ChangeQuantity(cart: seq<Item>, id: int, change: int): (r: seq<Item>)
    ensures |r| == |cart|
    ensures !HasId(cart, id) ==> r == cart
    ensures forall i :: 0 <= i < |r| ==> SameProduct(r[i], cart[i])
    ensures forall i :: 0 <= i < |r| && !IsFirstWithId(cart, id, i) ==> r[i] == cart[i]
    ensures forall i :: IsFirstWithId(cart, id, i) && cart[i].quantity + change >= 1 ==>
      r[i].quantity == cart[i].quantity + change
    ensures forall i :: IsFirstWithId(cart, id, i) && cart[i].quantity + change < 1 ==> r == cart
    ensures AllPositive(cart) ==> AllPositive(r)
  {
    match FindIndex(cart, id)
    case None => cart
    case Some(k) =>
      var q := cart[k].quantity + change;
      if q >= 1 then cart[k := cart[k].(quantity := q)] else cart
  }

  /**
   The change is skipped, not floored: one item with quantity 2, price 10 and
   a change of -5 keeps quantity 2, so the total stays 20.
   */
  lemma SkipNotFloor()
    ensures var cart := [Item(1, "item", 10, 2, "")];
      && ChangeQuantity(cart, 1, -5) == cart
      && Home.Total(ChangeQuantity(cart, 1, -5)) == 20
  {
    var cart := [Item(1, "item", 10, 2, "")];
    assert IsFirstWithId(cart, 1, 0);
  }

  /**
   With a repeated id the two handlers differ: the home screen's "+" raises
   both items with the id, the panel's +1 only the first.
   */
  lemma RepeatedIdDiffers()
    ensures var cart := [Item(1, "a", 10, 1, ""), Item(1, "b", 10, 1, "")];
      && Home.QuantityChange(cart, 1, true) == [Item(1, "a", 10, 2, ""), Item(1, "b", 10, 2, "")]
      && ChangeQuantity(cart, 1, 1) == [Item(1, "a", 10, 2, ""), Item(1, "b", 10, 1, "")]
  {
    var cart := [Item(1, "a", 10, 1, ""), Item(1, "b", 10, 1, "")];
    assert IsFirstWithId(cart, 1, 0);
    var h := Home.QuantityChange(cart, 1, true);
    assert h[0] == Item(1, "a", 10, 2, "") && h[1] == Item(1, "b", 10, 2, "");
  }

  /**
   On a cart with distinct ids and positive quantities, the panel's +1 and -1
   agree with the home screen's "+" and "-".
   */
  lemma AgreesWithHome(cart: seq<Item>, id: int, increment: bool)
    requires DistinctIds(cart) && AllPositive(cart)
    ensures ChangeQuantity(cart, id, if increment then 1 else -1) == Home.QuantityChange(cart, id, increment)
  {
    var change := if increment then 1 else -1;
    var r := ChangeQuantity(cart, id, change);
    var h := Home.QuantityChange(cart, id, increment);
    forall i | 0 <= i < |cart|
      ensures r[i] == h[i]
    {
      if cart[i].id == id {
        assert IsFirstWithId(cart, id, i);
        if cart[i].quantity + change < 1 {
          assert r == cart;
        }
      }
    }
  }

  /** `handleRemoveFromCart`'s filter: keep, in order, every item whose id differs from `id`. */
  function RemoveFromCart(cart: seq<Item>, id: int): (r: seq<Item>)
    ensures !HasId(r, id)
    ensures forall x :: x in r <==> x in cart && x.id != id
    ensures |r| <= |cart|
    ensures !HasId(cart, id) ==> r == cart
  {
    if |cart| == 0 then []
    else if cart[0].id == id then RemoveFromCart(cart[1..], id)
    else [cart[0]] + RemoveFromCart(cart[1..], id)
  }

  /** Removing from two pieces of a cart removes from each and keeps them in order. */
  lemma {:induction false} RemoveDistributes(a: seq<Item>, b: seq<Item>, id: int)
    ensures RemoveFromCart(a + b, id) == RemoveFromCart(a, id) + RemoveFromCart(b, id)
  {
    if |a| == 0 {
      assert a + b == b;
    } else {
      assert (a + b)[0] == a[0];
      assert (a + b)[1..] == a[1..] + b;
      RemoveDistributes(a[1..], b, id);
    }
  }

  /** Removing twice is removing once. */
  lemma RemoveIdempotent(cart: seq<Item>, id: int)
    ensures RemoveFromCart(RemoveFromCart(cart, id), id) == RemoveFromCart(cart, id)
  {
  }

  /** Removal keeps ids distinct and quantities positive. */
  lemma {:induction false} RemoveKeepsInvariants(cart: seq<Item>, id: int)
    ensures DistinctIds(cart) ==> DistinctIds(RemoveFromCart(cart, id))
    ensures AllPositive(cart) ==> AllPositive(RemoveFromCart(cart, id))
  {
    if |cart| > 0 {
      RemoveKeepsInvariants(cart[1..], id);
      var rest := RemoveFromCart(cart[1..], id);
      if DistinctIds(cart) && cart[0].id != id {
        var r := [cart[0]] + rest;
        forall i, j | 0 <= i < j < |r|
          ensures r[i].id != r[j].id
        {
          if i == 0 {
            assert r[j] in cart[1..];
          }
        }
      }
    }
  }

  /** `handleChangeQuantity`, with its write to the store. */
  function HandleChangeQuantity(store: Store, cart: seq<Item>, id: int, change: int): (r: Committed)
    ensures r.items == ChangeQuantity(cart, id, change)
    ensures LoadItems(r.store, CartKey) == r.items
    ensures |r.items| == |cart|
    ensures forall k :: k != CartKey ==> Untouched(store, r.store, k)
  {
    Commit(store, CartKey, ChangeQuantity(cart, id, change))
  }

  /** `handleRemoveFromCart`, with its write to the store. */
  function HandleRemoveFromCart(store: Store, cart: seq<Item>, id: int): (r: Committed)
    ensures r.items == RemoveFromCart(cart, id)
    ensures LoadItems(r.store, CartKey) == r.items
    ensures !HasId(LoadItems(r.store, CartKey), id)
    ensures forall k :: k != CartKey ==> Untouched(store, r.store, k)
  {
    Commit(store, CartKey, RemoveFromCart(cart, id))
  }
}
