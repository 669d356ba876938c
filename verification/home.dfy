/**
 The storefront's home screen: which side drawer is open, the +/- buttons of
 the cart drawer, and the total shown under the cart.
 */
module Home {
  import opened Wrappers
  import opened Records
  import opened Storage

  /** The two drawers the header icons open. */
  datatype Drawer = CartDrawer | FavoritesDrawer

  /**
   `handleDrawerToggle`: pressing the icon of the open drawer closes it;
   pressing any other icon opens that drawer instead.
   */
  function ToggleDrawer(active: Option<Drawer>, d: Drawer): (r: Option<Drawer>)
    ensures r == None <==> active == Some(d)
    ensures r != None ==> r == Some(d)
  {
    if active == Some(d) then None else Some(d)
  }

  /** Pressing the same icon twice from a closed or other drawer ends closed. */
  lemma ToggleTwiceCloses(active: Option<Drawer>, d: Drawer)
    requires active != Some(d)
    ensures ToggleDrawer(ToggleDrawer(active, d), d) == None
  {
  }

  /** The new quantity after "+" or "-": one more, or one less but never below one. */
  function Bump(q: int, increment: bool): (r: int)
    ensures increment ==> r == q + 1
    ensures !increment ==> r >= 1 && (q >= 2 ==> r == q - 1) && (q <= 1 ==> r == 1)
  {
    if increment then q + 1 else if q - 1 > 1 then q - 1 else 1
  }

  /**
   The cart after pressing "+" or "-" on `id`: `cart.map` over every item,
   changing the quantity of each item with that id and nothing else.
   */
  function QuantityChange(cart: seq<Item>, id: int, increment: bool): (r: seq<Item>)
    ensures |r| == |cart|
    ensures forall i :: 0 <= i < |r| ==> SameProduct(r[i], cart[i])
    ensures forall i :: 0 <= i < |r| && cart[i].id != id ==> r[i] == cart[i]
    ensures forall i :: 0 <= i < |r| && cart[i].id == id ==> r[i].quantity == Bump(cart[i].quantity, increment)
  {
    if |cart| == 0 then []
    else
      var head := if cart[0].id == id then cart[0].(quantity := Bump(cart[0].quantity, increment)) else cart[0];
      [head] + QuantityChange(cart[1..], id, increment)
  }

  /** "-" leaves every item of that id at one or more, whatever its quantity was. */
  lemma DecrementFloorsAtOne(cart: seq<Item>, id: int)
    ensures forall i :: 0 <= i < |cart| && cart[i].id == id ==> QuantityChange(cart, id, false)[i].quantity >= 1
  {
  }

  /** Either button keeps a cart whose quantities are all positive that way. */
  lemma QuantityChangeKeepsPositive(cart: seq<Item>, id: int, increment: bool)
    requires AllPositive(cart)
    ensures AllPositive(QuantityChange(cart, id, increment))
  {
  }

  /**
   The "-" button is disabled exactly when the item's quantity is one: the
   one quantity at which pressing it could change nothing but is not below one.
   */
  function DecrementDisabled(item: Item): (r: bool)
    ensures r ==> Bump(item.quantity, false) == item.quantity
    ensures !r && item.quantity >= 1 ==> Bump(item.quantity, false) == item.quantity - 1
    ensures !r && item.quantity >= 2 ==> Bump(item.quantity, false) < item.quantity
  {
    item.quantity == 1
  }

  /**
   The disabled "-" guards nothing the floor does not already guard: at one
   the change would be a no-op, above one it removes exactly one unit.
   */
  lemma DecrementButtonRule(cart: seq<Item>, k: int)
    requires 0 <= k < |cart| && AllPositive(cart) && DistinctIds(cart)
    ensures DecrementDisabled(cart[k]) ==> QuantityChange(cart, cart[k].id, false) == cart
    ensures !DecrementDisabled(cart[k]) ==> QuantityChange(cart, cart[k].id, false)[k].quantity == cart[k].quantity - 1
  {
    var r := QuantityChange(cart, cart[k].id, false);
    if DecrementDisabled(cart[k]) {
      forall i | 0 <= i < |cart|
        ensures r[i] == cart[i]
      {
        if cart[i].id == cart[k].id {
          assert i == k;
        }
      }
    }
  }

  /** The price of one cart line. */
  function Line(item: Item): int {
    item.price * item.quantity
  }

  /** The sum of price times quantity over the cart, accumulated left to right. */
  function Total(cart: seq<Item>): (r: int)
    ensures |cart| == 0 ==> r == 0
    ensures |cart| == 1 ==> r == cart[0].price * cart[0].quantity
    ensures (forall i :: 0 <= i < |cart| ==> cart[i].price >= 0 && cart[i].quantity >= 0) ==> r >= 0
  {
    if |cart| == 0 then 0 else Total(cart[..|cart| - 1]) + Line(cart[|cart| - 1])
  }

  /** The total of two carts laid end to end is the sum of their totals. */
  lemma {:induction false} TotalAppend(a: seq<Item>, b: seq<Item>)
    ensures Total(a + b) == Total(a) + Total(b)
    decreases |b|
  {
    if |b| == 0 {
      assert a + b == a;
    } else {
      assert (a + b)[..|a + b| - 1] == a + b[..|b| - 1];
      TotalAppend(a, b[..|b| - 1]);
    }
  }

  /** The total with the first line split off. */
  lemma TotalCons(cart: seq<Item>)
    requires |cart| > 0
    ensures Total(cart) == Line(cart[0]) + Total(cart[1..])
  {
    TotalAppend([cart[0]], cart[1..]);
    assert [cart[0]] + cart[1..] == cart;
  }

  /** `calculateTotalPrice`: a running sum, from zero, of each line's price times quantity. */
  method CalculateTotalPrice(cart: seq<Item>) returns (total: int)
    ensures total == Total(cart)
    ensures |cart| == 0 ==> total == 0
    ensures (forall i :: 0 <= i < |cart| ==> cart[i].price >= 0 && cart[i].quantity >= 0) ==> total >= 0
  {
    total := 0;
    var i := 0;
    while i < |cart|
      invariant 0 <= i <= |cart|
      invariant total == Total(cart[..i])
      invariant (forall j :: 0 <= j < |cart| ==> cart[j].price >= 0 && cart[j].quantity >= 0) ==> total >= 0
    {
      assert cart[..i + 1][..i] == cart[..i];
      total := total + cart[i].price * cart[i].quantity;
      i := i + 1;
    }
    assert cart[..i] == cart;
  }

  /** The sum of the prices of the items with id `id`: one unit of each. */
  function PriceOf(cart: seq<Item>, id: int): int
  {
    if |cart| == 0 then 0
    else (if cart[0].id == id then cart[0].price else 0) + PriceOf(cart[1..], id)
  }

  /** One unit more or less on a line changes its price by exactly one unit price. */
  lemma LineShift(item: Item, q: int)
    ensures Line(item.(quantity := q)) == Line(item) + item.price * (q - item.quantity)
  {
    assert item.price * q == item.price * item.quantity + item.price * (q - item.quantity);
  }

  /** Linear bookkeeping of the inductive total lemmas, kept apart from the products in `Line`. */
  lemma SumShift(t: int, l: int, rest: int, t0: int, l0: int, rest0: int, unit: int, units: int)
    requires t == l + rest && t0 == l0 + rest0
    requires l == l0 + unit && rest == rest0 + units
    ensures t == t0 + (unit + units)
  {
  }

  /** The first line after a change, against the first line before it. */
  lemma HeadLine(cart: seq<Item>, id: int, increment: bool) returns (unit: int)
    requires |cart| > 0
    requires !increment && cart[0].id == id ==> cart[0].quantity >= 2
    ensures unit == (if cart[0].id == id then cart[0].price else 0)
    ensures QuantityChange(cart, id, increment)[1..] == QuantityChange(cart[1..], id, increment)
    ensures increment ==> Line(QuantityChange(cart, id, increment)[0]) == Line(cart[0]) + unit
    ensures !increment ==> Line(QuantityChange(cart, id, increment)[0]) == Line(cart[0]) - unit
  {
    var r := QuantityChange(cart, id, increment);
    unit := if cart[0].id == id then cart[0].price else 0;
    assert r[1..] == QuantityChange(cart[1..], id, increment);
    if cart[0].id == id {
      LineShift(cart[0], r[0].quantity);
      assert r[0] == cart[0].(quantity := r[0].quantity);
    }
  }

  /** One step of `IncrementTotal`: from the claim for the tail to the claim for the cart. */
  lemma IncrementStep(cart: seq<Item>, id: int)
    requires |cart| > 0
    requires Total(QuantityChange(cart[1..], id, true)) == Total(cart[1..]) + PriceOf(cart[1..], id)
    ensures Total(QuantityChange(cart, id, true)) == Total(cart) + PriceOf(cart, id)
  {
    var r := QuantityChange(cart, id, true);
    var unit := HeadLine(cart, id, true);
    TotalCons(cart);
    TotalCons(r);
    SumShift(Total(r), Line(r[0]), Total(r[1..]), Total(cart), Line(cart[0]), Total(cart[1..]),
             unit, PriceOf(cart[1..], id));
  }

  /** One step of `DecrementTotal`: from the claim for the tail to the claim for the cart. */
  lemma DecrementStep(cart: seq<Item>, id: int)
    requires |cart| > 0
    requires cart[0].id == id ==> cart[0].quantity >= 2
    requires Total(QuantityChange(cart[1..], id, false)) == Total(cart[1..]) - PriceOf(cart[1..], id)
    ensures Total(QuantityChange(cart, id, false)) == Total(cart) - PriceOf(cart, id)
  {
    var r := QuantityChange(cart, id, false);
    var unit := HeadLine(cart, id, false);
    TotalCons(cart);
    TotalCons(r);
    SumShift(Total(r), Line(r[0]), Total(r[1..]), Total(cart), Line(cart[0]), Total(cart[1..]),
             -unit, -PriceOf(cart[1..], id));
  }

  /** "+" raises the total by one unit of every item with that id. */
  lemma {:induction false} IncrementTotal(cart: seq<Item>, id: int)
    ensures Total(QuantityChange(cart, id, true)) == Total(cart) + PriceOf(cart, id)
  {
    if |cart| > 0 {
      IncrementTotal(cart[1..], id);
      IncrementStep(cart, id);
    }
  }

  /** "-" on items all above one lowers the total by one unit of each. */
  lemma {:induction false} DecrementTotal(cart: seq<Item>, id: int)
    requires forall i :: 0 <= i < |cart| && cart[i].id == id ==> cart[i].quantity >= 2
    ensures Total(QuantityChange(cart, id, false)) == Total(cart) - PriceOf(cart, id)
  {
    if |cart| > 0 {
      DecrementTotal(cart[1..], id);
      DecrementStep(cart, id);
    }
  }

  /** `handleQuantityChange`: the updated cart goes to state and to the store in one step. */
  function HandleQuantityChange(store: Store, cart: seq<Item>, item: Item, increment: bool): (r: Committed)
    ensures r.items == QuantityChange(cart, item.id, increment)
    ensures LoadItems(r.store, CartKey) == r.items
    ensures |r.items| == |cart|
    ensures forall k :: k != CartKey ==> Untouched(store, r.store, k)
  {
    Commit(store, CartKey, QuantityChange(cart, item.id, increment))
  }
}
