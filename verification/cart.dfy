/** The cart reducer of the storefront layout: lines keyed by product id,
    quantities clamped to the stock, the header totals, and opening and
    closing the checkout. */
module Cart {
  import opened Prelude
  import opened Catalog

  /** What the product page adds to a product before putting it in the cart. */
  datatype Personalisation = Personalisation(selected: Selection, finalPrice: Option<real>, description: string)

  /** The object handed to `addToCart`: a product, possibly personalised. */
  datatype Item = Item(product: Product, personalisation: Option<Personalisation>)

  /** A cart entry: the item's fields plus `quantity`. */
  datatype Line = Line(item: Item, quantity: int)

  function LineId(l: Line): string { l.item.product.id }

  /** The quantity limit a line carries: its own `stock ?? 99`. */
  function LineLimit(l: Line): int { StockLimit(l.item.product.stock) }

  /** `(item.price || 0) * item.quantity` */
  function LineAmount(l: Line): real { l.item.product.price.GetOr(0.0) * l.quantity as real }

  ghost predicate UniqueIds(cart: seq<Line>) {
    forall i, j :: 0 <= i < j < |cart| ==> LineId(cart[i]) != LineId(cart[j])
  }

  predicate HasId(cart: seq<Line>, id: string) {
    exists i :: 0 <= i < |cart| && LineId(cart[i]) == id
  }

  /** `prev.find(i => i.id === id)` */
  function FindLine(cart: seq<Line>, id: string): (r: Option<Line>)
    ensures r.Some? <==> HasId(cart, id)
    ensures r.Some? ==> exists k :: 0 <= k < |cart| && cart[k] == r.value && LineId(cart[k]) == id
                          && forall j :: 0 <= j < k ==> LineId(cart[j]) != id
  {
    if |cart| == 0 then None
    else if LineId(cart[0]) == id then Some(cart[0])
    else
      var r := FindLine(cart[1..], id);
      assert forall k :: 0 < k < |cart| ==> cart[k] == cart[1..][k - 1];
      r
  }

  /** `prev.map(i => i.id === id ? { ...i, quantity: q } : i)` */
  function SetQuantity(cart: seq<Line>, id: string, q: int): (r: seq<Line>)
    ensures |r| == |cart|
    ensures forall i :: 0 <= i < |cart| && LineId(cart[i]) == id ==> r[i] == cart[i].(quantity := q)
    ensures forall i :: 0 <= i < |cart| && LineId(cart[i]) != id ==> r[i] == cart[i]
  {
    seq(|cart|, i requires 0 <= i < |cart| =>
      if LineId(cart[i]) == id then cart[i].(quantity := q) else cart[i])
  }

  /** `addToCart(product, qty)`: a known id gets its quantity raised, clamped
      by the stock of the product being added; a new id is appended. */
  function AddToCart(cart: seq<Line>, item: Option<Item>, qty: int): (r: seq<Line>)
    ensures item.None? ==> r == cart
    ensures item.Some? && !HasId(cart, item.value.product.id) ==>
              r == cart + [Line(item.value, Min(StockLimit(item.value.product.stock), qty))]
    ensures item.Some? && HasId(cart, item.value.product.id) ==> |r| == |cart|
  {
    match item
    case None => cart
    case Some(it) =>
      match FindLine(cart, it.product.id)
      case Some(existing) =>
        SetQuantity(cart, it.product.id, Min(StockLimit(it.product.stock), existing.quantity + qty))
      case None =>
        cart + [Line(it, Min(StockLimit(it.product.stock), qty))]
  }

  /** Adding an id already in a cart with distinct ids changes that line's
      quantity only, keeping the line's own fields; every other line, the
      length and the order stay as they were. */
  lemma AddExisting(cart: seq<Line>, it: Item, qty: int, k: nat)
    requires UniqueIds(cart)
    requires k < |cart| && LineId(cart[k]) == it.product.id
    ensures AddToCart(cart, Some(it), qty) ==
            cart[k := cart[k].(quantity := Min(StockLimit(it.product.stock), cart[k].quantity + qty))]
  {
    var r := AddToCart(cart, Some(it), qty);
    var e := FindLine(cart, it.product.id).value;
    var k' :| 0 <= k' < |cart| && cart[k'] == e && LineId(cart[k']) == it.product.id
              && forall j :: 0 <= j < k' ==> LineId(cart[j]) != it.product.id;
    assert k' == k;
    assert r == cart[k := cart[k].(quantity := Min(StockLimit(it.product.stock), cart[k].quantity + qty))];
  }

  /** A product with no stock enters the cart with quantity 0. */
  lemma AddOutOfStock(cart: seq<Line>, it: Item, qty: int)
    requires qty >= 0
    requires !HasId(cart, it.product.id)
    requires it.product.stock == Some(0)
    ensures AddToCart(cart, Some(it), qty)[|cart|].quantity == 0
  {
  }

  /** Adding the same product again keeps the first personalisation: the
      second selection of variants is lost. */
  lemma AddAgainKeepsFirstPersonalisation(cart: seq<Line>, it: Item, qty: int, k: nat)
    requires UniqueIds(cart)
    requires k < |cart| && LineId(cart[k]) == it.product.id
    ensures AddToCart(cart, Some(it), qty)[k].item == cart[k].item
  {
    AddExisting(cart, it, qty, k);
  }

  /** `removeFromCart(id)` */
  function RemoveFromCart(cart: seq<Line>, id: string): (r: seq<Line>)
    ensures forall i :: 0 <= i < |r| ==> LineId(r[i]) != id
    ensures forall i :: 0 <= i < |cart| && LineId(cart[i]) != id ==> cart[i] in r
    ensures Subsequence(r, cart)
    ensures forall x {:trigger multiset(r)[x]} :: multiset(r)[x] == if LineId(x) != id then multiset(cart)[x] else 0
  {
    Filter(cart, (l: Line) => LineId(l) != id)
  }

  /** The new quantity of a line under `updateQuantity`. */
  function ClampedQuantity(l: Line, delta: int): (q: int)
    ensures q >= 1
    ensures LineLimit(l) >= 1 ==> q <= LineLimit(l)
    ensures 1 <= l.quantity + delta <= LineLimit(l) ==> q == l.quantity + delta
    ensures l.quantity + delta > LineLimit(l) ==> q == Max(1, LineLimit(l))
    ensures l.quantity + delta < 1 ==> q == 1
  {
    Max(1, Min(LineLimit(l), l.quantity + delta))
  }

  /** `updateQuantity(id, delta)` */
  function UpdateQuantity(cart: seq<Line>, id: string, delta: int): (r: seq<Line>)
    ensures |r| == |cart|
    ensures forall i :: 0 <= i < |cart| ==> LineId(r[i]) == LineId(cart[i]) && r[i].item == cart[i].item
    ensures forall i :: 0 <= i < |cart| && LineId(cart[i]) == id ==> r[i].quantity >= 1
    ensures forall i :: 0 <= i < |cart| && LineId(cart[i]) == id ==> r[i] == cart[i].(quantity := ClampedQuantity(cart[i], delta))
    ensures forall i :: 0 <= i < |cart| && LineId(cart[i]) != id ==> r[i] == cart[i]
  {
    seq(|cart|, i requires 0 <= i < |cart| =>
      if LineId(cart[i]) == id then cart[i].(quantity := ClampedQuantity(cart[i], delta)) else cart[i])
  }

  /** The lower clamp wins over the stock: a line of a product with no stock
      is raised to one unit. */
  lemma UpdateOutOfStock(cart: seq<Line>, id: string, delta: int, k: nat)
    requires k < |cart| && LineId(cart[k]) == id && cart[k].item.product.stock == Some(0)
    ensures UpdateQuantity(cart, id, delta)[k].quantity == 1
  {
  }

  function Clear(): (r: seq<Line>)
    ensures |r| == 0
  {
    []
  }

  // ---------------------------------------------------------------------------
  // Distinct ids are preserved

  lemma AddKeepsIdsUnique(cart: seq<Line>, item: Option<Item>, qty: int)
    requires UniqueIds(cart)
    ensures UniqueIds(AddToCart(cart, item, qty))
  {
    if item.Some? && !HasId(cart, item.value.product.id) {
      var r := AddToCart(cart, item, qty);
      assert forall i :: 0 <= i < |cart| ==> r[i] == cart[i];
    }
  }

  /** A line whose id is new keeps the ids distinct in front of the rest. */
  lemma ConsKeepsIdsUnique(l: Line, rest: seq<Line>)
    requires UniqueIds(rest)
    requires forall i :: 0 <= i < |rest| ==> LineId(rest[i]) != LineId(l)
    ensures UniqueIds([l] + rest)
  {
    var r := [l] + rest;
    forall i, j | 0 <= i < j < |r|
      ensures LineId(r[i]) != LineId(r[j])
    {
      assert r[j] == rest[j - 1];
      if i > 0 {
        assert r[i] == rest[i - 1];
      }
    }
  }

  lemma {:induction false} RemoveKeepsIdsUnique(cart: seq<Line>, id: string)
    requires UniqueIds(cart)
    ensures UniqueIds(RemoveFromCart(cart, id))
    decreases |cart|
  {
    if |cart| > 0 {
      assert UniqueIds(cart[1..]);
      RemoveKeepsIdsUnique(cart[1..], id);
      var rest := RemoveFromCart(cart[1..], id);
      if LineId(cart[0]) != id {
        forall i | 0 <= i < |rest|
          ensures LineId(rest[i]) != LineId(cart[0])
        {
          var j :| 0 <= j < |cart[1..]| && cart[1..][j] == rest[i];
          assert cart[j + 1] == rest[i];
        }
        ConsKeepsIdsUnique(cart[0], rest);
        assert RemoveFromCart(cart, id) == [cart[0]] + rest;
      } else {
        assert RemoveFromCart(cart, id) == rest;
      }
    }
  }

  lemma UpdateKeepsIdsUnique(cart: seq<Line>, id: string, delta: int)
    requires UniqueIds(cart)
    ensures UniqueIds(UpdateQuantity(cart, id, delta))
  {
  }

  // ---------------------------------------------------------------------------
  // Totals

  /** `cartTotal`: base prices only, a missing price counting as 0. */
  function CartTotal(cart: seq<Line>): real {
    SumReal(cart, LineAmount)
  }

  /** `cartCount` */
  function CartCount(cart: seq<Line>): int {
    SumInt(cart, (l: Line) => l.quantity)
  }

  lemma EmptyCartTotals()
    ensures CartTotal([]) == 0.0 && CartCount([]) == 0
  {
  }

  /** Appending a new line adds exactly its amount and its quantity. */
  lemma AddNewTotals(cart: seq<Line>, it: Item, qty: int)
    requires !HasId(cart, it.product.id)
    ensures CartTotal(AddToCart(cart, Some(it), qty)) ==
            CartTotal(cart) + it.product.price.GetOr(0.0) * Min(StockLimit(it.product.stock), qty) as real
    ensures CartCount(AddToCart(cart, Some(it), qty)) ==
            CartCount(cart) + Min(StockLimit(it.product.stock), qty)
  {
    var l := Line(it, Min(StockLimit(it.product.stock), qty));
    assert AddToCart(cart, Some(it), qty) == cart + [l];
    assert [l][1..] == [];
    assert SumReal([l], LineAmount) == LineAmount(l);
    assert SumInt([l], (l: Line) => l.quantity) == l.quantity;
    SumRealAppend(cart, [l], LineAmount);
    SumIntAppend(cart, [l], (l: Line) => l.quantity);
  }

  /** Changing one line's quantity moves the totals by that line alone. */
  lemma UpdateTotals(cart: seq<Line>, id: string, delta: int, k: nat)
    requires UniqueIds(cart)
    requires k < |cart| && LineId(cart[k]) == id
    ensures CartCount(UpdateQuantity(cart, id, delta)) ==
            CartCount(cart) - cart[k].quantity + ClampedQuantity(cart[k], delta)
    ensures CartTotal(UpdateQuantity(cart, id, delta)) ==
            CartTotal(cart) - LineAmount(cart[k]) + LineAmount(cart[k].(quantity := ClampedQuantity(cart[k], delta)))
  {
    var l := cart[k].(quantity := ClampedQuantity(cart[k], delta));
    assert UpdateQuantity(cart, id, delta) == cart[k := l];
    SumRealUpdate(cart, k, l, LineAmount);
    SumIntUpdate(cart, k, l, (l: Line) => l.quantity);
  }

  // ---------------------------------------------------------------------------
  // The layout's cart state

  datatype Layout = Layout(cart: seq<Line>, isCartOpen: bool, showCheckout: bool)

  /** `addToCart` also opens the cart drawer, unless the product is null. */
  function LayoutAdd(s: Layout, item: Option<Item>, qty: int): (r: Layout)
    ensures r.cart == AddToCart(s.cart, item, qty)
    ensures r.isCartOpen == (item.Some? || s.isCartOpen)
    ensures r.showCheckout == s.showCheckout
  {
    if item.None? then s else s.(cart := AddToCart(s.cart, item, qty), isCartOpen := true)
  }

  /** `handleCheckout`: nothing happens on an empty cart. */
  function HandleCheckout(s: Layout): (r: Layout)
    ensures |s.cart| == 0 ==> r == s
    ensures |s.cart| > 0 ==> r.showCheckout && !r.isCartOpen && r.cart == s.cart
  {
    if |s.cart| == 0 then s else s.(isCartOpen := false, showCheckout := true)
  }

  /** `handleCheckoutSuccess`: the cart is emptied and the modal closed. */
  function HandleCheckoutSuccess(s: Layout): (r: Layout)
    ensures r.cart == [] && !r.showCheckout && r.isCartOpen == s.isCartOpen
    ensures CartTotal(r.cart) == 0.0 && CartCount(r.cart) == 0
  {
    s.(cart := Clear(), showCheckout := false)
  }
}
