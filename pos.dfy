/**
 * The point-of-sale screen: a searchable product grid and a cart. Each cart
 * handler replaces the cart with a new sequence computed from the old one;
 * the subtotal and the visible products are computed from the state.
 * Prices and quantities are whole numbers here.
 */
module Pos {
  import opened Text

  /** A product on the grid. */
  datatype Offer = Offer(id: string, name: string, price: int)

  datatype CartItem = CartItem(id: string, name: string, price: int, quantity: int)

  predicate InCart(cart: seq<CartItem>, id: string) {
    exists i :: 0 <= i < |cart| && cart[i].id == id
  }

  /** Adds `delta` to the quantity of every item with the id. */
  function Bumped(cart: seq<CartItem>, id: string, delta: int): (r: seq<CartItem>)
    ensures |r| == |cart|
    ensures forall i :: 0 <= i < |cart| ==>
              r[i] == if cart[i].id == id then cart[i].(quantity := cart[i].quantity + delta) else cart[i]
  {
    if cart == [] then []
    else
      var head := if cart[0].id == id then cart[0].(quantity := cart[0].quantity + delta) else cart[0];
      [head] + Bumped(cart[1..], id, delta)
  }

  /** The items whose quantity is still positive. */
  function Positive(cart: seq<CartItem>): seq<CartItem> {
    if cart == [] then []
    else if cart[0].quantity > 0 then [cart[0]] + Positive(cart[1..])
    else Positive(cart[1..])
  }

  /** The items with another id. */
  function Removed(cart: seq<CartItem>, id: string): seq<CartItem> {
    if cart == [] then []
    else if cart[0].id != id then [cart[0]] + Removed(cart[1..], id)
    else Removed(cart[1..], id)
  }

  /** `addToCart`: one more of a product already in the cart, otherwise the
      product appended with quantity 1. */
  function AddedToCart(cart: seq<CartItem>, p: Offer): seq<CartItem> {
    if InCart(cart, p.id) then Bumped(cart, p.id, 1)
    else cart + [CartItem(p.id, p.name, p.price, 1)]
  }

  /** `updateQuantity`: the change applied, then every item at zero or below
      dropped. */
  function UpdatedQuantity(cart: seq<CartItem>, id: string, delta: int): seq<CartItem> {
    Positive(Bumped(cart, id, delta))
  }

  function LineTotal(item: CartItem): int {
    item.price * item.quantity
  }

  /** `subtotal`: the sum of price times quantity. */
  function Subtotal(cart: seq<CartItem>): int {
    if cart == [] then 0 else LineTotal(cart[0]) + Subtotal(cart[1..])
  }

  /** `filteredProducts`: the products whose name contains the query, case
      ignored, in grid order. */
  function Search(products: seq<Offer>, query: string): (r: seq<Offer>)
    ensures forall x :: x in r <==> x in products && ContainsIgnoreCase(x.name, query)
    ensures |r| <= |products|
  {
    if products == [] then []
    else if ContainsIgnoreCase(products[0].name, query) then [products[0]] + Search(products[1..], query)
    else Search(products[1..], query)
  }

  /** What the cart handlers keep: one line per product, each with at least
      one unit. */
  predicate WellFormed(cart: seq<CartItem>) {
    && (forall i, j :: 0 <= i < j < |cart| ==> cart[i].id != cart[j].id)
    && (forall i :: 0 <= i < |cart| ==> cart[i].quantity >= 1)
  }

  // ---------------------------------------------------------------------
  // The cart operations, item by item

  /** Adding touches one line: the product's line gains a unit, or a new
      line with one unit goes at the end. */
  lemma AddToCartEffect(cart: seq<CartItem>, p: Offer)
    requires WellFormed(cart)
    ensures WellFormed(AddedToCart(cart, p))
    ensures forall k :: 0 <= k < |cart| && cart[k].id == p.id ==>
              AddedToCart(cart, p) == cart[k := cart[k].(quantity := cart[k].quantity + 1)]
    ensures !InCart(cart, p.id) ==> AddedToCart(cart, p) == cart + [CartItem(p.id, p.name, p.price, 1)]
  {
    forall k | 0 <= k < |cart| && cart[k].id == p.id
      ensures AddedToCart(cart, p) == cart[k := cart[k].(quantity := cart[k].quantity + 1)]
    {
      BumpOne(cart, k, 1);
    }
  }

  lemma BumpOne(cart: seq<CartItem>, k: nat, delta: int)
    requires WellFormed(cart) && k < |cart|
    ensures Bumped(cart, cart[k].id, delta) == cart[k := cart[k].(quantity := cart[k].quantity + delta)]
  {
  }

  lemma {:induction false} PositiveOfPositive(s: seq<CartItem>)
    requires forall i :: 0 <= i < |s| ==> s[i].quantity > 0
    ensures Positive(s) == s
  {
    if s != [] {
      PositiveOfPositive(s[1..]);
    }
  }

  /** Filtering a sequence in which only item `k` may have run out drops
      that item and nothing else. */
  lemma {:induction false} PositiveDropsOne(s: seq<CartItem>, k: nat)
    requires k < |s| && s[k].quantity <= 0
    requires forall i :: 0 <= i < |s| && i != k ==> s[i].quantity > 0
    ensures Positive(s) == s[..k] + s[k + 1..]
  {
    if k == 0 {
      PositiveOfPositive(s[1..]);
    } else {
      PositiveDropsOne(s[1..], k - 1);
      assert s[1..][..k - 1] == s[1..k];
      assert s[1..][k..] == s[k + 1..];
      assert s[..k] == [s[0]] + s[1..k];
    }
  }

  lemma UpdateKeepsLine(cart: seq<CartItem>, k: nat, delta: int)
    requires WellFormed(cart) && k < |cart| && cart[k].quantity + delta > 0
    ensures UpdatedQuantity(cart, cart[k].id, delta) == Bumped(cart, cart[k].id, delta)
    ensures Bumped(cart, cart[k].id, delta) == cart[k := cart[k].(quantity := cart[k].quantity + delta)]
  {
    BumpOne(cart, k, delta);
    PositiveOfPositive(Bumped(cart, cart[k].id, delta));
  }

  lemma UpdateDropsLine(cart: seq<CartItem>, k: nat, delta: int)
    requires WellFormed(cart) && k < |cart| && cart[k].quantity + delta <= 0
    ensures UpdatedQuantity(cart, cart[k].id, delta) == cart[..k] + cart[k + 1..]
  {
    var bumped := cart[k := cart[k].(quantity := cart[k].quantity + delta)];
    BumpOne(cart, k, delta);
    PositiveDropsOne(bumped, k);
    assert bumped[..k] == cart[..k] && bumped[k + 1..] == cart[k + 1..];
  }

  /** Changing a line's quantity keeps the cart well formed, whatever the
      change: a line that would hold nothing or less is dropped, and the
      other lines stay where they were. */
  lemma UpdateQuantityEffect(cart: seq<CartItem>, k: nat, delta: int)
    requires WellFormed(cart) && k < |cart|
    ensures var q := cart[k].quantity + delta;
            UpdatedQuantity(cart, cart[k].id, delta) ==
              if q > 0 then cart[k := cart[k].(quantity := q)] else cart[..k] + cart[k + 1..]
    ensures WellFormed(UpdatedQuantity(cart, cart[k].id, delta))
  {
    if cart[k].quantity + delta > 0 {
      UpdateKeepsLine(cart, k, delta);
    } else {
      UpdateDropsLine(cart, k, delta);
      DropKeepsWellFormed(cart, k);
    }
  }

  /** A product that is not in the cart: a quantity change does nothing. */
  lemma UpdateAbsent(cart: seq<CartItem>, id: string, delta: int)
    requires WellFormed(cart) && !InCart(cart, id)
    ensures UpdatedQuantity(cart, id, delta) == cart
  {
    assert Bumped(cart, id, delta) == cart;
    PositiveOfPositive(cart);
  }

  lemma DropKeepsWellFormed(cart: seq<CartItem>, k: nat)
    requires WellFormed(cart) && k < |cart|
    ensures WellFormed(cart[..k] + cart[k + 1..])
  {
    var r := cart[..k] + cart[k + 1..];
    forall i, j | 0 <= i < j < |r| ensures r[i].id != r[j].id {
      var i' := if i < k then i else i + 1;
      var j' := if j < k then j else j + 1;
      assert r[i] == cart[i'] && r[j] == cart[j'];
    }
    forall i | 0 <= i < |r| ensures r[i].quantity >= 1 {
      assert r[i] == cart[if i < k then i else i + 1];
    }
  }

  lemma NotInTail(cart: seq<CartItem>, id: string)
    requires cart != []
    requires forall i :: 1 <= i < |cart| ==> cart[i].id != id
    ensures !InCart(cart[1..], id)
  {
    forall i | 0 <= i < |cart[1..]| ensures cart[1..][i].id != id {
      assert cart[1..][i] == cart[i + 1];
    }
  }

  lemma {:induction false} RemovedAbsent(cart: seq<CartItem>, id: string)
    requires !InCart(cart, id)
    ensures Removed(cart, id) == cart
  {
    if cart != [] {
      NotInTail(cart, id);
      RemovedAbsent(cart[1..], id);
    }
  }

  /** `removeFromCart` drops exactly the product's line and keeps the order
      of the rest. */
  lemma {:induction false} RemoveEffect(cart: seq<CartItem>, k: nat)
    requires WellFormed(cart) && k < |cart|
    ensures Removed(cart, cart[k].id) == cart[..k] + cart[k + 1..]
    ensures WellFormed(Removed(cart, cart[k].id))
  {
    var id := cart[k].id;
    if k == 0 {
      NotInTail(cart, id);
      RemovedAbsent(cart[1..], id);
    } else {
      TailWellFormed(cart);
      assert cart[1..][k - 1] == cart[k];
      RemoveEffect(cart[1..], k - 1);
      RemoveStep(cart, k);
    }
    DropKeepsWellFormed(cart, k);
  }

  /** The recursive step of `RemoveEffect`: a line before the removed one
      is kept in front. */
  lemma RemoveStep(cart: seq<CartItem>, k: nat)
    requires 0 < k < |cart| && cart[0].id != cart[k].id
    requires Removed(cart[1..], cart[k].id) == cart[1..][..k - 1] + cart[1..][k..]
    ensures Removed(cart, cart[k].id) == cart[..k] + cart[k + 1..]
  {
    var id := cart[k].id;
    assert cart[1..][..k - 1] == cart[1..k];
    assert cart[1..][k..] == cart[k + 1..];
    assert [cart[0]] + cart[1..k] == cart[..k];
    calc {
      Removed(cart, id);
      [cart[0]] + Removed(cart[1..], id);
      [cart[0]] + (cart[1..k] + cart[k + 1..]);
      ([cart[0]] + cart[1..k]) + cart[k + 1..];
    }
  }

  lemma TailWellFormed(cart: seq<CartItem>)
    requires WellFormed(cart) && cart != []
    ensures WellFormed(cart[1..])
  {
    var t := cart[1..];
    forall i, j | 0 <= i < j < |t| ensures t[i].id != t[j].id {
      assert t[i] == cart[i + 1] && t[j] == cart[j + 1];
    }
  }

  // ---------------------------------------------------------------------
  // The subtotal

  lemma {:induction false} SubtotalConcat(a: seq<CartItem>, b: seq<CartItem>)
    ensures Subtotal(a + b) == Subtotal(a) + Subtotal(b)
  {
    if a != [] {
      SubtotalConcat(a[1..], b);
      assert (a + b)[0] == a[0];
      assert (a + b)[1..] == a[1..] + b;
    } else {
      assert a + b == b;
    }
  }

  lemma SubtotalSplit(cart: seq<CartItem>, k: nat)
    requires k < |cart|
    ensures Subtotal(cart) == Subtotal(cart[..k]) + LineTotal(cart[k]) + Subtotal(cart[k + 1..])
  {
    assert cart == cart[..k] + ([cart[k]] + cart[k + 1..]);
    SubtotalConcat(cart[..k], [cart[k]] + cart[k + 1..]);
    assert ([cart[k]] + cart[k + 1..])[1..] == cart[k + 1..];
  }

  lemma SubtotalReplace(cart: seq<CartItem>, k: nat, v: CartItem)
    requires k < |cart|
    ensures Subtotal(cart[k := v]) == Subtotal(cart) - LineTotal(cart[k]) + LineTotal(v)
  {
    var r := cart[k := v];
    SubtotalSplit(cart, k);
    SubtotalSplit(r, k);
    assert r[..k] == cart[..k] && r[k + 1..] == cart[k + 1..];
  }

  lemma LineStep(item: CartItem, delta: int)
    ensures LineTotal(item.(quantity := item.quantity + delta)) == LineTotal(item) + delta * item.price
  {
    assert item.price * (item.quantity + delta) == item.price * item.quantity + item.price * delta;
  }

  lemma LastUnits(item: CartItem, delta: int)
    requires item.quantity + delta == 0
    ensures LineTotal(item) == delta * item.price * -1
  {
    assert item.quantity == -delta;
  }

  /** Adding a product raises the subtotal by its price, the price already
      in the cart being the grid's. */
  lemma AddToCartSubtotal(cart: seq<CartItem>, p: Offer)
    requires WellFormed(cart)
    requires forall i :: 0 <= i < |cart| && cart[i].id == p.id ==> cart[i].price == p.price
    ensures Subtotal(AddedToCart(cart, p)) == Subtotal(cart) + p.price
  {
    if InCart(cart, p.id) {
      var k :| 0 <= k < |cart| && cart[k].id == p.id;
      BumpSubtotal(cart, k, 1);
    } else {
      var v := CartItem(p.id, p.name, p.price, 1);
      SubtotalConcat(cart, [v]);
      assert Subtotal([v]) == p.price;
    }
  }

  lemma BumpSubtotal(cart: seq<CartItem>, k: nat, delta: int)
    requires WellFormed(cart) && k < |cart|
    ensures Subtotal(Bumped(cart, cart[k].id, delta)) == Subtotal(cart) + delta * cart[k].price
  {
    BumpOne(cart, k, delta);
    SubtotalReplace(cart, k, cart[k].(quantity := cart[k].quantity + delta));
    LineStep(cart[k], delta);
  }

  lemma DropSubtotal(cart: seq<CartItem>, k: nat)
    requires k < |cart|
    ensures Subtotal(cart[..k] + cart[k + 1..]) == Subtotal(cart) - LineTotal(cart[k])
  {
    SubtotalSplit(cart, k);
    SubtotalConcat(cart[..k], cart[k + 1..]);
  }

  /** A quantity change that does not go below zero moves the subtotal by
      the change times the price; the minus button on a single unit drops
      the line and its price with it. */
  lemma UpdateQuantitySubtotal(cart: seq<CartItem>, k: nat, delta: int)
    requires WellFormed(cart) && k < |cart|
    requires cart[k].quantity + delta >= 0
    ensures Subtotal(UpdatedQuantity(cart, cart[k].id, delta)) == Subtotal(cart) + delta * cart[k].price
  {
    if cart[k].quantity + delta > 0 {
      UpdateKeepsLine(cart, k, delta);
      BumpSubtotal(cart, k, delta);
    } else {
      UpdateDropsLine(cart, k, delta);
      DropSubtotal(cart, k);
      LastUnits(cart[k], delta);
    }
  }

  /** Removing a line takes its line total off the subtotal. */
  lemma RemoveSubtotal(cart: seq<CartItem>, k: nat)
    requires WellFormed(cart) && k < |cart|
    ensures Subtotal(Removed(cart, cart[k].id)) == Subtotal(cart) - cart[k].price * cart[k].quantity
  {
    RemoveEffect(cart, k);
    DropSubtotal(cart, k);
  }

  /** An empty search box shows every product. */
  lemma {:induction false} EmptyQueryShowsAll(products: seq<Offer>)
    ensures Search(products, "") == products
  {
    if products != [] {
      EmptyIsEverywhere(Lower(products[0].name));
      EmptyQueryShowsAll(products[1..]);
    }
  }

  // ---------------------------------------------------------------------
  // The screen's state

  class Screen {
    var cart: seq<CartItem>
    var searchQuery: string

    ghost predicate Valid()
      reads this
    {
      WellFormed(cart)
    }

    constructor ()
      ensures cart == [] && searchQuery == "" && Valid()
    {
      cart := [];
      searchQuery := "";
    }

    method AddToCart(p: Offer)
      requires Valid()
      modifies this`cart
      ensures Valid()
      ensures cart == AddedToCart(old(cart), p)
    {
      AddToCartEffect(cart, p);
      cart := AddedToCart(cart, p);
    }

    method UpdateQuantity(id: string, delta: int)
      requires Valid()
      modifies this`cart
      ensures Valid()
      ensures cart == UpdatedQuantity(old(cart), id, delta)
    {
      if InCart(cart, id) {
        var k :| 0 <= k < |cart| && cart[k].id == id;
        UpdateQuantityEffect(cart, k, delta);
      } else {
        UpdateAbsent(cart, id, delta);
      }
      cart := UpdatedQuantity(cart, id, delta);
    }

    method RemoveFromCart(id: string)
      requires Valid()
      modifies this`cart
      ensures Valid()
      ensures cart == Removed(old(cart), id)
    {
      if InCart(cart, id) {
        var k :| 0 <= k < |cart| && cart[k].id == id;
        RemoveEffect(cart, k);
      } else {
        RemovedAbsent(cart, id);
      }
      cart := Removed(cart, id);
    }

    method ClearCart()
      modifies this`cart
      ensures Valid() && cart == [] && Subtotal(cart) == 0
    {
      cart := [];
    }

    method SetSearchQuery(query: string)
      modifies this`searchQuery
      ensures searchQuery == query
    {
      searchQuery := query;
    }
  }
}
