/** `CartSessionService`: the shopping cart kept in the user's session, read,
    changed and written back whole by every operation. */
module CartSession {
  import opened Wrappers
  import opened Numerics
  import opened Guids

  /** One cart line. `Price` is a `decimal` in the source. */
  datatype ShoppingCartItem = ShoppingCartItem(productId: Guid, name: string, price: real, quantity: int32)

  /** At most one line per product. */
  predicate UniqueIds(cart: seq<ShoppingCartItem>) {
    forall i, j :: 0 <= i < j < |cart| ==> cart[i].productId != cart[j].productId
  }

  /** `FirstOrDefault(p => p.ProductId == productId)`, as a position. */
  function FirstIndex(cart: seq<ShoppingCartItem>, productId: Guid): (r: Option<nat>)
    ensures r.Some? ==> r.value < |cart| && cart[r.value].productId == productId
    ensures r.Some? ==> forall j :: 0 <= j < r.value ==> cart[j].productId != productId
    ensures r.None? ==> forall j :: 0 <= j < |cart| ==> cart[j].productId != productId
  {
    if cart == [] then None
    else if cart[0].productId == productId then Some(0)
    else
      match FirstIndex(cart[1..], productId)
      case None => None
      case Some(k) => Some(k + 1)
  }

  /** The cart after adding `item`: an existing line for the product takes
      the quantity (with `int` wrap-around), otherwise the item is appended. */
  function AddItem(cart: seq<ShoppingCartItem>, item: ShoppingCartItem): (r: seq<ShoppingCartItem>)
  {
    match FirstIndex(cart, item.productId)
    case Some(i) => cart[i := cart[i].(quantity := Wrap32(cart[i].quantity + item.quantity))]
    case None => cart + [item]
  }

  /** `RemoveAll(p => p.ProductId == productId)`: the other lines, in order. */
  function Without(cart: seq<ShoppingCartItem>, productId: Guid): (r: seq<ShoppingCartItem>)
    ensures |r| <= |cart|
    ensures forall x :: x in r <==> x in cart && x.productId != productId
  {
    if cart == [] then []
    else
      var last := cart[|cart| - 1];
      Without(cart[..|cart| - 1], productId) + (if last.productId == productId then [] else [last])
  }

  /** Adding a product already in the cart changes only its first line, and
      only that line's quantity; the incoming name and price are ignored. */
  lemma AddExisting(cart: seq<ShoppingCartItem>, item: ShoppingCartItem, i: nat)
    requires i < |cart| && cart[i].productId == item.productId
    requires forall j :: 0 <= j < i ==> cart[j].productId != item.productId
    ensures var r := AddItem(cart, item);
      && |r| == |cart|
      && r[i] == ShoppingCartItem(cart[i].productId, cart[i].name, cart[i].price,
                                  Wrap32(cart[i].quantity + item.quantity))
      && forall j :: 0 <= j < |cart| && j != i ==> r[j] == cart[j]
  {
    assert FirstIndex(cart, item.productId) == Some(i);
  }

  /** Adding a product not in the cart appends the item as given. */
  lemma AddNew(cart: seq<ShoppingCartItem>, item: ShoppingCartItem)
    requires forall j :: 0 <= j < |cart| ==> cart[j].productId != item.productId
    ensures AddItem(cart, item) == cart + [item]
  {
  }

  /** Adding keeps at most one line per product. */
  lemma AddKeepsIdsUnique(cart: seq<ShoppingCartItem>, item: ShoppingCartItem)
    requires UniqueIds(cart)
    ensures UniqueIds(AddItem(cart, item))
  {
    var r := AddItem(cart, item);
    match FirstIndex(cart, item.productId)
    case Some(i) =>
      assert forall j :: 0 <= j < |r| ==> r[j].productId == cart[j].productId;
    case None =>
      assert forall j :: 0 <= j < |cart| ==> r[j] == cart[j];
  }

  /** Removing a product the cart does not hold changes nothing. */
  lemma {:induction false} RemoveAbsent(cart: seq<ShoppingCartItem>, productId: Guid)
    requires forall j :: 0 <= j < |cart| ==> cart[j].productId != productId
    ensures Without(cart, productId) == cart
  {
    if cart != [] {
      RemoveAbsent(cart[..|cart| - 1], productId);
      assert cart == cart[..|cart| - 1] + [cart[|cart| - 1]];
    }
  }

  /** Removing from a cart with one more line at its end. */
  lemma WithoutSnoc(init: seq<ShoppingCartItem>, last: ShoppingCartItem, productId: Guid)
    ensures Without(init + [last], productId) ==
      Without(init, productId) + (if last.productId == productId then [] else [last])
  {
    assert (init + [last])[..|init|] == init;
  }

  /** A non-empty sequence is its front followed by its last element. */
  lemma SplitLast<T>(a: seq<T>, b: seq<T>)
    requires b != []
    ensures b == b[..|b| - 1] + [b[|b| - 1]]
    ensures a + b == (a + b[..|b| - 1]) + [b[|b| - 1]]
  {
  }

  lemma AppendAssoc<T>(x: seq<T>, y: seq<T>, z: seq<T>)
    ensures (x + y) + z == x + (y + z)
  {
  }

  /** Removing is an order-preserving filter: it works on each part of a
      cart separately and keeps the parts in order. */
  lemma {:induction false} WithoutAppend(a: seq<ShoppingCartItem>, b: seq<ShoppingCartItem>, productId: Guid)
    ensures Without(a + b, productId) == Without(a, productId) + Without(b, productId)
    decreases |b|
  {
    if b == [] {
      assert a + b == a;
    } else {
      var init, last := b[..|b| - 1], b[|b| - 1];
      var wa, wi := Without(a, productId), Without(init, productId);
      var t := if last.productId == productId then [] else [last];
      SplitLast(a, b);
      calc {
        Without(a + b, productId);
        Without((a + init) + [last], productId);
        { WithoutSnoc(a + init, last, productId); }
        Without(a + init, productId) + t;
        { WithoutAppend(a, init, productId); }
        (wa + wi) + t;
        { AppendAssoc(wa, wi, t); }
        wa + (wi + t);
        { WithoutSnoc(init, last, productId); }
        wa + Without(init + [last], productId);
        wa + Without(b, productId);
      }
    }
  }

  /** Removing from a cart with one line per product keeps it so. */
  lemma {:induction false} RemoveKeepsIdsUnique(cart: seq<ShoppingCartItem>, productId: Guid)
    requires UniqueIds(cart)
    ensures UniqueIds(Without(cart, productId))
  {
    if cart != [] {
      var init := cart[..|cart| - 1];
      var last := cart[|cart| - 1];
      RemoveKeepsIdsUnique(init, productId);
      var w := Without(init, productId);
      forall x | x in w ensures x.productId != last.productId {
        var j :| 0 <= j < |init| && init[j] == x;
        assert cart[j] == x;
      }
    }
  }

  /** The service; its state is the session the request carries. */
  class CartSessionService {
    /** Whether the request has a session at all. */
    var hasSession: bool
    /** The "ShoppingCart" entry of the session, `None` if it was never written. */
    var stored: Option<seq<ShoppingCartItem>>

    constructor(hasSession: bool, stored: Option<seq<ShoppingCartItem>>)
      ensures this.hasSession == hasSession && this.stored == stored
    {
      this.hasSession := hasSession;
      this.stored := stored;
    }

    /** The cart a `GetCart` call sees. */
    function Cart(): seq<ShoppingCartItem>
      reads this
    {
      if hasSession && stored.Some? then stored.value else []
    }

    /** `GetCart`: the stored cart; empty without a session or a stored entry. */
    method GetCart() returns (cart: seq<ShoppingCartItem>)
      ensures !hasSession || stored.None? ==> cart == []
      ensures hasSession && stored.Some? ==> cart == stored.value
      ensures cart == Cart()
    {
      if hasSession && stored.Some? {
        cart := stored.value;
      } else {
        cart := [];
      }
    }

    /** `SaveCart`: writes the cart to the session, if there is one. */
    method SaveCart(cart: seq<ShoppingCartItem>)
      modifies this
      ensures hasSession == old(hasSession)
      ensures hasSession ==> stored == Some(cart) && Cart() == cart
      ensures !hasSession ==> stored == old(stored)
    {
      if hasSession {
        stored := Some(cart);
      }
    }

    /** `AddToCart`: merge into the first line for the product, or append. */
    method AddToCart(item: ShoppingCartItem)
      modifies this
      ensures hasSession == old(hasSession)
      ensures hasSession ==> Cart() == AddItem(old(Cart()), item)
      ensures !hasSession ==> stored == old(stored)
      ensures UniqueIds(old(Cart())) ==> UniqueIds(Cart())
    {
      var cart := GetCart();
      var existing: Option<nat> := None;
      var i := 0;
      while i < |cart| && existing.None?
        invariant 0 <= i <= |cart|
        invariant existing.None? ==> forall j :: 0 <= j < i ==> cart[j].productId != item.productId
        invariant existing.Some? ==> existing == FirstIndex(cart, item.productId)
      {
        if cart[i].productId == item.productId {
          existing := Some(i);
        }
        i := i + 1;
      }
      assert existing == FirstIndex(cart, item.productId);
      if existing.Some? {
        var e := existing.value;
        cart := cart[e := cart[e].(quantity := Wrap32(cart[e].quantity + item.quantity))];
      } else {
        cart := cart + [item];
      }
      if UniqueIds(old(Cart())) {
        AddKeepsIdsUnique(old(Cart()), item);
      }
      SaveCart(cart);
    }

    /** `RemoveFromCart`: drop every line for the product. */
    method RemoveFromCart(productId: Guid)
      modifies this
      ensures hasSession == old(hasSession)
      ensures hasSession ==> Cart() == Without(old(Cart()), productId)
      ensures !hasSession ==> stored == old(stored)
      ensures UniqueIds(old(Cart())) ==> UniqueIds(Cart())
    {
      var cart := GetCart();
      var kept: seq<ShoppingCartItem> := [];
      for i := 0 to |cart|
        invariant kept == Without(cart[..i], productId)
      {
        assert cart[..i + 1][..i] == cart[..i];
        if cart[i].productId != productId {
          kept := kept + [cart[i]];
        }
      }
      assert cart[..|cart|] == cart;
      if UniqueIds(cart) {
        RemoveKeepsIdsUnique(cart, productId);
      }
      SaveCart(kept);
    }

    /** `ClearCart`: store an empty cart. */
    method ClearCart()
      modifies this
      ensures hasSession == old(hasSession)
      ensures hasSession ==> Cart() == []
      ensures !hasSession ==> stored == old(stored)
    {
      SaveCart([]);
    }
  }
}
