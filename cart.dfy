/** The storefront cart: a list of lines, at most one per variant, each
    capped by the stock the shopper last saw, and whether the cart drawer is
    open. */
module ShopCart {
  import opened Common

  /** What the shop shows about a variant when it is added to the cart. */
  datatype Listing = Listing(
    variantId: nat,
    productId: nat,
    nameKm: string,
    nameEn: Option<string>,
    salePrice: Money,
    imageUrl: Option<string>,
    size: Option<string>,
    color: Option<string>,
    sku: string,
    stockOnHand: int)

  /** A cart line: the listing as it was added, and a quantity. */
  datatype CartItem = CartItem(listing: Listing, qty: int)

  ghost predicate UniqueIds(items: seq<CartItem>) {
    forall i, j :: 0 <= i < j < |items| ==> items[i].listing.variantId != items[j].listing.variantId
  }

  /** `findIndex` by variant id. */
  function FindLine(items: seq<CartItem>, variantId: nat): (r: Option<nat>)
    ensures r.Some? ==> r.value < |items| && items[r.value].listing.variantId == variantId
    ensures r.Some? ==> forall j :: 0 <= j < r.value ==> items[j].listing.variantId != variantId
    ensures r.None? ==> forall j :: 0 <= j < |items| ==> items[j].listing.variantId != variantId
  {
    if items == [] then None
    else if items[0].listing.variantId == variantId then Some(0)
    else match FindLine(items[1..], variantId) {
      case None => None
      case Some(i) => Some(i + 1)
    }
  }

  /** The `filter` of `removeItem`. */
  function Without(items: seq<CartItem>, variantId: nat): (r: seq<CartItem>)
    ensures |r| <= |items|
  {
    if items == [] then []
    else
      var last := items[|items| - 1];
      Without(items[..|items| - 1], variantId) + (if last.listing.variantId == variantId then [] else [last])
  }

  /** `removeItem` keeps exactly the lines of other variants. */
  lemma {:induction false} WithoutMembers(items: seq<CartItem>, variantId: nat)
    ensures forall x :: x in Without(items, variantId) <==> x in items && x.listing.variantId != variantId
  {
    if items != [] {
      var p, last := items[..|items| - 1], items[|items| - 1];
      WithoutMembers(p, variantId);
      assert items == p + [last];
    }
  }

  /** `Math.min(Math.max(1, qty), stockOnHand)`. */
  function ClampQty(qty: int, stockOnHand: int): (r: int)
    ensures r <= stockOnHand
    ensures stockOnHand >= 1 ==> 1 <= r
    ensures 1 <= qty <= stockOnHand ==> r == qty
  {
    Min(Max(1, qty), stockOnHand)
  }

  /** The `map` of `updateQty`. */
  function WithQty(items: seq<CartItem>, variantId: nat, qty: int): (r: seq<CartItem>)
    ensures |r| == |items|
    ensures forall i :: 0 <= i < |items| ==>
      r[i] == (if items[i].listing.variantId == variantId then items[i].(qty := ClampQty(qty, items[i].listing.stockOnHand)) else items[i])
  {
    if items == [] then []
    else
      var it := items[0];
      [if it.listing.variantId == variantId then it.(qty := ClampQty(qty, it.listing.stockOnHand)) else it]
      + WithQty(items[1..], variantId, qty)
  }

  /** `getCartTotal`: sum of price x quantity. */
  function CartTotal(items: seq<CartItem>): Money {
    if items == [] then 0.0
    else CartTotal(items[..|items| - 1]) + items[|items| - 1].listing.salePrice * (items[|items| - 1].qty as real)
  }

  /** `getCartCount`: sum of quantities. */
  function CartCount(items: seq<CartItem>): int {
    if items == [] then 0 else CartCount(items[..|items| - 1]) + items[|items| - 1].qty
  }

  /** Adding a line adds its quantity and its price x quantity. */
  lemma CartSumsAppend(items: seq<CartItem>, x: CartItem)
    ensures CartCount(items + [x]) == CartCount(items) + x.qty
    ensures CartTotal(items + [x]) == CartTotal(items) + x.listing.salePrice * (x.qty as real)
  {
    assert (items + [x])[..|items|] == items;
  }

  lemma CountAppend(items: seq<CartItem>, x: CartItem)
    ensures CartCount(items + [x]) == CartCount(items) + x.qty
  {
    assert (items + [x])[..|items|] == items;
  }

  /** Changing one line's quantity moves the sums by exactly that change. */
  lemma {:induction false} CartSumsUpdate(items: seq<CartItem>, i: nat, qty: int)
    requires i < |items|
    ensures var after := items[i := items[i].(qty := qty)];
      && CartCount(after) == CartCount(items) - items[i].qty + qty
      && CartTotal(after) == CartTotal(items) - items[i].listing.salePrice * (items[i].qty as real)
                             + items[i].listing.salePrice * (qty as real)
  {
    var after := items[i := items[i].(qty := qty)];
    var n := |items|;
    if i == n - 1 {
      assert after[..n - 1] == items[..n - 1];
    } else {
      assert after[..n - 1] == items[..n - 1][i := items[i].(qty := qty)];
      CartSumsUpdate(items[..n - 1], i, qty);
    }
  }

  /** Removing a variant's only line takes exactly its quantity off the
      count. */
  lemma {:induction false} CartCountWithout(items: seq<CartItem>, i: nat)
    requires UniqueIds(items) && i < |items|
    ensures CartCount(Without(items, items[i].listing.variantId)) == CartCount(items) - items[i].qty
  {
    var id := items[i].listing.variantId;
    var n := |items|;
    var p := items[..n - 1];
    if i == n - 1 {
      forall j | 0 <= j < |p| ensures p[j].listing.variantId != id {
        assert p[j] == items[j];
      }
      WithoutAbsent(p, id);
      assert Without(items, id) == Without(p, id);
      assert items == p + [items[i]];
      CountAppend(p, items[i]);
    } else {
      assert p[i] == items[i];
      assert items[n - 1].listing.variantId != id;
      assert Without(items, id) == Without(p, id) + [items[n - 1]];
      PrefixKeepsUnique(items);
      CartCountWithout(p, i);
      CountAppend(Without(p, id), items[n - 1]);
    }
  }

  lemma {:induction false} WithoutAbsent(items: seq<CartItem>, variantId: nat)
    requires forall j :: 0 <= j < |items| ==> items[j].listing.variantId != variantId
    ensures Without(items, variantId) == items
  {
    if items != [] {
      var p := items[..|items| - 1];
      WithoutAbsent(p, variantId);
    }
  }

  class Cart {
    var items: seq<CartItem>
    var isDrawerOpen: bool

    ghost predicate Valid()
      reads this
    {
      UniqueIds(items)
    }

    constructor ()
      ensures Valid() && items == [] && !isDrawerOpen
    {
      items, isDrawerOpen := [], false;
    }

    method SetIsDrawerOpen(isOpen: bool)
      modifies this
      ensures isDrawerOpen == isOpen && items == old(items)
    {
      isDrawerOpen := isOpen;
    }

    /** `addItem`: an existing line grows by `qty` (default 1) but no further
        than the listing's stock; a new variant gets a line of `qty`, also
        capped. The drawer opens either way. */
    method AddItem(item: Listing, qty: Option<int>)
      requires Valid()
      modifies this
      ensures Valid() && isDrawerOpen
      ensures var q := if qty.Some? then qty.value else 1;
        match FindLine(old(items), item.variantId)
        case None => items == old(items) + [CartItem(item, Min(q, item.stockOnHand))]
        case Some(i) => items == old(items)[i := old(items)[i].(qty := Min(old(items)[i].qty + q, item.stockOnHand))]
    {
      var q := if qty.Some? then qty.value else 1;
      var found := FindLine(items, item.variantId);
      if found.Some? {
        var i := found.value;
        items := items[i := items[i].(qty := Min(items[i].qty + q, item.stockOnHand))];
      } else {
        items := items + [CartItem(item, Min(q, item.stockOnHand))];
      }
      isDrawerOpen := true;
    }

    /** `removeItem`: drops the variant's line, keeping the others in order. */
    method RemoveItem(variantId: nat)
      requires Valid()
      modifies this
      ensures Valid() && items == Without(old(items), variantId) && isDrawerOpen == old(isDrawerOpen)
    {
      WithoutKeepsUnique(items, variantId);
      items := Without(items, variantId);
    }

    /** `updateQty`: the variant's line gets the wanted quantity, at least 1
        and at most its stock; other lines are untouched. */
    method UpdateQty(variantId: nat, qty: int)
      requires Valid()
      modifies this
      ensures Valid() && items == WithQty(old(items), variantId, qty) && isDrawerOpen == old(isDrawerOpen)
    {
      items := WithQty(items, variantId, qty);
    }

    method ClearCart()
      modifies this
      ensures items == [] && isDrawerOpen == old(isDrawerOpen)
    {
      items := [];
    }
  }

  lemma PrefixKeepsUnique(items: seq<CartItem>)
    requires UniqueIds(items) && items != []
    ensures UniqueIds(items[..|items| - 1])
  {
    var p := items[..|items| - 1];
    forall a, b | 0 <= a < b < |p| ensures p[a].listing.variantId != p[b].listing.variantId {
      assert p[a] == items[a] && p[b] == items[b];
    }
  }

  lemma AppendKeepsUnique(items: seq<CartItem>, x: CartItem)
    requires UniqueIds(items)
    requires forall y :: y in items ==> y.listing.variantId != x.listing.variantId
    ensures UniqueIds(items + [x])
  {
    var r := items + [x];
    forall i, j | 0 <= i < j < |r| ensures r[i].listing.variantId != r[j].listing.variantId {
      assert r[i] == items[i];
      if j < |items| {
        assert r[j] == items[j];
      }
    }
  }

  lemma {:induction false} WithoutKeepsUnique(items: seq<CartItem>, variantId: nat)
    requires UniqueIds(items)
    ensures UniqueIds(Without(items, variantId))
  {
    if items != [] {
      var n := |items|;
      var p := items[..n - 1];
      var last := items[n - 1];
      var rest := Without(p, variantId);
      PrefixKeepsUnique(items);
      WithoutKeepsUnique(p, variantId);
      WithoutMembers(p, variantId);
      if last.listing.variantId != variantId {
        forall x | x in rest ensures x.listing.variantId != last.listing.variantId {
          var k :| 0 <= k < |p| && p[k] == x;
          assert items[k] == x;
        }
        AppendKeepsUnique(rest, last);
        assert Without(items, variantId) == rest + [last];
      } else {
        assert Without(items, variantId) == rest;
      }
    }
  }

  /** In a cart with one line per variant, `updateQty` changes exactly the
      found line (or nothing when the variant is not in the cart), so the
      count moves by the clamped quantity minus the old one. */
  lemma WithQtyIsUpdate(items: seq<CartItem>, variantId: nat, qty: int)
    requires UniqueIds(items)
    ensures FindLine(items, variantId).None? ==> WithQty(items, variantId, qty) == items
    ensures FindLine(items, variantId).Some? ==>
      var i := FindLine(items, variantId).value;
      var q := ClampQty(qty, items[i].listing.stockOnHand);
      && WithQty(items, variantId, qty) == items[i := items[i].(qty := q)]
      && CartCount(WithQty(items, variantId, qty)) == CartCount(items) - items[i].qty + q
  {
    var r := WithQty(items, variantId, qty);
    match FindLine(items, variantId)
    case None =>
      assert r == items;
    case Some(i) =>
      var q := ClampQty(qty, items[i].listing.stockOnHand);
      assert r == items[i := items[i].(qty := q)];
      CartSumsUpdate(items, i, q);
  }

  /** What `addItem` does to the count: a new variant adds its capped
      quantity; an existing one moves to its capped new quantity. Either
      way the variant keeps exactly one line. */
  lemma AddItemCount(items: seq<CartItem>, item: Listing, q: int)
    requires UniqueIds(items)
    ensures FindLine(items, item.variantId).None? ==>
      var after := items + [CartItem(item, Min(q, item.stockOnHand))];
      UniqueIds(after) && CartCount(after) == CartCount(items) + Min(q, item.stockOnHand)
    ensures FindLine(items, item.variantId).Some? ==>
      var i := FindLine(items, item.variantId).value;
      var after := items[i := items[i].(qty := Min(items[i].qty + q, item.stockOnHand))];
      UniqueIds(after) && |after| == |items|
      && CartCount(after) == CartCount(items) - items[i].qty + Min(items[i].qty + q, item.stockOnHand)
  {
    match FindLine(items, item.variantId)
    case None =>
      CartSumsAppend(items, CartItem(item, Min(q, item.stockOnHand)));
    case Some(i) =>
      CartSumsUpdate(items, i, Min(items[i].qty + q, item.stockOnHand));
  }
}
