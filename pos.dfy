/** The point-of-sale screen's cart helpers: which products can be sold,
    the search box, the cart updaters, the totals shown to staff and the
    order request a checkout submits. */
module Pos {
  import opened Common
  import opened Domain
  import Checkout

  datatype PosVariant = PosVariant(
    id: nat,
    size: string,
    color: string,
    sku: string,
    salePrice: Money,
    stockOnHand: int,
    reservedQty: int)

  datatype PosProduct = PosProduct(
    id: nat,
    nameKm: string,
    nameEn: Option<string>,
    variants: seq<PosVariant>,
    images: seq<string>,
    isActive: bool)

  /** A POS cart line. */
  datatype PosLine = PosLine(
    variantId: nat,
    productId: nat,
    nameKm: string,
    size: string,
    color: string,
    salePrice: Money,
    qty: int)

  /** The checkout form. */
  datatype PosForm = PosForm(
    customerName: string,
    customerPhone: string,
    deliveryZone: DeliveryZone,
    deliveryAddress: string,
    paymentMethod: PaymentMethod,
    note: string)

  function Available(v: PosVariant): int {
    v.stockOnHand - v.reservedQty
  }

  // ---------------------------------------------------------------------
  // The sellable catalogue and the search box
  // ---------------------------------------------------------------------

  /** The variants with something left to sell, in their order. */
  function InStock(vs: seq<PosVariant>): (r: seq<PosVariant>)
    ensures |r| <= |vs|
    ensures forall v :: v in r <==> v in vs && Available(v) > 0
  {
    if vs == [] then []
    else
      var last := vs[|vs| - 1];
      assert forall v :: v in vs <==> v in vs[..|vs| - 1] || v == last;
      InStock(vs[..|vs| - 1]) + (if Available(last) > 0 then [last] else [])
  }

  function Stocked(p: PosProduct): PosProduct {
    p.(variants := InStock(p.variants))
  }

  predicate Sellable(p: PosProduct) {
    p.isActive && |Stocked(p).variants| > 0
  }

  /** `fetchProducts`: every product trimmed to its variants with stock left,
      then only the active products that still have one. */
  function FetchProducts(ps: seq<PosProduct>): (r: seq<PosProduct>)
    ensures |r| <= |ps|
    ensures forall q :: q in r <==> exists p :: p in ps && Sellable(p) && q == Stocked(p)
  {
    if ps == [] then []
    else
      var last := ps[|ps| - 1];
      assert forall p :: p in ps <==> p in ps[..|ps| - 1] || p == last;
      FetchProducts(ps[..|ps| - 1]) + (if Sellable(last) then [Stocked(last)] else [])
  }

  /** Whatever `fetchProducts` keeps is active, and every variant it shows
      has stock beyond what is reserved. */
  lemma FetchedAreSellable(ps: seq<PosProduct>, q: PosProduct)
    requires q in FetchProducts(ps)
    ensures q.isActive && |q.variants| > 0
    ensures forall v :: v in q.variants ==> Available(v) > 0
  {
    var p :| p in ps && Sellable(p) && q == Stocked(p);
  }

  predicate NameMatches(p: PosProduct, query: string) {
    ContainsInsensitive(p.nameKm, query) || (p.nameEn.Some? && p.nameEn.value != "" && ContainsInsensitive(p.nameEn.value, query))
  }

  /** The search effect: a blank query shows every product, any other
      query filters by a case-insensitive substring of either name. */
  function Search(ps: seq<PosProduct>, query: string): (r: seq<PosProduct>)
    ensures IsBlank(query) ==> r == ps
    ensures !IsBlank(query) ==> forall p :: p in r <==> p in ps && NameMatches(p, query)
    ensures |r| <= |ps|
  {
    if IsBlank(query) then ps else MatchingNames(ps, query)
  }

  function MatchingNames(ps: seq<PosProduct>, query: string): (r: seq<PosProduct>)
    ensures |r| <= |ps|
    ensures forall p :: p in r <==> p in ps && NameMatches(p, query)
  {
    if ps == [] then []
    else
      var last := ps[|ps| - 1];
      assert forall p :: p in ps <==> p in ps[..|ps| - 1] || p == last;
      MatchingNames(ps[..|ps| - 1], query) + (if NameMatches(last, query) then [last] else [])
  }

  /** A product is found by the exact text of its Khmer name, whatever the
      letter case of the query. */
  lemma SearchFindsOwnName(ps: seq<PosProduct>, p: PosProduct)
    requires p in ps && !IsBlank(p.nameKm)
    ensures p in Search(ps, p.nameKm) && p in Search(ps, Lower(p.nameKm))
  {
    var l := Lower(p.nameKm);
    assert OccursAt(l, l, 0);
    ContainsAt(l, l);
    LowerIdempotent(p.nameKm);
    ContainsAt(l, Lower(l));
    assert !IsBlank(l) by {
      var k :| 0 <= k < |p.nameKm| && !IsSpace(p.nameKm[k]);
      assert l[k] == LowerChar(p.nameKm[k]);
    }
  }

  lemma LowerIdempotent(s: string)
    ensures Lower(Lower(s)) == Lower(s)
  {
    var l := Lower(s);
    assert forall i :: 0 <= i < |s| ==> Lower(l)[i] == LowerChar(LowerChar(s[i])) == LowerChar(s[i]);
  }

  // ---------------------------------------------------------------------
  // The cart updaters
  // ---------------------------------------------------------------------

  ghost predicate UniqueLines(cart: seq<PosLine>) {
    forall i, j :: 0 <= i < j < |cart| ==> cart[i].variantId != cart[j].variantId
  }

  /** Every line holds at least one unit. */
  ghost predicate Positive(cart: seq<PosLine>) {
    forall l :: l in cart ==> l.qty >= 1
  }

  function FindLine(cart: seq<PosLine>, variantId: nat): (r: Option<nat>)
    ensures r.Some? ==> r.value < |cart| && cart[r.value].variantId == variantId
    ensures r.Some? ==> forall j :: 0 <= j < r.value ==> cart[j].variantId != variantId
    ensures r.None? ==> forall j :: 0 <= j < |cart| ==> cart[j].variantId != variantId
  {
    if cart == [] then None
    else if cart[0].variantId == variantId then Some(0)
    else match FindLine(cart[1..], variantId) {
      case None => None
      case Some(i) => Some(i + 1)
    }
  }

  /** `addToCart`: one more unit of a variant already in the cart, unless
      the line already holds all the available stock; a new variant gets a
      line of one unit. */
  function AddToCart(cart: seq<PosLine>, v: PosVariant, p: PosProduct): (r: seq<PosLine>)
    ensures FindLine(cart, v.id).None? ==>
      r == cart + [PosLine(v.id, p.id, p.nameKm, v.size, v.color, v.salePrice, 1)]
    ensures FindLine(cart, v.id).Some? ==>
      var i := FindLine(cart, v.id).value;
      && |r| == |cart|
      && (cart[i].qty >= Available(v) ==> r == cart)
      && (cart[i].qty < Available(v) ==> r == cart[i := cart[i].(qty := cart[i].qty + 1)])
  {
    match FindLine(cart, v.id)
    case None => cart + [PosLine(v.id, p.id, p.nameKm, v.size, v.color, v.salePrice, 1)]
    case Some(i) =>
      if cart[i].qty >= Available(v) then cart
      else cart[i := cart[i].(qty := cart[i].qty + 1)]
  }

  /** The `map` of `updateCartQty`: the variant's line moves by `delta`
      unless that would leave it at zero or below. */
  function UpdateCartQty(cart: seq<PosLine>, variantId: nat, delta: int): (r: seq<PosLine>)
    ensures |r| == |cart|
    ensures forall i :: 0 <= i < |cart| ==>
      (r[i] == if cart[i].variantId == variantId && cart[i].qty + delta > 0 then cart[i].(qty := cart[i].qty + delta) else cart[i])
  {
    if cart == [] then []
    else
      var l := cart[0];
      [if l.variantId == variantId && l.qty + delta > 0 then l.(qty := l.qty + delta) else l]
      + UpdateCartQty(cart[1..], variantId, delta)
  }

  /** The `filter` of `removeFromCart`. */
  function RemoveFromCart(cart: seq<PosLine>, variantId: nat): (r: seq<PosLine>)
    ensures |r| <= |cart|
    ensures forall l :: l in r <==> l in cart && l.variantId != variantId
  {
    if cart == [] then []
    else
      var last := cart[|cart| - 1];
      assert forall l :: l in cart <==> l in cart[..|cart| - 1] || l == last;
      RemoveFromCart(cart[..|cart| - 1], variantId) + (if last.variantId == variantId then [] else [last])
  }

  /** The minus button of line `i`: one unit less, or the line goes away
      when it holds a single unit. */
  function MinusButton(cart: seq<PosLine>, i: nat): seq<PosLine>
    requires i < |cart|
  {
    if cart[i].qty > 1 then UpdateCartQty(cart, cart[i].variantId, -1)
    else RemoveFromCart(cart, cart[i].variantId)
  }

  /** The plus button of line `i`. */
  function PlusButton(cart: seq<PosLine>, i: nat): seq<PosLine>
    requires i < |cart|
  {
    UpdateCartQty(cart, cart[i].variantId, 1)
  }

  /** Every updater keeps one line per variant and at least one unit per
      line. */
  lemma AddToCartKeeps(cart: seq<PosLine>, v: PosVariant, p: PosProduct)
    requires UniqueLines(cart) && Positive(cart)
    ensures UniqueLines(AddToCart(cart, v, p)) && Positive(AddToCart(cart, v, p))
  {
  }

  lemma UpdateCartQtyKeeps(cart: seq<PosLine>, variantId: nat, delta: int)
    requires UniqueLines(cart) && Positive(cart)
    ensures UniqueLines(UpdateCartQty(cart, variantId, delta)) && Positive(UpdateCartQty(cart, variantId, delta))
  {
  }

  lemma {:induction false} RemoveFromCartKeeps(cart: seq<PosLine>, variantId: nat)
    requires UniqueLines(cart)
    ensures UniqueLines(RemoveFromCart(cart, variantId))
    ensures Positive(cart) ==> Positive(RemoveFromCart(cart, variantId))
  {
    if cart != [] {
      var n := |cart|;
      var p := cart[..n - 1];
      var last := cart[n - 1];
      var rest := RemoveFromCart(p, variantId);
      assert UniqueLines(rest) by {
        PrefixKeeps(cart);
        RemoveFromCartKeeps(p, variantId);
      }
      if last.variantId != variantId {
        assert forall l :: l in rest ==> l.variantId != last.variantId by {
          forall l | l in rest ensures l.variantId != last.variantId {
            var k :| 0 <= k < |p| && p[k] == l;
            assert cart[k] == l;
          }
        }
        assert RemoveFromCart(cart, variantId) == rest + [last];
        AppendKeepsUnique(rest, last);
      } else {
        assert RemoveFromCart(cart, variantId) == rest;
      }
    }
  }

  lemma AppendKeepsUnique(cart: seq<PosLine>, l: PosLine)
    requires UniqueLines(cart)
    requires forall x :: x in cart ==> x.variantId != l.variantId
    ensures UniqueLines(cart + [l])
  {
    var r := cart + [l];
    forall a, b | 0 <= a < b < |r| ensures r[a].variantId != r[b].variantId {
      assert r[a] == cart[a];
      if b < |cart| { assert r[b] == cart[b]; }
    }
  }

  /** The minus button takes exactly one unit off the cart, and its price
      off the subtotal: from the line itself, or by removing a single-unit
      line. */
  lemma MinusButtonSums(cart: seq<PosLine>, i: nat)
    requires UniqueLines(cart) && Positive(cart) && i < |cart|
    ensures UniqueLines(MinusButton(cart, i)) && Positive(MinusButton(cart, i))
    ensures PosCount(MinusButton(cart, i)) == PosCount(cart) - 1
    ensures PosSubtotal(MinusButton(cart, i)) == PosSubtotal(cart) - cart[i].salePrice
  {
    if cart[i].qty > 1 {
      MinusOneUnit(cart, i);
    } else {
      assert cart[i] in cart;
      assert cart[i].qty == 1;
      assert LineAmount(cart[i]) == cart[i].salePrice * 1.0;
      RemoveFromCartKeeps(cart, cart[i].variantId);
      PosSumsRemove(cart, i);
    }
  }

  lemma MinusOneUnit(cart: seq<PosLine>, i: nat)
    requires UniqueLines(cart) && Positive(cart) && i < |cart| && cart[i].qty > 1
    ensures var r := UpdateCartQty(cart, cart[i].variantId, -1);
      && UniqueLines(r) && Positive(r) && PosCount(r) == PosCount(cart) - 1
      && PosSubtotal(r) == PosSubtotal(cart) - cart[i].salePrice
  {
    UpdateCartQtyKeeps(cart, cart[i].variantId, -1);
    UpdateCartQtySums(cart, i, -1);
  }

  /** The plus button adds one unit to the cart and its price to the
      subtotal. */
  lemma PlusButtonSums(cart: seq<PosLine>, i: nat)
    requires UniqueLines(cart) && Positive(cart) && i < |cart|
    ensures PosCount(PlusButton(cart, i)) == PosCount(cart) + 1
    ensures PosSubtotal(PlusButton(cart, i)) == PosSubtotal(cart) + cart[i].salePrice
  {
    UpdateCartQtySums(cart, i, 1);
  }

  lemma LineAmountStep(l: PosLine, d: int)
    ensures LineAmount(l.(qty := l.qty + d)) == LineAmount(l) + l.salePrice * (d as real)
  {
    assert (l.qty + d) as real == l.qty as real + d as real;
  }

  /** In a cart with one line per variant, a change of the variant's line
      that keeps it positive moves the count by exactly that change and the
      subtotal by that change times the line's price. */
  lemma UpdateCartQtySums(cart: seq<PosLine>, i: nat, delta: int)
    requires UniqueLines(cart) && i < |cart| && cart[i].qty + delta > 0
    ensures PosCount(UpdateCartQty(cart, cart[i].variantId, delta)) == PosCount(cart) + delta
    ensures PosSubtotal(UpdateCartQty(cart, cart[i].variantId, delta))
      == PosSubtotal(cart) + cart[i].salePrice * (delta as real)
  {
    var r := UpdateCartQty(cart, cart[i].variantId, delta);
    var after := cart[i := cart[i].(qty := cart[i].qty + delta)];
    UpdateCartQtyOneLine(cart, i, delta);
    PosSumsUpdate(cart, i, cart[i].qty + delta);
    SubtotalShift(cart, i, delta);
    assert PosSubtotal(r) == PosSubtotal(after);
  }

  lemma SubtotalShift(cart: seq<PosLine>, i: nat, delta: int)
    requires i < |cart|
    ensures PosSubtotal(cart[i := cart[i].(qty := cart[i].qty + delta)]) == PosSubtotal(cart) + cart[i].salePrice * (delta as real)
  {
    PosSumsUpdate(cart, i, cart[i].qty + delta);
    LineAmountStep(cart[i], delta);
  }

  /** With one line per variant, the update touches that line alone. */
  lemma UpdateCartQtyOneLine(cart: seq<PosLine>, i: nat, delta: int)
    requires UniqueLines(cart) && i < |cart| && cart[i].qty + delta > 0
    ensures UpdateCartQty(cart, cart[i].variantId, delta) == cart[i := cart[i].(qty := cart[i].qty + delta)]
  {
    var id := cart[i].variantId;
    var r := UpdateCartQty(cart, id, delta);
    var after := cart[i := cart[i].(qty := cart[i].qty + delta)];
    forall j | 0 <= j < |cart| ensures r[j] == after[j] {
      if j != i { assert cart[j].variantId != id; }
    }
  }

  /** `addToCart` never takes a line above the variant's available stock
      (when it has any): a line within it stays within it. The plus button
      has no such cap. */
  lemma AddToCartWithinStock(cart: seq<PosLine>, v: PosVariant, p: PosProduct)
    requires Available(v) >= 1
    requires forall j :: 0 <= j < |cart| && cart[j].variantId == v.id ==> cart[j].qty <= Available(v)
    ensures var r := AddToCart(cart, v, p);
      forall j :: 0 <= j < |r| && r[j].variantId == v.id ==> r[j].qty <= Available(v)
  {
  }

  // ---------------------------------------------------------------------
  // Totals and checkout
  // ---------------------------------------------------------------------

  /** The `reduce` of the subtotal. */
  function PosSubtotal(cart: seq<PosLine>): Money {
    if cart == [] then 0.0 else PosSubtotal(cart[..|cart| - 1]) + LineAmount(cart[|cart| - 1])
  }

  function LineAmount(l: PosLine): Money {
    l.salePrice * (l.qty as real)
  }

  /** The number of units in the cart (the page shows only each line's
      quantity; the model sums them to state what the buttons do). */
  function PosCount(cart: seq<PosLine>): int {
    if cart == [] then 0 else PosCount(cart[..|cart| - 1]) + cart[|cart| - 1].qty
  }

  /** Setting one line's quantity moves the count by the difference of the
      quantities and the subtotal by the difference of the line's amounts. */
  lemma {:induction false} PosSumsUpdate(cart: seq<PosLine>, i: nat, qty: int)
    requires i < |cart|
    ensures PosCount(cart[i := cart[i].(qty := qty)]) == PosCount(cart) - cart[i].qty + qty
    ensures PosSubtotal(cart[i := cart[i].(qty := qty)]) == PosSubtotal(cart) - LineAmount(cart[i]) + LineAmount(cart[i].(qty := qty))
  {
    var n := |cart|;
    var after := cart[i := cart[i].(qty := qty)];
    if i == n - 1 {
      assert after[..n - 1] == cart[..n - 1];
    } else {
      assert after[..n - 1] == cart[..n - 1][i := cart[i].(qty := qty)];
      PosSumsUpdate(cart[..n - 1], i, qty);
    }
  }

  /** Removing a line takes its units off the count and its amount off the
      subtotal. */
  lemma {:induction false} PosSumsRemove(cart: seq<PosLine>, i: nat)
    requires UniqueLines(cart) && i < |cart|
    ensures PosCount(RemoveFromCart(cart, cart[i].variantId)) == PosCount(cart) - cart[i].qty
    ensures PosSubtotal(RemoveFromCart(cart, cart[i].variantId)) == PosSubtotal(cart) - LineAmount(cart[i])
  {
    var id := cart[i].variantId;
    var n := |cart|;
    var p := cart[..n - 1];
    if i == n - 1 {
      forall j | 0 <= j < |p| ensures p[j].variantId != id {
        assert p[j] == cart[j];
      }
      RemoveAbsent(p, id);
      assert RemoveFromCart(cart, id) == RemoveFromCart(p, id);
    } else {
      assert p[i] == cart[i];
      assert cart[n - 1].variantId != id;
      var rest := RemoveFromCart(p, id);
      assert RemoveFromCart(cart, id) == rest + [cart[n - 1]];
      PrefixKeeps(cart);
      PosSumsRemove(p, i);
      PosSumsAppend(rest, cart[n - 1]);
    }
  }

  lemma PosSumsAppend(cart: seq<PosLine>, l: PosLine)
    ensures PosCount(cart + [l]) == PosCount(cart) + l.qty
    ensures PosSubtotal(cart + [l]) == PosSubtotal(cart) + LineAmount(l)
  {
    assert (cart + [l])[..|cart|] == cart;
  }

  lemma PrefixKeeps(cart: seq<PosLine>)
    requires cart != []
    ensures UniqueLines(cart) ==> UniqueLines(cart[..|cart| - 1])
  {
    var p := cart[..|cart| - 1];
    assert forall a :: 0 <= a < |p| ==> p[a] == cart[a];
  }

  lemma {:induction false} RemoveAbsent(cart: seq<PosLine>, variantId: nat)
    requires forall j :: 0 <= j < |cart| ==> cart[j].variantId != variantId
    ensures RemoveFromCart(cart, variantId) == cart
  {
    if cart != [] {
      var p := cart[..|cart| - 1];
      RemoveAbsent(p, variantId);
      assert cart == p + [cart[|cart| - 1]];
    }
  }

  /** `deliveryFee`: 1.50 in Phnom Penh, 2.50 to the provinces. */
  function DeliveryFee(zone: DeliveryZone): (r: Money)
    ensures zone == PP ==> r == 1.5
    ensures zone == PROVINCE ==> r == 2.5
  {
    if zone == PP then 1.5 else 2.5
  }

  function PosTotal(cart: seq<PosLine>, zone: DeliveryZone): Money {
    PosSubtotal(cart) + DeliveryFee(zone)
  }

  /** The line `handleCheckout` submits for a cart line. */
  function PayloadLine(l: PosLine): Checkout.LineRequest {
    Checkout.LineRequest(l.variantId, l.qty, l.salePrice, Some(0.0))
  }

  function PayloadLines(cart: seq<PosLine>): (r: seq<Checkout.LineRequest>)
    ensures |r| == |cart|
    ensures forall i :: 0 <= i < |cart| ==> r[i] == PayloadLine(cart[i])
  {
    if cart == [] then [] else PayloadLines(cart[..|cart| - 1]) + [PayloadLine(cart[|cart| - 1])]
  }

  /** `handleCheckout`: nothing is submitted for an empty cart; otherwise
      the customer from the form and an order request for the cart's lines,
      each without discount, with the zone's fee and marked as a POS order. */
  function CheckoutPayload(cart: seq<PosLine>, form: PosForm): (r: Option<(Checkout.CustomerInput, Checkout.OrderRequest)>)
    ensures r.None? <==> cart == []
    ensures r.Some? ==> r.value.0 == Checkout.CustomerInput(form.customerName, form.customerPhone)
    ensures r.Some? ==> var req := r.value.1;
      && req.isPOS && req.deliveryFee == DeliveryFee(form.deliveryZone)
      && req.deliveryZone == form.deliveryZone && req.deliveryAddress == form.deliveryAddress
      && req.paymentMethod == form.paymentMethod && req.note == Some(form.note)
      && |req.items| == |cart|
      && forall i :: 0 <= i < |cart| ==>
           req.items[i].variantId == cart[i].variantId && req.items[i].qty == cart[i].qty
           && req.items[i].salePrice == cart[i].salePrice && req.items[i].discount == Some(0.0)
  {
    if cart == [] then None
    else
      Some((Checkout.CustomerInput(form.customerName, form.customerPhone),
            Checkout.OrderRequest(form.deliveryZone, form.deliveryAddress, DeliveryFee(form.deliveryZone),
                                  form.paymentMethod, PayloadLines(cart), Some(form.note), true)))
  }

  /** The server prices a submitted POS cart exactly as the screen showed
      it: its subtotal is the screen's subtotal, and subtotal plus fee is
      the screen's total. */
  lemma {:induction false} PayloadSubtotal(cart: seq<PosLine>)
    ensures Checkout.Subtotal(PayloadLines(cart)) == PosSubtotal(cart)
  {
    if cart != [] {
      var n := |cart|;
      PayloadSubtotal(cart[..n - 1]);
      var lines := PayloadLines(cart);
      assert lines[..n - 1] == PayloadLines(cart[..n - 1]);
      PayloadLineTotal(cart[n - 1]);
      calc {
        Checkout.Subtotal(lines);
        Checkout.Subtotal(lines[..n - 1]) + Checkout.LineTotal(lines[n - 1]);
        PosSubtotal(cart[..n - 1]) + LineAmount(cart[n - 1]);
      }
    }
  }

  lemma PayloadLineTotal(l: PosLine)
    ensures Checkout.LineTotal(PayloadLine(l)) == LineAmount(l)
  {
    var r := PayloadLine(l);
    assert Checkout.DiscountOf(r) == 0.0;
    assert r.salePrice - Checkout.DiscountOf(r) == l.salePrice;
  }

  lemma CheckoutTotalAsShown(cart: seq<PosLine>, form: PosForm)
    requires cart != []
    ensures var req := CheckoutPayload(cart, form).value.1;
      Checkout.Subtotal(req.items) + req.deliveryFee == PosTotal(cart, form.deliveryZone)
  {
    PayloadSubtotal(cart);
  }
}
