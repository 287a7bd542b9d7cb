/** The value-level meaning of the order transactions: what checkout reads,
    computes and writes (customer upsert, stock checks, price snapshots,
    totals, order code, stock deduction and its ledger rows), and what
    cancellation restores. The store's transactional methods are proved
    against these functions. */
module Checkout {
  import opened Common
  import opened Domain

  datatype CustomerInput = CustomerInput(fullName: string, phone: string)

  /** One requested line; `discount` may be omitted. */
  datatype LineRequest = LineRequest(variantId: nat, qty: int, salePrice: Money, discount: Option<Money>)

  datatype OrderRequest = OrderRequest(
    deliveryZone: DeliveryZone,
    deliveryAddress: string,
    deliveryFee: Money,
    paymentMethod: PaymentMethod,
    items: seq<LineRequest>,
    note: Option<string>,
    isPOS: bool)

  /** The UTC calendar date the order code is stamped with. */
  datatype Date = Date(year: nat, month: nat, day: nat)

  // ---------------------------------------------------------------------
  // Line totals
  // ---------------------------------------------------------------------

  /** `item.discount || 0`. */
  function DiscountOf(l: LineRequest): Money {
    if l.discount.Some? then l.discount.value else 0.0
  }

  function LineTotal(l: LineRequest): Money {
    (l.salePrice - DiscountOf(l)) * (l.qty as real)
  }

  /** The running `subtotal += lineTotal` over the lines, in order. */
  function Subtotal(lines: seq<LineRequest>): Money {
    if lines == [] then 0.0 else Subtotal(lines[..|lines| - 1]) + LineTotal(lines[|lines| - 1])
  }

  function SumLineTotals(items: seq<OrderItem>): Money {
    if items == [] then 0.0 else SumLineTotals(items[..|items| - 1]) + items[|items| - 1].lineTotal
  }

  // ---------------------------------------------------------------------
  // Customer upsert by phone
  // ---------------------------------------------------------------------

  /** `findFirst({ where: { phone } })`: the earliest customer with that phone. */
  function FindByPhone(cs: seq<Customer>, phone: string): (r: Option<nat>)
    ensures r.Some? ==> r.value < |cs| && cs[r.value].phone == phone
    ensures r.Some? ==> forall j :: 0 <= j < r.value ==> cs[j].phone != phone
    ensures r.None? ==> forall j :: 0 <= j < |cs| ==> cs[j].phone != phone
  {
    if cs == [] then None
    else if cs[0].phone == phone then Some(0)
    else match FindByPhone(cs[1..], phone) {
      case None => None
      case Some(i) => Some(i + 1)
    }
  }

  /** The customer rows after the upsert, and the id of the order's customer. */
  function UpsertCustomer(cs: seq<Customer>, c: CustomerInput): (r: (seq<Customer>, nat))
    ensures r.1 < |r.0| && r.0[r.1] == Customer(c.fullName, c.phone)
    ensures FindByPhone(cs, c.phone).None? ==> r.0 == cs + [Customer(c.fullName, c.phone)]
    ensures FindByPhone(cs, c.phone).Some? ==> |r.0| == |cs| && r.1 == FindByPhone(cs, c.phone).value
    ensures forall j :: 0 <= j < |cs| && j != r.1 ==> r.0[j] == cs[j]
  {
    match FindByPhone(cs, c.phone)
    case None => (cs + [Customer(c.fullName, c.phone)], |cs|)
    case Some(i) =>
      if cs[i].fullName != c.fullName then (cs[i := cs[i].(fullName := c.fullName)], i) else (cs, i)
  }

  ghost predicate UniquePhones(cs: seq<Customer>) {
    forall i, j :: 0 <= i < j < |cs| ==> cs[i].phone != cs[j].phone
  }

  /** Upserting never creates a second customer for a phone, and leaves
      exactly one customer with the supplied phone. */
  lemma UpsertKeepsPhonesUnique(cs: seq<Customer>, c: CustomerInput)
    requires UniquePhones(cs)
    ensures UniquePhones(UpsertCustomer(cs, c).0)
    ensures var (r, id) := UpsertCustomer(cs, c); forall j :: 0 <= j < |r| && r[j].phone == c.phone ==> j == id
  {
    var (r, id) := UpsertCustomer(cs, c);
    forall i, j | 0 <= i < j < |r| ensures r[i].phone != r[j].phone {
      if i != id && j != id {
        assert r[i] == cs[i] && r[j] == cs[j];
      }
    }
  }

  // ---------------------------------------------------------------------
  // Stock checks: every line against the stock read for it
  // ---------------------------------------------------------------------

  function ProductName(names: map<nat, string>, v: Variant): string {
    if v.productId in names then names[v.productId] else ""
  }

  /** Why a single line fails, judged against the unmodified variants. */
  function LineError(variants: map<nat, Variant>, names: map<nat, string>, l: LineRequest): Option<Error> {
    if l.variantId !in variants then Some(VariantNotFound(l.variantId))
    else
      var v := variants[l.variantId];
      if v.stockOnHand < l.qty then Some(InsufficientStock(ProductName(names, v), v.color, v.size)) else None
  }

  /** The error of the first failing line, if any. */
  function FirstFailure(variants: map<nat, Variant>, names: map<nat, string>, lines: seq<LineRequest>): Option<Error> {
    if lines == [] then None
    else
      var p := FirstFailure(variants, names, lines[..|lines| - 1]);
      if p.Some? then p else LineError(variants, names, lines[|lines| - 1])
  }

  /** Checkout passes the checks exactly when every line passes on its own. */
  lemma {:induction false} FirstFailureNone(variants: map<nat, Variant>, names: map<nat, string>, lines: seq<LineRequest>)
    ensures FirstFailure(variants, names, lines).None?
            <==> forall i :: 0 <= i < |lines| ==> LineError(variants, names, lines[i]).None?
  {
    if lines != [] {
      var p := lines[..|lines| - 1];
      FirstFailureNone(variants, names, p);
      assert forall i :: 0 <= i < |p| ==> p[i] == lines[i];
    }
  }

  /** The reported error is the error of the earliest failing line. */
  lemma {:induction false} FirstFailureIsFirst(variants: map<nat, Variant>, names: map<nat, string>, lines: seq<LineRequest>)
    requires FirstFailure(variants, names, lines).Some?
    ensures exists i :: 0 <= i < |lines| && LineError(variants, names, lines[i]) == FirstFailure(variants, names, lines)
                        && forall j :: 0 <= j < i ==> LineError(variants, names, lines[j]).None?
  {
    var p := lines[..|lines| - 1];
    assert forall i :: 0 <= i < |p| ==> p[i] == lines[i];
    if FirstFailure(variants, names, p).Some? {
      FirstFailureIsFirst(variants, names, p);
    } else {
      FirstFailureNone(variants, names, p);
      assert LineError(variants, names, lines[|lines| - 1]) == FirstFailure(variants, names, lines);
    }
  }

  /** Once a prefix has failed, the whole request fails with that error. */
  lemma {:induction false} FirstFailureStops(variants: map<nat, Variant>, names: map<nat, string>, lines: seq<LineRequest>, n: nat)
    requires n <= |lines|
    requires FirstFailure(variants, names, lines[..n]).Some?
    ensures FirstFailure(variants, names, lines) == FirstFailure(variants, names, lines[..n])
    decreases |lines| - n
  {
    if n < |lines| {
      assert lines[..n + 1][..n] == lines[..n];
      FirstFailureStops(variants, names, lines, n + 1);
    } else {
      assert lines[..n] == lines;
    }
  }

  // ---------------------------------------------------------------------
  // Price snapshots
  // ---------------------------------------------------------------------

  /** The order item: sale price and discount from the request, product
      name, size, color, SKU and cost price from the variant. */
  function Snapshot(v: Variant, name: string, l: LineRequest): OrderItem {
    OrderItem(l.variantId, name, v.size, v.color, v.sku, v.costPrice, l.salePrice, DiscountOf(l), l.qty, LineTotal(l))
  }

  ghost predicate AllKnown(variants: map<nat, Variant>, lines: seq<LineRequest>) {
    forall i :: 0 <= i < |lines| ==> lines[i].variantId in variants
  }

  function Snapshots(variants: map<nat, Variant>, names: map<nat, string>, lines: seq<LineRequest>): (r: seq<OrderItem>)
    requires AllKnown(variants, lines)
    ensures |r| == |lines|
  {
    if lines == [] then []
    else
      var l := lines[|lines| - 1];
      var v := variants[l.variantId];
      Snapshots(variants, names, lines[..|lines| - 1]) + [Snapshot(v, ProductName(names, v), l)]
  }

  lemma {:induction false} SnapshotsAt(variants: map<nat, Variant>, names: map<nat, string>, lines: seq<LineRequest>, i: nat)
    requires AllKnown(variants, lines) && i < |lines|
    ensures var v := variants[lines[i].variantId];
      Snapshots(variants, names, lines)[i] == Snapshot(v, ProductName(names, v), lines[i])
  {
    if i < |lines| - 1 {
      var p := lines[..|lines| - 1];
      SnapshotsAt(variants, names, p, i);
    }
  }

  /** The snapshotted line totals add up to the subtotal. */
  lemma {:induction false} SnapshotsTotal(variants: map<nat, Variant>, names: map<nat, string>, lines: seq<LineRequest>)
    requires AllKnown(variants, lines)
    ensures SumLineTotals(Snapshots(variants, names, lines)) == Subtotal(lines)
  {
    if lines != [] {
      var s := Snapshots(variants, names, lines);
      assert s[..|s| - 1] == Snapshots(variants, names, lines[..|lines| - 1]);
      SnapshotsTotal(variants, names, lines[..|lines| - 1]);
    }
  }

  // ---------------------------------------------------------------------
  // Stock deduction and its ledger rows
  // ---------------------------------------------------------------------

  /** Total quantity the lines request of one variant. */
  function QtyFor(lines: seq<LineRequest>, k: nat): int {
    if lines == [] then 0
    else QtyFor(lines[..|lines| - 1], k) + (if lines[|lines| - 1].variantId == k then lines[|lines| - 1].qty else 0)
  }

  /** The `decrement: item.qty` updates, applied line after line. */
  function Deduct(variants: map<nat, Variant>, lines: seq<LineRequest>): (r: map<nat, Variant>)
    ensures r.Keys == variants.Keys
  {
    if lines == [] then variants
    else
      var v := Deduct(variants, lines[..|lines| - 1]);
      var l := lines[|lines| - 1];
      if l.variantId in v then v[l.variantId := v[l.variantId].(stockOnHand := v[l.variantId].stockOnHand - l.qty)]
      else v
  }

  /** Each variant loses exactly the quantity the lines request of it, and
      nothing else about it changes. */
  lemma {:induction false} DeductStock(variants: map<nat, Variant>, lines: seq<LineRequest>, k: nat)
    requires k in variants
    ensures Deduct(variants, lines)[k] == variants[k].(stockOnHand := variants[k].stockOnHand - QtyFor(lines, k))
  {
    if lines != [] {
      DeductStock(variants, lines[..|lines| - 1], k);
    }
  }

  function DeductionRow(l: LineRequest, orderId: nat, code: string): LedgerEntry {
    LedgerEntry(l.variantId, DEDUCT, -l.qty, "ORDER", Some(orderId), Some("Order Placement " + code), None)
  }

  function DeductionRows(lines: seq<LineRequest>, orderId: nat, code: string): (r: seq<LedgerEntry>)
    ensures |r| == |lines|
  {
    if lines == [] then [] else DeductionRows(lines[..|lines| - 1], orderId, code) + [DeductionRow(lines[|lines| - 1], orderId, code)]
  }

  /** One DEDUCT row per line, in line order, with the negated quantity and
      a reference to the order. */
  lemma {:induction false} DeductionRowsShape(lines: seq<LineRequest>, orderId: nat, code: string)
    ensures forall i :: 0 <= i < |lines| ==>
      var e := DeductionRows(lines, orderId, code)[i];
      && e.variantId == lines[i].variantId && e.txType == DEDUCT && e.qty == -lines[i].qty
      && e.refType == "ORDER" && e.refId == Some(orderId)
  {
    if lines != [] {
      var p := lines[..|lines| - 1];
      DeductionRowsShape(p, orderId, code);
      assert forall i :: 0 <= i < |p| ==> DeductionRows(lines, orderId, code)[i] == DeductionRows(p, orderId, code)[i];
    }
  }

  lemma {:induction false} DeductionRowsSum(lines: seq<LineRequest>, orderId: nat, code: string, k: nat)
    ensures LedgerSum(DeductionRows(lines, orderId, code), k) == -QtyFor(lines, k)
  {
    if lines != [] {
      var rows := DeductionRows(lines, orderId, code);
      assert rows[..|rows| - 1] == DeductionRows(lines[..|lines| - 1], orderId, code);
      DeductionRowsSum(lines[..|lines| - 1], orderId, code, k);
    }
  }

  /** A checkout keeps every variant's stock equal to its ledger sum. */
  lemma DeductKeepsReconciled(variants: map<nat, Variant>, ledger: seq<LedgerEntry>, lines: seq<LineRequest>, orderId: nat, code: string)
    requires Reconciled(variants, ledger)
    ensures Reconciled(Deduct(variants, lines), ledger + DeductionRows(lines, orderId, code))
  {
    var rows := DeductionRows(lines, orderId, code);
    forall k | k in Deduct(variants, lines)
      ensures Deduct(variants, lines)[k].stockOnHand == LedgerSum(ledger + rows, k)
    {
      DeductStock(variants, lines, k);
      LedgerSumAppend(ledger, rows, k);
      DeductionRowsSum(lines, orderId, code, k);
    }
  }

  ghost predicate DistinctVariants(lines: seq<LineRequest>) {
    forall i, j :: 0 <= i < j < |lines| ==> lines[i].variantId != lines[j].variantId
  }

  lemma {:induction false} QtyForDistinct(lines: seq<LineRequest>, k: nat)
    requires DistinctVariants(lines)
    ensures forall i :: 0 <= i < |lines| && lines[i].variantId == k ==> QtyFor(lines, k) == lines[i].qty
    ensures (forall i :: 0 <= i < |lines| ==> lines[i].variantId != k) ==> QtyFor(lines, k) == 0
  {
    if lines != [] {
      var p := lines[..|lines| - 1];
      assert forall i :: 0 <= i < |p| ==> p[i] == lines[i];
      QtyForDistinct(p, k);
    }
  }

  /** With at most one line per variant, a request that passes the stock
      checks cannot drive any stock below zero. */
  lemma DeductNonNegative(variants: map<nat, Variant>, names: map<nat, string>, lines: seq<LineRequest>)
    requires NonNegativeStock(variants)
    requires DistinctVariants(lines)
    requires FirstFailure(variants, names, lines).None?
    ensures NonNegativeStock(Deduct(variants, lines))
  {
    FirstFailureNone(variants, names, lines);
    forall k | k in Deduct(variants, lines) ensures Deduct(variants, lines)[k].stockOnHand >= 0 {
      DeductStock(variants, lines, k);
      QtyForDistinct(lines, k);
      if exists i :: 0 <= i < |lines| && lines[i].variantId == k {
        var i :| 0 <= i < |lines| && lines[i].variantId == k;
        assert LineError(variants, names, lines[i]).None?;
      }
    }
  }

  /** The checks are not cumulative: two lines of one unit each for a
      variant with one unit in stock both pass, and the stock ends at -1. */
  lemma DuplicateLinesOverdraw()
    ensures var v := map[7 := Variant(7, 1, "SKU", "", "", 0.0, 10.0, 1, true)];
            var lines := [LineRequest(7, 1, 10.0, None), LineRequest(7, 1, 10.0, None)];
            FirstFailure(v, map[], lines).None? && Deduct(v, lines)[7].stockOnHand == -1
  {
    var v := map[7 := Variant(7, 1, "SKU", "", "", 0.0, 10.0, 1, true)];
    var lines := [LineRequest(7, 1, 10.0, None), LineRequest(7, 1, 10.0, None)];
    assert lines[..1][..0] == [];
    assert lines[..1] == [lines[0]];
    assert FirstFailure(v, map[], lines[..1]).None?;
    assert Deduct(v, lines[..1])[7].stockOnHand == 0;
  }

  // ---------------------------------------------------------------------
  // Order code `NC-YYYYMMDD-NNNN`
  // ---------------------------------------------------------------------

  predicate ValidDate(d: Date) {
    d.year <= 9999 && 1 <= d.month <= 12 && 1 <= d.day <= 31
  }

  /** `toISOString().slice(0, 10)` with the dashes removed. */
  function DateStamp(d: Date): string {
    PadDigits(d.year, 4) + PadDigits(d.month, 2) + PadDigits(d.day, 2)
  }

  function OrderCode(d: Date, suffix: nat): string {
    "NC-" + DateStamp(d) + "-" + NatToString(suffix)
  }

  predicate AllDigits(s: string) { forall i :: 0 <= i < |s| ==> IsDigit(s[i]) }

  /** Reads a code back into its date and suffix. */
  function ParseOrderCode(s: string): Option<(Date, nat)> {
    if |s| == 16 && s[..3] == "NC-" && s[11] == '-'
       && AllDigits(s[3..7]) && AllDigits(s[7..9]) && AllDigits(s[9..11]) && AllDigits(s[12..]) then
      Some((Date(DigitsValue(s[3..7]), DigitsValue(s[7..9]), DigitsValue(s[9..11])), DigitsValue(s[12..])))
    else None
  }

  lemma {:induction false} NatToStringIsPadded(n: nat, w: nat)
    requires 1 <= w && Pow10(w - 1) <= n < Pow10(w)
    ensures NatToString(n) == PadDigits(n, w)
  {
    if n >= 10 {
      assert w >= 2;
      assert Pow10(w - 1) == 10 * Pow10(w - 2);
      NatToStringIsPadded(n / 10, w - 1);
    }
  }

  /** Every generated code is 16 characters of the form NC-YYYYMMDD-NNNN
      and reads back to the date and suffix it was made from. */
  lemma OrderCodeRoundTrip(d: Date, suffix: nat)
    requires ValidDate(d) && 1000 <= suffix <= 9999
    ensures |OrderCode(d, suffix)| == 16
    ensures ParseOrderCode(OrderCode(d, suffix)) == Some((d, suffix))
  {
    assert Pow10(4) == 10000 && Pow10(3) == 1000 && Pow10(2) == 100;
    NatToStringIsPadded(suffix, 4);
    var y, m, dd, sx := PadDigits(d.year, 4), PadDigits(d.month, 2), PadDigits(d.day, 2), PadDigits(suffix, 4);
    var code := OrderCode(d, suffix);
    assert code == "NC-" + y + m + dd + "-" + sx;
    assert code[3..7] == y && code[7..9] == m && code[9..11] == dd && code[12..] == sx;
    PadDigitsRoundTrip(d.year, 4);
    PadDigitsRoundTrip(d.month, 2);
    PadDigitsRoundTrip(d.day, 2);
    PadDigitsRoundTrip(suffix, 4);
  }

  /** The unique constraint on order codes: is the code already taken? */
  predicate CodeInUse(orders: seq<Order>, code: string) {
    exists i :: 0 <= i < |orders| && orders[i].orderCode == code
  }

  // ---------------------------------------------------------------------
  // The created order
  // ---------------------------------------------------------------------

  /** The order row checkout creates, from the request, the snapshots and
      their subtotal. */
  function NewOrder(id: nat, code: string, customerId: nat, req: OrderRequest, items: seq<OrderItem>, subtotal: Money, createdAt: nat): Order {
    Order(id, code, customerId, req.deliveryZone, req.deliveryAddress, req.deliveryFee, subtotal,
          subtotal + req.deliveryFee, req.paymentMethod, UNPAID, NEW, req.note, createdAt, items)
  }

  /** An order item faithfully snapshots its request line and variant:
      (salePrice - discount) x qty for the line total, sale price, discount
      and quantity from the request, the rest from the variant. */
  ghost predicate FaithfulItem(variants: map<nat, Variant>, names: map<nat, string>, l: LineRequest, it: OrderItem)
    requires l.variantId in variants
  {
    var v := variants[l.variantId];
    && it.lineTotal == (it.salePrice - it.discount) * (it.qty as real)
    && it.variantId == l.variantId && it.qty == l.qty && it.salePrice == l.salePrice
    && it.discount == (if l.discount.Some? then l.discount.value else 0.0)
    && it.costPrice == v.costPrice && it.sku == v.sku && it.size == v.size && it.color == v.color
    && it.productName == ProductName(names, v)
  }

  /** A created order starts NEW and UNPAID, its total is subtotal plus
      delivery fee, its subtotal is the sum of its line totals, and each
      item is a faithful snapshot of its line. */
  lemma NewOrderTotals(variants: map<nat, Variant>, names: map<nat, string>, req: OrderRequest,
                       id: nat, code: string, customerId: nat, createdAt: nat)
    requires AllKnown(variants, req.items)
    ensures var o := NewOrder(id, code, customerId, req, Snapshots(variants, names, req.items), Subtotal(req.items), createdAt);
      && o.orderStatus == NEW && o.paymentStatus == UNPAID
      && o.total == o.subtotal + o.deliveryFee && o.deliveryFee == req.deliveryFee
      && o.subtotal == SumLineTotals(o.items)
      && |o.items| == |req.items|
      && forall i :: 0 <= i < |o.items| ==> FaithfulItem(variants, names, req.items[i], o.items[i])
  {
    var items := Snapshots(variants, names, req.items);
    SnapshotsTotal(variants, names, req.items);
    forall i | 0 <= i < |items| ensures FaithfulItem(variants, names, req.items[i], items[i]) {
      SnapshotsAt(variants, names, req.items, i);
      SnapshotIsFaithful(variants, names, req.items[i]);
    }
  }

  lemma SnapshotIsFaithful(variants: map<nat, Variant>, names: map<nat, string>, l: LineRequest)
    requires l.variantId in variants
    ensures var v := variants[l.variantId]; FaithfulItem(variants, names, l, Snapshot(v, ProductName(names, v), l))
  {
  }

  // ---------------------------------------------------------------------
  // Cancellation: stock restoration and its ledger rows
  // ---------------------------------------------------------------------

  function ItemQtyFor(items: seq<OrderItem>, k: nat): int {
    if items == [] then 0
    else ItemQtyFor(items[..|items| - 1], k) + (if items[|items| - 1].variantId == k then items[|items| - 1].qty else 0)
  }

  /** The `increment: item.qty` updates; updating a variant that no longer
      exists aborts the transaction. */
  function RestoreStock(variants: map<nat, Variant>, items: seq<OrderItem>): (r: Result<map<nat, Variant>, Error>)
    ensures r.Ok? ==> r.value.Keys == variants.Keys
  {
    if items == [] then Ok(variants)
    else
      match RestoreStock(variants, items[..|items| - 1])
      case Err(e) => Err(e)
      case Ok(v) =>
        var it := items[|items| - 1];
        if it.variantId in v then Ok(v[it.variantId := v[it.variantId].(stockOnHand := v[it.variantId].stockOnHand + it.qty)])
        else Err(VariantNotFound(it.variantId))
  }

  /** Restoration succeeds exactly when every item's variant still exists;
      then each variant gains back exactly its items' quantity. */
  lemma RestoreStockMeaning(variants: map<nat, Variant>, items: seq<OrderItem>)
    ensures RestoreStock(variants, items).Ok? <==> forall i :: 0 <= i < |items| ==> items[i].variantId in variants
    ensures RestoreStock(variants, items).Ok? ==> forall k :: k in variants ==>
      RestoreStock(variants, items).value[k] == variants[k].(stockOnHand := variants[k].stockOnHand + ItemQtyFor(items, k))
  {
    RestoreStockSucceeds(variants, items);
    if RestoreStock(variants, items).Ok? {
      RestoreStockAdds(variants, items);
    }
  }

  lemma {:induction false} RestoreStockSucceeds(variants: map<nat, Variant>, items: seq<OrderItem>)
    ensures RestoreStock(variants, items).Ok? <==> forall i :: 0 <= i < |items| ==> items[i].variantId in variants
  {
    if items != [] {
      var p := items[..|items| - 1];
      RestoreStockSucceeds(variants, p);
      assert forall i :: 0 <= i < |p| ==> p[i] == items[i];
    }
  }

  lemma {:induction false} RestoreStockAdds(variants: map<nat, Variant>, items: seq<OrderItem>)
    requires RestoreStock(variants, items).Ok?
    ensures forall k :: k in variants ==>
      RestoreStock(variants, items).value[k] == variants[k].(stockOnHand := variants[k].stockOnHand + ItemQtyFor(items, k))
  {
    if items != [] {
      var p := items[..|items| - 1];
      var it := items[|items| - 1];
      var v := RestoreStock(variants, p).value;
      RestoreStockAdds(variants, p);
      var r := RestoreStock(variants, items).value;
      assert r == v[it.variantId := v[it.variantId].(stockOnHand := v[it.variantId].stockOnHand + it.qty)];
    }
  }

  /** A failure on a prefix is the failure of the whole restoration. */
  lemma {:induction false} RestoreStockStops(variants: map<nat, Variant>, items: seq<OrderItem>, n: nat)
    requires n <= |items|
    requires RestoreStock(variants, items[..n]).Err?
    ensures RestoreStock(variants, items) == RestoreStock(variants, items[..n])
    decreases |items| - n
  {
    if n < |items| {
      assert items[..n + 1][..n] == items[..n];
      RestoreStockStops(variants, items, n + 1);
    } else {
      assert items[..n] == items;
    }
  }

  function RestoreRow(it: OrderItem, orderId: nat, code: string): LedgerEntry {
    LedgerEntry(it.variantId, IN, it.qty, "ORDER", Some(orderId), Some("Order Cancelled - " + code), None)
  }

  function RestoreRows(items: seq<OrderItem>, orderId: nat, code: string): (r: seq<LedgerEntry>)
    ensures |r| == |items|
  {
    if items == [] then [] else RestoreRows(items[..|items| - 1], orderId, code) + [RestoreRow(items[|items| - 1], orderId, code)]
  }

  /** One IN row per item, in item order, with the item's (positive)
      quantity and a reference to the order. */
  lemma {:induction false} RestoreRowsShape(items: seq<OrderItem>, orderId: nat, code: string)
    ensures forall i :: 0 <= i < |items| ==>
      var e := RestoreRows(items, orderId, code)[i];
      && e.variantId == items[i].variantId && e.txType == IN && e.qty == items[i].qty
      && e.refType == "ORDER" && e.refId == Some(orderId)
  {
    if items != [] {
      var p := items[..|items| - 1];
      RestoreRowsShape(p, orderId, code);
      assert forall i :: 0 <= i < |p| ==> RestoreRows(items, orderId, code)[i] == RestoreRows(p, orderId, code)[i];
    }
  }

  lemma {:induction false} RestoreRowsSum(items: seq<OrderItem>, orderId: nat, code: string, k: nat)
    ensures LedgerSum(RestoreRows(items, orderId, code), k) == ItemQtyFor(items, k)
  {
    if items != [] {
      var rows := RestoreRows(items, orderId, code);
      assert rows[..|rows| - 1] == RestoreRows(items[..|items| - 1], orderId, code);
      RestoreRowsSum(items[..|items| - 1], orderId, code, k);
    }
  }

  /** A cancellation keeps every variant's stock equal to its ledger sum. */
  lemma RestoreKeepsReconciled(variants: map<nat, Variant>, ledger: seq<LedgerEntry>, items: seq<OrderItem>, orderId: nat, code: string)
    requires Reconciled(variants, ledger)
    requires RestoreStock(variants, items).Ok?
    ensures Reconciled(RestoreStock(variants, items).value, ledger + RestoreRows(items, orderId, code))
  {
    var rows := RestoreRows(items, orderId, code);
    RestoreStockMeaning(variants, items);
    forall k | k in RestoreStock(variants, items).value
      ensures RestoreStock(variants, items).value[k].stockOnHand == LedgerSum(ledger + rows, k)
    {
      LedgerSumAppend(ledger, rows, k);
      RestoreRowsSum(items, orderId, code, k);
    }
  }

  lemma {:induction false} ItemQtyOfSnapshots(variants: map<nat, Variant>, names: map<nat, string>, lines: seq<LineRequest>, k: nat)
    requires AllKnown(variants, lines)
    ensures ItemQtyFor(Snapshots(variants, names, lines), k) == QtyFor(lines, k)
  {
    if lines != [] {
      var s := Snapshots(variants, names, lines);
      assert s[..|s| - 1] == Snapshots(variants, names, lines[..|lines| - 1]);
      ItemQtyOfSnapshots(variants, names, lines[..|lines| - 1], k);
    }
  }

  /** Cancelling gives back exactly what checkout took: restoring an order's
      items on top of its deduction yields the original variants. */
  lemma CancelUndoesCheckout(variants: map<nat, Variant>, names: map<nat, string>, lines: seq<LineRequest>)
    requires AllKnown(variants, lines)
    ensures RestoreStock(Deduct(variants, lines), Snapshots(variants, names, lines)) == Ok(variants)
  {
    var d := Deduct(variants, lines);
    var items := Snapshots(variants, names, lines);
    forall i | 0 <= i < |items| ensures items[i].variantId in d {
      SnapshotsAt(variants, names, lines, i);
    }
    RestoreStockMeaning(d, items);
    assert RestoreStock(d, items).Ok?;
    var r := RestoreStock(d, items).value;
    forall k | k in variants ensures r[k] == variants[k] {
      DeductStock(variants, lines, k);
      ItemQtyOfSnapshots(variants, names, lines, k);
    }
    assert r.Keys == variants.Keys;
    assert r == variants;
  }
}
