/** The persistent store and the state-changing operations on it: order
    checkout and status changes, payment slips, ledger writes, stock
    adjustments and variant creation, update and deletion. Each operation
    that the source wraps in a transaction works on local copies and
    commits only at the end, so a failed call leaves the store as it was. */
module OrderStore {
  import opened Common
  import opened Domain
  import opened Inventory
  import opened Checkout
  import opened VariantValidators

  // ---------------------------------------------------------------------
  // The loops of the order transactions, over values
  // ---------------------------------------------------------------------

  /** The validation loop of checkout: looks up every line's variant and
      checks its stock, building the snapshots and the running subtotal. */
  method CheckLines(variants: map<nat, Variant>, names: map<nat, string>, lines: seq<LineRequest>)
    returns (r: Result<(seq<OrderItem>, Money), Error>)
    ensures FirstFailure(variants, names, lines).Some? ==> r == Err(FirstFailure(variants, names, lines).value)
    ensures FirstFailure(variants, names, lines).None? ==>
      AllKnown(variants, lines) && r == Ok((Snapshots(variants, names, lines), Subtotal(lines)))
  {
    var subtotal := 0.0;
    var items: seq<OrderItem> := [];
    var i := 0;
    while i < |lines|
      invariant 0 <= i <= |lines|
      invariant FirstFailure(variants, names, lines[..i]).None?
      invariant AllKnown(variants, lines[..i])
      invariant items == Snapshots(variants, names, lines[..i])
      invariant subtotal == Subtotal(lines[..i])
    {
      var l := lines[i];
      assert lines[..i + 1][..i] == lines[..i] && lines[..i + 1][i] == l;
      if l.variantId !in variants {
        FirstFailureStops(variants, names, lines, i + 1);
        return Err(VariantNotFound(l.variantId));
      }
      var v := variants[l.variantId];
      if v.stockOnHand < l.qty {
        FirstFailureStops(variants, names, lines, i + 1);
        return Err(InsufficientStock(ProductName(names, v), v.color, v.size));
      }
      var item := Snapshot(v, ProductName(names, v), l);
      subtotal := subtotal + item.lineTotal;
      items := items + [item];
      i := i + 1;
    }
    assert lines[..i] == lines;
    r := Ok((items, subtotal));
  }

  /** The deduction loop of checkout: decrements each line's variant and
      writes its DEDUCT row. */
  method ApplyDeductions(variants: map<nat, Variant>, lines: seq<LineRequest>, orderId: nat, code: string)
    returns (vs: map<nat, Variant>, rows: seq<LedgerEntry>)
    requires AllKnown(variants, lines)
    ensures vs == Deduct(variants, lines) && rows == DeductionRows(lines, orderId, code)
  {
    vs, rows := variants, [];
    var i := 0;
    while i < |lines|
      invariant 0 <= i <= |lines|
      invariant vs == Deduct(variants, lines[..i])
      invariant rows == DeductionRows(lines[..i], orderId, code)
    {
      var l := lines[i];
      assert lines[..i + 1][..i] == lines[..i] && lines[..i + 1][i] == l;
      vs := vs[l.variantId := vs[l.variantId].(stockOnHand := vs[l.variantId].stockOnHand - l.qty)];
      rows := rows + [LedgerEntry(l.variantId, DEDUCT, -l.qty, "ORDER", Some(orderId), Some("Order Placement " + code), None)];
      i := i + 1;
    }
    assert lines[..i] == lines;
  }

  /** The restoration loop of a cancellation: increments each item's
      variant and writes its IN row; a missing variant aborts. */
  method ApplyRestore(variants: map<nat, Variant>, items: seq<OrderItem>, orderId: nat, code: string)
    returns (r: Result<(map<nat, Variant>, seq<LedgerEntry>), Error>)
    ensures RestoreStock(variants, items).Err? ==> r == Err(RestoreStock(variants, items).error)
    ensures RestoreStock(variants, items).Ok? ==> r == Ok((RestoreStock(variants, items).value, RestoreRows(items, orderId, code)))
  {
    var vs, rows := variants, [];
    var i := 0;
    while i < |items|
      invariant 0 <= i <= |items|
      invariant RestoreStock(variants, items[..i]) == Ok(vs)
      invariant rows == RestoreRows(items[..i], orderId, code)
    {
      var it := items[i];
      assert items[..i + 1][..i] == items[..i] && items[..i + 1][i] == it;
      if it.variantId !in vs {
        RestoreStockStops(variants, items, i + 1);
        return Err(VariantNotFound(it.variantId));
      }
      vs := vs[it.variantId := vs[it.variantId].(stockOnHand := vs[it.variantId].stockOnHand + it.qty)];
      rows := rows + [LedgerEntry(it.variantId, IN, it.qty, "ORDER", Some(orderId), Some("Order Cancelled - " + code), None)];
      i := i + 1;
    }
    assert items[..i] == items;
    r := Ok((vs, rows));
  }

  /** `updateVariant`'s write: supplied fields replace the variant's, omitted
      ones are kept. */
  function ApplyPatch(v: Variant, p: VariantPatch): (r: Variant)
    ensures r.id == v.id && r.productId == v.productId
    ensures p == VariantPatch(None, None, None, None, None, None, None) ==> r == v
    ensures p.stockOnHand.Some? ==> r.stockOnHand == p.stockOnHand.value
    ensures p.stockOnHand.None? ==> r.stockOnHand == v.stockOnHand
  {
    Variant(v.id, v.productId,
            if p.sku.Some? then p.sku.value else v.sku,
            if p.color.Some? then p.color.value else v.color,
            if p.size.Some? then p.size.value else v.size,
            if p.costPrice.Some? then p.costPrice.value else v.costPrice,
            if p.salePrice.Some? then p.salePrice.value else v.salePrice,
            if p.stockOnHand.Some? then p.stockOnHand.value else v.stockOnHand,
            if p.isActive.Some? then p.isActive.value else v.isActive)
  }

  /** Setting one variant's stock to the sum of its ledger rows, old and
      new, keeps every variant reconciled. */
  lemma SetStockReconciled(variants: map<nat, Variant>, ledger: seq<LedgerEntry>, id: nat, nv: Variant, rows: seq<LedgerEntry>)
    requires Reconciled(variants, ledger)
    requires forall i :: 0 <= i < |rows| ==> rows[i].variantId == id
    requires nv.stockOnHand == LedgerSum(ledger, id) + LedgerSum(rows, id)
    ensures Reconciled(variants[id := nv], ledger + rows)
  {
    forall k | k in variants[id := nv] ensures variants[id := nv][k].stockOnHand == LedgerSum(ledger + rows, k) {
      LedgerSumAppend(ledger, rows, k);
      if k != id {
        LedgerSumOther(rows, k);
      }
    }
  }

  /** The rows `createVariant` writes for a new variant. */
  function InitialRows(id: nat, stockOnHand: int, userId: Option<string>): seq<LedgerEntry> {
    if stockOnHand > 0 then [Entry(InitialStockLog(id, stockOnHand, userId).value)] else []
  }

  /** A new variant starts with no history, so its initial row makes its
      stock reconcile. */
  lemma CreateKeepsReconciled(variants: map<nat, Variant>, ledger: seq<LedgerEntry>, v: Variant, userId: Option<string>)
    requires LedgerValid(ledger, v.id) && v.stockOnHand >= 0
    ensures Reconciled(variants, ledger) ==> Reconciled(variants[v.id := v], ledger + InitialRows(v.id, v.stockOnHand, userId))
  {
    if Reconciled(variants, ledger) {
      var rows := InitialRows(v.id, v.stockOnHand, userId);
      LedgerSumOther(ledger, v.id);
      if v.stockOnHand > 0 {
        assert rows[..0] == [];
      }
      SetStockReconciled(variants, ledger, v.id, v, rows);
    }
  }

  /** The rows `updateVariant` writes when the stock moves from `oldStock` to
      `newStock`. */
  function AdjustmentRows(id: nat, newStock: int, oldStock: int, userId: Option<string>): seq<LedgerEntry> {
    if newStock != oldStock then [Entry(AdjustmentLog(id, newStock, oldStock, userId).value)] else []
  }

  /** The adjustment row moves the stock exactly to the new value, so an
      update keeps every variant reconciled. */
  lemma UpdateKeepsReconciled(variants: map<nat, Variant>, ledger: seq<LedgerEntry>, nv: Variant, userId: Option<string>)
    requires nv.id in variants
    ensures var rows := AdjustmentRows(nv.id, nv.stockOnHand, variants[nv.id].stockOnHand, userId);
      Reconciled(variants, ledger) ==> Reconciled(variants[nv.id := nv], ledger + rows)
  {
    if Reconciled(variants, ledger) {
      var before := variants[nv.id].stockOnHand;
      var rows := AdjustmentRows(nv.id, nv.stockOnHand, before, userId);
      if nv.stockOnHand != before {
        assert rows[..0] == [];
      }
      SetStockReconciled(variants, ledger, nv.id, nv, rows);
    }
  }

  /** Registering a variant under the next id keeps the store valid. */
  lemma NewVariantKeepsValid(customers: seq<Customer>, variants: map<nat, Variant>, productNames: map<nat, string>,
                             orders: seq<Order>, ledger: seq<LedgerEntry>, slips: seq<PaymentSlip>,
                             nextVariantId: nat, clock: nat, v: Variant)
    requires StoreValid(customers, variants, productNames, orders, ledger, slips, nextVariantId, clock)
    requires v.id == nextVariantId && v.productId in productNames
    ensures StoreValid(customers, variants[v.id := v], productNames, orders, ledger, slips, v.id + 1, clock)
  {
  }

  /** A status write, with or without the stock given back, keeps the
      store valid. */
  lemma StatusWriteKeepsValid(customers: seq<Customer>, variants: map<nat, Variant>, productNames: map<nat, string>,
                              orders: seq<Order>, ledger: seq<LedgerEntry>, slips: seq<PaymentSlip>,
                              nextVariantId: nat, clock: nat, id: nat, status: OrderStatus,
                              vs: map<nat, Variant>, rows: seq<LedgerEntry>)
    requires StoreValid(customers, variants, productNames, orders, ledger, slips, nextVariantId, clock)
    requires id < |orders|
    requires (vs == variants && rows == []) ||
             (RestoreStock(variants, orders[id].items).Ok? && vs == RestoreStock(variants, orders[id].items).value
              && rows == RestoreRows(orders[id].items, id, orders[id].orderCode))
    ensures StoreValid(customers, vs, productNames, orders[id := orders[id].(orderStatus := status)], ledger + rows,
                       slips, nextVariantId, clock)
  {
    var o := orders[id];
    ReplaceOrderValid(orders, |customers|, clock, id, o.(orderStatus := status));
    if vs == variants && rows == [] {
      assert ledger + rows == ledger;
    } else {
      RestoreIsStockOnly(variants, o.items);
      StockOnlyChangeValid(variants, vs, nextVariantId, productNames);
      RestoreStockMeaning(variants, o.items);
      RestoreRowsShape(o.items, id, o.orderCode);
      LedgerAppendValid(ledger, rows, variants, nextVariantId, productNames);
    }
  }

  // ---------------------------------------------------------------------
  // The store's invariant, piece by piece
  // ---------------------------------------------------------------------

  /** Orders sit at their ids, belong to existing customers, were created in
      chronological order no later than the clock, and have unique codes. */
  ghost predicate OrdersValid(orders: seq<Order>, customerCount: nat, clock: nat) {
    && (forall i :: 0 <= i < |orders| ==> orders[i].id == i && orders[i].customerId < customerCount && orders[i].createdAt <= clock)
    && (forall i, j :: 0 <= i < j < |orders| ==> orders[i].createdAt <= orders[j].createdAt)
    && (forall i, j :: 0 <= i < j < |orders| ==> orders[i].orderCode != orders[j].orderCode)
  }

  /** Variants are keyed by their ids, which are below the next id, and
      belong to catalogue products. */
  ghost predicate VariantsValid(variants: map<nat, Variant>, nextVariantId: nat, productNames: map<nat, string>) {
    forall k :: k in variants ==> variants[k].id == k && k < nextVariantId && variants[k].productId in productNames
  }

  /** Ledger rows only mention variants that were created at some point. */
  ghost predicate LedgerValid(ledger: seq<LedgerEntry>, nextVariantId: nat) {
    forall i :: 0 <= i < |ledger| ==> ledger[i].variantId < nextVariantId
  }

  ghost predicate SlipsValid(slips: seq<PaymentSlip>, orderCount: nat) {
    forall i :: 0 <= i < |slips| ==> slips[i].orderId < orderCount
  }

  ghost predicate StoreValid(customers: seq<Customer>, variants: map<nat, Variant>, productNames: map<nat, string>,
                             orders: seq<Order>, ledger: seq<LedgerEntry>, slips: seq<PaymentSlip>,
                             nextVariantId: nat, clock: nat) {
    && OrdersValid(orders, |customers|, clock)
    && UniquePhones(customers)
    && VariantsValid(variants, nextVariantId, productNames)
    && LedgerValid(ledger, nextVariantId)
    && SlipsValid(slips, |orders|)
  }

  /** `after` differs from `before` in stock levels only. */
  ghost predicate StockOnlyChange(before: map<nat, Variant>, after: map<nat, Variant>) {
    && after.Keys == before.Keys
    && forall k :: k in after ==> after[k] == before[k].(stockOnHand := after[k].stockOnHand)
  }

  lemma StockOnlyChangeValid(before: map<nat, Variant>, after: map<nat, Variant>, nextVariantId: nat, productNames: map<nat, string>)
    requires VariantsValid(before, nextVariantId, productNames) && StockOnlyChange(before, after)
    ensures VariantsValid(after, nextVariantId, productNames)
  {
    forall k | k in after ensures after[k].id == k && k < nextVariantId && after[k].productId in productNames {
      assert after[k] == before[k].(stockOnHand := after[k].stockOnHand);
    }
  }

  lemma DeductIsStockOnly(variants: map<nat, Variant>, lines: seq<LineRequest>)
    ensures StockOnlyChange(variants, Deduct(variants, lines))
  {
    forall k | k in Deduct(variants, lines) ensures Deduct(variants, lines)[k] == variants[k].(stockOnHand := Deduct(variants, lines)[k].stockOnHand) {
      DeductStock(variants, lines, k);
    }
  }

  lemma RestoreIsStockOnly(variants: map<nat, Variant>, items: seq<OrderItem>)
    requires RestoreStock(variants, items).Ok?
    ensures StockOnlyChange(variants, RestoreStock(variants, items).value)
  {
    RestoreStockMeaning(variants, items);
  }

  /** Rows for existing variants keep the ledger valid. */
  lemma LedgerAppendValid(ledger: seq<LedgerEntry>, rows: seq<LedgerEntry>, variants: map<nat, Variant>, nextVariantId: nat, productNames: map<nat, string>)
    requires LedgerValid(ledger, nextVariantId) && VariantsValid(variants, nextVariantId, productNames)
    requires forall i :: 0 <= i < |rows| ==> rows[i].variantId in variants
    ensures LedgerValid(ledger + rows, nextVariantId)
  {
    forall i | 0 <= i < |ledger + rows| ensures (ledger + rows)[i].variantId < nextVariantId {
      if i >= |ledger| {
        assert (ledger + rows)[i] == rows[i - |ledger|];
      }
    }
  }

  /** The stock facts of a committed checkout, as implications. */
  lemma CheckoutKeepsStock(variants: map<nat, Variant>, names: map<nat, string>, ledger: seq<LedgerEntry>,
                           lines: seq<LineRequest>, orderId: nat, code: string)
    ensures Reconciled(variants, ledger) ==> Reconciled(Deduct(variants, lines), ledger + DeductionRows(lines, orderId, code))
    ensures NonNegativeStock(variants) && DistinctVariants(lines) && FirstFailure(variants, names, lines).None?
            ==> NonNegativeStock(Deduct(variants, lines))
  {
    if Reconciled(variants, ledger) {
      DeductKeepsReconciled(variants, ledger, lines, orderId, code);
    }
    if NonNegativeStock(variants) && DistinctVariants(lines) && FirstFailure(variants, names, lines).None? {
      DeductNonNegative(variants, names, lines);
    }
  }

  lemma CancelKeepsStock(variants: map<nat, Variant>, ledger: seq<LedgerEntry>, items: seq<OrderItem>, orderId: nat, code: string)
    requires RestoreStock(variants, items).Ok?
    ensures Reconciled(variants, ledger) ==> Reconciled(RestoreStock(variants, items).value, ledger + RestoreRows(items, orderId, code))
  {
    if Reconciled(variants, ledger) {
      RestoreKeepsReconciled(variants, ledger, items, orderId, code);
    }
  }

  /** Appending a newer order with a fresh code keeps the orders valid. */
  lemma AppendOrderValid(orders: seq<Order>, customerCount: nat, clock: nat, o: Order, customerCount': nat)
    requires OrdersValid(orders, customerCount, clock) && customerCount <= customerCount'
    requires o.id == |orders| && o.customerId < customerCount' && clock <= o.createdAt
    requires !CodeInUse(orders, o.orderCode)
    ensures OrdersValid(orders + [o], customerCount', o.createdAt)
  {
    var os := orders + [o];
    forall i, j | 0 <= i < j < |os| ensures os[i].orderCode != os[j].orderCode {
      if j == |orders| {
        assert os[i] == orders[i];
      }
    }
  }

  /** A committed checkout keeps the store valid. */
  lemma CheckoutKeepsValid(customers: seq<Customer>, variants: map<nat, Variant>, productNames: map<nat, string>,
                           orders: seq<Order>, ledger: seq<LedgerEntry>, slips: seq<PaymentSlip>,
                           nextVariantId: nat, clock: nat, c: CustomerInput, req: OrderRequest, code: string, elapsed: nat,
                           cs: seq<Customer>, cid: nat, order: Order, vs: map<nat, Variant>, rows: seq<LedgerEntry>)
    requires StoreValid(customers, variants, productNames, orders, ledger, slips, nextVariantId, clock)
    requires FirstFailure(variants, productNames, req.items).None? && !CodeInUse(orders, code)
    requires (cs, cid) == UpsertCustomer(customers, c)
    requires AllKnown(variants, req.items)
    requires order == NewOrder(|orders|, code, cid, req, Snapshots(variants, productNames, req.items), Subtotal(req.items), clock + elapsed)
    requires vs == Deduct(variants, req.items) && rows == DeductionRows(req.items, |orders|, code)
    ensures StoreValid(cs, vs, productNames, orders + [order], ledger + rows, slips, nextVariantId, clock + elapsed)
  {
    UpsertKeepsPhonesUnique(customers, c);
    AppendOrderValid(orders, |customers|, clock, order, |cs|);
    DeductIsStockOnly(variants, req.items);
    StockOnlyChangeValid(variants, vs, nextVariantId, productNames);
    DeductionRowsShape(req.items, |orders|, code);
    LedgerAppendValid(ledger, rows, variants, nextVariantId, productNames);
  }

  lemma ReplaceOrderValid(orders: seq<Order>, customerCount: nat, clock: nat, id: nat, o: Order)
    requires OrdersValid(orders, customerCount, clock) && id < |orders|
    requires o.id == id && o.customerId == orders[id].customerId && o.createdAt == orders[id].createdAt
    requires o.orderCode == orders[id].orderCode
    ensures OrdersValid(orders[id := o], customerCount, clock)
  {
  }

  // ---------------------------------------------------------------------
  // The store
  // ---------------------------------------------------------------------

  class Store {
    /** Customer rows; a customer's id is its position. */
    var customers: seq<Customer>
    /** Variant rows by id. */
    var variants: map<nat, Variant>
    /** `nameKm` of each catalogue product (products are not edited here). */
    var productNames: map<nat, string>
    /** Order rows; an order's id is its position. */
    var orders: seq<Order>
    /** The inventory ledger, oldest row first. */
    var ledger: seq<LedgerEntry>
    var slips: seq<PaymentSlip>
    /** The id the next created variant gets. */
    var nextVariantId: nat
    /** The time of the latest order. */
    var clock: nat

    ghost predicate Valid()
      reads this
    {
      StoreValid(customers, variants, productNames, orders, ledger, slips, nextVariantId, clock)
    }

    /** Writes the results of a transaction back, all at once. */
    method Commit(cs: seq<Customer>, vs: map<nat, Variant>, os: seq<Order>, ls: seq<LedgerEntry>,
                  ss: seq<PaymentSlip>, next: nat, clk: nat)
      requires StoreValid(cs, vs, productNames, os, ls, ss, next, clk)
      modifies this
      ensures Valid() && productNames == old(productNames)
      ensures customers == cs && variants == vs && orders == os && ledger == ls
      ensures slips == ss && nextVariantId == next && clock == clk
    {
      customers, variants, orders, ledger, slips, nextVariantId, clock := cs, vs, os, ls, ss, next, clk;
    }

    /** An empty shop over a catalogue of products. */
    constructor (productNames: map<nat, string>)
      ensures Valid() && Reconciled(variants, ledger)
      ensures this.productNames == productNames
      ensures customers == [] && variants == map[] && orders == [] && ledger == [] && slips == []
    {
      customers, variants, this.productNames, orders, ledger, slips := [], map[], productNames, [], [], [];
      nextVariantId, clock := 0, 0;
    }

    /** `getOrderById`. */
    function OrderById(id: nat): (r: Option<Order>)
      reads this
      requires Valid()
      ensures r.Some? <==> id < |orders|
      ensures r.Some? ==> r.value.id == id && r.value == orders[id]
    {
      if id < |orders| then Some(orders[id]) else None
    }

    /** `createOrderTransaction`. The order code is stamped with `date` and
        the random `suffix`; the order is created `elapsed` after the
        previous one. */
    method CreateOrder(c: CustomerInput, req: OrderRequest, date: Date, suffix: nat, elapsed: nat)
      returns (r: Result<Order, Error>)
      requires Valid()
      modifies this
      ensures Valid()
      ensures r.Err? ==> unchanged(this)
      ensures FirstFailure(old(variants), productNames, req.items).Some? ==>
        r == Err(FirstFailure(old(variants), productNames, req.items).value)
      ensures FirstFailure(old(variants), productNames, req.items).None? && CodeInUse(old(orders), OrderCode(date, suffix)) ==>
        r == Err(OrderCodeTaken(OrderCode(date, suffix)))
      ensures r.Ok? <==> FirstFailure(old(variants), productNames, req.items).None? && !CodeInUse(old(orders), OrderCode(date, suffix))
      ensures r.Ok? ==>
        && AllKnown(old(variants), req.items)
        && customers == UpsertCustomer(old(customers), c).0
        && r.value == NewOrder(|old(orders)|, OrderCode(date, suffix), UpsertCustomer(old(customers), c).1, req,
                               Snapshots(old(variants), productNames, req.items), Subtotal(req.items), old(clock) + elapsed)
        && orders == old(orders) + [r.value]
        && variants == Deduct(old(variants), req.items)
        && ledger == old(ledger) + DeductionRows(req.items, r.value.id, r.value.orderCode)
        && clock == old(clock) + elapsed
      ensures productNames == old(productNames) && slips == old(slips) && nextVariantId == old(nextVariantId)
      ensures old(Reconciled(variants, ledger)) ==> Reconciled(variants, ledger)
      ensures old(NonNegativeStock(variants)) && DistinctVariants(req.items) ==> NonNegativeStock(variants)
    {
      var checked := CheckLines(variants, productNames, req.items);
      if checked.Err? {
        return Err(checked.error);
      }
      if CodeInUse(orders, OrderCode(date, suffix)) {
        return Err(OrderCodeTaken(OrderCode(date, suffix)));
      }
      var order := PlaceOrder(c, req, checked.value.0, checked.value.1, date, suffix, elapsed);
      r := Ok(order);
    }

    /** The writes of `createOrderTransaction` once every line has passed
        its stock check: the customer upsert, the order row with its items,
        then one deduction and one ledger row per line. */
    method PlaceOrder(c: CustomerInput, req: OrderRequest, items: seq<OrderItem>, subtotal: Money,
                      date: Date, suffix: nat, elapsed: nat)
      returns (order: Order)
      requires Valid()
      requires FirstFailure(variants, productNames, req.items).None? && !CodeInUse(orders, OrderCode(date, suffix))
      requires AllKnown(variants, req.items)
      requires items == Snapshots(variants, productNames, req.items) && subtotal == Subtotal(req.items)
      modifies this
      ensures Valid()
      ensures customers == UpsertCustomer(old(customers), c).0
      ensures order == NewOrder(|old(orders)|, OrderCode(date, suffix), UpsertCustomer(old(customers), c).1, req,
                                Snapshots(old(variants), productNames, req.items), Subtotal(req.items), old(clock) + elapsed)
      ensures orders == old(orders) + [order]
      ensures variants == Deduct(old(variants), req.items)
      ensures ledger == old(ledger) + DeductionRows(req.items, order.id, order.orderCode)
      ensures clock == old(clock) + elapsed
      ensures productNames == old(productNames) && slips == old(slips) && nextVariantId == old(nextVariantId)
      ensures old(Reconciled(variants, ledger)) ==> Reconciled(variants, ledger)
      ensures old(NonNegativeStock(variants)) && DistinctVariants(req.items) ==> NonNegativeStock(variants)
    {
      var (cs, cid) := UpsertCustomer(customers, c);
      var id := |orders|;
      var code := OrderCode(date, suffix);
      order := NewOrder(id, code, cid, req, items, subtotal, clock + elapsed);
      var vs, rows := ApplyDeductions(variants, req.items, id, code);
      CheckoutKeepsValid(customers, variants, productNames, orders, ledger, slips, nextVariantId, clock, c, req, code, elapsed,
                         cs, cid, order, vs, rows);
      CheckoutKeepsStock(variants, productNames, ledger, req.items, id, code);
      Commit(cs, vs, orders + [order], ledger + rows, slips, nextVariantId, clock + elapsed);
    }

    /** `updateOrderStatus`: the status is written as given (there is no
        transition table). Moving an order into CANCELLED from any other
        status gives its stock back; nothing else touches stock. */
    method UpdateOrderStatus(id: nat, status: OrderStatus) returns (r: Result<Order, Error>)
      requires Valid()
      modifies this
      ensures Valid()
      ensures r.Err? ==> unchanged(this)
      ensures id >= |old(orders)| ==> r == Err(OrderNotFound)
      ensures id < |old(orders)| ==>
        var o := old(orders)[id];
        var restoring := status == CANCELLED && o.orderStatus != CANCELLED;
        && (restoring && RestoreStock(old(variants), o.items).Err? ==> r == Err(RestoreStock(old(variants), o.items).error))
        && (r.Ok? <==> !restoring || RestoreStock(old(variants), o.items).Ok?)
        && (r.Ok? ==>
              && r.value == o.(orderStatus := status)
              && orders == old(orders)[id := r.value]
              && (restoring ==> variants == RestoreStock(old(variants), o.items).value
                                && ledger == old(ledger) + RestoreRows(o.items, id, o.orderCode))
              && (!restoring ==> variants == old(variants) && ledger == old(ledger)))
      ensures customers == old(customers) && productNames == old(productNames) && slips == old(slips)
      ensures nextVariantId == old(nextVariantId) && clock == old(clock)
      ensures old(Reconciled(variants, ledger)) ==> Reconciled(variants, ledger)
    {
      if id >= |orders| {
        return Err(OrderNotFound);
      }
      var o := orders[id];
      var vs, rows := variants, [];
      if status == CANCELLED && o.orderStatus != CANCELLED {
        var restored := ApplyRestore(variants, o.items, id, o.orderCode);
        if restored.Err? {
          return Err(restored.error);
        }
        vs, rows := restored.value.0, restored.value.1;
        CancelKeepsStock(variants, ledger, o.items, id, o.orderCode);
      }
      StatusWriteKeepsValid(customers, variants, productNames, orders, ledger, slips, nextVariantId, clock, id, status, vs, rows);
      r := Ok(o.(orderStatus := status));
      Commit(customers, vs, orders[id := r.value], ledger + rows, slips, nextVariantId, clock);
    }

    /** `updatePaymentStatus`: writes the status as given. */
    method UpdatePaymentStatus(id: nat, status: PaymentStatus) returns (r: Result<Order, Error>)
      requires Valid()
      modifies this
      ensures Valid()
      ensures r.Err? <==> id >= |old(orders)|
      ensures r.Err? ==> r.error == OrderNotFound && unchanged(this)
      ensures r.Ok? ==> r.value == old(orders)[id].(paymentStatus := status) && orders == old(orders)[id := r.value]
      ensures customers == old(customers) && variants == old(variants) && ledger == old(ledger) && slips == old(slips)
      ensures productNames == old(productNames) && nextVariantId == old(nextVariantId) && clock == old(clock)
    {
      if id >= |orders| {
        return Err(OrderNotFound);
      }
      r := Ok(orders[id].(paymentStatus := status));
      orders := orders[id := r.value];
    }

    /** `uploadPaymentSlipAction`: records the slip and marks the order's
        payment as under verification; returns the slip and the order code. */
    method UploadPaymentSlip(orderId: nat, slipUrl: string, paymentMethod: PaymentMethod)
      returns (r: Result<(PaymentSlip, string), Error>)
      requires Valid()
      modifies this
      ensures Valid()
      ensures r.Err? <==> orderId >= |old(orders)|
      ensures r.Err? ==> r.error == OrderNotFound && unchanged(this)
      ensures r.Ok? ==>
        && r.value == (PaymentSlip(orderId, slipUrl, paymentMethod), old(orders)[orderId].orderCode)
        && slips == old(slips) + [r.value.0]
        && orders == old(orders)[orderId := old(orders)[orderId].(paymentStatus := PENDING_VERIFICATION)]
      ensures customers == old(customers) && variants == old(variants) && ledger == old(ledger)
      ensures productNames == old(productNames) && nextVariantId == old(nextVariantId) && clock == old(clock)
    {
      if orderId >= |orders| {
        return Err(OrderNotFound);
      }
      var slip := PaymentSlip(orderId, slipUrl, paymentMethod);
      var code := orders[orderId].orderCode;
      slips := slips + [slip];
      orders := orders[orderId := orders[orderId].(paymentStatus := PENDING_VERIFICATION)];
      r := Ok((slip, code));
    }

    /** `logTransaction`: appends one ledger row for an existing variant.
        The stock itself is not touched. */
    method LogTransaction(input: LogInput) returns (r: Result<LedgerEntry, Error>)
      requires Valid()
      modifies this
      ensures Valid()
      ensures r.Err? <==> input.variantId !in old(variants)
      ensures r.Err? ==> r.error == VariantNotFound(input.variantId) && unchanged(this)
      ensures r.Ok? ==> r.value == Entry(input) && ledger == old(ledger) + [r.value]
      ensures customers == old(customers) && variants == old(variants) && orders == old(orders) && slips == old(slips)
      ensures nextVariantId == old(nextVariantId) && productNames == old(productNames) && clock == old(clock)
    {
      if input.variantId !in variants {
        return Err(VariantNotFound(input.variantId));
      }
      r := Ok(Entry(input));
      ledger := ledger + [r.value];
    }

    /** `adjustStock`: logs the move from `oldStock` to `newStock`, if any.
        It does not write the variant's stock; that is the caller's job. */
    method AdjustStock(variantId: nat, newStock: int, oldStock: int, userId: Option<string>)
      returns (r: Result<Option<LedgerEntry>, Error>)
      requires Valid()
      modifies this
      ensures Valid()
      ensures newStock == oldStock ==> r == Ok(None) && unchanged(this)
      ensures newStock != oldStock && variantId !in old(variants) ==> r == Err(VariantNotFound(variantId)) && unchanged(this)
      ensures newStock != oldStock && variantId in old(variants) ==>
        var e := Entry(AdjustmentLog(variantId, newStock, oldStock, userId).value);
        r == Ok(Some(e)) && ledger == old(ledger) + [e]
      ensures customers == old(customers) && variants == old(variants) && orders == old(orders) && slips == old(slips)
      ensures nextVariantId == old(nextVariantId) && productNames == old(productNames) && clock == old(clock)
    {
      var log := AdjustmentLog(variantId, newStock, oldStock, userId);
      if log.None? {
        return Ok(None);
      }
      var written := LogTransaction(log.value);
      if written.Err? {
        return Err(written.error);
      }
      r := Ok(Some(written.value));
    }

    /** `createVariant`: validates the input, creates the variant under an
        existing product and logs its starting stock. */
    method CreateVariant(productId: nat, raw: RawVariant, userId: Option<string>) returns (r: Result<Variant, Error>)
      requires Valid()
      modifies this
      ensures Valid()
      ensures ParseCreate(raw).Err? ==> r == Err(Invalid(ParseCreate(raw).error))
      ensures ParseCreate(raw).Ok? && productId !in productNames ==> r == Err(ProductNotFound(productId))
      ensures r.Err? ==> unchanged(this)
      ensures r.Ok? <==> ParseCreate(raw).Ok? && productId in productNames
      ensures r.Ok? ==>
        var d := ParseCreate(raw).value;
        var id := old(nextVariantId);
        && r.value == Variant(id, productId, d.sku, d.color, d.size, d.costPrice, d.salePrice, d.stockOnHand, d.isActive)
        && id !in old(variants)
        && variants == old(variants)[id := r.value]
        && nextVariantId == id + 1
        && (d.stockOnHand > 0 ==> ledger == old(ledger) + [Entry(InitialStockLog(id, d.stockOnHand, userId).value)])
        && (d.stockOnHand == 0 ==> ledger == old(ledger))
      ensures customers == old(customers) && orders == old(orders) && slips == old(slips) && productNames == old(productNames)
      ensures clock == old(clock)
      ensures old(Reconciled(variants, ledger)) ==> Reconciled(variants, ledger)
    {
      var parsed := ParseCreate(raw);
      if parsed.Err? {
        return Err(Invalid(parsed.error));
      }
      if productId !in productNames {
        return Err(ProductNotFound(productId));
      }
      var d := parsed.value;
      var id := nextVariantId;
      var v := Variant(id, productId, d.sku, d.color, d.size, d.costPrice, d.salePrice, d.stockOnHand, d.isActive);
      CreateKeepsReconciled(variants, ledger, v, userId);
      ghost var rows := InitialRows(id, v.stockOnHand, userId);
      ghost var oldLedger := ledger;
      NewVariantKeepsValid(customers, variants, productNames, orders, ledger, slips, nextVariantId, clock, v);
      Commit(customers, variants[id := v], orders, ledger, slips, id + 1, clock);
      var log := InitialStockLog(id, v.stockOnHand, userId);
      if log.Some? {
        var _ := LogTransaction(log.value);
      }
      assert ledger == oldLedger + rows;
      r := Ok(v);
    }

    /** `updateVariant`: validates the patch, logs any change of stock, then
        writes the supplied fields. */
    method UpdateVariant(id: nat, raw: RawVariant, userId: Option<string>) returns (r: Result<Variant, Error>)
      requires Valid()
      modifies this
      ensures Valid()
      ensures ParseUpdate(raw).Err? ==> r == Err(Invalid(ParseUpdate(raw).error))
      ensures ParseUpdate(raw).Ok? && id !in old(variants) ==> r == Err(VariantNotFound(id))
      ensures r.Err? ==> unchanged(this)
      ensures r.Ok? <==> ParseUpdate(raw).Ok? && id in old(variants)
      ensures r.Ok? ==>
        var p := ParseUpdate(raw).value;
        var v := old(variants)[id];
        && r.value == ApplyPatch(v, p)
        && variants == old(variants)[id := r.value]
        && (p.stockOnHand.Some? && p.stockOnHand.value != v.stockOnHand ==>
              ledger == old(ledger) + [Entry(AdjustmentLog(id, p.stockOnHand.value, v.stockOnHand, userId).value)])
        && (p.stockOnHand.None? || p.stockOnHand.value == v.stockOnHand ==> ledger == old(ledger))
      ensures customers == old(customers) && orders == old(orders) && slips == old(slips)
      ensures nextVariantId == old(nextVariantId) && productNames == old(productNames) && clock == old(clock)
      ensures old(Reconciled(variants, ledger)) ==> Reconciled(variants, ledger)
    {
      var parsed := ParseUpdate(raw);
      if parsed.Err? {
        return Err(Invalid(parsed.error));
      }
      if id !in variants {
        return Err(VariantNotFound(id));
      }
      var p := parsed.value;
      var v := variants[id];
      var nv := ApplyPatch(v, p);
      UpdateKeepsReconciled(variants, ledger, nv, userId);
      ghost var rows := AdjustmentRows(id, nv.stockOnHand, v.stockOnHand, userId);
      ghost var oldLedger := ledger;
      if p.stockOnHand.Some? && p.stockOnHand.value != v.stockOnHand {
        var _ := AdjustStock(id, p.stockOnHand.value, v.stockOnHand, userId);
      }
      assert ledger == oldLedger + rows;
      variants := variants[id := nv];
      r := Ok(nv);
    }

    /** `deleteVariant`. */
    method DeleteVariant(id: nat) returns (r: Result<Variant, Error>)
      requires Valid()
      modifies this
      ensures Valid()
      ensures r.Err? <==> id !in old(variants)
      ensures r.Err? ==> r.error == VariantNotFound(id) && unchanged(this)
      ensures r.Ok? ==> r.value == old(variants)[id] && variants == old(variants) - {id}
      ensures customers == old(customers) && orders == old(orders) && ledger == old(ledger) && slips == old(slips)
      ensures nextVariantId == old(nextVariantId) && productNames == old(productNames) && clock == old(clock)
      ensures old(Reconciled(variants, ledger)) ==> Reconciled(variants, ledger)
    {
      if id !in variants {
        return Err(VariantNotFound(id));
      }
      r := Ok(variants[id]);
      variants := variants - {id};
    }
  }
}
