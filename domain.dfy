/** The persisted entities of the shop: customers, product variants, orders
    with their line-item snapshots, inventory ledger rows and payment slips,
    and the signed reading of the ledger. */
module Domain {
  import opened Common

  datatype OrderStatus = NEW | PROCESSING | SHIPPED | DELIVERED | CANCELLED
  datatype PaymentStatus = UNPAID | PENDING_VERIFICATION | PAID | FAILED | REFUNDED
  datatype DeliveryZone = PP | PROVINCE
  datatype PaymentMethod = ABA | COD

  /** Kinds of inventory ledger rows. */
  datatype TxType = IN | OUT | DEDUCT | ADJUST

  /** A customer; its id is its position in the store's customer rows. */
  datatype Customer = Customer(fullName: string, phone: string)

  /** A sellable variant of a product. `productId` names the product whose
      `nameKm` is snapshotted into order items. */
  datatype Variant = Variant(
    id: nat,
    productId: nat,
    sku: string,
    color: string,
    size: string,
    costPrice: Money,
    salePrice: Money,
    stockOnHand: int,
    isActive: bool)

  /** A line item as snapshotted at purchase time. */
  datatype OrderItem = OrderItem(
    variantId: nat,
    productName: string,
    size: string,
    color: string,
    sku: string,
    costPrice: Money,
    salePrice: Money,
    discount: Money,
    qty: int,
    lineTotal: Money)

  datatype Order = Order(
    id: nat,
    orderCode: string,
    customerId: nat,
    deliveryZone: DeliveryZone,
    deliveryAddress: string,
    deliveryFee: Money,
    subtotal: Money,
    total: Money,
    paymentMethod: PaymentMethod,
    paymentStatus: PaymentStatus,
    orderStatus: OrderStatus,
    note: Option<string>,
    createdAt: nat,
    items: seq<OrderItem>)

  /** One inventory ledger row. `qty` is stored as the writer gave it: order
      deductions store a negative number, manual decreases a positive one. */
  datatype LedgerEntry = LedgerEntry(
    variantId: nat,
    txType: TxType,
    qty: int,
    refType: string,
    refId: Option<nat>,
    note: Option<string>,
    createdByUser: Option<string>)

  datatype PaymentSlip = PaymentSlip(orderId: nat, slipUrl: string, paymentMethod: PaymentMethod)

  /** Variant input fields that the variant schema can reject. */
  datatype Field = Sku | SalePrice | StockOnHand | IsActive

  /** Everything a store operation can fail with. */
  datatype Error =
    | VariantNotFound(variantId: nat)
    | InsufficientStock(productName: string, color: string, size: string)
    | OrderCodeTaken(code: string)
    | OrderNotFound
    | ProductNotFound(productId: nat)
    | Invalid(fields: seq<Field>)

  /** The change in on-hand stock that a ledger row stands for. DEDUCT rows
      already carry a negative quantity; ADJUST rows carry the size of a
      manual decrease as a positive quantity; OUT is read as a removal. */
  function SignedDelta(e: LedgerEntry): int {
    match e.txType
    case IN => e.qty
    case DEDUCT => e.qty
    case ADJUST => -e.qty
    case OUT => -e.qty
  }

  /** The net stock change the ledger records for one variant. */
  function LedgerSum(ledger: seq<LedgerEntry>, variantId: nat): int {
    if ledger == [] then 0
    else
      var last := ledger[|ledger| - 1];
      LedgerSum(ledger[..|ledger| - 1], variantId) + (if last.variantId == variantId then SignedDelta(last) else 0)
  }

  lemma {:induction false} LedgerSumAppend(a: seq<LedgerEntry>, b: seq<LedgerEntry>, variantId: nat)
    ensures LedgerSum(a + b, variantId) == LedgerSum(a, variantId) + LedgerSum(b, variantId)
    decreases |b|
  {
    if b == [] {
      assert a + b == a;
    } else {
      var b' := b[..|b| - 1];
      assert (a + b)[..|a + b| - 1] == a + b';
      LedgerSumAppend(a, b', variantId);
    }
  }

  /** Rows about other variants do not move a variant's sum. */
  lemma {:induction false} LedgerSumOther(rows: seq<LedgerEntry>, variantId: nat)
    requires forall i :: 0 <= i < |rows| ==> rows[i].variantId != variantId
    ensures LedgerSum(rows, variantId) == 0
  {
    if rows != [] {
      LedgerSumOther(rows[..|rows| - 1], variantId);
    }
  }

  /** Every variant's on-hand stock is what its ledger rows add up to. */
  ghost predicate Reconciled(variants: map<nat, Variant>, ledger: seq<LedgerEntry>) {
    forall k :: k in variants ==> variants[k].stockOnHand == LedgerSum(ledger, k)
  }

  ghost predicate NonNegativeStock(variants: map<nat, Variant>) {
    forall k :: k in variants ==> variants[k].stockOnHand >= 0
  }
}
