/** How inventory ledger rows are built: the generic logging call, the
    manual stock adjustment and the initial-stock row of a new variant. */
module Inventory {
  import opened Common
  import opened Domain

  /** The validated input of a ledger write. */
  datatype LogInput = LogInput(
    variantId: nat,
    txType: TxType,
    qty: int,
    refType: string,
    refId: Option<nat>,
    note: Option<string>,
    createdByUserId: Option<string>)

  /** The row `logTransaction` writes: every field is copied, and a user is
      linked only when a non-empty user id is supplied. */
  function Entry(input: LogInput): (e: LedgerEntry)
    ensures e.variantId == input.variantId && e.txType == input.txType && e.qty == input.qty
    ensures e.refType == input.refType && e.refId == input.refId && e.note == input.note
    ensures e.createdByUser.Some? <==> input.createdByUserId.Some? && input.createdByUserId.value != ""
    ensures e.createdByUser.Some? ==> e.createdByUser == input.createdByUserId
  {
    var linked := if input.createdByUserId.Some? && input.createdByUserId.value != "" then input.createdByUserId else None;
    LedgerEntry(input.variantId, input.txType, input.qty, input.refType, input.refId, input.note, linked)
  }

  function AdjustmentNote(oldStock: int, newStock: int): string {
    "Stock updated from " + IntToString(oldStock) + " to " + IntToString(newStock)
  }

  /** What `adjustStock` logs when stock is set from `oldStock` to
      `newStock`: nothing for no change, else one row whose type says the
      direction and whose quantity is the unsigned difference. */
  function AdjustmentLog(variantId: nat, newStock: int, oldStock: int, userId: Option<string>): (r: Option<LogInput>)
    ensures r.None? <==> newStock == oldStock
    ensures r.Some? ==> r.value.variantId == variantId && r.value.qty > 0
    ensures r.Some? ==> (r.value.qty == newStock - oldStock || r.value.qty == oldStock - newStock)
    ensures r.Some? ==> (r.value.txType == IN <==> newStock > oldStock)
    ensures r.Some? ==> (r.value.txType == ADJUST <==> newStock < oldStock)
    ensures r.Some? ==> r.value.refType == "MANUAL_ADJUSTMENT" && r.value.refId.None?
    ensures r.Some? ==> r.value.note == Some(AdjustmentNote(oldStock, newStock)) && r.value.createdByUserId == userId
    // read with the signed convention, the row moves the old stock exactly to the new one
    ensures r.Some? ==> oldStock + SignedDelta(Entry(r.value)) == newStock
  {
    var diff := newStock - oldStock;
    if diff == 0 then None
    else
      Some(LogInput(variantId, if diff > 0 then IN else ADJUST, if diff < 0 then -diff else diff,
                    "MANUAL_ADJUSTMENT", None, Some(AdjustmentNote(oldStock, newStock)), userId))
  }

  /** The raw quantities of adjustment rows do not add up to the stock
      change: a decrease from 5 to 3 is logged as +2. */
  lemma RawAdjustmentQtyIsUnsigned()
    ensures var e := Entry(AdjustmentLog(0, 3, 5, None).value); e.txType == ADJUST && e.qty == 2 && 5 + e.qty != 3
  {
  }

  /** The `IN` row `createVariant` writes for a positive starting stock. */
  function InitialStockLog(variantId: nat, stockOnHand: int, userId: Option<string>): (r: Option<LogInput>)
    ensures r.None? <==> stockOnHand <= 0
    ensures r.Some? ==> r.value.variantId == variantId && r.value.txType == IN && r.value.qty == stockOnHand
    ensures r.Some? ==> r.value.refType == "INITIAL_STOCK" && r.value.createdByUserId == userId
    ensures r.Some? ==> SignedDelta(Entry(r.value)) == stockOnHand
  {
    if stockOnHand > 0 then
      Some(LogInput(variantId, IN, stockOnHand, "INITIAL_STOCK", None,
                    Some("Initial stock upon variant creation"), userId))
    else None
  }
}
