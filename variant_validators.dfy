/** The variant input schemas as normalise-or-reject functions: the create
    schema and its all-optional update form. A raw field is whatever the
    client sent for that key. */
module VariantValidators {
  import opened Common
  import opened Domain

  /** A JSON-ish value as it reaches the schema. Numbers are finite. */
  datatype Raw = Undefined | Null | Str(s: string) | Num(x: real) | Bool(b: bool) | Other

  datatype RawVariant = RawVariant(
    sku: Raw, color: Raw, size: Raw, costPrice: Raw, salePrice: Raw, stockOnHand: Raw, isActive: Raw)

  /** Accepted create input. */
  datatype VariantData = VariantData(
    sku: string, color: string, size: string, costPrice: Money, salePrice: Money, stockOnHand: nat, isActive: bool)

  /** Accepted update input: `None` is an omitted field. */
  datatype VariantPatch = VariantPatch(
    sku: Option<string>, color: Option<string>, size: Option<string>, costPrice: Option<Money>,
    salePrice: Option<Money>, stockOnHand: Option<nat>, isActive: Option<bool>)

  predicate IsInteger(x: real) { x.Floor as real == x }

  // Per-field rules of the create schema.

  /** `z.string().min(1)`. */
  function ParseSku(r: Raw): Option<string> {
    if r.Str? && |r.s| >= 1 then Some(r.s) else None
  }

  /** `z.string().catch("")`: anything that is not a string becomes "". */
  function CatchString(r: Raw): string {
    if r.Str? then r.s else ""
  }

  /** `z.number().min(0).catch(0)`. */
  function CatchCost(r: Raw): Money {
    if r.Num? && r.x >= 0.0 then r.x else 0.0
  }

  /** `z.number().min(0)`. */
  function ParseSalePrice(r: Raw): Option<Money> {
    if r.Num? && r.x >= 0.0 then Some(r.x) else None
  }

  /** `z.number().int().min(0).default(0)`. */
  function ParseStock(r: Raw): Option<nat> {
    if r.Undefined? then Some(0)
    else if r.Num? && IsInteger(r.x) && r.x >= 0.0 then Some(r.x.Floor)
    else None
  }

  /** `z.boolean().default(true)`. */
  function ParseActive(r: Raw): Option<bool> {
    if r.Undefined? then Some(true) else if r.Bool? then Some(r.b) else None
  }

  /** The fields that fail, in schema order. */
  function CreateIssues(raw: RawVariant): seq<Field> {
    (if ParseSku(raw.sku).None? then [Sku] else [])
    + (if ParseSalePrice(raw.salePrice).None? then [SalePrice] else [])
    + (if ParseStock(raw.stockOnHand).None? then [StockOnHand] else [])
    + (if ParseActive(raw.isActive).None? then [IsActive] else [])
  }

  /** `createVariantSchema.parse`. */
  function ParseCreate(raw: RawVariant): (r: Result<VariantData, seq<Field>>)
    ensures r.Ok? <==> ParseSku(raw.sku).Some? && ParseSalePrice(raw.salePrice).Some?
                       && ParseStock(raw.stockOnHand).Some? && ParseActive(raw.isActive).Some?
    ensures r.Err? ==> |r.error| > 0
    ensures r.Ok? ==> |r.value.sku| >= 1 && r.value.salePrice >= 0.0 && r.value.costPrice >= 0.0
    ensures r.Ok? && raw.sku.Str? ==> r.value.sku == raw.sku.s
    ensures r.Ok? && raw.salePrice.Num? ==> r.value.salePrice == raw.salePrice.x
    ensures r.Ok? ==> (raw.isActive.Undefined? ==> r.value.isActive) && (raw.stockOnHand.Undefined? ==> r.value.stockOnHand == 0)
    ensures r.Ok? && raw.stockOnHand.Num? ==> r.value.stockOnHand as real == raw.stockOnHand.x
    ensures r.Ok? && raw.isActive.Bool? ==> r.value.isActive == raw.isActive.b
    // color and size that are not strings become "", a cost that is not a
    // number at least 0 becomes 0
    ensures r.Ok? ==> (raw.color.Str? ==> r.value.color == raw.color.s) && (!raw.color.Str? ==> r.value.color == "")
    ensures r.Ok? ==> (raw.size.Str? ==> r.value.size == raw.size.s) && (!raw.size.Str? ==> r.value.size == "")
    ensures r.Ok? ==> (raw.costPrice.Num? && raw.costPrice.x >= 0.0 ==> r.value.costPrice == raw.costPrice.x)
                      && (!(raw.costPrice.Num? && raw.costPrice.x >= 0.0) ==> r.value.costPrice == 0.0)
  {
    var issues := CreateIssues(raw);
    if issues != [] then Err(issues)
    else
      Ok(VariantData(
        ParseSku(raw.sku).value, CatchString(raw.color), CatchString(raw.size), CatchCost(raw.costPrice),
        ParseSalePrice(raw.salePrice).value, ParseStock(raw.stockOnHand).value, ParseActive(raw.isActive).value))
  }

  // The update schema is `createVariantSchema.partial()`: an undefined key is
  // left out, any other value goes through the create rule for that key.

  function Optional<T>(r: Raw, rule: Raw -> Option<T>): Option<Option<T>> {
    if r.Undefined? then Some(None)
    else match rule(r) { case None => None case Some(v) => Some(Some(v)) }
  }

  function UpdateIssues(raw: RawVariant): seq<Field> {
    (if Optional(raw.sku, ParseSku).None? then [Sku] else [])
    + (if Optional(raw.salePrice, ParseSalePrice).None? then [SalePrice] else [])
    + (if Optional(raw.stockOnHand, ParseStock).None? then [StockOnHand] else [])
    + (if Optional(raw.isActive, ParseActive).None? then [IsActive] else [])
  }

  function Catching<T>(r: Raw, value: T): Option<T> {
    if r.Undefined? then None else Some(value)
  }

  /** `updateVariantSchema.parse`. */
  function ParseUpdate(raw: RawVariant): (r: Result<VariantPatch, seq<Field>>)
    ensures r.Err? ==> |r.error| > 0
    // any key may be omitted; a supplied key must pass its create rule
    ensures r.Ok? <==> (raw.sku.Undefined? || ParseSku(raw.sku).Some?)
                       && (raw.salePrice.Undefined? || ParseSalePrice(raw.salePrice).Some?)
                       && (raw.stockOnHand.Undefined? || ParseStock(raw.stockOnHand).Some?)
                       && (raw.isActive.Undefined? || ParseActive(raw.isActive).Some?)
  {
    var issues := UpdateIssues(raw);
    if issues != [] then Err(issues)
    else
      Ok(VariantPatch(
        Optional(raw.sku, ParseSku).value,
        Catching(raw.color, CatchString(raw.color)),
        Catching(raw.size, CatchString(raw.size)),
        Catching(raw.costPrice, CatchCost(raw.costPrice)),
        Optional(raw.salePrice, ParseSalePrice).value,
        Optional(raw.stockOnHand, ParseStock).value,
        Optional(raw.isActive, ParseActive).value))
  }

  /** In the update form every key may be omitted; an all-omitted input is
      accepted and changes nothing. */
  lemma UpdateAllOmitted()
    ensures ParseUpdate(RawVariant(Undefined, Undefined, Undefined, Undefined, Undefined, Undefined, Undefined))
            == Ok(VariantPatch(None, None, None, None, None, None, None))
  {
  }

  /** An omitted key stays omitted and a supplied key is kept, holding the
      value the create schema's rule for that key normalises it to. */
  lemma {:induction false} UpdateAgreesWithCreate(raw: RawVariant)
    requires ParseUpdate(raw).Ok?
    ensures var p := ParseUpdate(raw).value;
      && (p.sku.None? <==> raw.sku.Undefined?)
      && (p.sku.Some? ==> Some(p.sku.value) == ParseSku(raw.sku))
      && (p.salePrice.None? <==> raw.salePrice.Undefined?)
      && (p.salePrice.Some? ==> Some(p.salePrice.value) == ParseSalePrice(raw.salePrice) && p.salePrice.value >= 0.0)
      && (p.stockOnHand.None? <==> raw.stockOnHand.Undefined?)
      && (p.stockOnHand.Some? ==> Some(p.stockOnHand.value) == ParseStock(raw.stockOnHand)
                                  && raw.stockOnHand.Num? && p.stockOnHand.value as real == raw.stockOnHand.x)
      && (p.isActive.None? <==> raw.isActive.Undefined?)
      && (p.isActive.Some? ==> Some(p.isActive.value) == ParseActive(raw.isActive) && raw.isActive == Bool(p.isActive.value))
    ensures var p := ParseUpdate(raw).value;
      && (p.color.None? <==> raw.color.Undefined?)
      && (p.color.Some? ==> p.color.value == CatchString(raw.color))
      && (p.size.None? <==> raw.size.Undefined?)
      && (p.size.Some? ==> p.size.value == CatchString(raw.size))
      && (p.costPrice.None? <==> raw.costPrice.Undefined?)
      && (p.costPrice.Some? ==> p.costPrice.value == CatchCost(raw.costPrice) && p.costPrice.value >= 0.0)
  {
    assert UpdateIssues(raw) == [];
    assert Optional(raw.sku, ParseSku).Some?;
    assert Optional(raw.salePrice, ParseSalePrice).Some?;
    assert Optional(raw.stockOnHand, ParseStock).Some?;
    assert Optional(raw.isActive, ParseActive).Some?;
  }

  /** A fully supplied update input is accepted exactly when the create
      schema accepts it. */
  lemma {:induction false} UpdateAcceptsLikeCreate(raw: RawVariant)
    requires !raw.sku.Undefined? && !raw.salePrice.Undefined? && !raw.stockOnHand.Undefined? && !raw.isActive.Undefined?
    ensures ParseUpdate(raw).Ok? <==> ParseCreate(raw).Ok?
  {
    if ParseCreate(raw).Ok? {
      assert CreateIssues(raw) == [];
      assert UpdateIssues(raw) == [];
    }
    if ParseUpdate(raw).Ok? {
      assert UpdateIssues(raw) == [];
      assert CreateIssues(raw) == [];
    }
  }
}
