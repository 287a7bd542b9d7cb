/** The storefront's category page: one page of the category's active
    products, newest first, each shown with its cheapest active price and
    its first image, and whether another page follows. */
module Shop {
  import opened Common

  datatype ShopImage = ShopImage(url: string, sortOrder: int)

  datatype ShopVariant = ShopVariant(salePrice: Money, isActive: bool)

  /** A catalogue product; the catalogue lists products in the order they
      were created. */
  datatype ShopProduct = ShopProduct(
    id: nat,
    nameKm: string,
    categoryId: nat,
    isActive: bool,
    images: seq<ShopImage>,
    variants: seq<ShopVariant>)

  /** What the page shows of a product. */
  datatype Card = Card(id: nat, name: string, price: Money, image: string)

  datatype CategoryPage = CategoryPage(products: seq<Card>, hasMore: bool)

  /** The page asked for lies before the first one: the database refuses a
      negative offset. */
  datatype ShopError = NegativeSkip(skip: int)

  const Placeholder: string := "/images/placeholder-product.svg"

  const DefaultPage: int := 1

  const DefaultLimit: nat := 10

  predicate Listed(p: ShopProduct, categoryId: nat) {
    p.isActive && p.categoryId == categoryId
  }

  /** The `where` of both the query and the count, in creation order. */
  function InCategory(ps: seq<ShopProduct>, categoryId: nat): (r: seq<ShopProduct>)
    ensures |r| <= |ps|
    ensures forall p :: p in r <==> p in ps && Listed(p, categoryId)
  {
    if ps == [] then []
    else
      var last := ps[|ps| - 1];
      assert forall p :: p in ps <==> p in ps[..|ps| - 1] || p == last;
      InCategory(ps[..|ps| - 1], categoryId) + (if Listed(last, categoryId) then [last] else [])
  }

  /** The sale prices of the active variants, in order. */
  function ActivePrices(vs: seq<ShopVariant>): (r: seq<Money>)
    ensures forall x :: x in r <==> exists v :: v in vs && v.isActive && v.salePrice == x
  {
    if vs == [] then []
    else
      var last := vs[|vs| - 1];
      assert forall v :: v in vs <==> v in vs[..|vs| - 1] || v == last;
      ActivePrices(vs[..|vs| - 1]) + (if last.isActive then [last.salePrice] else [])
  }

  /** `Math.min(...prices)`. */
  function MinOf(xs: seq<Money>): (r: Money)
    requires xs != []
    ensures r in xs
    ensures forall x :: x in xs ==> r <= x
  {
    if |xs| == 1 then xs[0]
    else
      var m := MinOf(xs[..|xs| - 1]);
      var last := xs[|xs| - 1];
      assert forall x :: x in xs <==> x in xs[..|xs| - 1] || x == last;
      if last < m then last else m
  }

  /** The price shown: 0 when no variant is active, and otherwise the sale
      price of an active variant that no active variant undercuts. */
  function Price(p: ShopProduct): (r: Money)
    ensures (forall v :: v in p.variants ==> !v.isActive) ==> r == 0.0
    ensures (exists v :: v in p.variants && v.isActive) ==>
      (exists v :: v in p.variants && v.isActive && v.salePrice == r)
      && forall v :: v in p.variants && v.isActive ==> r <= v.salePrice
  {
    var prices := ActivePrices(p.variants);
    assert forall v :: v in p.variants && v.isActive ==> v.salePrice in prices;
    if prices == [] then 0.0 else MinOf(prices)
  }

  /** The image with the lowest `sortOrder`, the earliest of those on a tie. */
  function FirstImage(imgs: seq<ShopImage>): (r: Option<ShopImage>)
    ensures r.None? <==> imgs == []
    ensures r.Some? ==> r.value in imgs && forall x :: x in imgs ==> r.value.sortOrder <= x.sortOrder
  {
    if imgs == [] then None
    else
      var last := imgs[|imgs| - 1];
      assert forall x :: x in imgs <==> x in imgs[..|imgs| - 1] || x == last;
      match FirstImage(imgs[..|imgs| - 1])
      case None => Some(last)
      case Some(first) => if last.sortOrder < first.sortOrder then Some(last) else Some(first)
  }

  /** The image shown: the url of an image that no other image precedes by
      `sortOrder`, unless there is none or that url is empty, when the
      placeholder is shown. */
  function ImageOf(p: ShopProduct): (r: string)
    ensures p.images == [] ==> r == Placeholder
    ensures r != Placeholder ==>
      exists x :: x in p.images && x.url == r && r != ""
        && forall y :: y in p.images ==> x.sortOrder <= y.sortOrder
  {
    match FirstImage(p.images)
    case None => Placeholder
    case Some(img) => if img.url != "" then img.url else Placeholder
  }

  /** When every image of lowest `sortOrder` has a url, the card shows the
      url of one of them, not the placeholder. */
  lemma ImageShown(p: ShopProduct)
    requires p.images != []
    requires forall x :: x in p.images && (forall y :: y in p.images ==> x.sortOrder <= y.sortOrder) ==> x.url != ""
    ensures exists x :: x in p.images && x.url == ImageOf(p) && forall y :: y in p.images ==> x.sortOrder <= y.sortOrder
  {
    var img := FirstImage(p.images).value;
    assert img.url != "";
    assert ImageOf(p) == img.url;
  }

  function CardOf(p: ShopProduct): Card {
    Card(p.id, p.nameKm, Price(p), ImageOf(p))
  }

  function Cards(ps: seq<ShopProduct>): (r: seq<Card>)
    ensures |r| == |ps|
    ensures forall i :: 0 <= i < |ps| ==> r[i] == CardOf(ps[i])
  {
    if ps == [] then [] else Cards(ps[..|ps| - 1]) + [CardOf(ps[|ps| - 1])]
  }

  /** `(page - 1) * limit`. */
  function ShopSkip(page: int, limit: nat): int {
    (page - 1) * limit
  }

  function PageOr(page: Option<int>): int {
    if page.Some? then page.value else DefaultPage
  }

  function LimitOr(limit: Option<nat>): nat {
    if limit.Some? then limit.value else DefaultLimit
  }

  /** `getProductsByCategoryAction(categoryId, page = 1, limit = 10)`. */
  function ProductsByCategory(ps: seq<ShopProduct>, categoryId: nat, page: Option<int>, limit: Option<nat>): (r: Result<CategoryPage, ShopError>)
    // only a page before the first is refused
    ensures r.Err? <==> ShopSkip(PageOr(page), LimitOr(limit)) < 0
    ensures r.Err? ==> r.error == NegativeSkip(ShopSkip(PageOr(page), LimitOr(limit)))
    ensures r.Ok? ==> |r.value.products| <= LimitOr(limit)
    // `limit` cards, or all the listed products past `skip` when fewer remain
    ensures r.Ok? ==> var skip, n := ShopSkip(PageOr(page), LimitOr(limit)), |InCategory(ps, categoryId)|;
      |r.value.products| == if skip < n then Min(LimitOr(limit), n - skip) else 0
  {
    var lim := LimitOr(limit);
    var skip := ShopSkip(PageOr(page), lim);
    if skip < 0 then Err(NegativeSkip(skip))
    else
      var newest := Reverse(InCategory(ps, categoryId));
      var window := Window(newest, skip, Some(lim));
      Ok(CategoryPage(Cards(window), skip + |window| < |newest|))
  }

  /** The page holds at most `limit` cards, and card `i` shows the product
      at position `skip + i` of the category's active products, newest
      first. */
  lemma PageCards(ps: seq<ShopProduct>, categoryId: nat, page: Option<int>, limit: Option<nat>)
    requires ProductsByCategory(ps, categoryId, page, limit).Ok?
    ensures var cards := ProductsByCategory(ps, categoryId, page, limit).value.products;
      var skip := ShopSkip(PageOr(page), LimitOr(limit));
      var newest := Reverse(InCategory(ps, categoryId));
      && |cards| <= LimitOr(limit)
      && forall i :: 0 <= i < |cards| ==> skip + i < |newest| && cards[i] == CardOf(newest[skip + i])
  {
    WindowCards(Reverse(InCategory(ps, categoryId)), ShopSkip(PageOr(page), LimitOr(limit)), LimitOr(limit));
  }

  /** There is more exactly when some listed product lies past this page's
      slot. */
  lemma PageHasMore(ps: seq<ShopProduct>, categoryId: nat, page: Option<int>, limit: Option<nat>)
    requires ProductsByCategory(ps, categoryId, page, limit).Ok?
    ensures ProductsByCategory(ps, categoryId, page, limit).value.hasMore
      <==> ShopSkip(PageOr(page), LimitOr(limit)) + LimitOr(limit) < |InCategory(ps, categoryId)|
  {
    WindowHasMore(Reverse(InCategory(ps, categoryId)), ShopSkip(PageOr(page), LimitOr(limit)), LimitOr(limit));
  }

  /** The window ends before the list does exactly when some element lies
      past `skip + lim`. */
  lemma WindowHasMore<T>(s: seq<T>, skip: nat, lim: nat)
    ensures skip + |Window(s, skip, Some(lim))| < |s| <==> skip + lim < |s|
  {
    if skip > |s| {
      assert |Window(s, skip, Some(lim))| == 0;
    }
  }

  /** Card `i` of a window shows element `skip + i`. */
  lemma WindowCards(s: seq<ShopProduct>, skip: nat, lim: nat)
    ensures var cards := Cards(Window(s, skip, Some(lim)));
      forall i :: 0 <= i < |cards| ==> skip + i < |s| && cards[i] == CardOf(s[skip + i])
  {
    var window := Window(s, skip, Some(lim));
    var cards := Cards(window);
    forall i | 0 <= i < |cards| ensures skip + i < |s| && cards[i] == CardOf(s[skip + i]) {
      assert cards[i] == CardOf(window[i]);
      assert window[i] == s[skip + i];
    }
  }

  /** Every card shows an active product of the requested category. */
  lemma ProductsAreListed(ps: seq<ShopProduct>, categoryId: nat, page: Option<int>, limit: Option<nat>, i: nat)
    requires ProductsByCategory(ps, categoryId, page, limit).Ok?
    requires i < |ProductsByCategory(ps, categoryId, page, limit).value.products|
    ensures exists p :: p in ps && Listed(p, categoryId) && ProductsByCategory(ps, categoryId, page, limit).value.products[i] == CardOf(p)
  {
    PageCards(ps, categoryId, page, limit);
    var listed := InCategory(ps, categoryId);
    var newest := Reverse(listed);
    var skip := ShopSkip(PageOr(page), LimitOr(limit));
    var p := newest[skip + i];
    ReverseMembers(listed, p);
    assert p in ps && Listed(p, categoryId);
  }

  /** With the defaults, the first page shows the ten newest listed
      products, newest first. */
  lemma FirstPageIsNewest(ps: seq<ShopProduct>, categoryId: nat)
    ensures var r := ProductsByCategory(ps, categoryId, None, None);
      var listed := InCategory(ps, categoryId);
      && r.Ok?
      && |r.value.products| == Min(10, |listed|)
      && (forall i :: 0 <= i < |r.value.products| ==> r.value.products[i] == CardOf(listed[|listed| - 1 - i]))
  {
    var listed := InCategory(ps, categoryId);
    var r := ProductsByCategory(ps, categoryId, None, None);
    assert r.Ok? && r.value.products == Cards(Window(Reverse(listed), 0, Some(10))) by {
      assert ShopSkip(PageOr(None), LimitOr(None)) == 0 && LimitOr(None) == 10;
    }
    NewestCards(listed, 10);
  }

  /** The first window of `lim` over the newest-first list shows the last
      `lim` products, newest first. */
  lemma NewestCards(listed: seq<ShopProduct>, lim: nat)
    ensures var cards := Cards(Window(Reverse(listed), 0, Some(lim)));
      && |cards| == Min(lim, |listed|)
      && forall i :: 0 <= i < |cards| ==> cards[i] == CardOf(listed[|listed| - 1 - i])
  {
    var newest := Reverse(listed);
    var cards := Cards(Window(newest, 0, Some(lim)));
    WindowCards(newest, 0, lim);
    forall i | 0 <= i < |cards| ensures cards[i] == CardOf(listed[|listed| - 1 - i]) {
      assert cards[i] == CardOf(newest[i]);
    }
  }

  /** With the defaults, there is more exactly when over ten products are
      listed. */
  lemma FirstPageHasMore(ps: seq<ShopProduct>, categoryId: nat)
    ensures var r := ProductsByCategory(ps, categoryId, None, None);
      r.Ok? && (r.value.hasMore <==> |InCategory(ps, categoryId)| > 10)
  {
    assert ShopSkip(PageOr(None), LimitOr(None)) == 0;
    PageHasMore(ps, categoryId, None, None);
  }
}
