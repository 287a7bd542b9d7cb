/** The read side over orders: the filtered, newest-first order list with
    its total, the page/limit clamping of the order service, public order
    tracking, and the dashboard metrics. */
module Queries {
  import opened Common
  import opened Domain

  /** Every order's customer exists (the customer relation is required). */
  ghost predicate CustomersKnown(orders: seq<Order>, customerCount: nat) {
    forall i :: 0 <= i < |orders| ==> orders[i].customerId < customerCount
  }

  /** Orders stored oldest first. */
  ghost predicate Chronological(orders: seq<Order>) {
    forall i, j :: 0 <= i < j < |orders| ==> orders[i].createdAt <= orders[j].createdAt
  }

  ghost predicate NewestFirst(orders: seq<Order>) {
    forall i, j :: 0 <= i < j < |orders| ==> orders[i].createdAt >= orders[j].createdAt
  }

  // ---------------------------------------------------------------------
  // The order list
  // ---------------------------------------------------------------------

  datatype OrderFilter = OrderFilter(status: Option<OrderStatus>, paymentStatus: Option<PaymentStatus>, searchTerm: Option<string>)

  /** The `where` clause: exact status filters, and a non-empty search term
      matched case-insensitively against the code, the customer's name or
      the customer's phone. */
  predicate Matches(customers: seq<Customer>, o: Order, f: OrderFilter)
    requires o.customerId < |customers|
  {
    var cu := customers[o.customerId];
    && (f.status.None? || o.orderStatus == f.status.value)
    && (f.paymentStatus.None? || o.paymentStatus == f.paymentStatus.value)
    && (f.searchTerm.None? || f.searchTerm.value == ""
        || ContainsInsensitive(o.orderCode, f.searchTerm.value)
        || ContainsInsensitive(cu.fullName, f.searchTerm.value)
        || ContainsInsensitive(cu.phone, f.searchTerm.value))
  }

  /** The matching orders in storage order. */
  function Matching(customers: seq<Customer>, orders: seq<Order>, f: OrderFilter): (r: seq<Order>)
    requires CustomersKnown(orders, |customers|)
    ensures |r| <= |orders|
    ensures forall o :: o in r ==> o in orders && Matches(customers, o, f)
  {
    if orders == [] then []
    else (if Matches(customers, orders[0], f) then [orders[0]] else []) + Matching(customers, orders[1..], f)
  }

  /** An order is listed exactly when it is stored and matches. */
  lemma {:induction false} MatchingMembers(customers: seq<Customer>, orders: seq<Order>, f: OrderFilter, o: Order)
    requires CustomersKnown(orders, |customers|)
    ensures o in Matching(customers, orders, f) <==> o in orders && Matches(customers, o, f)
  {
    if orders != [] {
      MatchingMembers(customers, orders[1..], f, o);
      if o != orders[0] && o in orders {
        assert o in orders[1..];
      }
    }
  }

  /** With no filter every order is listed. */
  lemma {:induction false} MatchingNoFilter(customers: seq<Customer>, orders: seq<Order>)
    requires CustomersKnown(orders, |customers|)
    ensures Matching(customers, orders, OrderFilter(None, None, None)) == orders
  {
    if orders != [] {
      MatchingNoFilter(customers, orders[1..]);
    }
  }

  lemma {:induction false} MatchingChronological(customers: seq<Customer>, orders: seq<Order>, f: OrderFilter)
    requires CustomersKnown(orders, |customers|) && Chronological(orders)
    ensures Chronological(Matching(customers, orders, f))
  {
    if orders != [] {
      var rest := Matching(customers, orders[1..], f);
      MatchingChronological(customers, orders[1..], f);
      if Matches(customers, orders[0], f) {
        var r := [orders[0]] + rest;
        forall i, j | 0 <= i < j < |r| ensures r[i].createdAt <= r[j].createdAt {
          if i == 0 {
            assert r[j] in rest;
            assert r[j] in orders[1..];
          }
        }
      }
    }
  }

  /** `getOrders` in the repository: one window of the matching orders,
      newest first, and how many match in all. */
  function GetOrders(customers: seq<Customer>, orders: seq<Order>, skip: nat, take: Option<nat>, f: OrderFilter): (r: (seq<Order>, nat))
    requires CustomersKnown(orders, |customers|)
    ensures r.1 == |Matching(customers, orders, f)|
    ensures skip >= r.1 ==> r.0 == []
    ensures skip < r.1 ==> |r.0| == (if take.Some? then Min(take.value, r.1 - skip) else r.1 - skip)
    // the i-th listed order is the (skip + i)-th newest match
    ensures forall i :: 0 <= i < |r.0| ==> skip + i < r.1 && r.0[i] == Matching(customers, orders, f)[r.1 - 1 - skip - i]
  {
    var all := Matching(customers, orders, f);
    (Window(Reverse(all), skip, take), |all|)
  }

  /** The newest-first window of an oldest-first list is ordered newest first. */
  lemma NewestFirstWindow(all: seq<Order>, skip: nat, take: Option<nat>)
    requires Chronological(all)
    ensures NewestFirst(Window(Reverse(all), skip, take))
  {
    var rev := Reverse(all);
    var page := Window(rev, skip, take);
    forall i, j | 0 <= i < j < |page| ensures page[i].createdAt >= page[j].createdAt {
      assert page[i] == rev[skip + i] == all[|all| - 1 - (skip + i)];
      assert page[j] == rev[skip + j] == all[|all| - 1 - (skip + j)];
    }
  }

  lemma WindowMembers<T>(all: seq<T>, skip: nat, take: Option<nat>)
    ensures forall x :: x in Window(Reverse(all), skip, take) ==> x in all
  {
    var rev := Reverse(all);
    var page := Window(rev, skip, take);
    forall x | x in page ensures x in all {
      var i :| 0 <= i < |page| && page[i] == x;
      assert rev[skip + i] == x;
      assert all[|all| - 1 - (skip + i)] == x;
    }
  }

  /** What a listed page holds: matching stored orders, newest first, at
      most `take` of them, starting with the `skip`-th newest match. */
  lemma GetOrdersMeaning(customers: seq<Customer>, orders: seq<Order>, skip: nat, take: Option<nat>, f: OrderFilter)
    requires CustomersKnown(orders, |customers|) && Chronological(orders)
    ensures var (page, total) := GetOrders(customers, orders, skip, take, f);
      && total == |Matching(customers, orders, f)| && total <= |orders|
      && (forall o :: o in page ==> o in orders && Matches(customers, o, f))
      && NewestFirst(page)
      && (take.Some? ==> |page| <= take.value)
      && (skip < total && take != Some(0) ==> |page| > 0 && page[0] == Matching(customers, orders, f)[total - 1 - skip])
  {
    var all := Matching(customers, orders, f);
    MatchingChronological(customers, orders, f);
    NewestFirstWindow(all, skip, take);
    WindowMembers(all, skip, take);
  }

  /** Two consecutive windows are the window that spans both. */
  lemma WindowsTile<T>(s: seq<T>, skip: nat, n: nat, m: nat)
    ensures Window(s, skip, Some(n)) + Window(s, skip + n, Some(m)) == Window(s, skip, Some(n + m))
  {
    var a, b, w := Window(s, skip, Some(n)), Window(s, skip + n, Some(m)), Window(s, skip, Some(n + m));
    if skip < |s| {
      assert |a + b| == |w|;
      forall i | 0 <= i < |w| ensures (a + b)[i] == w[i] {
        if i < |a| {
        } else {
          assert b[i - |a|] == s[skip + n + (i - |a|)];
        }
      }
    }
  }

  // ---------------------------------------------------------------------
  // The order service's paging
  // ---------------------------------------------------------------------

  /** `Math.max(1, x || fallback)`: a missing or zero value takes the
      fallback, anything below one becomes one. */
  function AtLeastOne(x: Option<int>, fallback: nat): (r: nat)
    requires fallback >= 1
    ensures r >= 1
    ensures x.Some? && x.value >= 1 ==> r == x.value
    ensures x.None? || x.value == 0 ==> r == fallback
    ensures x.Some? && x.value < 0 ==> r == 1
  {
    var v := if x.None? || x.value == 0 then fallback else x.value;
    if v < 1 then 1 else v
  }

  function PageOf(page: Option<int>): nat { AtLeastOne(page, 1) }
  function LimitOf(limit: Option<int>): nat { AtLeastOne(limit, 10) }

  /** `(page - 1) * limit`. */
  function PageSkip(page: Option<int>, limit: Option<int>): nat {
    (PageOf(page) - 1) * LimitOf(limit)
  }

  lemma {:induction false} NextPageSkip(p: nat, limit: Option<int>)
    requires p >= 1
    ensures PageSkip(Some(p + 1), limit) == PageSkip(Some(p), limit) + LimitOf(limit)
  {
    var l := LimitOf(limit);
    assert PageOf(Some(p)) == p && PageOf(Some(p + 1)) == p + 1;
    assert p * l == (p - 1) * l + l;
  }

  /** `getOrders` in the service: page `page` of `limit` orders. */
  function ListOrders(customers: seq<Customer>, orders: seq<Order>, page: Option<int>, limit: Option<int>, f: OrderFilter): (r: (seq<Order>, nat))
    requires CustomersKnown(orders, |customers|)
    ensures |r.0| <= LimitOf(limit) && r.1 == |Matching(customers, orders, f)|
  {
    GetOrders(customers, orders, PageSkip(page, limit), Some(LimitOf(limit)), f)
  }

  /** Page p followed by page p + 1 is exactly the 2 x limit newest matches
      from the start of page p, so the pages cover the list without gaps or
      overlaps. */
  lemma ListOrdersPagesTile(customers: seq<Customer>, orders: seq<Order>, p: nat, limit: Option<int>, f: OrderFilter)
    requires CustomersKnown(orders, |customers|) && p >= 1
    ensures var l := LimitOf(limit);
      ListOrders(customers, orders, Some(p), limit, f).0 + ListOrders(customers, orders, Some(p + 1), limit, f).0
      == Window(Reverse(Matching(customers, orders, f)), PageSkip(Some(p), limit), Some(2 * l))
  {
    var l := LimitOf(limit);
    var rev := Reverse(Matching(customers, orders, f));
    var skip := PageSkip(Some(p), limit);
    NextPageSkip(p, limit);
    assert ListOrders(customers, orders, Some(p), limit, f).0 == Window(rev, skip, Some(l));
    assert ListOrders(customers, orders, Some(p + 1), limit, f).0 == Window(rev, skip + l, Some(l));
    WindowsTile(rev, skip, l, l);
    assert l + l == 2 * l;
  }

  // ---------------------------------------------------------------------
  // Public order tracking
  // ---------------------------------------------------------------------

  datatype SafeItem = SafeItem(productName: string, qty: int, lineTotal: Money, size: string, color: string)

  /** The fields a customer may see; costs, SKUs, discounts, the address,
      the customer and the slips are not among them. */
  datatype SafeOrder = SafeOrder(
    orderCode: string, orderStatus: OrderStatus, paymentStatus: PaymentStatus, paymentMethod: PaymentMethod,
    total: Money, createdAt: nat, items: seq<SafeItem>)

  datatype TrackError = NotFound | PhoneMismatch

  function TrackMessage(e: TrackError): string {
    match e
    case NotFound => "Order not found. Please check your tracking code."
    case PhoneMismatch => "Phone number does not match the order."
  }

  function SafeItemOf(it: OrderItem): SafeItem {
    SafeItem(it.productName, it.qty, it.lineTotal, it.size, it.color)
  }

  function SafeItems(items: seq<OrderItem>): (r: seq<SafeItem>)
    ensures |r| == |items|
    ensures forall i :: 0 <= i < |items| ==> r[i] == SafeItemOf(items[i])
  {
    if items == [] then [] else [SafeItemOf(items[0])] + SafeItems(items[1..])
  }

  function SafeOrderOf(o: Order): SafeOrder {
    SafeOrder(o.orderCode, o.orderStatus, o.paymentStatus, o.paymentMethod, o.total, o.createdAt, SafeItems(o.items))
  }

  /** `findUnique({ where: { orderCode } })`. */
  function FindByCode(orders: seq<Order>, code: string): (r: Option<nat>)
    ensures r.Some? ==> r.value < |orders| && orders[r.value].orderCode == code
    ensures r.None? ==> forall i :: 0 <= i < |orders| ==> orders[i].orderCode != code
  {
    if orders == [] then None
    else if orders[0].orderCode == code then Some(0)
    else match FindByCode(orders[1..], code) {
      case None => None
      case Some(i) => Some(i + 1)
    }
  }

  /** `trackOrderAction`: an unknown code and a wrong phone are reported
      differently. */
  function TrackOrder(customers: seq<Customer>, orders: seq<Order>, code: string, phone: string): (r: Result<SafeOrder, TrackError>)
    requires CustomersKnown(orders, |customers|)
    ensures r == Err(NotFound) <==> forall i :: 0 <= i < |orders| ==> orders[i].orderCode != code
    ensures r.Ok? ==> exists i :: 0 <= i < |orders| && orders[i].orderCode == code
                       && customers[orders[i].customerId].phone == phone && r.value == SafeOrderOf(orders[i])
  {
    match FindByCode(orders, code)
    case None => Err(NotFound)
    case Some(i) =>
      if customers[orders[i].customerId].phone != phone then Err(PhoneMismatch) else Ok(SafeOrderOf(orders[i]))
  }

  ghost predicate UniqueCodes(orders: seq<Order>) {
    forall i, j :: 0 <= i < j < |orders| ==> orders[i].orderCode != orders[j].orderCode
  }

  /** With unique codes, tracking an order's code with the order's phone
      shows that order and any other phone is refused; the shown items keep
      the order's items, their order, quantities and line totals. */
  lemma {:induction false} TrackOrderFinds(customers: seq<Customer>, orders: seq<Order>, i: nat, phone: string)
    requires CustomersKnown(orders, |customers|) && UniqueCodes(orders) && i < |orders|
    ensures var r := TrackOrder(customers, orders, orders[i].orderCode, phone);
      && (customers[orders[i].customerId].phone == phone ==> r == Ok(SafeOrderOf(orders[i])))
      && (customers[orders[i].customerId].phone != phone ==> r == Err(PhoneMismatch))
      && (r.Ok? ==> |r.value.items| == |orders[i].items|
                    && forall k :: 0 <= k < |orders[i].items| ==>
                         r.value.items[k].qty == orders[i].items[k].qty && r.value.items[k].lineTotal == orders[i].items[k].lineTotal)
  {
    var f := FindByCode(orders, orders[i].orderCode);
    assert f.Some?;
    assert f.value == i;
  }

  /** What a customer sees does not depend on anything private to the
      shop: two orders equal in their public fields look the same. */
  lemma {:induction false} TrackOrderOnlyShowsPublicFields(o: Order, o': Order)
    requires o.orderCode == o'.orderCode && o.orderStatus == o'.orderStatus && o.paymentStatus == o'.paymentStatus
    requires o.paymentMethod == o'.paymentMethod && o.total == o'.total && o.createdAt == o'.createdAt
    requires |o.items| == |o'.items|
    requires forall k :: 0 <= k < |o.items| ==>
      var a, b := o.items[k], o'.items[k];
      a.productName == b.productName && a.qty == b.qty && a.lineTotal == b.lineTotal && a.size == b.size && a.color == b.color
    ensures SafeOrderOf(o) == SafeOrderOf(o')
  {
    assert SafeItems(o.items) == SafeItems(o'.items);
  }

  // ---------------------------------------------------------------------
  // Dashboard metrics
  // ---------------------------------------------------------------------

  datatype Metrics = Metrics(totalCustomers: nat, totalOrders: nat, totalRevenue: Money, recentOrders: seq<Order>)

  /** Counted in "total orders": anything not cancelled. */
  predicate Active(o: Order) { o.orderStatus != CANCELLED }

  /** Counted in revenue: paid and not cancelled. */
  predicate Earning(o: Order) { o.paymentStatus == PAID && o.orderStatus != CANCELLED }

  function CountActive(orders: seq<Order>): (r: nat)
    ensures r <= |orders|
  {
    if orders == [] then 0 else CountActive(orders[..|orders| - 1]) + (if Active(orders[|orders| - 1]) then 1 else 0)
  }

  function Revenue(orders: seq<Order>): Money {
    if orders == [] then 0.0 else Revenue(orders[..|orders| - 1]) + (if Earning(orders[|orders| - 1]) then orders[|orders| - 1].total else 0.0)
  }

  /** `getMetrics`. */
  function GetMetrics(customers: seq<Customer>, orders: seq<Order>): (r: Metrics)
    ensures r.totalCustomers == |customers| && r.totalOrders == CountActive(orders) && r.totalRevenue == Revenue(orders)
    ensures |r.recentOrders| == Min(5, |orders|)
    ensures forall i :: 0 <= i < |r.recentOrders| ==> r.recentOrders[i] == orders[|orders| - 1 - i]
  {
    Metrics(|customers|, CountActive(orders), Revenue(orders), Take(Reverse(orders), 5))
  }

  /** Counting is over all orders: the active count is the number of
      orders that are not cancelled. */
  lemma {:induction false} CountActiveAllActive(orders: seq<Order>)
    requires forall i :: 0 <= i < |orders| ==> Active(orders[i])
    ensures CountActive(orders) == |orders|
  {
    if orders != [] {
      CountActiveAllActive(orders[..|orders| - 1]);
    }
  }

  /** Revenue is 0 when no order is both paid and not cancelled. */
  lemma {:induction false} RevenueNoneEarning(orders: seq<Order>)
    requires forall i :: 0 <= i < |orders| ==> !Earning(orders[i])
    ensures Revenue(orders) == 0.0
  {
    if orders != [] {
      RevenueNoneEarning(orders[..|orders| - 1]);
    }
  }

  /** Cancelling one active order lowers the active count by one and the
      revenue by that order's contribution; no other change. */
  lemma {:induction false} CancelMetrics(orders: seq<Order>, i: nat)
    requires i < |orders| && Active(orders[i])
    ensures var after := orders[i := orders[i].(orderStatus := CANCELLED)];
      && CountActive(after) == CountActive(orders) - 1
      && Revenue(after) == Revenue(orders) - (if Earning(orders[i]) then orders[i].total else 0.0)
  {
    var after := orders[i := orders[i].(orderStatus := CANCELLED)];
    var n := |orders|;
    if i == n - 1 {
      assert after[..n - 1] == orders[..n - 1];
    } else {
      assert after[..n - 1] == orders[..n - 1][i := orders[i].(orderStatus := CANCELLED)];
      CancelMetrics(orders[..n - 1], i);
    }
  }

  /** Appending a new (NEW, UNPAID) order adds one active order and no
      revenue. */
  lemma NewOrderMetrics(orders: seq<Order>, o: Order)
    requires o.orderStatus == NEW && o.paymentStatus == UNPAID
    ensures CountActive(orders + [o]) == CountActive(orders) + 1
    ensures Revenue(orders + [o]) == Revenue(orders)
  {
    assert (orders + [o])[..|orders|] == orders;
  }
}
