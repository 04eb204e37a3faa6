/** The peak-usage availability scan `checkStockAvailability`.

    Demand for a product on a day comes from two record kinds: every active
    standalone Rental whose dates cover the day holds one unit, and every
    rental line of an Order for the product whose dates cover the day holds
    `qty` units. The scan walks the query window day by day and keeps the
    largest daily demand; what is left of the stock is clamped at zero. */
module StockUtils {
  import opened Models

  // ---------------------------------------------------------------------
  // The two database queries, as filters over the whole collections.
  // ---------------------------------------------------------------------

  /** The Rental query: same product, an active status, and dates that
      intersect the window [s, e]. */
  predicate RentalMatches(r: Rental, p: ProductId, s: Day, e: Day)
  {
    r.product == p && IsActive(r.status) && r.startDate <= e && r.endDate >= s
  }

  /** The rentals the Rental query returns, in collection order. */
  function RentalQuery(rentals: seq<Rental>, p: ProductId, s: Day, e: Day): (docs: seq<Rental>)
    ensures |docs| <= |rentals|
    ensures forall r :: r in docs <==> r in rentals && RentalMatches(r, p, s, e)
  {
    if rentals == [] then []
    else
      var init, r := rentals[..|rentals| - 1], rentals[|rentals| - 1];
      assert rentals == init + [r];
      var rest := RentalQuery(init, p, s, e);
      if RentalMatches(r, p, s, e) then rest + [r] else rest
  }

  /** The Order query. Each dotted condition on `items` is met by ANY line of
      the order on its own, as a query on an array field does: one line may
      name the product while another carries the dates. */
  predicate OrderMatches(o: Order, p: ProductId, s: Day, e: Day)
  {
    && (exists k :: 0 <= k < |o.items| && o.items[k].product == p)
    && (exists k :: 0 <= k < |o.items| && o.items[k].kind == RentalItem)
    && (exists k :: 0 <= k < |o.items| && o.items[k].rentalStart.Some? && o.items[k].rentalStart.value <= e)
    && (exists k :: 0 <= k < |o.items| && o.items[k].rentalEnd.Some? && o.items[k].rentalEnd.value >= s)
  }

  /** The orders the Order query returns, in collection order. */
  function OrderQuery(orders: seq<Order>, p: ProductId, s: Day, e: Day): (docs: seq<Order>)
    ensures |docs| <= |orders|
    ensures forall o :: o in docs <==> o in orders && OrderMatches(o, p, s, e)
  {
    if orders == [] then []
    else
      var init, o := orders[..|orders| - 1], orders[|orders| - 1];
      assert orders == init + [o];
      var rest := OrderQuery(init, p, s, e);
      if OrderMatches(o, p, s, e) then rest + [o] else rest
  }

  // ---------------------------------------------------------------------
  // Daily demand over the whole collections: the reference definition.
  // ---------------------------------------------------------------------

  /** The date test the scan applies to a rental returned by the query. */
  predicate CoversDay(r: Rental, d: Day)
  {
    r.startDate <= d && r.endDate >= d
  }

  /** How many of the given rentals have dates covering day d. */
  function CountCovering(docs: seq<Rental>, d: Day): nat
  {
    if docs == [] then 0
    else CountCovering(docs[..|docs| - 1], d) + (if CoversDay(docs[|docs| - 1], d) then 1 else 0)
  }

  /** A rental holds a unit of product p on day d. */
  predicate HoldsUnit(r: Rental, p: ProductId, d: Day)
  {
    r.product == p && IsActive(r.status) && CoversDay(r, d)
  }

  /** The number of rentals holding a unit of p on day d. */
  function ActiveRentalsOn(rentals: seq<Rental>, p: ProductId, d: Day): (n: nat)
    ensures n <= |rentals|
  {
    if rentals == [] then 0
    else ActiveRentalsOn(rentals[..|rentals| - 1], p, d) + (if HoldsUnit(rentals[|rentals| - 1], p, d) then 1 else 0)
  }

  /** An order line holds `qty` units of p on day d: it is a rental line for
      p and both of its dates are set and cover d. An unset date never
      compares as covering. */
  predicate ItemCovers(it: OrderItem, p: ProductId, d: Day)
  {
    && it.product == p && it.kind == RentalItem
    && it.rentalStart.Some? && it.rentalStart.value <= d
    && it.rentalEnd.Some? && it.rentalEnd.value >= d
  }

  /** Units of p held on day d by the lines of one order. */
  function ItemsDemand(items: seq<OrderItem>, p: ProductId, d: Day): (u: int)
    ensures (forall i :: 0 <= i < |items| ==> items[i].product != p || items[i].kind == PurchaseItem) ==> u == 0
  {
    if items == [] then 0
    else
      var it := items[|items| - 1];
      ItemsDemand(items[..|items| - 1], p, d) + (if ItemCovers(it, p, d) then it.qty else 0)
  }

  /** Units of p held on day d by the lines of all the given orders. Order
      lines are counted whatever happened to the rental they came from. */
  function OrdersDemand(orders: seq<Order>, p: ProductId, d: Day): (u: int)
    ensures (forall i, j :: 0 <= i < |orders| && 0 <= j < |orders[i].items| ==> orders[i].items[j].kind == PurchaseItem) ==> u == 0
  {
    if orders == [] then 0
    else
      assert forall i :: 0 <= i < |orders| - 1 ==> orders[..|orders| - 1][i] == orders[i];
      OrdersDemand(orders[..|orders| - 1], p, d) + ItemsDemand(orders[|orders| - 1].items, p, d)
  }

  /** Total units of p in use on day d. */
  function DailyUsed(rentals: seq<Rental>, orders: seq<Order>, p: ProductId, d: Day): int
  {
    ActiveRentalsOn(rentals, p, d) + OrdersDemand(orders, p, d)
  }

  /** The peak daily use over the days s..e; 0 for an empty window, and never
      below 0 because the scan starts its running maximum at 0. */
  function Peak(rentals: seq<Rental>, orders: seq<Order>, p: ProductId, s: Day, e: Day): (m: int)
    ensures m >= 0
    ensures forall d :: s <= d <= e ==> DailyUsed(rentals, orders, p, d) <= m
    ensures m == 0 || exists d :: s <= d <= e && m == DailyUsed(rentals, orders, p, d)
    decreases e - s
  {
    if e < s then 0
    else
      var before := Peak(rentals, orders, p, s, e - 1);
      var used := DailyUsed(rentals, orders, p, e);
      if used > before then used else before
  }

  /** The units left to promise when `maxUsed` are in use, clamped at 0. */
  function AvailableUnits(stock: int, maxUsed: int): (a: int)
    ensures a >= 0
    ensures stock >= 0 && maxUsed >= 0 ==> a <= stock
    ensures a > 0 <==> stock > maxUsed
    ensures a > 0 ==> a == stock - maxUsed
  {
    var available := stock - maxUsed;
    if available > 0 then available else 0
  }

  // ---------------------------------------------------------------------
  // The scan itself.
  // ---------------------------------------------------------------------

  /** checkStockAvailability: runs the two queries, then scans every day of
      the window. The inputs are values, so nothing passed in is changed. */
  method CheckStockAvailability(product: Product, startDate: Day, endDate: Day,
                                rentals: seq<Rental>, orders: seq<Order>)
    returns (available: int, maxUsed: int)
    ensures maxUsed == Peak(rentals, orders, product.id, startDate, endDate)
    ensures available == AvailableUnits(product.stock, maxUsed)
    ensures available >= 0 && (product.stock >= 0 ==> available <= product.stock)
  {
    var p := product.id;
    var rentalDocs := RentalQuery(rentals, p, startDate, endDate);
    var orderDocs := OrderQuery(orders, p, startDate, endDate);

    maxUsed := 0;
    var d := startDate;
    var end := endDate;
    while d <= end
      invariant startDate <= d && (d <= end + 1 || d == startDate)
      invariant maxUsed == Peak(rentals, orders, p, startDate, d - 1)
      decreases end - d
    {
      var dailyUsed := UsageOn(rentalDocs, orderDocs, p, d);
      RentalQueryCount(rentals, p, startDate, endDate, d);
      OrderQueryDemand(orders, p, startDate, endDate, d);
      assert dailyUsed == DailyUsed(rentals, orders, p, d);

      if dailyUsed > maxUsed {
        maxUsed := dailyUsed;
      }
      d := d + 1;
    }

    var avail := product.stock - maxUsed;
    available := if avail > 0 then avail else 0;
  }

  /** The body of the day loop: the demand of the queried records on day d. */
  method UsageOn(rentalDocs: seq<Rental>, orderDocs: seq<Order>, p: ProductId, d: Day)
    returns (dailyUsed: int)
    ensures dailyUsed == CountCovering(rentalDocs, d) + OrdersDemand(orderDocs, p, d)
  {
    dailyUsed := 0;
    for i := 0 to |rentalDocs|
      invariant dailyUsed == CountCovering(rentalDocs[..i], d)
    {
      assert rentalDocs[..i + 1][..i] == rentalDocs[..i];
      var r := rentalDocs[i];
      if r.startDate <= d && r.endDate >= d {
        dailyUsed := dailyUsed + 1;
      }
    }
    assert rentalDocs[..|rentalDocs|] == rentalDocs;
    var fromRentals := dailyUsed;

    for j := 0 to |orderDocs|
      invariant dailyUsed == fromRentals + OrdersDemand(orderDocs[..j], p, d)
    {
      assert orderDocs[..j + 1][..j] == orderDocs[..j];
      var items := orderDocs[j].items;
      var fromOrders := dailyUsed;
      for k := 0 to |items|
        invariant dailyUsed == fromOrders + ItemsDemand(items[..k], p, d)
      {
        assert items[..k + 1][..k] == items[..k];
        var item := items[k];
        if item.product == p && item.kind == RentalItem {
          if item.rentalStart.Some? && item.rentalStart.value <= d
             && item.rentalEnd.Some? && item.rentalEnd.value >= d {
            dailyUsed := dailyUsed + item.qty;
          }
        }
      }
      assert items[..|items|] == items;
    }
    assert orderDocs[..|orderDocs|] == orderDocs;
  }

  // ---------------------------------------------------------------------
  // The queries lose nothing: pre-filtering gives the same daily demand
  // as counting over the whole collections, for every day in the window.
  // ---------------------------------------------------------------------

  lemma {:induction false} RentalQueryCount(rentals: seq<Rental>, p: ProductId, s: Day, e: Day, d: Day)
    requires s <= d <= e
    ensures CountCovering(RentalQuery(rentals, p, s, e), d) == ActiveRentalsOn(rentals, p, d)
  {
    if rentals != [] {
      var init, r := rentals[..|rentals| - 1], rentals[|rentals| - 1];
      RentalQueryCount(init, p, s, e, d);
      var rest := RentalQuery(init, p, s, e);
      if RentalMatches(r, p, s, e) {
        assert (rest + [r])[..|rest|] == rest;
      }
    }
  }

  lemma {:induction false} NoCoveringLineNoDemand(items: seq<OrderItem>, p: ProductId, d: Day)
    requires forall k :: 0 <= k < |items| ==> !ItemCovers(items[k], p, d)
    ensures ItemsDemand(items, p, d) == 0
  {
    if items != [] {
      NoCoveringLineNoDemand(items[..|items| - 1], p, d);
    }
  }

  /** An order the query leaves out holds nothing on any day of the window. */
  lemma UnmatchedOrderHoldsNothing(o: Order, p: ProductId, s: Day, e: Day, d: Day)
    requires s <= d <= e
    requires !OrderMatches(o, p, s, e)
    ensures ItemsDemand(o.items, p, d) == 0
  {
    forall k | 0 <= k < |o.items|
      ensures !ItemCovers(o.items[k], p, d)
    {
      if ItemCovers(o.items[k], p, d) {
        assert OrderMatches(o, p, s, e);
      }
    }
    NoCoveringLineNoDemand(o.items, p, d);
  }

  lemma {:induction false} OrderQueryDemand(orders: seq<Order>, p: ProductId, s: Day, e: Day, d: Day)
    requires s <= d <= e
    ensures OrdersDemand(OrderQuery(orders, p, s, e), p, d) == OrdersDemand(orders, p, d)
  {
    if orders != [] {
      var init, o := orders[..|orders| - 1], orders[|orders| - 1];
      OrderQueryDemand(init, p, s, e, d);
      var rest := OrderQuery(init, p, s, e);
      if OrderMatches(o, p, s, e) {
        assert (rest + [o])[..|rest|] == rest;
      } else {
        UnmatchedOrderHoldsNothing(o, p, s, e, d);
      }
    }
  }

  // ---------------------------------------------------------------------
  // How new records change the result.
  // ---------------------------------------------------------------------

  /** If every day's use in one ledger is at most the other's, so is the peak. */
  lemma PeakMonotone(r1: seq<Rental>, o1: seq<Order>, r2: seq<Rental>, o2: seq<Order>,
                     p: ProductId, s: Day, e: Day)
    requires forall d :: s <= d <= e ==> DailyUsed(r1, o1, p, d) <= DailyUsed(r2, o2, p, d)
    ensures Peak(r1, o1, p, s, e) <= Peak(r2, o2, p, s, e)
  {
  }

  /** A non-empty window with the same non-negative use c on every day has peak c. */
  lemma {:induction false} PeakOfConstantUse(rentals: seq<Rental>, orders: seq<Order>, p: ProductId, s: Day, e: Day, c: int)
    requires s <= e && c >= 0
    requires forall d :: s <= d <= e ==> DailyUsed(rentals, orders, p, d) == c
    ensures Peak(rentals, orders, p, s, e) == c
    decreases e - s
  {
    if s < e {
      PeakOfConstantUse(rentals, orders, p, s, e - 1, c);
    }
  }

  /** If every day's use in two ledgers agrees over the window, so do the peaks. */
  lemma PeakCongruent(r1: seq<Rental>, o1: seq<Order>, r2: seq<Rental>, o2: seq<Order>,
                      p: ProductId, s: Day, e: Day)
    requires forall d :: s <= d <= e ==> DailyUsed(r1, o1, p, d) == DailyUsed(r2, o2, p, d)
    ensures Peak(r1, o1, p, s, e) == Peak(r2, o2, p, s, e)
  {
    PeakMonotone(r1, o1, r2, o2, p, s, e);
    PeakMonotone(r2, o2, r1, o1, p, s, e);
  }

  lemma ActiveRentalsOnAppend(rentals: seq<Rental>, r: Rental, p: ProductId, d: Day)
    ensures ActiveRentalsOn(rentals + [r], p, d) == ActiveRentalsOn(rentals, p, d) + (if HoldsUnit(r, p, d) then 1 else 0)
  {
    assert (rentals + [r])[..|rentals|] == rentals;
  }

  lemma OrdersDemandAppend(orders: seq<Order>, o: Order, p: ProductId, d: Day)
    ensures OrdersDemand(orders + [o], p, d) == OrdersDemand(orders, p, d) + ItemsDemand(o.items, p, d)
  {
    assert (orders + [o])[..|orders|] == orders;
  }

  /** A new rental never lowers the peak nor raises what is available; one
      that holds a unit on some day of the window lifts the peak above that
      day's former use. */
  lemma AddRentalMonotone(rentals: seq<Rental>, orders: seq<Order>, r: Rental, p: ProductId,
                          s: Day, e: Day, stock: int)
    ensures Peak(rentals + [r], orders, p, s, e) >= Peak(rentals, orders, p, s, e)
    ensures AvailableUnits(stock, Peak(rentals + [r], orders, p, s, e))
            <= AvailableUnits(stock, Peak(rentals, orders, p, s, e))
    ensures forall d :: s <= d <= e && HoldsUnit(r, p, d) ==>
              Peak(rentals + [r], orders, p, s, e) >= DailyUsed(rentals, orders, p, d) + 1
  {
    forall d | s <= d <= e
      ensures DailyUsed(rentals, orders, p, d) + (if HoldsUnit(r, p, d) then 1 else 0)
              == DailyUsed(rentals + [r], orders, p, d)
    {
      ActiveRentalsOnAppend(rentals, r, p, d);
    }
    PeakMonotone(rentals, orders, rentals + [r], orders, p, s, e);
  }

  /** No rental holds a unit on day d exactly when the count is zero. */
  lemma {:induction false} NoRentalHoldsIffZero(rentals: seq<Rental>, p: ProductId, d: Day)
    ensures ActiveRentalsOn(rentals, p, d) == 0 <==> forall i :: 0 <= i < |rentals| ==> !HoldsUnit(rentals[i], p, d)
  {
    if rentals != [] {
      var init := rentals[..|rentals| - 1];
      assert forall i :: 0 <= i < |init| ==> init[i] == rentals[i];
      NoRentalHoldsIffZero(init, p, d);
    }
  }

  lemma {:induction false} ItemsDemandNonNegative(items: seq<OrderItem>, p: ProductId, d: Day)
    requires forall k :: 0 <= k < |items| ==> items[k].qty >= 0
    ensures ItemsDemand(items, p, d) >= 0
  {
    if items != [] {
      ItemsDemandNonNegative(items[..|items| - 1], p, d);
    }
  }

  /** A new order whose quantities are not negative never lowers the peak nor
      raises what is available. */
  lemma AddOrderMonotone(rentals: seq<Rental>, orders: seq<Order>, o: Order, p: ProductId,
                         s: Day, e: Day, stock: int)
    requires forall k :: 0 <= k < |o.items| ==> o.items[k].qty >= 0
    ensures Peak(rentals, orders + [o], p, s, e) >= Peak(rentals, orders, p, s, e)
    ensures AvailableUnits(stock, Peak(rentals, orders + [o], p, s, e))
            <= AvailableUnits(stock, Peak(rentals, orders, p, s, e))
  {
    forall d | s <= d <= e
      ensures DailyUsed(rentals, orders, p, d) <= DailyUsed(rentals, orders + [o], p, d)
    {
      OrdersDemandAppend(orders, o, p, d);
      ItemsDemandNonNegative(o.items, p, d);
    }
    PeakMonotone(rentals, orders, rentals, orders + [o], p, s, e);
  }

  /** A rental of another product, or one whose status is rejected or
      returned, changes no day's use and so not the result. */
  lemma IgnoredRentalChangesNothing(rentals: seq<Rental>, orders: seq<Order>, r: Rental,
                                    p: ProductId, s: Day, e: Day)
    requires r.product != p || !IsActive(r.status)
    ensures forall d :: DailyUsed(rentals + [r], orders, p, d) == DailyUsed(rentals, orders, p, d)
    ensures Peak(rentals + [r], orders, p, s, e) == Peak(rentals, orders, p, s, e)
  {
    forall d
      ensures DailyUsed(rentals + [r], orders, p, d) == DailyUsed(rentals, orders, p, d)
    {
      ActiveRentalsOnAppend(rentals, r, p, d);
    }
    PeakCongruent(rentals + [r], orders, rentals, orders, p, s, e);
  }

  /** An order whose lines are all purchases or for other products changes no
      day's use and so not the result. */
  lemma IgnoredOrderChangesNothing(rentals: seq<Rental>, orders: seq<Order>, o: Order,
                                   p: ProductId, s: Day, e: Day)
    requires forall k :: 0 <= k < |o.items| ==> o.items[k].product != p || o.items[k].kind == PurchaseItem
    ensures forall d :: DailyUsed(rentals, orders + [o], p, d) == DailyUsed(rentals, orders, p, d)
    ensures Peak(rentals, orders + [o], p, s, e) == Peak(rentals, orders, p, s, e)
  {
    forall d
      ensures DailyUsed(rentals, orders + [o], p, d) == DailyUsed(rentals, orders, p, d)
    {
      OrdersDemandAppend(orders, o, p, d);
      NoCoveringLineNoDemand(o.items, p, d);
    }
    PeakCongruent(rentals, orders + [o], rentals, orders, p, s, e);
  }

  /** With no records at all the whole stock (clamped at 0) is available. */
  lemma EmptyLedgerLeavesStock(p: ProductId, s: Day, e: Day, stock: int)
    ensures Peak([], [], p, s, e) == 0
    ensures AvailableUnits(stock, Peak([], [], p, s, e)) == (if stock > 0 then stock else 0)
  {
  }

  /** Two active rentals of a three-unit product over days 10..15 leave one
      unit on day 12. */
  lemma TwoOfThreeBooked(a: Rental, b: Rental)
    requires a == Rental("u1", "p", 10, 15, 0, 0, Approved)
    requires b == Rental("u2", "p", 10, 15, 0, 0, Requested)
    ensures Peak([a, b], [], "p", 12, 12) == 2
    ensures AvailableUnits(3, Peak([a, b], [], "p", 12, 12)) == 1
  {
    assert [a, b][..1] == [a];
    assert [a][..0] == [];
    assert ActiveRentalsOn([a], "p", 12) == 1;
    assert ActiveRentalsOn([a, b], "p", 12) == 2;
    assert DailyUsed([a, b], [], "p", 12) == 2;
  }
}
