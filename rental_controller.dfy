/** Standalone rental booking: the `isAvailable` overlap test, `requestRental`
    and `updateRentalStatus`.

    A request is refused when any active rental of the product meets the
    three-clause overlap test, whatever the product's stock. An accepted
    request writes two records: a Rental with status `Requested` and an Order
    with one rental line of quantity 1 over the same dates. The availability
    scan counts both, so one request holds two units on each day it covers,
    and rejecting the Rental later still leaves the order line's unit. */
module RentalController {
  import opened Models
  import opened StockUtils

  // ---------------------------------------------------------------------
  // The overlap test.
  // ---------------------------------------------------------------------

  /** isAvailable's query for one stored rental: same product, an active
      status, and its start inside [s, e], or its end inside [s, e], or it
      encloses [s, e]. */
  predicate Blocks(r: Rental, p: ProductId, s: Day, e: Day)
  {
    && r.product == p && IsActive(r.status)
    && (|| (r.startDate <= e && r.startDate >= s)
        || (r.endDate <= e && r.endDate >= s)
        || (r.startDate <= s && r.endDate >= e))
  }

  /** isAvailable: no stored rental blocks the request. */
  function IsAvailable(rentals: seq<Rental>, p: ProductId, s: Day, e: Day): (ok: bool)
    ensures ok <==> forall i :: 0 <= i < |rentals| ==> !Blocks(rentals[i], p, s, e)
  {
    if rentals == [] then true
    else
      assert forall i :: 1 <= i < |rentals| ==> rentals[1..][i - 1] == rentals[i];
      !Blocks(rentals[0], p, s, e) && IsAvailable(rentals[1..], p, s, e)
  }

  /** Two day ranges share at least one day. */
  predicate Overlaps(aStart: Day, aEnd: Day, bStart: Day, bEnd: Day)
  {
    aStart <= bEnd && aEnd >= bStart
  }

  /** For well-ordered ranges the three clauses say exactly that the ranges
      share a day. */
  lemma ThreeClausesAreOverlap(r: Rental, p: ProductId, s: Day, e: Day)
    requires r.startDate <= r.endDate && s <= e
    ensures Blocks(r, p, s, e) <==> r.product == p && IsActive(r.status) && Overlaps(r.startDate, r.endDate, s, e)
  {
  }

  /** Hence, over a ledger of well-ordered rentals, a well-ordered request is
      available exactly when no active rental of the product shares a day with it. */
  lemma AvailableIffNoSharedDay(rentals: seq<Rental>, p: ProductId, s: Day, e: Day)
    requires s <= e
    requires forall i :: 0 <= i < |rentals| ==> rentals[i].startDate <= rentals[i].endDate
    ensures IsAvailable(rentals, p, s, e) <==>
            forall i :: 0 <= i < |rentals| ==>
              !(rentals[i].product == p && IsActive(rentals[i].status)
                && Overlaps(rentals[i].startDate, rentals[i].endDate, s, e))
  {
    forall i | 0 <= i < |rentals| {
      ThreeClausesAreOverlap(rentals[i], p, s, e);
    }
  }

  /** Nothing checks that the end comes after the start: on a free ledger a
      reversed range passes the test, costs a negative total, and its Rental
      covers no day at all. */
  lemma ReversedRangeIsAccepted(user: UserId)
    ensures IsAvailable([], "p", 5, 3)
    ensures RentalTotal(10, 5, 3) == -10
    ensures forall d :: !CoversDay(Rental(user, "p", 5, 3, -10, 0, Requested), d)
  {
  }

  /** A stored reversed rental covers no day, yet its start falls inside a
      later request's range, so the first clause refuses that request. */
  lemma ReversedRentalBlocks()
    ensures var r := Rental("a", "p", 5, 3, 0, 0, Requested);
            && (forall d :: !CoversDay(r, d))
            && !IsAvailable([r], "p", 2, 6)
  {
    var r := Rental("a", "p", 5, 3, 0, 0, Requested);
    assert Blocks([r][0], "p", 2, 6);
  }

  // ---------------------------------------------------------------------
  // Day count and price.
  // ---------------------------------------------------------------------

  /** A day test for DaysIn's comprehension to trigger on. */
  predicate InRange(sd: Day, ed: Day, d: Day)
  {
    sd <= d <= ed
  }

  /** The days from sd to ed inclusive. The bounds are written out for the
      finiteness test, the predicate gives the quantifier its trigger. */
  function DaysIn(sd: Day, ed: Day): set<Day>
  {
    set d: Day | sd <= d <= ed && InRange(sd, ed, d)
  }

  lemma {:induction false} DaysInCount(sd: Day, ed: Day)
    ensures sd <= ed ==> |DaysIn(sd, ed)| == ed - sd + 1
    decreases ed - sd
  {
    if sd < ed {
      DaysInCount(sd, ed - 1);
      assert DaysIn(sd, ed) == DaysIn(sd, ed - 1) + {ed};
    } else if sd == ed {
      assert DaysIn(sd, ed) == {ed};
    }
  }

  /** The inclusive day count `(ed - sd) + 1`: for a well-ordered range, the
      number of calendar days it covers, so at least 1. */
  function RentalDays(sd: Day, ed: Day): (days: int)
    ensures sd <= ed ==> days >= 1 && days == |DaysIn(sd, ed)|
  {
    DaysInCount(sd, ed);
    (ed - sd) + 1
  }

  /** The rental's price: the per-day rate times the day count. */
  function RentalTotal(pricePerDay: int, sd: Day, ed: Day): (total: int)
    ensures sd <= ed && pricePerDay >= 0 ==> total >= pricePerDay
    ensures sd == ed ==> total == pricePerDay
  {
    pricePerDay * RentalDays(sd, ed)
  }

  // ---------------------------------------------------------------------
  // requestRental.
  // ---------------------------------------------------------------------

  datatype RentalError = NotRentable | NotAvailable | NotFound

  datatype RequestResponse = Booked(rentalId: nat, orderId: nat) | RequestRefused(error: RentalError)

  /** The product exists and is offered for rent. */
  predicate Rentable(products: map<ProductId, Product>, p: ProductId)
  {
    p in products && products[p].isRental
  }

  /** The Rental record an accepted request writes. */
  function RequestedRental(user: UserId, p: ProductId, product: Product, sd: Day, ed: Day): (r: Rental)
    ensures forall d :: HoldsUnit(r, p, d) <==> sd <= d <= ed
  {
    Rental(user, p, sd, ed, RentalTotal(product.pricePerDay, sd, ed), product.deposit, Requested)
  }

  /** The Order an accepted request writes beside it: one rental line of
      quantity 1 priced at the rental's total. */
  function CompanionOrder(user: UserId, p: ProductId, total: int, sd: Day, ed: Day): (o: Order)
    ensures forall d :: ItemsDemand(o.items, p, d) == if sd <= d <= ed then 1 else 0
  {
    Order(user, [OrderItem(p, 1, total, RentalItem, Some(sd), Some(ed))], total, Paid, "rental_request")
  }

  method RequestRental(db: Db, user: UserId, productId: ProductId, sd: Day, ed: Day)
    returns (res: RequestResponse)
    modifies db
    ensures db.products == old(db.products) && db.carts == old(db.carts) && db.users == old(db.users)
    ensures !Rentable(old(db.products), productId) ==> res == RequestRefused(NotRentable)
    ensures Rentable(old(db.products), productId) && !IsAvailable(old(db.rentals), productId, sd, ed)
            ==> res == RequestRefused(NotAvailable)
    ensures res.RequestRefused? ==> db.rentals == old(db.rentals) && db.orders == old(db.orders)
    ensures Rentable(old(db.products), productId) && IsAvailable(old(db.rentals), productId, sd, ed) ==>
              var rental := RequestedRental(user, productId, old(db.products)[productId], sd, ed);
              && res == Booked(|old(db.rentals)|, |old(db.orders)|)
              && db.rentals == old(db.rentals) + [rental]
              && db.orders == old(db.orders) + [CompanionOrder(user, productId, rental.totalAmount, sd, ed)]
  {
    if productId !in db.products || !db.products[productId].isRental {
      return RequestRefused(NotRentable);
    }
    var product := db.products[productId];
    var available := IsAvailable(db.rentals, productId, sd, ed);
    if !available {
      return RequestRefused(NotAvailable);
    }
    var total := RentalTotal(product.pricePerDay, sd, ed);
    var rental := Rental(user, productId, sd, ed, total, product.deposit, Requested);
    res := Booked(|db.rentals|, |db.orders|);
    db.rentals := db.rentals + [rental];
    var order := Order(user, [OrderItem(productId, 1, total, RentalItem, Some(sd), Some(ed))], total, Paid, "rental_request");
    db.orders := db.orders + [order];
  }

  // ---------------------------------------------------------------------
  // updateRentalStatus.
  // ---------------------------------------------------------------------

  datatype StatusResponse = StatusSet(rental: Rental) | StatusRefused(error: RentalError)

  /** Sets any status on any existing rental; nothing checks the transition. */
  method UpdateRentalStatus(db: Db, id: int, status: RentalStatus) returns (res: StatusResponse)
    modifies db
    ensures db.products == old(db.products) && db.orders == old(db.orders)
    ensures db.carts == old(db.carts) && db.users == old(db.users)
    ensures !(0 <= id < |old(db.rentals)|) ==> res == StatusRefused(NotFound) && db.rentals == old(db.rentals)
    ensures 0 <= id < |old(db.rentals)| ==>
              && db.rentals == old(db.rentals)[id := old(db.rentals)[id].(status := status)]
              && res == StatusSet(db.rentals[id])
  {
    if !(0 <= id < |db.rentals|) {
      return StatusRefused(NotFound);
    }
    var rental := db.rentals[id].(status := status);
    db.rentals := db.rentals[id := rental];
    res := StatusSet(rental);
  }

  // ---------------------------------------------------------------------
  // What the bookings do to the ledger.
  // ---------------------------------------------------------------------

  /** No two active, well-ordered rentals of one product share a day. */
  ghost predicate NoDoubleBooking(rentals: seq<Rental>)
  {
    forall i, j :: 0 <= i < j < |rentals| ==>
      var a, b := rentals[i], rentals[j];
      !(&& a.product == b.product && IsActive(a.status) && IsActive(b.status)
        && a.startDate <= a.endDate && b.startDate <= b.endDate
        && Overlaps(a.startDate, a.endDate, b.startDate, b.endDate))
  }

  /** Run one after another, accepted requests never double-book a product:
      the overlap test alone keeps active rentals apart, stock aside. */
  lemma BookingKeepsRentalsApart(rentals: seq<Rental>, user: UserId, p: ProductId, product: Product, sd: Day, ed: Day)
    requires NoDoubleBooking(rentals)
    requires IsAvailable(rentals, p, sd, ed)
    ensures NoDoubleBooking(rentals + [RequestedRental(user, p, product, sd, ed)])
  {
    var r := RequestedRental(user, p, product, sd, ed);
    var rs := rentals + [r];
    forall i, j | 0 <= i < j < |rs|
      ensures !(&& rs[i].product == rs[j].product && IsActive(rs[i].status) && IsActive(rs[j].status)
                && rs[i].startDate <= rs[i].endDate && rs[j].startDate <= rs[j].endDate
                && Overlaps(rs[i].startDate, rs[i].endDate, rs[j].startDate, rs[j].endDate))
    {
      if j == |rentals| && sd <= ed && rs[i].startDate <= rs[i].endDate {
        assert !Blocks(rentals[i], p, sd, ed);
        ThreeClausesAreOverlap(rentals[i], p, sd, ed);
      }
    }
  }

  /** An accepted request holds two units on each day it covers (the Rental
      and its order line) and leaves every other day and product alone. */
  lemma RequestHoldsTwoUnits(rentals: seq<Rental>, orders: seq<Order>, user: UserId, p: ProductId,
                             product: Product, sd: Day, ed: Day, q: ProductId, d: Day)
    ensures var r := RequestedRental(user, p, product, sd, ed);
            DailyUsed(rentals + [r], orders + [CompanionOrder(user, p, r.totalAmount, sd, ed)], q, d)
            == DailyUsed(rentals, orders, q, d) + (if q == p && sd <= d <= ed then 2 else 0)
  {
    var r := RequestedRental(user, p, product, sd, ed);
    var o := CompanionOrder(user, p, r.totalAmount, sd, ed);
    ActiveRentalsOnAppend(rentals, r, q, d);
    OrdersDemandAppend(orders, o, q, d);
    assert o.items[..0] == [];
  }

  /** Consequently one request on an empty ledger uses up a stock of two over
      its whole range. */
  lemma OneRequestUsesTwoUnits(user: UserId, p: ProductId, product: Product, sd: Day, ed: Day)
    requires sd <= ed
    ensures var r := RequestedRental(user, p, product, sd, ed);
            var o := CompanionOrder(user, p, r.totalAmount, sd, ed);
            && Peak([r], [o], p, sd, ed) == 2
            && AvailableUnits(2, Peak([r], [o], p, sd, ed)) == 0
  {
    var r := RequestedRental(user, p, product, sd, ed);
    var o := CompanionOrder(user, p, r.totalAmount, sd, ed);
    assert [] + [r] == [r] && [] + [o] == [o];
    forall d | sd <= d <= ed
      ensures DailyUsed([r], [o], p, d) == 2
    {
      RequestHoldsTwoUnits([], [], user, p, product, sd, ed, p, d);
    }
    PeakOfConstantUse([r], [o], p, sd, ed, 2);
  }

  /** Changing one rental's status changes a day's count only by what that
      rental held before and holds after. */
  lemma {:induction false} SetStatusCount(rentals: seq<Rental>, i: nat, status: RentalStatus, p: ProductId, d: Day)
    requires i < |rentals|
    ensures ActiveRentalsOn(rentals[i := rentals[i].(status := status)], p, d)
            == ActiveRentalsOn(rentals, p, d)
               - (if HoldsUnit(rentals[i], p, d) then 1 else 0)
               + (if HoldsUnit(rentals[i].(status := status), p, d) then 1 else 0)
  {
    var n := |rentals|;
    var updated := rentals[i := rentals[i].(status := status)];
    if i < n - 1 {
      assert updated[..n - 1] == rentals[..n - 1][i := rentals[i].(status := status)];
      SetStatusCount(rentals[..n - 1], i, status, p, d);
    } else {
      assert updated[..n - 1] == rentals[..n - 1];
    }
  }

  /** Rejecting or returning an active rental frees exactly one unit on each
      day it covered. */
  lemma DeactivationFreesOneUnit(rentals: seq<Rental>, orders: seq<Order>, i: nat, status: RentalStatus, d: Day)
    requires i < |rentals| && !IsActive(status)
    requires HoldsUnit(rentals[i], rentals[i].product, d)
    ensures DailyUsed(rentals[i := rentals[i].(status := status)], orders, rentals[i].product, d)
            == DailyUsed(rentals, orders, rentals[i].product, d) - 1
  {
    SetStatusCount(rentals, i, status, rentals[i].product, d);
  }

  /** A request that is accepted and then rejected still holds one unit on
      each day it covered: the order line is never status-filtered. */
  lemma RejectedRequestStillHoldsOneUnit(rentals: seq<Rental>, orders: seq<Order>, user: UserId, p: ProductId,
                                         product: Product, sd: Day, ed: Day, d: Day)
    ensures var r := RequestedRental(user, p, product, sd, ed);
            var after := (rentals + [r])[|rentals| := r.(status := Rejected)];
            DailyUsed(after, orders + [CompanionOrder(user, p, r.totalAmount, sd, ed)], p, d)
            == DailyUsed(rentals, orders, p, d) + (if sd <= d <= ed then 1 else 0)
  {
    var r := RequestedRental(user, p, product, sd, ed);
    var o := CompanionOrder(user, p, r.totalAmount, sd, ed);
    RequestHoldsTwoUnits(rentals, orders, user, p, product, sd, ed, p, d);
    SetStatusCount(rentals + [r], |rentals|, Rejected, p, d);
    OrdersDemandAppend(orders, o, p, d);
  }

  /** Moving a rental to an inactive status keeps the ledger free of double bookings. */
  lemma DeactivationKeepsRentalsApart(rentals: seq<Rental>, i: nat, status: RentalStatus)
    requires i < |rentals| && !IsActive(status)
    requires NoDoubleBooking(rentals)
    ensures NoDoubleBooking(rentals[i := rentals[i].(status := status)])
  {
  }

  /** Status updates are unconstrained: reactivating a rejected rental after
      another request took its dates double-books the product. */
  lemma ReactivationCanDoubleBook()
    ensures var product := Product("p", 0, 1, true, 10, 0);
            var rejected := [Rental("a", "p", 1, 3, 30, 0, Rejected)];
            && IsAvailable(rejected, "p", 2, 4)
            && var booked := rejected + [RequestedRental("b", "p", product, 2, 4)];
               && NoDoubleBooking(booked)
               && !NoDoubleBooking(booked[0 := booked[0].(status := Approved)])
  {
    var product := Product("p", 0, 1, true, 10, 0);
    var booked := [Rental("a", "p", 1, 3, 30, 0, Rejected)] + [RequestedRental("b", "p", product, 2, 4)];
    var reactivated := booked[0 := booked[0].(status := Approved)];
    assert reactivated[0].startDate <= reactivated[0].endDate;
    assert reactivated[1].startDate <= reactivated[1].endDate;
    assert Overlaps(reactivated[0].startDate, reactivated[0].endDate, reactivated[1].startDate, reactivated[1].endDate);
  }
}
