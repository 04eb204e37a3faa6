# Storefront backend core, modelled in Dafny

This project models the backend core of a storefront that sells items outright
and rents items for date ranges out of a shared stock of physical units:

- **Availability scan** (`StockUtils`, `checkStockAvailability`). It takes the
  active Rentals and the rental lines of Orders that touch a date window,
  sums each day's demand, keeps the peak, and reports the stock left after the
  peak, clamped at zero.
- **Rental booking** (`RentalController`). `isAvailable` is a three-clause
  overlap test. `requestRental` writes a Rental with status `requested`
  together with a paid Order holding one rental line of quantity 1.
  `updateRentalStatus` sets any status.
- **Checkout** (`OrderController`). The caller's cart becomes one paid Order.
  Purchase lines then lower their product's stock, and the cart is emptied.
- **Cart** (`CartController`). `getCart` creates a cart on first use.
  `addToCart` merges into the first matching line or appends a line.
  `removeFromCart` drops the lines for a product.
- **Accounts** (`AuthController`). The login lockout: five wrong passwords
  lock an account for thirty minutes. Registration always creates a customer.
  A refresh token is rotated on use. Password reset clears the lockout.

Records are Dafny datatypes (`Models`). The database is a class `Db`:

- products are a `map` keyed by id;
- rentals and orders are `seq`s, and a rental's id is its position;
- carts are a `map` from user to a `Cart` object.

Accounts are `Account` objects, because the handlers change their fields in
place. Rental dates are whole day numbers. Account times are milliseconds on a
clock `now`, passed in.

The model keeps two behaviours of the code as they are:

- One accepted `requestRental` holds **two** units on each day it covers. The
  scan counts the Rental and also the order line written beside it
  (`RentalController.RequestHoldsTwoUnits`,
  `RentalController.OneRequestUsesTwoUnits`).
- Order lines are never filtered by status. A request that is accepted and
  then rejected still holds **one** unit
  (`RentalController.RejectedRequestStillHoldsOneUnit`).

The code behaves as follows where a reader might expect otherwise:

- Apart from refusing a product that is missing or not for rent,
  `requestRental` refuses only on the overlap test. It runs no stock-aware
  availability check, and it does not check that the start date comes
  before the end date (`RentalController.ReversedRangeIsAccepted`).
- A stored reversed rental covers no day, yet it still refuses a later
  request whose range contains its start or its end, through the first or
  second overlap clause (`RentalController.ReversedRentalBlocks`).
- Checkout charges a rental line its per-day rate once, whatever its length
  (`OrderController.RentalLineIgnoresDays`).
- Checkout does not check stock, so stock can go negative
  (`OrderController.StockCanGoNegative`).
- Checkout runs no availability check on the cart's rental lines: neither
  the overlap test nor the stock scan (`OrderController.Checkout` refuses
  only a missing or empty cart and a vanished product).
- Checkout writes no separate booking record for the cart's rental lines.
- The handlers are not atomic, and nothing in them locks.
- Every e-mail lookup uses the normalized address. The schema's
  lower-casing and trimming setters also run on the value a query is matched
  against, so `" A@b.c "` finds the account stored as `a@b.c`, and registering
  it is refused as taken (`AuthController.PaddedAddressMatchesStored`).

## Model

| member | source | states |
|---|---|---|
| StockUtils.RentalQuery | backend/src/utils/stockUtils.js:6-12 | the result holds exactly the rentals of the product with an active status whose dates intersect the window, and no more of them than the collection has (the filter is the predicate `RentalMatches`) |
| StockUtils.OrderQuery | backend/src/utils/stockUtils.js:15-20 | the result holds exactly the orders in which some line names the product, some line is a rental line, some line starts by the window's end and some line ends on or after its start (array-field matching) (the filter is the predicate `OrderMatches`) |
| StockUtils.Peak | backend/src/utils/stockUtils.js:22-49 | the scan's running maximum is at least 0, bounds every day's use in the window, and is 0 or equal to the use on some day of the window |
| StockUtils.AvailableUnits | backend/src/utils/stockUtils.js:51-55 | what is reported is never negative, never above a non-negative stock, positive exactly when stock exceeds the peak, and then stock minus peak |
| StockUtils.CheckStockAvailability | backend/src/utils/stockUtils.js:4-56 | the day loop returns the peak daily use over the whole collections for every day of the window, and the clamped remainder of the stock |
| StockUtils.UsageOn | backend/src/utils/stockUtils.js:29-45 | the inner loops sum one unit per queried rental covering the day plus the qty of every queried rental line for the product covering the day |
| StockUtils.ActiveRentalsOn | backend/src/utils/stockUtils.js:31-35 | the number of rentals holding a unit of the product on the day is never more than the rentals there are |
| StockUtils.NoRentalHoldsIffZero | backend/src/utils/stockUtils.js:31-35 | the day's rental count is zero exactly when no active rental of the product covers the day |
| StockUtils.ItemsDemand | backend/src/utils/stockUtils.js:38-44 | only rental lines of the product count: an order whose lines are purchases or other products holds nothing |
| StockUtils.OrdersDemand | backend/src/utils/stockUtils.js:37-45 | orders made only of purchase lines hold no unit on any day |
| StockUtils.DailyUsed | backend/src/utils/stockUtils.js:29-45 | definition: a day's use is the rentals' count plus the rental lines' quantities; it has no contract of its own, and UsageOn, ActiveRentalsOnAppend, OrdersDemandAppend and the Peak lemmas state its properties |
| StockUtils.RentalQueryCount | backend/src/utils/stockUtils.js:6-35 | for a day in the window, counting covering rentals among the query's results equals counting active rentals of the product over the whole collection |
| StockUtils.NoCoveringLineNoDemand | backend/src/utils/stockUtils.js:37-45 | an order none of whose lines covers the day adds nothing to it |
| StockUtils.UnmatchedOrderHoldsNothing | backend/src/utils/stockUtils.js:15-20 | an order the query leaves out holds no unit on any day of the window |
| StockUtils.OrderQueryDemand | backend/src/utils/stockUtils.js:15-45 | for a day in the window, the demand summed over the query's results equals the demand over all orders: the pre-filter loses nothing |
| StockUtils.PeakMonotone | backend/src/utils/stockUtils.js:28-49 | a ledger whose use is at most another's on every day has at most its peak |
| StockUtils.PeakOfConstantUse | backend/src/utils/stockUtils.js:22-49 | a non-empty window with the same non-negative use on every day has that use as its peak |
| StockUtils.PeakCongruent | backend/src/utils/stockUtils.js:28-49 | ledgers with the same use on every day of the window have the same peak |
| StockUtils.ActiveRentalsOnAppend | backend/src/utils/stockUtils.js:31-35 | a new rental adds one to a day's count exactly when it is active, for the product and covers the day |
| StockUtils.OrdersDemandAppend | backend/src/utils/stockUtils.js:37-45 | a new order adds its own lines' demand to the day |
| StockUtils.AddRentalMonotone | backend/src/utils/stockUtils.js:28-55 | a new rental never lowers the peak nor raises availability, and lifts the peak above the former use of every window day it holds |
| StockUtils.ItemsDemandNonNegative | backend/src/utils/stockUtils.js:38-44 | lines with non-negative quantities have non-negative demand |
| StockUtils.AddOrderMonotone | backend/src/utils/stockUtils.js:28-55 | a new order with non-negative quantities never lowers the peak nor raises availability |
| StockUtils.IgnoredRentalChangesNothing | backend/src/utils/stockUtils.js:6-12 | a rental of another product, or a rejected or returned one, changes no day's use and not the peak |
| StockUtils.IgnoredOrderChangesNothing | backend/src/utils/stockUtils.js:37-45 | an order of purchase lines or of other products changes no day's use and not the peak |
| StockUtils.EmptyLedgerLeavesStock | backend/src/utils/stockUtils.js:22-55 | with no records the peak is 0 and the whole stock, clamped at 0, is available |
| StockUtils.TwoOfThreeBooked | backend/src/utils/stockUtils.js:28-55 | a three-unit product with two active rentals over days 10..15 has peak 2 and one unit left on day 12 |
| RentalController.IsAvailable | backend/src/controllers/rentalController.js:5-16 | a request is available exactly when no stored rental of the product with an active status meets one of the three overlap clauses |
| RentalController.Blocks | backend/src/controllers/rentalController.js:6-13 | definition of the query for one stored rental; it has no contract of its own, and IsAvailable, ThreeClausesAreOverlap and ReversedRentalBlocks state its properties |
| RentalController.ThreeClausesAreOverlap | backend/src/controllers/rentalController.js:10-12 | for well-ordered ranges the three clauses hold exactly when the two ranges share a day |
| RentalController.AvailableIffNoSharedDay | backend/src/controllers/rentalController.js:5-16 | over well-ordered rentals, a well-ordered request is available exactly when no active rental of the product shares a day with it |
| RentalController.ReversedRangeIsAccepted | backend/src/controllers/rentalController.js:18-26 | a request with its end before its start passes the test, is priced negative, and covers no day |
| RentalController.ReversedRentalBlocks | backend/src/controllers/rentalController.js:10-12 | a stored rental from day 5 back to day 3 covers no day, yet refuses a request for days 2..6 |
| RentalController.DaysInCount | backend/src/controllers/rentalController.js:25 | a well-ordered inclusive range has end minus start plus one days |
| RentalController.RentalDays | backend/src/controllers/rentalController.js:25 | the day count of a well-ordered range is at least 1 and equals the number of calendar days it covers |
| RentalController.RentalTotal | backend/src/controllers/rentalController.js:26 | for a well-ordered range and a non-negative rate the total is at least one day's rate, and a one-day rental costs exactly the rate |
| RentalController.RequestedRental | backend/src/controllers/rentalController.js:28-37 | the Rental written holds a unit of the product on exactly the days from start to end |
| RentalController.CompanionOrder | backend/src/controllers/rentalController.js:39-54 | the Order written beside it holds exactly one unit of the product on each day from start to end and none on any other day |
| RentalController.RequestRental | backend/src/controllers/rentalController.js:18-57 | a missing or non-rentable product and a failed overlap test are refused with nothing written; otherwise exactly one Rental with status requested and one paid rental order of qty 1 at the rental's total are appended (the product test is the predicate `Rentable`) |
| RentalController.UpdateRentalStatus | backend/src/controllers/rentalController.js:66-74 | an unknown id is refused; otherwise only that rental's status changes, to whatever was asked |
| RentalController.BookingKeepsRentalsApart | backend/src/controllers/rentalController.js:18-37 | appending a rental that passed the overlap test keeps active rentals of a product from sharing a day |
| RentalController.RequestHoldsTwoUnits | backend/src/controllers/rentalController.js:28-54 | an accepted request raises the use of its product by exactly 2 on each day it covers and changes no other day or product |
| RentalController.OneRequestUsesTwoUnits | backend/src/controllers/rentalController.js:28-54 | on an empty ledger one request makes the peak 2 over its range, leaving nothing of a stock of 2 |
| RentalController.SetStatusCount | backend/src/controllers/rentalController.js:66-74 | changing one rental's status changes a day's count only by what that rental held before and after |
| RentalController.DeactivationFreesOneUnit | backend/src/controllers/rentalController.js:66-74 | rejecting or returning an active rental lowers the use of each day it covered by exactly 1 |
| RentalController.RejectedRequestStillHoldsOneUnit | backend/src/controllers/rentalController.js:39-54 | a request accepted and then rejected still raises its product's use by 1 on each day it covered |
| RentalController.DeactivationKeepsRentalsApart | backend/src/controllers/rentalController.js:66-74 | moving a rental to an inactive status keeps active rentals apart |
| RentalController.ReactivationCanDoubleBook | backend/src/controllers/rentalController.js:66-74 | reactivating a rejected rental after another request took its dates leaves two active rentals sharing days |
| OrderController.OrderLines | backend/src/controllers/orderController.js:14-31 | there is no result exactly when some cart line's product is missing; otherwise line i of the order is cart line i priced at the rental rate or the sale price |
| OrderController.UnitPrice | backend/src/controllers/orderController.js:19-30 | definition: a rental line is priced at the per-day rate, a purchase line at the sale price; it has no contract of its own, and OrderLines and RentalLineIgnoresDays state its properties |
| OrderController.LineFor | backend/src/controllers/orderController.js:19-30 | definition of the order line made from a cart line; it has no contract of its own, and OrderLines and RentalLineIgnoresDays state its properties |
| OrderController.OrderTotal | backend/src/controllers/orderController.js:33 | definition of the `reduce`; it has no contract of its own, and OrderTotalAppend, OrderTotalNonNegative and RentalLineIgnoresDays state its properties |
| OrderController.OrderTotalAppend | backend/src/controllers/orderController.js:33 | the total of concatenated lines is the sum of their totals |
| OrderController.OrderTotalNonNegative | backend/src/controllers/orderController.js:33 | lines with non-negative quantity and price have a non-negative total |
| OrderController.RentalLineIgnoresDays | backend/src/controllers/orderController.js:19-33 | a three-day rental line of qty 1 at 10 per day makes an order total of 10 |
| OrderController.PurchasedQty | backend/src/controllers/orderController.js:52-56 | definition of what the purchase lines take from one product; it has no contract of its own, and UnpurchasedKeepsStock, StockCanGoNegative and TakeOffStock state its properties |
| OrderController.StockTakenOff | backend/src/controllers/orderController.js:52-56 | definition of the stock after the decrement; it has no contract of its own, and TakeOffStock and Checkout promise it |
| OrderController.UnpurchasedKeepsStock | backend/src/controllers/orderController.js:52-56 | a product that no purchase line names loses no stock |
| OrderController.StockCanGoNegative | backend/src/controllers/orderController.js:52-56 | buying three of a product with stock 1 leaves stock -2 |
| OrderController.TakeOffStock | backend/src/controllers/orderController.js:51-56 | every product loses exactly the quantity the purchase lines name for it, no product appears or vanishes, and nothing else changes |
| OrderController.PaymentMethodOf | backend/src/controllers/orderController.js:40 | the recorded method is never empty and is the requested one when that is non-empty |
| OrderController.Checkout | backend/src/controllers/orderController.js:6-67 | a missing or empty cart and a vanished product are refused with nothing changed; otherwise one paid order with the priced lines and their total is appended, each product loses what purchase lines took of it, and the cart becomes empty |
| CartController.FindMatch | backend/src/controllers/cartController.js:16 | the index is -1 or a matching line's, and no earlier line matches (the line test is the predicate `LineMatches`) |
| CartController.WithoutProduct | backend/src/controllers/cartController.js:27 | a line remains exactly when it was there and is for another product |
| CartController.AddedTo | backend/src/controllers/cartController.js:16-18 | the cart gains at most one line, and every line that does not match is left as it was |
| CartController.GetCart | backend/src/controllers/cartController.js:4-8 | an existing cart is returned unchanged; otherwise a new empty cart is stored for the caller |
| CartController.AddToCart | backend/src/controllers/cartController.js:10-21 | an unknown product is refused before any cart exists; otherwise the caller's cart, created if needed, holds the lines after the merge-or-append |
| CartController.RemoveFromCart | backend/src/controllers/cartController.js:23-30 | a caller without a cart is refused; otherwise the cart keeps exactly its lines for other products |
| CartController.AddMergesIntoFirstMatch | backend/src/controllers/cartController.js:16-17 | with a match, only the first matching line changes, and only its qty grows |
| CartController.AddAppendsWithoutMatch | backend/src/controllers/cartController.js:16-18 | without a match, one new line goes at the end and the rest stay |
| CartController.TotalQtyUpdate | backend/src/controllers/cartController.js:17 | replacing one line changes the total quantity by the difference of the two lines |
| CartController.AddRaisesTotalQty | backend/src/controllers/cartController.js:16-18 | adding raises the cart's total quantity by exactly qty and its line count by at most one |
| CartController.WithoutProductAppend | backend/src/controllers/cartController.js:27 | filtering keeps the remaining lines in their order |
| CartController.WithoutProductIdempotent | backend/src/controllers/cartController.js:27 | removing a product twice is removing it once |
| Models.Cart.constructor | backend/src/controllers/cartController.js:6 | a new cart belongs to its user and is empty |
| Models.Account.constructor | backend/src/models/User.js:3-22 | a new account has no tokens, no last login, no strikes, no lock, and is active |
| AuthController.ToLower | backend/src/controllers/authController.js:55 | lower-casing keeps the length, maps each letter and leaves no upper-case letter |
| AuthController.ToLowerIdempotent | backend/src/controllers/authController.js:55 | lower-casing twice is lower-casing once |
| AuthController.ToLowerOfLower | backend/src/models/User.js:9 | lower-casing text that has no upper-case letter changes nothing |
| AuthController.TrimStart | backend/src/controllers/authController.js:70-71 | the text is no longer than the input and does not start with white space |
| AuthController.TrimEnd | backend/src/controllers/authController.js:70-71 | the text is no longer than the input and does not end with white space |
| AuthController.TrimStartDropsSpaces | backend/src/controllers/authController.js:70-71 | what is dropped at the front is white space, and the rest is a suffix of the input |
| AuthController.TrimEndDropsSpaces | backend/src/controllers/authController.js:70-71 | what is dropped at the back is white space, and the rest is a prefix of the input |
| AuthController.Trim | backend/src/controllers/authController.js:70-71 | the trimmed text is no longer than the input and neither starts nor ends with white space |
| AuthController.TrimKeepsTheMiddle | backend/src/controllers/authController.js:70-71 | the trimmed text is a slice of the input with only white space on either side of it |
| AuthController.TrimIdempotent | backend/src/controllers/authController.js:70-71 | trimming twice is trimming once |
| AuthController.TrimKeepsLowerCase | backend/src/models/User.js:9-10 | trimming text without upper-case letters leaves none |
| AuthController.NormalizedEmail | backend/src/models/User.js:9-10 | definition: the address lower-cased, then trimmed; it has no contract of its own, and NormalizedEmailIsCanonical and QueryKeyIsStoredKey state its properties |
| AuthController.NormalizedEmailIsCanonical | backend/src/models/User.js:9-10 | a normalized address has no upper-case letter, no white space at either end, and normalizing it again changes nothing |
| AuthController.QueryKeyIsStoredKey | backend/src/controllers/authController.js:55 | lower-casing before the query, with the schema's setters on top, gives the same key as the stored address |
| AuthController.FindByEmail | backend/src/controllers/authController.js:118 | the index is -1 exactly when no account has that address, else an account with it |
| AuthController.FindById | backend/src/controllers/authController.js:234 | the index is -1 exactly when no account has that id, else the account with it |
| AuthController.FindByResetToken | backend/src/controllers/authController.js:357-360 | the index is -1 exactly when no account holds that reset hash unexpired, else one that does (the hash-and-expiry test is the predicate `ResetTokenValid`) |
| AuthController.HttpStatus | backend/src/controllers/authController.js:111-175 | definition of the status code each login outcome is answered with; it has no contract of its own, and LoginTransition and FifthStrikeLocks state its properties |
| AuthController.LoginTransition | backend/src/controllers/authController.js:131-187 | login succeeds exactly when the account is unlocked, active and the password right, and then clears strikes and lock; a lock or a deactivation changes nothing; strikes stay within 0..4; the answer is 423 exactly when the account is locked afterwards (the lock test is the predicate `IsLocked`) |
| AuthController.Replay | backend/src/controllers/authController.js:131-175 | a deactivated account's strikes and lock never change, whatever attempts are made |
| AuthController.AttemptsStayInRange | backend/src/controllers/authController.js:152-175 | starting within 0..4, the strike counter stays within 0..4 over any sequence of attempts |
| AuthController.StrikesCountUp | backend/src/controllers/authController.js:157-159 | wrong passwords while unlocked add one strike each, and the lock field is left as it was |
| AuthController.FifthStrikeLocks | backend/src/controllers/authController.js:154-175 | from a clean account, four wrong passwords are each answered 401 and leave 4 strikes, and the fifth is answered 423, resets the strikes and locks for thirty minutes |
| AuthController.LockHolds | backend/src/controllers/authController.js:131-137 | while the lock lasts every attempt, right password or wrong, is refused as locked and changes nothing |
| AuthController.LockExpires | backend/src/controllers/authController.js:131-187 | once the lock has run out, the right password logs in and clears strikes and lock |
| AuthController.Login | backend/src/controllers/authController.js:111-215 | an address with no account under its normalized form is refused with nothing changed; otherwise the found account's strikes and lock become the transition's, token and last login change only on success, and nothing else changes |
| AuthController.NewCustomer | backend/src/controllers/authController.js:69-85 | the new account is a customer with the trimmed name and normalized address, signed in now with the new token, no strikes and no lock |
| AuthController.Register | backend/src/controllers/authController.js:42-108 | a non-empty role other than customer is refused; an address whose normalized form is taken is refused; otherwise one new customer account is appended, and distinct stored addresses stay distinct (the role test is the predicate `RoleRefused`) |
| AuthController.PaddedAddressMatchesStored | backend/src/controllers/authController.js:55-71 | an address that differs from `a@b.c` only by case and surrounding spaces has the same lookup key |
| AuthController.RefreshToken | backend/src/controllers/authController.js:218-270 | a missing token is refused 400, an unverifiable one 401; it is rotated exactly when the account exists and stores the presented token, after which that token is no longer accepted (the token test is the predicate `RefreshAccepted`) |
| AuthController.ResetPassword | backend/src/controllers/authController.js:346-392 | no account with that unexpired reset hash: refused with nothing changed; otherwise only that account gets the new hash, loses its reset fields, strikes and lock, and the token is no longer valid |
| AuthController.ResetUnlocks | backend/src/controllers/authController.js:374-379 | after a reset an active account logs in with the right password at any time |

## Left out

- The frontend, routing, the HTTP middleware that authenticates callers, and
  the listing handlers (`sellerRentalRequests`, `getUserRentals`,
  `getAllRentals`, `getUserOrders`, `getAllOrders`). They only read data, and
  no property of the core depends on them.
- `logout`, `requestPasswordReset`, `changePassword` and `getMe` are outside
  the modelled core. The reset model takes the stored reset hash and expiry
  as given.
- Concurrency: every handler runs as one atomic step. The race between two
  requests that both pass the check before either writes cannot be expressed
  in this model.
- Password hashing and comparison, token signing and verification, and the
  reset-token hash are parameters (a verdict, a decoded id, a new token, a
  hash). The jwt secret lookup and its missing-configuration errors are not
  modelled.
- Dates are whole day numbers. The time of day, the `Math.ceil` over
  milliseconds in the day count, and `Date` parsing of malformed input are not
  modelled. Malformed ids and status strings that the database would reject
  on casting are not modelled either.
- Prices and amounts are integers. Floating-point arithmetic and the `|| 0`
  default for a missing rate or price are not modelled; every product carries
  both values.
- A Rental's `paymentInfo` is not modelled. An Order keeps only the payment
  method from its `paymentInfo`: `"rental_request"` for the order written by
  `requestRental`, and `PaymentMethodOf` at checkout. The shipping address
  sent at checkout is not modelled; the Order schema has no field for it, so
  the database drops it anyway.
- Model objects carry no timestamps. Rental ids are positions in the rentals
  sequence. Order ids are positions in the orders sequence.
- CartController.AddToCart: the defaults of `addToCart` (a quantity of 1 and
  the purchase type when the request omits them) are not modelled. Callers
  pass both values.
- CartController.AddToCart, CartController.FindMatch, CartController.LineMatches:
  the match compares the stored start date's `toString()` form with the
  start date string the client sent. It is modelled as equality of day
  numbers. A client's ISO date string never equals the `Date.prototype.toString()`
  form, so in the code a stored rental line with a start date almost never
  merges; the model merges it whenever the days agree.
- AuthController.ToLower: covers ASCII letters only, not Unicode case mapping.
- AuthController.Trim, AuthController.TrimStart, AuthController.TrimEnd,
  AuthController.IsSpace: treat only space, tab, line feed and carriage return
  as white space.
- The schema's e-mail format check is not modelled. The unique index on the
  address appears only as the invariant that stored addresses are distinct,
  which Register keeps. Register's own lookup already refuses every address
  whose normalized form is taken, so the index never refuses a write here.
- Errors thrown past the handlers' own checks (a failed save, a database
  outage) are not modelled. Each handler either refuses as shown or completes.
