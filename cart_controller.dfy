/** The cart handlers: `getCart` (creates an empty cart on first use),
    `addToCart` (merges into the first matching line, else appends) and
    `removeFromCart` (drops every line for a product). */
module CartController {
  import opened Models

  // ---------------------------------------------------------------------
  // Selecting the line to change.
  // ---------------------------------------------------------------------

  /** The `findIndex` test: same product and type, and the stored line has no
      rental start or has the requested one. */
  predicate LineMatches(it: CartItem, p: ProductId, kind: ItemType, rentalStart: Option<Day>)
  {
    it.product == p && it.kind == kind && (it.rentalStart.None? || it.rentalStart == rentalStart)
  }

  /** `findIndex`: the first matching line, or -1. */
  function FindMatch(items: seq<CartItem>, p: ProductId, kind: ItemType, rentalStart: Option<Day>): (idx: int)
    ensures -1 <= idx < |items|
    ensures idx >= 0 ==> LineMatches(items[idx], p, kind, rentalStart)
    ensures forall j :: 0 <= j < |items| && (idx == -1 || j < idx) ==> !LineMatches(items[j], p, kind, rentalStart)
  {
    if items == [] then -1
    else if LineMatches(items[0], p, kind, rentalStart) then 0
    else
      assert forall j :: 1 <= j < |items| ==> items[1..][j - 1] == items[j];
      var k := FindMatch(items[1..], p, kind, rentalStart);
      if k == -1 then -1 else k + 1
  }

  /** The cart contents `addToCart` leaves: the first matching line's `qty`
      grows by `qty`, or else a new line goes at the end. */
  function AddedTo(items: seq<CartItem>, p: ProductId, qty: int, kind: ItemType,
                   rentalStart: Option<Day>, rentalEnd: Option<Day>): (r: seq<CartItem>)
    ensures |items| <= |r| <= |items| + 1
    ensures forall i :: 0 <= i < |items| && !LineMatches(items[i], p, kind, rentalStart) ==> r[i] == items[i]
  {
    var idx := FindMatch(items, p, kind, rentalStart);
    if idx > -1 then items[idx := items[idx].(qty := items[idx].qty + qty)]
    else items + [CartItem(p, qty, kind, rentalStart, rentalEnd)]
  }

  /** `filter`: the lines for other products, in their order. */
  function WithoutProduct(items: seq<CartItem>, p: ProductId): (r: seq<CartItem>)
    ensures |r| <= |items|
    ensures forall it :: it in r <==> it in items && it.product != p
  {
    if items == [] then []
    else
      var init, last := items[..|items| - 1], items[|items| - 1];
      assert items == init + [last];
      var rest := WithoutProduct(init, p);
      if last.product != p then rest + [last] else rest
  }

  /** The sum of the lines' quantities. */
  function TotalQty(items: seq<CartItem>): int
  {
    if items == [] then 0 else TotalQty(items[..|items| - 1]) + items[|items| - 1].qty
  }

  // ---------------------------------------------------------------------
  // The handlers.
  // ---------------------------------------------------------------------

  datatype CartError = ProductNotFound | CartNotFound

  datatype CartResponse = CartOk(items: seq<CartItem>) | CartRefused(error: CartError)

  /** getCart: the caller's cart, created empty when there is none. */
  method GetCart(db: Db, user: UserId) returns (cart: Cart)
    requires db.Valid()
    modifies db
    ensures db.Valid() && user in db.carts && cart == db.carts[user] && cart.user == user
    ensures db.products == old(db.products) && db.rentals == old(db.rentals)
    ensures db.orders == old(db.orders) && db.users == old(db.users)
    ensures user in old(db.carts) ==> db.carts == old(db.carts)
    ensures user !in old(db.carts) ==> fresh(cart) && cart.items == [] && db.carts == old(db.carts)[user := cart]
  {
    if user in db.carts {
      cart := db.carts[user];
    } else {
      cart := new Cart(user);
      db.carts := db.carts[user := cart];
    }
  }

  /** addToCart: an unknown product is refused before any cart is created. */
  method AddToCart(db: Db, user: UserId, productId: ProductId, qty: int, kind: ItemType,
                   rentalStart: Option<Day>, rentalEnd: Option<Day>)
    returns (res: CartResponse)
    requires db.Valid()
    modifies db, (if user in db.carts then {db.carts[user]} else {})
    ensures db.Valid()
    ensures db.products == old(db.products) && db.rentals == old(db.rentals)
    ensures db.orders == old(db.orders) && db.users == old(db.users)
    ensures productId !in old(db.products) ==>
              && res == CartRefused(ProductNotFound) && db.carts == old(db.carts)
              && (user in db.carts ==> db.carts[user].items == old(db.carts[user].items))
    ensures productId in old(db.products) ==>
              var before := if user in old(db.carts) then old(db.carts[user].items) else [];
              && user in db.carts
              && db.carts[user].items == AddedTo(before, productId, qty, kind, rentalStart, rentalEnd)
              && res == CartOk(db.carts[user].items)
    ensures productId in old(db.products) && user !in old(db.carts) ==>
              user in db.carts && fresh(db.carts[user]) && db.carts == old(db.carts)[user := db.carts[user]]
    ensures user in old(db.carts) ==> db.carts == old(db.carts)
  {
    if productId !in db.products {
      return CartRefused(ProductNotFound);
    }
    var cart := GetCart(db, user);
    var idx := FindMatch(cart.items, productId, kind, rentalStart);
    if idx > -1 {
      cart.items := cart.items[idx := cart.items[idx].(qty := cart.items[idx].qty + qty)];
    } else {
      cart.items := cart.items + [CartItem(productId, qty, kind, rentalStart, rentalEnd)];
    }
    res := CartOk(cart.items);
  }

  /** removeFromCart: refuses a caller without a cart. */
  method RemoveFromCart(db: Db, user: UserId, productId: ProductId) returns (res: CartResponse)
    requires db.Valid()
    modifies (if user in db.carts then {db.carts[user]} else {})
    ensures user !in db.carts ==> res == CartRefused(CartNotFound)
    ensures user in db.carts ==>
              && db.carts[user].items == WithoutProduct(old(db.carts[user].items), productId)
              && res == CartOk(db.carts[user].items)
  {
    if user !in db.carts {
      return CartRefused(CartNotFound);
    }
    var cart := db.carts[user];
    cart.items := WithoutProduct(cart.items, productId);
    res := CartOk(cart.items);
  }

  // ---------------------------------------------------------------------
  // What adding and removing do to the lines.
  // ---------------------------------------------------------------------

  /** With a match, only the first matching line changes, and only its quantity. */
  lemma AddMergesIntoFirstMatch(items: seq<CartItem>, p: ProductId, qty: int, kind: ItemType,
                                rentalStart: Option<Day>, rentalEnd: Option<Day>)
    requires exists j :: 0 <= j < |items| && LineMatches(items[j], p, kind, rentalStart)
    ensures var idx := FindMatch(items, p, kind, rentalStart);
            var after := AddedTo(items, p, qty, kind, rentalStart, rentalEnd);
            && 0 <= idx < |items| && |after| == |items|
            && (forall j :: 0 <= j < idx ==> !LineMatches(items[j], p, kind, rentalStart))
            && after[idx] == items[idx].(qty := items[idx].qty + qty)
            && forall j :: 0 <= j < |items| && j != idx ==> after[j] == items[j]
  {
  }

  /** Without a match, one new line goes at the end and the others stay. */
  lemma AddAppendsWithoutMatch(items: seq<CartItem>, p: ProductId, qty: int, kind: ItemType,
                               rentalStart: Option<Day>, rentalEnd: Option<Day>)
    requires forall j :: 0 <= j < |items| ==> !LineMatches(items[j], p, kind, rentalStart)
    ensures AddedTo(items, p, qty, kind, rentalStart, rentalEnd)
            == items + [CartItem(p, qty, kind, rentalStart, rentalEnd)]
  {
  }

  lemma {:induction false} TotalQtyUpdate(items: seq<CartItem>, i: nat, x: CartItem)
    requires i < |items|
    ensures TotalQty(items[i := x]) == TotalQty(items) - items[i].qty + x.qty
  {
    var n := |items|;
    if i < n - 1 {
      assert items[i := x][..n - 1] == items[..n - 1][i := x];
      TotalQtyUpdate(items[..n - 1], i, x);
    } else {
      assert items[i := x][..n - 1] == items[..n - 1];
    }
  }

  /** Adding raises the total quantity by exactly `qty` and the number of
      lines by at most one. */
  lemma AddRaisesTotalQty(items: seq<CartItem>, p: ProductId, qty: int, kind: ItemType,
                          rentalStart: Option<Day>, rentalEnd: Option<Day>)
    ensures var after := AddedTo(items, p, qty, kind, rentalStart, rentalEnd);
            && TotalQty(after) == TotalQty(items) + qty
            && |items| <= |after| <= |items| + 1
  {
    var idx := FindMatch(items, p, kind, rentalStart);
    if idx > -1 {
      TotalQtyUpdate(items, idx, items[idx].(qty := items[idx].qty + qty));
    } else {
      var line := CartItem(p, qty, kind, rentalStart, rentalEnd);
      assert (items + [line])[..|items|] == items;
    }
  }

  /** Filtering a concatenation filters each part: the kept lines stay in
      their relative order. */
  lemma {:induction false} WithoutProductAppend(a: seq<CartItem>, b: seq<CartItem>, p: ProductId)
    ensures WithoutProduct(a + b, p) == WithoutProduct(a, p) + WithoutProduct(b, p)
    decreases |b|
  {
    if b == [] {
      assert a + b == a;
    } else {
      var init, last := b[..|b| - 1], b[|b| - 1];
      assert (a + b)[..|a + b| - 1] == a + init;
      assert (a + b)[|a + b| - 1] == last;
      WithoutProductAppend(a, init, p);
    }
  }

  /** Removing twice is removing once. */
  lemma {:induction false} WithoutProductIdempotent(items: seq<CartItem>, p: ProductId)
    ensures WithoutProduct(WithoutProduct(items, p), p) == WithoutProduct(items, p)
  {
    if items != [] {
      var init, last := items[..|items| - 1], items[|items| - 1];
      WithoutProductIdempotent(init, p);
      var rest := WithoutProduct(init, p);
      if last.product != p {
        WithoutProductAppend(rest, [last], p);
        assert [last][..0] == [];
      }
    }
  }
}
