/** The records of the backend's Mongoose models (Product, Rental, Order, Cart, User)
    and an in-memory stand-in for the database that holds them.

    Dates are whole calendar days; the authentication clock is a number of
    milliseconds. Identifiers are strings, as the controllers compare them
    through `toString()`. */
module Models {

  datatype Option<+T> = None | Some(value: T)

  type ProductId = string
  type UserId = string

  /** A calendar day, counted from an arbitrary epoch. */
  type Day = int

  /** A catalogue item. `price` is the purchase price, `pricePerDay` and
      `deposit` belong to the rental sub-document. Fields the engine never
      reads (title, images, category, seller, thresholds) are not kept. */
  datatype Product = Product(
    id: ProductId,
    price: int,
    stock: int,
    isRental: bool,
    pricePerDay: int,
    deposit: int)

  datatype RentalStatus = Requested | Approved | Rejected | Ongoing | Returned

  /** The statuses that the availability queries treat as holding a unit. */
  predicate IsActive(s: RentalStatus)
  {
    s == Requested || s == Approved || s == Ongoing
  }

  /** A standalone rental request. */
  datatype Rental = Rental(
    renter: UserId,
    product: ProductId,
    startDate: Day,
    endDate: Day,
    totalAmount: int,
    deposit: int,
    status: RentalStatus)

  /** The `type` of a cart line or an order line. */
  datatype ItemType = PurchaseItem | RentalItem

  datatype OrderItem = OrderItem(
    product: ProductId,
    qty: int,
    price: int,
    kind: ItemType,
    rentalStart: Option<Day>,
    rentalEnd: Option<Day>)

  datatype PaymentStatus = Pending | Paid | Failed

  datatype Order = Order(
    buyer: UserId,
    items: seq<OrderItem>,
    total: int,
    paymentStatus: PaymentStatus,
    paymentMethod: string)

  datatype CartItem = CartItem(
    product: ProductId,
    qty: int,
    kind: ItemType,
    rentalStart: Option<Day>,
    rentalEnd: Option<Day>)

  /** A user's cart document; the controllers assign to its `items`. */
  class Cart {
    const user: UserId
    var items: seq<CartItem>

    constructor (user: UserId)
      ensures this.user == user && items == []
    {
      this.user := user;
      items := [];
    }
  }

  datatype Role = Customer | Seller | Admin | Delivery

  /** A user document. Times are milliseconds; `None` is an unset field. */
  class Account {
    const id: UserId
    var name: string
    var email: string
    var passwordHash: string
    var role: Role
    var refreshToken: Option<string>
    var passwordResetToken: Option<string>
    var passwordResetExpires: Option<int>
    var lastLogin: Option<int>
    var loginAttempts: int
    var lockUntil: Option<int>
    var isActive: bool

    /** A new document with the schema's defaults. */
    constructor (id: UserId, name: string, email: string, passwordHash: string, role: Role)
      ensures this.id == id && this.name == name && this.email == email
      ensures this.passwordHash == passwordHash && this.role == role
      ensures refreshToken == None && passwordResetToken == None && passwordResetExpires == None
      ensures lastLogin == None && loginAttempts == 0 && lockUntil == None && isActive
    {
      this.id := id;
      this.name := name;
      this.email := email;
      this.passwordHash := passwordHash;
      this.role := role;
      refreshToken := None;
      passwordResetToken := None;
      passwordResetExpires := None;
      lastLogin := None;
      loginAttempts := 0;
      lockUntil := None;
      isActive := true;
    }
  }

  /** The collections. A rental's id is its position in `rentals`; carts are
      keyed by their owner (the schema's unique index on `user`). */
  class Db {
    var products: map<ProductId, Product>
    var rentals: seq<Rental>
    var orders: seq<Order>
    var carts: map<UserId, Cart>
    var users: seq<Account>

    /** Every cart is filed under its own owner, so two owners never share a cart. */
    ghost predicate Valid()
      reads this
    {
      forall u :: u in carts ==> carts[u].user == u
    }

    constructor ()
      ensures Valid()
      ensures products == map[] && rentals == [] && orders == [] && carts == map[] && users == []
    {
      products := map[];
      rentals := [];
      orders := [];
      carts := map[];
      users := [];
    }
  }
}
