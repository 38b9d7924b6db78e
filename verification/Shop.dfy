/**
 The catalogue, cart and order tables of the Kayan service and what each service call
 does to them, as a function from tables to tables.

 An order is placed line by line: each line reads the stock the earlier lines left, so
 the code's verdict is about running stock.  `PlacedIffFulfillable` shows that verdict
 to be the aggregate one: every product is live, and no product is asked for more, over
 all its lines together, than it has.
 */
module Shop {
  import opened Wrappers
  import opened Seqs

  // ---------- Tables ----------

  datatype Product = Product(amount: int, price: real, active: bool, deleted: bool)
  type Products = map<int, Product>

  datatype Line = Line(productId: int, quantity: int)
  datatype CartRow = CartRow(id: int, userId: int, productId: int, quantity: int)

  datatype OrderStatus = Received | ReadyToShip | OnTheWay | Cancelled | Delivered
  datatype OrderRow = OrderRow(userId: int, address: string, status: OrderStatus, cancelledAt: bool)
  datatype ItemRow = ItemRow(orderId: int, productId: int, quantity: int, unitPrice: real)
  datatype HistoryRow = HistoryRow(orderId: int, status: OrderStatus, changedBy: int)

  // `cart`, `items` and `history` list their rows in creation order, which is the order every query reads them in.
  datatype Tables = Tables(products: Products, cart: seq<CartRow>, orders: map<int, OrderRow>,
                           items: seq<ItemRow>, history: seq<HistoryRow>)

  // Identity counters live outside the tables because a rollback does not restore them.
  datatype Db = Db(tables: Tables, nextProductId: int, nextCartId: int, nextOrderId: int)

  datatype Error =
    | EmptyOrder
    | EmptyCart
    | InvalidProduct(id: int)
    | InsufficientAmount(id: int)
    | NotFound
    | ProcessingStarted
    | OutOfRange

  // Stock and cart quantities are 32-bit INTEGER columns.
  const INT_MAX := 0x7FFF_FFFF

  // ---------- Placing an order, line by line ----------

  predicate Sellable(ps: Products, id: int) {
    id in ps && !ps[id].deleted && ps[id].active
  }

  function LineError(ps: Products, line: Line): Option<Error> {
    if !Sellable(ps, line.productId) then Some(InvalidProduct(line.productId))
    else if ps[line.productId].amount < line.quantity then Some(InsufficientAmount(line.productId))
    else None
  }

  function Decrement(ps: Products, line: Line): Products
    requires line.productId in ps
  {
    ps[line.productId := ps[line.productId].(amount := ps[line.productId].amount - line.quantity)]
  }

  // The stock after all lines, or the error of the first line that the running stock refuses.
  function RunLines(ps: Products, lines: seq<Line>): Result<Products, Error> {
    if lines == [] then Ok(ps)
    else
      var n := |lines| - 1;
      match RunLines(ps, lines[..n])
      case Err(e) => Err(e)
      case Ok(qs) =>
        match LineError(qs, lines[n])
        case Some(e) => Err(e)
        case None => Ok(Decrement(qs, lines[n]))
  }

  // ---------- What a whole order asks for ----------

  function Demand(lines: seq<Line>, id: int): int {
    if lines == [] then 0
    else
      var n := |lines| - 1;
      Demand(lines[..n], id) + if lines[n].productId == id then lines[n].quantity else 0
  }

  predicate WellFormed(lines: seq<Line>) {
    forall i :: 0 <= i < |lines| ==> lines[i].quantity >= 1
  }

  predicate Fulfillable(ps: Products, lines: seq<Line>) {
    forall i :: 0 <= i < |lines| ==>
      Sellable(ps, lines[i].productId) && Demand(lines, lines[i].productId) <= ps[lines[i].productId].amount
  }

  function Sold(ps: Products, lines: seq<Line>): Products {
    map id | id in ps :: ps[id].(amount := ps[id].amount - Demand(lines, id))
  }

  function PriceOf(ps: Products, id: int): real {
    if id in ps then ps[id].price else 0.0
  }

  function ItemsFor(ps: Products, orderId: int, lines: seq<Line>): (r: seq<ItemRow>)
    ensures |r| == |lines|
    ensures forall i :: 0 <= i < |lines| ==>
      r[i] == ItemRow(orderId, lines[i].productId, lines[i].quantity, PriceOf(ps, lines[i].productId))
  {
    seq(|lines|, i requires 0 <= i < |lines| =>
      ItemRow(orderId, lines[i].productId, lines[i].quantity, PriceOf(ps, lines[i].productId)))
  }

  // ---------- Running stock against aggregate demand ----------

  lemma {:induction false} DemandOfPrefix(lines: seq<Line>, k: nat, id: int)
    requires WellFormed(lines) && k <= |lines|
    ensures 0 <= Demand(lines[..k], id) <= Demand(lines, id)
    ensures (forall i :: 0 <= i < |lines| ==> lines[i].productId != id) ==> Demand(lines, id) == 0
    ensures forall i :: 0 <= i < |lines| && lines[i].productId == id ==> lines[i].quantity <= Demand(lines, id)
  {
    if lines != [] {
      var n := |lines| - 1;
      DemandOfPrefix(lines[..n], if k <= n then k else n, id);
      if k <= n {
        assert lines[..n][..k] == lines[..k];
      } else {
        assert lines[..k] == lines;
      }
    } else {
      assert lines[..k] == lines;
    }
  }

  lemma FulfillablePrefix(ps: Products, lines: seq<Line>, k: nat)
    requires WellFormed(lines) && k <= |lines| && Fulfillable(ps, lines)
    ensures Fulfillable(ps, lines[..k])
  {
    forall i | 0 <= i < k
      ensures Sellable(ps, lines[..k][i].productId)
      ensures Demand(lines[..k], lines[..k][i].productId) <= ps[lines[..k][i].productId].amount
    {
      DemandOfPrefix(lines, k, lines[i].productId);
    }
  }

  /** The line-by-line check succeeds exactly when the aggregate demand fits, and then leaves the aggregate stock. */
  lemma {:induction false} PlacedIffFulfillable(ps: Products, lines: seq<Line>)
    requires WellFormed(lines)
    ensures RunLines(ps, lines).Ok? <==> Fulfillable(ps, lines)
    ensures RunLines(ps, lines).Ok? ==> RunLines(ps, lines).value == Sold(ps, lines)
  {
    if lines == [] {
      assert Sold(ps, lines) == ps;
    } else {
      var n := |lines| - 1;
      var last := lines[n];
      PlacedIffFulfillable(ps, lines[..n]);
      DemandOfPrefix(lines[..n], n, last.productId);
      if Fulfillable(ps, lines) {
        FulfillablePrefix(ps, lines, n);
        assert Sellable(ps, last.productId);
      }
      if RunLines(ps, lines).Ok? {
        assert LineError(Sold(ps, lines[..n]), last) == None;
        assert Decrement(Sold(ps, lines[..n]), last) == Sold(ps, lines);
        forall i | 0 <= i < |lines|
          ensures Sellable(ps, lines[i].productId)
          ensures Demand(lines, lines[i].productId) <= ps[lines[i].productId].amount
        {
          if i < n {
            assert lines[..n][i] == lines[i];
          }
        }
      }
    }
  }

  // ---------- The order of the lines is immaterial ----------

  function Without(lines: seq<Line>, k: nat): seq<Line>
    requires k < |lines|
  {
    lines[..k] + lines[k + 1..]
  }

  lemma {:induction false} DemandWithout(lines: seq<Line>, k: nat, id: int)
    requires k < |lines|
    ensures Demand(lines, id) == Demand(Without(lines, k), id) + if lines[k].productId == id then lines[k].quantity else 0
  {
    var n := |lines| - 1;
    if k < n {
      DemandWithout(lines[..n], k, id);
      assert Without(lines, k) == Without(lines[..n], k) + [lines[n]];
      assert Without(lines, k)[..n - 1] == Without(lines[..n], k);
    } else {
      assert Without(lines, k) == lines[..n];
    }
  }

  lemma {:induction false} DemandOfPermutation(a: seq<Line>, b: seq<Line>, id: int)
    requires multiset(a) == multiset(b)
    ensures Demand(a, id) == Demand(b, id)
    decreases |a|
  {
    assert |a| == |multiset(a)| && |b| == |multiset(b)|;
    if a != [] {
      var n := |a| - 1;
      assert a[n] in multiset(a);
      var k: nat :| k < |b| && b[k] == a[n];
      assert a == a[..n] + [a[n]];
      assert b == b[..k] + [b[k]] + b[k + 1..];
      assert multiset(Without(b, k)) == multiset(b) - multiset{b[k]};
      DemandOfPermutation(a[..n], Without(b, k), id);
      DemandWithout(b, k, id);
    }
  }

  lemma FulfillablePermuted(ps: Products, a: seq<Line>, b: seq<Line>)
    requires multiset(a) == multiset(b) && Fulfillable(ps, a)
    ensures Fulfillable(ps, b)
  {
    forall i | 0 <= i < |b|
      ensures Sellable(ps, b[i].productId) && Demand(b, b[i].productId) <= ps[b[i].productId].amount
    {
      assert b[i] in multiset(b);
      var k :| 0 <= k < |a| && a[k] == b[i];
      DemandOfPermutation(a, b, b[i].productId);
    }
  }

  /** Listing the same lines in another order gives the same verdict and the same stock. */
  lemma LineOrderImmaterial(ps: Products, a: seq<Line>, b: seq<Line>)
    requires multiset(a) == multiset(b) && WellFormed(a) && WellFormed(b)
    ensures RunLines(ps, a).Ok? <==> RunLines(ps, b).Ok?
    ensures RunLines(ps, a).Ok? ==> RunLines(ps, a).value == RunLines(ps, b).value
  {
    PlacedIffFulfillable(ps, a);
    PlacedIffFulfillable(ps, b);
    if Fulfillable(ps, a) {
      FulfillablePermuted(ps, a, b);
    }
    if Fulfillable(ps, b) {
      FulfillablePermuted(ps, b, a);
    }
    forall id ensures Demand(a, id) == Demand(b, id) {
      DemandOfPermutation(a, b, id);
    }
    assert Sold(ps, a) == Sold(ps, b);
  }

  // ---------- Service calls ----------

  datatype Op =
    | CreateOrder(user: int, address: string, lines: seq<Line>)
    | CheckoutCart(user: int, address: string)
    | AddCartItem(user: int, productId: int, quantity: int)
    | UpdateCartItem(user: int, cartId: int, quantity: int)
    | DeleteCartItem(user: int, cartId: int)
    | CancelOrder(user: int, orderId: int)
    | AdminUpdateOrderStatus(admin: int, orderId: int, status: OrderStatus)
    | AdminCreateProduct(amount: int, price: real)
    | AdminUpdateProduct(id: int, newAmount: Option<int>, newPrice: Option<real>, active: Option<bool>)
    | AdminDeleteProduct(id: int)

  // What request validation guarantees about the arguments.
  predicate ValidOp(op: Op) {
    match op
    case CreateOrder(_, _, lines) => WellFormed(lines)
    case AddCartItem(_, _, q) => q >= 1
    case UpdateCartItem(_, _, q) => q >= 1
    case AdminCreateProduct(a, _) => a >= 0
    case AdminUpdateProduct(_, a, _, _) => a.Some? ==> a.value >= 0
    case _ => true
  }

  // The order insert, its lines, the decrements and the first history row, as one transaction leaves them.
  function Place(t: Tables, orderId: int, user: int, address: string, lines: seq<Line>): Result<Tables, Error> {
    match RunLines(t.products, lines)
    case Err(e) => Err(e)
    case Ok(ps) =>
      Ok(t.(products := ps,
            orders := t.orders[orderId := OrderRow(user, address, Received, false)],
            items := t.items + ItemsFor(t.products, orderId, lines),
            history := t.history + [HistoryRow(orderId, Received, user)]))
  }

  // ---------- Cart queries ----------

  function OwnedBy(user: int): CartRow -> bool {
    (r: CartRow) => r.userId == user
  }

  function NotOwnedBy(user: int): CartRow -> bool {
    (r: CartRow) => r.userId != user
  }

  function OfProduct(user: int, productId: int): CartRow -> bool {
    (r: CartRow) => r.userId == user && r.productId == productId
  }

  function WithId(user: int, id: int): CartRow -> bool {
    (r: CartRow) => r.id == id && r.userId == user
  }

  function OtherThan(user: int, id: int): CartRow -> bool {
    (r: CartRow) => !(r.id == id && r.userId == user)
  }

  function SetQuantity(cart: seq<CartRow>, id: int, quantity: int): (r: seq<CartRow>)
    ensures |r| == |cart|
    ensures forall i :: 0 <= i < |cart| ==> r[i] == if cart[i].id == id then cart[i].(quantity := quantity) else cart[i]
  {
    seq(|cart|, i requires 0 <= i < |cart| => if cart[i].id == id then cart[i].(quantity := quantity) else cart[i])
  }

  function LinesOf(rows: seq<CartRow>): (r: seq<Line>)
    ensures |r| == |rows|
    ensures forall i :: 0 <= i < |rows| ==> r[i] == Line(rows[i].productId, rows[i].quantity)
  {
    seq(|rows|, i requires 0 <= i < |rows| => Line(rows[i].productId, rows[i].quantity))
  }

  // ---------- What each call does ----------

  datatype Outcome = Outcome(db: Db, result: Result<(), Error>)

  function Commit(db: Db, t: Result<Tables, Error>): Outcome {
    match t
    case Err(e) => Outcome(db, Err(e))
    case Ok(u) => Outcome(db.(tables := u), Ok(()))
  }

  function ExecOrder(db: Db, user: int, address: string, lines: seq<Line>): Outcome {
    if lines == [] then Outcome(db, Err(EmptyOrder))
    else Commit(db.(nextOrderId := db.nextOrderId + 1), Place(db.tables, db.nextOrderId, user, address, lines))
  }

  // Checking out on given tables: the user's rows become the lines, and then leave the cart.
  function CheckOut(t: Tables, orderId: int, user: int, address: string): Result<Tables, Error> {
    match Place(t, orderId, user, address, LinesOf(Filter(OwnedBy(user), t.cart)))
    case Err(e) => Err(e)
    case Ok(u) => Ok(u.(cart := Filter(NotOwnedBy(user), u.cart)))
  }

  function ExecCheckout(db: Db, user: int, address: string): Outcome {
    if Filter(OwnedBy(user), db.tables.cart) == [] then Outcome(db, Err(EmptyCart))
    else Commit(db.(nextOrderId := db.nextOrderId + 1), CheckOut(db.tables, db.nextOrderId, user, address))
  }

  // The stock check sees the increment only; the upsert then adds it to the row that is there.
  function ExecAddCart(db: Db, user: int, productId: int, quantity: int): Outcome {
    var t := db.tables;
    var db' := db.(nextCartId := db.nextCartId + 1);
    match LineError(t.products, Line(productId, quantity))
    case Some(e) => Outcome(db, Err(e))
    case None =>
      match Find(OfProduct(user, productId), t.cart)
      case None =>
        Commit(db', Ok(t.(cart := t.cart + [CartRow(db.nextCartId, user, productId, quantity)])))
      case Some(row) =>
        Commit(db', if row.quantity + quantity > INT_MAX then Err(OutOfRange)
                    else Ok(t.(cart := SetQuantity(t.cart, row.id, row.quantity + quantity))))
  }

  function ExecUpdateCart(db: Db, user: int, cartId: int, quantity: int): Outcome {
    var t := db.tables;
    match Find(WithId(user, cartId), t.cart)
    case None => Outcome(db, Err(NotFound))
    case Some(row) =>
      match LineError(t.products, Line(row.productId, quantity))
      case Some(e) => Outcome(db, Err(e))
      case None => Commit(db, Ok(t.(cart := SetQuantity(t.cart, cartId, quantity))))
  }

  function ExecDeleteCart(db: Db, user: int, cartId: int): Outcome {
    var t := db.tables;
    if Find(WithId(user, cartId), t.cart).None? then Outcome(db, Err(NotFound))
    else Commit(db, Ok(t.(cart := Filter(OtherThan(user, cartId), t.cart))))
  }

  // Cancelling changes the order only: its lines stay and nothing is restocked.
  function ExecCancel(db: Db, user: int, orderId: int): Outcome {
    var t := db.tables;
    if orderId !in t.orders || t.orders[orderId].userId != user then Outcome(db, Err(NotFound))
    else if t.orders[orderId].status != Received then Outcome(db, Err(ProcessingStarted))
    else
      Commit(db, Ok(t.(orders := t.orders[orderId := t.orders[orderId].(status := Cancelled, cancelledAt := true)],
                       history := t.history + [HistoryRow(orderId, Cancelled, user)])))
  }

  // An administrator may set any status from any status.
  function ExecSetStatus(db: Db, admin: int, orderId: int, status: OrderStatus): Outcome {
    var t := db.tables;
    if orderId !in t.orders then Outcome(db, Err(NotFound))
    else
      Commit(db, Ok(t.(orders := t.orders[orderId := t.orders[orderId].(status := status)],
                       history := t.history + [HistoryRow(orderId, status, admin)])))
  }

  function ExecCreateProduct(db: Db, amount: int, price: real): Outcome {
    if amount > INT_MAX then Outcome(db, Err(OutOfRange))
    else
      Commit(db.(nextProductId := db.nextProductId + 1),
             Ok(db.tables.(products := db.tables.products[db.nextProductId := Product(amount, price, true, false)])))
  }

  function ExecUpdateProduct(db: Db, id: int, amount: Option<int>, price: Option<real>, active: Option<bool>): Outcome {
    var ps := db.tables.products;
    if amount.Some? && amount.value > INT_MAX then Outcome(db, Err(OutOfRange))
    else if id !in ps || ps[id].deleted then Outcome(db, Err(NotFound))
    else
      var p := Product(Coalesce(amount, ps[id].amount), Coalesce(price, ps[id].price), Coalesce(active, ps[id].active), false);
      Commit(db, Ok(db.tables.(products := ps[id := p])))
  }

  function ExecDeleteProduct(db: Db, id: int): Outcome {
    var ps := db.tables.products;
    if id !in ps || ps[id].deleted then Outcome(db, Err(NotFound))
    else Commit(db, Ok(db.tables.(products := ps[id := ps[id].(deleted := true)])))
  }

  function Exec(db: Db, op: Op): Outcome {
    match op
    case CreateOrder(user, address, lines) => ExecOrder(db, user, address, lines)
    case CheckoutCart(user, address) => ExecCheckout(db, user, address)
    case AddCartItem(user, productId, quantity) => ExecAddCart(db, user, productId, quantity)
    case UpdateCartItem(user, cartId, quantity) => ExecUpdateCart(db, user, cartId, quantity)
    case DeleteCartItem(user, cartId) => ExecDeleteCart(db, user, cartId)
    case CancelOrder(user, orderId) => ExecCancel(db, user, orderId)
    case AdminUpdateOrderStatus(admin, orderId, status) => ExecSetStatus(db, admin, orderId, status)
    case AdminCreateProduct(amount, price) => ExecCreateProduct(db, amount, price)
    case AdminUpdateProduct(id, amount, price, active) => ExecUpdateProduct(db, id, amount, price, active)
    case AdminDeleteProduct(id) => ExecDeleteProduct(db, id)
  }
}
