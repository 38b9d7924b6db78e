/**
 What holds over whole runs of shop calls: the table invariant, the stock ledger, and
 what a checkout does to carts.
 */
module ShopRuns {
  import opened Wrappers
  import opened Seqs
  import opened Shop

  function Next(): (Db, Op) -> Db {
    (db: Db, op: Op) => Exec(db, op).db
  }

  function Run(db: Db, ops: seq<Op>): Db {
    Fold(Next(), db, ops)
  }

  predicate ValidOps(ops: seq<Op>) {
    forall i :: 0 <= i < |ops| ==> ValidOp(ops[i])
  }

  const EMPTY_DB := Db(Tables(map[], [], map[], [], []), 1, 1, 1)

  // ---------- The table invariant ----------

  predicate ValidProducts(ps: Products) {
    forall id :: id in ps ==> 0 <= ps[id].amount <= INT_MAX
  }

  predicate ValidCart(cart: seq<CartRow>, nextCartId: int) {
    && (forall i :: 0 <= i < |cart| ==> cart[i].id < nextCartId && 1 <= cart[i].quantity <= INT_MAX)
    && (forall i, j :: 0 <= i < j < |cart| ==> cart[i].id < cart[j].id)
    && (forall i, j :: 0 <= i < j < |cart| ==> cart[i].userId != cart[j].userId || cart[i].productId != cart[j].productId)
  }

  function HistoryOf(orderId: int): HistoryRow -> bool {
    (h: HistoryRow) => h.orderId == orderId
  }

  // The recorded trail of an order starts at `Received` and ends at its current status.
  predicate ValidTrail(order: OrderRow, history: seq<HistoryRow>, orderId: int) {
    var trail := Filter(HistoryOf(orderId), history);
    && trail != []
    && trail[0].status == Received
    && trail[|trail| - 1].status == order.status
    && (order.cancelledAt ==> HistoryRow(orderId, Cancelled, order.userId) in history)
  }

  predicate ValidTrails(orders: map<int, OrderRow>, history: seq<HistoryRow>, nextOrderId: int) {
    forall id :: id in orders ==> id < nextOrderId && ValidTrail(orders[id], history, id)
  }

  predicate HistoryOwned(orders: map<int, OrderRow>, history: seq<HistoryRow>) {
    forall i :: 0 <= i < |history| ==> history[i].orderId in orders
  }

  predicate ValidItems(items: seq<ItemRow>, orders: set<int>, products: set<int>) {
    forall i :: 0 <= i < |items| ==> items[i].orderId in orders && items[i].productId in products && items[i].quantity >= 1
  }

  predicate ValidOrders(t: Tables, nextOrderId: int) {
    && ValidTrails(t.orders, t.history, nextOrderId)
    && HistoryOwned(t.orders, t.history)
    && ValidItems(t.items, t.orders.Keys, t.products.Keys)
  }

  predicate Valid(db: Db) {
    && ValidProducts(db.tables.products)
    && (forall id :: id in db.tables.products ==> id < db.nextProductId)
    && ValidCart(db.tables.cart, db.nextCartId)
    && ValidOrders(db.tables, db.nextOrderId)
  }

  // ---------- Every call keeps it ----------

  lemma TrailGrows(history: seq<HistoryRow>, row: HistoryRow, id: int)
    ensures Filter(HistoryOf(id), history + [row]) == Filter(HistoryOf(id), history) + if row.orderId == id then [row] else []
  {
    assert (history + [row])[..|history|] == history;
  }

  lemma KeptTrail(order: OrderRow, history: seq<HistoryRow>, row: HistoryRow, id: int)
    requires ValidTrail(order, history, id) && row.orderId != id
    ensures ValidTrail(order, history + [row], id)
  {
    TrailGrows(history, row, id);
  }

  lemma MovedTrail(before: OrderRow, order: OrderRow, history: seq<HistoryRow>, row: HistoryRow)
    requires ValidTrail(before, history, row.orderId) && order.userId == before.userId && order.status == row.status
    requires order.cancelledAt ==> before.cancelledAt || row == HistoryRow(row.orderId, Cancelled, order.userId)
    ensures ValidTrail(order, history + [row], row.orderId)
  {
    TrailGrows(history, row, row.orderId);
    assert row in history + [row];
  }

  lemma NewTrail(orders: map<int, OrderRow>, order: OrderRow, history: seq<HistoryRow>, row: HistoryRow)
    requires HistoryOwned(orders, history) && row.orderId !in orders
    requires order.status == row.status == Received && !order.cancelledAt
    ensures ValidTrail(order, history + [row], row.orderId)
  {
    TrailGrows(history, row, row.orderId);
    FilterNone(HistoryOf(row.orderId), history);
  }

  // One order gets a new row and a history entry, the others keep theirs.
  lemma TrailsExtended(orders: map<int, OrderRow>, history: seq<HistoryRow>, nextOrderId: int, order: OrderRow, row: HistoryRow)
    requires ValidTrails(orders, history, nextOrderId) && HistoryOwned(orders, history) && row.orderId < nextOrderId
    requires ValidTrail(order, history + [row], row.orderId)
    ensures ValidTrails(orders[row.orderId := order], history + [row], nextOrderId)
    ensures HistoryOwned(orders[row.orderId := order], history + [row])
  {
    var orders' := orders[row.orderId := order];
    forall id | id in orders' ensures id < nextOrderId && ValidTrail(orders'[id], history + [row], id) {
      if id != row.orderId {
        KeptTrail(orders[id], history, row, id);
      }
    }
  }

  lemma StockStays(ps: Products, lines: seq<Line>)
    requires ValidProducts(ps) && WellFormed(lines) && Fulfillable(ps, lines)
    ensures ValidProducts(Sold(ps, lines))
  {
    forall id | id in ps ensures 0 <= Demand(lines, id) <= ps[id].amount {
      DemandOfPrefix(lines, 0, id);
      assert lines[..0] == [];
      if i :| 0 <= i < |lines| && lines[i].productId == id {
        assert Demand(lines, lines[i].productId) <= ps[id].amount;
      }
    }
  }

  lemma ItemsExtended(t: Tables, orderId: int, lines: seq<Line>)
    requires ValidItems(t.items, t.orders.Keys, t.products.Keys) && WellFormed(lines) && Fulfillable(t.products, lines)
    ensures ValidItems(t.items + ItemsFor(t.products, orderId, lines), t.orders.Keys + {orderId}, t.products.Keys)
  {
    var added := ItemsFor(t.products, orderId, lines);
    forall i | 0 <= i < |added| ensures added[i].productId in t.products {
      assert Sellable(t.products, lines[i].productId);
    }
  }

  lemma PlaceKeepsValid(t: Tables, nextOrderId: int, orderId: int, user: int, address: string, lines: seq<Line>)
    requires ValidProducts(t.products) && ValidOrders(t, nextOrderId) && WellFormed(lines)
    requires orderId < nextOrderId && orderId !in t.orders
    requires Place(t, orderId, user, address, lines).Ok?
    ensures var u := Place(t, orderId, user, address, lines).value;
      && ValidProducts(u.products) && u.products.Keys == t.products.Keys && ValidOrders(u, nextOrderId) && u.cart == t.cart
  {
    PlacedIffFulfillable(t.products, lines);
    StockStays(t.products, lines);
    ItemsExtended(t, orderId, lines);
    var order, row := OrderRow(user, address, Received, false), HistoryRow(orderId, Received, user);
    NewTrail(t.orders, order, t.history, row);
    TrailsExtended(t.orders, t.history, nextOrderId, order, row);
    assert t.orders[orderId := order].Keys == t.orders.Keys + {orderId};
  }

  // An earlier row `a` and a later row `b` that could not both be in a cart table.
  function Clash(): (CartRow, CartRow) -> bool {
    (b: CartRow, a: CartRow) => a.id >= b.id || (a.userId == b.userId && a.productId == b.productId)
  }

  lemma CartFiltered(cart: seq<CartRow>, nextCartId: int, p: CartRow -> bool)
    requires ValidCart(cart, nextCartId)
    ensures ValidCart(Filter(p, cart), nextCartId)
  {
    assert Arranged(Clash(), cart);
    FilterArranged(Clash(), p, cart);
    FilterMembers(p, cart);
    var f := Filter(p, cart);
    forall i | 0 <= i < |f| ensures f[i].id < nextCartId && 1 <= f[i].quantity <= INT_MAX {
      assert f[i] in f;
    }
    forall i, j | 0 <= i < j < |f| ensures !Clash()(f[j], f[i]) {
    }
  }

  lemma CartLinesWellFormed(cart: seq<CartRow>, nextCartId: int, user: int)
    requires ValidCart(cart, nextCartId)
    ensures WellFormed(LinesOf(Filter(OwnedBy(user), cart)))
  {
    var rows := Filter(OwnedBy(user), cart);
    FilterMembers(OwnedBy(user), cart);
    forall i | 0 <= i < |rows| ensures LinesOf(rows)[i].quantity >= 1 {
      assert rows[i] in cart;
    }
  }

  lemma CheckoutKeepsValid(db: Db, user: int, address: string)
    requires Valid(db)
    ensures Valid(ExecCheckout(db, user, address).db)
  {
    var t := db.tables;
    var out := ExecCheckout(db, user, address);
    if out.result.Ok? {
      CartLinesWellFormed(t.cart, db.nextCartId, user);
      PlaceKeepsValid(t, out.db.nextOrderId, db.nextOrderId, user, address, LinesOf(Filter(OwnedBy(user), t.cart)));
      CartFiltered(t.cart, db.nextCartId, NotOwnedBy(user));
    }
  }

  lemma StatusKeepsValid(db: Db, row: HistoryRow, order: OrderRow)
    requires Valid(db) && row.orderId in db.tables.orders && row.status == order.status
    requires order.userId == db.tables.orders[row.orderId].userId
    requires order.cancelledAt ==>
      db.tables.orders[row.orderId].cancelledAt || row == HistoryRow(row.orderId, Cancelled, order.userId)
    ensures var t := db.tables;
      Valid(db.(tables := t.(orders := t.orders[row.orderId := order], history := t.history + [row])))
  {
    var t := db.tables;
    MovedTrail(t.orders[row.orderId], order, t.history, row);
    TrailsExtended(t.orders, t.history, db.nextOrderId, order, row);
    assert t.orders[row.orderId := order].Keys == t.orders.Keys;
  }

  lemma CartResized(cart: seq<CartRow>, nextCartId: int, id: int, quantity: int)
    requires ValidCart(cart, nextCartId) && 1 <= quantity <= INT_MAX
    ensures ValidCart(SetQuantity(cart, id, quantity), nextCartId)
  {
  }

  lemma CartExtended(cart: seq<CartRow>, nextCartId: int, row: CartRow)
    requires ValidCart(cart, nextCartId) && row.id == nextCartId && 1 <= row.quantity <= INT_MAX
    requires Find(OfProduct(row.userId, row.productId), cart).None?
    ensures ValidCart(cart + [row], nextCartId + 1)
  {
    forall i | 0 <= i < |cart| ensures cart[i].userId != row.userId || cart[i].productId != row.productId {
      assert cart[i] in cart;
    }
  }

  lemma CartReplaced(db: Db, cart: seq<CartRow>, nextCartId: int)
    requires Valid(db) && ValidCart(cart, nextCartId)
    ensures Valid(db.(tables := db.tables.(cart := cart), nextCartId := nextCartId))
  {
  }

  function AddedCart(cart: seq<CartRow>, nextCartId: int, user: int, productId: int, quantity: int): seq<CartRow> {
    match Find(OfProduct(user, productId), cart)
    case None => cart + [CartRow(nextCartId, user, productId, quantity)]
    case Some(row) => if row.quantity + quantity > INT_MAX then cart else SetQuantity(cart, row.id, row.quantity + quantity)
  }

  lemma NextIdMayGrow(cart: seq<CartRow>, nextCartId: int)
    requires ValidCart(cart, nextCartId)
    ensures ValidCart(cart, nextCartId + 1)
  {
  }

  lemma QuantityAtLeastOne(cart: seq<CartRow>, nextCartId: int, row: CartRow)
    requires ValidCart(cart, nextCartId) && row in cart
    ensures row.quantity >= 1
  {
  }

  lemma AddedCartIsValid(cart: seq<CartRow>, nextCartId: int, user: int, productId: int, quantity: int)
    requires ValidCart(cart, nextCartId) && 1 <= quantity <= INT_MAX
    ensures ValidCart(AddedCart(cart, nextCartId, user, productId, quantity), nextCartId + 1)
  {
    match Find(OfProduct(user, productId), cart)
    case None =>
      CartExtended(cart, nextCartId, CartRow(nextCartId, user, productId, quantity));
    case Some(row) =>
      NextIdMayGrow(cart, nextCartId);
      QuantityAtLeastOne(cart, nextCartId, row);
      if row.quantity + quantity <= INT_MAX {
        CartResized(cart, nextCartId + 1, row.id, row.quantity + quantity);
      }
  }

  lemma AddCartCases(db: Db, user: int, productId: int, quantity: int)
    ensures var u := ExecAddCart(db, user, productId, quantity).db;
      || u == db
      || (&& LineError(db.tables.products, Line(productId, quantity)).None?
          && u == db.(tables := db.tables.(cart := AddedCart(db.tables.cart, db.nextCartId, user, productId, quantity)),
                      nextCartId := db.nextCartId + 1))
  {
  }

  lemma AddCartKeepsValid(db: Db, user: int, productId: int, quantity: int)
    requires Valid(db) && quantity >= 1
    ensures Valid(ExecAddCart(db, user, productId, quantity).db)
  {
    AddCartCases(db, user, productId, quantity);
    if ExecAddCart(db, user, productId, quantity).db != db {
      AddedCartIsValid(db.tables.cart, db.nextCartId, user, productId, quantity);
      CartReplaced(db, AddedCart(db.tables.cart, db.nextCartId, user, productId, quantity), db.nextCartId + 1);
    }
  }

  lemma OrderKeepsValid(db: Db, user: int, address: string, lines: seq<Line>)
    requires Valid(db) && WellFormed(lines)
    ensures Valid(ExecOrder(db, user, address, lines).db)
  {
    if ExecOrder(db, user, address, lines).result.Ok? {
      PlaceKeepsValid(db.tables, db.nextOrderId + 1, db.nextOrderId, user, address, lines);
    }
  }

  lemma ProductCallKeepsValid(db: Db, op: Op)
    requires op.AdminCreateProduct? || op.AdminUpdateProduct? || op.AdminDeleteProduct?
    requires Valid(db) && ValidOp(op)
    ensures Valid(Exec(db, op).db)
  {
  }

  lemma ExecKeepsValid(db: Db, op: Op)
    requires Valid(db) && ValidOp(op)
    ensures Valid(Exec(db, op).db)
  {
    match op
    case CreateOrder(user, address, lines) => OrderKeepsValid(db, user, address, lines);
    case CheckoutCart(user, address) => CheckoutKeepsValid(db, user, address);
    case CancelOrder(user, orderId) =>
      if Exec(db, op).result.Ok? {
        StatusKeepsValid(db, HistoryRow(orderId, Cancelled, user),
                         db.tables.orders[orderId].(status := Cancelled, cancelledAt := true));
      }
    case AdminUpdateOrderStatus(admin, orderId, status) =>
      if Exec(db, op).result.Ok? {
        StatusKeepsValid(db, HistoryRow(orderId, status, admin), db.tables.orders[orderId].(status := status));
      }
    case AdminCreateProduct(_, _) => ProductCallKeepsValid(db, op);
    case AdminUpdateProduct(_, _, _, _) => ProductCallKeepsValid(db, op);
    case AdminDeleteProduct(_) => ProductCallKeepsValid(db, op);
    case AddCartItem(user, productId, quantity) => AddCartKeepsValid(db, user, productId, quantity);
    case UpdateCartItem(user, cartId, quantity) =>
      if Exec(db, op).result.Ok? {
        CartResized(db.tables.cart, db.nextCartId, cartId, quantity);
      }
    case DeleteCartItem(user, cartId) => CartFiltered(db.tables.cart, db.nextCartId, OtherThan(user, cartId));
  }

  /** A refused call leaves every table as it was; only identity counters may have moved on. */
  lemma RefusedCallChangesNothing(db: Db, op: Op)
    requires Exec(db, op).result.Err?
    ensures Exec(db, op).db.tables == db.tables
  {
  }

  lemma {:induction false} RunKeepsValid(db: Db, ops: seq<Op>)
    requires Valid(db) && ValidOps(ops)
    ensures Valid(Run(db, ops))
  {
    if ops != [] {
      var n := |ops| - 1;
      RunKeepsValid(db, ops[..n]);
      ExecKeepsValid(Run(db, ops[..n]), ops[n]);
    }
  }

  // ---------- The stock ledger ----------

  function Shipped(items: seq<ItemRow>, id: int): int {
    if items == [] then 0
    else
      var n := |items| - 1;
      Shipped(items[..n], id) + if items[n].productId == id then items[n].quantity else 0
  }

  // The call fixes the stock of product `id` at `amount`.
  predicate SetsAmount(db: Db, op: Op, id: int, amount: int) {
    && Exec(db, op).result.Ok?
    && match op
       case AdminCreateProduct(a, _) => id == db.nextProductId && a == amount
       case AdminUpdateProduct(i, a, _, _) => i == id && a == Some(amount)
       case _ => false
  }

  predicate LeavesAmount(db: Db, op: Op, id: int) {
    op.AdminUpdateProduct? && op.id == id && op.newAmount.Some? ==> Exec(db, op).result.Err?
  }

  predicate NeverSet(db: Db, ops: seq<Op>, id: int) {
    forall i :: 0 <= i < |ops| ==> LeavesAmount(Run(db, ops[..i]), ops[i], id)
  }

  lemma {:induction false} ShippedConcat(a: seq<ItemRow>, b: seq<ItemRow>, id: int)
    ensures Shipped(a + b, id) == Shipped(a, id) + Shipped(b, id)
  {
    if b == [] {
      assert a + b == a;
    } else {
      ShippedConcat(a, b[..|b| - 1], id);
      assert (a + b)[..|a + b| - 1] == a + b[..|b| - 1];
    }
  }

  lemma {:induction false} ShippedByOrder(ps: Products, orderId: int, lines: seq<Line>, id: int)
    ensures Shipped(ItemsFor(ps, orderId, lines), id) == Demand(lines, id)
  {
    if lines != [] {
      var n := |lines| - 1;
      ShippedByOrder(ps, orderId, lines[..n], id);
      assert ItemsFor(ps, orderId, lines)[..n] == ItemsFor(ps, orderId, lines[..n]);
    }
  }

  // What is left of the product plus what was ever ordered of it stays the same, and no order line goes.
  predicate Balances(t: Tables, u: Tables, id: int)
    requires id in t.products
  {
    && t.items <= u.items && id in u.products
    && u.products[id].amount + Shipped(u.items, id) == t.products[id].amount + Shipped(t.items, id)
  }

  lemma PlaceBalances(t: Tables, orderId: int, user: int, address: string, lines: seq<Line>, id: int)
    requires WellFormed(lines) && id in t.products && Place(t, orderId, user, address, lines).Ok?
    ensures Balances(t, Place(t, orderId, user, address, lines).value, id)
  {
    PlacedIffFulfillable(t.products, lines);
    ShippedConcat(t.items, ItemsFor(t.products, orderId, lines), id);
    ShippedByOrder(t.products, orderId, lines, id);
  }

  lemma CheckoutBalances(db: Db, user: int, address: string, id: int)
    requires Valid(db) && id in db.tables.products
    ensures Balances(db.tables, ExecCheckout(db, user, address).db.tables, id)
  {
    if ExecCheckout(db, user, address).result.Ok? {
      CartLinesWellFormed(db.tables.cart, db.nextCartId, user);
      PlaceBalances(db.tables, db.nextOrderId, user, address, LinesOf(Filter(OwnedBy(user), db.tables.cart)), id);
    }
  }

  // The other calls sell nothing.
  lemma SameItems(db: Db, op: Op, id: int)
    requires !op.CreateOrder? && !op.CheckoutCart?
    requires Valid(db) && id in db.tables.products && LeavesAmount(db, op, id)
    ensures var t, u := db.tables, Exec(db, op).db.tables;
      u.items == t.items && id in u.products && u.products[id].amount == t.products[id].amount
  {
  }

  lemma ExecBalances(db: Db, op: Op, id: int)
    requires Valid(db) && ValidOp(op) && id in db.tables.products && LeavesAmount(db, op, id)
    ensures Balances(db.tables, Exec(db, op).db.tables, id)
  {
    match op
    case CreateOrder(user, address, lines) =>
      if Exec(db, op).result.Ok? {
        PlaceBalances(db.tables, db.nextOrderId, user, address, lines, id);
      }
    case CheckoutCart(user, address) => CheckoutBalances(db, user, address, id);
    case _ => SameItems(db, op, id);
  }

  lemma NeverSetPrefix(db: Db, ops: seq<Op>, id: int)
    requires ops != [] && NeverSet(db, ops, id)
    ensures NeverSet(db, ops[..|ops| - 1], id) && LeavesAmount(Run(db, ops[..|ops| - 1]), ops[|ops| - 1], id)
  {
    var init := ops[..|ops| - 1];
    forall i | 0 <= i < |init| ensures LeavesAmount(Run(db, init[..i]), init[i], id) {
      assert init[..i] == ops[..i];
    }
  }

  lemma BalancesAdd(t: Tables, u: Tables, v: Tables, id: int)
    requires id in t.products && Balances(t, u, id) && Balances(u, v, id)
    ensures Balances(t, v, id)
  {
  }

  lemma {:induction false} RunBalances(db: Db, ops: seq<Op>, id: int)
    requires Valid(db) && ValidOps(ops) && id in db.tables.products && NeverSet(db, ops, id)
    ensures Balances(db.tables, Run(db, ops).tables, id)
  {
    if ops != [] {
      var n := |ops| - 1;
      NeverSetPrefix(db, ops, id);
      RunBalances(db, ops[..n], id);
      RunKeepsValid(db, ops[..n]);
      ExecBalances(Run(db, ops[..n]), ops[n], id);
      BalancesAdd(db.tables, Run(db, ops[..n]).tables, Run(db, ops).tables, id);
    }
  }

  lemma ShippedSince(a: seq<ItemRow>, b: seq<ItemRow>, id: int)
    requires a <= b
    ensures Shipped(b[|a|..], id) == Shipped(b, id) - Shipped(a, id)
  {
    assert b == a + b[|a|..];
    ShippedConcat(a, b[|a|..], id);
  }

  /**
   From the moment an administrator fixes a product's stock at `amount`, what is left
   plus every line ordered since is `amount`, whatever mix of calls follows, and what
   is left is never negative.
   */
  lemma StockLedger(before: seq<Op>, op: Op, after: seq<Op>, id: int, amount: int)
    requires ValidOps(before) && ValidOp(op) && ValidOps(after)
    requires SetsAmount(Run(EMPTY_DB, before), op, id, amount)
    requires NeverSet(Exec(Run(EMPTY_DB, before), op).db, after, id)
    ensures var db := Exec(Run(EMPTY_DB, before), op).db;
      var t := Run(db, after).tables;
      && db.tables.items <= t.items
      && id in t.products
      && t.products[id].amount + Shipped(t.items[|db.tables.items|..], id) == amount
      && t.products[id].amount >= 0
  {
    RunKeepsValid(EMPTY_DB, before);
    ExecKeepsValid(Run(EMPTY_DB, before), op);
    var db := Exec(Run(EMPTY_DB, before), op).db;
    RunBalances(db, after, id);
    RunKeepsValid(db, after);
    ShippedSince(db.tables.items, Run(db, after).tables.items, id);
  }

  // ---------- Checkout ----------

  lemma {:induction false} DemandOfAbsent(lines: seq<Line>, id: int)
    requires forall j :: 0 <= j < |lines| ==> lines[j].productId != id
    ensures Demand(lines, id) == 0
  {
    if lines != [] {
      DemandOfAbsent(lines[..|lines| - 1], id);
    }
  }

  lemma {:induction false} DemandOfDistinct(lines: seq<Line>, i: nat)
    requires i < |lines|
    requires forall j, k :: 0 <= j < k < |lines| ==> lines[j].productId != lines[k].productId
    ensures Demand(lines, lines[i].productId) == lines[i].quantity
  {
    var n := |lines| - 1;
    if i < n {
      DemandOfDistinct(lines[..n], i);
    } else {
      DemandOfAbsent(lines[..n], lines[n].productId);
    }
  }

  lemma {:induction false} CartDemand(cart: seq<CartRow>, nextCartId: int, user: int, i: nat)
    requires ValidCart(cart, nextCartId)
    requires i < |Filter(OwnedBy(user), cart)|
    ensures var rows := Filter(OwnedBy(user), cart);
      Demand(LinesOf(rows), rows[i].productId) == rows[i].quantity
  {
    CartFiltered(cart, nextCartId, OwnedBy(user));
    FilterMembers(OwnedBy(user), cart);
    var rows := Filter(OwnedBy(user), cart);
    forall k | 0 <= k < |rows| ensures rows[k].userId == user {
      assert rows[k] in rows;
    }
    DemandOfDistinct(LinesOf(rows), i);
  }

  /** A checkout succeeds exactly when the cart holds something and each of its rows, on its own, is still in stock. */
  lemma CheckoutSucceedsIff(db: Db, user: int, address: string)
    requires Valid(db)
    ensures var rows := Filter(OwnedBy(user), db.tables.cart);
      Exec(db, CheckoutCart(user, address)).result.Ok? <==>
      rows != [] && forall i :: 0 <= i < |rows| ==>
        Sellable(db.tables.products, rows[i].productId) && rows[i].quantity <= db.tables.products[rows[i].productId].amount
  {
    var rows := Filter(OwnedBy(user), db.tables.cart);
    CartLinesWellFormed(db.tables.cart, db.nextCartId, user);
    PlacedIffFulfillable(db.tables.products, LinesOf(rows));
    forall i | 0 <= i < |rows|
      ensures Demand(LinesOf(rows), LinesOf(rows)[i].productId) == rows[i].quantity
    {
      CartDemand(db.tables.cart, db.nextCartId, user, i);
    }
    if Fulfillable(db.tables.products, LinesOf(rows)) {
      forall i | 0 <= i < |rows|
        ensures Sellable(db.tables.products, rows[i].productId) && rows[i].quantity <= db.tables.products[rows[i].productId].amount
      {
        assert LinesOf(rows)[i].productId == rows[i].productId;
      }
    }
  }

  /** A successful checkout turns the user's cart, row by row and at current prices, into the new order's lines. */
  lemma CheckoutMakesLines(db: Db, user: int, address: string)
    requires Valid(db) && Exec(db, CheckoutCart(user, address)).result.Ok?
    ensures var t, u := db.tables, Exec(db, CheckoutCart(user, address)).db.tables;
      var rows := Filter(OwnedBy(user), t.cart);
      && u.items == t.items + u.items[|t.items|..] && |u.items| == |t.items| + |rows|
      && forall i :: 0 <= i < |rows| ==>
           && rows[i].productId in t.products
           && u.items[|t.items| + i]
              == ItemRow(db.nextOrderId, rows[i].productId, rows[i].quantity, t.products[rows[i].productId].price)
  {
    var rows := Filter(OwnedBy(user), db.tables.cart);
    CartLinesWellFormed(db.tables.cart, db.nextCartId, user);
    PlacedIffFulfillable(db.tables.products, LinesOf(rows));
    assert Fulfillable(db.tables.products, LinesOf(rows));
    forall i | 0 <= i < |rows| ensures rows[i].productId in db.tables.products {
      assert LinesOf(rows)[i].productId == rows[i].productId;
    }
  }

  lemma CartsAfterCheckout(cart: seq<CartRow>, user: int, other: int)
    ensures Filter(OwnedBy(user), Filter(NotOwnedBy(user), cart)) == []
    ensures other != user ==> Filter(OwnedBy(other), Filter(NotOwnedBy(user), cart)) == Filter(OwnedBy(other), cart)
  {
    FilterMembers(NotOwnedBy(user), cart);
    var rest := Filter(NotOwnedBy(user), cart);
    assert forall i :: 0 <= i < |rest| ==> rest[i] in rest;
    FilterNone(OwnedBy(user), rest);
    if other != user {
      FilterFilter(OwnedBy(other), NotOwnedBy(user), OwnedBy(other), cart);
    }
  }

  /** It empties that user's cart and touches no other. */
  lemma CheckoutEmptiesCart(db: Db, user: int, address: string, other: int)
    requires Exec(db, CheckoutCart(user, address)).result.Ok?
    ensures var t, u := db.tables, Exec(db, CheckoutCart(user, address)).db.tables;
      && Filter(OwnedBy(user), u.cart) == []
      && (other != user ==> Filter(OwnedBy(other), u.cart) == Filter(OwnedBy(other), t.cart))
  {
    CartsAfterCheckout(db.tables.cart, user, other);
  }

  /**
   Adding to a cart checks the increment against stock, not the row it grows: two
   additions are each accepted and the cart they leave can no longer be checked out.
   */
  lemma AcceptedCartMayNotCheckOut()
    ensures var db0 := Run(EMPTY_DB, [AdminCreateProduct(5, 1.0)]);
      var db1 := Exec(db0, AddCartItem(7, 1, 3));
      var db2 := Exec(db1.db, AddCartItem(7, 1, 3));
      && db1.result.Ok? && db2.result.Ok?
      && Exec(db2.db, CheckoutCart(7, "home")).result == Err(InsufficientAmount(1))
  {
    var ops := [AdminCreateProduct(5, 1.0)];
    assert ops[..0] == [];
    var db0 := Run(EMPTY_DB, ops);
    assert db0 == Exec(EMPTY_DB, ops[0]).db;
    var db1 := Exec(db0, AddCartItem(7, 1, 3)).db;
    assert db1.tables.cart == [CartRow(1, 7, 1, 3)];
    assert db1.tables.cart[..0] == [];
    var db2 := Exec(db1, AddCartItem(7, 1, 3)).db;
    assert db2.tables.cart == [CartRow(1, 7, 1, 6)];
    assert db2.tables.cart[..0] == [];
    assert Filter(OwnedBy(7), db2.tables.cart) == [CartRow(1, 7, 1, 6)];
    var lines := LinesOf(Filter(OwnedBy(7), db2.tables.cart));
    assert lines == [Line(1, 6)] && lines[..0] == [];
    assert RunLines(db2.tables.products, lines[..0]) == Ok(db2.tables.products);
  }
}
