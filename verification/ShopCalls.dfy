/**
 What each call of the shop promises its caller: when it succeeds, what it answers
 otherwise, and what every table holds afterwards.
 */
module ShopCalls {
  import opened Wrappers
  import opened Seqs
  import opened Shop
  import opened ShopRuns

  // ---------- Orders ----------

  predicate LinesAdded(t: Tables, items: seq<ItemRow>, orderId: int, lines: seq<Line>) {
    && |items| == |t.items| + |lines| && t.items == items[..|t.items|]
    && forall i :: 0 <= i < |lines| ==>
         && lines[i].productId in t.products
         && items[|t.items| + i] == ItemRow(orderId, lines[i].productId, lines[i].quantity, t.products[lines[i].productId].price)
  }

  predicate StockLowered(ps: Products, qs: Products, lines: seq<Line>) {
    && qs.Keys == ps.Keys
    && forall id :: id in ps ==> qs[id] == ps[id].(amount := ps[id].amount - Demand(lines, id))
  }

  // The order is there with its lines at the prices so far and its first history row, and its products have that much less.
  predicate PlacedAs(t: Tables, u: Tables, orderId: int, user: int, address: string, lines: seq<Line>) {
    && u.orders == t.orders[orderId := OrderRow(user, address, Received, false)]
    && u.history == t.history + [HistoryRow(orderId, Received, user)]
    && LinesAdded(t, u.items, orderId, lines)
    && StockLowered(t.products, u.products, lines)
  }

  // The line that an order is refused for, in terms of the whole demand up to it.
  predicate RefusedFor(ps: Products, lines: seq<Line>, i: nat, e: Error)
    requires i < |lines|
  {
    var id := lines[i].productId;
    && Fulfillable(ps, lines[..i])
    && if id !in ps || ps[id].deleted || !ps[id].active then e == InvalidProduct(id)
       else Demand(lines[..i + 1], id) > ps[id].amount && e == InsufficientAmount(id)
  }

  predicate RefusedForOne(ps: Products, lines: seq<Line>, e: Error) {
    exists i: nat :: i < |lines| && RefusedFor(ps, lines, i, e)
  }

  /** An order is refused for its first line that the stock cannot serve together with the lines before it. */
  lemma {:induction false} RefusedForFirst(ps: Products, lines: seq<Line>) returns (i: nat)
    requires WellFormed(lines) && RunLines(ps, lines).Err?
    ensures i < |lines| && RefusedFor(ps, lines, i, RunLines(ps, lines).error)
  {
    var n := |lines| - 1;
    if RunLines(ps, lines[..n]).Err? {
      i := RefusedForFirst(ps, lines[..n]);
      assert lines[..n][..i] == lines[..i] && lines[..n][..i + 1] == lines[..i + 1];
    } else {
      i := n;
      PlacedIffFulfillable(ps, lines[..n]);
      assert lines[..n + 1] == lines;
    }
  }

  lemma ServedLines(t: Tables, orderId: int, lines: seq<Line>)
    requires Fulfillable(t.products, lines)
    ensures LinesAdded(t, t.items + ItemsFor(t.products, orderId, lines), orderId, lines)
  {
    forall i | 0 <= i < |lines| ensures lines[i].productId in t.products {
      assert Sellable(t.products, lines[i].productId);
    }
  }

  lemma ServedOrder(t: Tables, orderId: int, user: int, address: string, lines: seq<Line>)
    requires WellFormed(lines) && Fulfillable(t.products, lines)
    ensures Place(t, orderId, user, address, lines).Ok?
    ensures PlacedAs(t, Place(t, orderId, user, address, lines).value, orderId, user, address, lines)
    ensures Place(t, orderId, user, address, lines).value.cart == t.cart
  {
    PlacedIffFulfillable(t.products, lines);
    ServedLines(t, orderId, lines);
    assert StockLowered(t.products, Sold(t.products, lines), lines);
  }

  /**
   An order is placed exactly if all its lines together can be served, and then as a whole;
   otherwise one line is to blame.  Its number is drawn either way.
   */
  lemma CreateOrderDoes(db: Db, user: int, address: string, lines: seq<Line>)
    requires WellFormed(lines)
    ensures var out := Exec(db, CreateOrder(user, address, lines));
      && (out.result == Ok(()) <==> lines != [] && Fulfillable(db.tables.products, lines))
      && (out.result.Ok? ==>
            PlacedAs(db.tables, out.db.tables, db.nextOrderId, user, address, lines) && out.db.tables.cart == db.tables.cart)
      && (lines == [] ==> out == Outcome(db, Err(EmptyOrder)))
      && (lines != [] && out.result.Err? ==>
            out.db.tables == db.tables && RefusedForOne(db.tables.products, lines, out.result.error))
      && (lines != [] ==> out.db.nextOrderId == db.nextOrderId + 1)
  {
    PlacedIffFulfillable(db.tables.products, lines);
    if RunLines(db.tables.products, lines).Err? {
      var i := RefusedForFirst(db.tables.products, lines);
    } else {
      ServedOrder(db.tables, db.nextOrderId, user, address, lines);
    }
  }

  /** A checkout does the same with the user's cart rows as lines, and then empties that cart. */
  lemma CheckoutCartDoes(db: Db, user: int, address: string)
    requires Valid(db)
    ensures var out := Exec(db, CheckoutCart(user, address));
      var lines := LinesOf(Filter(OwnedBy(user), db.tables.cart));
      && (out.result == Ok(()) <==> lines != [] && Fulfillable(db.tables.products, lines))
      && (out.result.Ok? ==>
            && PlacedAs(db.tables, out.db.tables, db.nextOrderId, user, address, lines)
            && out.db.tables.cart == Filter(NotOwnedBy(user), db.tables.cart))
      && (lines == [] ==> out == Outcome(db, Err(EmptyCart)))
      && (lines != [] && out.result.Err? ==>
            out.db.tables == db.tables && RefusedForOne(db.tables.products, lines, out.result.error))
      && (lines != [] ==> out.db.nextOrderId == db.nextOrderId + 1)
  {
    var lines := LinesOf(Filter(OwnedBy(user), db.tables.cart));
    CartLinesWellFormed(db.tables.cart, db.nextCartId, user);
    PlacedIffFulfillable(db.tables.products, lines);
    if RunLines(db.tables.products, lines).Err? {
      var i := RefusedForFirst(db.tables.products, lines);
    } else {
      ServedOrder(db.tables, db.nextOrderId, user, address, lines);
    }
  }

  /** A cancellation is for the owner of an order that is still `Received`; it changes that order and its history, and restocks nothing. */
  lemma CancelOrderDoes(db: Db, user: int, orderId: int)
    ensures var t, out := db.tables, Exec(db, CancelOrder(user, orderId));
      var owned := orderId in t.orders && t.orders[orderId].userId == user;
      if owned && t.orders[orderId].status == Received then
        && out.result == Ok(())
        && out.db == db.(tables := t.(orders := t.orders[orderId := OrderRow(user, t.orders[orderId].address, Cancelled, true)],
                                      history := t.history + [HistoryRow(orderId, Cancelled, user)]))
      else out == Outcome(db, Err(if owned then ProcessingStarted else NotFound))
  {
  }

  /** An administrator sets any status of any order, and the history records it. */
  lemma SetOrderStatusDoes(db: Db, admin: int, orderId: int, status: OrderStatus)
    ensures var t, out := db.tables, Exec(db, AdminUpdateOrderStatus(admin, orderId, status));
      if orderId in t.orders then
        var o := t.orders[orderId];
        && out.result == Ok(())
        && out.db == db.(tables := t.(orders := t.orders[orderId := OrderRow(o.userId, o.address, status, o.cancelledAt)],
                                      history := t.history + [HistoryRow(orderId, status, admin)]))
      else out == Outcome(db, Err(NotFound))
  {
  }

  // ---------- Carts ----------

  // One row has another quantity.
  predicate Requantified(before: seq<CartRow>, after: seq<CartRow>, id: int, quantity: int) {
    && |after| == |before|
    && forall i :: 0 <= i < |before| ==>
         after[i] == CartRow(before[i].id, before[i].userId, before[i].productId,
                             if before[i].id == id then quantity else before[i].quantity)
  }

  lemma OnlyRowOfProduct(cart: seq<CartRow>, nextCartId: int, row: CartRow)
    requires ValidCart(cart, nextCartId) && row in cart
    ensures Find(OfProduct(row.userId, row.productId), cart) == Some(row)
    ensures Find(WithId(row.userId, row.id), cart) == Some(row)
  {
    var i :| 0 <= i < |cart| && cart[i] == row;
    var a, b := Find(OfProduct(row.userId, row.productId), cart), Find(WithId(row.userId, row.id), cart);
    var j :| 0 <= j < |cart| && cart[j] == a.value;
    var k :| 0 <= k < |cart| && cart[k] == b.value;
    assert i == j && i == k;
  }

  /** What is on sale in the quantity asked for is added: to the user's row of the product, if there is one. */
  lemma AddCartItemDoes(db: Db, user: int, productId: int, quantity: int)
    ensures var ps, cart := db.tables.products, db.tables.cart;
      var out := Exec(db, AddCartItem(user, productId, quantity));
      if productId !in ps || ps[productId].deleted || !ps[productId].active then
        out.result == Err(InvalidProduct(productId)) && out.db.tables == db.tables
      else if ps[productId].amount < quantity then
        out.result == Err(InsufficientAmount(productId)) && out.db.tables == db.tables
      else
        && ((forall i :: 0 <= i < |cart| ==> cart[i].userId != user || cart[i].productId != productId) ==>
              && out.result == Ok(())
              && out.db.tables == db.tables.(cart := cart + [CartRow(db.nextCartId, user, productId, quantity)]))
        && (forall row :: row in cart && row.userId == user && row.productId == productId && ValidCart(cart, db.nextCartId) ==>
              if row.quantity + quantity > 0x7FFF_FFFF then out.result == Err(OutOfRange) && out.db.tables == db.tables
              else
                && out.result == Ok(())
                && out.db.tables == db.tables.(cart := out.db.tables.cart)
                && Requantified(cart, out.db.tables.cart, row.id, row.quantity + quantity))
  {
    var cart := db.tables.cart;
    var found := Find(OfProduct(user, productId), cart);
    forall row | row in cart && row.userId == user && row.productId == productId && ValidCart(cart, db.nextCartId)
      ensures found == Some(row)
    {
      OnlyRowOfProduct(cart, db.nextCartId, row);
    }
  }

  /** A user's own cart row takes the new quantity, if the product is on sale in it. */
  lemma UpdateCartItemDoes(db: Db, user: int, row: CartRow, quantity: int)
    requires Valid(db) && row in db.tables.cart && row.userId == user
    ensures var ps, cart := db.tables.products, db.tables.cart;
      var out := Exec(db, UpdateCartItem(user, row.id, quantity));
      if row.productId !in ps || ps[row.productId].deleted || !ps[row.productId].active then
        out == Outcome(db, Err(InvalidProduct(row.productId)))
      else if ps[row.productId].amount < quantity then
        out == Outcome(db, Err(InsufficientAmount(row.productId)))
      else
        && out.result == Ok(())
        && out.db == db.(tables := db.tables.(cart := out.db.tables.cart))
        && Requantified(cart, out.db.tables.cart, row.id, quantity)
  {
    OnlyRowOfProduct(db.tables.cart, db.nextCartId, row);
  }

  /** Nobody changes or deletes a row that is not theirs or not there. */
  lemma NoCartRow(db: Db, user: int, cartId: int, quantity: int)
    requires forall row :: row in db.tables.cart && row.id == cartId ==> row.userId != user
    ensures Exec(db, UpdateCartItem(user, cartId, quantity)) == Outcome(db, Err(NotFound))
    ensures Exec(db, DeleteCartItem(user, cartId)) == Outcome(db, Err(NotFound))
  {
  }

  /** A deletion takes exactly that row away. */
  lemma DeleteCartItemDoes(db: Db, user: int, row: CartRow)
    requires Valid(db) && row in db.tables.cart && row.userId == user
    ensures var out := Exec(db, DeleteCartItem(user, row.id));
      && out.result == Ok(()) && out.db == db.(tables := db.tables.(cart := out.db.tables.cart))
      && forall other :: other in out.db.tables.cart <==> other in db.tables.cart && other != row
  {
    var cart := db.tables.cart;
    OnlyRowOfProduct(cart, db.nextCartId, row);
    FilterMembers(OtherThan(user, row.id), cart);
    forall other | other in cart && other.id == row.id ensures other == row {
      var i :| 0 <= i < |cart| && cart[i] == row;
      var j :| 0 <= j < |cart| && cart[j] == other;
      assert i == j;
    }
  }

  // ---------- Products ----------

  /** A new product has the amount and price given and is on sale. */
  lemma CreateProductDoes(db: Db, amount: int, price: real)
    ensures var t, out := db.tables, Exec(db, AdminCreateProduct(amount, price));
      if amount > 0x7FFF_FFFF then out == Outcome(db, Err(OutOfRange))
      else
        && out.result == Ok(())
        && out.db == db.(tables := t.(products := t.products[db.nextProductId := Product(amount, price, true, false)]),
                         nextProductId := db.nextProductId + 1)
  {
  }

  // Given values are taken, the others stay.
  predicate IsUpdated(before: Product, after: Product, amount: Option<int>, price: Option<real>, active: Option<bool>) {
    && (amount.Some? ==> after.amount == amount.value) && (amount.None? ==> after.amount == before.amount)
    && (price.Some? ==> after.price == price.value) && (price.None? ==> after.price == before.price)
    && (active.Some? ==> after.active == active.value) && (active.None? ==> after.active == before.active)
    && !after.deleted
  }

  /** An update takes the values given, of a product that is not deleted. */
  lemma UpdateProductDoes(db: Db, id: int, amount: Option<int>, price: Option<real>, active: Option<bool>)
    ensures var t, out := db.tables, Exec(db, AdminUpdateProduct(id, amount, price, active));
      if amount.Some? && amount.value > 0x7FFF_FFFF then out == Outcome(db, Err(OutOfRange))
      else if id in t.products && !t.products[id].deleted then
        && out.result == Ok(()) && id in out.db.tables.products
        && IsUpdated(t.products[id], out.db.tables.products[id], amount, price, active)
        && out.db == db.(tables := t.(products := t.products[id := out.db.tables.products[id]]))
      else out == Outcome(db, Err(NotFound))
  {
  }

  /** A deletion is a mark: the row and all it is named in stay. */
  lemma DeleteProductDoes(db: Db, id: int)
    ensures var t, out := db.tables, Exec(db, AdminDeleteProduct(id));
      if id in t.products && !t.products[id].deleted then
        var p := t.products[id];
        && out.result == Ok(())
        && out.db == db.(tables := t.(products := t.products[id := Product(p.amount, p.price, p.active, true)]))
      else out == Outcome(db, Err(NotFound))
  {
  }
}
