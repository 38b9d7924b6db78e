/**
 The order, cart and product methods of the Kayan service as they run: statement by
 statement against mutable tables, with a transaction as a snapshot that an error
 restores.  Each method is proved to do what the call does in module Shop.
 */
module ShopService {
  import opened Wrappers
  import opened Seqs
  import opened Shop

  // The first refused line decides, however many lines follow it.
  lemma {:induction false} ErrorOfPrefix(ps: Products, lines: seq<Line>, k: nat)
    requires k <= |lines| && RunLines(ps, lines[..k]).Err?
    ensures RunLines(ps, lines) == RunLines(ps, lines[..k])
  {
    if k < |lines| {
      assert lines[..|lines| - 1][..k] == lines[..k];
      ErrorOfPrefix(ps, lines[..|lines| - 1], k);
    } else {
      assert lines[..k] == lines;
    }
  }

  // One turn of the loop over the lines.
  lemma OneMoreLine(ps: Products, lines: seq<Line>, i: nat, qs: Products)
    requires i < |lines| && RunLines(ps, lines[..i]) == Ok(qs)
    ensures match LineError(qs, lines[i])
            case Some(e) => RunLines(ps, lines) == Err(e)
            case None => RunLines(ps, lines[..i + 1]) == Ok(Decrement(qs, lines[i]))
  {
    assert lines[..i + 1][..i] == lines[..i];
    if LineError(qs, lines[i]).Some? {
      ErrorOfPrefix(ps, lines, i + 1);
    }
  }

  // Selling changes no price, so each line's unit price is the price before the order.
  lemma {:induction false} PricesStay(ps: Products, lines: seq<Line>, id: int)
    requires RunLines(ps, lines).Ok?
    ensures PriceOf(RunLines(ps, lines).value, id) == PriceOf(ps, id)
  {
    if lines != [] {
      PricesStay(ps, lines[..|lines| - 1], id);
    }
  }

  lemma OneMoreItem(ps: Products, orderId: int, lines: seq<Line>, i: nat)
    requires i < |lines|
    ensures ItemsFor(ps, orderId, lines[..i + 1]) == ItemsFor(ps, orderId, lines[..i])
      + [ItemRow(orderId, lines[i].productId, lines[i].quantity, PriceOf(ps, lines[i].productId))]
  {
  }

  class KayanService {
    var products: Products
    var cart: seq<CartRow>
    var orders: map<int, OrderRow>
    var items: seq<ItemRow>
    var history: seq<HistoryRow>
    var nextProductId: int
    var nextCartId: int
    var nextOrderId: int

    ghost function State(): Db
      reads this
    {
      Db(Tables(products, cart, orders, items, history), nextProductId, nextCartId, nextOrderId)
    }

    constructor ()
      ensures State() == Db(Tables(map[], [], map[], [], []), 1, 1, 1)
    {
      products, cart, orders, items, history := map[], [], map[], [], [];
      nextProductId, nextCartId, nextOrderId := 1, 1, 1;
    }

    // Runs inside the caller's transaction: a refused line leaves the earlier lines written.
    method CreateOrderRecord(user: int, address: string, lines: seq<Line>) returns (r: Result<(), Error>)
      requires WellFormed(lines)
      modifies this
      ensures nextOrderId == old(nextOrderId) + 1
      ensures cart == old(cart) && nextCartId == old(nextCartId) && nextProductId == old(nextProductId)
      ensures var placed := Place(old(State()).tables, old(nextOrderId), user, address, lines);
        if r == Ok(()) then placed == Ok(State().tables) else r.Err? && placed == Err(r.error)
    {
      var orderId := nextOrderId;
      nextOrderId := nextOrderId + 1;
      orders := orders[orderId := OrderRow(user, address, Received, false)];
      ghost var before := old(products);
      assert lines[..0] == [];
      for i := 0 to |lines|
        invariant RunLines(before, lines[..i]) == Ok(products)
        invariant items == old(items) + ItemsFor(before, orderId, lines[..i])
        invariant history == old(history) && cart == old(cart)
        invariant nextOrderId == old(nextOrderId) + 1 && nextCartId == old(nextCartId) && nextProductId == old(nextProductId)
        invariant orders == old(orders)[orderId := OrderRow(user, address, Received, false)]
      {
        var line := lines[i];
        OneMoreLine(before, lines, i, products);
        PricesStay(before, lines[..i], line.productId);
        if line.productId !in products || products[line.productId].deleted || !products[line.productId].active {
          return Err(InvalidProduct(line.productId));
        }
        if products[line.productId].amount < line.quantity {
          return Err(InsufficientAmount(line.productId));
        }
        var price := products[line.productId].price;
        OneMoreItem(before, orderId, lines, i);
        items := items + [ItemRow(orderId, line.productId, line.quantity, price)];
        products := products[line.productId := products[line.productId].(amount := products[line.productId].amount - line.quantity)];
        assert products == Decrement(RunLines(before, lines[..i]).value, line);
      }
      assert lines[..|lines|] == lines;
      history := history + [HistoryRow(orderId, Received, user)];
      r := Ok(());
    }

    method CreateOrder(user: int, address: string, lines: seq<Line>) returns (r: Result<(), Error>)
      requires WellFormed(lines)
      modifies this
      ensures Outcome(State(), r) == Exec(old(State()), Op.CreateOrder(user, address, lines))
    {
      if |lines| == 0 {
        return Err(EmptyOrder);
      }
      var products0, orders0, items0, history0 := products, orders, items, history;
      r := CreateOrderRecord(user, address, lines);
      if r.Err? {
        products, orders, items, history := products0, orders0, items0, history0;
      }
    }

    method CheckoutCart(user: int, address: string) returns (r: Result<(), Error>)
      requires forall row :: row in cart ==> row.quantity >= 1
      modifies this
      ensures Outcome(State(), r) == Exec(old(State()), Op.CheckoutCart(user, address))
    {
      var rows := Filter(OwnedBy(user), cart);
      if |rows| == 0 {
        return Err(EmptyCart);
      }
      FilterMembers(OwnedBy(user), cart);
      assert forall i :: 0 <= i < |rows| ==> rows[i] in cart;
      var products0, orders0, items0, history0, cart0 := products, orders, items, history, cart;
      r := CreateOrderRecord(user, address, LinesOf(rows));
      if r.Err? {
        products, orders, items, history, cart := products0, orders0, items0, history0, cart0;
        return;
      }
      cart := Filter(NotOwnedBy(user), cart);
    }

    /** Passes exactly what is on sale in the quantity asked for; otherwise the error says which of the two is wanting. */
    method AssertCartProductState(productId: int, quantity: int) returns (r: Option<Error>)
      ensures r.None? <==> Sellable(products, productId) && quantity <= products[productId].amount
      ensures r == Some(InvalidProduct(productId)) <==> !Sellable(products, productId)
      ensures r.Some? && Sellable(products, productId) ==> r.value == InsufficientAmount(productId)
    {
      if productId !in products || products[productId].deleted || !products[productId].active {
        return Some(InvalidProduct(productId));
      }
      if products[productId].amount < quantity {
        return Some(InsufficientAmount(productId));
      }
      return None;
    }

    method AddCartItem(user: int, productId: int, quantity: int) returns (r: Result<(), Error>)
      modifies this
      ensures Outcome(State(), r) == Exec(old(State()), Op.AddCartItem(user, productId, quantity))
    {
      var refused := AssertCartProductState(productId, quantity);
      if refused.Some? {
        return Err(refused.value);
      }
      // The upsert draws an identity value whether or not it inserts.
      var id := nextCartId;
      nextCartId := nextCartId + 1;
      var existing := Find(OfProduct(user, productId), cart);
      if existing.None? {
        cart := cart + [CartRow(id, user, productId, quantity)];
      } else {
        if existing.value.quantity + quantity > INT_MAX {
          return Err(OutOfRange);
        }
        cart := SetQuantity(cart, existing.value.id, existing.value.quantity + quantity);
      }
      r := Ok(());
    }

    method UpdateCartItem(user: int, cartId: int, quantity: int) returns (r: Result<(), Error>)
      modifies this
      ensures Outcome(State(), r) == Exec(old(State()), Op.UpdateCartItem(user, cartId, quantity))
    {
      var existing := Find(WithId(user, cartId), cart);
      if existing.None? {
        return Err(NotFound);
      }
      var refused := AssertCartProductState(existing.value.productId, quantity);
      if refused.Some? {
        return Err(refused.value);
      }
      cart := SetQuantity(cart, cartId, quantity);
      r := Ok(());
    }

    method DeleteCartItem(user: int, cartId: int) returns (r: Result<(), Error>)
      modifies this
      ensures Outcome(State(), r) == Exec(old(State()), Op.DeleteCartItem(user, cartId))
    {
      var deleted := Find(WithId(user, cartId), cart);
      if deleted.None? {
        return Err(NotFound);
      }
      cart := Filter(OtherThan(user, cartId), cart);
      r := Ok(());
    }

    method CancelOrder(user: int, orderId: int) returns (r: Result<(), Error>)
      modifies this
      ensures Outcome(State(), r) == Exec(old(State()), Op.CancelOrder(user, orderId))
    {
      if orderId !in orders || orders[orderId].userId != user {
        return Err(NotFound);
      }
      if orders[orderId].status != Received {
        return Err(ProcessingStarted);
      }
      orders := orders[orderId := orders[orderId].(status := Cancelled, cancelledAt := true)];
      history := history + [HistoryRow(orderId, Cancelled, user)];
      r := Ok(());
    }

    method AdminUpdateOrderStatus(admin: int, orderId: int, status: OrderStatus) returns (r: Result<(), Error>)
      modifies this
      ensures Outcome(State(), r) == Exec(old(State()), Op.AdminUpdateOrderStatus(admin, orderId, status))
    {
      if orderId !in orders {
        return Err(NotFound);
      }
      orders := orders[orderId := orders[orderId].(status := status)];
      history := history + [HistoryRow(orderId, status, admin)];
      r := Ok(());
    }

    method AdminCreateProduct(amount: int, price: real) returns (r: Result<(), Error>)
      modifies this
      ensures Outcome(State(), r) == Exec(old(State()), Op.AdminCreateProduct(amount, price))
    {
      if amount > INT_MAX {
        return Err(OutOfRange);
      }
      products := products[nextProductId := Product(amount, price, true, false)];
      nextProductId := nextProductId + 1;
      r := Ok(());
    }

    method AdminUpdateProduct(id: int, amount: Option<int>, price: Option<real>, active: Option<bool>)
      returns (r: Result<(), Error>)
      modifies this
      ensures Outcome(State(), r) == Exec(old(State()), Op.AdminUpdateProduct(id, amount, price, active))
    {
      if amount.Some? && amount.value > INT_MAX {
        return Err(OutOfRange);
      }
      if id !in products || products[id].deleted {
        return Err(NotFound);
      }
      var p := products[id];
      p := p.(amount := Coalesce(amount, p.amount), price := Coalesce(price, p.price), active := Coalesce(active, p.active));
      products := products[id := p];
      r := Ok(());
    }

    method AdminDeleteProduct(id: int) returns (r: Result<(), Error>)
      modifies this
      ensures Outcome(State(), r) == Exec(old(State()), Op.AdminDeleteProduct(id))
    {
      if id !in products || products[id].deleted {
        return Err(NotFound);
      }
      products := products[id := products[id].(deleted := true)];
      r := Ok(());
    }
  }
}
