/**
 Ratings of ordered products.  A rating is given by the order's owner, for a product of
 that order, once, and after delivery; since an administrator may set any status at any
 time, it need not stay a rating of a delivered order, and `RatedOrderStaysDeliveredIff`
 says when it does.
 */
module OrderRatings {
  import opened Seqs
  import opened Wrappers
  import opened Shop
  import opened ShopRuns

  datatype Rating = Rating(userId: int, orderId: int, productId: int, value: int)

  datatype RatingError = OrderNotFound | Forbidden | NotDelivered | NotOrdered | RatingExists

  predicate Ordered(items: seq<ItemRow>, orderId: int, productId: int) {
    exists i :: 0 <= i < |items| && items[i].orderId == orderId && items[i].productId == productId
  }

  predicate HasRated(ratings: seq<Rating>, user: int, orderId: int, productId: int) {
    exists i :: 0 <= i < |ratings| && ratings[i].userId == user && ratings[i].orderId == orderId && ratings[i].productId == productId
  }

  function RateError(t: Tables, ratings: seq<Rating>, user: int, orderId: int, productId: int): Option<RatingError> {
    if orderId !in t.orders then Some(OrderNotFound)
    else if t.orders[orderId].userId != user then Some(Forbidden)
    else if t.orders[orderId].status != Delivered then Some(NotDelivered)
    else if !Ordered(t.items, orderId, productId) then Some(NotOrdered)
    else if HasRated(ratings, user, orderId, productId) then Some(RatingExists)
    else None
  }

  // ---------- Runs of shop calls and ratings ----------

  datatype Event = Call(op: Op) | Rate(user: int, orderId: int, productId: int, value: int)
  datatype State = State(db: Db, ratings: seq<Rating>)

  function Next(s: State, e: Event): State {
    match e
    case Call(op) => s.(db := Shop.Exec(s.db, op).db)
    case Rate(user, orderId, productId, value) =>
      if RateError(s.db.tables, s.ratings, user, orderId, productId).Some? then s
      else s.(ratings := s.ratings + [Rating(user, orderId, productId, value)])
  }

  function After(s: State, events: seq<Event>): State {
    Fold(Next, s, events)
  }

  predicate ValidEvents(events: seq<Event>) {
    forall i :: 0 <= i < |events| && events[i].Call? ==> ValidOp(events[i].op)
  }

  predicate WasDelivered(history: seq<HistoryRow>, orderId: int) {
    exists i :: 0 <= i < |history| && history[i].orderId == orderId && history[i].status == Delivered
  }

  predicate Earned(t: Tables, r: Rating) {
    && r.orderId in t.orders && t.orders[r.orderId].userId == r.userId
    && Ordered(t.items, r.orderId, r.productId)
    && WasDelivered(t.history, r.orderId)
  }

  predicate ValidRatings(s: State) {
    && (forall i :: 0 <= i < |s.ratings| ==> Earned(s.db.tables, s.ratings[i]))
    && (forall i, j :: 0 <= i < j < |s.ratings| ==>
          s.ratings[i].(value := 0) != s.ratings[j].(value := 0))
  }

  // An administrator takes the order out of `Delivered`.
  predicate Undelivers(e: Event, orderId: int) {
    e.Call? && e.op.AdminUpdateOrderStatus? && e.op.orderId == orderId && e.op.status != Delivered
  }

  // An order that is there, after one call: same owner, and a delivered one is set back by one kind of call only.
  predicate Follows(t: Tables, u: Tables, orderId: int, e: Event)
    requires orderId in t.orders
  {
    && t.items <= u.items && t.history <= u.history && orderId in u.orders
    && u.orders[orderId].userId == t.orders[orderId].userId
    && (t.orders[orderId].status == Delivered ==> (u.orders[orderId].status == Delivered <==> !Undelivers(e, orderId)))
  }

  lemma PlaceFollows(t: Tables, newOrderId: int, user: int, address: string, lines: seq<Line>, orderId: int, op: Op)
    requires orderId in t.orders && newOrderId != orderId && Place(t, newOrderId, user, address, lines).Ok?
    requires !op.AdminUpdateOrderStatus?
    ensures Follows(t, Place(t, newOrderId, user, address, lines).value, orderId, Call(op))
  {
  }

  lemma NewOrderFollows(db: Db, op: Op, orderId: int)
    requires orderId in db.tables.orders && orderId < db.nextOrderId && (op.CreateOrder? || op.CheckoutCart?)
    ensures Follows(db.tables, Shop.Exec(db, op).db.tables, orderId, Call(op))
  {
    if Shop.Exec(db, op).result.Ok? {
      match op
      case CreateOrder(user, address, lines) => PlaceFollows(db.tables, db.nextOrderId, user, address, lines, orderId, op);
      case CheckoutCart(user, address) =>
        PlaceFollows(db.tables, db.nextOrderId, user, address, LinesOf(Filter(OwnedBy(user), db.tables.cart)), orderId, op);
    }
  }

  lemma OtherCallFollows(db: Db, op: Op, orderId: int)
    requires orderId in db.tables.orders && !op.CreateOrder? && !op.CheckoutCart?
    ensures Follows(db.tables, Shop.Exec(db, op).db.tables, orderId, Call(op))
  {
  }

  lemma OrderFrame(db: Db, op: Op, orderId: int)
    requires ShopRuns.Valid(db) && orderId in db.tables.orders
    ensures Follows(db.tables, Shop.Exec(db, op).db.tables, orderId, Call(op))
  {
    if op.CreateOrder? || op.CheckoutCart? {
      NewOrderFollows(db, op, orderId);
    } else {
      OtherCallFollows(db, op, orderId);
    }
  }

  lemma EarnedStays(db: Db, op: Op, r: Rating)
    requires ShopRuns.Valid(db) && Earned(db.tables, r)
    ensures Earned(Shop.Exec(db, op).db.tables, r)
  {
    var t, u := db.tables, Shop.Exec(db, op).db.tables;
    OrderFrame(db, op, r.orderId);
    var i :| 0 <= i < |t.items| && t.items[i].orderId == r.orderId && t.items[i].productId == r.productId;
    assert u.items[i] == t.items[i];
    var h :| 0 <= h < |t.history| && t.history[h].orderId == r.orderId && t.history[h].status == Delivered;
    assert u.history[h] == t.history[h];
  }

  // The trail of a delivered order ends with its delivery.
  lemma DeliveredIsRecorded(db: Db, orderId: int)
    requires ShopRuns.Valid(db) && orderId in db.tables.orders && db.tables.orders[orderId].status == Delivered
    ensures WasDelivered(db.tables.history, orderId)
  {
    var history := db.tables.history;
    assert ValidTrail(db.tables.orders[orderId], history, orderId);
    FilterMembers(HistoryOf(orderId), history);
    var trail := Filter(HistoryOf(orderId), history);
    var last := trail[|trail| - 1];
    assert last in trail;
    var i :| 0 <= i < |history| && history[i] == last;
  }

  lemma NextKeepsRatings(s: State, e: Event)
    requires ShopRuns.Valid(s.db) && ValidRatings(s)
    ensures ValidRatings(Next(s, e))
  {
    match e
    case Call(op) =>
      forall i | 0 <= i < |s.ratings| ensures Earned(Next(s, e).db.tables, s.ratings[i]) {
        EarnedStays(s.db, op, s.ratings[i]);
      }
    case Rate(user, orderId, productId, value) =>
      if RateError(s.db.tables, s.ratings, user, orderId, productId).None? {
        DeliveredIsRecorded(s.db, orderId);
        assert Earned(s.db.tables, Rating(user, orderId, productId, value));
      }
  }

  lemma {:induction false} AfterKeepsRatings(s: State, events: seq<Event>)
    requires ShopRuns.Valid(s.db) && ValidRatings(s) && ValidEvents(events)
    ensures ShopRuns.Valid(After(s, events).db) && ValidRatings(After(s, events))
  {
    if events != [] {
      var n := |events| - 1;
      AfterKeepsRatings(s, events[..n]);
      NextKeepsRatings(After(s, events[..n]), events[n]);
      if events[n].Call? {
        ShopRuns.ExecKeepsValid(After(s, events[..n]).db, events[n].op);
      }
    }
  }

  const NO_STATE := State(ShopRuns.EMPTY_DB, [])

  /** In every run, every rating was given by the order's owner for a product of that order, after its delivery, and none twice. */
  lemma RatingsAreEarned(events: seq<Event>, i: nat, j: nat)
    requires ValidEvents(events)
    requires i < |After(NO_STATE, events).ratings| && j < |After(NO_STATE, events).ratings|
    ensures var s := After(NO_STATE, events);
      && Earned(s.db.tables, s.ratings[i])
      && (s.ratings[i].(value := 0) == s.ratings[j].(value := 0) ==> i == j)
  {
    AfterKeepsRatings(NO_STATE, events);
  }

  predicate DeliveredAfter(s: State, events: seq<Event>, orderId: int) {
    var orders := After(s, events).db.tables.orders;
    orderId in orders && orders[orderId].status == Delivered
  }

  predicate AlwaysDelivered(s: State, events: seq<Event>, orderId: int) {
    forall k :: 0 <= k <= |events| ==> DeliveredAfter(s, events[..k], orderId)
  }

  predicate NeverUndelivered(events: seq<Event>, orderId: int) {
    forall i :: 0 <= i < |events| ==> !Undelivers(events[i], orderId)
  }

  lemma AlwaysDeliveredSplit(s: State, events: seq<Event>, orderId: int)
    requires events != []
    ensures AlwaysDelivered(s, events, orderId) <==>
      AlwaysDelivered(s, events[..|events| - 1], orderId) && DeliveredAfter(s, events, orderId)
  {
    var init := events[..|events| - 1];
    assert events[..|events|] == events;
    forall k | 0 <= k <= |init| ensures init[..k] == events[..k] {
    }
    if AlwaysDelivered(s, events, orderId) {
      assert DeliveredAfter(s, events[..|events|], orderId);
      forall k | 0 <= k <= |init| ensures DeliveredAfter(s, init[..k], orderId) {
        assert DeliveredAfter(s, events[..k], orderId);
      }
    }
    if AlwaysDelivered(s, init, orderId) && DeliveredAfter(s, events, orderId) {
      forall k | 0 <= k <= |events| ensures DeliveredAfter(s, events[..k], orderId) {
        if k < |events| {
          assert DeliveredAfter(s, init[..k], orderId);
        }
      }
    }
  }

  lemma NeverUndeliveredSplit(events: seq<Event>, orderId: int)
    requires events != []
    ensures NeverUndelivered(events, orderId) <==>
      NeverUndelivered(events[..|events| - 1], orderId) && !Undelivers(events[|events| - 1], orderId)
  {
  }

  lemma OneMoreEvent(s: State, events: seq<Event>, orderId: int)
    requires events != [] && ShopRuns.Valid(s.db) && ValidRatings(s) && ValidEvents(events)
    requires DeliveredAfter(s, events[..|events| - 1], orderId)
    ensures DeliveredAfter(s, events, orderId) <==> !Undelivers(events[|events| - 1], orderId)
  {
    var n := |events| - 1;
    AfterKeepsRatings(s, events[..n]);
    if events[n].Call? {
      OrderFrame(After(s, events[..n]).db, events[n].op, orderId);
    }
  }

  /**
   A delivered order is delivered at every later moment of a run exactly when no
   administrator's call of the run sets it to another status.
   */
  lemma {:induction false} RatedOrderStaysDeliveredIff(s: State, events: seq<Event>, orderId: int)
    requires ShopRuns.Valid(s.db) && ValidRatings(s) && ValidEvents(events) && DeliveredAfter(s, [], orderId)
    ensures AlwaysDelivered(s, events, orderId) <==> NeverUndelivered(events, orderId)
  {
    if events == [] {
      assert events[..0] == [];
    } else {
      var n := |events| - 1;
      var init := events[..n];
      RatedOrderStaysDeliveredIff(s, init, orderId);
      AlwaysDeliveredSplit(s, events, orderId);
      NeverUndeliveredSplit(events, orderId);
      if AlwaysDelivered(s, init, orderId) {
        assert init[..n] == init;
        OneMoreEvent(s, events, orderId);
      }
    }
  }

  // One sale: a product, an order of it, its delivery, and its rating.
  function Sale(): seq<Event> {
    [Call(AdminCreateProduct(1, 1.0)), Call(CreateOrder(7, "home", [Line(1, 1)])),
     Call(AdminUpdateOrderStatus(9, 1, Delivered)), Rate(7, 1, 1, 5)]
  }

  lemma SaleIsRated()
    ensures var s := After(NO_STATE, Sale());
      s.ratings == [Rating(7, 1, 1, 5)] && 1 in s.db.tables.orders && s.db.tables.orders[1].status == Delivered
  {
    var events := Sale();
    assert events[..0] == [] && events[..1] == events[..0] + [events[0]] && events[..2] == events[..1] + [events[1]];
    assert events[..3] == events[..2] + [events[2]] && events == events[..3] + [events[3]];
    FoldOneMore(Next, NO_STATE, events[..0], events[0]);
    FoldOneMore(Next, NO_STATE, events[..1], events[1]);
    FoldOneMore(Next, NO_STATE, events[..2], events[2]);
    FoldOneMore(Next, NO_STATE, events[..3], events[3]);
    var ps := After(NO_STATE, events[..1]).db.tables.products;
    var lines := [Line(1, 1)];
    assert lines[..0] == [];
    assert RunLines(ps, lines) == Ok(Decrement(ps, lines[0]));
    var placed := After(NO_STATE, events[..2]).db.tables;
    assert placed.items == [] + ItemsFor(ps, 1, lines);
    assert placed.items[0].orderId == 1 && placed.items[0].productId == 1;
  }

  /** A rated order need not stay delivered: here it is set back, and its rating stays. */
  lemma RatedOrderUndelivered()
    ensures var s := After(NO_STATE, Sale() + [Call(AdminUpdateOrderStatus(9, 1, OnTheWay))]);
      s.ratings == [Rating(7, 1, 1, 5)] && 1 in s.db.tables.orders && s.db.tables.orders[1].status == OnTheWay
  {
    SaleIsRated();
    FoldOneMore(Next, NO_STATE, Sale(), Call(AdminUpdateOrderStatus(9, 1, OnTheWay)));
  }

  /** A rating is refused for the first thing wanting, and otherwise stands behind the earlier ones as given. */
  lemma RateDoes(s: State, user: int, orderId: int, productId: int, value: int)
    ensures var t := s.db.tables;
      var e := RateError(t, s.ratings, user, orderId, productId);
      && Next(s, Rate(user, orderId, productId, value))
         == (if e.None? then s.(ratings := s.ratings + [Rating(user, orderId, productId, value)]) else s)
      && e == if orderId !in t.orders then Some(OrderNotFound)
              else if t.orders[orderId].userId != user then Some(Forbidden)
              else if t.orders[orderId].status != Delivered then Some(NotDelivered)
              else if forall i :: 0 <= i < |t.items| ==> t.items[i].orderId != orderId || t.items[i].productId != productId
              then Some(NotOrdered)
              else if exists i :: 0 <= i < |s.ratings| && s.ratings[i] == Rating(user, orderId, productId, s.ratings[i].value)
              then Some(RatingExists)
              else None
  {
  }

  // ---------- The service ----------

  class ProductRatings {
    var ratings: seq<Rating>

    constructor ()
      ensures ratings == []
    {
      ratings := [];
    }

    // Order and lines are read, never written.
    method CreateItemRating(t: Tables, user: int, orderId: int, productId: int, value: int) returns (error: Option<RatingError>)
      modifies this
      ensures error == RateError(t, old(ratings), user, orderId, productId)
      ensures ratings == if error.None? then old(ratings) + [Rating(user, orderId, productId, value)] else old(ratings)
    {
      error := AssertRateableProduct(t, user, orderId, productId);
      if error.Some? {
        return;
      }
      // The unique key refuses a second row.
      if HasRated(ratings, user, orderId, productId) {
        return Some(RatingExists);
      }
      ratings := ratings + [Rating(user, orderId, productId, value)];
    }

    /** Passes exactly the owner of a delivered order that has the product; otherwise the error says the first thing wanting. */
    method AssertRateableProduct(t: Tables, user: int, orderId: int, productId: int) returns (error: Option<RatingError>)
      ensures error.None? <==>
        && orderId in t.orders && t.orders[orderId].userId == user && t.orders[orderId].status == Delivered
        && Ordered(t.items, orderId, productId)
      ensures error == Some(OrderNotFound) <==> orderId !in t.orders
      ensures error == Some(Forbidden) <==> orderId in t.orders && t.orders[orderId].userId != user
      ensures error == Some(NotDelivered) <==>
        orderId in t.orders && t.orders[orderId].userId == user && t.orders[orderId].status != Delivered
      ensures error == Some(NotOrdered) <==>
        orderId in t.orders && t.orders[orderId].userId == user && t.orders[orderId].status == Delivered
        && !Ordered(t.items, orderId, productId)
      ensures error != Some(RatingExists)
    {
      if orderId !in t.orders {
        return Some(OrderNotFound);
      }
      if t.orders[orderId].userId != user {
        return Some(Forbidden);
      }
      if t.orders[orderId].status != Delivered {
        return Some(NotDelivered);
      }
      error := if Ordered(t.items, orderId, productId) then None else Some(NotOrdered);
    }
  }
}
