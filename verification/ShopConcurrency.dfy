/**
 Order and checkout transactions running at the same time, one SQL statement per step.

 A transaction locks each product row as it reads it and keeps its locks, and its
 uncommitted stock, until it commits or rolls back; any transaction may be aborted at
 any point, and calls that are single statements run in between where no lock stops
 them.  `Serializable` shows that whatever the interleaving, the committed tables are
 those of running the committed transactions one after another in commit order.
 */
module ShopConcurrency {
  import opened Wrappers
  import opened Seqs
  import opened Shop
  import opened ShopRuns

  // ---------- State ----------

  // Which statement of the current line comes next.
  datatype Phase = Selecting | Inserting | Updating

  datatype Txn = Txn(orderId: int, user: int, address: string, fromCart: bool, lines: seq<Line>,
                     next: nat, phase: Phase, items: seq<ItemRow>, writes: map<int, int>)

  datatype Entry =
    | Ordered(orderId: int, user: int, address: string, lines: seq<Line>)
    | CheckedOut(orderId: int, user: int, address: string)
    | Called(op: Op)

  // `db` is what is committed; a lock maps a row to the transaction that holds it.
  datatype System = System(db: Db, rowLocks: map<int, int>, cartLocks: map<int, int>, txns: map<int, Txn>, log: seq<Entry>)

  function Start(db: Db): System {
    System(db, map[], map[], map[], [])
  }

  // ---------- Steps ----------

  datatype Action =
    | BeginOrder(txn: int, user: int, address: string, lines: seq<Line>)
    | BeginCheckout(txn: int, user: int, address: string)
    | SelectProduct(txn: int)
    | InsertItem(txn: int)
    | UpdateStock(txn: int)
    | CommitTxn(txn: int)
    | Abort(txn: int)
    | Call(op: Op)

  // The products as a transaction sees them: committed rows under its own writes.
  function Overlay(ps: Products, writes: map<int, int>): Products {
    map id | id in ps :: if id in writes then ps[id].(amount := writes[id]) else ps[id]
  }

  function Drop(locks: map<int, int>, txn: int): map<int, int> {
    map id | id in locks && locks[id] != txn :: locks[id]
  }

  function Release(s: System, txn: int): System {
    s.(rowLocks := Drop(s.rowLocks, txn), cartLocks := Drop(s.cartLocks, txn), txns := s.txns - {txn})
  }

  function Begin(s: System, txn: int, t: Txn): System {
    s.(txns := s.txns[txn := t], db := s.db.(nextOrderId := s.db.nextOrderId + 1))
  }

  function SelectStep(s: System, k: int): System
    requires k in s.txns && s.txns[k].next < |s.txns[k].lines|
  {
    var t := s.txns[k];
    var line := t.lines[t.next];
    if line.productId in s.rowLocks && s.rowLocks[line.productId] != k then s  // waits
    else if LineError(Overlay(s.db.tables.products, t.writes), line).Some? then Release(s, k)  // throws, so rolls back
    else s.(rowLocks := s.rowLocks[line.productId := k], txns := s.txns[k := t.(phase := Inserting)])
  }

  function InsertStep(s: System, k: int): System
    requires k in s.txns && s.txns[k].next < |s.txns[k].lines|
  {
    var t := s.txns[k];
    var line := t.lines[t.next];
    var row := ItemRow(t.orderId, line.productId, line.quantity,
                       PriceOf(Overlay(s.db.tables.products, t.writes), line.productId));
    s.(txns := s.txns[k := t.(phase := Updating, items := t.items + [row])])
  }

  function UpdateStep(s: System, k: int): System
    requires k in s.txns && s.txns[k].next < |s.txns[k].lines|
  {
    var t := s.txns[k];
    var line := t.lines[t.next];
    var ps := Overlay(s.db.tables.products, t.writes);
    if line.productId !in ps then s
    else
      s.(txns := s.txns[k := t.(phase := Selecting, next := t.next + 1,
                                writes := t.writes[line.productId := ps[line.productId].amount - line.quantity])])
  }

  function CommitStep(s: System, k: int): System
    requires k in s.txns
  {
    var t := s.txns[k];
    var old_ := s.db.tables;
    var tables := Tables(
      Overlay(old_.products, t.writes),
      if t.fromCart then Filter(NotOwnedBy(t.user), old_.cart) else old_.cart,
      old_.orders[t.orderId := OrderRow(t.user, t.address, Received, false)],
      old_.items + t.items,
      old_.history + [HistoryRow(t.orderId, Received, t.user)]);
    var entry := if t.fromCart then CheckedOut(t.orderId, t.user, t.address) else Ordered(t.orderId, t.user, t.address, t.lines);
    Release(s, k).(db := s.db.(tables := tables), log := s.log + [entry])
  }

  // Calls that are one statement, or one step here, run when no transaction has their row locked.
  predicate Unblocked(s: System, op: Op) {
    match op
    case CreateOrder(_, _, _) => false
    case CheckoutCart(_, _) => false
    case AddCartItem(user, _, _) => user !in s.cartLocks
    case UpdateCartItem(user, _, _) => user !in s.cartLocks
    case DeleteCartItem(user, _) => user !in s.cartLocks
    case AdminUpdateProduct(id, _, _, _) => id !in s.rowLocks
    case AdminDeleteProduct(id) => id !in s.rowLocks
    case _ => true
  }

  // A step that is not enabled leaves the system alone.
  function Step(s: System, a: Action): System {
    match a
    case BeginOrder(k, user, address, lines) =>
      if k in s.txns || lines == [] || !WellFormed(lines) then s
      else Begin(s, k, Txn(s.db.nextOrderId, user, address, false, lines, 0, Selecting, [], map[]))
    case BeginCheckout(k, user, address) =>
      var rows := Filter(OwnedBy(user), s.db.tables.cart);
      if k in s.txns || user in s.cartLocks || rows == [] then s
      else
        Begin(s, k, Txn(s.db.nextOrderId, user, address, true, LinesOf(rows), 0, Selecting, [], map[]))
          .(cartLocks := s.cartLocks[user := k])
    case SelectProduct(k) =>
      if k in s.txns && s.txns[k].phase == Selecting && s.txns[k].next < |s.txns[k].lines| then SelectStep(s, k) else s
    case InsertItem(k) =>
      if k in s.txns && s.txns[k].phase == Inserting && s.txns[k].next < |s.txns[k].lines| then InsertStep(s, k) else s
    case UpdateStock(k) =>
      if k in s.txns && s.txns[k].phase == Updating && s.txns[k].next < |s.txns[k].lines| then UpdateStep(s, k) else s
    case CommitTxn(k) =>
      if k in s.txns && s.txns[k].phase == Selecting && s.txns[k].next == |s.txns[k].lines| then CommitStep(s, k) else s
    case Abort(k) =>
      if k in s.txns then Release(s, k) else s
    case Call(op) =>
      if ValidOp(op) && Unblocked(s, op) then s.(db := Exec(s.db, op).db, log := s.log + [Called(op)]) else s
  }

  function Execute(s: System, actions: seq<Action>): System {
    Fold(Step, s, actions)
  }

  // ---------- The serial runs to compare with ----------

  // One committed transaction or call, alone on the tables.
  function SerialStep(db: Db, e: Entry): Option<Db> {
    match e
    case Ordered(orderId, user, address, lines) =>
      (match Place(db.tables, orderId, user, address, lines) case Ok(t) => Some(db.(tables := t)) case Err(_) => None)
    case CheckedOut(orderId, user, address) =>
      (match CheckOut(db.tables, orderId, user, address) case Ok(t) => Some(db.(tables := t)) case Err(_) => None)
    case Called(op) => Some(Exec(db, op).db)
  }

  function SerialRun(db: Db, log: seq<Entry>): Option<Db> {
    if log == [] then Some(db)
    else
      match SerialRun(db, log[..|log| - 1])
      case None => None
      case Some(d) => SerialStep(d, log[|log| - 1])
  }

  // ---------- The invariant ----------

  predicate Holds(s: System, k: int, id: int) {
    id in s.rowLocks && s.rowLocks[id] == k
  }

  // The lines of a transaction that its row inserts have reached.
  function Reached(t: Txn): nat
    requires t.next <= |t.lines|
  {
    if t.phase == Updating && t.next < |t.lines| then t.next + 1 else t.next
  }

  // The private stock after the first n lines.
  predicate Written(ps: Products, lines: seq<Line>, n: nat, writes: map<int, int>)
    requires n <= |lines|
  {
    && (forall i :: 0 <= i < n ==> lines[i].productId in writes)
    && (forall id :: id in writes ==> id in ps && writes[id] == ps[id].amount - Demand(lines[..n], id))
  }

  // What transaction `t` has done so far, in terms of committed rows that only it may change.
  predicate Progress(ps: Products, t: Txn)
    requires t.next <= |t.lines|
  {
    && Fulfillable(ps, t.lines[..t.next])
    && Written(ps, t.lines, t.next, t.writes)
    && t.items == ItemsFor(ps, t.orderId, t.lines[..Reached(t)])
    && (t.phase != Selecting && t.next < |t.lines| ==> LineError(Overlay(ps, t.writes), t.lines[t.next]) == None)
  }

  predicate TxnOk(s: System, k: int)
    requires k in s.txns
  {
    var t := s.txns[k];
    && t.lines != [] && WellFormed(t.lines) && t.next <= |t.lines|
    && (t.phase != Selecting ==> t.next < |t.lines| && Holds(s, k, t.lines[t.next].productId))
    && t.orderId < s.db.nextOrderId && t.orderId !in s.db.tables.orders
    && (t.fromCart ==>
          && t.user in s.cartLocks && s.cartLocks[t.user] == k
          && t.lines == LinesOf(Filter(OwnedBy(t.user), s.db.tables.cart)))
    && (forall i :: 0 <= i < t.next ==> Holds(s, k, t.lines[i].productId))
    && (forall id :: id in t.writes ==> Holds(s, k, id))
    && Progress(s.db.tables.products, t)
  }

  predicate Inv(db0: Db, s: System) {
    && SerialRun(db0, s.log) == Some(s.db.(nextOrderId := db0.nextOrderId))
    && Valid(s.db)
    && (forall id :: id in s.rowLocks ==> id in s.db.tables.products)
    && (forall k :: k in s.txns ==> TxnOk(s, k))
    && (forall j, k :: j in s.txns && k in s.txns && j != k ==> s.txns[j].orderId != s.txns[k].orderId)
  }

  // ---------- A transaction is not disturbed by steps of others ----------

  // Two product tables agree on a row.
  predicate SameRow(ps: Products, qs: Products, id: int) {
    id in ps && id in qs && qs[id] == ps[id]
  }

  lemma FulfillableFrame(ps: Products, qs: Products, lines: seq<Line>)
    requires Fulfillable(ps, lines) && forall i :: 0 <= i < |lines| ==> SameRow(ps, qs, lines[i].productId)
    ensures Fulfillable(qs, lines)
  {
  }

  lemma ItemsFrame(ps: Products, qs: Products, orderId: int, lines: seq<Line>)
    requires forall i :: 0 <= i < |lines| ==> SameRow(ps, qs, lines[i].productId)
    ensures ItemsFor(qs, orderId, lines) == ItemsFor(ps, orderId, lines)
  {
  }

  lemma ProgressFrame(ps: Products, qs: Products, t: Txn)
    requires t.next <= |t.lines| && Progress(ps, t)
    requires forall i :: 0 <= i < t.next ==> SameRow(ps, qs, t.lines[i].productId)
    requires t.phase != Selecting && t.next < |t.lines| ==> SameRow(ps, qs, t.lines[t.next].productId)
    requires forall id :: id in t.writes ==> SameRow(ps, qs, id)
    ensures Progress(qs, t)
  {
    FulfillableFrame(ps, qs, t.lines[..t.next]);
    ItemsFrame(ps, qs, t.orderId, t.lines[..Reached(t)]);
  }

  lemma TxnFrame(s: System, u: System, j: int)
    requires j in s.txns && TxnOk(s, j) && j in u.txns && u.txns[j] == s.txns[j]
    requires s.db.nextOrderId <= u.db.nextOrderId && s.txns[j].orderId !in u.db.tables.orders
    requires s.txns[j].fromCart ==>
      && s.txns[j].user in u.cartLocks && u.cartLocks[s.txns[j].user] == j
      && Filter(OwnedBy(s.txns[j].user), u.db.tables.cart) == Filter(OwnedBy(s.txns[j].user), s.db.tables.cart)
    requires forall id :: Holds(s, j, id) ==> Holds(u, j, id) && SameRow(s.db.tables.products, u.db.tables.products, id)
    ensures TxnOk(u, j)
  {
    ProgressFrame(s.db.tables.products, u.db.tables.products, s.txns[j]);
  }

  // ---------- Steps of a transaction before it commits ----------

  lemma BeginKeepsInv(db0: Db, s: System, k: int, t: Txn, cartLocks: map<int, int>)
    requires Inv(db0, s) && k !in s.txns
    requires t.lines != [] && WellFormed(t.lines) && t.next == 0 && t.phase == Selecting && t.items == [] && t.writes == map[]
    requires t.orderId == s.db.nextOrderId
    requires forall v :: v in s.cartLocks ==> v in cartLocks && cartLocks[v] == s.cartLocks[v]
    requires t.fromCart ==>
      && t.user in cartLocks && cartLocks[t.user] == k
      && t.lines == LinesOf(Filter(OwnedBy(t.user), s.db.tables.cart))
    ensures Inv(db0, Begin(s, k, t).(cartLocks := cartLocks))
  {
    var u := Begin(s, k, t).(cartLocks := cartLocks);
    assert t.lines[..0] == [];
    forall j | j in u.txns ensures TxnOk(u, j) {
      if j != k {
        TxnFrame(s, u, j);
      }
    }
  }

  lemma ReleaseKeepsInv(db0: Db, s: System, k: int)
    requires Inv(db0, s) && k in s.txns
    ensures Inv(db0, Release(s, k))
  {
    var u := Release(s, k);
    forall j | j in u.txns ensures TxnOk(u, j) {
      TxnFrame(s, u, j);
    }
  }

  // A step that changes one running transaction and at most locks one more row for it.
  lemma OwnStepKeepsInv(db0: Db, s: System, u: System, k: int)
    requires Inv(db0, s) && k in s.txns && k in u.txns && TxnOk(u, k)
    requires u == s.(rowLocks := u.rowLocks, txns := s.txns[k := u.txns[k]])
    requires u.txns[k].orderId == s.txns[k].orderId
    requires forall id :: id in s.rowLocks ==> id in u.rowLocks && u.rowLocks[id] == s.rowLocks[id]
    requires forall id :: id in u.rowLocks ==> id in s.db.tables.products && (id in s.rowLocks || u.rowLocks[id] == k)
    ensures Inv(db0, u)
  {
    forall j | j in u.txns ensures TxnOk(u, j) {
      if j != k {
        TxnFrame(s, u, j);
      }
    }
  }

  lemma SelectKeepsInv(db0: Db, s: System, k: int)
    requires Inv(db0, s) && k in s.txns && s.txns[k].phase == Selecting && s.txns[k].next < |s.txns[k].lines|
    ensures Inv(db0, SelectStep(s, k))
  {
    var t := s.txns[k];
    var u := SelectStep(s, k);
    if LineError(Overlay(s.db.tables.products, t.writes), t.lines[t.next]).Some? {
      ReleaseKeepsInv(db0, s, k);
    } else if u != s {
      assert TxnOk(s, k);
      OwnStepKeepsInv(db0, s, u, k);
    }
  }

  lemma InsertKeepsInv(db0: Db, s: System, k: int)
    requires Inv(db0, s) && k in s.txns && s.txns[k].phase == Inserting
    ensures s.txns[k].next < |s.txns[k].lines|
    ensures Inv(db0, InsertStep(s, k))
  {
    var t := s.txns[k];
    var u := InsertStep(s, k);
    var ps := s.db.tables.products;
    var line := t.lines[t.next];
    assert PriceOf(Overlay(ps, t.writes), line.productId) == PriceOf(ps, line.productId);
    assert ItemsFor(ps, t.orderId, t.lines[..t.next + 1])
        == ItemsFor(ps, t.orderId, t.lines[..t.next])
           + [ItemRow(t.orderId, line.productId, line.quantity, PriceOf(ps, line.productId))];
    OwnStepKeepsInv(db0, s, u, k);
  }

  lemma OneMoreFits(ps: Products, lines: seq<Line>, n: nat)
    requires n < |lines| && Fulfillable(ps, lines[..n]) && Sellable(ps, lines[n].productId)
    requires Demand(lines[..n], lines[n].productId) + lines[n].quantity <= ps[lines[n].productId].amount
    ensures forall id :: Demand(lines[..n + 1], id) == Demand(lines[..n], id) + if lines[n].productId == id then lines[n].quantity else 0
    ensures Fulfillable(ps, lines[..n + 1])
  {
    var done, done' := lines[..n], lines[..n + 1];
    assert done'[..n] == done;
    forall i | 0 <= i < n + 1
      ensures Sellable(ps, done'[i].productId) && Demand(done', done'[i].productId) <= ps[done'[i].productId].amount
    {
      if i < n {
        assert done[i] == done'[i];
      }
    }
  }

  // Serving one more line keeps the aggregate account of the lines served so far.
  lemma WrittenOneMore(ps: Products, lines: seq<Line>, n: nat, writes: map<int, int>)
    requires n < |lines| && Fulfillable(ps, lines[..n]) && Written(ps, lines, n, writes)
    requires LineError(Overlay(ps, writes), lines[n]) == None
    ensures lines[n].productId in ps && Fulfillable(ps, lines[..n + 1])
    ensures var p := lines[n].productId;
      Written(ps, lines, n + 1, writes[p := Overlay(ps, writes)[p].amount - lines[n].quantity])
  {
    var p := lines[n].productId;
    if p !in writes {
      DemandOfAbsent(lines[..n], p);
    }
    assert Overlay(ps, writes)[p].amount == ps[p].amount - Demand(lines[..n], p);
    OneMoreFits(ps, lines, n);
  }

  lemma OneMoreServed(ps: Products, t: Txn)
    requires t.next < |t.lines| && t.phase == Updating && Progress(ps, t)
    ensures var line := t.lines[t.next];
      && line.productId in ps
      && Progress(ps, t.(phase := Selecting, next := t.next + 1,
                         writes := t.writes[line.productId := Overlay(ps, t.writes)[line.productId].amount - line.quantity]))
  {
    WrittenOneMore(ps, t.lines, t.next, t.writes);
  }

  lemma UpdatedTxnOk(s: System, k: int)
    requires k in s.txns && TxnOk(s, k) && s.txns[k].phase == Updating
    ensures s.txns[k].next < |s.txns[k].lines|
    ensures k in UpdateStep(s, k).txns && TxnOk(UpdateStep(s, k), k)
  {
    OneMoreServed(s.db.tables.products, s.txns[k]);
  }

  lemma UpdateKeepsInv(db0: Db, s: System, k: int)
    requires Inv(db0, s) && k in s.txns && s.txns[k].phase == Updating
    ensures s.txns[k].next < |s.txns[k].lines|
    ensures Inv(db0, UpdateStep(s, k))
  {
    assert TxnOk(s, k);
    UpdatedTxnOk(s, k);
    OwnStepKeepsInv(db0, s, UpdateStep(s, k), k);
  }

  // ---------- Commit ----------

  // At its end a transaction's private view is the stock a serial run of all its lines would leave.
  lemma OverlayIsSold(ps: Products, t: Txn)
    requires WellFormed(t.lines) && t.next == |t.lines| && Progress(ps, t)
    ensures RunLines(ps, t.lines) == Ok(Overlay(ps, t.writes))
    ensures t.items == ItemsFor(ps, t.orderId, t.lines)
  {
    assert t.lines[..t.next] == t.lines;
    PlacedIffFulfillable(ps, t.lines);
    forall id | id in ps ensures Overlay(ps, t.writes)[id] == Sold(ps, t.lines)[id] {
      if id !in t.writes {
        DemandOfAbsent(t.lines, id);
      }
    }
    assert Overlay(ps, t.writes) == Sold(ps, t.lines);
  }

  // A commit writes what placing the order in one piece writes on the tables committed by then.
  lemma CommitPlaces(db0: Db, s: System, k: int)
    requires Inv(db0, s) && k in s.txns && s.txns[k].phase == Selecting && s.txns[k].next == |s.txns[k].lines|
    ensures var t, tables := s.txns[k], s.db.tables;
      var placed := Place(tables, t.orderId, t.user, t.address, t.lines);
      && placed.Ok?
      && CommitStep(s, k).db == s.db.(tables :=
           if t.fromCart then placed.value.(cart := Filter(NotOwnedBy(t.user), tables.cart)) else placed.value)
  {
    assert TxnOk(s, k);
    OverlayIsSold(s.db.tables.products, s.txns[k]);
  }

  lemma CommitIsSerial(db0: Db, s: System, k: int)
    requires Inv(db0, s) && k in s.txns && s.txns[k].phase == Selecting && s.txns[k].next == |s.txns[k].lines|
    ensures var u := CommitStep(s, k);
      && SerialRun(db0, u.log) == Some(u.db.(nextOrderId := db0.nextOrderId))
      && Valid(u.db)
  {
    var t := s.txns[k];
    var u := CommitStep(s, k);
    assert TxnOk(s, k);
    CommitPlaces(db0, s, k);
    PlaceKeepsValid(s.db.tables, s.db.nextOrderId, t.orderId, t.user, t.address, t.lines);
    assert u.log[..|u.log| - 1] == s.log;
    if t.fromCart {
      CartFiltered(s.db.tables.cart, s.db.nextCartId, NotOwnedBy(t.user));
    }
  }

  // The others do not notice a commit.
  lemma CommitFrame(s: System, k: int, j: int)
    requires k in s.txns && TxnOk(s, k) && j in s.txns && j != k && TxnOk(s, j)
    requires s.txns[j].orderId != s.txns[k].orderId
    requires forall id :: id in s.rowLocks ==> id in s.db.tables.products
    ensures TxnOk(CommitStep(s, k), j)
  {
    if s.txns[k].fromCart {
      CartsAfterCheckout(s.db.tables.cart, s.txns[k].user, s.txns[j].user);
    }
    TxnFrame(s, CommitStep(s, k), j);
  }

  lemma CommitKeepsInv(db0: Db, s: System, k: int)
    requires Inv(db0, s) && k in s.txns && s.txns[k].phase == Selecting && s.txns[k].next == |s.txns[k].lines|
    ensures Inv(db0, CommitStep(s, k))
  {
    var u := CommitStep(s, k);
    assert TxnOk(s, k);
    CommitIsSerial(db0, s, k);
    forall j | j in u.txns ensures TxnOk(u, j) {
      CommitFrame(s, k, j);
    }
  }

  // ---------- Calls in between ----------

  lemma {:induction false} ResizeLeavesOthers(cart: seq<CartRow>, id: int, quantity: int, user: int)
    requires forall i :: 0 <= i < |cart| && cart[i].id == id ==> cart[i].userId != user
    ensures Filter(OwnedBy(user), SetQuantity(cart, id, quantity)) == Filter(OwnedBy(user), cart)
  {
    if cart != [] {
      var n := |cart| - 1;
      ResizeLeavesOthers(cart[..n], id, quantity, user);
      assert SetQuantity(cart, id, quantity)[..n] == SetQuantity(cart[..n], id, quantity);
    }
  }

  lemma AppendLeavesOthers(cart: seq<CartRow>, row: CartRow, other: int)
    requires row.userId != other
    ensures Filter(OwnedBy(other), cart + [row]) == Filter(OwnedBy(other), cart)
  {
    assert (cart + [row])[..|cart|] == cart;
  }

  lemma RowOfOwner(cart: seq<CartRow>, nextCartId: int, row: CartRow)
    requires ValidCart(cart, nextCartId) && row in cart
    ensures forall i :: 0 <= i < |cart| && cart[i].id == row.id ==> cart[i] == row
  {
  }

  lemma AddLeavesOthers(db: Db, user: int, productId: int, quantity: int, other: int)
    requires Valid(db) && user != other
    ensures Filter(OwnedBy(other), ExecAddCart(db, user, productId, quantity).db.tables.cart)
         == Filter(OwnedBy(other), db.tables.cart)
  {
    var found := Find(OfProduct(user, productId), db.tables.cart);
    if found.None? {
      AppendLeavesOthers(db.tables.cart, CartRow(db.nextCartId, user, productId, quantity), other);
    } else {
      RowOfOwner(db.tables.cart, db.nextCartId, found.value);
      ResizeLeavesOthers(db.tables.cart, found.value.id, found.value.quantity + quantity, other);
    }
  }

  lemma UpdateLeavesOthers(db: Db, user: int, cartId: int, quantity: int, other: int)
    requires Valid(db) && user != other
    ensures Filter(OwnedBy(other), ExecUpdateCart(db, user, cartId, quantity).db.tables.cart)
         == Filter(OwnedBy(other), db.tables.cart)
  {
    var found := Find(WithId(user, cartId), db.tables.cart);
    if found.Some? {
      RowOfOwner(db.tables.cart, db.nextCartId, found.value);
      ResizeLeavesOthers(db.tables.cart, cartId, quantity, other);
    }
  }

  lemma CallLeavesCart(db: Db, op: Op, other: int)
    requires Valid(db)
    requires match op
      case CreateOrder(_, _, _) => false
      case CheckoutCart(_, _) => false
      case AddCartItem(user, _, _) => user != other
      case UpdateCartItem(user, _, _) => user != other
      case DeleteCartItem(user, _) => user != other
      case _ => true
    ensures Filter(OwnedBy(other), Exec(db, op).db.tables.cart) == Filter(OwnedBy(other), db.tables.cart)
  {
    match op
    case AddCartItem(user, productId, quantity) => AddLeavesOthers(db, user, productId, quantity, other);
    case UpdateCartItem(user, cartId, quantity) => UpdateLeavesOthers(db, user, cartId, quantity, other);
    case DeleteCartItem(user, cartId) =>
      FilterFilter(OwnedBy(other), OtherThan(user, cartId), OwnedBy(other), db.tables.cart);
    case _ =>
  }

  // An unblocked call leaves locked rows, pending order numbers and the order counter alone,
  lemma CallFrame(s: System, op: Op)
    requires Valid(s.db) && Unblocked(s, op)
    ensures var db' := Exec(s.db, op).db;
      && db'.nextOrderId == s.db.nextOrderId
      && db'.tables.orders.Keys == s.db.tables.orders.Keys
      && s.db.tables.products.Keys <= db'.tables.products.Keys
      && forall id :: id in s.rowLocks && id in s.db.tables.products ==> SameRow(s.db.tables.products, db'.tables.products, id)
  {
  }

  // and does not look at that counter.
  lemma CallIgnoresCounter(db: Db, op: Op, n: int)
    requires !op.CreateOrder? && !op.CheckoutCart?
    ensures Exec(db.(nextOrderId := n), op).db == Exec(db, op).db.(nextOrderId := n)
  {
  }

  lemma CallKeepsInv(db0: Db, s: System, op: Op)
    requires Inv(db0, s) && ValidOp(op) && Unblocked(s, op)
    ensures Inv(db0, s.(db := Exec(s.db, op).db, log := s.log + [Called(op)]))
  {
    var u := s.(db := Exec(s.db, op).db, log := s.log + [Called(op)]);
    ExecKeepsValid(s.db, op);
    CallFrame(s, op);
    CallIgnoresCounter(s.db, op, db0.nextOrderId);
    assert u.log[..|u.log| - 1] == s.log;
    assert SerialStep(s.db.(nextOrderId := db0.nextOrderId), Called(op)) == Some(u.db.(nextOrderId := db0.nextOrderId));
    forall j | j in u.txns ensures TxnOk(u, j) {
      assert TxnOk(s, j);
      if s.txns[j].fromCart {
        CallLeavesCart(s.db, op, s.txns[j].user);
      }
      TxnFrame(s, u, j);
    }
  }

  // ---------- Main results ----------

  lemma StepKeepsInv(db0: Db, s: System, a: Action)
    requires Inv(db0, s)
    ensures Inv(db0, Step(s, a))
  {
    if Step(s, a) != s {
      match a
      case BeginOrder(k, user, address, lines) =>
        BeginKeepsInv(db0, s, k, Txn(s.db.nextOrderId, user, address, false, lines, 0, Selecting, [], map[]), s.cartLocks);
      case BeginCheckout(k, user, address) =>
        CartLinesWellFormed(s.db.tables.cart, s.db.nextCartId, user);
        var lines := LinesOf(Filter(OwnedBy(user), s.db.tables.cart));
        BeginKeepsInv(db0, s, k, Txn(s.db.nextOrderId, user, address, true, lines, 0, Selecting, [], map[]), s.cartLocks[user := k]);
      case SelectProduct(k) => SelectKeepsInv(db0, s, k);
      case InsertItem(k) => InsertKeepsInv(db0, s, k);
      case UpdateStock(k) => UpdateKeepsInv(db0, s, k);
      case CommitTxn(k) => CommitKeepsInv(db0, s, k);
      case Abort(k) => ReleaseKeepsInv(db0, s, k);
      case Call(op) => CallKeepsInv(db0, s, op);
    }
  }

  lemma {:induction false} ExecuteKeepsInv(db0: Db, s: System, actions: seq<Action>)
    requires Inv(db0, s)
    ensures Inv(db0, Execute(s, actions))
  {
    if actions != [] {
      var n := |actions| - 1;
      ExecuteKeepsInv(db0, s, actions[..n]);
      StepKeepsInv(db0, Execute(s, actions[..n]), actions[n]);
    }
  }

  /**
   Serializability: after any interleaving, running the committed transactions and calls
   serially, in commit order, succeeds and gives exactly the committed tables; stock is
   never negative.  Only the order-number counter, which aborted transactions also
   advance, may differ.
   */
  lemma Serializable(db: Db, actions: seq<Action>)
    requires Valid(db)
    ensures var s := Execute(Start(db), actions);
      && SerialRun(db, s.log) == Some(s.db.(nextOrderId := db.nextOrderId))
      && forall id :: id in s.db.tables.products ==> s.db.tables.products[id].amount >= 0
  {
    ExecuteKeepsInv(db, Start(db), actions);
  }

  // ---------- The stock over an interleaving ----------

  // The action is no call that sets the amount of product `id`.
  predicate StepLeavesAmount(s: System, a: Action, id: int) {
    a.Call? && ValidOp(a.op) && Unblocked(s, a.op) ==> LeavesAmount(s.db, a.op, id)
  }

  predicate NeverSetMeanwhile(s: System, actions: seq<Action>, id: int) {
    forall i :: 0 <= i < |actions| ==> StepLeavesAmount(Execute(s, actions[..i]), actions[i], id)
  }

  lemma CommitBalances(db0: Db, s: System, k: int, id: int)
    requires Inv(db0, s) && k in s.txns && s.txns[k].phase == Selecting && s.txns[k].next == |s.txns[k].lines|
    requires id in s.db.tables.products
    ensures Balances(s.db.tables, CommitStep(s, k).db.tables, id)
  {
    var t := s.txns[k];
    assert TxnOk(s, k);
    CommitPlaces(db0, s, k);
    PlaceBalances(s.db.tables, t.orderId, t.user, t.address, t.lines, id);
  }

  // Only commits and calls touch the committed tables.
  lemma OtherStepsKeepTables(s: System, a: Action)
    requires !a.CommitTxn? && !a.Call?
    ensures Step(s, a).db.tables == s.db.tables
  {
  }

  lemma StepBalances(db0: Db, s: System, a: Action, id: int)
    requires Inv(db0, s) && id in s.db.tables.products && StepLeavesAmount(s, a, id)
    ensures Balances(s.db.tables, Step(s, a).db.tables, id)
  {
    if Step(s, a) != s {
      match a
      case CommitTxn(k) => CommitBalances(db0, s, k, id);
      case Call(op) => ExecBalances(s.db, op, id);
      case _ => OtherStepsKeepTables(s, a);
    }
  }

  lemma NeverSetMeanwhilePrefix(s: System, actions: seq<Action>, id: int)
    requires actions != [] && NeverSetMeanwhile(s, actions, id)
    ensures var n := |actions| - 1;
      NeverSetMeanwhile(s, actions[..n], id) && StepLeavesAmount(Execute(s, actions[..n]), actions[n], id)
  {
    var init := actions[..|actions| - 1];
    forall i | 0 <= i < |init| ensures StepLeavesAmount(Execute(s, init[..i]), init[i], id) {
      assert init[..i] == actions[..i];
    }
  }

  /**
   Over any interleaving in which nobody sets the product's amount, the committed stock
   plus all that was ever ordered stays the same, aborted and waiting transactions
   included, and no order line disappears.
   */
  lemma {:induction false} InterleavingBalances(db0: Db, s: System, actions: seq<Action>, id: int)
    requires Inv(db0, s) && id in s.db.tables.products && NeverSetMeanwhile(s, actions, id)
    ensures Balances(s.db.tables, Execute(s, actions).db.tables, id)
  {
    if actions != [] {
      var n := |actions| - 1;
      NeverSetMeanwhilePrefix(s, actions, id);
      InterleavingBalances(db0, s, actions[..n], id);
      ExecuteKeepsInv(db0, s, actions[..n]);
      StepBalances(db0, Execute(s, actions[..n]), actions[n], id);
      BalancesAdd(s.db.tables, Execute(s, actions[..n]).db.tables, Execute(s, actions).db.tables, id);
    }
  }

  /**
   The stock ledger under interleaving: from the moment an administrator's call fixes a
   product's amount, with any number of transactions under way, what is left plus every
   line committed since is that amount, however the statements of all transactions
   interleave from there on, and what is left is never negative.
   */
  lemma InterleavedStockLedger(db: Db, before: seq<Action>, op: Op, after: seq<Action>, id: int, amount: int)
    requires Valid(db) && ValidOp(op)
    requires var s := Execute(Start(db), before); Unblocked(s, op) && SetsAmount(s.db, op, id, amount)
    requires NeverSetMeanwhile(Step(Execute(Start(db), before), Call(op)), after, id)
    ensures var s := Step(Execute(Start(db), before), Call(op));
      var t := Execute(s, after).db.tables;
      && s.db.tables.items <= t.items && id in t.products
      && t.products[id].amount + Shipped(t.items[|s.db.tables.items|..], id) == amount
      && t.products[id].amount >= 0
  {
    var s := Step(Execute(Start(db), before), Call(op));
    ExecuteKeepsInv(db, Start(db), before);
    StepKeepsInv(db, Execute(Start(db), before), Call(op));
    InterleavingBalances(db, s, after, id);
    ExecuteKeepsInv(db, s, after);
    ShippedSince(s.db.tables.items, Execute(s, after).db.tables.items, id);
  }
}
