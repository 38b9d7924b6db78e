/**
 Order and checkout transactions among others: what the statements of one transaction
 come to while others are under way.

 Run without a break, they do to the committed tables exactly what the call does in one
 piece, from any reachable state in which nobody else holds its rows (`OrderAmongOthers`,
 `CheckoutAmongOthers`).  Interleaved with any statements that keep away from its
 products, an order that can be fulfilled is committed (`UndisturbedOrder`), so two
 orders of different products are both committed however they are shuffled.
 */
module ShopProgress {
  import opened Wrappers
  import opened Seqs
  import opened Shop
  import opened ShopRuns
  import opened ShopConcurrency

  // ---------- One transaction without a break ----------

  // The statements of `n` lines, in order.
  function LineStatements(k: int, n: nat): seq<Action> {
    if n == 0 then [] else LineStatements(k, n - 1) + [SelectProduct(k), InsertItem(k), UpdateStock(k)]
  }

  // All other transactions and their locks are as they were.
  predicate SameOthers(s: System, u: System, k: int) {
    && u.txns - {k} == s.txns - {k}
    && Drop(u.rowLocks, k) == Drop(s.rowLocks, k)
    && Drop(u.cartLocks, k) == Drop(s.cartLocks, k)
  }

  // No other transaction has locked a product of these lines.
  predicate Free(s: System, k: int, lines: seq<Line>) {
    forall i :: 0 <= i < |lines| ==> lines[i].productId !in Drop(s.rowLocks, k)
  }

  lemma FirstAndLast(s: System, first: Action, middle: seq<Action>, last: Action)
    ensures Execute(s, [first] + middle + [last]) == Step(Execute(Step(s, first), middle), last)
  {
    FoldOneMore(Step, s, [first] + middle, last);
    FoldSplit(Step, s, [first], middle);
    FoldOne(Step, s, first);
  }

  // After `i` lines: still running and unhindered if those lines can be served, rolled back if not.
  predicate RanLines(b: System, u: System, k: int, t0: Txn, i: nat)
    requires i <= |t0.lines|
  {
    && u.db == b.db && u.log == b.log && SameOthers(b, u, k)
    && if RunLines(b.db.tables.products, t0.lines[..i]).Ok? then
         && k in u.txns
         && u.txns[k] == t0.(next := i, items := u.txns[k].items, writes := u.txns[k].writes)
         && RunLines(b.db.tables.products, t0.lines[..i]).value == Overlay(b.db.tables.products, u.txns[k].writes)
       else
         k !in u.txns
  }

  lemma DropAgain(locks: map<int, int>, k: int)
    ensures Drop(Drop(locks, k), k) == Drop(locks, k)
    ensures k !in Drop(locks, k).Values
  {
  }

  lemma DropOwn(locks: map<int, int>, id: int, k: int)
    requires id !in Drop(locks, k)
    ensures Drop(locks[id := k], k) == Drop(locks, k)
    ensures id in locks ==> locks[id] == k
  {
    assert id in locks && locks[id] != k ==> id in Drop(locks, k);
  }

  lemma ReleaseKeepsOthers(s: System, k: int)
    ensures SameOthers(s, Release(s, k), k)
  {
    DropAgain(s.rowLocks, k);
    DropAgain(s.cartLocks, k);
  }

  // A line that can be served takes its three statements,
  lemma LineServed(s: System, k: int)
    requires k in s.txns && s.txns[k].phase == Selecting && s.txns[k].next < |s.txns[k].lines|
    requires s.txns[k].lines[s.txns[k].next].productId !in Drop(s.rowLocks, k)
    requires LineError(Overlay(s.db.tables.products, s.txns[k].writes), s.txns[k].lines[s.txns[k].next]) == None
    ensures var t, line := s.txns[k], s.txns[k].lines[s.txns[k].next];
      var view := Overlay(s.db.tables.products, t.writes);
      var u := Step(Step(Step(s, SelectProduct(k)), InsertItem(k)), UpdateStock(k));
      && u.db == s.db && u.log == s.log && SameOthers(s, u, k) && k in u.txns
      && line.productId in view
      && u.txns[k] == t.(next := t.next + 1, items := u.txns[k].items,
                         writes := t.writes[line.productId := view[line.productId].amount - line.quantity])
  {
    var t, line := s.txns[k], s.txns[k].lines[s.txns[k].next];
    DropOwn(s.rowLocks, line.productId, k);
    var s1 := Step(s, SelectProduct(k));
    assert s1 == s.(rowLocks := s.rowLocks[line.productId := k], txns := s.txns[k := t.(phase := Inserting)]);
    var s2 := Step(s1, InsertItem(k));
    assert s2.txns[k] == t.(phase := Updating, items := s2.txns[k].items);
    var u := Step(s2, UpdateStock(k));
    assert u.txns - {k} == s.txns - {k};
  }

  // and one that cannot ends the transaction.
  lemma LineRefused(s: System, k: int)
    requires k in s.txns && s.txns[k].phase == Selecting && s.txns[k].next < |s.txns[k].lines|
    requires s.txns[k].lines[s.txns[k].next].productId !in Drop(s.rowLocks, k)
    requires LineError(Overlay(s.db.tables.products, s.txns[k].writes), s.txns[k].lines[s.txns[k].next]).Some?
    ensures var u := Step(Step(Step(s, SelectProduct(k)), InsertItem(k)), UpdateStock(k));
      u.db == s.db && u.log == s.log && SameOthers(s, u, k) && k !in u.txns
  {
    DropOwn(s.rowLocks, s.txns[k].lines[s.txns[k].next].productId, k);
    assert Step(s, SelectProduct(k)) == Release(s, k);
    ReleaseKeepsOthers(s, k);
  }

  lemma OverlayDecrement(ps: Products, writes: map<int, int>, line: Line)
    requires line.productId in ps
    ensures var view := Overlay(ps, writes);
      Decrement(view, line) == Overlay(ps, writes[line.productId := view[line.productId].amount - line.quantity])
  {
  }

  lemma RunLinesOneMore(ps: Products, lines: seq<Line>, i: nat)
    requires i < |lines|
    ensures RunLines(ps, lines[..i + 1]) ==
      match RunLines(ps, lines[..i])
      case Err(e) => Err(e)
      case Ok(qs) => match LineError(qs, lines[i]) case Some(e) => Err(e) case None => Ok(Decrement(qs, lines[i]))
  {
    assert lines[..i + 1][..i] == lines[..i];
  }

  lemma OneMoreRan(b: System, u: System, w: System, k: int, t0: Txn, i: nat)
    requires i < |t0.lines| && RanLines(b, u, k, t0, i) && RunLines(b.db.tables.products, t0.lines[..i + 1]).Ok?
    requires w.db == u.db && w.log == u.log && SameOthers(u, w, k) && k in u.txns && k in w.txns
    requires var view := Overlay(b.db.tables.products, u.txns[k].writes);
      && t0.lines[i].productId in view
      && w.txns[k] == u.txns[k].(next := i + 1, items := w.txns[k].items,
           writes := u.txns[k].writes[t0.lines[i].productId := view[t0.lines[i].productId].amount - t0.lines[i].quantity])
    ensures RanLines(b, w, k, t0, i + 1)
  {
    RunLinesOneMore(b.db.tables.products, t0.lines, i);
    OverlayDecrement(b.db.tables.products, u.txns[k].writes, t0.lines[i]);
  }

  lemma RanServed(b: System, u: System, k: int, t0: Txn, i: nat)
    requires t0.phase == Selecting && i < |t0.lines| && Free(b, k, t0.lines) && RanLines(b, u, k, t0, i)
    requires RunLines(b.db.tables.products, t0.lines[..i + 1]).Ok?
    ensures RanLines(b, Step(Step(Step(u, SelectProduct(k)), InsertItem(k)), UpdateStock(k)), k, t0, i + 1)
  {
    RunLinesOneMore(b.db.tables.products, t0.lines, i);
    assert k in u.txns && u.txns[k].next == i && u.txns[k].lines == t0.lines;
    assert LineError(Overlay(u.db.tables.products, u.txns[k].writes), t0.lines[i]) == None;
    LineServed(u, k);
    OneMoreRan(b, u, Step(Step(Step(u, SelectProduct(k)), InsertItem(k)), UpdateStock(k)), k, t0, i);
  }

  lemma RanRefused(b: System, u: System, k: int, t0: Txn, i: nat)
    requires t0.phase == Selecting && i < |t0.lines| && Free(b, k, t0.lines) && RanLines(b, u, k, t0, i)
    requires RunLines(b.db.tables.products, t0.lines[..i + 1]).Err?
    ensures RanLines(b, Step(Step(Step(u, SelectProduct(k)), InsertItem(k)), UpdateStock(k)), k, t0, i + 1)
  {
    RunLinesOneMore(b.db.tables.products, t0.lines, i);
    if k in u.txns {
      LineRefused(u, k);
    }
  }

  lemma RanOneMore(b: System, u: System, k: int, t0: Txn, i: nat)
    requires t0.phase == Selecting && i < |t0.lines| && Free(b, k, t0.lines) && RanLines(b, u, k, t0, i)
    ensures RanLines(b, Step(Step(Step(u, SelectProduct(k)), InsertItem(k)), UpdateStock(k)), k, t0, i + 1)
  {
    if RunLines(b.db.tables.products, t0.lines[..i + 1]).Ok? {
      RanServed(b, u, k, t0, i);
    } else {
      RanRefused(b, u, k, t0, i);
    }
  }

  lemma {:induction false} LinesRun(b: System, k: int, t0: Txn, i: nat)
    requires k in b.txns && b.txns[k] == t0 && t0.phase == Selecting && t0.next == 0 && t0.writes == map[]
    requires Free(b, k, t0.lines) && i <= |t0.lines|
    ensures RanLines(b, Execute(b, LineStatements(k, i)), k, t0, i)
  {
    if i == 0 {
      assert t0.lines[..0] == [];
      assert Overlay(b.db.tables.products, map[]) == b.db.tables.products;
    } else {
      LinesRun(b, k, t0, i - 1);
      FoldSplit(Step, b, LineStatements(k, i - 1), [SelectProduct(k), InsertItem(k), UpdateStock(k)]);
      FoldThree(Step, Execute(b, LineStatements(k, i - 1)), SelectProduct(k), InsertItem(k), UpdateStock(k));
      RanOneMore(b, Execute(b, LineStatements(k, i - 1)), k, t0, i - 1);
    }
  }

  // What a transaction that could be served or not leaves when it has ended.
  predicate Ended(s: System, u: System, k: int, t0: Txn) {
    var placed := Place(s.db.tables, t0.orderId, t0.user, t0.address, t0.lines);
    && SameOthers(s, u, k) && k !in u.txns
    && u.db == s.db.(nextOrderId := s.db.nextOrderId + 1,
                     tables := if placed.Err? then s.db.tables
                               else if t0.fromCart then placed.value.(cart := Filter(NotOwnedBy(t0.user), s.db.tables.cart))
                               else placed.value)
  }

  // Before its commit: running behind its last line, or rolled back.
  predicate AtCommit(s: System, u: System, k: int, t0: Txn) {
    && SameOthers(s, u, k) && u.db == s.db.(nextOrderId := s.db.nextOrderId + 1)
    && if RunLines(s.db.tables.products, t0.lines).Ok? then
         k in u.txns && u.txns[k] == t0.(next := |t0.lines|, items := u.txns[k].items, writes := u.txns[k].writes)
       else k !in u.txns
  }

  lemma CommitEnds(db0: Db, s: System, u: System, k: int, t0: Txn)
    requires Inv(db0, u) && AtCommit(s, u, k, t0) && t0.phase == Selecting
    ensures Ended(s, Step(u, CommitTxn(k)), k, t0)
  {
    if k in u.txns {
      CommitPlaces(db0, u, k);
      ReleaseKeepsOthers(u, k);
    }
  }

  lemma LinesAmongOthers(db0: Db, s: System, begin: Action, k: int, t0: Txn)
    requires Inv(db0, s) && k !in s.txns && Free(s, k, t0.lines)
    requires t0.phase == Selecting && t0.next == 0 && t0.writes == map[]
    requires var b := Step(s, begin);
      b == Begin(s, k, t0).(cartLocks := b.cartLocks) && Drop(b.cartLocks, k) == Drop(s.cartLocks, k)
    ensures var u := Execute(Step(s, begin), LineStatements(k, |t0.lines|));
      Inv(db0, u) && AtCommit(s, u, k, t0)
  {
    var n := |t0.lines|;
    var b := Step(s, begin);
    assert b.txns - {k} == s.txns - {k};
    assert t0.lines[..n] == t0.lines;
    LinesRun(b, k, t0, n);
    StepKeepsInv(db0, s, begin);
    ExecuteKeepsInv(db0, b, LineStatements(k, n));
  }

  lemma RunAmongOthers(db0: Db, s: System, begin: Action, k: int, t0: Txn)
    requires Inv(db0, s) && k !in s.txns && Free(s, k, t0.lines)
    requires t0.phase == Selecting && t0.next == 0 && t0.writes == map[]
    requires var b := Step(s, begin);
      b == Begin(s, k, t0).(cartLocks := b.cartLocks) && Drop(b.cartLocks, k) == Drop(s.cartLocks, k)
    ensures Ended(s, Execute(s, [begin] + LineStatements(k, |t0.lines|) + [CommitTxn(k)]), k, t0)
  {
    var u := Execute(Step(s, begin), LineStatements(k, |t0.lines|));
    FirstAndLast(s, begin, LineStatements(k, |t0.lines|), CommitTxn(k));
    LinesAmongOthers(db0, s, begin, k, t0);
    CommitEnds(db0, s, u, k, t0);
  }

  /**
   Whatever other transactions are under way: if none of them holds a product of the
   order, the statements of an order transaction do to the committed database what the
   call does in one piece, whether it succeeds or throws, and leave the others as they were.
   */
  lemma OrderAmongOthers(db0: Db, s: System, k: int, user: int, address: string, lines: seq<Line>)
    requires Inv(db0, s) && k !in s.txns && Free(s, k, lines) && lines != [] && WellFormed(lines)
    ensures var u := Execute(s, [BeginOrder(k, user, address, lines)] + LineStatements(k, |lines|) + [CommitTxn(k)]);
      u.db == Exec(s.db, CreateOrder(user, address, lines)).db && SameOthers(s, u, k) && u.txns == s.txns
  {
    RunAmongOthers(db0, s, BeginOrder(k, user, address, lines), k,
                   Txn(s.db.nextOrderId, user, address, false, lines, 0, Selecting, [], map[]));
    var u := Execute(s, [BeginOrder(k, user, address, lines)] + LineStatements(k, |lines|) + [CommitTxn(k)]);
    assert u.txns == u.txns - {k} && s.txns == s.txns - {k};
  }

  lemma EmptyCheckoutStops(s: System, k: int, user: int, address: string)
    requires Filter(OwnedBy(user), s.db.tables.cart) == [] && k !in s.txns
    ensures Execute(s, [BeginCheckout(k, user, address)] + LineStatements(k, 0) + [CommitTxn(k)]) == s
  {
    FirstAndLast(s, BeginCheckout(k, user, address), LineStatements(k, 0), CommitTxn(k));
  }

  function CheckoutTxn(db: Db, user: int, address: string): Txn {
    Txn(db.nextOrderId, user, address, true, LinesOf(Filter(OwnedBy(user), db.tables.cart)), 0, Selecting, [], map[])
  }

  lemma CheckoutEnded(s: System, u: System, k: int, user: int, address: string)
    requires Filter(OwnedBy(user), s.db.tables.cart) != [] && Ended(s, u, k, CheckoutTxn(s.db, user, address))
    ensures u.db == Exec(s.db, CheckoutCart(user, address)).db
  {
  }

  lemma CheckoutBegins(db0: Db, s: System, k: int, user: int, address: string)
    requires Inv(db0, s) && k !in s.txns && user !in s.cartLocks && Filter(OwnedBy(user), s.db.tables.cart) != []
    ensures var b := Step(s, BeginCheckout(k, user, address));
      b == Begin(s, k, CheckoutTxn(s.db, user, address)).(cartLocks := b.cartLocks) && Drop(b.cartLocks, k) == Drop(s.cartLocks, k)
  {
    assert user !in Drop(s.cartLocks, k);
    DropOwn(s.cartLocks, user, k);
  }

  /** So do those of a checkout, unless another checkout of the same user is under way. */
  lemma CheckoutAmongOthers(db0: Db, s: System, k: int, user: int, address: string)
    requires Inv(db0, s) && k !in s.txns && user !in s.cartLocks
    requires Free(s, k, LinesOf(Filter(OwnedBy(user), s.db.tables.cart)))
    ensures var lines := LinesOf(Filter(OwnedBy(user), s.db.tables.cart));
      var u := Execute(s, [BeginCheckout(k, user, address)] + LineStatements(k, |lines|) + [CommitTxn(k)]);
      u.db == Exec(s.db, CheckoutCart(user, address)).db && SameOthers(s, u, k) && u.txns == s.txns
  {
    var lines := LinesOf(Filter(OwnedBy(user), s.db.tables.cart));
    if lines == [] {
      EmptyCheckoutStops(s, k, user, address);
    } else {
      var u := Execute(s, [BeginCheckout(k, user, address)] + LineStatements(k, |lines|) + [CommitTxn(k)]);
      CheckoutBegins(db0, s, k, user, address);
      RunAmongOthers(db0, s, BeginCheckout(k, user, address), k, CheckoutTxn(s.db, user, address));
      CheckoutEnded(s, u, k, user, address);
      assert u.txns == u.txns - {k} && s.txns == s.txns - {k};
    }
  }

  // With nobody else under way, they are the calls themselves.
  lemma AloneMatchesCall(db: Db, k: int, user: int, address: string, lines: seq<Line>)
    requires Valid(db) && lines != [] && WellFormed(lines)
    ensures var actions := [BeginOrder(k, user, address, lines)] + LineStatements(k, |lines|) + [CommitTxn(k)];
      Execute(Start(db), actions).db == Exec(db, CreateOrder(user, address, lines)).db
  {
    OrderAmongOthers(db, Start(db), k, user, address, lines);
  }

  lemma AloneMatchesCheckout(db: Db, k: int, user: int, address: string)
    requires Valid(db)
    ensures var lines := LinesOf(Filter(OwnedBy(user), db.tables.cart));
      var actions := [BeginCheckout(k, user, address)] + LineStatements(k, |lines|) + [CommitTxn(k)];
      Execute(Start(db), actions).db == Exec(db, CheckoutCart(user, address)).db
  {
    CheckoutAmongOthers(db, Start(db), k, user, address);
  }

  // ---------- One order interleaved with others ----------

  function Script(k: int, user: int, address: string, lines: seq<Line>): seq<Action> {
    [BeginOrder(k, user, address, lines)] + LineStatements(k, |lines|) + [CommitTxn(k)]
  }

  // The transaction a statement belongs to.
  function TxnOf(a: Action): Option<int> {
    match a
    case BeginOrder(k, _, _, _) => Some(k)
    case BeginCheckout(k, _, _) => Some(k)
    case SelectProduct(k) => Some(k)
    case InsertItem(k) => Some(k)
    case UpdateStock(k) => Some(k)
    case CommitTxn(k) => Some(k)
    case Abort(k) => Some(k)
    case Call(_) => None
  }

  function Of(k: int): Action -> bool {
    (a: Action) => TxnOf(a) == Some(k)
  }

  predicate Asks(lines: seq<Line>, id: int) {
    exists i :: 0 <= i < |lines| && lines[i].productId == id
  }

  predicate Apart(a: seq<Line>, b: seq<Line>) {
    forall i :: 0 <= i < |a| ==> !Asks(b, a[i].productId)
  }

  // A statement of someone else that has nothing to do with the products of these lines.
  predicate KeepsAway(s: System, a: Action, k: int, lines: seq<Line>) {
    && TxnOf(a) != Some(k)
    && match a
       case BeginOrder(_, _, _, asked) => Apart(asked, lines)
       case BeginCheckout(_, user, _) => Apart(LinesOf(Filter(OwnedBy(user), s.db.tables.cart)), lines)
       case Call(AdminUpdateProduct(id, _, _, _)) => !Asks(lines, id)
       case Call(AdminDeleteProduct(id)) => !Asks(lines, id)
       case _ => true
  }

  // Nobody else asks for these products or holds them.
  predicate OthersApart(s: System, k: int, lines: seq<Line>) {
    && (forall j :: j in s.txns && j != k ==> Apart(s.txns[j].lines, lines))
    && (forall id :: id in s.rowLocks && Asks(lines, id) ==> s.rowLocks[id] == k)
  }

  predicate SameRows(ps: Products, qs: Products, lines: seq<Line>) {
    forall i :: 0 <= i < |lines| ==> SameRow(ps, qs, lines[i].productId)
  }

  predicate PlacedBy(s: System, e: Entry, user: int, address: string, lines: seq<Line>) {
    && e.Ordered? && e.user == user && e.address == address && e.lines == lines
    && e.orderId in s.db.tables.orders
    && s.db.tables.orders[e.orderId].userId == user && s.db.tables.orders[e.orderId].address == address
  }

  // The order is in the log behind its first `from` entries, its row is there, and its products have what it left of them.
  predicate Placed(ps: Products, s: System, from: nat, user: int, address: string, lines: seq<Line>) {
    && (exists i :: from <= i < |s.log| && PlacedBy(s, s.log[i], user, address, lines))
    && forall i :: 0 <= i < |lines| ==>
         var id := lines[i].productId;
         id in ps && id in s.db.tables.products && s.db.tables.products[id].amount == ps[id].amount - Demand(lines, id)
  }

  function PhaseAt(r: int): Phase {
    if r == 0 then Selecting else if r == 1 then Inserting else Updating
  }

  // `p` statements of the order's script are done.
  predicate AtStatement(ps: Products, s: System, from: nat, k: int, user: int, address: string, lines: seq<Line>, p: nat) {
    if p == 0 then k !in s.txns && SameRows(ps, s.db.tables.products, lines)
    else if p <= 3 * |lines| + 1 then
      && k in s.txns && SameRows(ps, s.db.tables.products, lines)
      && var t := s.txns[k];
         && t.user == user && t.address == address && t.lines == lines && !t.fromCart
         && t.next == (p - 1) / 3 && t.phase == PhaseAt((p - 1) % 3)
    else k !in s.txns && Placed(ps, s, from, user, address, lines)
  }

  lemma {:induction false} StatementAt(k: int, n: nat, i: nat)
    requires i < 3 * n
    ensures |LineStatements(k, n)| == 3 * n
    ensures LineStatements(k, n)[i] == match PhaseAt(i % 3)
                                       case Selecting => SelectProduct(k)
                                       case Inserting => InsertItem(k)
                                       case Updating => UpdateStock(k)
  {
    if n > 1 && i < 3 * (n - 1) {
      StatementAt(k, n - 1, i);
    } else if n > 1 {
      StatementAt(k, n - 1, 0);
    } else {
      assert LineStatements(k, 0) == [];
    }
  }

  lemma ScriptAt(k: int, user: int, address: string, lines: seq<Line>, p: nat)
    requires lines != [] && p < |Script(k, user, address, lines)|
    ensures |Script(k, user, address, lines)| == 3 * |lines| + 2
    ensures var a := Script(k, user, address, lines)[p];
      if p == 0 then a == BeginOrder(k, user, address, lines)
      else if p == 3 * |lines| + 1 then a == CommitTxn(k)
      else a == match PhaseAt((p - 1) % 3)
                case Selecting => SelectProduct(k)
                case Inserting => InsertItem(k)
                case Updating => UpdateStock(k)
  {
    StatementAt(k, |lines|, 0);
    if 1 <= p <= 3 * |lines| {
      StatementAt(k, |lines|, p - 1);
    }
  }

  // An order that can be fulfilled as a whole is not refused at any line.
  lemma NextLineServed(ps: Products, t: Txn)
    requires WellFormed(t.lines) && Fulfillable(ps, t.lines) && t.next < |t.lines| && Progress(ps, t)
    ensures LineError(Overlay(ps, t.writes), t.lines[t.next]) == None
  {
    var line := t.lines[t.next];
    DemandOfPrefix(t.lines, t.next + 1, line.productId);
    assert t.lines[..t.next + 1][..t.next] == t.lines[..t.next];
    if line.productId !in t.writes {
      DemandOfAbsent(t.lines[..t.next], line.productId);
    }
  }

  lemma RowsFulfill(ps: Products, qs: Products, lines: seq<Line>)
    requires Fulfillable(ps, lines) && SameRows(ps, qs, lines)
    ensures Fulfillable(qs, lines)
  {
  }

  // The three statements of a line of the order itself.
  lemma OwnSelect(db0: Db, ps: Products, s: System, from: nat, k: int, user: int, address: string, lines: seq<Line>, p: nat)
    requires Inv(db0, s) && lines != [] && WellFormed(lines) && Fulfillable(ps, lines)
    requires OthersApart(s, k, lines) && AtStatement(ps, s, from, k, user, address, lines, p)
    requires 1 <= p <= 3 * |lines| && (p - 1) % 3 == 0
    ensures var u := Step(s, SelectProduct(k));
      OthersApart(u, k, lines) && AtStatement(ps, u, from, k, user, address, lines, p + 1)
  {
    var t := s.txns[k];
    assert TxnOk(s, k);
    assert Asks(lines, lines[t.next].productId);
    RowsFulfill(ps, s.db.tables.products, lines);
    NextLineServed(s.db.tables.products, t);
  }

  lemma OwnInsert(ps: Products, s: System, from: nat, k: int, user: int, address: string, lines: seq<Line>, p: nat)
    requires OthersApart(s, k, lines) && AtStatement(ps, s, from, k, user, address, lines, p)
    requires 1 <= p <= 3 * |lines| && (p - 1) % 3 == 1
    ensures var u := Step(s, InsertItem(k));
      OthersApart(u, k, lines) && AtStatement(ps, u, from, k, user, address, lines, p + 1)
  {
  }

  lemma OwnUpdate(ps: Products, s: System, from: nat, k: int, user: int, address: string, lines: seq<Line>, p: nat)
    requires OthersApart(s, k, lines) && AtStatement(ps, s, from, k, user, address, lines, p)
    requires 1 <= p <= 3 * |lines| && (p - 1) % 3 == 2
    ensures var u := Step(s, UpdateStock(k));
      OthersApart(u, k, lines) && AtStatement(ps, u, from, k, user, address, lines, p + 1)
  {
    var line := lines[s.txns[k].next];
    assert SameRow(ps, s.db.tables.products, line.productId);
    assert line.productId in Overlay(s.db.tables.products, s.txns[k].writes);
  }

  lemma OwnBegin(s: System, ps: Products, from: nat, k: int, user: int, address: string, lines: seq<Line>)
    requires lines != [] && WellFormed(lines)
    requires OthersApart(s, k, lines) && AtStatement(ps, s, from, k, user, address, lines, 0)
    ensures var u := Step(s, Script(k, user, address, lines)[0]);
      OthersApart(u, k, lines) && AtStatement(ps, u, from, k, user, address, lines, 1)
  {
  }

  lemma OwnCommit(db0: Db, ps: Products, s: System, from: nat, k: int, user: int, address: string, lines: seq<Line>)
    requires Inv(db0, s) && from <= |s.log| && lines != [] && WellFormed(lines)
    requires OthersApart(s, k, lines) && AtStatement(ps, s, from, k, user, address, lines, 3 * |lines| + 1)
    ensures var u := Step(s, CommitTxn(k));
      OthersApart(u, k, lines) && AtStatement(ps, u, from, k, user, address, lines, 3 * |lines| + 2)
  {
    var t, u := s.txns[k], Step(s, CommitTxn(k));
    assert TxnOk(s, k) && u == CommitStep(s, k);
    OverlayIsSold(s.db.tables.products, t);
    PlacedIffFulfillable(s.db.tables.products, lines);
    assert u.log[|s.log|] == Ordered(t.orderId, user, address, lines);
    assert PlacedBy(u, u.log[|s.log|], user, address, lines);
  }

  lemma OwnStep(db0: Db, ps: Products, s: System, from: nat, k: int, user: int, address: string, lines: seq<Line>, p: nat)
    requires Inv(db0, s) && from <= |s.log| && lines != [] && WellFormed(lines) && Fulfillable(ps, lines)
    requires OthersApart(s, k, lines) && AtStatement(ps, s, from, k, user, address, lines, p)
    requires p < |Script(k, user, address, lines)|
    ensures var u := Step(s, Script(k, user, address, lines)[p]);
      OthersApart(u, k, lines) && AtStatement(ps, u, from, k, user, address, lines, p + 1)
  {
    ScriptAt(k, user, address, lines, p);
    if p == 0 {
      OwnBegin(s, ps, from, k, user, address, lines);
    } else if p <= 3 * |lines| {
      match PhaseAt((p - 1) % 3)
      case Selecting => OwnSelect(db0, ps, s, from, k, user, address, lines, p);
      case Inserting => OwnInsert(ps, s, from, k, user, address, lines, p);
      case Updating => OwnUpdate(ps, s, from, k, user, address, lines, p);
    } else {
      OwnCommit(db0, ps, s, from, k, user, address, lines);
    }
  }

  lemma LogGrows(s: System, a: Action)
    ensures s.log <= Step(s, a).log
  {
  }

  // An order keeps its owner and address.
  predicate SameOrder(before: map<int, OrderRow>, after: map<int, OrderRow>, id: int)
    requires id in before
  {
    id in after && after[id].userId == before[id].userId && after[id].address == before[id].address
  }

  // What a statement of someone else leaves alone.
  predicate Untouched(s: System, u: System, k: int, lines: seq<Line>) {
    && (k in u.txns <==> k in s.txns) && (k in s.txns ==> u.txns[k] == s.txns[k])
    && s.log <= u.log
    && (forall i :: 0 <= i < |lines| && lines[i].productId in s.db.tables.products ==>
          SameRow(s.db.tables.products, u.db.tables.products, lines[i].productId))
    && (forall id :: id in s.db.tables.orders ==> SameOrder(s.db.tables.orders, u.db.tables.orders, id))
  }

  lemma UntouchedStays(ps: Products, s: System, u: System, from: nat, k: int, user: int, address: string, lines: seq<Line>, p: nat)
    requires Untouched(s, u, k, lines) && AtStatement(ps, s, from, k, user, address, lines, p)
    ensures AtStatement(ps, u, from, k, user, address, lines, p)
  {
    if p > 3 * |lines| + 1 {
      var i :| from <= i < |s.log| && PlacedBy(s, s.log[i], user, address, lines);
      assert PlacedBy(u, u.log[i], user, address, lines);
    }
  }

  lemma CallKeepsRow(db: Db, op: Op, id: int)
    requires Valid(db) && !op.CreateOrder? && !op.CheckoutCart? && id in db.tables.products
    requires (op.AdminUpdateProduct? || op.AdminDeleteProduct?) ==> op.id != id
    ensures SameRow(db.tables.products, Exec(db, op).db.tables.products, id)
  {
  }

  lemma CallKeepsOrder(db: Db, op: Op, id: int)
    requires !op.CreateOrder? && !op.CheckoutCart? && id in db.tables.orders
    ensures SameOrder(db.tables.orders, Exec(db, op).db.tables.orders, id)
  {
  }

  // A call that keeps away from the products keeps their rows.
  lemma CallKeepsAway(s: System, op: Op, k: int, lines: seq<Line>)
    requires Valid(s.db) && Unblocked(s, op) && KeepsAway(s, Call(op), k, lines)
    ensures Untouched(s, Step(s, Call(op)), k, lines)
  {
    forall i | 0 <= i < |lines| && lines[i].productId in s.db.tables.products
      ensures SameRow(s.db.tables.products, Exec(s.db, op).db.tables.products, lines[i].productId)
    {
      assert Asks(lines, lines[i].productId);
      CallKeepsRow(s.db, op, lines[i].productId);
    }
    forall id | id in s.db.tables.orders ensures SameOrder(s.db.tables.orders, Exec(s.db, op).db.tables.orders, id) {
      CallKeepsOrder(s.db, op, id);
    }
  }

  lemma CommitKeepsAway(db0: Db, s: System, j: int, k: int, lines: seq<Line>)
    requires Inv(db0, s) && OthersApart(s, k, lines) && j != k
    requires j in s.txns && s.txns[j].phase == Selecting && s.txns[j].next == |s.txns[j].lines|
    ensures Untouched(s, CommitStep(s, j), k, lines)
  {
    assert TxnOk(s, j);
    forall i | 0 <= i < |lines| && lines[i].productId in s.db.tables.products
      ensures SameRow(s.db.tables.products, CommitStep(s, j).db.tables.products, lines[i].productId)
    {
      assert Asks(lines, lines[i].productId);
    }
  }

  // Only commits and calls touch the committed tables and the log.
  lemma QuietStatement(s: System, a: Action, k: int, lines: seq<Line>)
    requires !a.CommitTxn? && !a.Call? && TxnOf(a) != Some(k)
    ensures Untouched(s, Step(s, a), k, lines)
  {
  }

  lemma StaysApart(s: System, a: Action, k: int, lines: seq<Line>)
    requires OthersApart(s, k, lines) && KeepsAway(s, a, k, lines)
    ensures OthersApart(Step(s, a), k, lines)
  {
  }

  lemma OthersLeaveUntouched(db0: Db, s: System, a: Action, k: int, lines: seq<Line>)
    requires Inv(db0, s) && OthersApart(s, k, lines) && KeepsAway(s, a, k, lines)
    ensures Untouched(s, Step(s, a), k, lines)
  {
    if a.CommitTxn? && Step(s, a) != s {
      CommitKeepsAway(db0, s, a.txn, k, lines);
    } else if a.Call? && Step(s, a) != s {
      CallKeepsAway(s, a.op, k, lines);
    } else if !a.CommitTxn? && !a.Call? {
      QuietStatement(s, a, k, lines);
    }
  }

  // A statement of someone else does not disturb the order.
  lemma OthersStatement(db0: Db, ps: Products, s: System, a: Action, from: nat,
                        k: int, user: int, address: string, lines: seq<Line>, p: nat)
    requires Inv(db0, s) && OthersApart(s, k, lines) && KeepsAway(s, a, k, lines)
    requires AtStatement(ps, s, from, k, user, address, lines, p)
    ensures OthersApart(Step(s, a), k, lines) && AtStatement(ps, Step(s, a), from, k, user, address, lines, p)
  {
    StaysApart(s, a, k, lines);
    OthersLeaveUntouched(db0, s, a, k, lines);
    UntouchedStays(ps, s, Step(s, a), from, k, user, address, lines, p);
  }

  predicate AllKeepAway(s: System, actions: seq<Action>, k: int, lines: seq<Line>) {
    forall i :: 0 <= i < |actions| ==> TxnOf(actions[i]) == Some(k) || KeepsAway(Execute(s, actions[..i]), actions[i], k, lines)
  }

  lemma AllKeepAwayPrefix(s: System, actions: seq<Action>, k: int, lines: seq<Line>)
    requires actions != [] && AllKeepAway(s, actions, k, lines)
    ensures var n := |actions| - 1;
      && AllKeepAway(s, actions[..n], k, lines)
      && (TxnOf(actions[n]) == Some(k) || KeepsAway(Execute(s, actions[..n]), actions[n], k, lines))
  {
    var init := actions[..|actions| - 1];
    forall i | 0 <= i < |init|
      ensures TxnOf(init[i]) == Some(k) || KeepsAway(Execute(s, init[..i]), init[i], k, lines)
    {
      assert init[..i] == actions[..i];
    }
  }

  // What a prefix that reaches one action further has to do with the script.
  lemma OneMoreOwn(actions: seq<Action>, k: int, script: seq<Action>)
    requires actions != [] && Filter(Of(k), actions) <= script
    ensures var n := |actions| - 1;
      var done := Filter(Of(k), actions[..n]);
      && done <= script
      && |Filter(Of(k), actions)| == |done| + (if TxnOf(actions[n]) == Some(k) then 1 else 0)
      && (TxnOf(actions[n]) == Some(k) ==> |done| < |script| && actions[n] == script[|done|])
  {
    var n := |actions| - 1;
    PrefixGrows(Filter(Of(k), actions[..n]), actions[n], script);
  }

  lemma OneMoreStatement(db0: Db, ps: Products, u: System, a: Action, from: nat,
                         k: int, user: int, address: string, lines: seq<Line>, p: nat)
    requires Inv(db0, u) && from <= |u.log| && lines != [] && WellFormed(lines) && Fulfillable(ps, lines)
    requires OthersApart(u, k, lines) && AtStatement(ps, u, from, k, user, address, lines, p)
    requires if TxnOf(a) == Some(k) then p < |Script(k, user, address, lines)| && a == Script(k, user, address, lines)[p]
             else KeepsAway(u, a, k, lines)
    ensures OthersApart(Step(u, a), k, lines) && from <= |Step(u, a).log|
    ensures AtStatement(ps, Step(u, a), from, k, user, address, lines, if TxnOf(a) == Some(k) then p + 1 else p)
  {
    LogGrows(u, a);
    if TxnOf(a) == Some(k) {
      OwnStep(db0, ps, u, from, k, user, address, lines, p);
    } else {
      OthersStatement(db0, ps, u, a, from, k, user, address, lines, p);
    }
  }

  // The state after any prefix, by the number of the order's own statements in it.
  lemma {:induction false} OrderProgresses(db0: Db, s: System, actions: seq<Action>, k: int, user: int, address: string, lines: seq<Line>)
    requires Inv(db0, s) && k !in s.txns && OthersApart(s, k, lines)
    requires lines != [] && WellFormed(lines) && Fulfillable(s.db.tables.products, lines)
    requires Filter(Of(k), actions) <= Script(k, user, address, lines) && AllKeepAway(s, actions, k, lines)
    ensures var u := Execute(s, actions);
      && OthersApart(u, k, lines)
      && |s.log| <= |u.log|
      && AtStatement(s.db.tables.products, u, |s.log|, k, user, address, lines, |Filter(Of(k), actions)|)
  {
    var ps := s.db.tables.products;
    if actions == [] {
      assert forall i :: 0 <= i < |lines| ==> Sellable(ps, lines[i].productId);
    } else {
      var n := |actions| - 1;
      var a, done := actions[n], Filter(Of(k), actions[..n]);
      AllKeepAwayPrefix(s, actions, k, lines);
      OneMoreOwn(actions, k, Script(k, user, address, lines));
      OrderProgresses(db0, s, actions[..n], k, user, address, lines);
      ExecuteKeepsInv(db0, s, actions[..n]);
      OneMoreStatement(db0, ps, Execute(s, actions[..n]), a, |s.log|, k, user, address, lines, |done|);
    }
  }

  /**
   However its statements are interleaved with those of others that keep away from its
   products, an order that can be fulfilled at its begin is committed: it is not made to
   wait, not refused and not lost.
   */
  lemma UndisturbedOrder(db0: Db, s: System, actions: seq<Action>, k: int, user: int, address: string, lines: seq<Line>)
    requires Inv(db0, s) && k !in s.txns && OthersApart(s, k, lines)
    requires lines != [] && WellFormed(lines) && Fulfillable(s.db.tables.products, lines)
    requires Filter(Of(k), actions) == Script(k, user, address, lines) && AllKeepAway(s, actions, k, lines)
    ensures var u := Execute(s, actions);
      k !in u.txns && Placed(s.db.tables.products, u, |s.log|, user, address, lines)
  {
    OrderProgresses(db0, s, actions, k, user, address, lines);
    ScriptAt(k, user, address, lines, 0);
  }

  predicate OfTwo(actions: seq<Action>, j: int, k: int) {
    forall i :: 0 <= i < |actions| ==> TxnOf(actions[i]) == Some(j) || TxnOf(actions[i]) == Some(k)
  }

  // What the statements of one script are, told apart from checkouts and calls.
  lemma OneOfScript(a: Action, j: int, user: int, address: string, lines: seq<Line>)
    requires lines != [] && a in Script(j, user, address, lines)
    ensures !a.BeginCheckout? && !a.Call? && (a.BeginOrder? ==> a.lines == lines)
  {
    var p :| 0 <= p < |Script(j, user, address, lines)| && Script(j, user, address, lines)[p] == a;
    ScriptAt(j, user, address, lines, p);
  }

  lemma ShuffledKeepsAway(s: System, actions: seq<Action>, k: int, lines: seq<Line>,
                          j: int, user: int, address: string, asked: seq<Line>)
    requires OfTwo(actions, j, k) && asked != [] && Apart(asked, lines)
    requires Filter(Of(j), actions) == Script(j, user, address, asked)
    ensures AllKeepAway(s, actions, k, lines)
  {
    forall i | 0 <= i < |actions| && TxnOf(actions[i]) != Some(k)
      ensures KeepsAway(Execute(s, actions[..i]), actions[i], k, lines)
    {
      FilterMembers(Of(j), actions);
      assert actions[i] in actions && Of(j)(actions[i]);
      OneOfScript(actions[i], j, user, address, asked);
    }
  }

  lemma ApartEitherWay(a: seq<Line>, b: seq<Line>)
    requires Apart(a, b)
    ensures Apart(b, a)
  {
    forall i, j | 0 <= i < |b| && 0 <= j < |a| ensures a[j].productId != b[i].productId {
      assert !Asks(b, a[j].productId);
    }
  }

  /** Two orders that ask for different products are both committed, however their statements are shuffled. */
  lemma ShuffledOrdersCommit(db0: Db, s: System, actions: seq<Action>,
                             j: int, user1: int, address1: string, lines1: seq<Line>,
                             k: int, user2: int, address2: string, lines2: seq<Line>)
    requires Inv(db0, s) && j != k && j !in s.txns && k !in s.txns
    requires OthersApart(s, j, lines1) && OthersApart(s, k, lines2) && Apart(lines1, lines2)
    requires lines1 != [] && WellFormed(lines1) && Fulfillable(s.db.tables.products, lines1)
    requires lines2 != [] && WellFormed(lines2) && Fulfillable(s.db.tables.products, lines2)
    requires Filter(Of(j), actions) == Script(j, user1, address1, lines1)
    requires Filter(Of(k), actions) == Script(k, user2, address2, lines2)
    requires OfTwo(actions, j, k)
    ensures var u := Execute(s, actions);
      && j !in u.txns && k !in u.txns
      && Placed(s.db.tables.products, u, |s.log|, user1, address1, lines1)
      && Placed(s.db.tables.products, u, |s.log|, user2, address2, lines2)
  {
    ApartEitherWay(lines1, lines2);
    ShuffledKeepsAway(s, actions, j, lines1, k, user2, address2, lines2);
    ShuffledKeepsAway(s, actions, k, lines2, j, user1, address1, lines1);
    UndisturbedOrder(db0, s, actions, j, user1, address1, lines1);
    UndisturbedOrder(db0, s, actions, k, user2, address2, lines2);
  }

  predicate AllOf(k: int, actions: seq<Action>) {
    forall i :: 0 <= i < |actions| ==> TxnOf(actions[i]) == Some(k)
  }

  lemma {:induction false} StatementsOf(k: int, n: nat)
    ensures AllOf(k, LineStatements(k, n))
  {
    if n > 0 {
      StatementsOf(k, n - 1);
    }
  }

  // Statements of two transactions, those of one before those of the other, hold those of each.
  lemma FilterOfTwo(j: int, k: int, first: seq<Action>, second: seq<Action>)
    requires j != k && AllOf(j, first) && AllOf(k, second)
    ensures Filter(Of(j), first + second) == first && Filter(Of(k), first + second) == second
    ensures OfTwo(first + second, j, k)
  {
    FilterMixed(Of(j), first, second);
    FilterMixed(Of(k), second, first);
  }

  // Both begin, each serves its lines, and the one that served first commits last.
  function Overlapping(j: int, user1: int, address1: string, lines1: seq<Line>,
                       k: int, user2: int, address2: string, lines2: seq<Line>): seq<Action> {
    ([BeginOrder(j, user1, address1, lines1)] + [BeginOrder(k, user2, address2, lines2)])
    + (LineStatements(j, |lines1|) + LineStatements(k, |lines2|)) + ([CommitTxn(k)] + [CommitTxn(j)])
  }

  lemma ThreeParts(j: int, k: int, a: seq<Action>, b: seq<Action>, c: seq<Action>)
    requires OfTwo(a, j, k) && OfTwo(b, j, k) && OfTwo(c, j, k)
    ensures OfTwo(a + b + c, j, k)
    ensures Filter(Of(j), a + b + c) == Filter(Of(j), a) + Filter(Of(j), b) + Filter(Of(j), c)
    ensures Filter(Of(k), a + b + c) == Filter(Of(k), a) + Filter(Of(k), b) + Filter(Of(k), c)
  {
    FilterConcat(Of(j), a, b);
    FilterConcat(Of(j), a + b, c);
    FilterConcat(Of(k), a, b);
    FilterConcat(Of(k), a + b, c);
  }

  lemma OverlappingIsShuffle(j: int, user1: int, address1: string, lines1: seq<Line>,
                             k: int, user2: int, address2: string, lines2: seq<Line>)
    requires j != k
    ensures var actions := Overlapping(j, user1, address1, lines1, k, user2, address2, lines2);
      && OfTwo(actions, j, k)
      && Filter(Of(j), actions) == Script(j, user1, address1, lines1)
      && Filter(Of(k), actions) == Script(k, user2, address2, lines2)
  {
    var b1, b2 := [BeginOrder(j, user1, address1, lines1)], [BeginOrder(k, user2, address2, lines2)];
    var l1, l2 := LineStatements(j, |lines1|), LineStatements(k, |lines2|);
    StatementsOf(j, |lines1|);
    StatementsOf(k, |lines2|);
    FilterOfTwo(j, k, b1, b2);
    FilterOfTwo(j, k, l1, l2);
    FilterOfTwo(k, j, [CommitTxn(k)], [CommitTxn(j)]);
    ThreeParts(j, k, b1 + b2, l1 + l2, [CommitTxn(k)] + [CommitTxn(j)]);
  }

  /** So two buyers of different products, both under way at once, are both served from any valid tables that can serve each. */
  lemma OverlappingOrdersCommit(db: Db, j: int, user1: int, address1: string, lines1: seq<Line>,
                                k: int, user2: int, address2: string, lines2: seq<Line>)
    requires Valid(db) && j != k && Apart(lines1, lines2)
    requires lines1 != [] && WellFormed(lines1) && Fulfillable(db.tables.products, lines1)
    requires lines2 != [] && WellFormed(lines2) && Fulfillable(db.tables.products, lines2)
    ensures var u := Execute(Start(db), Overlapping(j, user1, address1, lines1, k, user2, address2, lines2));
      && j !in u.txns && k !in u.txns
      && Placed(db.tables.products, u, 0, user1, address1, lines1)
      && Placed(db.tables.products, u, 0, user2, address2, lines2)
  {
    OverlappingIsShuffle(j, user1, address1, lines1, k, user2, address2, lines2);
    ShuffledOrdersCommit(db, Start(db), Overlapping(j, user1, address1, lines1, k, user2, address2, lines2),
                         j, user1, address1, lines1, k, user2, address2, lines2);
  }

  // ---------- Calls and aborts among transactions ----------

  /** A call of one statement waits exactly for a lock on its product or on its user's cart, and otherwise takes effect at once. */
  lemma CallAmongOthers(s: System, op: Op)
    requires ValidOp(op) && !op.CreateOrder? && !op.CheckoutCart?
    ensures var waits :=
        || ((op.AdminUpdateProduct? || op.AdminDeleteProduct?) && op.id in s.rowLocks)
        || ((op.AddCartItem? || op.UpdateCartItem? || op.DeleteCartItem?) && op.user in s.cartLocks);
      var u := Step(s, Call(op));
      if waits then u == s else u == s.(db := Exec(s.db, op).db, log := s.log + [Called(op)])
  {
  }

  /** An abort takes the transaction and its locks away, and nothing else. */
  lemma AbortAmongOthers(s: System, k: int)
    requires k in s.txns
    ensures var u := Step(s, Abort(k));
      && u.txns == s.txns - {k} && u.db == s.db && u.log == s.log && SameOthers(s, u, k)
      && k !in u.rowLocks.Values && k !in u.cartLocks.Values
  {
    ReleaseKeepsOthers(s, k);
    DropAgain(s.rowLocks, k);
    DropAgain(s.cartLocks, k);
  }
}
