/**
 ORDER BY: the orders in which the listings ask for their rows.  Those that end with the
 id leave the database no choice, so pages requested one by one fit together; the user
 list of the administration has no such tie-break.
 */
module Sorting {
  import opened Paging
  import opened Queries
  import opened Seqs
  import opened Wrappers

  datatype Direction = Asc | Desc

  // `ByColumn` ends with the id, descending; `BySeverity` with the creation time and the id, descending.
  datatype OrderBy = ByColumn(col: Column, dir: Direction) | BySeverity(dir: Direction)

  // NULL comes after every value.
  predicate Less(sem: Semantics, a: Value, b: Value) {
    a != Null && (b == Null || (sem.atMost(a, b) && !sem.atMost(b, a)))
  }

  predicate Ahead(sem: Semantics, a: Value, b: Value, dir: Direction) {
    if dir == Asc then Less(sem, a, b) else Less(sem, b, a)
  }

  predicate Tied(sem: Semantics, a: Value, b: Value) {
    !Less(sem, a, b) && !Less(sem, b, a)
  }

  function Rank(severity: Value): int {
    if severity == Text("normal") then 1
    else if severity == Text("high") then 2
    else if severity == Text("urgent") then 3
    else if severity == Text("emergent") then 4
    else 999
  }

  function IdOf(row: Row): int {
    if row(Id).Int? then row(Id).i else 0
  }

  // The last sort keys of every listing: `col` in the given direction, then the id, descending.
  predicate ColumnAhead(sem: Semantics, a: Row, b: Row, col: Column, dir: Direction) {
    Ahead(sem, a(col), b(col), dir) || (Tied(sem, a(col), b(col)) && IdOf(a) > IdOf(b))
  }

  predicate Precedes(sem: Semantics, order: OrderBy, a: Row, b: Row) {
    match order
    case ByColumn(col, dir) => ColumnAhead(sem, a, b, col, dir)
    case BySeverity(dir) =>
      var x, y := Rank(a(SeverityName)), Rank(b(SeverityName));
      (if dir == Asc then x < y else x > y) || (x == y && ColumnAhead(sem, a, b, CreatedAt, Desc))
  }

  function Before(sem: Semantics, order: OrderBy): (Row, Row) -> bool {
    (a: Row, b: Row) => Precedes(sem, order, a, b)
  }

  // ---------- What the orders mean ----------

  ghost predicate TotalPreorder(sem: Semantics) {
    && (forall a, b :: sem.atMost(a, b) || sem.atMost(b, a))
    && (forall a, b, c :: sem.atMost(a, b) && sem.atMost(b, c) ==> sem.atMost(a, c))
  }

  // NULL stands behind every value.
  predicate NoGreater(sem: Semantics, a: Value, b: Value) {
    b == Null || (a != Null && sem.atMost(a, b))
  }

  // Each value is no greater than those behind it, and equal values go by descending id.
  ghost predicate Ascending(sem: Semantics, rows: seq<Row>, col: Column) {
    forall i, j :: 0 <= i < j < |rows| ==>
      && NoGreater(sem, rows[i](col), rows[j](col))
      && (NoGreater(sem, rows[j](col), rows[i](col)) ==> IdOf(rows[i]) >= IdOf(rows[j]))
  }

  ghost predicate Descending(sem: Semantics, rows: seq<Row>, col: Column) {
    forall i, j :: 0 <= i < j < |rows| ==>
      && NoGreater(sem, rows[j](col), rows[i](col))
      && (NoGreater(sem, rows[i](col), rows[j](col)) ==> IdOf(rows[i]) >= IdOf(rows[j]))
  }

  ghost predicate ListedBy(sem: Semantics, rows: seq<Row>, col: Column, dir: Direction) {
    if dir == Asc then Ascending(sem, rows, col) else Descending(sem, rows, col)
  }

  // `a` may stand before `b`.
  predicate MayPrecede(sem: Semantics, a: Row, b: Row, col: Column, dir: Direction) {
    var low, high := if dir == Asc then a(col) else b(col), if dir == Asc then b(col) else a(col);
    NoGreater(sem, low, high) && (NoGreater(sem, high, low) ==> IdOf(a) >= IdOf(b))
  }

  lemma MayPrecedeIff(sem: Semantics, a: Row, b: Row, col: Column, dir: Direction)
    requires TotalPreorder(sem)
    ensures !Precedes(sem, ByColumn(col, dir), b, a) <==> MayPrecede(sem, a, b, col, dir)
  {
    assert sem.atMost(a(col), b(col)) || sem.atMost(b(col), a(col));
  }

  /** A page arranged by a column ascends or descends in it, and equal values go by descending id. */
  lemma ByColumnMeans(sem: Semantics, rows: seq<Row>, col: Column, dir: Direction)
    requires TotalPreorder(sem)
    ensures Arranged(Before(sem, ByColumn(col, dir)), rows) <==> ListedBy(sem, rows, col, dir)
  {
    forall i, j | 0 <= i < j < |rows|
      ensures !Before(sem, ByColumn(col, dir))(rows[j], rows[i]) <==> MayPrecede(sem, rows[i], rows[j], col, dir)
    {
      MayPrecedeIff(sem, rows[i], rows[j], col, dir);
    }
  }

  const SEVERITIES := ["normal", "high", "urgent", "emergent"]

  // The row has the k-th severity, or with k == 4 none of the four.
  predicate HasSeverity(row: Row, k: nat) {
    if k < |SEVERITIES| then row(SeverityName) == Text(SEVERITIES[k])
    else k == |SEVERITIES| && forall i :: 0 <= i < |SEVERITIES| ==> row(SeverityName) != Text(SEVERITIES[i])
  }

  // By severity in one direction, within one severity the newer first and then by descending id.
  ghost predicate SeverityOrdered(sem: Semantics, rows: seq<Row>, dir: Direction) {
    forall i, j, k: nat, l: nat :: 0 <= i < j < |rows| && HasSeverity(rows[i], k) && HasSeverity(rows[j], l) ==>
      && (if dir == Asc then k <= l else k >= l)
      && (k == l ==> NoGreater(sem, rows[j](CreatedAt), rows[i](CreatedAt)))
      && (k == l && NoGreater(sem, rows[i](CreatedAt), rows[j](CreatedAt)) ==> IdOf(rows[i]) >= IdOf(rows[j]))
  }

  lemma RankOf(row: Row, k: nat)
    requires HasSeverity(row, k)
    ensures Rank(row(SeverityName)) == if k < 4 then k + 1 else 999
  {
    assert SEVERITIES[0] == "normal" && SEVERITIES[1] == "high" && SEVERITIES[2] == "urgent" && SEVERITIES[3] == "emergent";
    assert k == 0 || k == 1 || k == 2 || k == 3 || k == 4;
    assert "normal"[0] == 'n' && "high"[0] == 'h' && "urgent"[0] == 'u' && "emergent"[0] == 'e';
  }

  /** So does one arranged by severity. */
  lemma BySeverityMeans(sem: Semantics, rows: seq<Row>, dir: Direction)
    requires TotalPreorder(sem) && Arranged(Before(sem, BySeverity(dir)), rows)
    ensures SeverityOrdered(sem, rows, dir)
  {
    forall i, j, k: nat, l: nat | 0 <= i < j < |rows| && HasSeverity(rows[i], k) && HasSeverity(rows[j], l)
      ensures if dir == Asc then k <= l else k >= l
      ensures k == l ==> NoGreater(sem, rows[j](CreatedAt), rows[i](CreatedAt))
      ensures k == l && NoGreater(sem, rows[i](CreatedAt), rows[j](CreatedAt)) ==> IdOf(rows[i]) >= IdOf(rows[j])
    {
      RankOf(rows[i], k);
      RankOf(rows[j], l);
      assert !Precedes(sem, BySeverity(dir), rows[j], rows[i]);
    }
  }

  // ---------- When an order leaves no choice ----------

  ghost predicate DistinctIds(rows: seq<Row>) {
    forall i, j :: 0 <= i < j < |rows| ==> IdOf(rows[i]) != IdOf(rows[j])
  }

  lemma IdsDecide(sem: Semantics, order: OrderBy, rows: seq<Row>)
    requires DistinctIds(rows)
    ensures Decides(Before(sem, order), rows)
  {
    forall i, j | 0 <= i < |rows| && 0 <= j < |rows| && rows[i] != rows[j]
      ensures Precedes(sem, order, rows[i], rows[j]) || Precedes(sem, order, rows[j], rows[i])
    {
      assert IdOf(rows[i]) != IdOf(rows[j]);
    }
  }

  // Whatever arrangement a query comes back with, it is the one arrangement.
  lemma Settled(sem: Semantics, order: OrderBy, table: seq<Row>, answer: seq<Row>)
    requires DistinctIds(table) && multiset(answer) == multiset(table)
    requires Arranged(Before(sem, order), table) && Arranged(Before(sem, order), answer)
    ensures answer == table
  {
    IdsDecide(sem, order, table);
    OneArrangement(Before(sem, order), table, answer);
  }

  /**
   With the id as tie-break, pages requested one by one fit together: whatever
   arrangement each query comes back with, page p is page p of one and the same list,
   by any column or by severity, ascending or descending.
   */
  lemma SeparatePagesAgree(sem: Semantics, order: OrderBy, table: seq<Row>, answer: seq<Row>,
                           page: nat, limit: Option<int>, defaultLimit: int, maxLimit: int)
    requires page >= 1 && (limit.Some? ==> limit.value >= 1) && defaultLimit >= 1 && maxLimit >= 1
    requires DistinctIds(table) && multiset(answer) == multiset(table)
    requires Arranged(Before(sem, order), table) && Arranged(Before(sem, order), answer)
    ensures PageOf(answer, page, limit, defaultLimit, maxLimit) == PageOf(table, page, limit, defaultLimit, maxLimit)
  {
    Settled(sem, order, table, answer);
  }

  // ---------- The user list ----------

  // ORDER BY created_at DESC, and nothing after it.
  function UserListOrder(sem: Semantics): (Row, Row) -> bool {
    (a: Row, b: Row) => Ahead(sem, a(CreatedAt), b(CreatedAt), Desc)
  }

  // Tied values stand alike to all others.
  lemma TiedAlike(sem: Semantics, a: Value, a': Value, b: Value, b': Value)
    requires TotalPreorder(sem) && Tied(sem, a, a') && Tied(sem, b, b')
    ensures Less(sem, a, b) <==> Less(sem, a', b')
  {
  }

  lemma TiedRowsSwap(sem: Semantics, table: seq<Row>, i: nat, j: nat) returns (t: seq<Row>)
    requires TotalPreorder(sem) && DistinctIds(table) && Arranged(UserListOrder(sem), table)
    requires i < j < |table| && Tied(sem, table[i](CreatedAt), table[j](CreatedAt))
    ensures multiset(t) == multiset(table) && Arranged(UserListOrder(sem), t) && t != table
  {
    t := table[i := table[j]][j := table[i]];
    assert IdOf(table[i]) != IdOf(table[j]);
    assert t[i] != table[i];
    forall k, l | 0 <= k < l < |t| ensures !UserListOrder(sem)(t[l], t[k]) {
      assert Tied(sem, table[k](CreatedAt), t[k](CreatedAt)) && Tied(sem, table[l](CreatedAt), t[l](CreatedAt));
      TiedAlike(sem, table[k](CreatedAt), t[k](CreatedAt), table[l](CreatedAt), t[l](CreatedAt));
      assert !UserListOrder(sem)(table[l], table[k]);
    }
  }

  /**
   Without a tie-break pages need not fit together: the list has one arrangement exactly
   when no two users were created at the same time.
   */
  lemma UserListSettledIff(sem: Semantics, table: seq<Row>)
    requires TotalPreorder(sem) && DistinctIds(table) && Arranged(UserListOrder(sem), table)
    ensures (forall t: seq<Row> :: multiset(t) == multiset(table) && Arranged(UserListOrder(sem), t) ==> t == table)
       <==> (forall i, j :: 0 <= i < j < |table| ==> !Tied(sem, table[i](CreatedAt), table[j](CreatedAt)))
  {
    if i, j :| 0 <= i < j < |table| && Tied(sem, table[i](CreatedAt), table[j](CreatedAt)) {
      var t := TiedRowsSwap(sem, table, i, j);
    } else {
      forall t: seq<Row> | multiset(t) == multiset(table) && Arranged(UserListOrder(sem), t) ensures t == table {
        OneArrangement(UserListOrder(sem), table, t);
      }
    }
  }
}
