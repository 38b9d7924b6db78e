/**
 Offset pagination: the limit and offset a request resolves to, and what LIMIT and OFFSET
 select.
 */
module Paging {
  import opened Numbers
  import opened Seqs
  import opened Wrappers

  const DEFAULT_PAGE_SIZE := 20

  datatype PageQuery = PageQuery(page: Option<int>, limit: Option<int>, offset: Option<int>)

  datatype Resolved = Resolved(limit: int, offset: int)

  function ResolveOffsetPagination(query: PageQuery, defaultLimit: Option<int>, maxLimit: int): Resolved {
    var limit := Min(if query.limit.Some? then query.limit.value
                     else if defaultLimit.Some? then defaultLimit.value else DEFAULT_PAGE_SIZE, maxLimit);
    var page := Max((if query.page.Some? then query.page.value else 1) - 1, 0);
    Resolved(limit, if query.offset.Some? then query.offset.value else page * limit)
  }

  // What LIMIT and OFFSET keep of an ordered result.
  function Slice<T>(rows: seq<T>, limit: int, offset: int): seq<T>
    requires limit >= 0 && offset >= 0
  {
    var from := Min(offset, |rows|);
    rows[from..Min(from + limit, |rows|)]
  }

  lemma SliceArranged<T>(before: (T, T) -> bool, rows: seq<T>, limit: nat, offset: nat)
    requires Arranged(before, rows)
    ensures Arranged(before, Slice(rows, limit, offset))
  {
    var from := Min(offset, |rows|);
    var kept := Slice(rows, limit, offset);
    forall i, j | 0 <= i < j < |kept| ensures !before(kept[j], kept[i]) {
      assert kept[i] == rows[from + i] && kept[j] == rows[from + j];
    }
  }

  lemma SliceWithin<T>(rows: seq<T>, limit: nat, offset: nat, i: nat)
    requires i < |Slice(rows, limit, offset)|
    ensures Slice(rows, limit, offset)[i] in rows
  {
    assert Slice(rows, limit, offset)[i] == rows[Min(offset, |rows|) + i];
  }

  // ---------- Pages of one ordered result ----------

  lemma NonNegativeProduct(a: nat, b: nat)
    ensures a * b >= 0
  {
  }

  function PageOf<T>(rows: seq<T>, page: nat, limit: Option<int>, defaultLimit: int, maxLimit: int): seq<T>
    requires page >= 1 && (limit.Some? ==> limit.value >= 1) && defaultLimit >= 1 && maxLimit >= 1
  {
    var r := ResolveOffsetPagination(PageQuery(Some(page), limit, None), Some(defaultLimit), maxLimit);
    assert r.offset >= 0 by {
      NonNegativeProduct(page - 1, r.limit);
    }
    Slice(rows, r.limit, r.offset)
  }

  function Pages<T>(rows: seq<T>, k: nat, limit: Option<int>, defaultLimit: int, maxLimit: int): seq<T>
    requires (limit.Some? ==> limit.value >= 1) && defaultLimit >= 1 && maxLimit >= 1
  {
    if k == 0 then []
    else Pages(rows, k - 1, limit, defaultLimit, maxLimit) + PageOf(rows, k, limit, defaultLimit, maxLimit)
  }

  function EffectiveLimit(limit: Option<int>, defaultLimit: int, maxLimit: int): int {
    Min(if limit.Some? then limit.value else defaultLimit, maxLimit)
  }

  lemma SliceContinues<T>(rows: seq<T>, offset: nat, limit: nat)
    ensures rows[..Min(offset, |rows|)] + Slice(rows, limit, offset) == rows[..Min(offset + limit, |rows|)]
  {
  }

  /** The first k pages, joined, are the first k·limit rows. */
  lemma {:induction false} PagesTile<T>(rows: seq<T>, k: nat, limit: Option<int>, defaultLimit: int, maxLimit: int)
    requires (limit.Some? ==> limit.value >= 1) && defaultLimit >= 1 && maxLimit >= 1
    ensures var l := EffectiveLimit(limit, defaultLimit, maxLimit);
      k * l >= 0 && Pages(rows, k, limit, defaultLimit, maxLimit) == rows[..Min(k * l, |rows|)]
  {
    var l := EffectiveLimit(limit, defaultLimit, maxLimit);
    if k > 0 {
      PagesTile(rows, k - 1, limit, defaultLimit, maxLimit);
      assert k * l == (k - 1) * l + l;
      SliceContinues(rows, (k - 1) * l, l);
    }
  }

  lemma {:induction false} Monotone(a: nat, b: nat, c: nat)
    requires a <= b
    ensures a * c <= b * c
  {
    if a < b {
      Monotone(a, b - 1, c);
    }
  }

  lemma PageOfIndex(i: nat, page: nat, limit: int)
    requires limit >= 1 && page >= 1
    ensures (page - 1) * limit <= i < (page - 1) * limit + limit <==> page == i / limit + 1
  {
    var q := i / limit;
    assert q * limit <= i < (q + 1) * limit;
    if page - 1 > q {
      Monotone(q + 1, page - 1, limit);
    } else if page - 1 < q {
      Monotone(page, q, limit);
      assert page * limit == (page - 1) * limit + limit;
    } else {
      assert (q + 1) * limit == q * limit + limit;
    }
  }

  // Row i of the result stands on the page, i less the page's offset places down.
  predicate Shows<T>(rows: seq<T>, page: nat, limit: Option<int>, defaultLimit: int, maxLimit: int, i: nat)
    requires page >= 1 && (limit.Some? ==> limit.value >= 1) && defaultLimit >= 1 && maxLimit >= 1
  {
    var offset := (page - 1) * EffectiveLimit(limit, defaultLimit, maxLimit);
    offset <= i < offset + |PageOf(rows, page, limit, defaultLimit, maxLimit)|
  }

  // LIMIT and OFFSET keep exactly the rows between them, in place.
  lemma SliceAt<T>(rows: seq<T>, limit: nat, offset: nat, i: nat)
    requires i < |rows|
    ensures offset <= i < offset + |Slice(rows, limit, offset)| <==> offset <= i < offset + limit
    ensures offset <= i < offset + limit ==>
      0 <= i - offset < |Slice(rows, limit, offset)| && Slice(rows, limit, offset)[i - offset] == rows[i]
  {
  }

  /** Every row of the result stands on exactly one page: row i on page i / limit + 1, at place i - (page - 1) · limit. */
  lemma RowOnOnePage<T>(rows: seq<T>, page: nat, limit: Option<int>, defaultLimit: int, maxLimit: int, i: nat)
    requires page >= 1 && (limit.Some? ==> limit.value >= 1) && defaultLimit >= 1 && maxLimit >= 1 && i < |rows|
    ensures var l := EffectiveLimit(limit, defaultLimit, maxLimit);
      && l >= 1
      && (Shows(rows, page, limit, defaultLimit, maxLimit, i) <==> page == i / l + 1)
      && (page == i / l + 1 ==>
            0 <= i - (page - 1) * l < |PageOf(rows, page, limit, defaultLimit, maxLimit)|
            && PageOf(rows, page, limit, defaultLimit, maxLimit)[i - (page - 1) * l] == rows[i])
  {
    var l := EffectiveLimit(limit, defaultLimit, maxLimit);
    PageOfIndex(i, page, l);
    NonNegativeProduct(page - 1, l);
    SliceAt(rows, l, (page - 1) * l, i);
  }
}
