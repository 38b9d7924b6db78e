/**
 The listing methods: filters pushed clause by clause onto a query, run against a table
 in its ORDER BY order, and returned a page at a time.  Each method is proved to return
 the requested page of exactly the requested rows in the requested order, and each total
 to count them all.
 */
module Listings {
  import opened Wrappers
  import opened Like
  import opened Paging
  import opened Queries
  import opened Sorting
  import Seqs

  // ---------- Running a query ----------

  function Selecting(sem: Semantics, clauses: seq<Clause>, params: seq<Value>): Row -> bool {
    (row: Row) => Queries.Holds(sem, row, clauses, params)
  }

  function IntParam(params: seq<Value>, placeholder: nat): nat {
    var v := Param(params, placeholder);
    if v.Int? && v.i >= 0 then v.i else 0
  }

  // SELECT … WHERE clauses … LIMIT $limitIdx OFFSET $offsetIdx, on a table listed in its ORDER BY order.
  function Select(sem: Semantics, table: seq<Row>, clauses: seq<Clause>, params: seq<Value>, limitIdx: nat, offsetIdx: nat): seq<Row> {
    Slice(Seqs.Filter(Selecting(sem, clauses, params), table), IntParam(params, limitIdx), IntParam(params, offsetIdx))
  }

  function Count(sem: Semantics, table: seq<Row>, clauses: seq<Clause>, params: seq<Value>): nat {
    |Seqs.Filter(Selecting(sem, clauses, params), table)|
  }

  // What request validation guarantees about the page fields.
  predicate ValidPage(q: PageQuery) {
    (q.page.Some? ==> q.page.value >= 1) && (q.limit.Some? ==> q.limit.value >= 1) && (q.offset.Some? ==> q.offset.value >= 0)
  }

  lemma ResolvedNonNegative(q: PageQuery, defaultLimit: int, maxLimit: int)
    requires ValidPage(q) && defaultLimit >= 1 && maxLimit >= 1
    ensures var r := ResolveOffsetPagination(q, Some(defaultLimit), maxLimit); r.limit >= 1 && r.offset >= 0
  {
    var r := ResolveOffsetPagination(q, Some(defaultLimit), maxLimit);
    if q.page.Some? {
      NonNegativeProduct(q.page.value - 1, r.limit);
    }
  }

  // The page of the matching rows that a request is due.
  function Due(table: seq<Row>, matching: Row -> bool, q: PageQuery, defaultLimit: int, maxLimit: int): seq<Row>
    requires ValidPage(q) && defaultLimit >= 1 && maxLimit >= 1
  {
    ResolvedNonNegative(q, defaultLimit, maxLimit);
    var r := ResolveOffsetPagination(q, Some(defaultLimit), maxLimit);
    Slice(Seqs.Filter(matching, table), r.limit, r.offset)
  }

  // ---------- The order of a listing ----------

  // The stored rows as each ORDER BY lists them.
  type OrderedTable = OrderBy -> seq<Row>

  ghost predicate Lists(sem: Semantics, stored: seq<Row>, table: OrderedTable) {
    forall order :: multiset(table(order)) == multiset(stored) && Seqs.Arranged(Before(sem, order), table(order))
  }

  lemma DueArranged(sem: Semantics, order: OrderBy, table: seq<Row>, matching: Row -> bool,
                    q: PageQuery, defaultLimit: int, maxLimit: int)
    requires ValidPage(q) && defaultLimit >= 1 && maxLimit >= 1 && Seqs.Arranged(Before(sem, order), table)
    ensures Seqs.Arranged(Before(sem, order), Due(table, matching, q, defaultLimit, maxLimit))
  {
    ResolvedNonNegative(q, defaultLimit, maxLimit);
    var r := ResolveOffsetPagination(q, Some(defaultLimit), maxLimit);
    Seqs.FilterArranged(Before(sem, order), matching, table);
    SliceArranged(Before(sem, order), Seqs.Filter(matching, table), r.limit, r.offset);
  }

  lemma DueMatches(table: seq<Row>, matching: Row -> bool, q: PageQuery, defaultLimit: int, maxLimit: int)
    requires ValidPage(q) && defaultLimit >= 1 && maxLimit >= 1
    ensures var rows := Due(table, matching, q, defaultLimit, maxLimit);
      forall i :: 0 <= i < |rows| ==> matching(rows[i])
  {
    ResolvedNonNegative(q, defaultLimit, maxLimit);
    var r := ResolveOffsetPagination(q, Some(defaultLimit), maxLimit);
    var selected := Seqs.Filter(matching, table);
    Seqs.FilterMembers(matching, table);
    forall i | 0 <= i < |Slice(selected, r.limit, r.offset)| ensures matching(Slice(selected, r.limit, r.offset)[i]) {
      SliceWithin(selected, r.limit, r.offset, i);
    }
  }

  /**
   The page due does not depend on the request: however the database arranges the matching
   rows to answer this one query, LIMIT and OFFSET cut the same page out of them.
   */
  lemma DueIsSettled(sem: Semantics, stored: seq<Row>, table: OrderedTable, order: OrderBy, matching: Row -> bool, answer: seq<Row>,
                     q: PageQuery, defaultLimit: int, maxLimit: int)
    requires ValidPage(q) && defaultLimit >= 1 && maxLimit >= 1 && Lists(sem, stored, table) && DistinctIds(stored)
    requires multiset(answer) == multiset(Seqs.Filter(matching, stored)) && Seqs.Arranged(Before(sem, order), answer)
    ensures var r := ResolveOffsetPagination(q, Some(defaultLimit), maxLimit);
      && r.limit >= 0 && r.offset >= 0
      && Slice(answer, r.limit, r.offset) == Due(table(order), matching, q, defaultLimit, maxLimit)
  {
    ResolvedNonNegative(q, defaultLimit, maxLimit);
    var listed := Seqs.Filter(matching, table(order));
    Seqs.FilterPermuted(matching, stored, table(order));
    Seqs.FilterArranged(Before(sem, order), matching, table(order));
    IdsDecide(sem, order, stored);
    Seqs.DecidesPart(Before(sem, order), stored, matching, answer);
    Seqs.OneArrangement(Before(sem, order), answer, listed);
  }

  // ---------- Marketplace products ----------

  // One `if` of a builder: pushes the value, then the clause that names the value's place.  `done` are the filters compiled so far.
  method PushIf(ghost done: seq<Filter>, b: Built, base: nat, wanted: bool, test: Test, value: Value)
    returns (c: Built, ghost all: seq<Filter>)
    requires TakesParam(test) && b == Compile(done, base)
    ensures c == Compile(done + [Filter(wanted, test, value)], base) && all == done + [Filter(wanted, test, value)]
  {
    c := b;
    if wanted {
      var params := b.params + [value];
      c := Built(b.clauses + [Clause(test, base + |params|)], params);
    }
    all := done + [Filter(wanted, test, value)];
    assert all[..|done|] == done;
  }

  method PushPrices(ghost done: seq<Filter>, b: Built, base: nat, low: Option<real>, high: Option<real>)
    returns (c: Built, ghost all: seq<Filter>)
    requires b == Compile(done, base)
    ensures c == Compile(done + PriceFilters(low, high), base) && all == done + PriceFilters(low, high)
  {
    c, all := PushIf(done, b, base, low.Some?, AtLeast(Price), NumOf(low));
    c, all := PushIf(all, c, base, high.Some?, AtMost(Price), NumOf(high));
    assert all == done + PriceFilters(low, high);
  }

  method PushDates(ghost done: seq<Filter>, b: Built, base: nat, from: Option<string>, to: Option<string>)
    returns (c: Built, ghost all: seq<Filter>)
    requires b == Compile(done, base)
    ensures c == Compile(done + DateFilters(from, to), base) && all == done + DateFilters(from, to)
  {
    c, all := PushIf(done, b, base, Given(from), AtLeast(CreatedAt), TextOf(from));
    c, all := PushIf(all, c, base, Given(to), AtMost(CreatedAt), TextOf(to));
    assert all == done + DateFilters(from, to);
  }

  method PushKind(ghost done: seq<Filter>, b: Built, base: nat, dto: SearchDto) returns (c: Built, ghost all: seq<Filter>)
    requires b == Compile(done, base)
    ensures c == Compile(done + KindFilters(dto), base) && all == done + KindFilters(dto)
  {
    c, all := PushIf(done, b, base, Given(dto.category), Equals(Category), TextOf(dto.category));
    c, all := PushIf(all, c, base, Given(dto.subcategory) && dto.subcategory.value != "all",
                     Equals(Subcategory), TextOf(dto.subcategory));
    assert all == done + KindFilters(dto);
  }

  method PushTexts(ghost done: seq<Filter>, b: Built, base: nat, dto: SearchDto) returns (c: Built, ghost all: seq<Filter>)
    requires b == Compile(done, base)
    ensures c == Compile(done + TextFilters(dto), base) && all == done + TextFilters(dto)
  {
    c, all := PushIf(done, b, base, Given(dto.city), Contains(City), PatternOf(dto.city));
    c, all := PushIf(all, c, base, Given(dto.addressText), Contains(AddressText), PatternOf(dto.addressText));
    c, all := PushIf(all, c, base, Given(dto.q), FullText, TextOf(dto.q));
    assert all == done + TextFilters(dto);
  }

  method PushRateAndStatus(ghost done: seq<Filter>, b: Built, base: nat, dto: SearchDto, prefixed: bool)
    returns (c: Built, ghost all: seq<Filter>)
    requires b == Compile(done, base)
    ensures c == Compile(done + RateAndStatusFilters(dto, prefixed), base) && all == done + RateAndStatusFilters(dto, prefixed)
  {
    c, all := PushIf(done, b, base, dto.minRate.Some?, AtLeast(SellerRate), NumOf(dto.minRate));
    c, all := PushIf(all, c, base, prefixed && Given(dto.status), Equals(Status), TextOf(dto.status));
    assert all == done + RateAndStatusFilters(dto, prefixed);
  }

  method BuildSearchFilters(dto: SearchDto, leadingParams: seq<Value>, prefixed: bool) returns (b: Built)
    ensures b == Compile(SearchFilters(dto, prefixed), |leadingParams|)
  {
    var base := |leadingParams|;
    ghost var done: seq<Filter> := [];
    b := Built([], []);
    b, done := PushKind(done, b, base, dto);
    b, done := PushPrices(done, b, base, dto.minPrice, dto.maxPrice);
    b, done := PushDates(done, b, base, dto.fromDate, dto.toDate);
    b, done := PushTexts(done, b, base, dto);
    b, done := PushRateAndStatus(done, b, base, dto, prefixed);
    assert [] + KindFilters(dto) == KindFilters(dto);
  }

  // ---------- Categories and sort fields ----------

  // The subcategories of each category, `all` among them.
  type Taxonomy = map<string, seq<string>>

  datatype SearchError = InvalidCategory | InvalidSubcategory

  // Only a request that gives both is checked.
  function PairError(taxonomy: Taxonomy, dto: SearchDto): Option<SearchError> {
    if !Given(dto.category) || !Given(dto.subcategory) then None
    else if dto.category.value !in taxonomy then Some(InvalidCategory)
    else if dto.subcategory.value !in taxonomy[dto.category.value] then Some(InvalidSubcategory)
    else None
  }

  /** A category that is asked for together with a subcategory has to be one, and to have that one. */
  lemma PairErrorIs(taxonomy: Taxonomy, dto: SearchDto)
    ensures var e := PairError(taxonomy, dto);
      && (e == Some(InvalidCategory) <==> Given(dto.category) && Given(dto.subcategory) && dto.category.value !in taxonomy)
      && (e == Some(InvalidSubcategory) <==>
            && Given(dto.category) && Given(dto.subcategory) && dto.category.value in taxonomy
            && dto.subcategory.value !in taxonomy[dto.category.value])
  {
  }

  datatype SortField = ByPrice | ByAddress | ByRate | ByCreated
  datatype Sort = Sort(sortBy: Option<SortField>, sortDir: Option<Direction>)

  function SortColumn(sort: Sort): Column {
    match Coalesce(sort.sortBy, ByCreated)
    case ByPrice => Price
    case ByAddress => City
    case ByRate => SellerRate
    case ByCreated => CreatedAt
  }

  function SearchOrder(sort: Sort): OrderBy {
    ByColumn(SortColumn(sort), Coalesce(sort.sortDir, Desc))
  }

  // The page goes by the column that the field names, in the direction asked for; unasked, the newest comes first.
  ghost predicate ListedAsAsked(sem: Semantics, rows: seq<Row>, sort: Sort) {
    var dir := if sort.sortDir == Some(Asc) then Asc else Desc;
    && (sort.sortBy == Some(ByPrice) ==> ListedBy(sem, rows, Price, dir))
    && (sort.sortBy == Some(ByAddress) ==> ListedBy(sem, rows, City, dir))
    && (sort.sortBy == Some(ByRate) ==> ListedBy(sem, rows, SellerRate, dir))
    && (sort.sortBy == Some(ByCreated) || sort.sortBy == None ==> ListedBy(sem, rows, CreatedAt, dir))
  }

  lemma SearchListed(sem: Semantics, rows: seq<Row>, sort: Sort)
    requires TotalPreorder(sem) && Seqs.Arranged(Before(sem, SearchOrder(sort)), rows)
    ensures ListedAsAsked(sem, rows, sort)
  {
    ByColumnMeans(sem, rows, SortColumn(sort), Coalesce(sort.sortDir, Desc));
  }

  // What a search answers with: the page due, in the order asked for.
  lemma SearchDue(sem: Semantics, table: seq<Row>, sort: Sort, matching: Row -> bool, page: PageQuery)
    requires ValidPage(page) && TotalPreorder(sem) && Seqs.Arranged(Before(sem, SearchOrder(sort)), table)
    ensures var rows := Due(table, matching, page, 20, 100);
      ListedAsAsked(sem, rows, sort) && forall i :: 0 <= i < |rows| ==> matching(rows[i])
  {
    DueArranged(sem, SearchOrder(sort), table, matching, page, 20, 100);
    DueMatches(table, matching, page, 20, 100);
    SearchListed(sem, Due(table, matching, page, 20, 100), sort);
  }

  function MineRequested(sem: Semantics, user: int, dto: SearchDto): Row -> bool {
    (row: Row) => row(OwnerId) == Int(user) && Requested(sem, row, dto, true)
  }

  function AvailableRequested(sem: Semantics, dto: SearchDto): Row -> bool {
    (row: Row) => row(Status) == Text("available") && Requested(sem, row, dto, false)
  }

  lemma HoldsSplit(sem: Semantics, row: Row, c: Clause, clauses: seq<Clause>, params: seq<Value>)
    ensures Queries.Holds(sem, row, [c] + clauses, params) <==>
      Passes(sem, row, c.test, Param(params, c.placeholder)) && Queries.Holds(sem, row, clauses, params)
  {
    assert ([c] + clauses)[0] == c;
    assert forall i :: 0 <= i < |clauses| ==> ([c] + clauses)[i + 1] == clauses[i];
  }

  method AssertSearchCategoryPair(taxonomy: Taxonomy, dto: SearchDto) returns (r: Option<SearchError>)
    ensures r == PairError(taxonomy, dto)
  {
    if !Given(dto.category) || !Given(dto.subcategory) {
      return None;
    }
    if dto.category.value !in taxonomy {
      return Some(InvalidCategory);
    }
    if dto.subcategory.value !in taxonomy[dto.category.value] {
      return Some(InvalidSubcategory);
    }
    r := None;
  }

  // The clauses of the query, behind the user's id, select what is asked for.
  lemma MineSelected(sem: Semantics, table: seq<Row>, user: int, dto: SearchDto, b: Built, paging: seq<Value>)
    requires FoldsLetters(sem.fold) && b == Compile(SearchFilters(dto, true), 1)
    ensures Seqs.Filter(Selecting(sem, [Clause(Equals(OwnerId), 1)] + b.clauses, [Int(user)] + b.params + paging), table)
         == Seqs.Filter(MineRequested(sem, user, dto), table)
  {
    var owner, allParams := Clause(Equals(OwnerId), 1), [Int(user)] + b.params + paging;
    forall row ensures Queries.Holds(sem, row, [owner] + b.clauses, allParams) == MineRequested(sem, user, dto)(row) {
      HoldsSplit(sem, row, owner, b.clauses, allParams);
      assert Param(allParams, 1) == Int(user);
      SearchMeans(sem, row, dto, true, [Int(user)], paging);
    }
    Seqs.FilterCongruent(Selecting(sem, [owner] + b.clauses, allParams), MineRequested(sem, user, dto), table);
  }

  /**
   A user's own listing: unless the category pair is refused, the requested page of that
   user's rows that meet the filters, in the order asked for.
   */
  method ListMyProducts(sem: Semantics, taxonomy: Taxonomy, ghost stored: seq<Row>, table: OrderedTable,
                 user: int, dto: SearchDto, sort: Sort, page: PageQuery)
    returns (r: Result<seq<Row>, SearchError>)
    requires FoldsLetters(sem.fold) && TotalPreorder(sem) && ValidPage(page) && Lists(sem, stored, table)
    ensures r.Ok? ==> ListedAsAsked(sem, r.value, sort)
    ensures r.Ok? ==> forall i :: 0 <= i < |r.value| ==> r.value[i](OwnerId) == Int(user)
    ensures r == match PairError(taxonomy, dto)
                 case Some(e) => Err(e)
                 case None => Ok(Due(table(SearchOrder(sort)), MineRequested(sem, user, dto), page, 20, 100))
  {
    var refused := AssertSearchCategoryPair(taxonomy, dto);
    if refused.Some? {
      return Err(refused.value);
    }
    var leadingParams := [Int(user)];
    var b := BuildSearchFilters(dto, leadingParams, true);
    var resolved := ResolveOffsetPagination(page, Some(DEFAULT_PAGE_SIZE), 100);
    ResolvedNonNegative(page, DEFAULT_PAGE_SIZE, 100);
    var paging := [Int(resolved.limit), Int(resolved.offset)];
    var allParams := leadingParams + b.params + paging;
    var limitIdx := |leadingParams| + |b.params| + 1;
    var offsetIdx := |leadingParams| + |b.params| + 2;
    var owner := Clause(Equals(OwnerId), 1);
    var rows := Select(sem, table(SearchOrder(sort)), [owner] + b.clauses, allParams, limitIdx, offsetIdx);
    MineSelected(sem, table(SearchOrder(sort)), user, dto, b, paging);
    SearchDue(sem, table(SearchOrder(sort)), sort, MineRequested(sem, user, dto), page);
    r := Ok(rows);
  }

  function Available(): Row -> bool {
    (row: Row) => row(Status) == Text("available")
  }

  /** The public search: the requested page of the available rows that meet the filters, whatever status the request names. */
  method SearchProducts(sem: Semantics, taxonomy: Taxonomy, ghost stored: seq<Row>, table: OrderedTable,
                 dto: SearchDto, sort: Sort, page: PageQuery)
    returns (r: Result<seq<Row>, SearchError>)
    requires FoldsLetters(sem.fold) && TotalPreorder(sem) && ValidPage(page) && Lists(sem, stored, table)
    ensures r.Ok? ==> ListedAsAsked(sem, r.value, sort)
    ensures r.Ok? ==> forall i :: 0 <= i < |r.value| ==> r.value[i](Status) == Text("available")
    ensures r == match PairError(taxonomy, dto)
                 case Some(e) => Err(e)
                 case None => Ok(Due(table(SearchOrder(sort)), AvailableRequested(sem, dto), page, 20, 100))
  {
    var refused := AssertSearchCategoryPair(taxonomy, dto);
    if refused.Some? {
      return Err(refused.value);
    }
    var b := BuildSearchFilters(dto, [], false);
    var resolved := ResolveOffsetPagination(page, Some(DEFAULT_PAGE_SIZE), 100);
    ResolvedNonNegative(page, DEFAULT_PAGE_SIZE, 100);
    var paging := [Int(resolved.limit), Int(resolved.offset)];
    var allParams := b.params + paging;
    // status = 'available' is a literal of the query text.
    var rows := Select(sem, Seqs.Filter(Available(), table(SearchOrder(sort))), b.clauses, allParams, |b.params| + 1, |b.params| + 2);
    assert [] + b.params + paging == allParams;
    forall row ensures Queries.Holds(sem, row, b.clauses, allParams) == Requested(sem, row, dto, false) {
      SearchMeans(sem, row, dto, false, [], paging);
    }
    Seqs.FilterFilter(Selecting(sem, b.clauses, allParams), Available(), AvailableRequested(sem, dto), table(SearchOrder(sort)));
    SearchDue(sem, table(SearchOrder(sort)), sort, AvailableRequested(sem, dto), page);
    r := Ok(rows);
  }

  // ---------- The queries whose placeholders are counted on one list ----------

  function Matching(sem: Semantics, filters: seq<Filter>): Row -> bool {
    (row: Row) => AllMeet(sem, row, filters)
  }

  lemma BuiltSelects(sem: Semantics, table: seq<Row>, filters: seq<Filter>, tail: seq<Value>)
    ensures var b := Compile(filters, 0);
      Seqs.Filter(Selecting(sem, b.clauses, b.params + tail), table) == Seqs.Filter(Matching(sem, filters), table)
  {
    var b := Compile(filters, 0);
    assert [] + b.params + tail == b.params + tail;
    forall row ensures Selecting(sem, b.clauses, b.params + tail)(row) == Matching(sem, filters)(row) {
      CompileMeans(sem, row, filters, [], tail);
    }
    Seqs.FilterCongruent(Selecting(sem, b.clauses, b.params + tail), Matching(sem, filters), table);
  }

  // Limit and offset go last on the parameter list; the count query is given the list without them.
  method PageAndTotal(sem: Semantics, table: seq<Row>, b: Built, ghost filters: seq<Filter>, page: PageQuery)
    returns (rows: seq<Row>, total: nat)
    requires ValidPage(page) && b == Compile(filters, 0)
    ensures rows == Due(table, Matching(sem, filters), page, 20, 100)
    ensures total == |Seqs.Filter(Matching(sem, filters), table)|
  {
    var resolved := ResolveOffsetPagination(page, Some(20), 100);
    ResolvedNonNegative(page, 20, 100);
    var params := b.params + [Int(resolved.limit)];
    var limitParam := |params|;
    params := params + [Int(resolved.offset)];
    var offsetParam := |params|;
    total := Count(sem, table, b.clauses, params[..|params| - 2]);
    rows := Select(sem, table, b.clauses, params, limitParam, offsetParam);
    assert params[..|params| - 2] == b.params + [];
    assert params == b.params + [Int(resolved.limit), Int(resolved.offset)];
    BuiltSelects(sem, table, filters, []);
    BuiltSelects(sem, table, filters, [Int(resolved.limit), Int(resolved.offset)]);
  }

  // ---------- Kayan catalogue ----------

  datatype Availability = OnlyActive | OnlyInactive | AllProducts

  datatype CatalogDto = CatalogDto(
    availability: Option<Availability>, query: Option<string>, minPrice: Option<real>, maxPrice: Option<real>,
    fromDate: Option<string>, toDate: Option<string>, minRate: Option<real>, maxRate: Option<real>)

  // What the availability asks for; one of the last two at most.
  function AvailabilityFilters(availability: Option<Availability>): seq<Filter> {
    [Filter(true, IsNull(DeletedAt), Null),
     Filter(availability.None? || availability.value == OnlyActive, IsTrue(IsActive), Null),
     Filter(availability == Some(OnlyInactive), IsFalse(IsActive), Null)]
  }

  function QueryFilter(query: Option<string>): Filter {
    Filter(Given(query), EitherContains(Title, Description), PatternOf(query))
  }

  function RateFilters(low: Option<real>, high: Option<real>): seq<Filter> {
    [Filter(low.Some?, AtLeast(Rate), NumOf(low)), Filter(high.Some?, AtMost(Rate), NumOf(high))]
  }

  function CatalogFilters(dto: CatalogDto): seq<Filter> {
    AvailabilityFilters(dto.availability) + [QueryFilter(dto.query)] + PriceFilters(dto.minPrice, dto.maxPrice)
    + DateFilters(dto.fromDate, dto.toDate) + RateFilters(dto.minRate, dto.maxRate)
  }

  function KayanPatternOf(s: Option<string>): (p: Value)
    ensures p == PatternOf(s)
  {
    if s.Some? then
      EscapesAgree(s.value);
      Text("%" + KayanEscapeLike(s.value) + "%")
    else Null
  }

  predicate OnShow(row: Row, availability: Option<Availability>) {
    && row(DeletedAt) == Null
    && match availability
       case None => row(IsActive) == Flag(true)
       case Some(OnlyActive) => row(IsActive) == Flag(true)
       case Some(OnlyInactive) => row(IsActive) == Flag(false)
       case Some(AllProducts) => true
  }

  function InCatalog(sem: Semantics, dto: CatalogDto): Row -> bool {
    (row: Row) =>
      && OnShow(row, dto.availability)
      && (Given(dto.query) ==>
            ContainsText(sem, row(Title), dto.query.value) || ContainsText(sem, row(Description), dto.query.value))
      && Between(sem, row(Price), NumOf(dto.minPrice), NumOf(dto.maxPrice))
      && Between(sem, row(CreatedAt), Bound(dto.fromDate), Bound(dto.toDate))
      && Between(sem, row(Rate), NumOf(dto.minRate), NumOf(dto.maxRate))
  }

  lemma AvailabilityMeans(sem: Semantics, row: Row, availability: Option<Availability>)
    ensures AllMeet(sem, row, AvailabilityFilters(availability)) <==> OnShow(row, availability)
  {
    var f := AvailabilityFilters(availability);
    AllMeetThree(sem, row, f[0], f[1], f[2]);
  }

  lemma QueryMeans(sem: Semantics, row: Row, query: Option<string>)
    requires FoldsLetters(sem.fold)
    ensures AllMeet(sem, row, [QueryFilter(query)]) <==>
      (Given(query) ==> ContainsText(sem, row(Title), query.value) || ContainsText(sem, row(Description), query.value))
  {
    assert [QueryFilter(query)][0] == QueryFilter(query);
    if Given(query) {
      ContainsMeans(sem, row(Title), query.value);
      ContainsMeans(sem, row(Description), query.value);
    }
  }

  lemma RateFiltersMean(sem: Semantics, row: Row, low: Option<real>, high: Option<real>)
    ensures AllMeet(sem, row, RateFilters(low, high)) <==> Between(sem, row(Rate), NumOf(low), NumOf(high))
  {
    var f := RateFilters(low, high);
    AllMeetTwo(sem, row, f[0], f[1]);
  }

  /** The catalogue's WHERE and HAVING filters together hold exactly of the requested products. */
  lemma CatalogMeans(sem: Semantics, row: Row, dto: CatalogDto)
    requires FoldsLetters(sem.fold)
    ensures Matching(sem, CatalogFilters(dto))(row) <==> InCatalog(sem, dto)(row)
  {
    var shown, query, price, date, rate := AvailabilityFilters(dto.availability), [QueryFilter(dto.query)],
      PriceFilters(dto.minPrice, dto.maxPrice), DateFilters(dto.fromDate, dto.toDate), RateFilters(dto.minRate, dto.maxRate);
    AllMeetConcat(sem, row, shown, query);
    AllMeetConcat(sem, row, shown + query, price);
    AllMeetConcat(sem, row, shown + query + price, date);
    AllMeetConcat(sem, row, shown + query + price + date, rate);
    AvailabilityMeans(sem, row, dto.availability);
    QueryMeans(sem, row, dto.query);
    PriceFiltersMean(sem, row, dto.minPrice, dto.maxPrice);
    DateFiltersMean(sem, row, dto.fromDate, dto.toDate);
    RateFiltersMean(sem, row, dto.minRate, dto.maxRate);
  }

  method PushAvailability(availability: Option<Availability>) returns (c: Built)
    ensures c == Compile(AvailabilityFilters(availability), 0)
  {
    c := Built([Clause(IsNull(DeletedAt), 0)], []);
    if availability.None? || availability.value == OnlyActive {
      c := c.(clauses := c.clauses + [Clause(IsTrue(IsActive), 0)]);
    } else if availability.value == OnlyInactive {
      c := c.(clauses := c.clauses + [Clause(IsFalse(IsActive), 0)]);
    }
    CompileThree(AvailabilityFilters(availability), 0);
  }

  method PushRates(ghost done: seq<Filter>, b: Built, base: nat, low: Option<real>, high: Option<real>)
    returns (c: Built, ghost all: seq<Filter>)
    requires b == Compile(done, base)
    ensures c == Compile(done + RateFilters(low, high), base) && all == done + RateFilters(low, high)
  {
    c, all := PushIf(done, b, base, low.Some?, AtLeast(Rate), NumOf(low));
    c, all := PushIf(all, c, base, high.Some?, AtMost(Rate), NumOf(high));
    assert all == done + RateFilters(low, high);
  }

  method BuildCatalogFilters(dto: CatalogDto) returns (b: Built)
    ensures b == Compile(CatalogFilters(dto), 0)
  {
    ghost var done := AvailabilityFilters(dto.availability);
    b := PushAvailability(dto.availability);
    b, done := PushIf(done, b, 0, Given(dto.query), EitherContains(Title, Description), KayanPatternOf(dto.query));
    b, done := PushPrices(done, b, 0, dto.minPrice, dto.maxPrice);
    b, done := PushDates(done, b, 0, dto.fromDate, dto.toDate);
    // The last two stand in HAVING, behind the same parameter list.
    b, done := PushRates(done, b, 0, dto.minRate, dto.maxRate);
  }

  datatype CatalogField = ProductPrice | ProductCreated
  datatype CatalogSort = CatalogSort(sortBy: Option<CatalogField>, sortDirection: Option<Direction>)

  // `created_at` unqualified is the column of the result, which holds the text of the time.
  function CatalogOrder(sort: CatalogSort): OrderBy {
    ByColumn(if Coalesce(sort.sortBy, ProductCreated) == ProductPrice then Price else CreatedAtText,
             Coalesce(sort.sortDirection, Desc))
  }

  ghost predicate CatalogListed(sem: Semantics, rows: seq<Row>, sort: CatalogSort) {
    var dir := if sort.sortDirection == Some(Asc) then Asc else Desc;
    if sort.sortBy == Some(ProductPrice) then ListedBy(sem, rows, Price, dir) else ListedBy(sem, rows, CreatedAtText, dir)
  }

  /** The catalogue listing: the requested page of the products asked for, in the order asked for. */
  method ListProducts(sem: Semantics, ghost stored: seq<Row>, table: OrderedTable, dto: CatalogDto, sort: CatalogSort, page: PageQuery)
    returns (rows: seq<Row>)
    requires FoldsLetters(sem.fold) && TotalPreorder(sem) && ValidPage(page) && Lists(sem, stored, table)
    ensures rows == Due(table(CatalogOrder(sort)), InCatalog(sem, dto), page, 20, 100)
    ensures CatalogListed(sem, rows, sort)
  {
    var order := CatalogOrder(sort);
    var b := BuildCatalogFilters(dto);
    ghost var f := CatalogFilters(dto);
    var unused;
    rows, unused := PageAndTotal(sem, table(order), b, f, page);
    forall row ensures Matching(sem, f)(row) == InCatalog(sem, dto)(row) {
      CatalogMeans(sem, row, dto);
    }
    Seqs.FilterCongruent(Matching(sem, f), InCatalog(sem, dto), table(order));
    DueArranged(sem, order, table(order), InCatalog(sem, dto), page, 20, 100);
    ByColumnMeans(sem, rows, order.col, order.dir);
  }

  // ---------- Administration of orders and faults ----------

  datatype AdminDto = AdminDto(status: Option<string>, severity: Option<string>, fromDate: Option<string>, toDate: Option<string>)

  function StatusFilter(status: Option<string>): Filter {
    Filter(Given(status), Equals(Status), TextOf(status))
  }

  function SeverityFilter(severity: Option<string>): Filter {
    Filter(Given(severity), Equals(SeverityName), TextOf(severity))
  }

  function OrderFilters(dto: AdminDto): seq<Filter> {
    [StatusFilter(dto.status)] + DateFilters(dto.fromDate, dto.toDate)
  }

  function FaultFilters(dto: AdminDto): seq<Filter> {
    [StatusFilter(dto.status), SeverityFilter(dto.severity)] + DateFilters(dto.fromDate, dto.toDate)
  }

  function OrderRequested(sem: Semantics, dto: AdminDto): Row -> bool {
    (row: Row) =>
      && (Given(dto.status) ==> row(Status) == Text(dto.status.value))
      && Between(sem, row(CreatedAt), Bound(dto.fromDate), Bound(dto.toDate))
  }

  function FaultRequested(sem: Semantics, dto: AdminDto): Row -> bool {
    (row: Row) =>
      && (Given(dto.severity) ==> row(SeverityName) == Text(dto.severity.value))
      && OrderRequested(sem, dto)(row)
  }

  lemma AdminFiltersMean(sem: Semantics, row: Row, dto: AdminDto)
    ensures Matching(sem, OrderFilters(dto))(row) <==> OrderRequested(sem, dto)(row)
    ensures Matching(sem, FaultFilters(dto))(row) <==> FaultRequested(sem, dto)(row)
  {
    var status, severity, date := StatusFilter(dto.status), SeverityFilter(dto.severity), DateFilters(dto.fromDate, dto.toDate);
    assert [status][0] == status;
    AllMeetConcat(sem, row, [status], date);
    AllMeetConcat(sem, row, [status, severity], date);
    AllMeetTwo(sem, row, status, severity);
    DateFiltersMean(sem, row, dto.fromDate, dto.toDate);
  }

  method BuildOrderFilters(dto: AdminDto) returns (b: Built)
    ensures b == Compile(OrderFilters(dto), 0)
  {
    ghost var done: seq<Filter> := [];
    b := Built([], []);
    b, done := PushIf(done, b, 0, Given(dto.status), Equals(Status), TextOf(dto.status));
    assert done == [StatusFilter(dto.status)];
    b, done := PushDates(done, b, 0, dto.fromDate, dto.toDate);
  }

  method BuildFaultFilters(dto: AdminDto) returns (b: Built)
    ensures b == Compile(FaultFilters(dto), 0)
  {
    ghost var done: seq<Filter> := [];
    b := Built([], []);
    b, done := PushIf(done, b, 0, Given(dto.status), Equals(Status), TextOf(dto.status));
    b, done := PushIf(done, b, 0, Given(dto.severity), Equals(SeverityName), TextOf(dto.severity));
    assert done == [StatusFilter(dto.status), SeverityFilter(dto.severity)];
    b, done := PushDates(done, b, 0, dto.fromDate, dto.toDate);
  }

  datatype FaultField = FaultCreated | FaultSeverity
  datatype FaultSort = FaultSort(sortBy: Option<FaultField>, sortDirection: Option<Direction>)

  function FaultOrder(sort: FaultSort): OrderBy {
    var dir := Coalesce(sort.sortDirection, Desc);
    if Coalesce(sort.sortBy, FaultCreated) == FaultSeverity then BySeverity(dir) else ByColumn(CreatedAt, dir)
  }

  /** A page of orders with a total: the total counts every matching row, although it is counted without limit and offset. */
  method AdminListOrders(sem: Semantics, ghost stored: seq<Row>, table: OrderedTable, dto: AdminDto,
                         direction: Option<Direction>, page: PageQuery)
    returns (rows: seq<Row>, total: nat)
    requires TotalPreorder(sem) && ValidPage(page) && Lists(sem, stored, table)
    ensures rows == Due(table(ByColumn(CreatedAt, Coalesce(direction, Desc))), OrderRequested(sem, dto), page, 20, 100)
    ensures ListedBy(sem, rows, CreatedAt, if direction == Some(Asc) then Asc else Desc)
    ensures total == |Seqs.Filter(OrderRequested(sem, dto), stored)|
  {
    var order := ByColumn(CreatedAt, Coalesce(direction, Desc));
    ghost var f := OrderFilters(dto);
    var b := BuildOrderFilters(dto);
    rows, total := PageAndTotal(sem, table(order), b, f, page);
    forall row ensures Matching(sem, f)(row) == OrderRequested(sem, dto)(row) {
      AdminFiltersMean(sem, row, dto);
    }
    Seqs.FilterCongruent(Matching(sem, f), OrderRequested(sem, dto), table(order));
    Seqs.FilterPermuted(OrderRequested(sem, dto), stored, table(order));
    assert |Seqs.Filter(OrderRequested(sem, dto), stored)| == |multiset(Seqs.Filter(OrderRequested(sem, dto), stored))|;
    assert total == |multiset(Seqs.Filter(OrderRequested(sem, dto), table(order)))|;
    DueArranged(sem, order, table(order), OrderRequested(sem, dto), page, 20, 100);
    ByColumnMeans(sem, rows, CreatedAt, order.dir);
  }

  /** The same for faults. */
  method AdminListFaults(sem: Semantics, ghost stored: seq<Row>, table: OrderedTable, dto: AdminDto, sort: FaultSort, page: PageQuery)
    returns (rows: seq<Row>, total: nat)
    requires TotalPreorder(sem) && ValidPage(page) && Lists(sem, stored, table)
    ensures rows == Due(table(FaultOrder(sort)), FaultRequested(sem, dto), page, 20, 100)
    ensures sort.sortBy == Some(FaultSeverity) ==>
      SeverityOrdered(sem, rows, if sort.sortDirection == Some(Asc) then Asc else Desc)
    ensures sort.sortBy != Some(FaultSeverity) ==>
      ListedBy(sem, rows, CreatedAt, if sort.sortDirection == Some(Asc) then Asc else Desc)
    ensures total == |Seqs.Filter(FaultRequested(sem, dto), stored)|
  {
    var order := FaultOrder(sort);
    ghost var f := FaultFilters(dto);
    var b := BuildFaultFilters(dto);
    rows, total := PageAndTotal(sem, table(order), b, f, page);
    forall row ensures Matching(sem, f)(row) == FaultRequested(sem, dto)(row) {
      AdminFiltersMean(sem, row, dto);
    }
    Seqs.FilterCongruent(Matching(sem, f), FaultRequested(sem, dto), table(order));
    Seqs.FilterPermuted(FaultRequested(sem, dto), stored, table(order));
    assert |Seqs.Filter(FaultRequested(sem, dto), stored)| == |multiset(Seqs.Filter(FaultRequested(sem, dto), stored))|;
    assert total == |multiset(Seqs.Filter(FaultRequested(sem, dto), table(order)))|;
    DueArranged(sem, order, table(order), FaultRequested(sem, dto), page, 20, 100);
    if order.BySeverity? {
      BySeverityMeans(sem, rows, order.dir);
    } else {
      ByColumnMeans(sem, rows, CreatedAt, order.dir);
    }
  }
}
