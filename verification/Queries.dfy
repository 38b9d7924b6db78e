/**
 The query builders: from a request's filters to WHERE clauses with numbered
 placeholders and a parameter list.

 `CompileMeans` shows the compilation to preserve meaning: evaluated
 under the whole parameter list, whatever precedes and follows the builder's own
 parameters, the clauses select exactly the rows that meet the requested filters.
 */
module Queries {
  import opened Wrappers
  import opened Like

  // ---------- Values, rows and clauses ----------

  datatype Value = Null | Num(n: real) | Int(i: int) | Text(s: string) | Flag(b: bool)

  datatype Column =
    | Id | OwnerId | Category | Subcategory | Price | CreatedAt | City | AddressText | Name | Title | Description
    | SellerRate | Rate | Status | SeverityName | IsActive | DeletedAt | UserId
    | CreatedAtText  // the creation time as the catalogue's result shows it

  type Row = Column -> Value

  // How the database compares and searches values; NULL never compares.
  datatype Semantics = Semantics(atMost: (Value, Value) -> bool, fold: char -> char, search: (Value, Value, string) -> bool)

  datatype Test =
    | Equals(col: Column)
    | AtLeast(col: Column)
    | AtMost(col: Column)
    | Contains(col: Column)                       // ILIKE with an escaped pattern as parameter
    | EitherContains(col: Column, other: Column)  // the same placeholder in two ILIKEs
    | FullText
    | IsNull(col: Column)                         // no parameter
    | IsTrue(col: Column)
    | IsFalse(col: Column)

  // Placeholder $n is `placeholder == n`; clauses without a parameter carry 0.
  datatype Clause = Clause(test: Test, placeholder: nat)

  predicate ILike(sem: Semantics, v: Value, p: Value) {
    v.Text? && p.Text? && IMatches(sem.fold, p.s, v.s)
  }

  // A test against the parameter value `p`.
  predicate Passes(sem: Semantics, row: Row, test: Test, p: Value) {
    match test
    case Equals(c) => row(c) != Null && row(c) == p
    case AtLeast(c) => row(c) != Null && sem.atMost(p, row(c))
    case AtMost(c) => row(c) != Null && sem.atMost(row(c), p)
    case Contains(c) => ILike(sem, row(c), p)
    case EitherContains(c, d) => ILike(sem, row(c), p) || ILike(sem, row(d), p)
    case FullText => p.Text? && sem.search(row(Name), row(Description), p.s)
    case IsNull(c) => row(c) == Null
    case IsTrue(c) => row(c) == Flag(true)
    case IsFalse(c) => row(c) == Flag(false)
  }

  function Param(params: seq<Value>, placeholder: nat): Value {
    if 1 <= placeholder <= |params| then params[placeholder - 1] else Null
  }

  predicate Holds(sem: Semantics, row: Row, clauses: seq<Clause>, params: seq<Value>) {
    forall i :: 0 <= i < |clauses| ==> Passes(sem, row, clauses[i].test, Param(params, clauses[i].placeholder))
  }

  // ---------- Compiling a list of filters ----------

  // A filter the request may ask for; a test without a parameter takes none.
  datatype Filter = Filter(wanted: bool, test: Test, value: Value)

  predicate TakesParam(test: Test) {
    !test.IsNull? && !test.IsTrue? && !test.IsFalse?
  }

  datatype Built = Built(clauses: seq<Clause>, params: seq<Value>)

  // One `if` of a builder: push the value, and the clause whose placeholder is the value's place behind `base` leading parameters.
  function Add(b: Built, base: nat, f: Filter): Built {
    if !f.wanted then b
    else if TakesParam(f.test) then Built(b.clauses + [Clause(f.test, base + |b.params| + 1)], b.params + [f.value])
    else Built(b.clauses + [Clause(f.test, 0)], b.params)
  }

  function Compile(filters: seq<Filter>, base: nat): Built {
    if filters == [] then Built([], [])
    else Add(Compile(filters[..|filters| - 1], base), base, filters[|filters| - 1])
  }

  lemma CompileOneMore(filters: seq<Filter>, base: nat, k: nat)
    requires k < |filters|
    ensures Compile(filters[..k + 1], base) == Add(Compile(filters[..k], base), base, filters[k])
  {
    assert filters[..k + 1][..k] == filters[..k];
  }

  lemma CompileThree(f: seq<Filter>, n: nat)
    requires |f| == 3
    ensures Compile(f, n) == Add(Add(Add(Built([], []), n, f[0]), n, f[1]), n, f[2])
  {
    CompileOneMore(f, n, 0);
    CompileOneMore(f, n, 1);
    CompileOneMore(f, n, 2);
    assert f[..3] == f;
  }

  // Every placeholder is one of the builder's own parameters.
  predicate OwnPlaceholders(b: Built, base: nat) {
    forall i :: 0 <= i < |b.clauses| ==>
      b.clauses[i].placeholder == 0 || base < b.clauses[i].placeholder <= base + |b.params|
  }

  // What the clauses select under leading parameters `lead` and trailing parameters `tail`.
  predicate Selects(sem: Semantics, row: Row, b: Built, lead: seq<Value>, tail: seq<Value>) {
    Holds(sem, row, b.clauses, lead + b.params + tail)
  }

  predicate Meets(sem: Semantics, row: Row, f: Filter) {
    f.wanted ==> Passes(sem, row, f.test, f.value)
  }

  predicate AllMeet(sem: Semantics, row: Row, filters: seq<Filter>) {
    forall i :: 0 <= i < |filters| ==> Meets(sem, row, filters[i])
  }

  lemma AllMeetConcat(sem: Semantics, row: Row, a: seq<Filter>, b: seq<Filter>)
    ensures AllMeet(sem, row, a + b) <==> AllMeet(sem, row, a) && AllMeet(sem, row, b)
  {
    assert forall i :: 0 <= i < |a| ==> (a + b)[i] == a[i];
    assert forall i :: 0 <= i < |b| ==> (a + b)[|a| + i] == b[i];
  }

  lemma AllMeetTwo(sem: Semantics, row: Row, f: Filter, g: Filter)
    ensures AllMeet(sem, row, [f, g]) <==> Meets(sem, row, f) && Meets(sem, row, g)
  {
    assert [f, g][0] == f && [f, g][1] == g;
  }

  lemma AllMeetThree(sem: Semantics, row: Row, f: Filter, g: Filter, h: Filter)
    ensures AllMeet(sem, row, [f, g, h]) <==> Meets(sem, row, f) && Meets(sem, row, g) && Meets(sem, row, h)
  {
    assert [f, g, h][0] == f && [f, g, h][1] == g && [f, g, h][2] == h;
  }

  lemma AddMeans(sem: Semantics, row: Row, b: Built, lead: seq<Value>, tail: seq<Value>, f: Filter)
    requires OwnPlaceholders(b, |lead|)
    ensures var c := Add(b, |lead|, f);
      && OwnPlaceholders(c, |lead|)
      && (Selects(sem, row, c, lead, tail) <==> Selects(sem, row, b, lead, tail) && Meets(sem, row, f))
  {
    var c := Add(b, |lead|, f);
    var before, after := lead + b.params + tail, lead + c.params + tail;
    forall i | 0 <= i < |b.clauses|
      ensures c.clauses[i] == b.clauses[i] && Param(before, b.clauses[i].placeholder) == Param(after, b.clauses[i].placeholder)
    {
    }
    if f.wanted {
      assert c.clauses[|b.clauses|].test == f.test;
      if TakesParam(f.test) {
        assert Param(after, |lead| + |b.params| + 1) == f.value;
      }
    }
  }

  /** For any filters, row and surrounding parameters, the compiled clauses hold exactly of the rows that meet every wanted filter. */
  lemma {:induction false} CompileMeans(sem: Semantics, row: Row, filters: seq<Filter>, lead: seq<Value>, tail: seq<Value>)
    ensures var b := Compile(filters, |lead|);
      && OwnPlaceholders(b, |lead|)
      && (Selects(sem, row, b, lead, tail) <==> AllMeet(sem, row, filters))
  {
    if filters != [] {
      var n := |filters| - 1;
      CompileMeans(sem, row, filters[..n], lead, tail);
      AddMeans(sem, row, Compile(filters[..n], |lead|), lead, tail, filters[n]);
      AllMeetConcat(sem, row, filters[..n], [filters[n]]);
      assert filters == filters[..n] + [filters[n]] && [filters[n]][0] == filters[n];
    }
  }

  /** The parameters after the builder's own do not matter: a count query without limit and offset selects the same rows. */
  lemma TailIrrelevant(sem: Semantics, row: Row, b: Built, lead: seq<Value>, tail: seq<Value>, other: seq<Value>)
    requires OwnPlaceholders(b, |lead|)
    ensures Selects(sem, row, b, lead, tail) <==> Selects(sem, row, b, lead, other)
  {
    forall i | 0 <= i < |b.clauses|
      ensures Param(lead + b.params + tail, b.clauses[i].placeholder) == Param(lead + b.params + other, b.clauses[i].placeholder)
    {
    }
  }

  // ---------- Request fields ----------

  // A string filter is requested when it is there and not empty.
  predicate Given(s: Option<string>) {
    s.Some? && s.value != ""
  }

  function TextOf(s: Option<string>): Value {
    if s.Some? then Text(s.value) else Null
  }

  function NumOf(n: Option<real>): Value {
    if n.Some? then Num(n.value) else Null
  }

  function PatternOf(s: Option<string>): Value {
    if s.Some? then Text("%" + EscapeLike(s.value) + "%") else Null
  }

  // ---------- What filters ask for, said directly ----------

  // NULL and non-text columns contain nothing.
  predicate ContainsText(sem: Semantics, v: Value, s: string) {
    v.Text? && Occurs(FoldAll(sem.fold, s), FoldAll(sem.fold, v.s))
  }

  // NULL bounds are no bounds; NULL columns are within none.
  predicate Between(sem: Semantics, v: Value, low: Value, high: Value) {
    && (low != Null ==> v != Null && sem.atMost(low, v))
    && (high != Null ==> v != Null && sem.atMost(v, high))
  }

  // An empty bound is no bound.
  function Bound(s: Option<string>): Value {
    if Given(s) then Text(s.value) else Null
  }

  lemma ContainsMeans(sem: Semantics, v: Value, s: string)
    requires FoldsLetters(sem.fold)
    ensures ILike(sem, v, Text("%" + EscapeLike(s) + "%")) <==> ContainsText(sem, v, s)
  {
    if v.Text? {
      IContainsSearch(sem.fold, s, v.s);
    }
  }

  // ---------- Price and date ranges, which every builder has ----------

  function PriceFilters(low: Option<real>, high: Option<real>): seq<Filter> {
    [Filter(low.Some?, AtLeast(Price), NumOf(low)), Filter(high.Some?, AtMost(Price), NumOf(high))]
  }

  function DateFilters(from: Option<string>, to: Option<string>): seq<Filter> {
    [Filter(Given(from), AtLeast(CreatedAt), TextOf(from)), Filter(Given(to), AtMost(CreatedAt), TextOf(to))]
  }

  lemma PriceFiltersMean(sem: Semantics, row: Row, low: Option<real>, high: Option<real>)
    ensures AllMeet(sem, row, PriceFilters(low, high)) <==> Between(sem, row(Price), NumOf(low), NumOf(high))
  {
    var f := PriceFilters(low, high);
    AllMeetTwo(sem, row, f[0], f[1]);
  }

  lemma DateFiltersMean(sem: Semantics, row: Row, from: Option<string>, to: Option<string>)
    ensures AllMeet(sem, row, DateFilters(from, to)) <==> Between(sem, row(CreatedAt), Bound(from), Bound(to))
  {
    var f := DateFilters(from, to);
    AllMeetTwo(sem, row, f[0], f[1]);
  }

  // ---------- Marketplace search ----------

  datatype SearchDto = SearchDto(
    category: Option<string>, subcategory: Option<string>, minPrice: Option<real>, maxPrice: Option<real>,
    fromDate: Option<string>, toDate: Option<string>, city: Option<string>, addressText: Option<string>,
    q: Option<string>, minRate: Option<real>, status: Option<string>)

  function KindFilters(dto: SearchDto): seq<Filter> {
    [Filter(Given(dto.category), Equals(Category), TextOf(dto.category)),
     Filter(Given(dto.subcategory) && dto.subcategory.value != "all", Equals(Subcategory), TextOf(dto.subcategory))]
  }

  function TextFilters(dto: SearchDto): seq<Filter> {
    [Filter(Given(dto.city), Contains(City), PatternOf(dto.city)),
     Filter(Given(dto.addressText), Contains(AddressText), PatternOf(dto.addressText)),
     Filter(Given(dto.q), FullText, TextOf(dto.q))]
  }

  function RateAndStatusFilters(dto: SearchDto, prefixed: bool): seq<Filter> {
    [Filter(dto.minRate.Some?, AtLeast(SellerRate), NumOf(dto.minRate)),
     Filter(prefixed && Given(dto.status), Equals(Status), TextOf(dto.status))]
  }

  function SearchFilters(dto: SearchDto, prefixed: bool): seq<Filter> {
    KindFilters(dto) + PriceFilters(dto.minPrice, dto.maxPrice) + DateFilters(dto.fromDate, dto.toDate)
    + TextFilters(dto) + RateAndStatusFilters(dto, prefixed)
  }

  predicate Requested(sem: Semantics, row: Row, dto: SearchDto, byStatus: bool) {
    && (Given(dto.category) ==> row(Category) == Text(dto.category.value))
    && (Given(dto.subcategory) ==> dto.subcategory.value == "all" || row(Subcategory) == Text(dto.subcategory.value))
    && Between(sem, row(Price), NumOf(dto.minPrice), NumOf(dto.maxPrice))
    && Between(sem, row(CreatedAt), Bound(dto.fromDate), Bound(dto.toDate))
    && (Given(dto.city) ==> ContainsText(sem, row(City), dto.city.value))
    && (Given(dto.addressText) ==> ContainsText(sem, row(AddressText), dto.addressText.value))
    && (Given(dto.q) ==> sem.search(row(Name), row(Description), dto.q.value))
    && Between(sem, row(SellerRate), NumOf(dto.minRate), Null)
    && (byStatus && Given(dto.status) ==> row(Status) == Text(dto.status.value))
  }

  lemma KindFiltersMean(sem: Semantics, row: Row, dto: SearchDto)
    ensures AllMeet(sem, row, KindFilters(dto)) <==>
      && (Given(dto.category) ==> row(Category) == Text(dto.category.value))
      && (Given(dto.subcategory) ==> dto.subcategory.value == "all" || row(Subcategory) == Text(dto.subcategory.value))
  {
    var f := KindFilters(dto);
    AllMeetTwo(sem, row, f[0], f[1]);
  }

  lemma TextFiltersMean(sem: Semantics, row: Row, dto: SearchDto)
    requires FoldsLetters(sem.fold)
    ensures AllMeet(sem, row, TextFilters(dto)) <==>
      && (Given(dto.city) ==> ContainsText(sem, row(City), dto.city.value))
      && (Given(dto.addressText) ==> ContainsText(sem, row(AddressText), dto.addressText.value))
      && (Given(dto.q) ==> sem.search(row(Name), row(Description), dto.q.value))
  {
    var f := TextFilters(dto);
    AllMeetThree(sem, row, f[0], f[1], f[2]);
    if Given(dto.city) {
      ContainsMeans(sem, row(City), dto.city.value);
    }
    if Given(dto.addressText) {
      ContainsMeans(sem, row(AddressText), dto.addressText.value);
    }
  }

  lemma RateAndStatusMean(sem: Semantics, row: Row, dto: SearchDto, prefixed: bool)
    ensures AllMeet(sem, row, RateAndStatusFilters(dto, prefixed)) <==>
      && Between(sem, row(SellerRate), NumOf(dto.minRate), Null)
      && (prefixed && Given(dto.status) ==> row(Status) == Text(dto.status.value))
  {
    var f := RateAndStatusFilters(dto, prefixed);
    AllMeetTwo(sem, row, f[0], f[1]);
  }

  lemma SearchFiltersMean(sem: Semantics, row: Row, dto: SearchDto, prefixed: bool)
    requires FoldsLetters(sem.fold)
    ensures AllMeet(sem, row, SearchFilters(dto, prefixed)) <==> Requested(sem, row, dto, prefixed)
  {
    var kind, price, date, text, rest := KindFilters(dto), PriceFilters(dto.minPrice, dto.maxPrice),
      DateFilters(dto.fromDate, dto.toDate), TextFilters(dto), RateAndStatusFilters(dto, prefixed);
    AllMeetConcat(sem, row, kind, price);
    AllMeetConcat(sem, row, kind + price, date);
    AllMeetConcat(sem, row, kind + price + date, text);
    AllMeetConcat(sem, row, kind + price + date + text, rest);
    KindFiltersMean(sem, row, dto);
    PriceFiltersMean(sem, row, dto.minPrice, dto.maxPrice);
    DateFiltersMean(sem, row, dto.fromDate, dto.toDate);
    TextFiltersMean(sem, row, dto);
    RateAndStatusMean(sem, row, dto, prefixed);
  }

  /** The marketplace search compiles to clauses that hold exactly of the requested rows, `all` being any subcategory. */
  lemma SearchMeans(sem: Semantics, row: Row, dto: SearchDto, prefixed: bool, lead: seq<Value>, tail: seq<Value>)
    requires FoldsLetters(sem.fold)
    ensures Selects(sem, row, Compile(SearchFilters(dto, prefixed), |lead|), lead, tail) <==> Requested(sem, row, dto, prefixed)
  {
    CompileMeans(sem, row, SearchFilters(dto, prefixed), lead, tail);
    SearchFiltersMean(sem, row, dto, prefixed);
  }
}
