/**
 * The `GET /products` statement builder (slim-backend/public/index.php).
 *
 * Optional query parameters `search`, `title`, `category`, `minPrice`,
 * `maxPrice` and `tags` each add predicate fragments and bound values, in
 * that order, with a running placeholder counter; `sortBy` and `order`
 * pick the ORDER BY from an allow-list; a numeric `limit` adds
 * LIMIT/OFFSET. `Plan` is the reference list of (fragment kind, bound
 * value) pairs; `BuildFilters` and `ProductsQuery` follow the handler's
 * step-by-step construction and are proved to produce exactly the plan.
 */
module ProductQuery {
  import opened Wrappers
  import opened PhpStrings
  import opened Sql

  /** The query-string parameters the handler reads, by name. */
  datatype Field =
    | SearchParam | TitleParam | CategoryParam | MinPriceParam | MaxPriceParam | TagsParam
    | SortByParam | OrderParam | LimitParam | OffsetParam
  {
    /** The parameter's name in the query string. */
    function Name(): string {
      match this
      case SearchParam => "search"
      case TitleParam => "title"
      case CategoryParam => "category"
      case MinPriceParam => "minPrice"
      case MaxPriceParam => "maxPrice"
      case TagsParam => "tags"
      case SortByParam => "sortBy"
      case OrderParam => "order"
      case LimitParam => "limit"
      case OffsetParam => "offset"
    }
  }

  /** The query-string parameters of the request that the handler reads; any others are ignored. */
  type Params = map<Field, string>

  datatype FilterKind = Search | Title | Category | MinPrice | MaxPrice | Tag

  /** One predicate fragment to emit and the value bound to its placeholder. */
  datatype Filter = Filter(kind: FilterKind, value: Param)

  datatype Direction = Asc | Desc

  /** The fixed text of each fragment; every hole is the fragment's one placeholder. */
  function TemplateOf(kind: FilterKind): Template {
    match kind
    case Search =>
      [Lit("(LOWER(title) LIKE LOWER("), Hole, Lit(") OR LOWER(brand) LIKE LOWER("), Hole,
       Lit(") OR LOWER(description) LIKE LOWER("), Hole, Lit("))")]
    case Title => [Lit("LOWER(title) = LOWER("), Hole, Lit(")")]
    case Category => [Lit("category = "), Hole]
    case MinPrice => [Lit("price >= "), Hole]
    case MaxPrice => [Lit("price <= "), Hole]
    case Tag => [Lit("tags @> "), Hole, Lit("::jsonb")]
  }

  /** The query parameter each single-valued filter reads. */
  function KeyOf(kind: FilterKind): Field {
    match kind
    case Search => SearchParam
    case Title => TitleParam
    case Category => CategoryParam
    case MinPrice => MinPriceParam
    case MaxPrice => MaxPriceParam
    case Tag => TagsParam
  }

  /** The position of a kind in the handler's fixed chain of checks. */
  function Rank(kind: FilterKind): nat {
    match kind
    case Search => 0
    case Title => 1
    case Category => 2
    case MinPrice => 3
    case MaxPrice => 4
    case Tag => 5
  }

  /** A filter is requested when PHP's `empty` is false for its parameter. */
  predicate Requested(p: Params, key: Field) {
    !Empty(p, key)
  }

  function Get(p: Params, key: Field): string {
    if key in p then p[key] else ""
  }

  /** The value a single-valued filter binds: the search text wrapped in `%` wildcards, the others as given. */
  function ScalarValue(p: Params, kind: FilterKind): (r: Param)
    ensures r.Text?
    ensures kind == Search ==> |r.s| >= 2 && r.s[0] == '%' && r.s[|r.s| - 1] == '%' && r.s[1..|r.s| - 1] == Get(p, SearchParam)
    ensures kind != Search && KeyOf(kind) in p ==> r.s == p[KeyOf(kind)]
  {
    if kind == Search then Text("%" + Get(p, SearchParam) + "%") else Text(Get(p, KeyOf(kind)))
  }

  function Single(p: Params, kind: FilterKind): seq<Filter> {
    if Requested(p, KeyOf(kind)) then [Filter(kind, ScalarValue(p, kind))] else []
  }

  /** The single-valued filters in the order the handler checks them. */
  function ScalarKind(i: nat): (kind: FilterKind)
    requires i < 5
    ensures Rank(kind) == i
  {
    if i == 0 then Search else if i == 1 then Title else if i == 2 then Category
    else if i == 3 then MinPrice else MaxPrice
  }

  /** The fragments of the first m single-valued checks. */
  function ScalarPrefix(p: Params, m: nat): (r: seq<Filter>)
    requires m <= 5
    ensures forall k :: 0 <= k < |r| ==>
              r[k].kind != Tag && Rank(r[k].kind) < m && Requested(p, KeyOf(r[k].kind))
              && r[k].value == ScalarValue(p, r[k].kind)
  {
    if m == 0 then [] else ScalarPrefix(p, m - 1) + Single(p, ScalarKind(m - 1))
  }

  function ScalarFilters(p: Params): seq<Filter> {
    ScalarPrefix(p, 5)
  }

  /** One containment fragment per comma-separated tag, bound to json_encode([tag]). */
  function TagFilters(tags: seq<string>): (r: seq<Filter>)
    ensures |r| == |tags|
    ensures forall k :: 0 <= k < |tags| ==> r[k] == Filter(Tag, JsonArray([tags[k]]))
  {
    seq(|tags|, k requires 0 <= k < |tags| => Filter(Tag, JsonArray([tags[k]])))
  }

  /**
   * The reference plan: the fragments of the WHERE clause with their bound
   * values, in order. Only requested parameters give fragments.
   */
  function Plan(p: Params): (r: seq<Filter>)
    ensures forall k :: 0 <= k < |r| && r[k].kind != Tag ==>
              Requested(p, KeyOf(r[k].kind)) && r[k].value == ScalarValue(p, r[k].kind)
    ensures forall k :: 0 <= k < |r| && r[k].kind == Tag ==> Requested(p, TagsParam) && r[k].value.JsonArray?
  {
    ScalarFilters(p) + TagPart(p)
  }

  function TagPart(p: Params): (r: seq<Filter>)
    ensures forall k :: 0 <= k < |r| ==> r[k].kind == Tag && r[k].value.JsonArray?
    ensures r != [] ==> Requested(p, TagsParam)
  {
    if Requested(p, TagsParam) then TagFilters(Explode(p[TagsParam])) else []
  }

  function Clause(f: Filter, n: nat): string {
    Render(TemplateOf(f.kind), n)
  }

  /** Fragment k (from 0) is numbered k + 1. */
  function Clauses(plan: seq<Filter>): seq<string> {
    Numbered(Templates(plan), 1)
  }

  function Values(plan: seq<Filter>): seq<Param> {
    seq(|plan|, k requires 0 <= k < |plan| => plan[k].value)
  }

  function Templates(plan: seq<Filter>): (ts: seq<Template>)
    ensures |ts| == |plan|
  {
    seq(|plan|, k requires 0 <= k < |plan| => TemplateOf(plan[k].kind))
  }

  function WhereSql(clauses: seq<string>): (r: string)
    ensures r == "" <==> clauses == []
  {
    if |clauses| > 0 then "WHERE " + Implode(" AND ", clauses) else ""
  }

  const AllowedSortFields: seq<string> := ["price", "rating", "title", "stock", "id"]

  /** The ORDER BY column: the requested one if it is allow-listed, `id` otherwise. */
  function SortField(p: Params): (r: string)
    ensures r in AllowedSortFields
    ensures r == "id" || (SortByParam in p && r == p[SortByParam])
    ensures SortByParam in p && p[SortByParam] in AllowedSortFields ==> r == p[SortByParam]
  {
    var requested := if SortByParam in p then p[SortByParam] else "";
    if requested in AllowedSortFields then requested else "id"
  }

  /** Line 119: descending exactly when `order` is given and upper-cases to `DESC`. */
  function DirectionOf(p: Params): (r: Direction)
    ensures r == Desc <==> OrderParam in p && Upper(p[OrderParam]) == "DESC"
  {
    assert |Upper("ASC")| == 3;
    if Upper(if OrderParam in p then p[OrderParam] else "ASC") == "DESC" then Desc else Asc
  }

  function DirectionText(d: Direction): string {
    match d
    case Asc => "ASC"
    case Desc => "DESC"
  }

  /** Line 121: `limit` applies only when it is present and numeric, cast to a 64-bit integer. */
  function LimitOf(p: Params): (r: Option<int>)
    ensures r.Some? <==> LimitParam in p && IsNumeric(p[LimitParam])
    ensures r.Some? ==> IntMin <= r.value <= IntMax
  {
    if LimitParam in p && IsNumeric(p[LimitParam]) then Some(ToInt(p[LimitParam])) else None
  }

  /** Line 122: `offset` is 0 unless present and numeric, and a 64-bit integer. */
  function OffsetOf(p: Params): (r: int)
    ensures IntMin <= r <= IntMax
    ensures !(OffsetParam in p && IsNumeric(p[OffsetParam])) ==> r == 0
  {
    if OffsetParam in p && IsNumeric(p[OffsetParam]) then ToInt(p[OffsetParam]) else 0
  }

  function LimitSql(p: Params): (r: string)
    ensures r == "" <==> LimitOf(p).None?
  {
    match LimitOf(p)
    case Some(n) => " LIMIT " + IntToText(n) + " OFFSET " + IntToText(OffsetOf(p))
    case None => ""
  }

  /**
   * The statement text passed to pg_query_params: the WHERE part, absent
   * when no filter is requested, then the ORDER BY and LIMIT part.
   */
  function Statement(p: Params): (r: string)
    ensures r == "SELECT * FROM products " + WhereSql(Clauses(Plan(p))) + OrderSql(p)
  {
    Reassociate("SELECT * FROM products ", WhereSql(Clauses(Plan(p))), " ORDER BY ", SortField(p), " ",
      DirectionText(DirectionOf(p)), LimitSql(p));
    "SELECT * FROM products " + WhereSql(Clauses(Plan(p))) + " ORDER BY " + SortField(p) + " "
      + DirectionText(DirectionOf(p)) + LimitSql(p)
  }

  /** Everything after the WHERE clause. */
  function OrderSql(p: Params): string {
    " ORDER BY " + SortField(p) + " " + DirectionText(DirectionOf(p)) + LimitSql(p)
  }

  // ---------------------------------------------------------------------
  // The handler's construction, step by step.
  // ---------------------------------------------------------------------

  lemma ClausesSnoc(done: seq<Filter>, f: Filter)
    ensures Clauses(done + [f]) == Clauses(done) + [Clause(f, |done| + 1)]
    ensures Values(done + [f]) == Values(done) + [f.value]
  {
    var longer := done + [f];
    forall k | 0 <= k < |done| ensures Templates(longer)[k] == Templates(done)[k] {
      assert longer[k] == done[k];
    }
    assert longer[|done|] == f;
    assert Templates(longer) == Templates(done) + [TemplateOf(f.kind)];
    NumberedAppend(Templates(done), TemplateOf(f.kind), 1);
  }

  lemma TagFiltersSnoc(tags: seq<string>, j: nat)
    requires j < |tags|
    ensures TagFilters(tags[..j + 1]) == TagFilters(tags[..j]) + [Filter(Tag, JsonArray([tags[j]]))]
  {
  }

  lemma PrefixStep(p: Params, m: nat, kind: FilterKind)
    requires m < 5 && kind == ScalarKind(m)
    ensures ScalarPrefix(p, m + 1) == ScalarPrefix(p, m) + Single(p, kind)
  {
  }

  /**
   * The three statements every filter block of the handler repeats:
   * `$whereClauses[] = <fragment with $i>; $values[] = <value>; $i++;`
   */
  method Append(f: Filter, clauses: seq<string>, values: seq<Param>, i: nat, ghost done: seq<Filter>)
    returns (clauses': seq<string>, values': seq<Param>, i': nat)
    requires i == |done| + 1 && clauses == Clauses(done) && values == Values(done)
    ensures i' == |done| + 2
    ensures clauses' == Clauses(done + [f]) && values' == Values(done + [f])
  {
    ClausesSnoc(done, f);
    clauses' := clauses + [Render(TemplateOf(f.kind), i)];
    values' := values + [f.value];
    i' := i + 1;
  }

  /**
   * Lines 72-113: grow the fragment and value lists through the chain of
   * optional filters with the running counter `i`, the single-valued ones
   * first, then one per tag.
   */
  method BuildFilters(p: Params) returns (clauses: seq<string>, values: seq<Param>)
    ensures clauses == Clauses(Plan(p)) && values == Values(Plan(p))
  {
    var i;
    ghost var done;
    clauses, values, i, done := BuildScalarFilters(p);
    if Requested(p, TagsParam) {
      clauses, values := AppendTags(Explode(p[TagsParam]), clauses, values, i, done);
    }
    PlanSplit(p, done);
  }

  /** Lines 72-104: the five single-valued filters, each guarded by PHP's `empty`, in the handler's order. */
  method BuildScalarFilters(p: Params) returns (clauses: seq<string>, values: seq<Param>, i: nat, ghost done: seq<Filter>)
    ensures done == ScalarPrefix(p, 5)
    ensures i == |ScalarPrefix(p, 5)| + 1
    ensures clauses == Clauses(ScalarPrefix(p, 5)) && values == Values(ScalarPrefix(p, 5))
  {
    clauses, values, i, done := [], [], 1, [];
    clauses, values, i, done := AddIfRequested(p, Search, clauses, values, i, done);
    PrefixStep(p, 0, Search);
    clauses, values, i, done := AddIfRequested(p, Title, clauses, values, i, done);
    PrefixStep(p, 1, Title);
    clauses, values, i, done := AddIfRequested(p, Category, clauses, values, i, done);
    PrefixStep(p, 2, Category);
    clauses, values, i, done := AddIfRequested(p, MinPrice, clauses, values, i, done);
    PrefixStep(p, 3, MinPrice);
    clauses, values, i, done := AddIfRequested(p, MaxPrice, clauses, values, i, done);
    PrefixStep(p, 4, MaxPrice);
  }

  /**
   * One of the five blocks at lines 76-104: when the parameter is not
   * PHP-empty, emit the kind's fragment numbered `i` and bind its value.
   */
  method AddIfRequested(p: Params, kind: FilterKind, clauses0: seq<string>, values0: seq<Param>, i0: nat, ghost done0: seq<Filter>)
    returns (clauses: seq<string>, values: seq<Param>, i: nat, ghost done: seq<Filter>)
    requires kind != Tag
    requires i0 == |done0| + 1 && clauses0 == Clauses(done0) && values0 == Values(done0)
    ensures done == done0 + Single(p, kind)
    ensures i == |done0 + Single(p, kind)| + 1
    ensures clauses == Clauses(done0 + Single(p, kind)) && values == Values(done0 + Single(p, kind))
  {
    clauses, values, i, done := clauses0, values0, i0, done0;
    if !Empty(p, KeyOf(kind)) {
      var v := p[KeyOf(kind)];
      var f := Filter(kind, if kind == Search then Text("%" + v + "%") else Text(v));
      clauses, values, i := Append(f, clauses, values, i, done);
      done := done + [f];
    }
  }

  lemma PlanSplit(p: Params, scalars: seq<Filter>)
    requires scalars == ScalarPrefix(p, 5)
    ensures Plan(p) == scalars + (if Requested(p, TagsParam) then TagFilters(Explode(p[TagsParam])) else [])
    ensures !Requested(p, TagsParam) ==> Plan(p) == scalars
  {
  }

  /** Lines 106-113: one containment fragment per comma-separated tag. */
  method AppendTags(tags: seq<string>, clauses0: seq<string>, values0: seq<Param>, i0: nat, ghost done0: seq<Filter>)
    returns (clauses: seq<string>, values: seq<Param>)
    requires i0 == |done0| + 1 && clauses0 == Clauses(done0) && values0 == Values(done0)
    ensures clauses == Clauses(done0 + TagFilters(tags)) && values == Values(done0 + TagFilters(tags))
  {
    clauses, values := clauses0, values0;
    var i := i0;
    ghost var done := done0;
    assert done == done0 + TagFilters(tags[..0]);
    for j := 0 to |tags|
      invariant i == |done| + 1
      invariant clauses == Clauses(done) && values == Values(done)
      invariant done == done0 + TagFilters(tags[..j])
    {
      var f := Filter(Tag, JsonArray([tags[j]]));
      TagFiltersSnoc(tags, j);
      clauses, values, i := Append(f, clauses, values, i, done);
      done := done + [f];
    }
    assert tags[..|tags|] == tags;
  }

  /** Lines 115-127: the WHERE clause, the ORDER BY column and direction, and the optional LIMIT/OFFSET. */
  method ProductsQuery(p: Params) returns (query: string, values: seq<Param>)
    ensures query == Statement(p) && values == Values(Plan(p))
  {
    var clauses;
    clauses, values := BuildFilters(p);
    var whereSql := if |clauses| > 0 then "WHERE " + Implode(" AND ", clauses) else "";
    var requestedSort := if SortByParam in p then p[SortByParam] else "";
    var sortBy := if requestedSort in AllowedSortFields then requestedSort else "id";
    var order := if Upper(if OrderParam in p then p[OrderParam] else "ASC") == "DESC" then "DESC" else "ASC";
    var limit: Option<int> := if LimitParam in p && IsNumeric(p[LimitParam]) then Some(ToInt(p[LimitParam])) else None;
    var offset := if OffsetParam in p && IsNumeric(p[OffsetParam]) then ToInt(p[OffsetParam]) else 0;
    assert whereSql == WhereSql(Clauses(Plan(p)));
    assert sortBy == SortField(p);
    OrderText(p);
    LimitText(p);
    query := "SELECT * FROM products " + whereSql + " ORDER BY " + sortBy + " " + order;
    ghost var head := query;
    if limit.Some? {
      query := query + (" LIMIT " + IntToText(limit.value) + " OFFSET " + IntToText(offset));
    } else {
      AppendNothing(head);
    }
  }

  /** Line 119 as the handler writes it gives the direction of `DirectionOf`. */
  lemma OrderText(p: Params)
    ensures (if Upper(if OrderParam in p then p[OrderParam] else "ASC") == "DESC" then "DESC" else "ASC")
            == DirectionText(DirectionOf(p))
  {
  }

  /** Lines 121-127 as the handler writes them give `LimitSql`. */
  lemma LimitText(p: Params)
    ensures LimitParam in p && IsNumeric(p[LimitParam]) ==>
              LimitSql(p) == " LIMIT " + IntToText(ToInt(p[LimitParam])) + " OFFSET " + IntToText(OffsetOf(p))
    ensures !(LimitParam in p && IsNumeric(p[LimitParam])) ==> LimitSql(p) == ""
    ensures OffsetOf(p) == if OffsetParam in p && IsNumeric(p[OffsetParam]) then ToInt(p[OffsetParam]) else 0
  {
  }

  lemma AppendNothing(s: string)
    ensures s + "" == s
  {
  }

  // ---------------------------------------------------------------------
  // What the plan holds.
  // ---------------------------------------------------------------------

  /** Fragments appear in the handler's order of checks; only tag fragments repeat. */
  predicate Ordered(plan: seq<Filter>) {
    forall i, j :: 0 <= i < j < |plan| ==>
      Rank(plan[i].kind) < Rank(plan[j].kind) || (plan[i].kind == Tag && plan[j].kind == Tag)
  }

  /** Every fragment of `a` ranks strictly below `r`. */
  predicate RanksBelow(a: seq<Filter>, r: nat) {
    forall f :: f in a ==> Rank(f.kind) < r
  }

  lemma InSingle(p: Params, kind: FilterKind, f: Filter)
    ensures f in Single(p, kind) <==> Requested(p, KeyOf(kind)) && f == Filter(kind, ScalarValue(p, kind))
  {
  }

  lemma OrderedThenSingle(a: seq<Filter>, p: Params, kind: FilterKind)
    requires Ordered(a) && RanksBelow(a, Rank(kind))
    ensures Ordered(a + Single(p, kind)) && RanksBelow(a + Single(p, kind), Rank(kind) + 1)
  {
    var b := a + Single(p, kind);
    forall f | f in b ensures Rank(f.kind) < Rank(kind) + 1 {
      InSingle(p, kind, f);
    }
    if !Requested(p, KeyOf(kind)) {
      assert b == a;
    } else {
      forall i, j | 0 <= i < j < |b|
        ensures Rank(b[i].kind) < Rank(b[j].kind) || (b[i].kind == Tag && b[j].kind == Tag)
      {
        assert b[i] == a[i];
        if j < |a| {
          assert b[j] == a[j];
        } else {
          assert a[i] in a;
        }
      }
    }
  }

  lemma OrderedThenTags(a: seq<Filter>, tags: seq<Filter>)
    requires Ordered(a) && RanksBelow(a, Rank(Tag))
    requires forall k :: 0 <= k < |tags| ==> tags[k].kind == Tag
    ensures Ordered(a + tags)
  {
    var b := a + tags;
    forall i, j | 0 <= i < j < |b|
      ensures Rank(b[i].kind) < Rank(b[j].kind) || (b[i].kind == Tag && b[j].kind == Tag)
    {
      if j < |a| {
        assert b[i] == a[i] && b[j] == a[j];
      } else if i < |a| {
        assert b[i] == a[i] && a[i] in a && b[j] == tags[j - |a|];
      } else {
        assert b[i] == tags[i - |a|] && b[j] == tags[j - |a|];
      }
    }
  }

  /** The plan lists the fragments in the handler's order: each single-valued filter at most once, then the tags. */
  lemma {:induction false} ScalarsOrdered(p: Params, m: nat)
    requires m <= 5
    ensures Ordered(ScalarPrefix(p, m)) && RanksBelow(ScalarPrefix(p, m), m)
  {
    if m > 0 {
      ScalarsOrdered(p, m - 1);
      OrderedThenSingle(ScalarPrefix(p, m - 1), p, ScalarKind(m - 1));
    }
  }

  lemma PlanOrdered(p: Params)
    ensures Ordered(Plan(p))
  {
    ScalarsOrdered(p, 5);
    OrderedThenTags(ScalarFilters(p), TagPart(p));
  }

  /** In an ordered plan each single-valued filter occurs at most once. */
  lemma OrderedUnique(plan: seq<Filter>)
    requires Ordered(plan)
    ensures forall i, j :: 0 <= i < |plan| && 0 <= j < |plan| && plan[i].kind == plan[j].kind != Tag ==> i == j
  {
  }

  /** The first m checks emit exactly the requested filters among the first m kinds, each bound to its value. */
  lemma {:induction false} InScalarPrefix(p: Params, m: nat, f: Filter)
    requires m <= 5
    ensures f in ScalarPrefix(p, m) <==>
      f.kind != Tag && Rank(f.kind) < m && Requested(p, KeyOf(f.kind)) && f == Filter(f.kind, ScalarValue(p, f.kind))
  {
    if m > 0 {
      InScalarPrefix(p, m - 1, f);
      InSingle(p, ScalarKind(m - 1), f);
      if f.kind != Tag && Rank(f.kind) == m - 1 {
        assert f.kind == ScalarKind(m - 1);
      }
    }
  }

  /** A single-valued filter is in the plan, bound to its value, exactly when its parameter is not PHP-empty. */
  lemma ScalarPresence(p: Params, kind: FilterKind)
    requires kind != Tag
    ensures Filter(kind, ScalarValue(p, kind)) in Plan(p) <==> Requested(p, KeyOf(kind))
    ensures forall f :: f in Plan(p) && f.kind == kind ==> f.value == ScalarValue(p, kind)
  {
    forall f | f in Plan(p) && f.kind == kind ensures f.value == ScalarValue(p, kind) {
      InScalarPrefix(p, 5, f);
    }
    InScalarPrefix(p, 5, Filter(kind, ScalarValue(p, kind)));
  }

  /** When `tags` is given, the plan ends with one fragment per comma-separated piece, bound to that piece alone. */
  lemma PlanTags(p: Params)
    requires Requested(p, TagsParam)
    ensures var pieces, n := Explode(p[TagsParam]), |ScalarFilters(p)|;
      && |Plan(p)| == n + CountChar(',', p[TagsParam]) + 1
      && forall k :: 0 <= k < |pieces| ==> Plan(p)[n + k] == Filter(Tag, JsonArray([pieces[k]]))
  {
    ExplodeCount(p[TagsParam]);
  }

  /** The tag texts bound, glued back with commas, give the `tags` parameter unchanged. */
  lemma {:induction false} TagsRoundTrip(p: Params)
    requires Requested(p, TagsParam)
    ensures var n := |ScalarFilters(p)|;
      Implode(",", seq(|Plan(p)| - n, k requires 0 <= k < |Plan(p)| - n => Plan(p)[n + k].value.items[0])) == p[TagsParam]
  {
    var n := |ScalarFilters(p)|;
    var pieces := Explode(p[TagsParam]);
    PlanTags(p);
    ExplodeCount(p[TagsParam]);
    var bound := seq(|Plan(p)| - n, k requires 0 <= k < |Plan(p)| - n => Plan(p)[n + k].value.items[0]);
    assert bound == pieces;
    ImplodeExplode(p[TagsParam]);
  }

  // ---------------------------------------------------------------------
  // The statement refers to the bound values by number and to nothing else.
  // ---------------------------------------------------------------------

  /** No fragment text holds a `$` or could lengthen the number of the placeholder before it. */
  lemma TemplatesWellFormed(kind: FilterKind)
    ensures WellFormed(TemplateOf(kind))
  {
    TemplateShape(kind);
  }

  /** The search fragment uses its placeholder three times, every other fragment once. */
  lemma TemplateHoles(kind: FilterKind)
    ensures Holes(TemplateOf(kind)) == if kind == Search then 3 else 1
  {
    TemplateShape(kind);
  }

  lemma TemplateShape(kind: FilterKind)
    ensures WellFormed(TemplateOf(kind))
    ensures Holes(TemplateOf(kind)) == if kind == Search then 3 else 1
  {
    match kind
    case Search =>
      SearchTextsSafe();
      ThreeHoles("(LOWER(title) LIKE LOWER(", ") OR LOWER(brand) LIKE LOWER(",
        ") OR LOWER(description) LIKE LOWER(", "))");
    case Title =>
      OtherTextsSafe();
      LitHoleLit("LOWER(title) = LOWER(", ")");
    case Category =>
      OtherTextsSafe();
      LitHole("category = ");
    case MinPrice =>
      OtherTextsSafe();
      LitHole("price >= ");
    case MaxPrice =>
      OtherTextsSafe();
      LitHole("price <= ");
    case Tag =>
      OtherTextsSafe();
      LitHoleLit("tags @> ", "::jsonb");
  }

  lemma SearchTextsSafe()
    ensures SafeLit("(LOWER(title) LIKE LOWER(") && SafeLit(") OR LOWER(brand) LIKE LOWER(")
    ensures SafeLit(") OR LOWER(description) LIKE LOWER(") && SafeLit("))")
  {
  }

  lemma OtherTextsSafe()
    ensures SafeLit("LOWER(title) = LOWER(") && SafeLit(")")
    ensures SafeLit("category = ") && SafeLit("price >= ") && SafeLit("price <= ")
    ensures SafeLit("tags @> ") && SafeLit("::jsonb")
  {
  }

  lemma LitHole(a: string)
    requires SafeLit(a)
    ensures WellFormed([Lit(a), Hole]) && Holes([Lit(a), Hole]) == 1
  {
    var t := [Lit(a), Hole];
    assert t[1..][1..] == [];
    assert Holes(t[1..]) == 1;
  }

  lemma LitHoleLit(a: string, b: string)
    requires SafeLit(a) && SafeLit(b)
    ensures WellFormed([Lit(a), Hole, Lit(b)]) && Holes([Lit(a), Hole, Lit(b)]) == 1
  {
    var t := [Lit(a), Hole, Lit(b)];
    assert t[1..][1..] == [Lit(b)];
    assert t[1..][1..][1..] == [];
    assert Holes(t[1..][1..]) == 0;
    assert Holes(t[1..]) == 1;
  }

  lemma ThreeHoles(a: string, b: string, c: string, d: string)
    requires SafeLit(a) && SafeLit(b) && SafeLit(c) && SafeLit(d)
    ensures WellFormed([Lit(a), Hole, Lit(b), Hole, Lit(c), Hole, Lit(d)])
    ensures Holes([Lit(a), Hole, Lit(b), Hole, Lit(c), Hole, Lit(d)]) == 3
  {
    var t := [Lit(a), Hole, Lit(b), Hole, Lit(c), Hole, Lit(d)];
    LitHoleLit(c, d);
    assert t[4..] == [Lit(c), Hole, Lit(d)];
    assert Holes(t[3..]) == 2 by {
      assert t[3..][1..] == t[4..];
    }
    assert Holes(t[2..]) == 2 by {
      assert t[2..][1..] == t[3..];
    }
    assert Holes(t[1..]) == 3 by {
      assert t[1..][1..] == t[2..];
    }
    assert t[0..] == t;
  }

  lemma ClausesRendered(plan: seq<Filter>)
    ensures RenderedFrom(Clauses(plan), Templates(plan), 1)
  {
    forall k | 0 <= k < |plan| ensures WellFormed(Templates(plan)[k]) {
      TemplatesWellFormed(plan[k].kind);
    }
    NumberedRendered(Templates(plan), 1);
  }

  lemma SortFieldSafe(p: Params)
    ensures '$' !in SortField(p)
  {
    var field := SortField(p);
    assert field == "price" || field == "rating" || field == "title" || field == "stock" || field == "id";
  }

  lemma LimitSqlSafe(p: Params)
    ensures '$' !in LimitSql(p)
  {
    if LimitOf(p).Some? {
      var n, m := IntToText(LimitOf(p).value), IntToText(OffsetOf(p));
      assert '$' !in n && '$' !in m;
      NoDollarAppend(" LIMIT ", n);
      NoDollarAppend(" LIMIT " + n, " OFFSET ");
      NoDollarAppend(" LIMIT " + n + " OFFSET ", m);
    }
  }

  /** The ORDER BY tail holds no `$` and starts with a blank. */
  lemma OrderSqlSafe(p: Params)
    ensures '$' !in OrderSql(p) && OrderSql(p)[0] == ' '
  {
    var field, dir, limit := SortField(p), DirectionText(DirectionOf(p)), LimitSql(p);
    SortFieldSafe(p);
    assert '$' !in dir;
    LimitSqlSafe(p);
    NoDollarAppend(" ORDER BY ", field);
    NoDollarAppend(" ORDER BY " + field, " ");
    NoDollarAppend(" ORDER BY " + field + " ", dir);
    NoDollarAppend(" ORDER BY " + field + " " + dir, limit);
  }

  lemma StatementLiteralsSafe()
    ensures '$' !in "SELECT * FROM products " && '$' !in "WHERE " && SafeLit(" AND ")
  {
  }

  lemma Reassociate(a: string, b: string, c: string, d: string, e: string, f: string, g: string)
    ensures a + b + c + d + e + f + g == a + (b + (c + d + e + f + g))
  {
  }

  /**
   * The placeholders of the statement, in order, are exactly the numbers of
   * its fragments, each repeated once per hole: the text of the request
   * reaches the statement only through `$n`.
   */
  lemma StatementPlaceholders(p: Params)
    ensures Refs(Statement(p)) == Expand(Templates(Plan(p)), 1)
  {
    var plan := Plan(p);
    OrderSqlSafe(p);
    ClausesRendered(plan);
    Reassociate("SELECT * FROM products ", WhereSql(Clauses(plan)), " ORDER BY ", SortField(p), " ",
                DirectionText(DirectionOf(p)), LimitSql(p));
    RefsOfSelect(Clauses(plan), Templates(plan), OrderSql(p));
  }

  /** The references of the statement text around any WHERE clause built from rendered fragments. */
  lemma RefsOfSelect(clauses: seq<string>, ts: seq<Template>, order: string)
    requires RenderedFrom(clauses, ts, 1) && '$' !in order && |order| > 0 && order[0] == ' '
    ensures Refs("SELECT * FROM products " + (WhereSql(clauses) + order)) == Expand(ts, 1)
  {
    StatementLiteralsSafe();
    RefsOfWhere(clauses, ts, order);
    RefsSkip("SELECT * FROM products ", WhereSql(clauses) + order);
  }

  /** The WHERE clause refers to its fragments' numbers, and the text after it to none. */
  lemma RefsOfWhere(clauses: seq<string>, ts: seq<Template>, order: string)
    requires RenderedFrom(clauses, ts, 1) && '$' !in order && |order| > 0 && order[0] == ' '
    ensures Refs(WhereSql(clauses) + order) == Expand(ts, 1)
  {
    var where := WhereSql(clauses);
    StatementLiteralsSafe();
    RefsSkip(order, []);
    assert order + [] == order;
    if clauses == [] {
      assert where + order == order;
    } else {
      RefsImplode(" AND ", clauses, ts, 1, order);
      assert where + order == "WHERE " + (Implode(" AND ", clauses) + order);
      RefsSkip("WHERE ", Implode(" AND ", clauses) + order);
    }
  }

  /** Every placeholder has a bound value and every bound value is used. */
  lemma PlaceholdersMatchValues(p: Params)
    ensures forall x :: x in Refs(Statement(p)) ==> 1 <= x <= |Values(Plan(p))|
    ensures forall x: nat :: 1 <= x <= |Values(Plan(p))| ==> x in Refs(Statement(p))
  {
    var ts := Templates(Plan(p));
    StatementPlaceholders(p);
    forall k | 0 <= k < |ts| ensures Holes(ts[k]) > 0 {
      TemplateHoles(Plan(p)[k].kind);
    }
    ExpandBounds(ts, 1);
  }

  /** Two plans with the same fragment kinds in the same positions, whatever their values. */
  predicate SameKinds(a: seq<Filter>, b: seq<Filter>) {
    |a| == |b| && forall k :: 0 <= k < |a| ==> a[k].kind == b[k].kind
  }

  /** The fragments depend on the kinds of the filters only, never on their values. */
  lemma ClausesOfSameKinds(a: seq<Filter>, b: seq<Filter>)
    requires SameKinds(a, b)
    ensures Clauses(a) == Clauses(b)
  {
    forall k | 0 <= k < |a| ensures Templates(a)[k] == Templates(b)[k] {
      assert a[k].kind == b[k].kind;
    }
    assert Templates(a) == Templates(b);
  }

  /** Two requests whose plans have the same kinds and with the same sort, direction and limit get the same statement text. */
  lemma StatementOfShape(p: Params, q: Params)
    requires SameKinds(Plan(p), Plan(q))
    requires SortField(p) == SortField(q) && DirectionOf(p) == DirectionOf(q) && LimitOf(p) == LimitOf(q)
    requires LimitOf(p).Some? ==> OffsetOf(p) == OffsetOf(q)
    ensures Statement(p) == Statement(q)
  {
    ClausesOfSameKinds(Plan(p), Plan(q));
  }

  lemma SameKindsAppend(a1: seq<Filter>, a2: seq<Filter>, b1: seq<Filter>, b2: seq<Filter>)
    requires SameKinds(a1, b1) && SameKinds(a2, b2)
    ensures SameKinds(a1 + a2, b1 + b2)
  {
    forall k | 0 <= k < |a1 + a2| ensures (a1 + a2)[k].kind == (b1 + b2)[k].kind {
      if k < |a1| {
        assert (a1 + a2)[k] == a1[k] && (b1 + b2)[k] == b1[k];
      } else {
        assert (a1 + a2)[k] == a2[k - |a1|] && (b1 + b2)[k] == b2[k - |a1|];
      }
    }
  }

  /** Which single-valued filters apply depends only on which parameters are non-empty. */
  lemma {:induction false} ScalarKinds(p: Params, q: Params, m: nat)
    requires m <= 5
    requires forall kind :: Requested(p, KeyOf(kind)) == Requested(q, KeyOf(kind))
    ensures SameKinds(ScalarPrefix(p, m), ScalarPrefix(q, m))
  {
    if m > 0 {
      var kind := ScalarKind(m - 1);
      ScalarKinds(p, q, m - 1);
      assert Requested(p, KeyOf(kind)) == Requested(q, KeyOf(kind));
      SameKindsAppend(ScalarPrefix(p, m - 1), Single(p, kind), ScalarPrefix(q, m - 1), Single(q, kind));
    }
  }

  /**
   * Replacing the text of a given single-valued filter by any other non-empty
   * text changes the bound values only: the statement stays the same.
   */
  lemma FilterTextNeverReachesStatement(p: Params, kind: FilterKind, v: string)
    requires kind != Tag && Requested(p, KeyOf(kind)) && v != "" && v != "0"
    ensures Statement(p[KeyOf(kind) := v]) == Statement(p)
  {
    var q := p[KeyOf(kind) := v];
    assert SameKinds(Plan(p), Plan(q)) by {
      forall other ensures Requested(p, KeyOf(other)) == Requested(q, KeyOf(other)) {
      }
      ScalarKinds(p, q, 5);
      assert TagPart(q) == TagPart(p);
      SameKindsAppend(ScalarFilters(p), TagPart(p), ScalarFilters(q), TagPart(q));
    }
    OrderingOfAgreeing(p, q);
    StatementOfShape(p, q);
  }

  lemma TagKinds(s: string, t: string)
    requires CountChar(',', s) == CountChar(',', t)
    ensures SameKinds(TagFilters(Explode(s)), TagFilters(Explode(t)))
  {
    ExplodeCount(s);
    ExplodeCount(t);
  }

  /** Only the number of tags matters: tag text with as many commas gives the same statement. */
  lemma TagTextNeverReachesStatement(p: Params, v: string)
    requires Requested(p, TagsParam) && v != "" && v != "0"
    requires CountChar(',', v) == CountChar(',', p[TagsParam])
    ensures Statement(p[TagsParam := v]) == Statement(p)
  {
    var q := p[TagsParam := v];
    TagPlanKinds(p, v);
    OrderingOfAgreeing(p, q);
    StatementOfShape(p, q);
  }

  lemma TagPlanKinds(p: Params, v: string)
    requires Requested(p, TagsParam) && v != "" && v != "0"
    requires CountChar(',', v) == CountChar(',', p[TagsParam])
    ensures SameKinds(Plan(p), Plan(p[TagsParam := v]))
  {
    var q := p[TagsParam := v];
    forall other ensures Requested(p, KeyOf(other)) == Requested(q, KeyOf(other)) {
    }
    ScalarKinds(p, q, 5);
    TagKinds(p[TagsParam], v);
    assert TagPart(p) == TagFilters(Explode(p[TagsParam])) && TagPart(q) == TagFilters(Explode(v));
    SameKindsAppend(ScalarFilters(p), TagPart(p), ScalarFilters(q), TagPart(q));
  }

  /** Two parameter maps that give a key the same presence and value. */
  predicate AgreeOn(p: Params, q: Params, key: Field) {
    (key in p <==> key in q) && (key in p ==> p[key] == q[key])
  }

  /** The ORDER BY and LIMIT parts read `sortBy`, `order`, `limit` and `offset` only. */
  lemma OrderingOfAgreeing(p: Params, q: Params)
    requires AgreeOn(p, q, SortByParam) && AgreeOn(p, q, OrderParam)
    requires AgreeOn(p, q, LimitParam) && AgreeOn(p, q, OffsetParam)
    ensures SortField(p) == SortField(q) && DirectionOf(p) == DirectionOf(q)
    ensures LimitOf(p) == LimitOf(q) && OffsetOf(p) == OffsetOf(q)
  {
  }

  /** Maps that agree on the filter parameters give the same plan. */
  lemma {:induction false} PrefixOfAgreeing(p: Params, q: Params, m: nat)
    requires m <= 5
    requires forall kind :: AgreeOn(p, q, KeyOf(kind))
    ensures ScalarPrefix(p, m) == ScalarPrefix(q, m)
  {
    if m > 0 {
      PrefixOfAgreeing(p, q, m - 1);
      assert AgreeOn(p, q, KeyOf(ScalarKind(m - 1)));
      assert AgreeOn(p, q, KeyOf(Search));
    }
  }

  /** Without a numeric `limit`, `offset` has no effect on the statement. */
  lemma OffsetNeedsLimit(p: Params, v: string)
    requires LimitOf(p).None?
    ensures Statement(p[OffsetParam := v]) == Statement(p)
  {
    var q := p[OffsetParam := v];
    assert Plan(q) == Plan(p) by {
      forall kind ensures AgreeOn(p, q, KeyOf(kind)) {
      }
      PrefixOfAgreeing(p, q, 5);
      assert TagPart(q) == TagPart(p);
    }
    assert LimitSql(q) == LimitSql(p) && SortField(q) == SortField(p) && DirectionOf(q) == DirectionOf(p);
  }

  /** The LIMIT and OFFSET numbers written into the statement read back as the integers PHP computed. */
  lemma LimitTextReadsBack(p: Params)
    requires LimitOf(p).Some?
    ensures ToInt(IntToText(LimitOf(p).value)) == LimitOf(p).value
    ensures ToInt(IntToText(OffsetOf(p))) == OffsetOf(p)
  {
    IntTextRoundTrip(LimitOf(p).value);
    IntTextRoundTrip(OffsetOf(p));
  }
}
