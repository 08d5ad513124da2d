/**
 * `GET /similar/{id}` of the PHP backend (slim-backend/public/index.php
 * lines 218-247): look the product up by id, answer 404 when there is none,
 * otherwise fetch up to ten other products of its category and decode their
 * JSONB columns. Both queries' results are given as parameters.
 */
module SimilarProducts {
  import opened Wrappers
  import opened PhpStrings
  import opened Sql
  import Rows

  /** Line 223: the lookup statement, its one placeholder numbered 1. */
  function LookupSql(): (r: string)
    ensures r == "SELECT * FROM products WHERE id = $1"
  {
    FirstPlaceholders();
    "SELECT * FROM products WHERE id = " + Placeholder(1)
  }

  /** Line 234: the category statement, the id numbered 1 and the category 2. */
  function SimilarSql(): (r: string)
    ensures r == "SELECT * FROM products WHERE id != $1 AND category = $2 LIMIT 10"
  {
    FirstPlaceholders();
    assert SimilarStatement(1, 2) == "SELECT * FROM products WHERE id != " + "$1" + " AND category = " + "$2" + " LIMIT 10";
    SimilarStatement(1, 2)
  }

  /** The category statement with placeholders `$id` and `$category`. */
  function SimilarStatement(id: nat, category: nat): string {
    "SELECT * FROM products WHERE id != " + Placeholder(id) + " AND category = " + Placeholder(category) + " LIMIT 10"
  }

  lemma FirstPlaceholders()
    ensures Placeholder(1) == "$1" && Placeholder(2) == "$2"
  {
    assert NatToText(1) == "1" && NatToText(2) == "2";
  }

  /** Lines 231 and 235: the category column of the fetched product as a bound value; SQL NULL binds null. */
  function CategoryParam(product: Rows.RawRow): (r: Param)
    ensures r.Null? <==> "category" !in product || product["category"].None?
    ensures r.Text? ==> r.s == product["category"].value
    ensures r.Null? || r.Text?
  {
    if "category" in product && product["category"].Some? then Text(product["category"].value) else Null
  }

  datatype Outcome =
    | NotFound(error: string)
    | Similar(query: string, params: seq<Param>, rows: seq<Rows.Row>)
  {
    function Status(): nat {
      if NotFound? then 404 else 200
    }
  }

  /** PHP's `!$product`: no row, or a row that is an empty array. */
  function Missing(product: Option<Rows.RawRow>): (r: bool)
    ensures !r <==> product.Some? && |product.value| > 0
  {
    product.None? || product.value == map[]
  }

  /**
   * Lines 218-247. The handler first runs `lookup` with `lookupParams`;
   * `product` is the row that statement returns, and `fetched` the rows the
   * category statement returns.
   */
  method SimilarTo(idArg: string, product: Option<Rows.RawRow>, fetched: seq<Rows.RawRow>)
    returns (lookup: string, lookupParams: seq<Param>, outcome: Outcome)
    ensures lookup == LookupSql() && lookupParams == [Int(ToInt(idArg))]
    ensures outcome.NotFound? <==> Missing(product)
    ensures outcome.NotFound? ==> outcome.error == "Product not found"
    ensures outcome.Similar? ==>
      && outcome.query == SimilarSql()
      && outcome.params == [Int(ToInt(idArg)), CategoryParam(product.value)]
      && |outcome.rows| == |fetched|
      && forall k :: 0 <= k < |fetched| ==> outcome.rows[k] == Rows.Parsed(Rows.LiftRow(fetched[k]))
  {
    var id := ToInt(idArg);
    lookup, lookupParams := LookupSql(), [Int(id)];
    if product.None? || product.value == map[] {
      outcome := NotFound("Product not found");
      return;
    }
    var category := CategoryParam(product.value);
    var params := [Int(id), category];
    var rows := Rows.ParseRows(fetched);
    outcome := Similar(SimilarSql(), params, rows);
  }

  /** The lookup refers to $1 only, the requested id. */
  lemma LookupPlaceholders()
    ensures Refs(LookupSql()) == [1]
  {
    assert '$' !in "SELECT * FROM products WHERE id = ";
    RefsPlaceholder(1, []);
    assert Placeholder(1) + [] == Placeholder(1);
    RefsSkip("SELECT * FROM products WHERE id = ", Placeholder(1));
  }

  /** The text after the id placeholder of the category statement. */
  function CategoryTail(category: nat): string {
    " AND category = " + (Placeholder(category) + " LIMIT 10")
  }

  /** The end of the category statement refers to its category placeholder only, and starts with no digit. */
  lemma CategoryTailPlaceholders(category: nat)
    ensures Refs(CategoryTail(category)) == [category]
    ensures StartsWithoutDigit(CategoryTail(category))
  {
    var tail := " LIMIT 10";
    assert SafeLit(tail) && SafeLit(" AND category = ");
    assert Refs(Placeholder(category) + tail) == [category] by {
      RefsSkip(tail, []);
      assert tail + [] == tail;
      RefsPlaceholder(category, tail);
    }
    RefsSkip(" AND category = ", Placeholder(category) + tail);
  }

  lemma SimilarPrefixSafe()
    ensures '$' !in "SELECT * FROM products WHERE id != "
  {
  }

  lemma SimilarStatementShape(id: nat, category: nat)
    ensures SimilarStatement(id, category) == "SELECT * FROM products WHERE id != " + (Placeholder(id) + CategoryTail(category))
  {
  }

  /** The category statement refers to its id placeholder, then to its category placeholder. */
  lemma SimilarStatementPlaceholders(id: nat, category: nat)
    ensures Refs(SimilarStatement(id, category)) == [id, category]
  {
    SimilarStatementShape(id, category);
    SimilarPrefixSafe();
    RefsSkip("SELECT * FROM products WHERE id != ", Placeholder(id) + CategoryTail(category));
    CategoryTailPlaceholders(category);
    RefsPlaceholder(id, CategoryTail(category));
  }

  /**
   * The category statement refers to $1 then $2, one per bound value: $1 is
   * the requested id, so the product itself is excluded, and $2 its category.
   */
  lemma SimilarPlaceholders()
    ensures Refs(SimilarSql()) == [1, 2]
  {
    SimilarStatementPlaceholders(1, 2);
  }
}
