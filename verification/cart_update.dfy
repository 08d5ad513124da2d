/**
 * `PUT /cart_items/{id}/update` of the PHP backend
 * (slim-backend/public/index.php lines 433-481): the partial SET clause
 * built from the fields present in the request body, the id bound last, and
 * the three outcomes (400 when there is nothing to update, 404 when no row
 * comes back, otherwise the updated item).
 *
 * The decoded request body is given as a map over the two fields the
 * handler reads; a field the body sets to JSON null holds `None`, and a
 * body that is not a JSON object is the empty map.
 */
module CartUpdate {
  import opened Wrappers
  import opened PhpStrings
  import opened Sql
  import Rows

  /** The request-body fields the handler reads, in the order it reads them. */
  datatype UpdateField = Quantity | Price

  /** The decoded body: a present field holds its JSON value as text, or `None` for JSON null. */
  type Body = map<UpdateField, Option<string>>

  /** PHP's `isset($data[key])`: present and not null. */
  predicate IsSet(body: Body, f: UpdateField) {
    f in body && body[f].Some?
  }

  /** The SET assignment of a field, with its one placeholder. */
  function ColumnTemplate(f: UpdateField): Template {
    match f
    case Quantity => [Lit("quantity = "), Hole]
    case Price => [Lit("price = "), Hole]
  }

  /** The value bound for a field: `(int)` of the quantity, `(float)` of the price. */
  function ValueOf(body: Body, f: UpdateField): Param
    requires IsSet(body, f)
  {
    match f
    case Quantity => CastToInt(body[f].value)
    case Price => CastToFloat(body[f].value)
  }

  /** The fields that go into the SET clause, in the order the handler appends them. */
  function Plan(body: Body): (plan: seq<UpdateField>)
    ensures Quantity in plan <==> IsSet(body, Quantity)
    ensures Price in plan <==> IsSet(body, Price)
    ensures |plan| <= 2
  {
    (if IsSet(body, Quantity) then [Quantity] else []) + (if IsSet(body, Price) then [Price] else [])
  }

  function Templates(plan: seq<UpdateField>): (ts: seq<Template>)
    ensures |ts| == |plan|
  {
    seq(|plan|, k requires 0 <= k < |plan| => ColumnTemplate(plan[k]))
  }

  /** Assignment k of the SET clause uses placeholder k + 1. */
  function Assignments(plan: seq<UpdateField>): (r: seq<string>)
    ensures |r| == |plan|
  {
    Numbered(Templates(plan), 1)
  }

  /** The values bound for the fields of a plan, in its order. */
  function PlanValues(body: Body, plan: seq<UpdateField>): (vs: seq<Param>)
    requires forall k :: 0 <= k < |plan| ==> IsSet(body, plan[k])
    ensures |vs| == |plan|
  {
    seq(|plan|, k requires 0 <= k < |plan| => ValueOf(body, plan[k]))
  }

  /** The bound values: one per assignment, then the id. */
  function UpdateValues(body: Body, id: int): (r: seq<Param>)
    ensures |r| == |Plan(body)| + 1 && r[|Plan(body)|] == Int(id)
  {
    PlanValues(body, Plan(body)) + [Int(id)]
  }

  /** Appending a field to a plan appends its assignment, numbered after the others. */
  lemma AssignmentsAppend(plan: seq<UpdateField>, f: UpdateField)
    ensures Assignments(plan + [f]) == Assignments(plan) + [Render(ColumnTemplate(f), |plan| + 1)]
  {
    TemplatesAppend(plan, f);
    NumberedAppend(Templates(plan), ColumnTemplate(f), 1);
  }

  lemma TemplatesAppend(plan: seq<UpdateField>, f: UpdateField)
    ensures Templates(plan + [f]) == Templates(plan) + [ColumnTemplate(f)]
  {
    var longer := plan + [f];
    forall k | 0 <= k < |plan| ensures Templates(longer)[k] == Templates(plan)[k] {
      assert longer[k] == plan[k];
    }
    assert longer[|plan|] == f;
  }

  /** Appending a field to a plan appends its value. */
  lemma PlanValuesAppend(body: Body, plan: seq<UpdateField>, f: UpdateField)
    requires forall k :: 0 <= k < |plan| ==> IsSet(body, plan[k])
    requires IsSet(body, f)
    ensures PlanValues(body, plan + [f]) == PlanValues(body, plan) + [ValueOf(body, f)]
  {
  }

  const Returning: string := " RETURNING id, user_uid, " + "product_id, img_url, " + "quantity, price, added_at"

  /** The statement the handler concatenates from its SET list and the id's placeholder number. */
  function UpdateStatement(sets: seq<string>, n: nat): string {
    "UPDATE cart_items SET " + Implode(", ", sets) + " WHERE id = " + Placeholder(n) + Returning
  }

  /** The statement for a plan; the id's placeholder follows the last assignment's. */
  function UpdateSql(plan: seq<UpdateField>): (r: string)
    ensures "UPDATE cart_items SET " <= r
    ensures |r| >= |Returning| && r[|r| - |Returning|..] == Returning
  {
    UpdateStatement(Assignments(plan), |plan| + 1)
  }

  /** What the handler does before it reaches the database. */
  datatype Prepared = NothingToUpdate | Update(sql: string, values: seq<Param>)

  /** Lines 434-460: reject an empty update, otherwise build the statement and its values. */
  method PrepareUpdate(idArg: string, body: Body) returns (r: Prepared)
    ensures r.NothingToUpdate? <==> !IsSet(body, Quantity) && !IsSet(body, Price)
    ensures r.Update? ==> r.sql == UpdateSql(Plan(body)) && r.values == UpdateValues(body, ToInt(idArg))
  {
    var id := ToInt(idArg);
    if !IsSet(body, Quantity) && !IsSet(body, Price) {
      return NothingToUpdate;
    }
    var fields, values, i := BuildAssignments(body);
    values := values + [Int(id)];
    r := Update(UpdateStatement(fields, i), values);
  }

  /**
   * Lines 443-457: one assignment and one cast value per set field, the
   * quantity first, with the counter one past the last placeholder used.
   */
  method BuildAssignments(body: Body) returns (fields: seq<string>, values: seq<Param>, i: nat)
    ensures fields == Assignments(Plan(body)) && values == PlanValues(body, Plan(body))
    ensures i == |Plan(body)| + 1
  {
    fields, values, i := [], [], 1;
    ghost var plan: seq<UpdateField> := [];
    if IsSet(body, Quantity) {
      AssignmentsAppend(plan, Quantity);
      PlanValuesAppend(body, plan, Quantity);
      fields := fields + [Render(ColumnTemplate(Quantity), i)];
      values := values + [CastToInt(body[Quantity].value)];
      i := i + 1;
      plan := plan + [Quantity];
    }
    assert fields == Assignments(plan) && values == PlanValues(body, plan) && i == |plan| + 1;
    if IsSet(body, Price) {
      AssignmentsAppend(plan, Price);
      PlanValuesAppend(body, plan, Price);
      fields := fields + [Render(ColumnTemplate(Price), i)];
      values := values + [CastToFloat(body[Price].value)];
      i := i + 1;
      plan := plan + [Price];
    }
    assert plan == Plan(body);
  }

  /** The assignments and values of each plan the handler can build. */
  lemma PlanCases(body: Body, id: int)
    requires IsSet(body, Quantity) || IsSet(body, Price)
    ensures IsSet(body, Quantity) && IsSet(body, Price) ==>
              && Assignments(Plan(body)) == [Render(ColumnTemplate(Quantity), 1), Render(ColumnTemplate(Price), 2)]
              && UpdateValues(body, id) == [CastToInt(body[Quantity].value), CastToFloat(body[Price].value), Int(id)]
    ensures IsSet(body, Quantity) && !IsSet(body, Price) ==>
              && Assignments(Plan(body)) == [Render(ColumnTemplate(Quantity), 1)]
              && UpdateValues(body, id) == [CastToInt(body[Quantity].value), Int(id)]
    ensures !IsSet(body, Quantity) && IsSet(body, Price) ==>
              && Assignments(Plan(body)) == [Render(ColumnTemplate(Price), 1)]
              && UpdateValues(body, id) == [CastToFloat(body[Price].value), Int(id)]
  {
  }

  /** The quantity is assigned before the price; an update that is prepared assigns at least one of them. */
  lemma PlanOrder(body: Body)
    ensures IsSet(body, Quantity) && IsSet(body, Price) ==> Plan(body) == [Quantity, Price]
    ensures IsSet(body, Quantity) || IsSet(body, Price) ==> 1 <= |Plan(body)|
    ensures |Plan(body)| == 2 ==> Plan(body) == [Quantity, Price]
  {
  }

  /** One more value than assignments; the id is last, and value k belongs to assignment k. */
  lemma ValuesMatchAssignments(body: Body, id: int)
    ensures |UpdateValues(body, id)| == |Assignments(Plan(body))| + 1
    ensures UpdateValues(body, id)[|Plan(body)|] == Int(id)
    ensures forall k :: 0 <= k < |Plan(body)| ==> UpdateValues(body, id)[k] == ValueOf(body, Plan(body)[k])
  {
  }

  lemma UpdateLiteralsSafe()
    ensures '$' !in "UPDATE cart_items SET " && '$' !in " WHERE id = "
    ensures SafeLit(", ") && SafeLit("quantity = ") && SafeLit("price = ")
  {
  }

  lemma ReturningSafe()
    ensures SafeLit(Returning)
  {
    assert '$' !in " RETURNING id, user_uid, ";
    assert '$' !in "product_id, img_url, ";
    assert '$' !in "quantity, price, added_at";
    NoDollarAppend(" RETURNING id, user_uid, ", "product_id, img_url, ");
    NoDollarAppend(" RETURNING id, user_uid, " + "product_id, img_url, ", "quantity, price, added_at");
  }

  lemma ColumnTemplateShape(f: UpdateField)
    ensures WellFormed(ColumnTemplate(f)) && Holes(ColumnTemplate(f)) == 1
  {
    UpdateLiteralsSafe();
    var t := ColumnTemplate(f);
    assert Holes(t[1..][1..]) == 0;
  }

  lemma Reassociate5(a: string, b: string, c: string, d: string, e: string)
    ensures a + b + c + d + e == a + (b + (c + (d + e)))
  {
  }

  /** The text after the SET list: the id's placeholder and the RETURNING list. */
  function UpdateTail(n: nat): string {
    " WHERE id = " + (Placeholder(n) + Returning)
  }

  /** The end of the statement refers to the id's placeholder only, and starts with no digit. */
  lemma UpdateTailRefs(n: nat)
    ensures Refs(UpdateTail(n)) == [n]
    ensures StartsWithoutDigit(UpdateTail(n))
  {
    UpdateLiteralsSafe();
    assert Refs(Placeholder(n) + Returning) == [n] by {
      ReturningSafe();
      RefsSkip(Returning, []);
      assert Returning + [] == Returning;
      RefsPlaceholder(n, Returning);
    }
    RefsSkip(" WHERE id = ", Placeholder(n) + Returning);
  }

  /** The statement text over any assignments rendered from one-hole templates numbered from 1. */
  lemma RefsOfUpdate(sets: seq<string>, ts: seq<Template>, n: nat)
    requires RenderedFrom(sets, ts, 1) && n == |ts| + 1
    requires forall k :: 0 <= k < |ts| ==> Holes(ts[k]) == 1
    ensures Refs(UpdateStatement(sets, n)) == seq(n, k => k + 1)
  {
    var setList := Implode(", ", sets);
    assert Refs(setList + UpdateTail(n)) == seq(n, k => k + 1) by {
      UpdateTailRefs(n);
      UpdateLiteralsSafe();
      RefsImplode(", ", sets, ts, 1, UpdateTail(n));
      ExpandSingles(ts, 1);
      CountUp(|ts|);
    }
    assert Refs("UPDATE cart_items SET " + (setList + UpdateTail(n))) == Refs(setList + UpdateTail(n)) by {
      UpdateLiteralsSafe();
      RefsSkip("UPDATE cart_items SET ", setList + UpdateTail(n));
    }
    Reassociate5("UPDATE cart_items SET ", setList, " WHERE id = ", Placeholder(n), Returning);
  }

  /**
   * The statement refers to $1 .. $n once each, in order, where n is the
   * number of bound values: the assignments take $1 .. $(n-1) and the id $n.
   */
  lemma UpdatePlaceholders(body: Body, id: int)
    ensures Refs(UpdateSql(Plan(body))) == seq(|UpdateValues(body, id)|, k => k + 1)
  {
    var plan := Plan(body);
    var ts := Templates(plan);
    forall k | 0 <= k < |ts| ensures WellFormed(ts[k]) && Holes(ts[k]) == 1 {
      ColumnTemplateShape(plan[k]);
    }
    NumberedRendered(ts, 1);
    RefsOfUpdate(Numbered(ts, 1), ts, |plan| + 1);
    assert |UpdateValues(body, id)| == |plan| + 1;
  }

  /** A projected column that PHP casts with `(int)`: a missing column or SQL NULL casts to 0. */
  function IntColumn(row: Rows.RawRow, key: string): int {
    if key in row && row[key].Some? then ToInt(row[key].value) else 0
  }

  /** A projected column passed through: a missing column reads as null. */
  function TextColumn(row: Rows.RawRow, key: string): Option<string> {
    if key in row then row[key] else None
  }

  /** The JSON shape of a cart item (lines 465-473); a set price is `(float)` of its text. */
  datatype CartItem = CartItem(
    id: int, userUid: Option<string>, productId: int, imgUrl: Option<string>,
    quantity: int, price: Option<Param>, addedAt: Option<string>)

  /**
   * Lines 465-473: the integer columns become 64-bit integers (0 when
   * missing), the price is `(float)` of its text when it is set, and the text
   * columns pass through.
   */
  function Project(row: Rows.RawRow): (r: CartItem)
    ensures IntMin <= r.id <= IntMax && IntMin <= r.productId <= IntMax && IntMin <= r.quantity <= IntMax
    ensures r.price.Some? <==> "price" in row && row["price"].Some?
    ensures r.price.Some? ==> r.price.value == CastToFloat(row["price"].value)
  {
    CartItem(
      IntColumn(row, "id"), TextColumn(row, "user_uid"), IntColumn(row, "product_id"),
      TextColumn(row, "img_url"), IntColumn(row, "quantity"),
      if "price" in row && row["price"].Some? then Some(CastToFloat(row["price"].value)) else None,
      TextColumn(row, "added_at"))
  }

  /** A returned row whose integer columns hold 64-bit numbers is projected with those numbers. */
  lemma ProjectRoundTrip(row: Rows.RawRow, id: int, productId: int, quantity: int)
    requires IntMin <= id <= IntMax && IntMin <= productId <= IntMax && IntMin <= quantity <= IntMax
    requires "id" in row && row["id"] == Some(IntToText(id))
    requires "product_id" in row && row["product_id"] == Some(IntToText(productId))
    requires "quantity" in row && row["quantity"] == Some(IntToText(quantity))
    ensures Project(row).id == id && Project(row).productId == productId && Project(row).quantity == quantity
  {
    IntTextRoundTrip(id);
    IntTextRoundTrip(productId);
    IntTextRoundTrip(quantity);
  }

  datatype Outcome =
    | BadRequest(error: string)
    | NotFound(error: string)
    | Updated(message: string, item: CartItem)
  {
    function Status(): nat {
      match this
      case BadRequest(_) => 400
      case NotFound(_) => 404
      case Updated(_, _) => 200
    }
  }

  /**
   * Lines 433-481 with the database as a parameter: `returned` is the row
   * the UPDATE gives back, if any, when `prepared` is run.
   */
  method UpdateCartItem(idArg: string, body: Body, returned: Option<Rows.RawRow>) returns (prepared: Prepared, outcome: Outcome)
    ensures prepared.NothingToUpdate? <==> outcome.BadRequest?
    ensures prepared.Update? ==> prepared == Update(UpdateSql(Plan(body)), UpdateValues(body, ToInt(idArg)))
    ensures outcome.Status() == 400 <==> !IsSet(body, Quantity) && !IsSet(body, Price)
    ensures outcome.Status() == 404 <==> (IsSet(body, Quantity) || IsSet(body, Price)) && returned.None?
    ensures outcome.Status() == 200 <==> (IsSet(body, Quantity) || IsSet(body, Price)) && returned.Some?
    ensures outcome.BadRequest? ==> outcome.error == "Nothing to update"
    ensures outcome.NotFound? ==> outcome.error == "Cart item not found or not updated"
    ensures outcome.Updated? ==> outcome == Updated("Cart item updated", Project(returned.value))
  {
    prepared := PrepareUpdate(idArg, body);
    if prepared.NothingToUpdate? {
      outcome := BadRequest("Nothing to update");
      return;
    }
    match returned
    case None =>
      outcome := NotFound("Cart item not found or not updated");
    case Some(row) =>
      outcome := Updated("Cart item updated", Project(row));
  }
}
