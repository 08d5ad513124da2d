/**
 * Rows as `pg_fetch_assoc` returns them and the JSONB decoding applied to
 * product rows before they are sent (`parseJsonFields`,
 * slim-backend/public/index.php lines 34-39, and the fetch loops that call
 * it).
 *
 * A fetched row maps column names to text, or to PHP null for SQL NULL.
 * `json_decode` is not interpreted: `Json(source)` stands for whatever it
 * returns for `source`; only `json_decode('null')` is known to be null.
 */
module Rows {
  import opened Wrappers

  /** A row as fetched: every column is text or SQL NULL. */
  type RawRow = map<string, Option<string>>

  /** A cell of a row ready for `json_encode`. */
  datatype Value =
    | Null               // PHP null
    | Text(s: string)    // a column left as fetched
    | Json(source: string) // json_decode(source, true)

  type Row = map<string, Value>

  /** The four JSONB columns of `products`, in the order they are rewritten. */
  const JsonFields: seq<string> := ["tags", "dimensions", "meta", "images"]

  /** The same four columns as a set. */
  const JsonFieldSet: set<string> := {"tags", "dimensions", "meta", "images"}

  /** `json_decode(s, true)`: the literal `null` decodes to null; anything else is kept symbolic. */
  function Decode(s: string): (v: Value)
    ensures v.Null? <==> s == "null"
    ensures v.Text? == false
  {
    if s == "null" then Null else Json(s)
  }

  /** A fetched cell before any rewriting. */
  function Lift(c: Option<string>): Value {
    match c
    case Some(s) => Text(s)
    case None => Null
  }

  /** `$row[$field] ?? 'null'`: the stored text, or `'null'` for a missing key or SQL NULL. */
  function OrNull(row: Row, key: string): string {
    if key in row && row[key].Text? then row[key].s else "null"
  }

  function LiftRow(raw: RawRow): (row: Row)
    ensures row.Keys == raw.Keys
    ensures forall k :: k in raw ==> row[k] == Lift(raw[k])
  {
    map k | k in raw :: Lift(raw[k])
  }

  /** The assignment of one loop iteration. */
  function DecodeField(row: Row, field: string): (r: Row)
    ensures r.Keys == row.Keys + {field}
    ensures r[field] == Decode(OrNull(row, field))
    ensures forall k :: k in row && k != field ==> r[k] == row[k]
  {
    row[field := Decode(OrNull(row, field))]
  }

  /** The row after decoding `fields` one after the other. */
  function DecodeFields(row: Row, fields: seq<string>): Row
    decreases |fields|
  {
    if fields == [] then row
    else DecodeField(DecodeFields(row, fields[..|fields| - 1]), fields[|fields| - 1])
  }

  /** The row `parseJsonFields` leaves behind, as a function of the row it is given. */
  function Parsed(row: Row): (r: Row)
    ensures r.Keys == row.Keys + JsonFieldSet
  {
    DecodeFieldsKeys(row, JsonFields);
    JsonFieldsDistinct();
    DecodeFields(row, JsonFields)
  }

  /** Lines 34-39: decode each of the four JSONB columns in turn, in place. */
  method ParseJsonFields(row0: Row) returns (row: Row)
    ensures row == Parsed(row0)
  {
    row := row0;
    for j := 0 to |JsonFields|
      invariant row == DecodeFields(row0, JsonFields[..j])
    {
      assert JsonFields[..j + 1][..j] == JsonFields[..j];
      assert DecodeFields(row0, JsonFields[..j + 1]) == DecodeField(row, JsonFields[j]);
      row := DecodeField(row, JsonFields[j]);
    }
    assert JsonFields[..|JsonFields|] == JsonFields;
  }

  predicate Distinct(fields: seq<string>) {
    forall a, b :: 0 <= a < b < |fields| ==> fields[a] != fields[b]
  }

  /** Decoding adds exactly the decoded columns to the row. */
  lemma {:induction false} DecodeFieldsKeys(row: Row, fields: seq<string>)
    ensures DecodeFields(row, fields).Keys == row.Keys + (set f | f in fields)
    decreases |fields|
  {
    if fields != [] {
      var init := fields[..|fields| - 1];
      DecodeFieldsKeys(row, init);
      assert fields == init + [fields[|fields| - 1]];
      assert (set f | f in fields) == (set f | f in init) + {fields[|fields| - 1]};
    }
  }

  /** A column that is not decoded keeps its value. */
  lemma {:induction false} DecodeFieldsOthers(row: Row, fields: seq<string>, k: string)
    requires k in row && k !in fields
    ensures k in DecodeFields(row, fields) && DecodeFields(row, fields)[k] == row[k]
    decreases |fields|
  {
    if fields != [] {
      var init := fields[..|fields| - 1];
      assert fields == init + [fields[|fields| - 1]];
      DecodeFieldsOthers(row, init, k);
    }
  }

  /** When the columns are distinct, each decoded column holds the decoding of its original text. */
  lemma {:induction false} DecodeFieldsDecoded(row: Row, fields: seq<string>, k: string)
    requires Distinct(fields) && k in fields
    ensures k in DecodeFields(row, fields)
    ensures DecodeFields(row, fields)[k] == Decode(OrNull(row, k))
    decreases |fields|
  {
    var init := fields[..|fields| - 1];
    var last := fields[|fields| - 1];
    assert fields == init + [last];
    if k == last {
      assert k !in init by {
        forall a | 0 <= a < |init| ensures init[a] != last {
          assert fields[a] != fields[|fields| - 1];
        }
      }
      if k in row {
        DecodeFieldsOthers(row, init, k);
      } else {
        DecodeFieldsKeys(row, init);
      }
      assert OrNull(DecodeFields(row, init), k) == OrNull(row, k);
    } else {
      assert k in init;
      DecodeFieldsDecoded(row, init, k);
    }
  }

  lemma JsonFieldsDistinct()
    ensures Distinct(JsonFields)
    ensures (set f | f in JsonFields) == JsonFieldSet
  {
  }

  /** Only the four JSONB columns change; every other column keeps its value, and no column is lost. */
  lemma ParsedKeepsOthers(row: Row)
    ensures Parsed(row).Keys == row.Keys + {"tags", "dimensions", "meta", "images"}
    ensures forall k :: k in row && k !in JsonFieldSet ==> Parsed(row)[k] == row[k]
  {
    forall k | k in row && k !in JsonFieldSet
      ensures Parsed(row)[k] == row[k]
    {
      DecodeFieldsOthers(row, JsonFields, k);
    }
  }

  /** A JSONB column that is missing or SQL NULL comes out as null; one holding text comes out decoded. */
  lemma ParsedJsonColumn(row: Row, field: string)
    requires field in JsonFieldSet
    ensures field in Parsed(row)
    ensures field !in row || row[field].Null? ==> Parsed(row)[field] == Null
    ensures field in row && row[field].Text? ==> Parsed(row)[field] == Decode(row[field].s)
  {
    JsonFieldsDistinct();
    DecodeFieldsDecoded(row, JsonFields, field);
  }

  /** The fetch loops: every fetched row is decoded and collected, in the order fetched. */
  method ParseRows(fetched: seq<RawRow>) returns (rows: seq<Row>)
    ensures |rows| == |fetched|
    ensures forall k :: 0 <= k < |fetched| ==> rows[k] == Parsed(LiftRow(fetched[k]))
  {
    rows := [];
    var n := 0;
    while n < |fetched|
      invariant 0 <= n <= |fetched| && |rows| == n
      invariant forall k :: 0 <= k < n ==> rows[k] == Parsed(LiftRow(fetched[k]))
    {
      var row := ParseJsonFields(LiftRow(fetched[n]));
      rows := rows + [row];
      n := n + 1;
    }
  }
}
