/**
 * Normalising a loosely typed row of the `cell` table into a `Product`.
 */
module Converters {
  import opened Catalogue
  import opened Strings

  /** A backend row: column name to value; a missing column is `undefined`. */
  type Row = map<string, Value>

  /** The columns the normaliser maps to named `Product` fields. */
  const MappedColumns: set<string> := {"id", "defect type", "#", "value", "date"}

  const UnknownId := "unknown-id"
  const UnknownDefect := "Unknown Defect"
  const RowPrefix := "Row #: "

  /** JavaScript truthiness of `row[column]`: present, not null, not `""`, not `0`. */
  predicate Truthy(row: Row, column: string) {
    column in row &&
    match row[column]
    case Null => false
    case Text(s) => s != ""
    case Number(n) => n != 0.0
  }

  /**
   * A value used where a string is expected; numbers are rendered by
   * `numberText`, which stands for JavaScript's number-to-string conversion.
   */
  function Shown(v: Value, numberText: real -> string): string {
    match v
    case Null => "null"
    case Text(s) => s
    case Number(n) => numberText(n)
  }

  /** The column's value as a string, or `fallback` when it is falsy. */
  function TextOr(row: Row, column: string, fallback: string, numberText: real -> string): (r: string)
    ensures Truthy(row, column) && row[column].Text? ==> r == row[column].text
    ensures Truthy(row, column) && row[column].Number? ==> r == numberText(row[column].number)
    ensures !Truthy(row, column) ==> r == fallback
  {
    if Truthy(row, column) then Shown(row[column], numberText) else fallback
  }

  /** The columns copied into `specifications`: every non-null column that is not mapped. */
  function Specifications(row: Row): map<string, Value> {
    map k | k in row && k !in MappedColumns && row[k] != Null :: row[k]
  }

  /**
   * The product `convertSupabaseCell` builds from `row`, where `now` is the
   * ISO timestamp the clock gave.
   */
  function CellProduct(row: Row, now: string, numberText: real -> string): (p: Product)
    ensures Truthy(row, "id") && row["id"].Text? ==> p.id == row["id"].text
    ensures Truthy(row, "id") && row["id"].Number? ==> p.id == numberText(row["id"].number)
    ensures !Truthy(row, "id") ==> p.id == UnknownId
    ensures Truthy(row, "defect type") && row["defect type"].Text? ==> p.name == row["defect type"].text
    ensures Truthy(row, "defect type") && row["defect type"].Number? ==> p.name == numberText(row["defect type"].number)
    ensures !Truthy(row, "defect type") ==> p.name == UnknownDefect
    ensures Truthy(row, "#") ==> p.category == RowPrefix + Shown(row["#"], numberText)
    ensures !Truthy(row, "#") ==> p.category == ""
    ensures Truthy(row, "date") && row["date"].Text? ==> p.location == row["date"].text
    ensures Truthy(row, "date") && row["date"].Number? ==> p.location == numberText(row["date"].number)
    ensures !Truthy(row, "date") ==> p.location == ""
    ensures p.status == InStock
    ensures Truthy(row, "value") && row["value"].Number? ==> p.quantity == row["value"].number
    ensures !(Truthy(row, "value") && row["value"].Number?) ==> p.quantity == 0.0
    ensures 'T' !in p.lastUpdated && p.lastUpdated <= now
    ensures |p.lastUpdated| < |now| ==> now[|p.lastUpdated|] == 'T'
    ensures forall k :: k in p.specifications ==> k !in MappedColumns
    ensures forall k :: k in p.specifications ==> k in row && row[k] != Null && p.specifications[k] == row[k]
    ensures forall k :: k in row && k !in MappedColumns && row[k] != Null ==> k in p.specifications
  {
    Product(
      TextOr(row, "id", UnknownId, numberText),
      TextOr(row, "defect type", UnknownDefect, numberText),
      if Truthy(row, "#") then RowPrefix + Shown(row["#"], numberText) else "",
      TextOr(row, "date", "", numberText),
      InStock,
      if Truthy(row, "value") && row["value"].Number? then row["value"].number else 0.0,
      FirstSegment(now, 'T'),
      Specifications(row))
  }

  /** With a number-to-string conversion that never yields `""`, the identifier is never empty. */
  lemma CellIdNeverEmpty(row: Row, now: string, numberText: real -> string)
    requires forall n :: numberText(n) != ""
    ensures CellProduct(row, now, numberText).id != ""
  {
  }

  /**
   * `convertSupabaseCell`: the `forEach` over the row's entries fills the
   * specifications one column at a time, then the record is assembled.
   */
  method ConvertCell(row: Row, now: string, numberText: real -> string) returns (p: Product)
    ensures p == CellProduct(row, now, numberText)
  {
    var specifications: map<string, Value> := map[];
    var remaining := row.Keys;
    while remaining != {}
      invariant remaining <= row.Keys
      invariant forall k :: k in specifications <==>
        k in row && k !in remaining && k !in MappedColumns && row[k] != Null
      invariant forall k :: k in specifications ==> specifications[k] == row[k]
      decreases remaining
    {
      var key :| key in remaining;
      var value := row[key];
      if key !in MappedColumns && value != Null {
        specifications := specifications[key := value];
      }
      remaining := remaining - {key};
    }
    assert specifications == Specifications(row);
    p := CellProduct(row, now, numberText).(specifications := specifications);
  }

}
