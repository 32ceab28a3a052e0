/**
 * Dataset rows as the browser code receives them from `d3.csv`: each row is an object
 * whose properties are taken in the order of the CSV header. JavaScript would list
 * integer-like column names first and keep one property for a repeated name; the CSV
 * files here have neither. Values are kept as text; the grid shows them as they are.
 */
module Records {
  import opened Wrappers

  datatype Field = Field(key: string, value: string)

  type Record = seq<Field>

  const ModelNameKey := "model_name"

  /** `d3.keys(row)`: the property names in order. */
  function Keys(r: Record): (ks: seq<string>)
    ensures |ks| == |r|
    ensures forall i :: 0 <= i < |r| ==> ks[i] == r[i].key
  {
    seq(|r|, i requires 0 <= i < |r| => r[i].key)
  }

  function Values(r: Record): (vs: seq<string>)
    ensures |vs| == |r|
    ensures forall i :: 0 <= i < |r| ==> vs[i] == r[i].value
  {
    seq(|r|, i requires 0 <= i < |r| => r[i].value)
  }

  /** An object has each property once. */
  predicate DistinctKeys(r: Record) {
    forall i, j :: 0 <= i < j < |r| ==> r[i].key != r[j].key
  }

  /** `row[k]`, which is `undefined` when the row has no such property. */
  function Lookup(r: Record, k: string): (v: Option<string>)
    ensures v.Some? ==> exists i :: 0 <= i < |r| && r[i] == Field(k, v.value)
    ensures v.None? <==> k !in Keys(r)
  {
    if r == [] then None
    else if r[0].key == k then Some(r[0].value)
    else
      assert Keys(r) == [r[0].key] + Keys(r[1..]);
      Lookup(r[1..], k)
  }

  /** On an object, the lookup of its i-th property finds the i-th value. */
  lemma {:induction false} LookupAt(r: Record, i: nat)
    requires DistinctKeys(r) && i < |r|
    ensures Lookup(r, r[i].key) == Some(r[i].value)
  {
    if i > 0 {
      LookupAt(r[1..], i - 1);
    }
  }

  /** `d3.keys(data[0])`; with no rows, `data[0]` is `undefined` and has no keys. */
  function FirstRowKeys(data: seq<Record>): (ks: seq<string>)
    ensures data == [] ==> ks == []
    ensures data != [] ==> ks == Keys(data[0])
  {
    if data == [] then [] else Keys(data[0])
  }

  /** The text a DOM node shows for a value: `undefined` and `null` show as nothing. */
  function CellText(v: Option<string>): string {
    v.GetOr("")
  }

  /** A value spliced into a string with `+`: `undefined` becomes the word "undefined". */
  function Concatenated(v: Option<string>): string {
    v.GetOr("undefined")
  }

  /** The row's `model_name`, as used in CSS class names and selectors. */
  function ModelName(r: Record): string {
    Concatenated(Lookup(r, ModelNameKey))
  }

  /** `columns.map(col => d[col])`, shown as cell text: one cell per column, in column order. */
  function Project(r: Record, columns: seq<string>): (cells: seq<string>)
    ensures |cells| == |columns|
    ensures forall i :: 0 <= i < |columns| ==> cells[i] == CellText(Lookup(r, columns[i]))
  {
    seq(|columns|, i requires 0 <= i < |columns| => CellText(Lookup(r, columns[i])))
  }

  /** With the default columns (the row's own keys), a row's cells are exactly its values. */
  lemma ProjectOwnKeys(r: Record)
    requires DistinctKeys(r)
    ensures Project(r, Keys(r)) == Values(r)
  {
    forall i | 0 <= i < |r| ensures Project(r, Keys(r))[i] == Values(r)[i] {
      LookupAt(r, i);
    }
  }
}
