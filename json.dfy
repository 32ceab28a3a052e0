/**
 * Parsed JSON documents as the Python scripts see them after `json.load`, and the CSV
 * tables they write. An object keeps its keys in document order, which is the order of
 * `dict.keys()`. Numbers are the whole numbers of integer literals, of any size as
 * in Python; the scripts only copy them, divide them or pass them through `round(float(x), 3)`.
 */
module JsonModel {
  import opened Wrappers

  datatype Json =
    | Object(fields: seq<(string, Json)>)
    | Array(items: seq<Json>)
    | Number(n: int)
    | Text(s: string)
    | Bool(b: bool)
    | Null

  /**
   * 2^1024 - 2^970, half-way between the largest double and 2^1024: Python rounds a whole
   * number to the nearest double, ties to even, so from here on the result would be
   * infinite and `float(n)`, or a quotient `a / b` of whole numbers, raises `OverflowError`.
   */
  const FloatOverflow: int := 0xFFFF_FFFF_FFFF_FC00_0000_0000_0000_0000_0000_0000_0000_0000_0000_0000_0000_0000_0000_0000_0000_0000_0000_0000_0000_0000_0000_0000_0000_0000_0000_0000_0000_0000_0000_0000_0000_0000_0000_0000_0000_0000_0000_0000_0000_0000_0000_0000_0000_0000_0000_0000_0000_0000_0000_0000_0000_0000_0000_0000_0000_0000_0000_0000_0000_0000

  /** `float(n)` returns for a whole number `n`: its magnitude stays below `FloatOverflow`. */
  predicate FitsFloat(n: int) {
    -FloatOverflow < n < FloatOverflow
  }

  /** `j[k]`: the value under key `k`; `None` stands for the KeyError or TypeError raised. */
  function Get(j: Json, k: string): (r: Option<Json>)
    ensures r.Some? ==> j.Object? && exists i :: 0 <= i < |j.fields| && j.fields[i] == (k, r.value)
    ensures r.None? ==> !j.Object? || forall i :: 0 <= i < |j.fields| ==> j.fields[i].0 != k
  {
    match j
    case Object(fs) => Lookup(fs, k)
    case _ => None
  }

  function Lookup(fs: seq<(string, Json)>, k: string): (r: Option<Json>)
    ensures r.Some? ==> exists i :: 0 <= i < |fs| && fs[i] == (k, r.value)
    ensures r.None? ==> forall i :: 0 <= i < |fs| ==> fs[i].0 != k
  {
    if fs == [] then None
    else if fs[0].0 == k then Some(fs[0].1)
    else Lookup(fs[1..], k)
  }

  /** `j[p0][p1]...`: a chain of subscripts; any missing step raises. */
  function At(j: Json, path: seq<string>): Option<Json> {
    if path == [] then Some(j)
    else match Get(j, path[0])
      case None => None
      case Some(c) => At(c, path[1..])
  }

  /** `list(j.keys())`: the keys of an object in document order; `None` if `j` is no object. */
  function Keys(j: Json): (r: Option<seq<string>>)
    ensures r.Some? <==> j.Object?
    ensures r.Some? ==> |r.value| == |j.fields|
    ensures r.Some? ==> forall i :: 0 <= i < |j.fields| ==> r.value[i] == j.fields[i].0
  {
    match j
    case Object(fs) => Some(seq(|fs|, i requires 0 <= i < |fs| => fs[i].0))
    case _ => None
  }

  /**
   * A CSV cell: a text label (a model name), or the value written for a JSON value, either
   * copied or passed through `round(float(v), 3)`; the float is not computed, so the cell
   * keeps the value it was written from.
   */
  datatype Cell = Label(s: string) | Value(v: Json)

  /** A CSV file as the scripts write it: its name, a header row and data rows. */
  datatype Csv = Csv(name: string, header: seq<string>, rows: seq<seq<Cell>>)

  /** A metrics file found by a directory listing: its path and its parsed contents. */
  datatype JsonFile = JsonFile(path: string, doc: Json)

  function PathOf(f: JsonFile): string { f.path }

  /** Why a script stops: a file it opens is missing, or an exception outside a `try` (a failed lookup, an empty list). */
  datatype Failure = FileNotFound(path: string) | Raised
}
