/**
 * The data rows the mean-climate scripts write: for each name, the name followed by its
 * value in every header season, each passed through `round(float(...), 3)`; a row whose
 * building raises is left out and the loop goes on with the next name.
 */
module CsvRows {
  import opened Wrappers
  import opened JsonModel
  import FloatText

  /**
   * `float(v)` returns: a number within double range, a boolean (`float(True)` is `1.0`) or
   * text that `float()` parses; a larger number raises `OverflowError`, `None`, a list or an
   * object `TypeError`, other text `ValueError`.
   */
  predicate Floatable(v: Json) {
    (v.Number? && FitsFloat(v.n)) || v.Bool? || (v.Text? && FloatText.IsFloatText(v.s))
  }

  /** A number is written up to the overflow bound, and from there on its row is skipped. */
  lemma OverflowBound()
    ensures Floatable(Number(FloatOverflow - 1)) && Floatable(Number(-FloatOverflow + 1))
    ensures !Floatable(Number(FloatOverflow)) && !Floatable(Number(-FloatOverflow))
  {
  }

  /**
   * `[round(float(data[season]), 3) for season in seasons]`: every season must hold a value
   * `float()` takes; a missing season or another value raises.
   */
  function SeasonValues(data: Json, seasons: seq<string>): (r: Option<seq<Cell>>)
    ensures r.Some? <==> forall k :: 0 <= k < |seasons| ==> Get(data, seasons[k]).Some? && Floatable(Get(data, seasons[k]).value)
    ensures r.Some? ==> |r.value| == |seasons|
    ensures r.Some? ==> forall k :: 0 <= k < |seasons| ==> r.value[k] == Value(Get(data, seasons[k]).value)
  {
    if seasons == [] then Some([])
    else match Get(data, seasons[0])
      case Some(v) =>
        if !Floatable(v) then None
        else
          (match SeasonValues(data, seasons[1..])
           case Some(rest) => Some([Value(v)] + rest)
           case None => None)
      case None => None
  }

  /** The row of `name`: the name, then its values in season order; `None` when building it raises. */
  function SeasonRow(name: string, output: map<string, Json>, seasons: seq<string>): (r: Option<seq<Cell>>)
    ensures r.Some? <==> name in output && SeasonValues(output[name], seasons).Some?
    ensures r.Some? ==> r.value == [Label(name)] + SeasonValues(output[name], seasons).value
  {
    if name !in output then None
    else match SeasonValues(output[name], seasons)
      case Some(values) => Some([Label(name)] + values)
      case None => None
  }

  /** The rows written for `names`, in their order, leaving out those that raise. */
  function RowsFor(names: seq<string>, output: map<string, Json>, seasons: seq<string>): (rows: seq<seq<Cell>>)
    ensures |rows| <= |names|

  {
    if names == [] then []
    else
      var prior := RowsFor(names[..|names| - 1], output, seasons);
      var last := names[|names| - 1];
      match SeasonRow(last, output, seasons)
      case Some(row) => prior + [row]
      case None => prior
  }

  /** Every written row is one of the names followed by one value per header season. */
  lemma {:induction false} RowsForShape(names: seq<string>, output: map<string, Json>, seasons: seq<string>)
    ensures forall row: seq<Cell> :: row in RowsFor(names, output, seasons) ==>
      |row| == |seasons| + 1 && row[0].Label? && row[0].s in names
  {
    if names != [] {
      var prefix := names[..|names| - 1];
      RowsForShape(prefix, output, seasons);
      assert forall n :: n in prefix ==> n in names;
    }
  }

  /** Rows for consecutive name lists are the rows of each list, one after the other. */
  lemma {:induction false} RowsForAppend(a: seq<string>, b: seq<string>, output: map<string, Json>, seasons: seq<string>)
    ensures RowsFor(a + b, output, seasons) == RowsFor(a, output, seasons) + RowsFor(b, output, seasons)
  {
    if b == [] {
      assert a + b == a;
    } else {
      var n := |b| - 1;
      assert (a + b)[..|a + b| - 1] == a + b[..n];
      RowsForAppend(a, b[..n], output, seasons);
    }
  }

  /** A name whose row raises changes nothing: the rows around it are still written. */
  lemma SkipsFailedRow(a: seq<string>, name: string, b: seq<string>, output: map<string, Json>, seasons: seq<string>)
    requires SeasonRow(name, output, seasons).None?
    ensures RowsFor(a + [name] + b, output, seasons) == RowsFor(a + b, output, seasons)
  {
    RowsForAppend(a + [name], b, output, seasons);
    RowsForAppend(a, [name], output, seasons);
    RowsForAppend(a, b, output, seasons);
    assert [name][..0] == [];
  }

  lemma RowsForLast(names: seq<string>, output: map<string, Json>, seasons: seq<string>)
    requires names != [] && SeasonRow(names[|names| - 1], output, seasons).Some?
    ensures RowsFor(names, output, seasons) == RowsFor(names[..|names| - 1], output, seasons) + [SeasonRow(names[|names| - 1], output, seasons).value]
  {
  }

  /** When no row raises, there is one row per name, in the names' order. */
  lemma {:induction false} RowsForComplete(names: seq<string>, output: map<string, Json>, seasons: seq<string>)
    requires forall i :: 0 <= i < |names| ==> SeasonRow(names[i], output, seasons).Some?
    ensures |RowsFor(names, output, seasons)| == |names|
    ensures forall i :: 0 <= i < |names| ==> RowsFor(names, output, seasons)[i] == SeasonRow(names[i], output, seasons).value
  {
    if names != [] {
      var n := |names| - 1;
      var prefix := names[..n];
      forall i | 0 <= i < n
        ensures SeasonRow(prefix[i], output, seasons).Some?
      {
        assert prefix[i] == names[i];
      }
      RowsForComplete(prefix, output, seasons);
      RowsForLast(names, output, seasons);
    }
  }

  /** The writing loop: `writerow` for each name, a row that raises being skipped. */
  method WriteRows(names: seq<string>, output: map<string, Json>, seasons: seq<string>) returns (rows: seq<seq<Cell>>)
    ensures rows == RowsFor(names, output, seasons)
  {
    rows := [];
    for i := 0 to |names|
      invariant rows == RowsFor(names[..i], output, seasons)
    {
      assert names[..i + 1][..i] == names[..i];
      var row := SeasonRow(names[i], output, seasons);
      if row.Some? {
        rows := rows + [row.value];
      }
    }
    assert names[..|names|] == names;
  }
}
