/**
 * The table under the parallel-coordinates chart of `pcmdi_parcoords.js`. A click on a row
 * adds its data row to the list `selectedModels`, or removes it when it is already there,
 * passes the list to the chart (`highlight`, or `unhighlight` once the list is empty) and
 * flips the row's `row_highlight` class. A brush on the chart redraws the table from the
 * first ten brushed rows; the rows it appends keep divgrid's own click listener.
 */
module ParcoordsTable {
  import opened Seqs

  /** A data row, compared by identity as JavaScript compares objects. */
  type RowId = nat

  const BrushedRowCap := 10

  /** The last call the table made on the chart. */
  datatype ChartCall =
    | NoCall
    | Highlight(rows: seq<RowId>)
    | Unhighlight(args: seq<RowId>)

  /** The click's list update: push an absent row, filter out every occurrence of a present one. */
  function ToggleSelected(s: seq<RowId>, d: RowId): (r: seq<RowId>)
    ensures d in s ==> d !in r
    ensures d !in s ==> r == s + [d]
    ensures forall x :: x != d ==> (x in r <==> x in s)
  {
    if d in s then Without(s, d) else s + [d]
  }

  /** The chart call after a click: `unhighlight()` for an empty list, else `highlight(list)`. */
  function CallAfterClick(selected: seq<RowId>): (c: ChartCall)
    ensures selected == [] <==> c == Unhighlight([])
    ensures selected != [] <==> c == Highlight(selected)
  {
    if |selected| == 0 then Unhighlight([]) else Highlight(selected)
  }

  /** `d.slice(0, 10)`: the rows the table shows after a brush. */
  function BrushedRows(brushed: seq<RowId>): (r: seq<RowId>)
    ensures |r| <= BrushedRowCap
    ensures r <= brushed
    ensures |brushed| <= BrushedRowCap ==> r == brushed
  {
    if |brushed| <= BrushedRowCap then brushed else brushed[..BrushedRowCap]
  }

  /** A row enters the list only when absent, so the list never holds a row twice. */
  lemma ToggleKeepsNoDuplicates(s: seq<RowId>, d: RowId)
    requires NoDuplicates(s)
    ensures NoDuplicates(ToggleSelected(s, d))
  {
    if d in s {
      WithoutKeepsNoDuplicates(s, d);
    }
  }

  /** Clicking a row twice restores which rows are selected; from an unselected row, the very list. */
  lemma ToggleTwice(s: seq<RowId>, d: RowId)
    ensures forall x :: x in ToggleSelected(ToggleSelected(s, d), d) <==> x in s
    ensures d !in s ==> ToggleSelected(ToggleSelected(s, d), d) == s
  {
    if d !in s {
      WithoutAppend(s, [d], d);
      WithoutAbsent(s, d);
    }
  }

  /**
   * The click listener a row element carries. The rows of the first drawing get divgrid's
   * `rowClicked`, which the table then replaces with its own click handler (d3 keeps one
   * listener per event name) and to which it adds its double-click handler. Rows a brush
   * redraw appends are entered by divgrid alone and keep `rowClicked`.
   */
  datatype ClickListener = TableClick | GridRowClicked

  /**
   * A row element of the table: the data row bound to it, its `row_highlight` class (the
   * table's click flips it), its `highlight` class (divgrid's `rowClicked` flips it) and
   * its click listener.
   */
  datatype RowElement = RowElement(datum: RowId, rowHighlight: bool, highlight: bool, listener: ClickListener)

  function Data(es: seq<RowElement>): (ds: seq<RowId>)
    ensures |ds| == |es| && forall k :: 0 <= k < |es| ==> ds[k] == es[k].datum
  {
    seq(|es|, k requires 0 <= k < |es| => es[k].datum)
  }

  /**
   * Each element carries the table's listener, has no `highlight` class, and shows
   * `row_highlight` exactly when its row is selected.
   */
  ghost predicate Synced(selected: seq<RowId>, es: seq<RowElement>) {
    forall k :: 0 <= k < |es| ==>
      es[k].listener == TableClick && !es[k].highlight && (es[k].rowHighlight <==> es[k].datum in selected)
  }

  /**
   * The rows after a brush redraw over `shown`, joined by index: a kept element is re-bound
   * to its new row and keeps its classes and its listener, an appended one has no class and
   * only divgrid's `rowClicked`; elements past `|shown|` are removed.
   */
  function Redrawn(es: seq<RowElement>, shown: seq<RowId>): (r: seq<RowElement>)
    ensures |r| == |shown| && Data(r) == shown
    ensures forall k :: 0 <= k < |r| && k < |es| ==>
      r[k].rowHighlight == es[k].rowHighlight && r[k].highlight == es[k].highlight && r[k].listener == es[k].listener
    ensures forall k :: |es| <= k < |r| ==> !r[k].rowHighlight && !r[k].highlight && r[k].listener == GridRowClicked
  {
    seq(|shown|, k requires 0 <= k < |shown| =>
      if k < |es| then es[k].(datum := shown[k]) else RowElement(shown[k], false, false, GridRowClicked))
  }

  /**
   * A brush keeps the classes of the elements it re-binds: a highlighted first row stays
   * highlighted when another row, which is not selected, takes its place.
   */
  lemma BrushLeavesStaleHighlight(es: seq<RowElement>, selected: seq<RowId>, shown: seq<RowId>)
    requires Synced(selected, es) && es != [] && es[0].datum in selected
    requires shown != [] && shown[0] !in selected
    ensures Redrawn(es, shown)[0].rowHighlight && Redrawn(es, shown)[0].datum !in selected
  {
  }

  class Table {
    var selectedModels: seq<RowId>
    var lastCall: ChartCall
    var elements: seq<RowElement>
    /** Whether no brush has redrawn the table yet. */
    ghost var firstDrawing: bool

    /**
     * The list holds each row once and the rows on screen are distinct; until the first
     * brush, every element carries the table's listener and shows `row_highlight` exactly
     * when its row is selected.
     */
    ghost predicate Valid()
      reads this
    {
      NoDuplicates(selectedModels) && NoDuplicates(Data(elements)) &&
      (firstDrawing ==> Synced(selectedModels, elements))
    }

    /** The table is drawn over every row of `data`, none highlighted, none selected. */
    constructor (data: seq<RowId>)
      requires NoDuplicates(data)
      ensures Valid() && firstDrawing && selectedModels == [] && lastCall == NoCall
      ensures Data(elements) == data
      ensures forall k :: 0 <= k < |elements| ==> !elements[k].rowHighlight && elements[k].listener == TableClick
    {
      selectedModels, lastCall := [], NoCall;
      elements := seq(|data|, k requires 0 <= k < |data| => RowElement(data[k], false, false, TableClick));
      firstDrawing := true;
    }

    /** The table's click on row element `i`: toggle its row in the list, tell the chart, flip the class. */
    method Click(i: nat)
      requires Valid() && i < |elements| && elements[i].listener == TableClick
      modifies this`selectedModels, this`lastCall, this`elements
      ensures Valid()
      ensures selectedModels == ToggleSelected(old(selectedModels), old(elements)[i].datum)
      ensures lastCall == CallAfterClick(selectedModels)
      ensures elements == old(elements)[i := old(elements)[i].(rowHighlight := !old(elements)[i].rowHighlight)]
    {
      var d := elements[i].datum;
      if d in selectedModels {
        selectedModels := Without(selectedModels, d);
      } else {
        selectedModels := selectedModels + [d];
      }
      ToggleKeepsNoDuplicates(old(selectedModels), d);
      if |selectedModels| == 0 {
        lastCall := Unhighlight([]);
      } else {
        lastCall := Highlight(selectedModels);
      }
      elements := elements[i := elements[i].(rowHighlight := !elements[i].rowHighlight)];
      assert Data(elements) == Data(old(elements));
      if firstDrawing {
        forall k | 0 <= k < |elements|
          ensures elements[k].listener == TableClick && !elements[k].highlight
          ensures elements[k].rowHighlight <==> elements[k].datum in selectedModels
        {
          if k != i {
            assert Data(old(elements))[k] != Data(old(elements))[i];
          }
        }
      }
    }

    /**
     * divgrid's `rowClicked` on row element `i`, which a brush appended: its `highlight` class
     * flips; the list and the chart are left alone.
     */
    method GridClick(i: nat)
      requires Valid() && i < |elements| && elements[i].listener == GridRowClicked
      modifies this`elements
      ensures Valid() && !firstDrawing
      ensures elements == old(elements)[i := old(elements)[i].(highlight := !old(elements)[i].highlight)]
    {
      elements := elements[i := elements[i].(highlight := !elements[i].highlight)];
      assert Data(elements) == Data(old(elements));
    }

    /** A double click on row element `i`: `unhighlight([d])`, the list untouched. */
    method DoubleClick(i: nat)
      requires Valid() && i < |elements| && elements[i].listener == TableClick
      modifies this`lastCall
      ensures Valid() && lastCall == Unhighlight([elements[i].datum])
    {
      lastCall := Unhighlight([elements[i].datum]);
    }

    /**
     * A brush selecting `brushed`: the table is redrawn over at most its first ten rows.
     * The listener then asks `.on` for a listener by an object instead of attaching one,
     * which d3 answers from the first row element; with no row left there is none and
     * the listener throws, after the redraw.
     */
    method Brush(brushed: seq<RowId>) returns (threw: bool)
      requires Valid() && NoDuplicates(brushed)
      modifies this`elements, this`firstDrawing
      ensures Valid() && !firstDrawing
      ensures elements == Redrawn(old(elements), BrushedRows(brushed))
      ensures threw <==> brushed == []
    {
      var shown := BrushedRows(brushed);
      elements := Redrawn(elements, shown);
      firstDrawing := false;
      threw := |elements| == 0;
    }
  }
}
