/**
 * The plain grid widget (the root `divgrid.js`): a table of rows whose only state is a
 * `highlight` class per row element, flipped by a click and cleared by `reset`, and the
 * widget's column list. Rows are joined to data by index, as d3 does without a key
 * function: a redraw keeps the elements (and their classes) of the rows that remain and
 * creates plain elements for the new ones.
 */
module PlainGrid {
  import opened Records

  /** A row element: its class attribute as first drawn, and its `highlight` class. */
  datatype RowElement = RowElement(classes: string, highlight: bool)

  /** The drawn table: header cells, and for every row element its class and its cell texts. */
  datatype GridView = GridView(header: seq<string>, rowClasses: seq<string>, cells: seq<seq<string>>)

  function EnteredRow(r: Record): (e: RowElement)
    ensures !e.highlight && e.classes == "row " + ModelName(r)
  {
    RowElement("row " + ModelName(r), false)
  }

  class Grid {
    var columns: seq<string>
    var data: seq<Record>
    var elements: seq<RowElement>

    ghost predicate Valid()
      reads this
    {
      |elements| == |data|
    }

    /** `d3.divgrid()`: no columns and no rows yet. */
    constructor ()
      ensures Valid() && columns == [] && data == [] && elements == []
    {
      columns, data, elements := [], [], [];
    }

    /** `rowClicked`: flip `highlight` on the clicked row only. */
    method RowClicked(i: nat)
      requires Valid() && i < |elements|
      modifies this`elements
      ensures Valid()
      ensures |elements| == |old(elements)|
      ensures elements[i] == old(elements)[i].(highlight := !old(elements)[i].highlight)
      ensures forall k :: 0 <= k < |elements| && k != i ==> elements[k] == old(elements)[k]
    {
      elements := elements[i := elements[i].(highlight := !elements[i].highlight)];
    }

    /** `reset`: every row loses `highlight`; nothing else changes. */
    method Reset()
      requires Valid()
      modifies this`elements
      ensures Valid()
      ensures |elements| == |old(elements)|
      ensures forall k :: 0 <= k < |elements| ==> elements[k] == old(elements)[k].(highlight := false)
    {
      var i := 0;
      while i < |elements|
        invariant 0 <= i <= |elements| == |old(elements)|
        invariant forall k :: 0 <= k < i ==> elements[k] == old(elements)[k].(highlight := false)
        invariant forall k :: i <= k < |elements| ==> elements[k] == old(elements)[k]
      {
        elements := elements[i := elements[i].(highlight := false)];
        i := i + 1;
      }
    }

    /** `dg.columns()`. */
    function GetColumns(): seq<string>
      reads this
    {
      columns
    }

    /** `dg.columns(c)`: later reads give back `c`. */
    method SetColumns(c: seq<string>)
      modifies this`columns
      ensures GetColumns() == c
    {
      columns := c;
    }

    /**
     * Drawing the grid over `rows`: with no columns chosen, take the first row's keys; the
     * header shows the columns unchanged; each row shows its values in column order.
     */
    method Render(rows: seq<Record>) returns (view: GridView)
      requires Valid()
      modifies this
      ensures Valid() && data == rows
      ensures old(columns) == [] ==> columns == FirstRowKeys(rows)
      ensures old(columns) != [] ==> columns == old(columns)
      ensures view.header == columns
      ensures forall k :: 0 <= k < |rows| ==>
        elements[k] == if k < |old(elements)| then old(elements)[k] else EnteredRow(rows[k])
      ensures |view.rowClasses| == |view.cells| == |rows|
      ensures forall k :: 0 <= k < |rows| ==>
        view.rowClasses[k] == elements[k].classes && view.cells[k] == Project(rows[k], columns)
    {
      if |columns| == 0 {
        columns := FirstRowKeys(rows);
      }
      var kept := if |rows| < |elements| then |rows| else |elements|;
      var drawn := elements[..kept];
      var classes := [];
      var cells := [];
      for k := 0 to |rows|
        invariant |drawn| == if k < kept then kept else k
        invariant forall j :: 0 <= j < |drawn| ==>
          drawn[j] == if j < |elements| then elements[j] else EnteredRow(rows[j])
        invariant |classes| == |cells| == k
        invariant forall j :: 0 <= j < k ==> classes[j] == drawn[j].classes && cells[j] == Project(rows[j], columns)
      {
        if k >= kept {
          drawn := drawn + [EnteredRow(rows[k])];
        }
        classes := classes + [drawn[k].classes];
        cells := cells + [Project(rows[k], columns)];
      }
      elements := drawn;
      data := rows;
      view := GridView(columns, classes, cells);
    }
  }
}
