/**
 * The highlight state shared by the data table (the grid widget) and the parallel
 * coordinates chart. Every model name has one table row, carrying the class
 * `row_highlight` and inline background and text colours, and one coordinate path,
 * carrying either `path_highlight` or `path_regular`. Clicking a row or a plotted symbol
 * flips both; "select all" and "deselect all" drive every model to a fixed end state;
 * hovering tints unhighlighted rows only.
 */
module HighlightGrid {
  import opened Records

  const HighlightTextColor := "#deffffff"
  const RegularTextColor := "#4a4a4a"
  const HoverTint := "#9e9e9e"

  /** The classes `path_highlight` and `path_regular` of one coordinate path. */
  datatype PathState = PathState(highlight: bool, regular: bool)

  /** One table row: its `row_highlight` class and its inline colours ("" when not set). */
  datatype RowState = RowState(highlight: bool, background: string, color: string)

  /** Everything drawn for one model. */
  datatype Surfaces = Surfaces(row: RowState, path: PathState)

  /** What the page shows, by model name. */
  type Page = map<string, Surfaces>

  /** The ordinal scale mapping a model name to its colour. */
  type ColorScale = string -> string

  /** A path is drawn as "path_regular coordinate_path <name>"; a new row has no class and no style. */
  function Initial(): (e: Surfaces)
    ensures !e.path.highlight && e.path.regular
    ensures !e.row.highlight && e.row.background == "" && e.row.color == ""
  {
    Surfaces(RowState(false, "", ""), PathState(false, true))
  }

  /** A path shows exactly one of its two classes. */
  predicate OneClass(p: PathState) {
    p.highlight != p.regular
  }

  /** `togglePathHighlight`: the path ends with exactly one class, the highlight flipped. */
  function TogglePath(p: PathState): (q: PathState)
    ensures q.highlight == !p.highlight
    ensures OneClass(q)
  {
    if p.highlight then PathState(false, true) else PathState(true, false)
  }

  /** A highlighted row is filled with the model's colour and light text. */
  predicate Styled(r: RowState, color: string) {
    r.highlight ==> r.background == color && r.color == HighlightTextColor
  }

  /** The row half of a click: flip `row_highlight`, then restyle from the new value. */
  function FlipRow(r: RowState, color: string): (s: RowState)
    ensures s.highlight == !r.highlight
    ensures s.highlight ==> s.background == color && s.color == HighlightTextColor
    ensures !s.highlight ==> s.background == "none" && s.color == RegularTextColor
  {
    var on := !r.highlight;
    if on then RowState(on, color, HighlightTextColor) else RowState(on, "none", RegularTextColor)
  }

  /** A click on a model's row or symbol: path toggled, row flipped. */
  function Click(e: Surfaces, color: string): (f: Surfaces)
    ensures f.row.highlight == !e.row.highlight && f.path.highlight == !e.path.highlight
    ensures OneClass(f.path) && Styled(f.row, color)
  {
    Surfaces(FlipRow(e.row, color), TogglePath(e.path))
  }

  /** Mouse over a row: tint it grey unless it is highlighted. */
  function HoverIn(r: RowState): (s: RowState)
    ensures s.highlight == r.highlight
    ensures r.highlight ==> s == r
    ensures !r.highlight ==> s.background == HoverTint && s.color == r.color
  {
    if r.highlight then r else r.(background := HoverTint)
  }

  /** Mouse out of a row: clear the tint unless it is highlighted. */
  function HoverOut(r: RowState): (s: RowState)
    ensures s.highlight == r.highlight
    ensures r.highlight ==> s == r
    ensures !r.highlight ==> s.background == "transparent" && s.color == RegularTextColor
  {
    if r.highlight then r else r.(background := "transparent", color := RegularTextColor)
  }

  /** "Select all": every row without `row_highlight` is clicked; the others are untouched. */
  function SelectAllEntry(e: Surfaces, color: string): (f: Surfaces)
    ensures f.row.highlight
    ensures e.row.highlight ==> f == e
  {
    if e.row.highlight then e else Click(e, color)
  }

  /** The first pass of "deselect all" on one model: click it if its row is highlighted. */
  function ClickedIfOn(e: Surfaces, color: string): (f: Surfaces)
    ensures !f.row.highlight
  {
    if e.row.highlight then Click(e, color) else e
  }

  /** The second pass of "deselect all" on one model: toggle its path if still highlighted. */
  function PathOff(e: Surfaces): (f: Surfaces)
    ensures !f.path.highlight && f.row == e.row
  {
    if e.path.highlight then e.(path := TogglePath(e.path)) else e
  }

  function ClickModel(m: Page, cs: ColorScale, name: string): (m': Page)
    requires name in m
    ensures m'.Keys == m.Keys
  {
    m[name := Click(m[name], cs(name))]
  }

  function SelectAllPage(m: Page, cs: ColorScale): (m': Page)
    ensures m'.Keys == m.Keys
  {
    map n | n in m :: SelectAllEntry(m[n], cs(n))
  }

  function ClickHighlightedPage(m: Page, cs: ColorScale): (m': Page)
    ensures m'.Keys == m.Keys
  {
    map n | n in m :: ClickedIfOn(m[n], cs(n))
  }

  function ClearPathsPage(m: Page): (m': Page)
    ensures m'.Keys == m.Keys
  {
    map n | n in m :: PathOff(m[n])
  }

  function DeselectAllPage(m: Page, cs: ColorScale): (m': Page)
    ensures m'.Keys == m.Keys
  {
    ClearPathsPage(ClickHighlightedPage(m, cs))
  }

  /** The selection the page shows: the models whose row is highlighted. */
  function Selection(m: Page): set<string> {
    set n | n in m && m[n].row.highlight
  }

  /** The models whose path is highlighted. */
  function HighlightedPaths(m: Page): set<string> {
    set n | n in m && m[n].path.highlight
  }

  /** Row and path of every model agree. */
  predicate Synced(m: Page) {
    forall n :: n in m ==> m[n].row.highlight == m[n].path.highlight
  }

  /** Row and path agree, every path has one class, every highlighted row has its colours. */
  predicate Consistent(m: Page, cs: ColorScale) {
    forall n :: n in m ==>
      m[n].row.highlight == m[n].path.highlight && OneClass(m[n].path) && Styled(m[n].row, cs(n))
  }

  /** The pointer events the page reacts to. */
  datatype Event =
    | RowClick(name: string)
    | SymbolClick(name: string)
    | SelectAllClick
    | DeselectAllClick
    | RowMouseOver(name: string)
    | RowMouseOut(name: string)

  /** Events come from elements drawn for a model on the page. */
  predicate OnPage(m: Page, ev: Event) {
    (ev.RowClick? || ev.SymbolClick? || ev.RowMouseOver? || ev.RowMouseOut?) ==> ev.name in m
  }

  function Step(m: Page, cs: ColorScale, ev: Event): (m': Page)
    requires OnPage(m, ev)
    ensures m'.Keys == m.Keys
  {
    match ev
    case RowClick(n) => ClickModel(m, cs, n)
    case SymbolClick(n) => ClickModel(m, cs, n)
    case SelectAllClick => SelectAllPage(m, cs)
    case DeselectAllClick => DeselectAllPage(m, cs)
    case RowMouseOver(n) => m[n := m[n].(row := HoverIn(m[n].row))]
    case RowMouseOut(n) => m[n := m[n].(row := HoverOut(m[n].row))]
  }

  function Run(m: Page, cs: ColorScale, evs: seq<Event>): (m': Page)
    requires forall i :: 0 <= i < |evs| ==> OnPage(m, evs[i])
    ensures m'.Keys == m.Keys
  {
    if evs == [] then m
    else
      var next := Step(m, cs, evs[0]);
      assert forall i :: 1 <= i < |evs| ==> OnPage(next, evs[i]) by {
        forall i | 1 <= i < |evs| ensures OnPage(next, evs[i]) {
          assert OnPage(m, evs[i]);
        }
      }
      Run(next, cs, evs[1..])
  }

  /** A page freshly drawn is consistent: nothing is highlighted yet. */
  lemma InitialConsistent(names: set<string>, cs: ColorScale)
    ensures Consistent(map n | n in names :: Initial(), cs)
    ensures Selection(map n | n in names :: Initial()) == {}
  {
  }

  /** Every event keeps row, path and colours of every model in agreement. */
  lemma StepConsistent(m: Page, cs: ColorScale, ev: Event)
    requires OnPage(m, ev) && Consistent(m, cs)
    ensures Consistent(Step(m, cs, ev), cs)
  {
    var m' := Step(m, cs, ev);
    forall n | n in m'
      ensures m'[n].row.highlight == m'[n].path.highlight && OneClass(m'[n].path) && Styled(m'[n].row, cs(n))
    {
      match ev
      case RowClick(k) =>
      case SymbolClick(k) =>
      case SelectAllClick =>
      case DeselectAllClick =>
      case RowMouseOver(k) =>
      case RowMouseOut(k) =>
    }
  }

  /** No sequence of clicks, button presses and hovers lets the table and the chart drift apart. */
  lemma {:induction false} RunConsistent(m: Page, cs: ColorScale, evs: seq<Event>)
    requires forall i :: 0 <= i < |evs| ==> OnPage(m, evs[i])
    requires Consistent(m, cs)
    ensures Consistent(Run(m, cs, evs), cs)
    ensures Synced(Run(m, cs, evs))
    ensures Selection(Run(m, cs, evs)) == HighlightedPaths(Run(m, cs, evs))
  {
    if evs != [] {
      var next := Step(m, cs, evs[0]);
      StepConsistent(m, cs, evs[0]);
      assert forall i :: 1 <= i < |evs| ==> OnPage(next, evs[i]);
      RunConsistent(next, cs, evs[1..]);
    }
  }

  /** A click toggles the clicked model's membership in the selection and nothing else. */
  lemma ClickToggles(m: Page, cs: ColorScale, name: string)
    requires name in m
    ensures name in Selection(m) ==> Selection(ClickModel(m, cs, name)) == Selection(m) - {name}
    ensures name !in Selection(m) ==> Selection(ClickModel(m, cs, name)) == Selection(m) + {name}
    ensures forall n :: n in m && n != name ==> ClickModel(m, cs, name)[n] == m[n]
  {
  }

  /** Two clicks on the same model restore its highlight flags and its path exactly. */
  lemma ClickTwice(m: Page, cs: ColorScale, name: string)
    requires name in m && OneClass(m[name].path)
    ensures var m2 := ClickModel(ClickModel(m, cs, name), cs, name);
      Selection(m2) == Selection(m) && m2[name].path == m[name].path &&
      forall n :: n in m && n != name ==> m2[n] == m[n]
  {
    ClickToggles(m, cs, name);
    ClickToggles(ClickModel(m, cs, name), cs, name);
  }

  /** After "select all" every model is selected, and highlighted rows were left alone. */
  lemma SelectAllSelectsAll(m: Page, cs: ColorScale)
    ensures Selection(SelectAllPage(m, cs)) == m.Keys
    ensures forall n :: n in m && m[n].row.highlight ==> SelectAllPage(m, cs)[n] == m[n]
  {
  }

  /** After "deselect all" nothing is selected and no path is highlighted, from any page. */
  lemma DeselectAllClears(m: Page, cs: ColorScale)
    ensures Selection(DeselectAllPage(m, cs)) == {}
    ensures HighlightedPaths(DeselectAllPage(m, cs)) == {}
  {
  }

  /** Hovering never changes the selection or a path. */
  lemma HoverKeepsSelection(m: Page, cs: ColorScale, name: string)
    requires name in m
    ensures Selection(Step(m, cs, RowMouseOver(name))) == Selection(m)
    ensures Selection(Step(m, cs, RowMouseOut(name))) == Selection(m)
    ensures HighlightedPaths(Step(m, cs, RowMouseOver(name))) == HighlightedPaths(m)
    ensures HighlightedPaths(Step(m, cs, RowMouseOut(name))) == HighlightedPaths(m)
  {
  }

  /** A column header: `model_name` is shown as "name", every other column as itself. */
  function HeaderLabel(column: string): (shown: string)
    ensures column == ModelNameKey ==> shown == "name"
    ensures column != ModelNameKey ==> shown == column
  {
    if column == ModelNameKey then "name" else column
  }

  /** A drawn table row: its class attribute, its `data-model_name` and its cell texts. */
  datatype RowView = RowView(classes: string, modelName: string, cells: seq<string>)

  /** The drawn table: header labels and rows. */
  datatype TableView = TableView(header: seq<string>, rows: seq<RowView>)

  function RowClasses(r: Record): string {
    "columns is-centered is-mobile row " + ModelName(r)
  }

  /** The names of the rows, in table order. */
  function Names(rows: seq<Record>): (ns: seq<string>)
    ensures |ns| == |rows|
    ensures forall i :: 0 <= i < |rows| ==> ns[i] == ModelName(rows[i])
  {
    seq(|rows|, i requires 0 <= i < |rows| => ModelName(rows[i]))
  }

  function NameSet(rows: seq<Record>): set<string> {
    set i | 0 <= i < |rows| :: ModelName(rows[i])
  }

  predicate Distinct(ns: seq<string>) {
    forall i, j :: 0 <= i < j < |ns| ==> ns[i] != ns[j]
  }

  /** Two pages over the same names that agree on every name are equal. */
  lemma SameOnNames(m: Page, m': Page, names: seq<string>)
    requires forall n :: n in m <==> n in names
    requires forall n :: n in m' <==> n in names
    requires forall k :: 0 <= k < |names| ==> m[names[k]] == m'[names[k]]
    ensures m == m'
  {
    forall n | n in m ensures m[n] == m'[n] {
      var k :| 0 <= k < |names| && names[k] == n;
    }
  }

  /**
   * The grid widget on a page with the chart. `rows` is the data bound to the table, one
   * row per model; `page` holds the classes and styles of the rows and of the paths;
   * `columns` is the widget's column list, set by `columns(c)` or by the first draw.
   */
  class Chart {
    const colorScale: ColorScale
    const rows: seq<Record>
    var page: Page
    var columns: seq<string>

    ghost predicate Valid()
      reads this
    {
      Distinct(Names(rows)) && page.Keys == NameSet(rows)
    }

    /** A freshly loaded dataset: paths drawn regular, rows drawn plain, no columns chosen. */
    constructor (data: seq<Record>, colorScale: ColorScale)
      requires Distinct(Names(data))
      ensures Valid()
      ensures this.colorScale == colorScale && rows == data && columns == []
      ensures page == map n | n in NameSet(data) :: Initial()
      ensures Consistent(page, colorScale) && Selection(page) == {}
    {
      this.colorScale := colorScale;
      rows := data;
      page := map n | n in NameSet(data) :: Initial();
      columns := [];
    }

    /** `togglePathHighlight(d)`: the path of the named model swaps its two classes. */
    method TogglePathOf(name: string)
      requires Valid() && name in page
      modifies this`page
      ensures Valid()
      ensures page == old(page)[name := old(page)[name].(path := TogglePath(old(page)[name].path))]
    {
      page := page[name := page[name].(path := TogglePath(page[name].path))];
    }

    /** The row half of a click: flip `row_highlight` on the named model's row and restyle it. */
    method FlipRowOf(name: string)
      requires Valid() && name in page
      modifies this`page
      ensures Valid()
      ensures page == old(page)[name := old(page)[name].(row := FlipRow(old(page)[name].row, colorScale(name)))]
    {
      var row := page[name].row;
      if row.highlight {
        page := page[name := page[name].(row := RowState(false, "none", RegularTextColor))];
      } else {
        page := page[name := page[name].(row := RowState(true, colorScale(name), HighlightTextColor))];
      }
    }

    /** `rowClicked`: toggle the model's path, then flip and restyle its row. */
    method RowClicked(name: string)
      requires Valid() && name in page
      modifies this`page
      ensures Valid()
      ensures page == old(page)[name := Click(old(page)[name], colorScale(name))]
    {
      TogglePathOf(name);
      FlipRowOf(name);
    }

    /** A click on a plotted symbol: the same toggle of path and row, keyed by the symbol's model. */
    method SymbolClicked(name: string)
      requires Valid() && name in page
      modifies this`page
      ensures Valid()
      ensures page == ClickModel(old(page), colorScale, name)
    {
      TogglePathOf(name);
      FlipRowOf(name);
    }

    /** "Select all": click every row, in table order, that is not highlighted. */
    method HighlightAll()
      requires Valid()
      modifies this`page
      ensures Valid()
      ensures page == SelectAllPage(old(page), colorScale)
    {
      var names := Names(rows);
      for i := 0 to |names|
        invariant Valid() && page.Keys == old(page).Keys
        invariant forall k :: 0 <= k < |names| ==>
                    page[names[k]] == if k < i then SelectAllEntry(old(page)[names[k]], colorScale(names[k])) else old(page)[names[k]]
      {
        var n := names[i];
        ghost var before := page;
        if !page[n].row.highlight {
          RowClicked(n);
        }
        assert page[n] == SelectAllEntry(old(page)[n], colorScale(n));
        assert forall k :: 0 <= k < |names| && k != i ==> page[names[k]] == before[names[k]];
      }
      SameOnNames(page, SelectAllPage(old(page), colorScale), names);
    }

    /** "Deselect all": click every highlighted row, then toggle every path still highlighted. */
    method DeselectAll()
      requires Valid()
      modifies this`page
      ensures Valid()
      ensures page == DeselectAllPage(old(page), colorScale)
    {
      ClickHighlightedRows();
      ClearHighlightedPaths();
    }

    /** The row pass of "deselect all": every row with `row_highlight`, in table order, is clicked. */
    method ClickHighlightedRows()
      requires Valid()
      modifies this`page
      ensures Valid()
      ensures page == ClickHighlightedPage(old(page), colorScale)
    {
      var names := Names(rows);
      for i := 0 to |names|
        invariant Valid() && page.Keys == old(page).Keys
        invariant forall k :: 0 <= k < |names| ==>
                    page[names[k]] == if k < i then ClickedIfOn(old(page)[names[k]], colorScale(names[k])) else old(page)[names[k]]
      {
        var n := names[i];
        ghost var before := page;
        if page[n].row.highlight {
          RowClicked(n);
        }
        assert page[n] == ClickedIfOn(old(page)[n], colorScale(n));
        assert forall k :: 0 <= k < |names| && k != i ==> page[names[k]] == before[names[k]];
      }
      SameOnNames(page, ClickHighlightedPage(old(page), colorScale), names);
    }

    /** The path pass of "deselect all": every `.coordinate_path` still highlighted is toggled. */
    method ClearHighlightedPaths()
      requires Valid()
      modifies this`page
      ensures Valid()
      ensures page == ClearPathsPage(old(page))
    {
      var names := Names(rows);
      for i := 0 to |names|
        invariant Valid() && page.Keys == old(page).Keys
        invariant forall k :: 0 <= k < |names| ==>
                    page[names[k]] == if k < i then PathOff(old(page)[names[k]]) else old(page)[names[k]]
      {
        var n := names[i];
        ghost var before := page;
        if page[n].path.highlight {
          TogglePathOf(n);
        }
        assert page[n] == PathOff(old(page)[n]);
        assert forall k :: 0 <= k < |names| && k != i ==> page[names[k]] == before[names[k]];
      }
      SameOnNames(page, ClearPathsPage(old(page)), names);
    }

    /** Mouse over a row: a grey tint on a row that is not highlighted. */
    method MouseOver(name: string)
      requires Valid() && name in page
      modifies this`page
      ensures Valid()
      ensures page == old(page)[name := old(page)[name].(row := HoverIn(old(page)[name].row))]
    {
      if !page[name].row.highlight {
        page := page[name := page[name].(row := page[name].row.(background := HoverTint))];
      }
    }

    /** Mouse out of a row: the tint is cleared on a row that is not highlighted. */
    method MouseOut(name: string)
      requires Valid() && name in page
      modifies this`page
      ensures Valid()
      ensures page == old(page)[name := old(page)[name].(row := HoverOut(old(page)[name].row))]
    {
      if !page[name].row.highlight {
        page := page[name := page[name].(row := page[name].row.(background := "transparent", color := RegularTextColor))];
      }
    }

    /** `dg.columns()`. */
    function GetColumns(): seq<string>
      reads this
    {
      columns
    }

    /** `dg.columns(c)`: later reads give back `c`. */
    method SetColumns(c: seq<string>)
      modifies this`columns
      ensures GetColumns() == c
    {
      columns := c;
    }

    /**
     * Drawing the grid: with no columns chosen, take the first row's keys; label the header;
     * one row per record with its classes and its cells in column order.
     */
    method Render() returns (view: TableView)
      modifies this`columns
      ensures old(columns) == [] ==> columns == FirstRowKeys(rows)
      ensures old(columns) != [] ==> columns == old(columns)
      ensures |view.header| == |columns|
      ensures forall i :: 0 <= i < |columns| ==> view.header[i] == HeaderLabel(columns[i])
      ensures |view.rows| == |rows|
      ensures forall i :: 0 <= i < |rows| ==>
        view.rows[i] == RowView(RowClasses(rows[i]), ModelName(rows[i]), Project(rows[i], columns))
    {
      if |columns| == 0 {
        columns := FirstRowKeys(rows);
      }
      var header := [];
      for i := 0 to |columns|
        invariant |header| == i
        invariant forall k :: 0 <= k < i ==> header[k] == HeaderLabel(columns[k])
      {
        header := header + [HeaderLabel(columns[i])];
      }
      var drawn := [];
      for i := 0 to |rows|
        invariant |drawn| == i
        invariant forall k :: 0 <= k < i ==>
          drawn[k] == RowView(RowClasses(rows[k]), ModelName(rows[k]), Project(rows[k], columns))
      {
        drawn := drawn + [RowView(RowClasses(rows[i]), ModelName(rows[i]), Project(rows[i], columns))];
      }
      view := TableView(header, drawn);
    }
  }
}
