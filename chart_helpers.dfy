/**
 * The non-drawing helpers of the parallel-coordinates page (`app/static/parallel_coordinates.js`):
 * the plotted variables, the table's name comparator, the axis domains, the endpoint a
 * form submission posts to, the payload it posts and the fields a row plots as symbols.
 */
module ChartHelpers {
  import opened Wrappers
  import opened Text
  import opened Seqs
  import opened Records

  /** `getVariables`: the first row's columns, in order, without `model_name`. */
  function Variables(data: seq<Record>): (vs: seq<string>)
    ensures forall v :: v in vs <==> v in FirstRowKeys(data) && v != ModelNameKey
    ensures data != [] && ModelNameKey !in Keys(data[0]) ==> vs == Keys(data[0])
  {
    if data != [] && ModelNameKey !in Keys(data[0]) then
      WithoutAbsent(Keys(data[0]), ModelNameKey);
      Without(FirstRowKeys(data), ModelNameKey)
    else
      Without(FirstRowKeys(data), ModelNameKey)
  }

  /** The filter keeps the columns' order: columns around `model_name` keep their places. */
  lemma VariablesAround(data: seq<Record>, i: nat)
    requires data != [] && i < |Keys(data[0])| && Keys(data[0])[i] == ModelNameKey
    requires ModelNameKey !in Keys(data[0])[..i] && ModelNameKey !in Keys(data[0])[i + 1..]
    ensures Variables(data) == Keys(data[0])[..i] + Keys(data[0])[i + 1..]
  {
    var ks := Keys(data[0]);
    assert ks == ks[..i] + ([ks[i]] + ks[i + 1..]);
    WithoutAppend(ks[..i], [ks[i]] + ks[i + 1..], ModelNameKey);
    WithoutAppend([ks[i]], ks[i + 1..], ModelNameKey);
    WithoutAbsent(ks[..i], ModelNameKey);
    WithoutAbsent(ks[i + 1..], ModelNameKey);
  }

  /** `compare`: order two model names by their upper-cased forms, as -1, 0 or 1. */
  function Compare(a: string, b: string): (c: int)
    ensures c == -1 || c == 0 || c == 1
    ensures c == 0 <==> Upper(a) == Upper(b)
    ensures c == -1 <==> Below(Upper(a), Upper(b))
    ensures c == 1 <==> Below(Upper(b), Upper(a))
  {
    BelowIrreflexive(Upper(a));
    BelowAsymmetric(Upper(a), Upper(b));
    BelowTotal(Upper(a), Upper(b));
    if Below(Upper(b), Upper(a)) then 1 else if Below(Upper(a), Upper(b)) then -1 else 0
  }

  /** Swapping the arguments negates the answer. */
  lemma CompareAntisymmetric(a: string, b: string)
    ensures Compare(a, b) == -Compare(b, a)
  {
  }

  /** The comparator is a consistent order for `Array.prototype.sort`. */
  lemma CompareTransitive(a: string, b: string, c: string)
    requires Compare(a, b) <= 0 && Compare(b, c) <= 0
    ensures Compare(a, c) <= 0
  {
    AtMostTransitive(Upper(a), Upper(b), Upper(c));
  }

  /** An axis domain: `[lo, hi]`, or `[undefined, undefined]` when no value is a number. */
  datatype Domain = Domain(lo: int, hi: int) | Undefined

  /** `d3.extent` over values already converted to numbers; `None` stands for `NaN`/`undefined`, which it skips. */
  function Extent(xs: seq<Option<int>>): (d: Domain)
    ensures d.Undefined? <==> forall i :: 0 <= i < |xs| ==> xs[i].None?
    ensures d.Domain? ==> d.lo <= d.hi
    ensures d.Domain? ==> forall i :: 0 <= i < |xs| && xs[i].Some? ==> d.lo <= xs[i].value <= d.hi
    ensures d.Domain? ==> exists i :: 0 <= i < |xs| && xs[i] == Some(d.lo)
    ensures d.Domain? ==> exists i :: 0 <= i < |xs| && xs[i] == Some(d.hi)
  {
    if xs == [] then Undefined
    else
      var rest := Extent(xs[..|xs| - 1]);
      var last := xs[|xs| - 1];
      assert forall i :: 0 <= i < |xs| - 1 ==> xs[..|xs| - 1][i] == xs[i];
      match last
      case None => rest
      case Some(x) =>
        match rest
        case Undefined => Domain(x, x)
        case Domain(lo, hi) => Domain(if x < lo then x else lo, if x > hi then x else hi)
  }

  /** `+d[name]` for each row; the conversion of a cell text to a number is a parameter. */
  function ColumnNumbers(data: seq<Record>, name: string, toNumber: string -> Option<int>): (xs: seq<Option<int>>)
    ensures |xs| == |data|
    ensures forall i :: 0 <= i < |data| ==>
      xs[i] == match Lookup(data[i], name) case None => None case Some(v) => toNumber(v)
  {
    seq(|data|, i requires 0 <= i < |data| =>
      match Lookup(data[i], name) case None => None case Some(v) => toNumber(v))
  }

  /** `calculateDomain`: the extent of one column over all rows. */
  function CalculateDomain(data: seq<Record>, name: string, toNumber: string -> Option<int>): Domain {
    Extent(ColumnNumbers(data, name, toNumber))
  }

  /** Every row whose `name` converts to a number lies inside the column's domain. */
  lemma DomainCoversRows(data: seq<Record>, name: string, toNumber: string -> Option<int>, i: nat, v: string)
    requires i < |data| && Lookup(data[i], name) == Some(v) && toNumber(v).Some?
    ensures CalculateDomain(data, name, toNumber).Domain?
    ensures CalculateDomain(data, name, toNumber).lo <= toNumber(v).value <= CalculateDomain(data, name, toNumber).hi
  {
    var xs := ColumnNumbers(data, name, toNumber);
    assert xs[i] == toNumber(v);
  }

  const CustomScale := "custom"

  /**
   * `setStaticScale`: for every variable, `[lowerBound, upperBound]` when the scale type is
   * "custom", otherwise the variable's own extent.
   */
  method SetStaticScale(data: seq<Record>, variables: seq<string>, scaleType: string,
                        lowerBound: int, upperBound: int, toNumber: string -> Option<int>)
    returns (valueScale: map<string, Domain>)
    ensures valueScale.Keys == set v | v in variables
    ensures scaleType == CustomScale ==> forall v :: v in valueScale ==> valueScale[v] == Domain(lowerBound, upperBound)
    ensures scaleType != CustomScale ==> forall v :: v in valueScale ==> valueScale[v] == CalculateDomain(data, v, toNumber)
  {
    valueScale := map[];
    for i := 0 to |variables|
      invariant valueScale.Keys == set v | v in variables[..i]
      invariant scaleType == CustomScale ==> forall v :: v in valueScale ==> valueScale[v] == Domain(lowerBound, upperBound)
      invariant scaleType != CustomScale ==> forall v :: v in valueScale ==> valueScale[v] == CalculateDomain(data, v, toNumber)
    {
      var name := variables[i];
      var domainValue;
      if scaleType == CustomScale {
        domainValue := Domain(lowerBound, upperBound);
      } else {
        domainValue := CalculateDomain(data, name, toNumber);
      }
      assert variables[..i + 1] == variables[..i] + [name];
      valueScale := valueScale[name := domainValue];
    }
    assert variables[..|variables|] == variables;
  }

  /** The two ends of a domain as the values `...calculateDomain(...)` spreads into a list. */
  function Ends(d: Domain): (ends: seq<Option<int>>)
    ensures |ends| == 2
    ensures d.Domain? ==> ends == [Some(d.lo), Some(d.hi)]
    ensures d.Undefined? ==> ends == [None, None]
  {
    match d
    case Domain(lo, hi) => [Some(lo), Some(hi)]
    case Undefined => [None, None]
  }

  /** The list `findAbsoluteMinMax` builds: both ends of every variable's domain, in order. */
  function AllEnds(variables: seq<string>, domain: string -> Domain): (xs: seq<Option<int>>)
    ensures |xs| == 2 * |variables|
  {
    if variables == [] then []
    else AllEnds(variables[..|variables| - 1], domain) + Ends(domain(variables[|variables| - 1]))
  }

  lemma {:induction false} AllEndsAt(variables: seq<string>, domain: string -> Domain, k: nat)
    requires k < |variables|
    ensures AllEnds(variables, domain)[2 * k] == Ends(domain(variables[k]))[0]
    ensures AllEnds(variables, domain)[2 * k + 1] == Ends(domain(variables[k]))[1]
  {
    var n := |variables| - 1;
    if k < n {
      AllEndsAt(variables[..n], domain, k);
    }
  }

  /** The overall range is undefined exactly when every variable's domain is. */
  lemma AbsoluteRangeUndefined(variables: seq<string>, domain: string -> Domain)
    ensures Extent(AllEnds(variables, domain)).Undefined? <==> forall v :: v in variables ==> domain(v).Undefined?
  {
    var bounds := AllEnds(variables, domain);
    if Extent(bounds).Undefined? {
      forall v | v in variables
        ensures domain(v).Undefined?
      {
        var k :| 0 <= k < |variables| && variables[k] == v;
        AllEndsAt(variables, domain, k);
        assert bounds[2 * k].None?;
      }
    } else {
      var j :| 0 <= j < |bounds| && bounds[j].Some?;
      var k := j / 2;
      AllEndsAt(variables, domain, k);
      assert j == 2 * k || j == 2 * k + 1;
      assert variables[k] in variables && domain(variables[k]).Domain?;
    }
  }

  /** A defined overall range contains every variable's defined domain. */
  lemma AbsoluteRangeCovers(variables: seq<string>, domain: string -> Domain, v: string)
    requires v in variables && domain(v).Domain?
    ensures Extent(AllEnds(variables, domain)).Domain?
    ensures Extent(AllEnds(variables, domain)).lo <= domain(v).lo
    ensures domain(v).hi <= Extent(AllEnds(variables, domain)).hi
  {
    var k :| 0 <= k < |variables| && variables[k] == v;
    AllEndsAt(variables, domain, k);
    var bounds := AllEnds(variables, domain);
    assert bounds[2 * k] == Some(domain(v).lo) && bounds[2 * k + 1] == Some(domain(v).hi);
  }

  /** Every number in the list is an end of some variable's domain. */
  lemma {:induction false} AllEndsFrom(variables: seq<string>, domain: string -> Domain, j: nat) returns (k: nat)
    requires j < |AllEnds(variables, domain)| && AllEnds(variables, domain)[j].Some?
    ensures k < |variables| && domain(variables[k]).Domain?
    ensures AllEnds(variables, domain)[j].value == domain(variables[k]).lo ||
            AllEnds(variables, domain)[j].value == domain(variables[k]).hi
  {
    var n := |variables| - 1;
    if j < 2 * n {
      k := AllEndsFrom(variables[..n], domain, j);
    } else {
      k := n;
    }
  }

  /** The low end of a defined overall range is the low end of some variable's domain. */
  lemma AbsoluteRangeLowAttained(variables: seq<string>, domain: string -> Domain)
    requires forall v :: v in variables && domain(v).Domain? ==> domain(v).lo <= domain(v).hi
    requires Extent(AllEnds(variables, domain)).Domain?
    ensures exists v :: v in variables && domain(v).Domain? && domain(v).lo == Extent(AllEnds(variables, domain)).lo
  {
    var bounds := AllEnds(variables, domain);
    var d := Extent(bounds);
    var j :| 0 <= j < |bounds| && bounds[j] == Some(d.lo);
    var k := AllEndsFrom(variables, domain, j);
    AllEndsAt(variables, domain, k);
    var dk := domain(variables[k]);
    assert bounds[2 * k] == Some(dk.lo);
    assert variables[k] in variables;
  }

  /** The high end of a defined overall range is the high end of some variable's domain. */
  lemma AbsoluteRangeHighAttained(variables: seq<string>, domain: string -> Domain)
    requires forall v :: v in variables && domain(v).Domain? ==> domain(v).lo <= domain(v).hi
    requires Extent(AllEnds(variables, domain)).Domain?
    ensures exists v :: v in variables && domain(v).Domain? && domain(v).hi == Extent(AllEnds(variables, domain)).hi
  {
    var bounds := AllEnds(variables, domain);
    var d := Extent(bounds);
    var j :| 0 <= j < |bounds| && bounds[j] == Some(d.hi);
    var k := AllEndsFrom(variables, domain, j);
    AllEndsAt(variables, domain, k);
    var dk := domain(variables[k]);
    assert bounds[2 * k + 1] == Some(dk.hi);
    assert variables[k] in variables;
  }

  /** `findAbsoluteMinMax`: the extent of every variable's domain ends. */
  method FindAbsoluteMinMax(data: seq<Record>, variables: seq<string>, toNumber: string -> Option<int>)
    returns (d: Domain)
    ensures d == Extent(AllEnds(variables, v => CalculateDomain(data, v, toNumber)))
    ensures d.Undefined? <==> forall v :: v in variables ==> CalculateDomain(data, v, toNumber).Undefined?
    ensures d.Domain? ==> forall v :: v in variables && CalculateDomain(data, v, toNumber).Domain? ==>
      d.lo <= CalculateDomain(data, v, toNumber).lo && CalculateDomain(data, v, toNumber).hi <= d.hi
    ensures d.Domain? ==>
      exists v :: v in variables && CalculateDomain(data, v, toNumber).Domain? && CalculateDomain(data, v, toNumber).lo == d.lo
    ensures d.Domain? ==>
      exists v :: v in variables && CalculateDomain(data, v, toNumber).Domain? && CalculateDomain(data, v, toNumber).hi == d.hi
  {
    ghost var domain := v => CalculateDomain(data, v, toNumber);
    var domainValues: seq<Option<int>> := [];
    for i := 0 to |variables|
      invariant domainValues == AllEnds(variables[..i], domain)
    {
      assert variables[..i + 1][..i] == variables[..i];
      domainValues := domainValues + Ends(CalculateDomain(data, variables[i], toNumber));
    }
    assert variables[..|variables|] == variables;
    d := Extent(domainValues);
    AbsoluteRangeUndefined(variables, domain);
    forall v | v in variables && CalculateDomain(data, v, toNumber).Domain?
      ensures d.lo <= CalculateDomain(data, v, toNumber).lo && CalculateDomain(data, v, toNumber).hi <= d.hi
    {
      AbsoluteRangeCovers(variables, domain, v);
    }
    if d.Domain? {
      AbsoluteRangeLowAttained(variables, domain);
      AbsoluteRangeHighAttained(variables, domain);
    }
  }

  const ByVariable := "plotAllSeasonsByVariable"

  /** `chooseAPIEndpoint`: the route the checked "level" radio button posts to. */
  function ChooseApiEndpoint(level: string): (url: string)
    ensures url == "/plot_by_variable" <==> level == ByVariable
    ensures url == "/plot_by_season" <==> level != ByVariable
  {
    if level == ByVariable then "/plot_by_variable" else "/plot_by_season"
  }

  /** A form control, with what `generate_csv` reads of it. */
  datatype FormElement = FormElement(tagName: string, disabled: bool, name: string, value: string)

  predicate Submitted(e: FormElement) {
    e.tagName == "SELECT" && !e.disabled
  }

  /**
   * The loop of `generate_csv`: the payload maps the name of every enabled `SELECT` to the
   * value of the last such element with that name.
   */
  method GenerateCsvPayload(elements: seq<FormElement>) returns (data: map<string, string>)
    ensures forall n :: n in data <==> exists i :: 0 <= i < |elements| && Submitted(elements[i]) && elements[i].name == n
    ensures forall n :: n in data ==>
      (exists i :: 0 <= i < |elements| && Submitted(elements[i]) &&
        elements[i].name == n && elements[i].value == data[n] &&
        forall j :: i < j < |elements| && Submitted(elements[j]) ==> elements[j].name != n)
  {
    data := map[];
    var i := 0;
    while i < |elements|
      invariant 0 <= i <= |elements|
      invariant forall n :: n in data <==> exists k :: 0 <= k < i && Submitted(elements[k]) && elements[k].name == n
      invariant forall n :: n in data ==>
        (exists k :: 0 <= k < i && Submitted(elements[k]) &&
          elements[k].name == n && elements[k].value == data[n] &&
          forall j :: k < j < i && Submitted(elements[j]) ==> elements[j].name != n)
    {
      if elements[i].tagName == "SELECT" && !elements[i].disabled {
        var name := elements[i].name;
        data := data[name := elements[i].value];
      }
      i := i + 1;
    }
  }

  /** A symbol `calculatePoint` plots: its row's model name (absent when the row has none), column and value. */
  datatype Symbol = Symbol(modelName: Option<string>, variable: string, value: string)

  /** The symbols of a row: one per field other than `model_name`, in field order. */
  function PlottedFields(row: Record, modelName: Option<string>): (ss: seq<Symbol>)
    ensures |ss| <= |row|
    ensures forall s :: s in ss ==> s.modelName == modelName && s.variable != ModelNameKey
    ensures forall s :: s in ss ==> Field(s.variable, s.value) in row
  {
    if row == [] then []
    else if row[0].key == ModelNameKey then PlottedFields(row[1..], modelName)
    else [Symbol(modelName, row[0].key, row[0].value)] + PlottedFields(row[1..], modelName)
  }

  /** The symbols' columns are the row's columns without `model_name`, in order. */
  lemma {:induction false} PlottedVariables(row: Record, modelName: Option<string>)
    ensures SymbolVariables(PlottedFields(row, modelName)) == Without(Keys(row), ModelNameKey)
  {
    if row != [] {
      PlottedVariables(row[1..], modelName);
      assert Keys(row) == [row[0].key] + Keys(row[1..]);
    }
  }

  /** On an object, each symbol carries the row's own value for its column, as `data-value` and the y position do. */
  lemma PlottedValues(row: Record, modelName: Option<string>)
    requires DistinctKeys(row)
    ensures forall s :: s in PlottedFields(row, modelName) ==> Lookup(row, s.variable) == Some(s.value)
  {
    forall s | s in PlottedFields(row, modelName)
      ensures Lookup(row, s.variable) == Some(s.value)
    {
      var i :| 0 <= i < |row| && row[i] == Field(s.variable, s.value);
      LookupAt(row, i);
    }
  }

  /** The column each symbol plots. */
  function SymbolVariables(ss: seq<Symbol>): (vs: seq<string>)
    ensures |vs| == |ss| && forall i :: 0 <= i < |ss| ==> vs[i] == ss[i].variable
  {
    seq(|ss|, i requires 0 <= i < |ss| => ss[i].variable)
  }

  /** So the first row plots one symbol per variable on the chart, in axis order. */
  lemma FirstRowPlotsVariables(data: seq<Record>)
    requires data != []
    ensures SymbolVariables(PlottedFields(data[0], Lookup(data[0], ModelNameKey))) == Variables(data)
  {
    PlottedVariables(data[0], Lookup(data[0], ModelNameKey));
  }

  /** The symbols of a row with one more field are the earlier ones, then that field's. */
  lemma {:induction false} PlottedFieldsAppend(row: Record, f: Field, modelName: Option<string>)
    ensures PlottedFields(row + [f], modelName) == PlottedFields(row, modelName) + PlottedFields([f], modelName)
  {
    if row != [] {
      assert (row + [f])[1..] == row[1..] + [f];
      PlottedFieldsAppend(row[1..], f, modelName);
    } else {
      assert row + [f] == [f];
    }
  }

  /** `calculatePoint`'s loop over `Object.entries(row)`, skipping `model_name`. */
  method CalculatePoint(row: Record) returns (symbols: seq<Symbol>)
    ensures symbols == PlottedFields(row, Lookup(row, ModelNameKey))
  {
    var rowModelName := Lookup(row, ModelNameKey);
    symbols := [];
    for i := 0 to |row|
      invariant symbols == PlottedFields(row[..i], rowModelName)
    {
      PlottedFieldsAppend(row[..i], row[i], rowModelName);
      assert row[..i + 1] == row[..i] + [row[i]];
      if row[i].key != ModelNameKey {
        symbols := symbols + [Symbol(rowModelName, row[i].key, row[i].value)];
      }
    }
    assert row[..|row|] == row;
  }
}
