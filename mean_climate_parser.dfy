/**
 * `app/mean_climate_parser.py`: the two CSV tables built from the mean-climate metrics
 * files. Files are addressed by their path under the metrics directory
 * (`cmip5_json/...`, `cmip6_csv/...`); the directory's JSON files are given as input.
 */
module MeanClimateParser {
  import opened Wrappers
  import opened Text
  import opened Sorting
  import opened Seqs
  import opened JsonModel
  import opened CsvRows
  import opened FileNames
  import opened Results

  const DefaultKey := "default"

  const InputSuffix := ".historical.regrid2.2p5x2p5.v20190801.json"

  /** The metrics file of one variable: `{variable}.{GEN}.historical.regrid2.2p5x2p5.v20190801.json`. */
  function InputPath(variable: string, gen: string): string {
    gen + "_json/" + variable + "." + Upper(gen) + InputSuffix
  }

  lemma SuffixHasNoSlash(gen: string)
    requires '/' !in gen
    ensures '/' !in Upper(gen) + InputSuffix
  {
    assert '/' !in InputSuffix;
    forall k | 0 <= k < |gen| ensures Upper(gen)[k] != '/' {
      assert gen[k] != '/';
    }
  }

  lemma InputPathShape(variable: string, gen: string)
    ensures InputPath(variable, gen) == (gen + "_json") + ['/'] + (variable + ['.'] + (Upper(gen) + InputSuffix))
  {
  }

  /** The file a table of `variable` is read from is listed back as that variable. */
  lemma InputPathNamesVariable(variable: string, gen: string)
    requires '/' !in variable && '.' !in variable && '/' !in gen
    ensures VariableOf(InputPath(variable, gen), '.') == variable
  {
    var rest := Upper(gen) + InputSuffix;
    var name := variable + ['.'] + rest;
    SuffixHasNoSlash(gen);
    assert '/' !in name;
    InputPathShape(variable, gen);
    AfterLastOf(gen + "_json", '/', name);
    BeforeOf(variable, '.', rest);
  }

  function AllSeasonsPath(variable: string, gen: string, region: string, statistic: string): string {
    gen + "_csv/all_seasons_" + variable + "-" + gen + "-" + region + "-" + statistic + ".csv"
  }

  function AllVariablesPath(season: string, gen: string, region: string, statistic: string): string {
    gen + "_csv/all_variables_" + season + "-" + gen + "-" + region + "-" + statistic + ".csv"
  }

  /**
   * What the fill loop stores for `model`: `RESULTS[model]["default"][run][region]` must be an
   * object (its `.keys()` is taken), and its `statistic` entry is stored.
   */
  function SeasonsOf(doc: Json, model: string, region: string, statistic: string): Option<Json> {
    match At(doc, [ResultsKey, model, DefaultKey, DefaultRun, region])
    case Some(Object(fs)) => Get(Object(fs), statistic)
    case _ => None
  }

  /** The season names of the header: those of the first model's entry. */
  function SeasonList(doc: Json, models: seq<string>, region: string, statistic: string): Option<seq<string>>
    requires models != []
  {
    match At(doc, [ResultsKey, models[0], DefaultKey, DefaultRun, region, statistic])
    case Some(j) => Keys(j)
    case None => None
  }

  /** The `output` dictionary after the fill loop: every model's stored entry. */
  function Filled(doc: Json, models: seq<string>, region: string, statistic: string): (output: map<string, Json>)
    ensures output.Keys == set m | m in models && SeasonsOf(doc, m, region, statistic).Some?
  {
    map m | m in models && SeasonsOf(doc, m, region, statistic).Some? :: SeasonsOf(doc, m, region, statistic).value
  }

  lemma FilledStep(doc: Json, models: seq<string>, m: string, region: string, statistic: string)
    requires SeasonsOf(doc, m, region, statistic).Some?
    ensures Filled(doc, models + [m], region, statistic)
      == Filled(doc, models, region, statistic)[m := SeasonsOf(doc, m, region, statistic).value]
  {
    var before := Filled(doc, models, region, statistic);
    var after := Filled(doc, models + [m], region, statistic);
    assert after.Keys == before.Keys + {m};
  }

  lemma FilledSameMembers(doc: Json, a: seq<string>, b: seq<string>, region: string, statistic: string)
    requires forall m :: m in a <==> m in b
    ensures Filled(doc, a, region, statistic) == Filled(doc, b, region, statistic)
  {
    assert Filled(doc, a, region, statistic).Keys == Filled(doc, b, region, statistic).Keys;
  }

  /** The fill loop over `sorted`: each model's entry stored; the first unreadable model raises. */
  method FillInOrder(doc: Json, sorted: seq<string>, region: string, statistic: string)
    returns (output: Option<map<string, Json>>)
    ensures output.Some? <==> forall m :: m in sorted ==> SeasonsOf(doc, m, region, statistic).Some?
    ensures output.Some? ==> output.value == Filled(doc, sorted, region, statistic)
  {
    var filled: map<string, Json> := map[];
    for i := 0 to |sorted|
      invariant forall k :: 0 <= k < i ==> SeasonsOf(doc, sorted[k], region, statistic).Some?
      invariant filled == Filled(doc, sorted[..i], region, statistic)
    {
      var seasons := SeasonsOf(doc, sorted[i], region, statistic);
      if seasons.None? {
        return None;
      }
      assert sorted[..i + 1] == sorted[..i] + [sorted[i]];
      FilledStep(doc, sorted[..i], sorted[i], region, statistic);
      filled := filled[sorted[i] := seasons.value];
    }
    assert sorted[..|sorted|] == sorted;
    output := Some(filled);
  }

  /** The fill step of `all_seasons_for_variable`: the models visited in case-insensitive order. */
  method FillOutput(doc: Json, models: seq<string>, region: string, statistic: string)
    returns (output: Option<map<string, Json>>)
    ensures output.Some? <==> forall m :: m in models ==> SeasonsOf(doc, m, region, statistic).Some?
    ensures output.Some? ==> output.value == Filled(doc, models, region, statistic)
  {
    var sorted := SortBy(models, Lower);
    SortByMembers(models, Lower);
    output := FillInOrder(doc, sorted, region, statistic);
    FilledSameMembers(doc, sorted, models, region, statistic);
  }

  /** The all-seasons table of a metrics document, or why it cannot be built. */
  function AllSeasonsTable(doc: Json, name: string, region: string, statistic: string): Result<Csv, Failure> {
    match ModelsOf(doc)
    case None => Err(Raised)
    case Some(models) =>
      if models == [] then Err(Raised)
      else match SeasonList(doc, models, region, statistic)
        case None => Err(Raised)
        case Some(seasons) =>
          if forall m :: m in models ==> SeasonsOf(doc, m, region, statistic).Some? then
            Ok(Csv(name, [ModelNameColumn] + seasons, RowsFor(models, Filled(doc, models, region, statistic), seasons)))
          else Err(Raised)
  }

  /**
   * The table is built exactly when the model list is non-empty, the first model has the
   * season names and every model can be read; its header is `model_name` and those seasons,
   * and its rows follow `models_list`.
   */
  lemma AllSeasonsTableMeans(doc: Json, name: string, region: string, statistic: string)
    ensures AllSeasonsTable(doc, name, region, statistic).Ok? <==>
      ModelsOf(doc).Some? && ModelsOf(doc).value != [] &&
      SeasonList(doc, ModelsOf(doc).value, region, statistic).Some? &&
      forall m :: m in ModelsOf(doc).value ==> SeasonsOf(doc, m, region, statistic).Some?
    ensures AllSeasonsTable(doc, name, region, statistic).Ok? ==>
      var models := ModelsOf(doc).value;
      var seasons := SeasonList(doc, models, region, statistic).value;
      var table := AllSeasonsTable(doc, name, region, statistic).value;
      table.name == name && table.header == [ModelNameColumn] + seasons &&
      table.rows == RowsFor(models, Filled(doc, models, region, statistic), seasons)
  {
  }

  /**
   * `all_seasons_for_variable`: reads the variable's metrics file, fills `output` in
   * case-insensitive model order and writes the table of that file.
   */
  method AllSeasonsForVariable(variable: string, gen: string, region: string, statistic: string, files: map<string, Json>)
    returns (r: Result<Csv, Failure>)
    ensures InputPath(variable, gen) !in files ==> r == Err(FileNotFound(InputPath(variable, gen)))
    ensures InputPath(variable, gen) in files ==>
      r == AllSeasonsTable(files[InputPath(variable, gen)], AllSeasonsPath(variable, gen, region, statistic), region, statistic)
  {
    var path := InputPath(variable, gen);
    if path !in files {
      return Err(FileNotFound(path));
    }
    var doc := files[path];
    var modelsList := ModelsOf(doc);
    if modelsList.None? || modelsList.value == [] {
      return Err(Raised);
    }
    var models := modelsList.value;
    var seasonList := SeasonList(doc, models, region, statistic);
    if seasonList.None? {
      return Err(Raised);
    }
    var output := FillOutput(doc, models, region, statistic);
    if output.None? {
      return Err(Raised);
    }
    var header := [ModelNameColumn] + seasonList.value;
    var rows := WriteRows(models, output.value, seasonList.value);
    r := Ok(Csv(AllSeasonsPath(variable, gen, region, statistic), header, rows));
  }

  function Paths(files: seq<JsonFile>): (ps: seq<string>)
    ensures |ps| == |files| && forall i :: 0 <= i < |files| ==> ps[i] == files[i].path
  {
    seq(|files|, i requires 0 <= i < |files| => files[i].path)
  }

  /** `RESULTS[model]["default"][run][region][statistic][season]`; `None` when a step raises. */
  function ValueAt(doc: Json, model: string, region: string, statistic: string, season: string): Option<Json> {
    At(doc, [ResultsKey, model, DefaultKey, DefaultRun, region, statistic, season])
  }

  /** A column of the season table: every model's value in turn; `None` when one raises. */
  function SeasonColumn(doc: Json, models: seq<string>, region: string, statistic: string, season: string): (c: Option<seq<Cell>>)
    ensures c.Some? ==> |c.value| == |models|
  {
    if models == [] then Some([])
    else match SeasonColumn(doc, models[..|models| - 1], region, statistic, season)
      case None => None
      case Some(prior) =>
        match ValueAt(doc, models[|models| - 1], region, statistic, season)
        case None => None
        case Some(v) => Some(prior + [Value(v)])
  }

  /** The column exists exactly when every model has a value, and then lists those values in model order. */
  lemma {:induction false} SeasonColumnMeans(doc: Json, models: seq<string>, region: string, statistic: string, season: string)
    ensures SeasonColumn(doc, models, region, statistic, season).Some? <==>
      forall i :: 0 <= i < |models| ==> ValueAt(doc, models[i], region, statistic, season).Some?
    ensures SeasonColumn(doc, models, region, statistic, season).Some? ==>
      forall i :: 0 <= i < |models| ==>
        SeasonColumn(doc, models, region, statistic, season).value[i] == Value(ValueAt(doc, models[i], region, statistic, season).value)
  {
    if models != [] {
      var n := |models| - 1;
      SeasonColumnMeans(doc, models[..n], region, statistic, season);
      assert forall i :: 0 <= i < n ==> models[..n][i] == models[i];
    }
  }

  /** The file's column: its model list must exist, and so must every model's value. */
  function FileColumn(f: JsonFile, region: string, statistic: string, season: string): (c: Option<seq<Cell>>)
    ensures c.Some? ==> ModelsOf(f.doc).Some? && |c.value| == |ModelsOf(f.doc).value|
  {
    match ModelsOf(f.doc)
    case None => None
    case Some(models) => SeasonColumn(f.doc, models, region, statistic, season)
  }

  function Labels(names: seq<string>): (cells: seq<Cell>)
    ensures |cells| == |names| && forall i :: 0 <= i < |names| ==> cells[i] == Label(names[i])
  {
    seq(|names|, i requires 0 <= i < |names| => Label(names[i]))
  }

  predicate AllReadable(files: seq<JsonFile>, region: string, statistic: string, season: string) {
    forall k :: 0 <= k < |files| ==> FileColumn(files[k], region, statistic, season).Some?
  }

  /** The columns `output` collects: the first file's model names, then every file's values. */
  function SeasonTable(files: seq<JsonFile>, region: string, statistic: string, season: string): (cols: seq<seq<Cell>>)
    requires files != [] && AllReadable(files, region, statistic, season)
    ensures |cols| == |files| + 1 && cols[0] == Labels(ModelsOf(files[0].doc).value)
    ensures forall k :: 0 <= k < |files| ==> cols[k + 1] == FileColumn(files[k], region, statistic, season).value
  {
    [Labels(ModelsOf(files[0].doc).value)] +
      seq(|files|, k requires 0 <= k < |files| => FileColumn(files[k], region, statistic, season).value)
  }

  /** The shortest length among the columns. */
  function MinLength(cols: seq<seq<Cell>>): (n: nat)
    requires cols != []
    ensures forall j :: 0 <= j < |cols| ==> n <= |cols[j]|
    ensures exists j :: 0 <= j < |cols| && n == |cols[j]|
  {
    if |cols| == 1 then |cols[0]|
    else
      var rest := MinLength(cols[1..]);
      assert forall j :: 1 <= j < |cols| ==> cols[1..][j - 1] == cols[j];
      if |cols[0]| <= rest then |cols[0]| else rest
  }

  /** `zip(*cols)`: row `i` holds the `i`-th entry of every column, up to the shortest column. */
  function Zip(cols: seq<seq<Cell>>): (rows: seq<seq<Cell>>)
    ensures cols == [] ==> rows == []
    ensures cols != [] ==> |rows| == MinLength(cols)
    ensures forall i :: 0 <= i < |rows| ==> |rows[i]| == |cols| && forall j :: 0 <= j < |cols| ==> rows[i][j] == cols[j][i]
  {
    if cols == [] then [] else
    seq(MinLength(cols), i requires 0 <= i < MinLength(cols) => seq(|cols|, j requires 0 <= j < |cols| => cols[j][i]))
  }

  /** Reading one file's column: each model's value in turn; the first missing one raises. */
  method ReadColumn(doc: Json, models: seq<string>, region: string, statistic: string, season: string)
    returns (values: Option<seq<Cell>>)
    ensures values == SeasonColumn(doc, models, region, statistic, season)
  {
    var read: seq<Cell> := [];
    for i := 0 to |models|
      invariant SeasonColumn(doc, models[..i], region, statistic, season) == Some(read)
    {
      assert models[..i + 1][..i] == models[..i];
      var v := ValueAt(doc, models[i], region, statistic, season);
      if v.None? {
        assert SeasonColumn(doc, models[..i + 1], region, statistic, season).None?;
        SeasonColumnPrefix(doc, models, i + 1, region, statistic, season);
        return None;
      }
      read := read + [Value(v.value)];
    }
    assert models[..|models|] == models;
    values := Some(read);
  }

  /** One file of the loop: its model names as labels and its column of values, if it has them. */
  method ReadFile(file: JsonFile, region: string, statistic: string, season: string)
    returns (labels: seq<Cell>, values: Option<seq<Cell>>)
    ensures values == FileColumn(file, region, statistic, season)
    ensures values.Some? ==> labels == Labels(ModelsOf(file.doc).value)
  {
    var modelsList := ModelsOf(file.doc);
    if modelsList.None? {
      return [], None;
    }
    var models := modelsList.value;
    labels := Labels(models);
    values := ReadColumn(file.doc, models, region, statistic, season);
  }

  lemma HeaderStep(files: seq<JsonFile>, f: JsonFile)
    ensures VariablesOf(Paths(files + [f]), '.') == VariablesOf(Paths(files), '.') + [VariableOf(f.path, '.')]
  {
  }

  lemma ReadableStep(files: seq<JsonFile>, f: JsonFile, region: string, statistic: string, season: string)
    ensures AllReadable(files + [f], region, statistic, season)
      <==> AllReadable(files, region, statistic, season) && FileColumn(f, region, statistic, season).Some?
  {
    assert forall k :: 0 <= k < |files| ==> (files + [f])[k] == files[k];
    assert (files + [f])[|files|] == f;
  }

  lemma TableStep(files: seq<JsonFile>, f: JsonFile, region: string, statistic: string, season: string)
    requires AllReadable(files + [f], region, statistic, season)
    ensures AllReadable(files, region, statistic, season) && FileColumn(f, region, statistic, season).Some?
    ensures files == [] ==>
              SeasonTable(files + [f], region, statistic, season)
              == [Labels(ModelsOf(f.doc).value), FileColumn(f, region, statistic, season).value]
    ensures files != [] ==>
              SeasonTable(files + [f], region, statistic, season)
              == SeasonTable(files, region, statistic, season) + [FileColumn(f, region, statistic, season).value]
  {
    ReadableStep(files, f, region, statistic, season);
    if files != [] {
      assert (files + [f])[0] == files[0];
    }
  }

  /** The loop state of `CollectColumns` after the first `j` files. */
  ghost predicate CollectedUpTo(sorted: seq<JsonFile>, j: nat, header: seq<string>, output: seq<seq<Cell>>,
                                region: string, statistic: string, season: string)
    requires j <= |sorted|
  {
    header == [ModelNameColumn] + VariablesOf(Paths(sorted[..j]), '.') &&
    AllReadable(sorted[..j], region, statistic, season) &&
    (j == 0 ==> output == []) &&
    (j > 0 ==> output == SeasonTable(sorted[..j], region, statistic, season))
  }

  /** The columns after one more readable file: the labels first if it is the first file, then its values. */
  lemma ColumnsStep(done: seq<JsonFile>, file: JsonFile, output: seq<seq<Cell>>, labels: seq<Cell>, values: seq<Cell>,
                    region: string, statistic: string, season: string)
    requires AllReadable(done, region, statistic, season)
    requires done == [] ==> output == []
    requires done != [] ==> output == SeasonTable(done, region, statistic, season)
    requires FileColumn(file, region, statistic, season) == Some(values)
    requires labels == Labels(ModelsOf(file.doc).value)
    ensures AllReadable(done + [file], region, statistic, season)
    ensures (if output == [] then [labels] else output) + [values] == SeasonTable(done + [file], region, statistic, season)
  {
    ReadableStep(done, file, region, statistic, season);
    TableStep(done, file, region, statistic, season);
    if done != [] {
      assert output != [];
    }
  }

  lemma CollectedStep(sorted: seq<JsonFile>, j: nat, header: seq<string>, output: seq<seq<Cell>>,
                      labels: seq<Cell>, values: seq<Cell>, region: string, statistic: string, season: string)
    requires j < |sorted| && CollectedUpTo(sorted, j, header, output, region, statistic, season)
    requires FileColumn(sorted[j], region, statistic, season) == Some(values)
    requires labels == Labels(ModelsOf(sorted[j].doc).value)
    ensures CollectedUpTo(sorted, j + 1, header + [VariableOf(sorted[j].path, '.')],
                          (if output == [] then [labels] else output) + [values], region, statistic, season)
  {
    var file := sorted[j];
    var done := sorted[..j];
    assert sorted[..j + 1] == done + [file];
    HeaderStep(done, file);
    assert header + [VariableOf(file.path, '.')] == [ModelNameColumn] + VariablesOf(Paths(sorted[..j + 1]), '.');
    ColumnsStep(done, file, output, labels, values, region, statistic, season);
    assert AllReadable(sorted[..j + 1], region, statistic, season);
    assert (if output == [] then [labels] else output) + [values] == SeasonTable(sorted[..j + 1], region, statistic, season);
  }

  /** The header and the columns of the season table over files already in path order. */
  method CollectColumns(sorted: seq<JsonFile>, region: string, statistic: string, season: string)
    returns (r: Option<(seq<string>, seq<seq<Cell>>)>)
    ensures r.None? <==> !AllReadable(sorted, region, statistic, season)
    ensures r.Some? ==> r.value.0 == [ModelNameColumn] + VariablesOf(Paths(sorted), '.')
    ensures r.Some? && sorted == [] ==> r.value.1 == []
    ensures r.Some? && sorted != [] ==> r.value.1 == SeasonTable(sorted, region, statistic, season)
  {
    var header := [ModelNameColumn];
    var output: seq<seq<Cell>> := [];
    for j := 0 to |sorted|
      invariant CollectedUpTo(sorted, j, header, output, region, statistic, season)
    {
      var file := sorted[j];
      var labels, values := ReadFile(file, region, statistic, season);
      if values.None? {
        assert FileColumn(sorted[j], region, statistic, season).None?;
        return None;
      }
      CollectedStep(sorted, j, header, output, labels, values.value, region, statistic, season);
      header := header + [VariableOf(file.path, '.')];
      if output == [] {
        output := output + [labels];
      }
      output := output + [values.value];
    }
    assert sorted[..|sorted|] == sorted;
    r := Some((header, output));
  }

  /**
   * `all_variables_by_season`: files in path order, one header column per file named after
   * its variable; the model names of the first file make the first column, and each file
   * adds the column of its values; any missing value stops the table.
   */
  method AllVariablesBySeason(season: string, gen: string, region: string, statistic: string, listing: seq<JsonFile>)
    returns (r: Result<Csv, Failure>)
    ensures r.Err? <==> !AllReadable(SortBy(listing, PathOf), region, statistic, season)
    ensures r.Ok? ==> r.value.name == AllVariablesPath(season, gen, region, statistic)
    ensures r.Ok? ==> r.value.header == [ModelNameColumn] + VariablesOf(Paths(SortBy(listing, PathOf)), '.')
    ensures r.Ok? && listing == [] ==> r.value.rows == []
    ensures r.Ok? && listing != [] ==> r.value.rows == Zip(SeasonTable(SortBy(listing, PathOf), region, statistic, season))
  {
    var sorted := SortBy(listing, PathOf);
    var columns := CollectColumns(sorted, region, statistic, season);
    if columns.None? {
      return Err(Raised);
    }
    var (header, output) := columns.value;
    var rows := Zip(output);
    r := Ok(Csv(AllVariablesPath(season, gen, region, statistic), header, rows));
  }

  /** A column that fails on a prefix of the models fails on all of them. */
  lemma SeasonColumnPrefix(doc: Json, models: seq<string>, n: nat, region: string, statistic: string, season: string)
    requires n <= |models| && SeasonColumn(doc, models[..n], region, statistic, season).None?
    ensures SeasonColumn(doc, models, region, statistic, season).None?
  {
    SeasonColumnMeans(doc, models[..n], region, statistic, season);
    SeasonColumnMeans(doc, models, region, statistic, season);
    var i :| 0 <= i < n && ValueAt(doc, models[..n][i], region, statistic, season).None?;
    assert models[..n][i] == models[i];
  }

  /** `get_variables_from_json_filenames` of the parser: file names cut at the first `.`, sorted. */
  method VariablesFromJsonFileNames(paths: seq<string>) returns (variables: seq<string>)
    ensures SortedBy(variables, Self)
    ensures multiset(variables) == multiset(VariablesOf(paths, '.'))
    ensures forall v :: v in variables ==> '.' !in v
  {
    variables := VariablesFromFileNames(paths, '.');
    forall v | v in variables
      ensures '.' !in v
    {
      assert v in multiset(VariablesOf(paths, '.'));
      var k :| 0 <= k < |paths| && VariablesOf(paths, '.')[k] == v;
      VariableOfMeans(paths[k], '.');
    }
  }
}
