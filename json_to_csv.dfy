/**
 * `app/json_to_csv_mean_climate.py`: one CSV table per metrics file, one row per
 * `model_run`. The `output` dictionary is created once by the main loop and handed to the
 * conversion of every file, so what one file stored under a `model_run` is still there when
 * a later file cannot read that `model_run` again.
 */
module JsonToCsv {
  import opened Wrappers
  import opened Text
  import opened Sorting
  import opened Seqs
  import opened JsonModel
  import opened CsvRows
  import opened Results

  const ReferenceModel := "ACCESS1-0"
  const ReferenceKey := "defaultReference"

  /** The settings of the main loop. */
  const OnePerModel := true
  const MainRegion := "global"
  const MainStatistic := "rms_xy"

  /** The header seasons: the keys of `RESULTS["ACCESS1-0"]["defaultReference"]["r1i1p1"][region][statistic]`. */
  function SeasonList(doc: Json, region: string, statistic: string): Option<seq<string>> {
    match At(doc, [ResultsKey, ReferenceModel, ReferenceKey, DefaultRun, region, statistic])
    case Some(j) => Keys(j)
    case None => None
  }

  /** `RESULTS[model]["defaultReference"].keys()`; `None` when that raises and the model is skipped. */
  function RunKeys(doc: Json, model: string): Option<seq<string>> {
    match At(doc, [ResultsKey, model, ReferenceKey])
    case Some(j) => Keys(j)
    case None => None
  }

  /** What one run stores: `[run][region]` must be an object (its `.keys()` is taken), and its `statistic` entry is read. */
  function StatisticOf(doc: Json, model: string, run: string, region: string, statistic: string): Option<Json> {
    match At(doc, [ResultsKey, model, ReferenceKey, run, region])
    case Some(Object(fs)) => Get(Object(fs), statistic)
    case _ => None
  }

  /** The passes of the inner loop for `model` over `runs`. */
  function RunVisits(doc: Json, model: string, runs: seq<string>, region: string, statistic: string, onePerModel: bool)
    : (vs: seq<Visit<Json>>)
    ensures |vs| == |runs|
    ensures forall k :: 0 <= k < |runs| ==>
              vs[k] == Visit(ModelRun(model, runs[k], onePerModel), StatisticOf(doc, model, runs[k], region, statistic))
  {
    seq(|runs|, k requires 0 <= k < |runs| =>
      Visit(ModelRun(model, runs[k], onePerModel), StatisticOf(doc, model, runs[k], region, statistic)))
  }

  /** The passes for one model: none when its run keys cannot be read. */
  function ModelVisits(doc: Json, model: string, region: string, statistic: string, onePerModel: bool): seq<Visit<Json>> {
    match RunKeys(doc, model)
    case None => []
    case Some(keys) => RunVisits(doc, model, RunsTried(keys, onePerModel), region, statistic, onePerModel)
  }

  /** The passes of the whole model loop over `models`, in that order. */
  function Visits(doc: Json, models: seq<string>, region: string, statistic: string, onePerModel: bool): seq<Visit<Json>> {
    if models == [] then []
    else
      Visits(doc, models[..|models| - 1], region, statistic, onePerModel)
      + ModelVisits(doc, models[|models| - 1], region, statistic, onePerModel)
  }

  /** The placeholder `{}` stored before a lookup. */
  const Placeholder := Object([])

  /** `convert_to_csv`: the table written for `file` and the shared dictionary after it. */
  function Converted(file: JsonFile, region: string, statistic: string, onePerModel: bool, entries: map<string, Json>)
    : (Result<Csv, Failure>, map<string, Json>)
  {
    match ModelsOf(file.doc)
    case None => (Err(Raised), entries)
    case Some(models) =>
      match SeasonList(file.doc, region, statistic)
      case None => (Err(Raised), entries)
      case Some(seasons) =>
        var visits := Visits(file.doc, SortBy(models, Lower), region, statistic, onePerModel);
        var after := StoreAll(entries, visits, Placeholder);
        (Ok(Csv(file.path + ".csv", [ModelNameColumn] + seasons, RowsFor(Dedup(Names(visits)), after, seasons))), after)
  }

  /**
   * A file converts exactly when its `RESULTS` keys and the reference model's seasons can be
   * read; its table is then named after the file plus ".csv" and headed by `model_name` and
   * those seasons. A file that cannot be converted leaves the shared dictionary as it was.
   */
  lemma ConvertedTable(file: JsonFile, region: string, statistic: string, onePerModel: bool, entries: map<string, Json>)
    ensures Converted(file, region, statistic, onePerModel, entries).0.Ok? <==>
              ModelsOf(file.doc).Some? && SeasonList(file.doc, region, statistic).Some?
    ensures Converted(file, region, statistic, onePerModel, entries).0.Ok? ==>
              Converted(file, region, statistic, onePerModel, entries).0.value.name == file.path + ".csv" &&
              Converted(file, region, statistic, onePerModel, entries).0.value.header
                == [ModelNameColumn] + SeasonList(file.doc, region, statistic).value
    ensures Converted(file, region, statistic, onePerModel, entries).0.Err? ==>
              Converted(file, region, statistic, onePerModel, entries).1 == entries
  {
  }

  /** `main`: the files converted in listing order with one shared dictionary; the first failure stops the loop. */
  function ConvertedAll(listing: seq<JsonFile>, region: string, statistic: string, onePerModel: bool, entries: map<string, Json>)
    : (Result<seq<Csv>, Failure>, map<string, Json>)
  {
    if listing == [] then (Ok([]), entries)
    else
      var (prior, mid) := ConvertedAll(listing[..|listing| - 1], region, statistic, onePerModel, entries);
      if prior.Err? then (prior, mid)
      else
        var (r, after) := Converted(listing[|listing| - 1], region, statistic, onePerModel, mid);
        if r.Err? then (Err(r.error), after) else (Ok(prior.value + [r.value]), after)
  }

  /** The `output` dictionary shared by the conversions. */
  class OutputTable {
    var entries: map<string, Json>

    constructor ()
      ensures entries == map[]
    {
      entries := map[];
    }
  }

  /**
   * One pass of the inner loop: `model_run` joins the list unless it is there, gets the
   * placeholder unless it has an entry, and gets the statistic when the lookup succeeds.
   */
  method VisitRun(doc: Json, model: string, run: string, region: string, statistic: string, onePerModel: bool,
                  output: OutputTable, runList: seq<string>, ghost prior: seq<Visit<Json>>, ghost base: map<string, Json>)
    returns (runList': seq<string>)
    requires runList == Dedup(Names(prior)) && output.entries == StoreAll(base, prior, Placeholder)
    modifies output
    ensures runList' == Dedup(Names(prior + [Visit(ModelRun(model, run, onePerModel), StatisticOf(doc, model, run, region, statistic))]))
    ensures output.entries
         == StoreAll(base, prior + [Visit(ModelRun(model, run, onePerModel), StatisticOf(doc, model, run, region, statistic))], Placeholder)
  {
    var modelRun := ModelRun(model, run, onePerModel);
    runList' := runList;
    if modelRun !in runList' {
      runList' := runList' + [modelRun];
    }
    if modelRun !in output.entries {
      output.entries := output.entries[modelRun := Placeholder];
    }
    var seasons := StatisticOf(doc, model, run, region, statistic);
    if seasons.Some? {
      output.entries := output.entries[modelRun := seasons.value];
    }
    var v := Visit(modelRun, seasons);
    NamesAppend(prior, v);
    DedupAppend(Names(prior), modelRun);
    StoreAllAppend(base, prior, v, Placeholder);
  }

  lemma RunVisitsNone(done: seq<Visit<Json>>, doc: Json, model: string, runs: seq<string>, region: string, statistic: string,
                      onePerModel: bool)
    ensures done + RunVisits(doc, model, runs[..0], region, statistic, onePerModel) == done
  {
    assert RunVisits(doc, model, runs[..0], region, statistic, onePerModel) == [];
  }

  lemma RunVisitsStep(done: seq<Visit<Json>>, doc: Json, model: string, runs: seq<string>, k: nat, region: string,
                      statistic: string, onePerModel: bool)
    requires k < |runs|
    ensures done + RunVisits(doc, model, runs[..k + 1], region, statistic, onePerModel)
         == done + RunVisits(doc, model, runs[..k], region, statistic, onePerModel)
            + [Visit(ModelRun(model, runs[k], onePerModel), StatisticOf(doc, model, runs[k], region, statistic))]
  {
    assert RunVisits(doc, model, runs[..k + 1], region, statistic, onePerModel)
        == RunVisits(doc, model, runs[..k], region, statistic, onePerModel)
           + [Visit(ModelRun(model, runs[k], onePerModel), StatisticOf(doc, model, runs[k], region, statistic))];
  }

  /** The inner loop over the runs tried for `model`. */
  method VisitRuns(doc: Json, model: string, runs: seq<string>, region: string, statistic: string, onePerModel: bool,
                   output: OutputTable, runList: seq<string>, ghost done: seq<Visit<Json>>, ghost base: map<string, Json>)
    returns (runList': seq<string>)
    requires runList == Dedup(Names(done)) && output.entries == StoreAll(base, done, Placeholder)
    modifies output
    ensures runList' == Dedup(Names(done + RunVisits(doc, model, runs, region, statistic, onePerModel)))
    ensures output.entries == StoreAll(base, done + RunVisits(doc, model, runs, region, statistic, onePerModel), Placeholder)
  {
    runList' := runList;
    RunVisitsNone(done, doc, model, runs, region, statistic, onePerModel);
    for k := 0 to |runs|
      invariant runList' == Dedup(Names(done + RunVisits(doc, model, runs[..k], region, statistic, onePerModel)))
      invariant output.entries == StoreAll(base, done + RunVisits(doc, model, runs[..k], region, statistic, onePerModel), Placeholder)
    {
      ghost var prior := done + RunVisits(doc, model, runs[..k], region, statistic, onePerModel);
      runList' := VisitRun(doc, model, runs[k], region, statistic, onePerModel, output, runList', prior, base);
      RunVisitsStep(done, doc, model, runs, k, region, statistic, onePerModel);
    }
    assert runs[..|runs|] == runs;
  }

  lemma VisitsNext(doc: Json, models: seq<string>, i: nat, region: string, statistic: string, onePerModel: bool)
    requires i < |models|
    ensures Visits(doc, models[..i + 1], region, statistic, onePerModel)
         == Visits(doc, models[..i], region, statistic, onePerModel) + ModelVisits(doc, models[i], region, statistic, onePerModel)
  {
    assert models[..i + 1][..i] == models[..i];
  }

  /** The model loop: the `model_run` names handled, once each, and the stores into `output`. */
  method VisitModels(doc: Json, sorted: seq<string>, region: string, statistic: string, onePerModel: bool, output: OutputTable)
    returns (runList: seq<string>)
    modifies output
    ensures runList == Dedup(Names(Visits(doc, sorted, region, statistic, onePerModel)))
    ensures output.entries == StoreAll(old(output.entries), Visits(doc, sorted, region, statistic, onePerModel), Placeholder)
  {
    runList := [];
    for i := 0 to |sorted|
      invariant runList == Dedup(Names(Visits(doc, sorted[..i], region, statistic, onePerModel)))
      invariant output.entries == StoreAll(old(output.entries), Visits(doc, sorted[..i], region, statistic, onePerModel), Placeholder)
    {
      ghost var done := Visits(doc, sorted[..i], region, statistic, onePerModel);
      VisitsNext(doc, sorted, i, region, statistic, onePerModel);
      var runKeys := RunKeys(doc, sorted[i]);
      if runKeys.Some? {
        var runs := RunsTried(runKeys.value, onePerModel);
        runList := VisitRuns(doc, sorted[i], runs, region, statistic, onePerModel, output, runList, done, old(output.entries));
      } else {
        assert done + [] == done;
      }
    }
    assert sorted[..|sorted|] == sorted;
  }

  /** `convert_to_csv(filename, region, statistic, output)`, with the shared dictionary passed in. */
  method ConvertToCsv(file: JsonFile, region: string, statistic: string, onePerModel: bool, output: OutputTable)
    returns (r: Result<Csv, Failure>)
    modifies output
    ensures (r, output.entries) == Converted(file, region, statistic, onePerModel, old(output.entries))
  {
    var modelsList := ModelsOf(file.doc);
    if modelsList.None? {
      return Err(Raised);
    }
    var seasonList := SeasonList(file.doc, region, statistic);
    if seasonList.None? {
      return Err(Raised);
    }
    var sorted := SortBy(modelsList.value, Lower);
    var runList := VisitModels(file.doc, sorted, region, statistic, onePerModel, output);
    var rows := WriteRows(runList, output.entries, seasonList.value);
    r := Ok(Csv(file.path + ".csv", [ModelNameColumn] + seasonList.value, rows));
  }

  /** Once a file fails, the files after it change nothing. */
  lemma {:induction false} ConvertedAllStops(listing: seq<JsonFile>, n: nat, region: string, statistic: string,
                                             onePerModel: bool, entries: map<string, Json>)
    requires n <= |listing|
    requires ConvertedAll(listing[..n], region, statistic, onePerModel, entries).0.Err?
    ensures ConvertedAll(listing, region, statistic, onePerModel, entries).0
         == ConvertedAll(listing[..n], region, statistic, onePerModel, entries).0
  {
    if n < |listing| {
      var init := listing[..|listing| - 1];
      assert init[..n] == listing[..n];
      ConvertedAllStops(init, n, region, statistic, onePerModel, entries);
    } else {
      assert listing[..n] == listing;
    }
  }

  /** `main()`: every listed file converted with `region` "global", `statistic` "rms_xy" and one run per model. */
  method ConvertAll(listing: seq<JsonFile>) returns (r: Result<seq<Csv>, Failure>)
    ensures r == ConvertedAll(listing, MainRegion, MainStatistic, OnePerModel, map[]).0
  {
    var output := new OutputTable();
    var tables: seq<Csv> := [];
    for i := 0 to |listing|
      invariant ConvertedAll(listing[..i], MainRegion, MainStatistic, OnePerModel, map[]) == (Ok(tables), output.entries)
    {
      assert listing[..i + 1][..i] == listing[..i];
      var table := ConvertToCsv(listing[i], MainRegion, MainStatistic, OnePerModel, output);
      if table.Err? {
        ConvertedAllStops(listing, i + 1, MainRegion, MainStatistic, OnePerModel, map[]);
        return Err(table.error);
      }
      tables := tables + [table.value];
    }
    assert listing[..|listing|] == listing;
    r := Ok(tables);
  }

  /** The models whose run keys can be read, in the order given. */
  function ReadableModels(doc: Json, models: seq<string>): (r: seq<string>)
    ensures forall m :: m in r ==> m in models && RunKeys(doc, m).Some?
  {
    if models == [] then []
    else
      var prior := ReadableModels(doc, models[..|models| - 1]);
      var m := models[|models| - 1];
      if RunKeys(doc, m).Some? then prior + [m] else prior
  }

  /** With one run per model each readable model is visited once, under its own name, and only run `r1i1p1` is read. */
  lemma {:induction false} OnePerModelVisits(doc: Json, models: seq<string>, region: string, statistic: string)
    ensures Names(Visits(doc, models, region, statistic, true)) == ReadableModels(doc, models)
    ensures forall v :: v in Visits(doc, models, region, statistic, true) ==>
              v.entry == StatisticOf(doc, v.modelRun, DefaultRun, region, statistic)
  {
    if models != [] {
      var init := models[..|models| - 1];
      var m := models[|models| - 1];
      OnePerModelVisits(doc, init, region, statistic);
      var prior := Visits(doc, init, region, statistic, true);
      if RunKeys(doc, m).Some? {
        var v := Visit(m, StatisticOf(doc, m, DefaultRun, region, statistic));
        assert ModelVisits(doc, m, region, statistic, true) == [v];
        NamesAppend(prior, v);
      } else {
        assert prior + [] == prior;
      }
    }
  }

  /** Keeping only the readable models keeps the order by key and the absence of repeats. */
  lemma {:induction false} ReadableKeepsOrder(doc: Json, models: seq<string>, key: string -> string)
    requires SortedBy(models, key) && NoDuplicates(models)
    ensures SortedBy(ReadableModels(doc, models), key) && NoDuplicates(ReadableModels(doc, models))
  {
    if models != [] {
      var init := models[..|models| - 1];
      var m := models[|models| - 1];
      assert forall i :: 0 <= i < |init| ==> init[i] == models[i];
      ReadableKeepsOrder(doc, init, key);
      forall x | x in ReadableModels(doc, init)
        ensures AtMost(key(x), key(m)) && x != m
      {
        var i :| 0 <= i < |init| && init[i] == x;
        assert models[i] == x;
      }
    }
  }

  /** `model_run_list` with one run per model: the readable models, each once, in case-insensitive order. */
  lemma OnePerModelRunList(doc: Json, models: seq<string>, region: string, statistic: string)
    requires NoDuplicates(models)
    ensures Dedup(Names(Visits(doc, SortBy(models, Lower), region, statistic, true))) == ReadableModels(doc, SortBy(models, Lower))
    ensures SortedBy(ReadableModels(doc, SortBy(models, Lower)), Lower)
  {
    var sorted := SortBy(models, Lower);
    SortBySorted(models, Lower);
    DistinctPermutation(models, sorted);
    OnePerModelVisits(doc, sorted, region, statistic);
    ReadableKeepsOrder(doc, sorted, Lower);
    DedupOfDistinct(ReadableModels(doc, sorted));
  }

  /** Every name of the run list has an entry once the visits are stored, so reading `output[model_run]` for its row cannot raise. */
  lemma RunListHasEntries(entries: map<string, Json>, visits: seq<Visit<Json>>)
    ensures forall n :: n in Dedup(Names(visits)) ==> n in StoreAll(entries, visits, Placeholder)
  {
    StoreAllKeys(entries, visits, Placeholder);
  }

  /**
   * The shared dictionary after a file: a `model_run` the file read successfully holds what
   * it read last; one it could not read keeps what earlier files left there, so the file's
   * row for it repeats their values.
   */
  lemma SharedOutputCarriesOver(file: JsonFile, region: string, statistic: string, onePerModel: bool,
                                entries: map<string, Json>, n: string)
    requires Converted(file, region, statistic, onePerModel, entries).0.Ok?
    requires n in entries
    ensures n in Converted(file, region, statistic, onePerModel, entries).1
    ensures Converted(file, region, statistic, onePerModel, entries).1[n] ==
              match LastEntry(Visits(file.doc, SortBy(ModelsOf(file.doc).value, Lower), region, statistic, onePerModel), n)
              case Some(e) => e
              case None => entries[n]
  {
    var visits := Visits(file.doc, SortBy(ModelsOf(file.doc).value, Lower), region, statistic, onePerModel);
    StoreAllKeys(entries, visits, Placeholder);
    StoreAllValues(entries, visits, Placeholder);
  }
}
