/**
 * `app/convert_json2csv.py`: a script that reads the variability-mode metrics file of each
 * mode and gathers, for every `model_run` and every `mode_season`, the ratio of the model's
 * statistic to the observed reference (`d2[model_run][mode_season] = tmp / ref`). Its three
 * module-level collections (`d2`, `model_run_list`, `mode_season_list`) are the fields of
 * `ModeTables`; a missing file, a missing reference value or a missing `RESULTS` object
 * stops the script, while a failed lookup for one model or run is passed over.
 */
module ConvertJsonToCsv {
  import opened Wrappers
  import opened Text
  import opened Sorting
  import opened Seqs
  import opened JsonModel
  import opened Results

  /** The settings at the top of the script. */
  const DominantSeasonOnly := false
  const OnePerModel := true
  const Modes := ["NAM", "NAO", "SAM", "PNA", "PDO"]
  const Stat := "std_model_pcs"
  const StatRef := "pc1_stdv"
  const ReferenceKey := "defaultReference"

  /** The metrics file of one mode. */
  function ModeFile(mode: string): string {
    ModeFilePrefix + mode + ModeFileSuffix
  }

  const ModeFilePrefix := "var_mode_"
  const ModeFileSuffix := "_EOF1_stat_cmip5_historical_mo_atm_1900-2005_adjust_based_tcor_pseudo_vs_model_pcs.json"

  const AllSeasons := ["DJF", "MAM", "JJA", "SON"]

  /** The seasons read for `mode`: its dominant one alone, or all of them (`monthly` alone for PDO). */
  function SeasonsFor(mode: string, dominantOnly: bool): seq<string> {
    if dominantOnly then
      if mode == "SAM" then ["JJA"] else if mode == "PDO" then ["monthly"] else ["DJF"]
    else if mode == "PDO" then ["monthly"] else AllSeasons
  }

  /** The dominant season is a single season, and one of those read when all are kept. */
  lemma DominantSeasonIsOneOfAll(mode: string)
    ensures |SeasonsFor(mode, true)| == 1 && SeasonsFor(mode, true)[0] in SeasonsFor(mode, false)
    ensures NoDuplicates(SeasonsFor(mode, false))
  {
  }

  /** `'_'.join([mode, season])`. */
  function ModeSeason(mode: string, season: string): string {
    mode + "_" + season
  }

  /** The `mode_season` names of one mode, in season order. */
  function ModeSeasonsOf(mode: string, seasons: seq<string>): (ms: seq<string>)
    ensures |ms| == |seasons| && forall k :: 0 <= k < |seasons| ==> ms[k] == ModeSeason(mode, seasons[k])
  {
    seq(|seasons|, k requires 0 <= k < |seasons| => ModeSeason(mode, seasons[k]))
  }

  /** `mode_season_list` for `modes`: each mode's seasons in turn. */
  function ModeSeasons(modes: seq<string>, dominantOnly: bool): seq<string> {
    if modes == [] then []
    else
      var mode := modes[|modes| - 1];
      ModeSeasons(modes[..|modes| - 1], dominantOnly) + ModeSeasonsOf(mode, SeasonsFor(mode, dominantOnly))
  }

  /** The configured run reads seventeen `mode_season` columns: four for each mode but PDO, one for PDO. */
  lemma ConfiguredModeSeasons()
    ensures |ModeSeasons(Modes, DominantSeasonOnly)| == 17
  {
    var modes := Modes;
    var k := 0;
    assert modes[..0] == [];
    while k < 5
      invariant k <= 5
      invariant |ModeSeasons(modes[..k], false)| == 4 * k - (if k == 5 then 3 else 0)
    {
      ModeSeasonsPrefix(modes, k, false);
      k := k + 1;
    }
    assert modes[..5] == modes;
  }

  lemma ModeSeasonsPrefix(modes: seq<string>, k: nat, dominantOnly: bool)
    requires k < |modes|
    ensures ModeSeasons(modes[..k + 1], dominantOnly)
         == ModeSeasons(modes[..k], dominantOnly) + ModeSeasonsOf(modes[k], SeasonsFor(modes[k], dominantOnly))
  {
    assert modes[..k + 1][..k] == modes[..k];
  }

  /** Every season read for every mode gives a `mode_season` in the list, and each mode adds at most four. */
  lemma {:induction false} ModeSeasonsCover(modes: seq<string>, dominantOnly: bool, mode: string, season: string)
    ensures mode in modes && season in SeasonsFor(mode, dominantOnly) ==> ModeSeason(mode, season) in ModeSeasons(modes, dominantOnly)
    ensures |ModeSeasons(modes, dominantOnly)| <= 4 * |modes|
    decreases |modes|
  {
    if modes != [] {
      var last := modes[|modes| - 1];
      ModeSeasonsCover(modes[..|modes| - 1], dominantOnly, mode, season);
      assert modes == modes[..|modes| - 1] + [last];
      if mode == last && season in SeasonsFor(mode, dominantOnly) {
        var i :| 0 <= i < |SeasonsFor(mode, dominantOnly)| && SeasonsFor(mode, dominantOnly)[i] == season;
        assert ModeSeasonsOf(mode, SeasonsFor(mode, dominantOnly))[i] == ModeSeason(mode, season);
      }
    }
  }

  /** A `d2[model_run][mode_season]` value: the placeholder `{}`, or the quotient `tmp / ref`. */
  datatype Entry = Placeholder | Ratio(tmp: int, ref: int)

  /** What `j` is in Python arithmetic: a number, or a boolean as 0 or 1; other values raise `TypeError`. */
  function Arithmetic(j: Json): Option<int> {
    match j
    case Number(n) => Some(n)
    case Bool(b) => Some(if b then 1 else 0)
    case _ => None
  }

  /**
   * `tmp / ref`: both must take part in arithmetic, `ref` must not be zero (`ZeroDivisionError`)
   * and the quotient, rounded to a double, must be finite (`OverflowError`).
   */
  function Divide(tmp: Json, ref: Json): Option<Entry> {
    match (Arithmetic(tmp), Arithmetic(ref))
    case (Some(t), Some(r)) =>
      if r == 0 then None
      else if Abs(t) >= FloatOverflow * Abs(r) then None
      else Some(Ratio(t, r))
    case _ => None
  }

  function Abs(n: int): nat {
    if n < 0 then -n else n
  }

  /**
   * Only the quotient must fit a double: a `tmp` at the overflow bound raises over 1 and
   * divides over 2, and so does a `ref` of `true`, which counts as 1.
   */
  lemma QuotientOverflow()
    ensures Divide(Number(FloatOverflow), Number(1)) == None
    ensures Divide(Number(FloatOverflow), Bool(true)) == None
    ensures Divide(Number(-FloatOverflow), Number(2)) == Some(Ratio(-FloatOverflow, 2))
    ensures Divide(Number(FloatOverflow - 1), Number(-1)) == Some(Ratio(FloatOverflow - 1, -1))
  {
  }

  /** `d["REF"]["obs"]["defaultReference"][mode][season][stat_ref]`. */
  function RefOf(doc: Json, mode: string, season: string): Option<Json> {
    At(doc, ["REF", "obs", ReferenceKey, mode, season, StatRef])
  }

  /** `d["RESULTS"][model].keys()`; `None` when that raises and the model is skipped. */
  function RunKeys(doc: Json, model: string): Option<seq<string>> {
    match At(doc, [ResultsKey, model])
    case Some(j) => Keys(j)
    case None => None
  }

  /** The ratio stored for one run: `d["RESULTS"][model][run]["defaultReference"][mode][season][stat] / ref`. */
  function EntryOf(doc: Json, model: string, run: string, mode: string, season: string, ref: Json): Option<Entry> {
    match At(doc, [ResultsKey, model, run, ReferenceKey, mode, season, Stat])
    case Some(tmp) => Divide(tmp, ref)
    case None => None
  }

  /** The passes of the inner loop for `model` over `runs`. */
  function RunVisits(doc: Json, model: string, runs: seq<string>, mode: string, season: string, ref: Json, onePerModel: bool)
    : (vs: seq<Visit<Entry>>)
    ensures |vs| == |runs|
    ensures forall k :: 0 <= k < |runs| ==>
              vs[k] == Visit(ModelRun(model, runs[k], onePerModel), EntryOf(doc, model, runs[k], mode, season, ref))
  {
    seq(|runs|, k requires 0 <= k < |runs| =>
      Visit(ModelRun(model, runs[k], onePerModel), EntryOf(doc, model, runs[k], mode, season, ref)))
  }

  lemma RunVisitsNone(done: seq<Visit<Entry>>, doc: Json, model: string, runs: seq<string>, mode: string, season: string,
                      ref: Json, onePerModel: bool)
    ensures done + RunVisits(doc, model, runs[..0], mode, season, ref, onePerModel) == done
  {
    assert RunVisits(doc, model, runs[..0], mode, season, ref, onePerModel) == [];
  }

  lemma RunVisitsStep(done: seq<Visit<Entry>>, doc: Json, model: string, runs: seq<string>, k: nat, mode: string,
                      season: string, ref: Json, onePerModel: bool)
    requires k < |runs|
    ensures done + RunVisits(doc, model, runs[..k + 1], mode, season, ref, onePerModel)
         == done + RunVisits(doc, model, runs[..k], mode, season, ref, onePerModel)
            + [Visit(ModelRun(model, runs[k], onePerModel), EntryOf(doc, model, runs[k], mode, season, ref))]
  {
    assert RunVisits(doc, model, runs[..k + 1], mode, season, ref, onePerModel)
        == RunVisits(doc, model, runs[..k], mode, season, ref, onePerModel)
           + [Visit(ModelRun(model, runs[k], onePerModel), EntryOf(doc, model, runs[k], mode, season, ref))];
  }

  /** The passes for one model: none when its run keys cannot be read. */
  function ModelVisits(doc: Json, model: string, mode: string, season: string, ref: Json, onePerModel: bool): seq<Visit<Entry>> {
    match RunKeys(doc, model)
    case None => []
    case Some(keys) => RunVisits(doc, model, RunsTried(keys, onePerModel), mode, season, ref, onePerModel)
  }

  /** The passes of the model loop over `models`, in that order. */
  function Visits(doc: Json, models: seq<string>, mode: string, season: string, ref: Json, onePerModel: bool): seq<Visit<Entry>> {
    if models == [] then []
    else
      Visits(doc, models[..|models| - 1], mode, season, ref, onePerModel)
      + ModelVisits(doc, models[|models| - 1], mode, season, ref, onePerModel)
  }

  /** The three collections of the script. */
  datatype Tables = Tables(d2: map<string, map<string, Entry>>, runList: seq<string>, modeSeasons: seq<string>)

  const Empty := Tables(map[], [], [])

  /** One pass: the row of `model_run` is created if absent, then its `mode_season` entry is stored. */
  function StoreRatio(d2: map<string, map<string, Entry>>, ms: string, v: Visit<Entry>): map<string, map<string, Entry>> {
    d2[v.modelRun := StoreEntry(if v.modelRun in d2 then d2[v.modelRun] else map[], ms, v.entry, Placeholder)]
  }

  function StoreRatios(d2: map<string, map<string, Entry>>, ms: string, vs: seq<Visit<Entry>>): map<string, map<string, Entry>> {
    if vs == [] then d2
    else StoreRatio(StoreRatios(d2, ms, vs[..|vs| - 1]), ms, vs[|vs| - 1])
  }

  lemma StoreRatiosAppend(d2: map<string, map<string, Entry>>, ms: string, vs: seq<Visit<Entry>>, v: Visit<Entry>)
    ensures StoreRatios(d2, ms, vs + [v]) == StoreRatio(StoreRatios(d2, ms, vs), ms, v)
  {
    assert (vs + [v])[..|vs|] == vs;
  }

  /** The row of `n` in `d2`, or the empty row the script creates for it. */
  function RowOf(d2: map<string, map<string, Entry>>, n: string): map<string, Entry> {
    if n in d2 then d2[n] else map[]
  }

  lemma StoreEntryTwice(row: map<string, Entry>, ms: string, e1: Option<Entry>, e2: Option<Entry>)
    ensures StoreEntry(StoreEntry(row, ms, e1, Placeholder), ms, e2, Placeholder)
         == StoreEntry(row, ms, if e2.Some? then e2 else e1, Placeholder)
  {
  }

  /** The visits of a season leave each visited row as one store of its last successful lookup would. */
  lemma {:induction false} StoreRatiosRow(d2: map<string, map<string, Entry>>, ms: string, vs: seq<Visit<Entry>>, n: string)
    ensures n in StoreRatios(d2, ms, vs) <==> n in d2 || n in Names(vs)
    ensures n in d2 && n !in Names(vs) ==> StoreRatios(d2, ms, vs)[n] == d2[n]
    ensures n in Names(vs) ==> StoreRatios(d2, ms, vs)[n] == StoreEntry(RowOf(d2, n), ms, LastEntry(vs, n), Placeholder)
  {
    if vs != [] {
      var init := vs[..|vs| - 1];
      var v := vs[|vs| - 1];
      StoreRatiosRow(d2, ms, init, n);
      NamesAppend(init, v);
      assert vs == init + [v];
      if v.modelRun == n && n in Names(init) {
        StoreEntryTwice(RowOf(d2, n), ms, LastEntry(init, n), v.entry);
      }
    }
  }

  /**
   * After the visits of one season, a visited `model_run` has a `mode_season` cell holding
   * its last successful ratio, else what it held, else the placeholder; its other cells and
   * the rows of the models not visited are unchanged.
   */
  lemma StoreRatiosCells(d2: map<string, map<string, Entry>>, ms: string, vs: seq<Visit<Entry>>, n: string)
    ensures n in StoreRatios(d2, ms, vs) <==> n in d2 || n in Names(vs)
    ensures n in d2 && n !in Names(vs) ==> StoreRatios(d2, ms, vs)[n] == d2[n]
    ensures n in Names(vs) ==> StoreRatios(d2, ms, vs)[n].Keys == RowOf(d2, n).Keys + {ms}
    ensures n in Names(vs) ==>
              StoreRatios(d2, ms, vs)[n][ms]
              == (match LastEntry(vs, n)
                  case Some(e) => e
                  case None => if ms in RowOf(d2, n) then RowOf(d2, n)[ms] else Placeholder)
    ensures n in Names(vs) ==>
              forall other :: other in RowOf(d2, n) && other != ms ==> StoreRatios(d2, ms, vs)[n][other] == RowOf(d2, n)[other]
  {
    StoreRatiosRow(d2, ms, vs, n);
  }

  /** The two collections of model runs name the same runs, each once in `model_run_list`. */
  ghost predicate Consistent(t: Tables) {
    NoDuplicates(t.runList) && forall n :: n in t.runList <==> n in t.d2
  }

  /** A season keeps the run list and the rows in step; the list only grows at its end. */
  lemma SeasonStepKeeps(t: Tables, doc: Json, mode: string, season: string, onePerModel: bool)
    requires Consistent(t) && SeasonStep(t, doc, mode, season, onePerModel).Ok?
    ensures Consistent(SeasonStep(t, doc, mode, season, onePerModel).value)
    ensures t.runList <= SeasonStep(t, doc, mode, season, onePerModel).value.runList
  {
    var ref := RefOf(doc, mode, season).value;
    var models := ModelsOf(doc).value;
    var vs := Visits(doc, SortBy(models, Lower), mode, season, ref, onePerModel);
    var ms := ModeSeason(mode, season);
    forall n ensures n in AppendNew(t.runList, Names(vs)) <==> n in StoreRatios(t.d2, ms, vs) {
      StoreRatiosRow(t.d2, ms, vs, n);
    }
  }

  /** The passes of one season: the models in case-insensitive order. */
  function SeasonVisits(doc: Json, models: seq<string>, mode: string, season: string, ref: Json, onePerModel: bool)
    : seq<Visit<Entry>>
  {
    Visits(doc, SortBy(models, Lower), mode, season, ref, onePerModel)
  }

  /** The collections after the passes `vs` of the season `ms`. */
  function AddSeason(t: Tables, ms: string, vs: seq<Visit<Entry>>): Tables {
    Tables(StoreRatios(t.d2, ms, vs), AppendNew(t.runList, Names(vs)), t.modeSeasons + [ms])
  }

  /** One `season` of `mode`: the reference value, then the model loop. */
  function SeasonStep(t: Tables, doc: Json, mode: string, season: string, onePerModel: bool): Result<Tables, Failure> {
    match RefOf(doc, mode, season)
    case None => Err(Raised)
    case Some(ref) =>
      match ModelsOf(doc)
      case None => Err(Raised)
      case Some(models) =>
        Ok(AddSeason(t, ModeSeason(mode, season), SeasonVisits(doc, models, mode, season, ref, onePerModel)))
  }

  /** The season loop of one mode; the first failure stops it. */
  function SeasonSteps(t: Tables, doc: Json, mode: string, seasons: seq<string>, onePerModel: bool): Result<Tables, Failure> {
    if seasons == [] then Ok(t)
    else
      match SeasonSteps(t, doc, mode, seasons[..|seasons| - 1], onePerModel)
      case Err(e) => Err(e)
      case Ok(mid) => SeasonStep(mid, doc, mode, seasons[|seasons| - 1], onePerModel)
  }

  /** One mode: its file must exist; then its seasons. */
  function ModeStep(t: Tables, files: map<string, Json>, mode: string, dominantOnly: bool, onePerModel: bool)
    : Result<Tables, Failure>
  {
    if ModeFile(mode) !in files then Err(FileNotFound(ModeFile(mode)))
    else SeasonSteps(t, files[ModeFile(mode)], mode, SeasonsFor(mode, dominantOnly), onePerModel)
  }

  /** The mode loop; the first failure stops the script. */
  function ModeSteps(t: Tables, files: map<string, Json>, modes: seq<string>, dominantOnly: bool, onePerModel: bool)
    : Result<Tables, Failure>
  {
    if modes == [] then Ok(t)
    else
      match ModeSteps(t, files, modes[..|modes| - 1], dominantOnly, onePerModel)
      case Err(e) => Err(e)
      case Ok(mid) => ModeStep(mid, files, modes[|modes| - 1], dominantOnly, onePerModel)
  }

  /** The season loop of a mode keeps the run list and the rows in step; the list only grows at its end. */
  lemma {:induction false} SeasonStepsKeep(t: Tables, doc: Json, mode: string, seasons: seq<string>, onePerModel: bool)
    requires Consistent(t) && SeasonSteps(t, doc, mode, seasons, onePerModel).Ok?
    ensures Consistent(SeasonSteps(t, doc, mode, seasons, onePerModel).value)
    ensures t.runList <= SeasonSteps(t, doc, mode, seasons, onePerModel).value.runList
  {
    if seasons != [] {
      var init := seasons[..|seasons| - 1];
      SeasonStepsKeep(t, doc, mode, init, onePerModel);
      var mid := SeasonSteps(t, doc, mode, init, onePerModel).value;
      SeasonStepKeeps(mid, doc, mode, seasons[|seasons| - 1], onePerModel);
      PrefixTransitive(t.runList, mid.runList, SeasonSteps(t, doc, mode, seasons, onePerModel).value.runList);
    }
  }

  lemma SeasonStepColumns(t: Tables, doc: Json, mode: string, season: string, onePerModel: bool)
    requires SeasonStep(t, doc, mode, season, onePerModel).Ok?
    ensures SeasonStep(t, doc, mode, season, onePerModel).value.modeSeasons == t.modeSeasons + [ModeSeason(mode, season)]
  {
  }

  /** The season loop of a mode appends that mode's `mode_season` names, in season order. */
  lemma {:induction false} SeasonStepsColumns(t: Tables, doc: Json, mode: string, seasons: seq<string>, onePerModel: bool)
    requires SeasonSteps(t, doc, mode, seasons, onePerModel).Ok?
    ensures SeasonSteps(t, doc, mode, seasons, onePerModel).value.modeSeasons == t.modeSeasons + ModeSeasonsOf(mode, seasons)
  {
    if seasons != [] {
      var init := seasons[..|seasons| - 1];
      var last := seasons[|seasons| - 1];
      SeasonStepsColumns(t, doc, mode, init, onePerModel);
      var mid := SeasonSteps(t, doc, mode, init, onePerModel).value;
      assert SeasonSteps(t, doc, mode, seasons, onePerModel) == SeasonStep(mid, doc, mode, last, onePerModel);
      SeasonStepColumns(mid, doc, mode, last, onePerModel);
      ModeSeasonsOfAppend(mode, init, last);
      assert seasons == init + [last];
    }
  }

  lemma ModeSeasonsOfAppend(mode: string, seasons: seq<string>, season: string)
    ensures ModeSeasonsOf(mode, seasons + [season]) == ModeSeasonsOf(mode, seasons) + [ModeSeason(mode, season)]
  {
    assert forall k :: 0 <= k < |seasons| ==> (seasons + [season])[k] == seasons[k];
  }

  /** The mode loop keeps the run list and the rows in step; the list only grows at its end. */
  lemma {:induction false} ModeStepsKeep(t: Tables, files: map<string, Json>, modes: seq<string>, dominantOnly: bool,
                                         onePerModel: bool)
    requires Consistent(t) && ModeSteps(t, files, modes, dominantOnly, onePerModel).Ok?
    ensures Consistent(ModeSteps(t, files, modes, dominantOnly, onePerModel).value)
    ensures t.runList <= ModeSteps(t, files, modes, dominantOnly, onePerModel).value.runList
  {
    if modes != [] {
      var init := modes[..|modes| - 1];
      var mode := modes[|modes| - 1];
      ModeStepsKeep(t, files, init, dominantOnly, onePerModel);
      var mid := ModeSteps(t, files, init, dominantOnly, onePerModel).value;
      SeasonStepsKeep(mid, files[ModeFile(mode)], mode, SeasonsFor(mode, dominantOnly), onePerModel);
      PrefixTransitive(t.runList, mid.runList, ModeSteps(t, files, modes, dominantOnly, onePerModel).value.runList);
    }
  }

  /** The `mode_season` list the mode loop builds is that of the modes read. */
  lemma {:induction false} ModeStepsColumns(t: Tables, files: map<string, Json>, modes: seq<string>, dominantOnly: bool,
                                            onePerModel: bool)
    requires ModeSteps(t, files, modes, dominantOnly, onePerModel).Ok?
    ensures ModeSteps(t, files, modes, dominantOnly, onePerModel).value.modeSeasons == t.modeSeasons + ModeSeasons(modes, dominantOnly)
  {
    if modes != [] {
      var init := modes[..|modes| - 1];
      var mode := modes[|modes| - 1];
      ModeStepsColumns(t, files, init, dominantOnly, onePerModel);
      var mid := ModeSteps(t, files, init, dominantOnly, onePerModel).value;
      SeasonStepsColumns(mid, files[ModeFile(mode)], mode, SeasonsFor(mode, dominantOnly), onePerModel);
    }
  }

  /** A mode whose file is missing stops the script with that file named. */
  lemma MissingFileStops(t: Tables, files: map<string, Json>, modes: seq<string>, dominantOnly: bool, onePerModel: bool)
    requires modes != [] && ModeFile(modes[0]) !in files
    ensures ModeSteps(t, files, modes, dominantOnly, onePerModel) == Err(FileNotFound(ModeFile(modes[0])))
  {
    ModeStepsStops(t, files, modes, 1, dominantOnly, onePerModel);
    assert modes[..1][..0] == [];
  }

  /** Once a mode fails, the modes after it change nothing. */
  lemma {:induction false} ModeStepsStops(t: Tables, files: map<string, Json>, modes: seq<string>, n: nat,
                                          dominantOnly: bool, onePerModel: bool)
    requires n <= |modes|
    requires ModeSteps(t, files, modes[..n], dominantOnly, onePerModel).Err?
    ensures ModeSteps(t, files, modes, dominantOnly, onePerModel) == ModeSteps(t, files, modes[..n], dominantOnly, onePerModel)
  {
    if n < |modes| {
      var init := modes[..|modes| - 1];
      assert init[..n] == modes[..n];
      ModeStepsStops(t, files, init, n, dominantOnly, onePerModel);
    } else {
      assert modes[..n] == modes;
    }
  }

  /** Once a season fails, the seasons after it change nothing. */
  lemma {:induction false} SeasonStepsStops(t: Tables, doc: Json, mode: string, seasons: seq<string>, n: nat, onePerModel: bool)
    requires n <= |seasons|
    requires SeasonSteps(t, doc, mode, seasons[..n], onePerModel).Err?
    ensures SeasonSteps(t, doc, mode, seasons, onePerModel) == SeasonSteps(t, doc, mode, seasons[..n], onePerModel)
  {
    if n < |seasons| {
      var init := seasons[..|seasons| - 1];
      assert init[..n] == seasons[..n];
      SeasonStepsStops(t, doc, mode, init, n, onePerModel);
    } else {
      assert seasons[..n] == seasons;
    }
  }

  /** With one run per model, every pass is for a listed model under its own name, reading run `r1i1p1`. */
  lemma {:induction false} OnePerModelVisits(doc: Json, models: seq<string>, mode: string, season: string, ref: Json)
    ensures forall v :: v in Visits(doc, models, mode, season, ref, true) ==>
              v.modelRun in models && v.entry == EntryOf(doc, v.modelRun, DefaultRun, mode, season, ref)
    ensures forall m :: m in models && RunKeys(doc, m).Some? ==> m in Names(Visits(doc, models, mode, season, ref, true))
  {
    if models != [] {
      var init := models[..|models| - 1];
      var m := models[|models| - 1];
      OnePerModelVisits(doc, init, mode, season, ref);
      assert models == init + [m];
      var vs := Visits(doc, models, mode, season, ref, true);
      var last := ModelVisits(doc, m, mode, season, ref, true);
      assert vs == Visits(doc, init, mode, season, ref, true) + last;
      NamesConcat(Visits(doc, init, mode, season, ref, true), last);
      if RunKeys(doc, m).Some? {
        assert last[0].modelRun == m;
        assert Names(last)[0] == m;
      }
    }
  }

  /** The script's three module-level collections. */
  class ModeTables {
    var d2: map<string, map<string, Entry>>
    var modelRunList: seq<string>
    var modeSeasonList: seq<string>

    function State(): Tables
      reads this
    {
      Tables(d2, modelRunList, modeSeasonList)
    }

    constructor ()
      ensures State() == Empty
    {
      d2 := map[];
      modelRunList := [];
      modeSeasonList := [];
    }

    /**
     * One pass of the run loop: `model_run` joins the list unless it is there, gets a row and
     * the placeholder cell unless they exist, and gets the ratio when the lookup succeeds.
     */
    method VisitRun(doc: Json, model: string, run: string, mode: string, season: string, ref: Json, onePerModel: bool)
      returns (ghost v: Visit<Entry>)
      modifies this
      ensures v == Visit(ModelRun(model, run, onePerModel), EntryOf(doc, model, run, mode, season, ref))
      ensures d2 == StoreRatio(old(d2), ModeSeason(mode, season), v)
      ensures modelRunList == if v.modelRun in old(modelRunList) then old(modelRunList) else old(modelRunList) + [v.modelRun]
      ensures modeSeasonList == old(modeSeasonList)
    {
      var ms := ModeSeason(mode, season);
      var modelRun := ModelRun(model, run, onePerModel);
      if modelRun !in modelRunList {
        modelRunList := modelRunList + [modelRun];
      }
      var row := if modelRun in d2 then d2[modelRun] else map[];
      if ms !in row {
        row := row[ms := Placeholder];
      }
      var entry := EntryOf(doc, model, run, mode, season, ref);
      if entry.Some? {
        row := row[ms := entry.value];
      }
      d2 := d2[modelRun := row];
      v := Visit(modelRun, entry);
    }

    /** The run loop of one model. */
    method VisitRuns(doc: Json, model: string, runs: seq<string>, mode: string, season: string, ref: Json, onePerModel: bool,
                     ghost done: seq<Visit<Entry>>, ghost base: Tables)
      requires d2 == StoreRatios(base.d2, ModeSeason(mode, season), done)
      requires modelRunList == AppendNew(base.runList, Names(done))
      modifies this
      ensures d2 == StoreRatios(base.d2, ModeSeason(mode, season), done + RunVisits(doc, model, runs, mode, season, ref, onePerModel))
      ensures modelRunList == AppendNew(base.runList, Names(done + RunVisits(doc, model, runs, mode, season, ref, onePerModel)))
      ensures modeSeasonList == old(modeSeasonList)
    {
      RunVisitsNone(done, doc, model, runs, mode, season, ref, onePerModel);
      for k := 0 to |runs|
        invariant d2 == StoreRatios(base.d2, ModeSeason(mode, season), done + RunVisits(doc, model, runs[..k], mode, season, ref, onePerModel))
        invariant modelRunList == AppendNew(base.runList, Names(done + RunVisits(doc, model, runs[..k], mode, season, ref, onePerModel)))
        invariant modeSeasonList == old(modeSeasonList)
      {
        ghost var prior := done + RunVisits(doc, model, runs[..k], mode, season, ref, onePerModel);
        ghost var v := VisitRun(doc, model, runs[k], mode, season, ref, onePerModel);
        NamesAppend(prior, v);
        AppendNewAppend(base.runList, Names(prior), v.modelRun);
        StoreRatiosAppend(base.d2, ModeSeason(mode, season), prior, v);
        RunVisitsStep(done, doc, model, runs, k, mode, season, ref, onePerModel);
      }
      assert runs[..|runs|] == runs;
    }

    /** The model loop of one season, over the models in case-insensitive order. */
    method VisitModels(doc: Json, sorted: seq<string>, mode: string, season: string, ref: Json, onePerModel: bool)
      modifies this
      ensures d2 == StoreRatios(old(d2), ModeSeason(mode, season), Visits(doc, sorted, mode, season, ref, onePerModel))
      ensures modelRunList == AppendNew(old(modelRunList), Names(Visits(doc, sorted, mode, season, ref, onePerModel)))
      ensures modeSeasonList == old(modeSeasonList)
    {
      ghost var base := State();
      for i := 0 to |sorted|
        invariant d2 == StoreRatios(base.d2, ModeSeason(mode, season), Visits(doc, sorted[..i], mode, season, ref, onePerModel))
        invariant modelRunList == AppendNew(base.runList, Names(Visits(doc, sorted[..i], mode, season, ref, onePerModel)))
        invariant modeSeasonList == base.modeSeasons
      {
        ghost var done := Visits(doc, sorted[..i], mode, season, ref, onePerModel);
        var runKeys := RunKeys(doc, sorted[i]);
        if runKeys.Some? {
          var runs := RunsTried(runKeys.value, onePerModel);
          VisitsNextReadable(doc, sorted, i, mode, season, ref, onePerModel);
          VisitRuns(doc, sorted[i], runs, mode, season, ref, onePerModel, done, base);
        } else {
          VisitsNextUnreadable(doc, sorted, i, mode, season, ref, onePerModel);
        }
      }
      assert sorted[..|sorted|] == sorted;
    }

    /** One season of one mode: the reference value, the `mode_season` name, then the model loop. */
    method ProcessSeason(doc: Json, mode: string, season: string, onePerModel: bool) returns (failure: Option<Failure>)
      modifies this
      ensures SeasonStep(old(State()), doc, mode, season, onePerModel) == if failure.None? then Ok(State()) else Err(failure.value)
    {
      var ref := RefOf(doc, mode, season);
      if ref.None? {
        return Some(Raised);
      }
      var ms := ModeSeason(mode, season);
      modeSeasonList := modeSeasonList + [ms];
      var models := ModelsOf(doc);
      if models.None? {
        return Some(Raised);
      }
      var sorted := SortBy(models.value, Lower);
      VisitModels(doc, sorted, mode, season, ref.value, onePerModel);
      failure := None;
    }

    /** The season loop of one mode; the first failure stops it. */
    method ProcessSeasons(doc: Json, mode: string, seasons: seq<string>, onePerModel: bool) returns (failure: Option<Failure>)
      modifies this
      ensures SeasonSteps(old(State()), doc, mode, seasons, onePerModel) == if failure.None? then Ok(State()) else Err(failure.value)
    {
      ghost var start := State();
      for k := 0 to |seasons|
        invariant SeasonSteps(start, doc, mode, seasons[..k], onePerModel) == Ok(State())
      {
        SeasonStepsNext(start, doc, mode, seasons, k, onePerModel);
        failure := ProcessSeason(doc, mode, seasons[k], onePerModel);
        if failure.Some? {
          SeasonStepsStops(start, doc, mode, seasons, k + 1, onePerModel);
          return;
        }
      }
      assert seasons[..|seasons|] == seasons;
      failure := None;
    }

    /** One mode: its file must exist; then its seasons. */
    method ProcessMode(files: map<string, Json>, mode: string, dominantOnly: bool, onePerModel: bool)
      returns (failure: Option<Failure>)
      modifies this
      ensures ModeStep(old(State()), files, mode, dominantOnly, onePerModel) == if failure.None? then Ok(State()) else Err(failure.value)
    {
      var file := ModeFile(mode);
      if file !in files {
        return Some(FileNotFound(file));
      }
      failure := ProcessSeasons(files[file], mode, SeasonsFor(mode, dominantOnly), onePerModel);
    }

    /** The mode loop over `modes`; the first failure stops it. */
    method ProcessModes(files: map<string, Json>, modes: seq<string>, dominantOnly: bool, onePerModel: bool)
      returns (failure: Option<Failure>)
      modifies this
      ensures ModeSteps(old(State()), files, modes, dominantOnly, onePerModel) == if failure.None? then Ok(State()) else Err(failure.value)
    {
      ghost var start := State();
      for i := 0 to |modes|
        invariant ModeSteps(start, files, modes[..i], dominantOnly, onePerModel) == Ok(State())
      {
        ModeStepsNext(start, files, modes, i, dominantOnly, onePerModel);
        failure := ProcessMode(files, modes[i], dominantOnly, onePerModel);
        if failure.Some? {
          ModeStepsStops(start, files, modes, i + 1, dominantOnly, onePerModel);
          return;
        }
      }
      assert modes[..|modes|] == modes;
      failure := None;
    }
  }

  lemma SeasonStepsNext(t: Tables, doc: Json, mode: string, seasons: seq<string>, k: nat, onePerModel: bool)
    requires k < |seasons| && SeasonSteps(t, doc, mode, seasons[..k], onePerModel).Ok?
    ensures SeasonSteps(t, doc, mode, seasons[..k + 1], onePerModel)
         == SeasonStep(SeasonSteps(t, doc, mode, seasons[..k], onePerModel).value, doc, mode, seasons[k], onePerModel)
  {
    assert seasons[..k + 1][..k] == seasons[..k];
  }

  lemma VisitsNext(doc: Json, models: seq<string>, i: nat, mode: string, season: string, ref: Json, onePerModel: bool)
    requires i < |models|
    ensures Visits(doc, models[..i + 1], mode, season, ref, onePerModel)
         == Visits(doc, models[..i], mode, season, ref, onePerModel) + ModelVisits(doc, models[i], mode, season, ref, onePerModel)
  {
    assert models[..i + 1][..i] == models[..i];
  }

  /** A model whose run keys can be read adds the passes of the runs tried for it. */
  lemma VisitsNextReadable(doc: Json, models: seq<string>, i: nat, mode: string, season: string, ref: Json, onePerModel: bool)
    requires i < |models| && RunKeys(doc, models[i]).Some?
    ensures Visits(doc, models[..i + 1], mode, season, ref, onePerModel)
         == Visits(doc, models[..i], mode, season, ref, onePerModel)
            + RunVisits(doc, models[i], RunsTried(RunKeys(doc, models[i]).value, onePerModel), mode, season, ref, onePerModel)
  {
    VisitsNext(doc, models, i, mode, season, ref, onePerModel);
  }

  /** A model whose run keys cannot be read adds no pass. */
  lemma VisitsNextUnreadable(doc: Json, models: seq<string>, i: nat, mode: string, season: string, ref: Json, onePerModel: bool)
    requires i < |models| && RunKeys(doc, models[i]).None?
    ensures Visits(doc, models[..i + 1], mode, season, ref, onePerModel) == Visits(doc, models[..i], mode, season, ref, onePerModel)
  {
    VisitsNext(doc, models, i, mode, season, ref, onePerModel);
    assert Visits(doc, models[..i], mode, season, ref, onePerModel) + [] == Visits(doc, models[..i], mode, season, ref, onePerModel);
  }

  lemma ModeStepsNext(t: Tables, files: map<string, Json>, modes: seq<string>, i: nat, dominantOnly: bool, onePerModel: bool)
    requires i < |modes| && ModeSteps(t, files, modes[..i], dominantOnly, onePerModel).Ok?
    ensures ModeSteps(t, files, modes[..i + 1], dominantOnly, onePerModel)
         == ModeStep(ModeSteps(t, files, modes[..i], dominantOnly, onePerModel).value, files, modes[i], dominantOnly, onePerModel)
  {
    assert modes[..i + 1][..i] == modes[..i];
  }

  /** The whole script over the files at hand: every mode of `modes_list`, all seasons, one run per model. */
  method Script(files: map<string, Json>) returns (r: Result<Tables, Failure>)
    ensures r == ModeSteps(Empty, files, Modes, DominantSeasonOnly, OnePerModel)
  {
    var tables := new ModeTables();
    var failure := tables.ProcessModes(files, Modes, DominantSeasonOnly, OnePerModel);
    r := if failure.None? then Ok(tables.State()) else Err(failure.value);
  }

  /** A run of the script that reads every file has the seventeen columns and a consistent run list. */
  lemma ScriptColumns(files: map<string, Json>)
    requires ModeSteps(Empty, files, Modes, DominantSeasonOnly, OnePerModel).Ok?
    ensures ModeSteps(Empty, files, Modes, DominantSeasonOnly, OnePerModel).value.modeSeasons == ModeSeasons(Modes, false)
    ensures |ModeSteps(Empty, files, Modes, DominantSeasonOnly, OnePerModel).value.modeSeasons| == 17
    ensures Consistent(ModeSteps(Empty, files, Modes, DominantSeasonOnly, OnePerModel).value)
  {
    ModeStepsKeep(Empty, files, Modes, DominantSeasonOnly, OnePerModel);
    ModeStepsColumns(Empty, files, Modes, DominantSeasonOnly, OnePerModel);
    ConfiguredModeSeasons();
  }
}
