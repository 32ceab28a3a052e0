/**
 * What the metrics scripts share: the `RESULTS` object of a metrics document, the
 * `model_name` header column, the run read when one run per model is kept, and the
 * `model_run` bookkeeping of the two converters. Each pass of a converter's inner loop
 * handles one `model_run` name: the name joins `model_run_list` unless it is there already,
 * a placeholder is stored under it unless it has an entry already, and the entry read for
 * it replaces that when the lookup succeeds.
 */
module Results {
  import opened Wrappers
  import opened Text
  import opened Sorting
  import opened Seqs
  import opened JsonModel

  const ResultsKey := "RESULTS"
  const DefaultRun := "r1i1p1"
  const ModelNameColumn := "model_name"

  /** `list(doc["RESULTS"].keys())`: the model names; `None` when that raises. */
  function ModelsOf(doc: Json): Option<seq<string>> {
    match Get(doc, ResultsKey)
    case Some(results) => Keys(results)
    case None => None
  }

  /**
   * The runs tried for a model whose run keys are `keys`: the list is replaced by `r1i1p1`
   * alone when one run per model is kept, and is then walked in case-insensitive order.
   */
  function RunsTried(keys: seq<string>, onePerModel: bool): (runs: seq<string>)
    ensures onePerModel ==> runs == [DefaultRun]
    ensures !onePerModel ==> multiset(runs) == multiset(keys) && SortedBy(runs, Lower)
  {
    SortBySorted(if onePerModel then [DefaultRun] else keys, Lower);
    SortBy(if onePerModel then [DefaultRun] else keys, Lower)
  }

  /** `model_run`: the model name itself when one run per model is kept, else `model_run`. */
  function ModelRun(model: string, run: string, onePerModel: bool): string {
    if onePerModel then model else model + "_" + run
  }

  /** One pass of the inner loop: the `model_run` handled, and the entry read (`None` when the lookup raised). */
  datatype Visit<E> = Visit(modelRun: string, entry: Option<E>)

  function Names<E>(vs: seq<Visit<E>>): (ns: seq<string>)
    ensures |ns| == |vs| && forall i :: 0 <= i < |vs| ==> ns[i] == vs[i].modelRun
  {
    seq(|vs|, i requires 0 <= i < |vs| => vs[i].modelRun)
  }

  lemma NamesAppend<E>(vs: seq<Visit<E>>, v: Visit<E>)
    ensures Names(vs + [v]) == Names(vs) + [v.modelRun]
  {
  }

  lemma NamesConcat<E>(a: seq<Visit<E>>, b: seq<Visit<E>>)
    ensures Names(a + b) == Names(a) + Names(b)
  {
  }

  /**
   * `model_run_list` after the names `ns` are handled in turn, each appended unless it is
   * listed already: the list grows at its end only, and every name appears once.
   */
  function AppendNew(list: seq<string>, ns: seq<string>): (r: seq<string>)
    ensures list <= r
    ensures forall x :: x in r <==> x in list || x in ns
    ensures NoDuplicates(list) ==> NoDuplicates(r)
  {
    if ns == [] then list
    else
      var prior := AppendNew(list, ns[..|ns| - 1]);
      var x := ns[|ns| - 1];
      assert forall y :: y in ns <==> y in ns[..|ns| - 1] || y == x by {
        assert ns == ns[..|ns| - 1] + [x];
      }
      if x in prior then prior else prior + [x]
  }

  lemma AppendNewAppend(list: seq<string>, ns: seq<string>, x: string)
    ensures AppendNew(list, ns + [x]) == if x in AppendNew(list, ns) then AppendNew(list, ns) else AppendNew(list, ns) + [x]
  {
    assert (ns + [x])[..|ns|] == ns;
  }

  /** Appending the new names of `b` to the first occurrences of `a` gives the first occurrences of `a + b`. */
  lemma {:induction false} AppendNewDedup(a: seq<string>, b: seq<string>)
    ensures AppendNew(Dedup(a), b) == Dedup(a + b)
  {
    if b == [] {
      assert a + b == a;
    } else {
      var init := b[..|b| - 1];
      var x := b[|b| - 1];
      AppendNewDedup(a, init);
      assert a + b == (a + init) + [x];
      DedupAppend(a + init, x);
    }
  }

  /**
   * One store under `key`: a placeholder when the key is absent (`d[key] = {}`), replaced by
   * the entry when the lookup succeeded; a failed lookup leaves an existing value as it was.
   */
  function StoreEntry<E>(m: map<string, E>, key: string, entry: Option<E>, placeholder: E): (m': map<string, E>)
    ensures m'.Keys == m.Keys + {key}
    ensures forall k :: k in m && k != key ==> m'[k] == m[k]
  {
    var held := if key in m then m else m[key := placeholder];
    if entry.Some? then held[key := entry.value] else held
  }

  /** The stores of all visits in order, starting from `m`. */
  function StoreAll<E>(m: map<string, E>, vs: seq<Visit<E>>, placeholder: E): map<string, E> {
    if vs == [] then m
    else
      var v := vs[|vs| - 1];
      StoreEntry(StoreAll(m, vs[..|vs| - 1], placeholder), v.modelRun, v.entry, placeholder)
  }

  lemma StoreAllAppend<E>(m: map<string, E>, vs: seq<Visit<E>>, v: Visit<E>, placeholder: E)
    ensures StoreAll(m, vs + [v], placeholder) == StoreEntry(StoreAll(m, vs, placeholder), v.modelRun, v.entry, placeholder)
  {
    assert (vs + [v])[..|vs|] == vs;
  }

  /** The entry of the last visit of `name` whose lookup succeeded. */
  function LastEntry<E>(vs: seq<Visit<E>>, name: string): (e: Option<E>)
    ensures e.Some? <==> exists i :: 0 <= i < |vs| && vs[i].modelRun == name && vs[i].entry.Some?
  {
    if vs == [] then None
    else if vs[|vs| - 1].modelRun == name && vs[|vs| - 1].entry.Some? then vs[|vs| - 1].entry
    else
      var e := LastEntry(vs[..|vs| - 1], name);
      assert forall i :: 0 <= i < |vs| - 1 ==> vs[..|vs| - 1][i] == vs[i];
      e
  }

  /** After the visits the names with a value are those that had one and the visited ones. */
  lemma {:induction false} StoreAllKeys<E>(m: map<string, E>, vs: seq<Visit<E>>, placeholder: E)
    ensures forall n :: n in StoreAll(m, vs, placeholder) <==> n in m || n in Names(vs)
  {
    if vs != [] {
      var init := vs[..|vs| - 1];
      StoreAllKeys(m, init, placeholder);
      NamesAppend(init, vs[|vs| - 1]);
      assert vs == init + [vs[|vs| - 1]];
    }
  }

  /**
   * After the visits a name holds the entry of its last successful lookup; failing that,
   * the value it had before; failing that, the placeholder.
   */
  lemma {:induction false} StoreAllValues<E>(m: map<string, E>, vs: seq<Visit<E>>, placeholder: E)
    ensures forall n :: n in StoreAll(m, vs, placeholder) ==>
              StoreAll(m, vs, placeholder)[n] ==
                match LastEntry(vs, n)
                case Some(e) => e
                case None => if n in m then m[n] else placeholder
  {
    if vs != [] {
      var init := vs[..|vs| - 1];
      var v := vs[|vs| - 1];
      StoreAllValues(m, init, placeholder);
      StoreAllKeys(m, init, placeholder);
      var before := StoreAll(m, init, placeholder);
      forall n | n in StoreAll(m, vs, placeholder)
        ensures StoreAll(m, vs, placeholder)[n] ==
                  match LastEntry(vs, n)
                  case Some(e) => e
                  case None => if n in m then m[n] else placeholder
      {
        if n == v.modelRun && v.entry.None? && n !in before {
          assert n !in Names(init);
        }
      }
    }
  }
}
