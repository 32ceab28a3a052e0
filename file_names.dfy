/**
 * The variable names the Python side reads off the JSON file names in a directory: each
 * file's name (`Path(p).name`), cut at the first separator, collected in directory order
 * and then sorted.
 */
module FileNames {
  import opened Text
  import opened Sorting

  /** `Path(p).name`: the text after the last `/`, or the whole path when there is none. */
  function BaseName(p: string): string {
    if '/' in p then AfterLast(p, '/') else p
  }

  /** The variable a file stands for: its name up to the first `sep`. */
  function VariableOf(p: string, sep: char): string {
    Before(BaseName(p), sep)
  }

  /** A file's variable has no separator in it and starts its file name, which has no `/`. */
  lemma VariableOfMeans(p: string, sep: char)
    ensures '/' !in BaseName(p) && (BaseName(p) == p || p[|p| - |BaseName(p)| - 1] == '/')
    ensures sep !in VariableOf(p, sep) && VariableOf(p, sep) <= BaseName(p)
  {
  }

  /** The variables of the files in listing order, before the sort. */
  function VariablesOf(paths: seq<string>, sep: char): (vs: seq<string>)
    ensures |vs| == |paths| && forall i :: 0 <= i < |paths| ==> vs[i] == VariableOf(paths[i], sep)
  {
    seq(|paths|, i requires 0 <= i < |paths| => VariableOf(paths[i], sep))
  }

  /**
   * `get_variables_from_json_filenames`: one variable per listed file, sorted ascending by
   * code point; the list keeps duplicates.
   */
  method VariablesFromFileNames(paths: seq<string>, sep: char) returns (variables: seq<string>)
    ensures variables == SortBy(VariablesOf(paths, sep), Self)
    ensures SortedBy(variables, Self)
    ensures multiset(variables) == multiset(VariablesOf(paths, sep))
  {
    variables := [];
    for i := 0 to |paths|
      invariant variables == VariablesOf(paths[..i], sep)
    {
      variables := variables + [VariableOf(paths[i], sep)];
    }
    assert paths[..|paths|] == paths;
    variables := SortBy(variables, Self);
    SortBySorted(VariablesOf(paths, sep), Self);
  }
}
