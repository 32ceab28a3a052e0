/**
 * The Flask application's file handling (`app/__init__.py`): which uploaded file names are
 * accepted, the upload view's answers, and the variable list read off the JSON file names.
 */
module Upload {
  import opened Wrappers
  import opened Text
  import opened Sorting
  import opened FileNames

  /** `ALLOWED_EXTENSIONS`. */
  const AllowedExtensions: set<string> := {"json", "csv"}

  /** `allowed_file`: the name has a `.`, and the text after the last one, lower-cased, is an allowed extension. */
  predicate AllowedFile(filename: string) {
    '.' in filename && Lower(AfterLast(filename, '.')) in AllowedExtensions
  }

  /** The extension is exactly what follows the last dot: a split point with no dot after it. */
  lemma AllowedFileMeans(filename: string)
    ensures AllowedFile(filename) <==>
      exists i :: 0 <= i < |filename| && filename[i] == '.' && '.' !in filename[i + 1..] &&
        Lower(filename[i + 1..]) in AllowedExtensions
  {
    if AllowedFile(filename) {
      var ext := AfterLast(filename, '.');
      var i := |filename| - |ext| - 1;
      assert filename[i + 1..] == ext;
    } else if '.' in filename {
      var ext := AfterLast(filename, '.');
      forall i | 0 <= i < |filename| && filename[i] == '.' && '.' !in filename[i + 1..]
        ensures Lower(filename[i + 1..]) !in AllowedExtensions
      {
        assert filename[i + 1..] == ext;
      }
    }
  }

  /** A name without a dot is refused. */
  lemma NoDotRefused(filename: string)
    requires '.' !in filename
    ensures !AllowedFile(filename)
  {
  }

  /** Only the last extension counts, whatever its case. */
  lemma LastExtensionDecides()
    ensures AllowedFile("a.tar.CSV")
    ensures !AllowedFile("a.csv.exe")
  {
    assert AfterLast("a.tar.CSV", '.') == "CSV" by {
      AfterLastOf("a.tar", '.', "CSV");
    }
    assert Lower("CSV") == "csv";
    assert AfterLast("a.csv.exe", '.') == "exe" by {
      AfterLastOf("a.csv", '.', "exe");
    }
  }

  /** `get_variables_from_json_filenames` of the application: file names cut at the first `_`, sorted. */
  method VariablesFromJsonFileNames(paths: seq<string>) returns (variables: seq<string>)
    ensures SortedBy(variables, Self)
    ensures multiset(variables) == multiset(VariablesOf(paths, '_'))
    ensures forall v :: v in variables ==> '_' !in v
  {
    variables := VariablesFromFileNames(paths, '_');
    forall v | v in variables
      ensures '_' !in v
    {
      assert v in multiset(VariablesOf(paths, '_'));
      var k :| 0 <= k < |paths| && VariablesOf(paths, '_')[k] == v;
      VariableOfMeans(paths[k], '_');
    }
  }

  /** An uploaded file as the request carries it. */
  datatype FileStorage = FileStorage(filename: string)

  /** Where the view redirects: back to the request's URL, or to the index page. */
  datatype Redirect = BackToForm | ToIndex

  /** What the view does: the message it flashes, the file it saves (if any) and where it redirects. */
  datatype Response = Response(flash: string, saved: Option<string>, redirect: Redirect)

  /**
   * `upload_file` for a POST whose `files` are given; the cleaning of the file name
   * (`secure_filename`) is a parameter.
   */
  function UploadFile(files: map<string, FileStorage>, secureFilename: string -> string): (r: Response)
    ensures "file" !in files ==> r == Response("No file part", None, BackToForm)
    ensures "file" in files && files["file"].filename == "" ==>
      r == Response("No file selected for uploading", None, BackToForm)
    ensures r.saved.Some? <==> "file" in files && files["file"].filename != "" && AllowedFile(files["file"].filename)
    ensures r.saved.Some? ==>
      r == Response("File successfully uploaded", Some(secureFilename(files["file"].filename)), ToIndex)
    ensures "file" in files && files["file"].filename != "" && !AllowedFile(files["file"].filename) ==>
      r == Response("Allowed file types are json or csv", None, BackToForm)
  {
    if "file" !in files then Response("No file part", None, BackToForm)
    else
      var file := files["file"];
      if file.filename == "" then Response("No file selected for uploading", None, BackToForm)
      else if AllowedFile(file.filename) then
        Response("File successfully uploaded", Some(secureFilename(file.filename)), ToIndex)
      else Response("Allowed file types are json or csv", None, BackToForm)
  }

  /** Nothing is saved unless its name passed `allowed_file`. */
  lemma SavedOnlyAllowed(files: map<string, FileStorage>, secureFilename: string -> string)
    ensures UploadFile(files, secureFilename).saved.Some? ==> AllowedFile(files["file"].filename)
  {
  }
}
