/** The steps the refactoring tool takes before it asks a language model for
    the refactoring (core_agent/tools/refactoring_tools.py): checking its
    inputs, reading every file, and deciding whether to run the cross-file
    analysis, whose failure is tolerated. Reading a file and running the
    analysis are parameters. */
module Refactoring {

  import opened Wrappers
  import opened PyValues
  import opened Exceptions

  /** `selection`: ranges keyed by `start`/`end`. */
  type Selection = map<string, map<string, int>>

  /** A truthy optional string: present and non-empty. */
  predicate Given(o: Option<string>) {
    o.Some? && o.value != ""
  }

  const NoFilesMessage := "No file paths provided for refactoring"
  const RenameMessage := "Rename refactoring requires target_symbol and new_name"
  const ExtractMessage := "Extract method refactoring requires a selection"

  /** The input checks, in order: the file list must be non-empty, a rename
      needs a target symbol and a new name, an extract-method needs a
      selection; each failure raises ValueError. No other refactoring type is
      checked. */
  function Validate(refactoringType: string, filePaths: seq<string>, targetSymbol: Option<string>,
                    newName: Option<string>, selection: Option<Selection>): (err: Option<Fault>)
    ensures err.None? <==>
      filePaths != [] &&
      (refactoringType == "rename" ==> Given(targetSymbol) && Given(newName)) &&
      (refactoringType == "extract_method" ==> selection.Some? && selection.value != map[])
    ensures err.Some? ==> err.value.cls == ValueError
    ensures filePaths == [] ==> err == Some(Fault(ValueError, NoFilesMessage))
    ensures filePaths != [] && refactoringType == "rename" && !(Given(targetSymbol) && Given(newName)) ==>
      err == Some(Fault(ValueError, RenameMessage))
    ensures filePaths != [] && refactoringType == "extract_method" && !(selection.Some? && selection.value != map[]) ==>
      err == Some(Fault(ValueError, ExtractMessage))
  {
    if filePaths == [] then Some(Fault(ValueError, NoFilesMessage))
    else if refactoringType == "rename" && (!Given(targetSymbol) || !Given(newName)) then
      Some(Fault(ValueError, RenameMessage))
    else if refactoringType == "extract_method" && (selection.None? || selection.value == map[]) then
      Some(Fault(ValueError, ExtractMessage))
    else None
  }

  /** Types other than rename and extract-method are only checked for a
      non-empty file list. */
  lemma OtherTypesUnchecked(refactoringType: string, filePaths: seq<string>, targetSymbol: Option<string>,
                            newName: Option<string>, selection: Option<Selection>)
    requires refactoringType != "rename" && refactoringType != "extract_method"
    ensures Validate(refactoringType, filePaths, targetSymbol, newName, selection).None? <==> filePaths != []
  {
  }

  /** The message a failed read raises. */
  function ReadErrorMessage(path: string, reason: string): string {
    "Error reading file " + path + ": " + reason
  }

  /** The contents read for `paths`, or the ValueError for the first file
      that could not be read. `read(p)` is the file's text or the text of the
      exception opening or reading it raised. */
  function ReadAll(paths: seq<string>, read: string -> Result<string, string>): (r: Result<map<string, string>, Fault>)
    ensures r.Failure? ==> r.error.cls == ValueError
  {
    if paths == [] then Success(map[])
    else
      match ReadAll(paths[..|paths| - 1], read)
      case Failure(f) => Failure(f)
      case Success(m) =>
        var p := paths[|paths| - 1];
        match read(p)
        case Failure(reason) => Failure(Fault(ValueError, ReadErrorMessage(p, reason)))
        case Success(text) => Success(m[p := text])
  }

  /** The loop that fills `content_map`, re-raising the first read failure
      as ValueError. */
  method ReadContents(paths: seq<string>, read: string -> Result<string, string>)
    returns (r: Result<map<string, string>, Fault>)
    ensures r == ReadAll(paths, read)
  {
    var contentMap: map<string, string> := map[];
    var i := 0;
    while i < |paths|
      invariant 0 <= i <= |paths|
      invariant ReadAll(paths[..i], read) == Success(contentMap)
    {
      assert paths[..i + 1][..i] == paths[..i];
      var filePath := paths[i];
      var text := read(filePath);
      if text.Failure? {
        ReadFailureSticks(paths, read, i + 1);
        return Failure(Fault(ValueError, ReadErrorMessage(filePath, text.error)));
      }
      contentMap := contentMap[filePath := text.value];
      i := i + 1;
    }
    assert paths[..|paths|] == paths;
    return Success(contentMap);
  }

  lemma {:induction false} ReadFailureSticks(paths: seq<string>, read: string -> Result<string, string>, n: nat)
    requires n <= |paths| && ReadAll(paths[..n], read).Failure?
    ensures ReadAll(paths, read) == ReadAll(paths[..n], read)
    decreases |paths| - n
  {
    if n == |paths| {
      assert paths[..n] == paths;
    } else {
      assert paths[..n + 1][..n] == paths[..n];
      ReadFailureSticks(paths, read, n + 1);
    }
  }

  /** A successful read maps exactly the given paths, each to its text. */
  lemma {:induction false} ReadAllContents(paths: seq<string>, read: string -> Result<string, string>)
    requires ReadAll(paths, read).Success?
    ensures var m := ReadAll(paths, read).value;
      (forall p :: p in m <==> p in paths) &&
      forall p :: p in m ==> read(p) == Success(m[p])
    decreases |paths|
  {
    if paths != [] {
      ReadAllContents(paths[..|paths| - 1], read);
    }
  }

  /** A failed read names a path that could not be read, and every path
      before it was read. */
  lemma {:induction false} ReadAllFailure(paths: seq<string>, read: string -> Result<string, string>)
    requires ReadAll(paths, read).Failure?
    ensures exists i :: (0 <= i < |paths| && read(paths[i]).Failure? &&
      ReadAll(paths, read).error == Fault(ValueError, ReadErrorMessage(paths[i], read(paths[i]).error)) &&
      forall j :: 0 <= j < i ==> read(paths[j]).Success?)
    decreases |paths|
  {
    var init := paths[..|paths| - 1];
    if ReadAll(init, read).Failure? {
      ReadAllFailure(init, read);
      var i :| 0 <= i < |init| && read(init[i]).Failure? &&
        ReadAll(init, read).error == Fault(ValueError, ReadErrorMessage(init[i], read(init[i]).error)) &&
        forall j :: 0 <= j < i ==> read(init[j]).Success?;
      assert init[i] == paths[i];
      assert forall j :: 0 <= j < i ==> init[j] == paths[j];
    } else {
      ReadAllContents(init, read);
      var last := |paths| - 1;
      forall j | 0 <= j < last ensures read(paths[j]).Success? {
        assert paths[j] == init[j];
      }
    }
  }

  /** Whether the cross-file analysis runs: for more than one file, or for
      a rename, move-method or move-class. */
  predicate NeedsAnalysis(refactoringType: string, filePaths: seq<string>) {
    |filePaths| > 1 || refactoringType in ["rename", "move_method", "move_class"]
  }

  /** The dependencies handed to the model: the analysis result when the
      analysis ran and succeeded, `None` when it did not run or failed. */
  function Dependencies(refactoringType: string, filePaths: seq<string>, analysis: Result<Value, Fault>): (d: Option<Value>)
    ensures d.Some? <==> NeedsAnalysis(refactoringType, filePaths) && analysis.Success?
    ensures d.Some? ==> d.value == analysis.value
  {
    if NeedsAnalysis(refactoringType, filePaths) then
      match analysis
      case Success(v) => Some(v)
      case Failure(_) => None
    else None
  }

  /** A single file of a refactoring other than rename or a move is never
      analysed, and a rename always is. */
  lemma AnalysisTrigger(refactoringType: string, filePaths: seq<string>)
    ensures (|filePaths| <= 1 && refactoringType != "rename" && refactoringType != "move_method" &&
             refactoringType != "move_class") ==> !NeedsAnalysis(refactoringType, filePaths)
    ensures refactoringType == "rename" ==> NeedsAnalysis(refactoringType, filePaths)
  {
  }

  /** What the tool has in hand before it calls the model: the file contents
      and the dependencies, or the error raised on the way. */
  function Prepared(refactoringType: string, filePaths: seq<string>, targetSymbol: Option<string>,
                    newName: Option<string>, selection: Option<Selection>,
                    read: string -> Result<string, string>, analysis: Result<Value, Fault>)
    : (r: Result<(map<string, string>, Option<Value>), Fault>)
    ensures r.Failure? ==> r.error.cls == ValueError
    ensures r.Success? ==> Validate(refactoringType, filePaths, targetSymbol, newName, selection).None? &&
                           forall p :: p in r.value.0 <==> p in filePaths
  {
    match Validate(refactoringType, filePaths, targetSymbol, newName, selection)
    case Some(f) => Failure(f)
    case None =>
      match ReadAll(filePaths, read)
      case Failure(f) => Failure(f)
      case Success(contentMap) =>
        ReadAllContents(filePaths, read);
        Success((contentMap, Dependencies(refactoringType, filePaths, analysis)))
  }

  /** Lines 74-106 of `_run`: validate, read, analyse. */
  method Prepare(refactoringType: string, filePaths: seq<string>, targetSymbol: Option<string>,
                 newName: Option<string>, selection: Option<Selection>,
                 read: string -> Result<string, string>, analysis: Result<Value, Fault>)
    returns (r: Result<(map<string, string>, Option<Value>), Fault>)
    ensures r == Prepared(refactoringType, filePaths, targetSymbol, newName, selection, read, analysis)
  {
    var err := Validate(refactoringType, filePaths, targetSymbol, newName, selection);
    if err.Some? {
      return Failure(err.value);
    }
    var contents := ReadContents(filePaths, read);
    if contents.Failure? {
      return Failure(contents.error);
    }
    var dependenciesResult := Dependencies(refactoringType, filePaths, analysis);
    return Success((contents.value, dependenciesResult));
  }

  /** Invalid input is reported before any file is read: the outcome does
      not depend on the files, and the failed analysis never surfaces as an
      error. */
  lemma ValidationFirst(refactoringType: string, filePaths: seq<string>, targetSymbol: Option<string>,
                        newName: Option<string>, selection: Option<Selection>,
                        read1: string -> Result<string, string>, read2: string -> Result<string, string>,
                        analysis: Result<Value, Fault>)
    requires Validate(refactoringType, filePaths, targetSymbol, newName, selection).Some?
    ensures Prepared(refactoringType, filePaths, targetSymbol, newName, selection, read1, analysis) ==
            Prepared(refactoringType, filePaths, targetSymbol, newName, selection, read2, analysis)
    ensures Prepared(refactoringType, filePaths, targetSymbol, newName, selection, read1, analysis) ==
            Failure(Validate(refactoringType, filePaths, targetSymbol, newName, selection).value)
  {
  }

  /** A failed analysis is swallowed: the outcome is that of a run without
      analysis. */
  lemma AnalysisFailureSwallowed(refactoringType: string, filePaths: seq<string>, targetSymbol: Option<string>,
                                 newName: Option<string>, selection: Option<Selection>,
                                 read: string -> Result<string, string>, f: Fault)
    ensures var r := Prepared(refactoringType, filePaths, targetSymbol, newName, selection, read, Failure(f));
      r.Success? ==> r.value.1 == None
    ensures Prepared(refactoringType, filePaths, targetSymbol, newName, selection, read, Failure(f)).Success? <==>
      Validate(refactoringType, filePaths, targetSymbol, newName, selection).None? && ReadAll(filePaths, read).Success?
  {
  }
}
