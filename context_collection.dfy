/** The pure helpers of the context-collection tool
    (core_agent/tools/context_collection_tool.py): picking the import lines
    out of a file, naming how two files are related, and turning a Python
    import into the candidate files it may refer to. Whether a path exists
    on disk is a parameter. */
module ContextCollection {

  import opened Wrappers
  import opened PySeqs
  import opened PyStrings
  import P = OsPath

  /** The families of source files the tool reads imports from, by
      lower-cased extension. */
  datatype Family = Python | Script | Jvm | Unknown

  function FamilyOf(fileExt: string): Family {
    var ext := Lower(fileExt);
    if ext == ".py" || ext == ".pyi" then Python
    else if ext == ".js" || ext == ".jsx" || ext == ".ts" || ext == ".tsx" then Script
    else if ext == ".java" || ext == ".kt" then Jvm
    else Unknown
  }

  /** The extension is compared case-insensitively. */
  lemma FamilyIgnoresCase(fileExt: string)
    ensures FamilyOf(Lower(fileExt)) == FamilyOf(fileExt)
  {
    LowerIdempotent(fileExt);
  }

  /** The line prefixes that mark an import in each family; none for an
      extension the tool does not know. */
  function ImportPrefixes(family: Family): (ps: seq<string>)
    ensures ps == [] <==> family == Unknown
  {
    match family
    case Python => ["import ", "from "]
    case Script => ["import ", "require("]
    case Jvm => ["import "]
    case Unknown => []
  }

  /** A (stripped) line that starts with one of the prefixes. */
  predicate IsImportLine(line: string, prefixes: seq<string>) {
    exists k :: 0 <= k < |prefixes| && StartsWith(line, prefixes[k])
  }

  /** The stripped lines of `lines` that are import lines, in their order. */
  function ImportLines(lines: seq<string>, prefixes: seq<string>): (r: seq<string>)
    ensures |r| <= |lines|
  {
    if lines == [] then []
    else
      var line := Strip(lines[|lines| - 1]);
      var r := ImportLines(lines[..|lines| - 1], prefixes);
      if IsImportLine(line, prefixes) then r + [line] else r
  }

  /** `x` is one of the lines, stripped. */
  predicate IsStrippedLine(x: string, lines: seq<string>) {
    exists j :: 0 <= j < |lines| && x == Strip(lines[j])
  }

  /** Every item is a stripped input line that is an import line. */
  lemma {:induction false} ImportLinesSound(lines: seq<string>, prefixes: seq<string>)
    ensures forall k :: 0 <= k < |ImportLines(lines, prefixes)| ==>
      IsImportLine(ImportLines(lines, prefixes)[k], prefixes) &&
      IsStrippedLine(ImportLines(lines, prefixes)[k], lines)
    decreases |lines|
  {
    if lines != [] {
      var init := lines[..|lines| - 1];
      ImportLinesSound(init, prefixes);
      var line := Strip(lines[|lines| - 1]);
      var ri := ImportLines(init, prefixes);
      var r := ImportLines(lines, prefixes);
      forall k | 0 <= k < |r|
        ensures IsImportLine(r[k], prefixes) && IsStrippedLine(r[k], lines)
      {
        if k < |ri| {
          assert r[k] == ri[k];
          assert IsStrippedLine(ri[k], init);
          var j :| 0 <= j < |init| && ri[k] == Strip(init[j]);
          assert init[j] == lines[j];
        } else {
          assert r[k] == line;
        }
      }
    }
  }

  /** Every stripped input line that is an import line is kept. */
  lemma {:induction false} ImportLinesComplete(lines: seq<string>, prefixes: seq<string>)
    ensures forall j :: 0 <= j < |lines| && IsImportLine(Strip(lines[j]), prefixes) ==>
      Strip(lines[j]) in ImportLines(lines, prefixes)
    decreases |lines|
  {
    if lines != [] {
      var init := lines[..|lines| - 1];
      ImportLinesComplete(init, prefixes);
      assert forall j :: 0 <= j < |init| ==> init[j] == lines[j];
    }
  }

  /** Without prefixes nothing is selected. */
  lemma {:induction false} NoPrefixesNoLines(lines: seq<string>)
    ensures ImportLines(lines, []) == []
    decreases |lines|
  {
    if lines != [] {
      NoPrefixesNoLines(lines[..|lines| - 1]);
    }
  }

  /** Selection keeps the order of the lines: it distributes over
      concatenation. */
  lemma {:induction false} ImportLinesConcat(a: seq<string>, b: seq<string>, prefixes: seq<string>)
    ensures ImportLines(a + b, prefixes) == ImportLines(a, prefixes) + ImportLines(b, prefixes)
    decreases |b|
  {
    if b == [] {
      assert a + b == a;
    } else {
      var b' := b[..|b| - 1];
      assert (a + b)[..|a + b| - 1] == a + b';
      assert (a + b)[|a + b| - 1] == b[|b| - 1];
      ImportLinesConcat(a, b', prefixes);
    }
  }

  /** What `_extract_imports(content, file_ext)` returns: nothing for an
      extension the tool does not know, and never more items than the
      content has lines. */
  function Imports(content: string, fileExt: string): (r: seq<string>)
    ensures FamilyOf(fileExt) == Unknown ==> r == []
    ensures |r| <= |Split(content, "\n")|
  {
    NoPrefixesNoLines(Split(content, "\n"));
    ImportLines(Split(content, "\n"), ImportPrefixes(FamilyOf(fileExt)))
  }

  /** `_extract_imports`: for a known extension, the loop over the lines of
      the content that keeps each stripped line starting with an import
      prefix; for any other extension, no imports. */
  method ExtractImports(content: string, fileExt: string) returns (imports: seq<string>)
    ensures imports == Imports(content, fileExt)
  {
    imports := [];
    var prefixes := ImportPrefixes(FamilyOf(fileExt));
    var lines := Split(content, "\n");
    if prefixes != [] {
      var importLines: seq<string> := [];
      var i := 0;
      while i < |lines|
        invariant 0 <= i <= |lines|
        invariant importLines == ImportLines(lines[..i], prefixes)
      {
        var line := Strip(lines[i]);
        if IsImportLine(line, prefixes) {
          importLines := importLines + [line];
        }
        ImportLinesStep(lines, i, prefixes);
        i := i + 1;
      }
      assert lines[..|lines|] == lines;
      imports := importLines;
    } else {
      NoPrefixesNoLines(lines);
    }
  }

  lemma ImportLinesStep(lines: seq<string>, i: nat, prefixes: seq<string>)
    requires i < |lines|
    ensures ImportLines(lines[..i + 1], prefixes) ==
      ImportLines(lines[..i], prefixes) +
      (if IsImportLine(Strip(lines[i]), prefixes) then [Strip(lines[i])] else [])
  {
    assert lines[..i + 1][..i] == lines[..i];
  }

  /** What each family accepts: Python files take `import ` and `from `
      lines, JavaScript and TypeScript files `import ` and `require(` lines,
      Java and Kotlin files only `import ` lines. */
  lemma ImportsByFamily(lines: seq<string>, family: Family, k: nat)
    requires k < |ImportLines(lines, ImportPrefixes(family))|
    ensures var line := ImportLines(lines, ImportPrefixes(family))[k];
      family != Unknown &&
      (family == Python ==> StartsWith(line, "import ") || StartsWith(line, "from ")) &&
      (family == Script ==> StartsWith(line, "import ") || StartsWith(line, "require(")) &&
      (family == Jvm ==> StartsWith(line, "import "))
  {
    var ps := ImportPrefixes(family);
    ImportLinesSound(lines, ps);
    var line := ImportLines(lines, ps)[k];
    assert IsImportLine(line, ps);
    PrefixMeaning(line, family);
  }

  lemma PrefixMeaning(line: string, family: Family)
    requires IsImportLine(line, ImportPrefixes(family))
    ensures family != Unknown
    ensures family == Python ==> StartsWith(line, "import ") || StartsWith(line, "from ")
    ensures family == Script ==> StartsWith(line, "import ") || StartsWith(line, "require(")
    ensures family == Jvm ==> StartsWith(line, "import ")
  {
  }

  /** `_determine_relationship(target_file, related_file)`. */
  function DetermineRelationship(targetFile: string, relatedFile: string): (r: string)
    ensures r == "sibling" <==> P.Dirname(targetFile) == P.Dirname(relatedFile)
    ensures r != "sibling" ==> r == "related"
  {
    if P.Dirname(targetFile) == P.Dirname(relatedFile) then "sibling" else "related"
  }

  /** Two files named in the same directory are siblings. */
  lemma SameDirectorySiblings(dir: string, a: string, b: string)
    requires dir != "" && dir[|dir| - 1] != P.Sep && P.Sep !in a && P.Sep !in b
    ensures DetermineRelationship(P.Join(dir, a), P.Join(dir, b)) == "sibling"
  {
    P.DirnameOfChild(dir, a);
    P.DirnameOfChild(dir, b);
  }

  /** The module path an import names, with dots turned into separators:
      `from X import Y` (split into exactly two parts on `" import "`) names
      `X`, `import X` names `X`; anything else names none. */
  function ModulePath(importStmt: string): (r: Option<string>)
    ensures r.Some? ==> StartsWith(importStmt, "from ") || StartsWith(importStmt, "import ")
    ensures r.Some? ==> '.' !in r.value
  {
    if StartsWith(importStmt, "from ") then
      var parts := Split(importStmt, " import ");
      if |parts| == 2 then Some(ReplaceChar(SliceFrom(parts[0], 5), '.', P.Sep)) else None
    else if StartsWith(importStmt, "import ") then
      Some(ReplaceChar(SliceFrom(importStmt, 7), '.', P.Sep))
    else None
  }

  /** `import X` names `X`. */
  lemma ImportNamesModule(m: string)
    ensures ModulePath("import " + m) == Some(ReplaceChar(m, '.', P.Sep))
  {
    var s := "import " + m;
    assert s[..5][0] == 'i';
    assert s[..7] == "import ";
    assert s[7..] == m;
  }

  /** `from X import Y` names `X`, for names without spaces (and a module
      not itself called `import`, which would end the first part early). */
  lemma FromImportNamesModule(m: string, names: string)
    requires ' ' !in m && ' ' !in names && m != "import"
    ensures ModulePath("from " + m + " import " + names) == Some(ReplaceChar(m, '.', P.Sep))
  {
    var s := "from " + m + " import " + names;
    var sep := " import ";
    var at := 5 + |m|;
    assert s[..5] == "from ";
    FromImportParts(m, names);
    assert SliceFrom("from " + m, 5) == m;
  }

  lemma FromImportParts(m: string, names: string)
    requires ' ' !in m && ' ' !in names && m != "import"
    ensures Split("from " + m + " import " + names, " import ") == ["from " + m, names]
  {
    var s := "from " + m + " import " + names;
    var sep := " import ";
    var at := 5 + |m|;
    assert s[at..at + 8] == sep;
    forall j: nat | j < at ensures !OccursAt(s, sep, j) {
      NoEarlySeparator(m, names, j);
    }
    FindIs(s, sep, at);
    assert s[at + 8..] == names;
    assert s[..at] == "from " + m;
    forall j: nat ensures !OccursAt(names, sep, j) {
      if j < |names| {
        Mismatch(names, sep, j, 0);
      }
    }
  }

  lemma NoEarlySeparator(m: string, names: string, j: nat)
    requires ' ' !in m && m != "import"
    requires j < 5 + |m|
    ensures !OccursAt("from " + m + " import " + names, " import ", j)
  {
    var s := "from " + m + " import " + names;
    var sep := " import ";
    if j < 4 {
      assert s[j] == "from "[j];
      Mismatch(s, sep, j, 0);
    } else if j > 4 {
      assert s[j] == m[j - 5];
      Mismatch(s, sep, j, 0);
    } else if |m| >= 7 {
      assert s[11] == m[6];
      Mismatch(s, sep, 4, 7);
    } else if |m| == 6 {
      DiffersSomewhere(m, "import");
      var t :| 0 <= t < 6 && m[t] != "import"[t];
      assert s[5 + t] == m[t];
      Mismatch(s, sep, 4, 1 + t);
    } else {
      assert s[5 + |m|] == ' ';
      Mismatch(s, sep, 4, 1 + |m|);
    }
  }

  /** The four files `_resolve_import_to_file_path` tries for a moduleName, in
      order: `<root>/<module>.py`, `<root>/<module>/__init__.py`, and the
      same two next to the importing file. */
  function Candidates(moduleName: string, filePath: string, projectRoot: string): (cs: seq<string>)
    ensures |cs| == 4
  {
    var here := P.Dirname(filePath);
    [P.Join(projectRoot, moduleName + ".py"),
     P.Join(P.Join(projectRoot, moduleName), "__init__.py"),
     P.Join(here, moduleName + ".py"),
     P.Join(P.Join(here, moduleName), "__init__.py")]
  }

  /** The position of the first path that exists. */
  function FirstExisting(paths: seq<string>, pathExists: string -> bool): (k: Option<nat>)
    ensures k.None? <==> forall i :: 0 <= i < |paths| ==> !pathExists(paths[i])
    ensures k.Some? ==> k.value < |paths| && pathExists(paths[k.value]) &&
                        forall i :: 0 <= i < k.value ==> !pathExists(paths[i])
  {
    if paths == [] then None
    else if pathExists(paths[0]) then Some(0)
    else
      match FirstExisting(paths[1..], pathExists)
      case None => None
      case Some(k) => Some(k + 1)
  }

  /** The `for path in possible_paths` loop: the first candidate that
      exists. */
  method FindExisting(paths: seq<string>, pathExists: string -> bool) returns (k: Option<nat>)
    ensures k == FirstExisting(paths, pathExists)
  {
    var i := 0;
    while i < |paths|
      invariant 0 <= i <= |paths|
      invariant forall j :: 0 <= j < i ==> !pathExists(paths[j])
    {
      if pathExists(paths[i]) {
        return Some(i);
      }
      i := i + 1;
    }
    return None;
  }

  /** What `_resolve_import_to_file_path` returns. */
  function Resolved(importStmt: string, filePath: string, projectRoot: string, fileExt: string,
                    pathExists: string -> bool, cwd: string): (r: Option<string>)
    ensures FamilyOf(fileExt) != Python ==> r == None
    ensures r.Some? ==> ModulePath(importStmt).Some? && exists p :: p in Candidates(ModulePath(importStmt).value, filePath, projectRoot) && pathExists(p)
  {
    if FamilyOf(fileExt) != Python then None
    else
      match ModulePath(importStmt)
      case None => None
      case Some(moduleName) =>
        var cs := Candidates(moduleName, filePath, projectRoot);
        match FirstExisting(cs, pathExists)
        case None => None
        case Some(k) => Some(P.Abspath(cs[k], cwd))
  }

  /** `_resolve_import_to_file_path`: the absolute form of the first
      candidate that exists, for Python files only. */
  method ResolveImportToFilePath(importStmt: string, filePath: string, projectRoot: string,
                                 fileExt: string, pathExists: string -> bool, cwd: string)
    returns (r: Option<string>)
    ensures r == Resolved(importStmt, filePath, projectRoot, fileExt, pathExists, cwd)
  {
    r := None;
    if FamilyOf(fileExt) == Python {
      var moduleName := ModulePath(importStmt);
      if moduleName.Some? {
        var possiblePaths := Candidates(moduleName.value, filePath, projectRoot);
        var k := FindExisting(possiblePaths, pathExists);
        if k.Some? {
          r := Some(P.Abspath(possiblePaths[k.value], cwd));
        }
      }
    }
  }

  /** A resolved import is the absolute form of an existing candidate, and
      every candidate before it is missing; nothing is resolved for a file
      that is not Python, nor when no candidate exists. */
  lemma ResolvedIsFirstExisting(importStmt: string, filePath: string, projectRoot: string, fileExt: string,
                                pathExists: string -> bool, cwd: string)
    ensures FamilyOf(fileExt) != Python ==> Resolved(importStmt, filePath, projectRoot, fileExt, pathExists, cwd) == None
    ensures var r := Resolved(importStmt, filePath, projectRoot, fileExt, pathExists, cwd);
      r.Some? ==> (ModulePath(importStmt).Some? &&
        var cs := Candidates(ModulePath(importStmt).value, filePath, projectRoot);
        exists k :: 0 <= k < 4 && pathExists(cs[k]) && r.value == P.Abspath(cs[k], cwd) &&
          forall i :: 0 <= i < k ==> !pathExists(cs[i]))
    ensures (ModulePath(importStmt).Some? &&
             forall p :: p in Candidates(ModulePath(importStmt).value, filePath, projectRoot) ==> !pathExists(p)) ==>
      Resolved(importStmt, filePath, projectRoot, fileExt, pathExists, cwd) == None
  {
    var r := Resolved(importStmt, filePath, projectRoot, fileExt, pathExists, cwd);
    if r.Some? {
      var cs := Candidates(ModulePath(importStmt).value, filePath, projectRoot);
      var k := FirstExisting(cs, pathExists).value;
      assert pathExists(cs[k]) && r.value == P.Abspath(cs[k], cwd);
    }
  }
}
