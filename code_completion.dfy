/** The text helpers of the code-completion tool: the window of lines
    around the cursor with a cursor marker inserted, the prefix read back
    from that marker, and the language named by a file extension
    (core_agent/tools/code_completion_tool.py). */
module CodeCompletion {

  import opened Wrappers
  import opened PySeqs
  import opened PyStrings

  /** The cursor marker, U+2588 FULL BLOCK. */
  const Marker: char := '\U{2588}'

  /** The number of lines kept on each side of the cursor. */
  const DefaultContextLines: nat := 10

  /** `position.get(key, 0)`. */
  function PositionField(position: map<string, int>, key: string): int {
    if key in position then position[key] else 0
  }

  function Max(a: int, b: int): int { if a >= b then a else b }
  function Min(a: int, b: int): int { if a <= b then a else b }

  /** `line[:c] + "█" + line[c:]`, with Python's reading of a negative `c`. */
  function Marked(line: string, c: int): string {
    SliceTo(line, c) + [Marker] + SliceFrom(line, c)
  }

  /** The lines `[max(0, line - n), min(len, line + n + 1))` of `lines`. */
  function Window(lines: seq<string>, line: int, n: nat): seq<string> {
    Slice(lines, Max(0, line - n), Min(|lines|, line + n + 1))
  }

  /** When the cursor line exists, the window is a run of consecutive lines
      starting at `max(0, line - n)` and it holds the cursor line. */
  lemma WindowHoldsCursorLine(lines: seq<string>, line: int, n: nat)
    requires 0 <= line < |lines|
    ensures var start := Max(0, line - n);
      var w := Window(lines, line, n);
      start <= line < start + |w| && start + |w| <= |lines| &&
      forall j :: 0 <= j < |w| ==> w[j] == lines[start + j]
  {
  }

  /** `_extract_context(file_content, position, n)`: the window of lines
      around the cursor, with the marker written into the cursor line when
      that line exists and the cursor is not past its end. */
  function ExtractContext(content: string, position: map<string, int>, n: nat): (r: string)
    ensures var lines := Split(content, "\n");
      var line := PositionField(position, "line");
      0 <= line < |lines| && PositionField(position, "character") <= |lines[line]| ==> Marker in r
  {
    var lines := Split(content, "\n");
    var line := PositionField(position, "line");
    var c := PositionField(position, "character");
    var window := Window(lines, line, n);
    if 0 <= line < |lines| && c <= |lines[line]| then
      WindowHoldsCursorLine(lines, line, n);
      var k := line - Max(0, line - n);
      var w := window[k := Marked(lines[line], c)];
      assert w[k][|SliceTo(lines[line], c)|] == Marker;
      InJoin(w, k, Marker);
      Join(w, "\n")
    else
      Join(window, "\n")
  }

  /** `_extract_prefix(context)`. */
  function ExtractPrefix(context: string): (r: string)
    ensures Marker !in context ==> r == ""
    ensures '\n' !in r && Marker !in r
    ensures Marker in context ==>
      var i := Find(context, [Marker]);
      |r| <= i && r == context[i - |r|..i] && (i == |r| || context[i - |r| - 1] == '\n')
  {
    var cursor := Find(context, [Marker]);
    ContainsChar(context, Marker);
    if cursor == -1 then
      ""
    else
      var newline := RFindChar(context, '\n', cursor);
      var lineStart := if newline == -1 then 0 else newline + 1;
      var r := context[lineStart..cursor];
      assert forall j :: 0 <= j < |r| ==> r[j] == context[lineStart + j];
      assert Marker !in r by {
        forall j | 0 <= j < |r| ensures r[j] != Marker {
          assert !OccursAt(context, [Marker], lineStart + j);
        }
      }
      r
  }

  /** The position of the last occurrence of `c` below `hi`, when there is
      one and nothing after it up to `hi` is `c`. */
  lemma RFindCharAt(s: string, c: char, hi: nat, p: int)
    requires hi <= |s| && -1 <= p < hi
    requires p >= 0 ==> s[p] == c
    requires forall j :: p < j < hi ==> s[j] != c
    ensures RFindChar(s, c, hi) == p
  {
  }

  /** The prefix read from a text is the newline-free run before the first
      marker, when everything before that run is marker-free and ends in a
      newline. */
  lemma PrefixOf(before: string, u: string, rest: string)
    requires Marker !in before && Marker !in u && '\n' !in u
    requires before == "" || before[|before| - 1] == '\n'
    ensures ExtractPrefix(before + u + [Marker] + rest) == u
  {
    var context := before + u + [Marker] + rest;
    var p := |before| + |u|;
    assert context[p] == Marker;
    forall j | 0 <= j < p ensures context[j] != Marker {
      if j < |before| {
        assert context[j] == before[j];
      } else {
        assert context[j] == u[j - |before|];
      }
    }
    FindFirstChar(context, Marker, p);
    forall j | |before| <= j < p ensures context[j] != '\n' {
      assert context[j] == u[j - |before|];
    }
    if before != "" {
      assert context[|before| - 1] == '\n';
    }
    RFindCharAt(context, '\n', p, |before| - 1);
    assert context[|before|..p] == u;
  }

  /** A join split around one piece `u + marker + v`: what comes before is
      marker-free when the earlier pieces are, and ends in a newline. */
  lemma JoinAroundMarked(w: seq<string>, k: nat, u: string, v: string)
    returns (before: string, rest: string)
    requires k < |w| && w[k] == u + [Marker] + v
    requires forall j :: 0 <= j < k ==> Marker !in w[j]
    ensures Join(w, "\n") == before + u + [Marker] + rest
    ensures Marker !in before && (before == "" || before[|before| - 1] == '\n')
  {
    before := if k == 0 then "" else Join(w[..k], "\n") + "\n";
    var after := if k == |w| - 1 then "" else "\n" + Join(w[k + 1..], "\n");
    JoinAround(w, k, "\n");
    rest := v + after;
    if k > 0 {
      JoinFree(w[..k], '\n', Marker);
    }
  }

  /** The extracted context, split around the cursor: the lines before the
      cursor line, the cursor line up to the cursor, the marker, and the
      rest. */
  lemma ContextAroundCursor(content: string, position: map<string, int>, n: nat)
    returns (before: string, rest: string)
    requires Marker !in content
    requires 0 <= PositionField(position, "line") < |Split(content, "\n")|
    requires 0 <= PositionField(position, "character") <=
             |Split(content, "\n")[PositionField(position, "line")]|
    ensures var l := Split(content, "\n")[PositionField(position, "line")];
      ExtractContext(content, position, n) == before + l[..PositionField(position, "character")] + [Marker] + rest
    ensures Marker !in before && (before == "" || before[|before| - 1] == '\n')
  {
    var lines := Split(content, "\n");
    var line := PositionField(position, "line");
    var c := PositionField(position, "character");
    var l := lines[line];
    var w, k := MarkedWindow(content, position, n);
    before, rest := JoinAroundMarked(w, k, l[..c], l[c..]);
  }

  /** The window with the marker written into the cursor line: the context
      is its join, and the lines before the cursor line are marker-free. */
  lemma MarkedWindow(content: string, position: map<string, int>, n: nat)
    returns (w: seq<string>, k: nat)
    requires Marker !in content
    requires 0 <= PositionField(position, "line") < |Split(content, "\n")|
    requires 0 <= PositionField(position, "character") <=
             |Split(content, "\n")[PositionField(position, "line")]|
    ensures var l := Split(content, "\n")[PositionField(position, "line")];
      var c := PositionField(position, "character");
      k < |w| && w[k] == l[..c] + [Marker] + l[c..]
    ensures ExtractContext(content, position, n) == Join(w, "\n")
    ensures forall j :: 0 <= j < k ==> Marker !in w[j]
  {
    var lines := Split(content, "\n");
    var line := PositionField(position, "line");
    var c := PositionField(position, "character");
    var window := Window(lines, line, n);
    WindowHoldsCursorLine(lines, line, n);
    k := line - Max(0, line - n);
    var l := lines[line];
    w := window[k := Marked(l, c)];
    WindowMarkerFree(content, line, n);
    assert forall j :: 0 <= j < k ==> w[j] == window[j];
  }

  /** Extracting the prefix from the extracted context gives back the
      cursor line up to the cursor, for a file without the marker
      character and a cursor inside the file. */
  lemma PrefixRoundTrip(content: string, position: map<string, int>, n: nat)
    requires Marker !in content
    requires 0 <= PositionField(position, "line") < |Split(content, "\n")|
    requires 0 <= PositionField(position, "character") <=
             |Split(content, "\n")[PositionField(position, "line")]|
    ensures ExtractPrefix(ExtractContext(content, position, n)) ==
            Split(content, "\n")[PositionField(position, "line")][..PositionField(position, "character")]
  {
    var lines := Split(content, "\n");
    var line := PositionField(position, "line");
    var c := PositionField(position, "character");
    var before, rest := ContextAroundCursor(content, position, n);
    var l := lines[line];
    SplitPiecesWithin(content, '\n', Marker);
    SplitPiecesFree(content, '\n');
    assert l[..c] + l[c..] == l;
    assert Marker !in l[..c] && '\n' !in l[..c];
    PrefixOf(before, l[..c], rest);
  }

  /** A character in one piece is in the join. */
  lemma InJoin(w: seq<string>, k: nat, x: char)
    requires k < |w| && x in w[k]
    ensures x in Join(w, "\n")
  {
    var before := if k == 0 then "" else Join(w[..k], "\n") + "\n";
    var after := if k == |w| - 1 then "" else "\n" + Join(w[k + 1..], "\n");
    JoinAround(w, k, "\n");
    var joined := before + w[k] + after;
    assert Join(w, "\n") == joined;
    var i :| 0 <= i < |w[k]| && w[k][i] == x;
    assert joined[|before| + i] == w[k][i];
  }

  /** The context holds a marker when the cursor line exists and the
      cursor is not past its end. */
  lemma MarkerWhenCursorInFile(content: string, position: map<string, int>, n: nat)
    requires var lines := Split(content, "\n");
      var line := PositionField(position, "line");
      0 <= line < |lines| && PositionField(position, "character") <= |lines[line]|
    ensures Marker in ExtractContext(content, position, n)
  {
    var lines := Split(content, "\n");
    var line := PositionField(position, "line");
    var c := PositionField(position, "character");
    var window := Window(lines, line, n);
    WindowHoldsCursorLine(lines, line, n);
    var k := line - Max(0, line - n);
    var w := window[k := Marked(lines[line], c)];
    assert ExtractContext(content, position, n) == Join(w, "\n");
    assert w[k][|SliceTo(lines[line], c)|] == Marker;
    InJoin(w, k, Marker);
  }

  /** Otherwise a file without the marker character gives a context
      without it. */
  lemma NoMarkerOutsideFile(content: string, position: map<string, int>, n: nat)
    requires Marker !in content
    requires var lines := Split(content, "\n");
      var line := PositionField(position, "line");
      !(0 <= line < |lines| && PositionField(position, "character") <= |lines[line]|)
    ensures Marker !in ExtractContext(content, position, n)
  {
    var lines := Split(content, "\n");
    var line := PositionField(position, "line");
    var window := Window(lines, line, n);
    assert ExtractContext(content, position, n) == Join(window, "\n");
    WindowMarkerFree(content, line, n);
    JoinFree(window, '\n', Marker);
  }

  lemma WindowMarkerFree(content: string, line: int, n: nat)
    requires Marker !in content
    ensures forall j :: 0 <= j < |Window(Split(content, "\n"), line, n)| ==>
      Marker !in Window(Split(content, "\n"), line, n)[j]
  {
    var lines := Split(content, "\n");
    var w := Window(lines, line, n);
    SplitPiecesWithin(content, '\n', Marker);
    forall j | 0 <= j < |w| ensures Marker !in w[j] {
      SliceMember(lines, Max(0, line - n), Min(|lines|, line + n + 1), w[j]);
    }
  }

  /** For a file without the marker character, the context holds a marker
      exactly when the cursor line exists and the cursor is not past its
      end. */
  lemma MarkerIffCursorInFile(content: string, position: map<string, int>, n: nat)
    requires Marker !in content
    ensures var lines := Split(content, "\n");
      var line := PositionField(position, "line");
      Marker in ExtractContext(content, position, n) <==>
        0 <= line < |lines| && PositionField(position, "character") <= |lines[line]|
  {
    var lines := Split(content, "\n");
    var line := PositionField(position, "line");
    if 0 <= line < |lines| && PositionField(position, "character") <= |lines[line]| {
      MarkerWhenCursorInFile(content, position, n);
    } else {
      NoMarkerOutsideFile(content, position, n);
    }
  }

  /** `language_map`. */
  const LanguageMap: map<string, string> := map[
    ".py" := "python", ".js" := "javascript", ".ts" := "typescript", ".java" := "java",
    ".c" := "c", ".cpp" := "cpp", ".cs" := "csharp", ".go" := "go", ".rb" := "ruby",
    ".php" := "php", ".swift" := "swift", ".kt" := "kotlin", ".rs" := "rust",
    ".html" := "html", ".css" := "css", ".json" := "json", ".md" := "markdown",
    ".xml" := "xml", ".yaml" := "yaml", ".yml" := "yaml", ".sh" := "shell",
    ".bat" := "batch", ".ps1" := "powershell", ".sql" := "sql", ".r" := "r",
    ".m" := "matlab", ".scala" := "scala", ".pl" := "perl", ".lua" := "lua",
    ".dart" := "dart", ".ex" := "elixir", ".exs" := "elixir", ".hs" := "haskell",
    ".fs" := "fsharp", ".clj" := "clojure", ".groovy" := "groovy", ".jl" := "julia"]

  /** `_get_language_from_extension(ext)`: a language of the map, or
      `plaintext`. */
  function LanguageFromExtension(ext: string): (r: string)
    ensures r in LanguageMap.Values || r == "plaintext"
  {
    var e := Lower(ext);
    if e in LanguageMap then LanguageMap[e] else "plaintext"
  }

  /** The lookup ignores case. */
  lemma LanguageIgnoresCase(ext: string)
    ensures LanguageFromExtension(ext) == LanguageFromExtension(Lower(ext))
  {
    LowerIdempotent(ext);
  }

  /** Both spellings of the YAML extension, in any case, name YAML. */
  lemma YamlExtensions()
    ensures LanguageFromExtension(".yml") == "yaml" && LanguageFromExtension(".YAML") == "yaml"
  {
    assert Lower(".yml") == ".yml";
    assert Lower(".YAML") == ".yaml";
  }

  /** No extension is mapped to `plaintext`, so `plaintext` is returned
      exactly for the unmapped extensions. */
  lemma PlaintextIffUnmapped(ext: string)
    ensures LanguageFromExtension(ext) == "plaintext" <==> Lower(ext) !in LanguageMap
  {
    assert "plaintext" !in LanguageMap.Values;
  }
}
