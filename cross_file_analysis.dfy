/** The dependency-record parsing of the cross-file analysis tool
    (`_parse_dependencies` in core_agent/tools/cross_file_analysis_tool.py):
    the records a language model returns become `Dependency` values; a record
    without `source_file` or `target_file` is skipped, and any other error
    stops the parse. */
module CrossFileAnalysis {

  import opened Wrappers
  import opened PyValues
  import opened PyStrings
  import opened Exceptions

  /** `DependencyType`. */
  datatype DependencyType = Import | Inheritance | Usage | Implementation | Reference

  /** `Dependency`, with the fields carried as the values the record held. */
  datatype Dependency = Dependency(
    sourceFile: Value,
    targetFile: Value,
    sourceSymbol: Value,
    targetSymbol: Value,
    dependencyType: DependencyType,
    description: Value)

  /** A dependency record: one `Dict[str, Any]` from the model's answer. */
  type Record = map<string, Value>

  /** The kind a type name denotes, compared after lower-casing; any name
      other than the four known ones is a plain reference. */
  function KindOf(name: string): (t: DependencyType)
    ensures t == Import <==> Lower(name) == "import"
    ensures t == Inheritance <==> Lower(name) == "inheritance"
    ensures t == Usage <==> Lower(name) == "usage"
    ensures t == Implementation <==> Lower(name) == "implementation"
  {
    var n := Lower(name);
    if n == "import" then Import
    else if n == "inheritance" then Inheritance
    else if n == "usage" then Usage
    else if n == "implementation" then Implementation
    else Reference
  }

  /** The kind does not depend on letter case. */
  lemma KindIgnoresCase(name: string)
    ensures KindOf(Upper(name)) == KindOf(name)
    ensures KindOf(Lower(name)) == KindOf(name)
  {
    LowerOfUpper(name);
    LowerIdempotent(name);
  }

  /** `type(v).__name__`. */
  function TypeName(v: Value): string {
    match v
    case Null => "NoneType"
    case Bool(_) => "bool"
    case Int(_) => "int"
    case Str(_) => "str"
    case List(_) => "list"
    case Dict(_) => "dict"
  }

  /** `dep_data.get("dependency_type", "reference").lower()` and the kind it
      names: a missing type is a reference, and a type that is present but
      not a string (such as `None`) raises AttributeError. */
  function DependencyTypeOf(record: Record): (r: Result<DependencyType, Fault>)
    ensures "dependency_type" !in record ==> r == Success(Reference)
    ensures r.Failure? <==> "dependency_type" in record && !record["dependency_type"].Str?
    ensures r.Failure? ==> r.error.cls == AttributeError
    ensures r.Success? && "dependency_type" in record ==> r.value == KindOf(record["dependency_type"].s)
  {
    var v := Get(record, "dependency_type", Str("reference"));
    match v
    case Str(name) => Success(KindOf(name))
    case _ => Failure(Fault(AttributeError, "'" + TypeName(v) + "' object has no attribute 'lower'"))
  }

  /** A record with both files named. */
  predicate IsComplete(record: Record) {
    "source_file" in record && "target_file" in record
  }

  /** The dependency a complete record describes: the optional fields are
      `None` when absent. */
  function ToDependency(record: Record, kind: DependencyType): (d: Dependency)
    requires IsComplete(record)
  {
    Dependency(record["source_file"], record["target_file"],
               GetOrNull(record, "source_symbol"), GetOrNull(record, "target_symbol"),
               kind, GetOrNull(record, "description"))
  }

  /** One pass of the loop body: the type is read first, so a bad type
      escapes even from a record that would have been skipped; then a
      missing file raises KeyError, which skips the record. */
  function ParseOne(record: Record): (r: Result<Option<Dependency>, Fault>)
    ensures r.Failure? <==> DependencyTypeOf(record).Failure?
    ensures r.Success? ==> (r.value.Some? <==> IsComplete(record))
  {
    match DependencyTypeOf(record)
    case Failure(f) => Failure(f)
    case Success(kind) =>
      if IsComplete(record) then Success(Some(ToDependency(record, kind))) else Success(None)
  }

  /** What `_parse_dependencies(records)` returns or raises: at most one
      dependency per record, or the AttributeError that escaped. */
  function Parsed(records: seq<Record>): (r: Result<seq<Dependency>, Fault>)
    ensures r.Success? ==> |r.value| <= |records|
    ensures r.Failure? ==> r.error.cls == AttributeError
  {
    if records == [] then Success([])
    else
      match Parsed(records[..|records| - 1])
      case Failure(f) => Failure(f)
      case Success(ds) =>
        match ParseOne(records[|records| - 1])
        case Failure(f) => Failure(f)
        case Success(None) => Success(ds)
        case Success(Some(d)) => Success(ds + [d])
  }

  /** `_parse_dependencies`: the loop that appends one dependency per
      complete record and skips the incomplete ones. */
  method ParseDependencies(records: seq<Record>) returns (r: Result<seq<Dependency>, Fault>)
    ensures r == Parsed(records)
  {
    var dependencies: seq<Dependency> := [];
    var i := 0;
    while i < |records|
      invariant 0 <= i <= |records|
      invariant Parsed(records[..i]) == Success(dependencies)
    {
      assert records[..i + 1][..i] == records[..i];
      var item := ParseOne(records[i]);
      if item.Failure? {
        assert Parsed(records[..i + 1]).Failure?;
        FailureSticks(records, i + 1);
        return Failure(item.error);
      }
      if item.value.Some? {
        dependencies := dependencies + [item.value.value];
      }
      i := i + 1;
    }
    assert records[..|records|] == records;
    return Success(dependencies);
  }

  /** Once a prefix fails, the whole parse fails with the same error. */
  lemma {:induction false} FailureSticks(records: seq<Record>, n: nat)
    requires n <= |records| && Parsed(records[..n]).Failure?
    ensures Parsed(records) == Parsed(records[..n])
    decreases |records| - n
  {
    if n == |records| {
      assert records[..n] == records;
    } else {
      assert records[..n + 1][..n] == records[..n];
      FailureSticks(records, n + 1);
    }
  }

  /** The complete records, in order. */
  function Complete(records: seq<Record>): (c: seq<Record>)
    ensures |c| <= |records|
    ensures forall k :: 0 <= k < |c| ==> IsComplete(c[k]) && c[k] in records
  {
    if records == [] then []
    else
      var init := records[..|records| - 1];
      var c := Complete(init);
      assert forall k :: 0 <= k < |c| ==> c[k] in init ==> c[k] in records;
      if IsComplete(records[|records| - 1]) then c + [records[|records| - 1]] else c
  }

  /** Some record has a type that is not a string. */
  predicate HasBadType(records: seq<Record>) {
    exists i :: 0 <= i < |records| && DependencyTypeOf(records[i]).Failure?
  }

  lemma BadTypeSnoc(records: seq<Record>)
    requires records != []
    ensures HasBadType(records) <==>
      HasBadType(records[..|records| - 1]) || DependencyTypeOf(records[|records| - 1]).Failure?
  {
    var init := records[..|records| - 1];
    assert forall i :: 0 <= i < |init| ==> init[i] == records[i];
    if HasBadType(records) {
      var i :| 0 <= i < |records| && DependencyTypeOf(records[i]).Failure?;
      if i < |init| {
        assert DependencyTypeOf(init[i]).Failure?;
      }
    }
  }

  /** The parse fails exactly when some record has a type that is not a
      string. */
  lemma {:induction false} ParsedFails(records: seq<Record>)
    ensures Parsed(records).Failure? <==> HasBadType(records)
    decreases |records|
  {
    if records != [] {
      ParsedFails(records[..|records| - 1]);
      BadTypeSnoc(records);
    }
  }

  /** A successful parse keeps exactly the complete records, in order, each
      with the kind its type names. */
  lemma {:induction false} ParsedKeepsComplete(records: seq<Record>)
    requires Parsed(records).Success?
    ensures var ds, c := Parsed(records).value, Complete(records);
      |ds| == |c| &&
      forall k :: 0 <= k < |ds| ==>
        DependencyTypeOf(c[k]).Success? && ds[k] == ToDependency(c[k], DependencyTypeOf(c[k]).value)
    decreases |records|
  {
    if records != [] {
      var init := records[..|records| - 1];
      ParsedKeepsComplete(init);
    }
  }
}
