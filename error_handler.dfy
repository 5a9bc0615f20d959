/** The error classifier and the registries of error handlers and recovery
    strategies (core_agent/error/error_handler.py). Python keeps the
    registries as class attributes shared by every caller; here they are the
    fields of one `ErrorHandler` object. Callables are identified by name
    (`FnId`); what a user-registered callable does is a parameter. */
module ErrorHandling {

  import opened Wrappers
  import opened PyValues
  import opened Exceptions
  import opened Assoc
  import PyStrings

  datatype ErrorSeverity = Info | Warning | Error | Critical

  /** `ErrorSeverity.value`. */
  function SeverityValue(s: ErrorSeverity): string {
    match s
    case Info => "info"
    case Warning => "warning"
    case Error => "error"
    case Critical => "critical"
  }

  /** `ErrorSeverity(v)`, or `None` where Python raises ValueError. */
  function SeverityFromValue(v: string): (s: Option<ErrorSeverity>)
    ensures s.Some? ==> v == SeverityValue(s.value)
  {
    if v == "info" then Some(Info)
    else if v == "warning" then Some(Warning)
    else if v == "error" then Some(Error)
    else if v == "critical" then Some(Critical)
    else None
  }

  /** Every severity's value reads back as that severity. */
  lemma SeverityRoundTrip(s: ErrorSeverity)
    ensures SeverityFromValue(SeverityValue(s)) == Some(s)
  {
  }

  datatype ErrorCategory = Network | FileSystem | Permission | Validation | Llm | Tool | Workflow | Unknown

  /** `ErrorCategory.value`. */
  function CategoryValue(c: ErrorCategory): string {
    match c
    case Network => "network"
    case FileSystem => "file_system"
    case Permission => "permission"
    case Validation => "validation"
    case Llm => "llm"
    case Tool => "tool"
    case Workflow => "workflow"
    case Unknown => "unknown"
  }

  /** `ErrorCategory(v)`, or `None` where Python raises ValueError. */
  function CategoryFromValue(v: string): (c: Option<ErrorCategory>)
    ensures c.Some? ==> v == CategoryValue(c.value)
  {
    if v == "network" then Some(Network)
    else if v == "file_system" then Some(FileSystem)
    else if v == "permission" then Some(Permission)
    else if v == "validation" then Some(Validation)
    else if v == "llm" then Some(Llm)
    else if v == "tool" then Some(Tool)
    else if v == "workflow" then Some(Workflow)
    else if v == "unknown" then Some(Unknown)
    else None
  }

  /** Every category's value reads back as that category. */
  lemma CategoryRoundTrip(c: ErrorCategory)
    ensures CategoryFromValue(CategoryValue(c)) == Some(c)
  {
  }

  /** One entry of `recovery_options`: `{"name": ..., "description": ...}`. */
  datatype RecoveryOption = RecoveryOption(name: string, description: string)

  /** An `ErrorInfo` record. `timestamp` is in milliseconds. */
  datatype ErrorInfo = ErrorInfo(
    message: string,
    category: ErrorCategory,
    severity: ErrorSeverity,
    exception: Option<Fault>,
    details: map<string, Value>,
    recoveryOptions: seq<RecoveryOption>,
    operationId: Option<string>,
    timestamp: int,
    stackTrace: Option<string>)

  /** `ErrorInfo(...)`: missing details become `{}`, missing options `[]`, and
      a stack trace is taken exactly when an exception is given. The clock
      reading `now` and the formatted traceback `trace` come from outside. */
  function NewErrorInfo(message: string, category: ErrorCategory, severity: ErrorSeverity,
                        exception: Option<Fault>, details: Option<map<string, Value>>,
                        recoveryOptions: seq<RecoveryOption>, operationId: Option<string>,
                        now: int, trace: string): (e: ErrorInfo)
    ensures e.message == message && e.category == category && e.severity == severity
    ensures e.exception == exception && e.operationId == operationId && e.timestamp == now
    ensures e.details == OrEmpty(details) && e.recoveryOptions == recoveryOptions
    ensures e.stackTrace.Some? <==> exception.Some?
  {
    ErrorInfo(message, category, severity, exception, OrEmpty(details), recoveryOptions,
              operationId, now, if exception.Some? then Some(trace) else None)
  }

  function OptionValue(o: RecoveryOption): Value {
    Dict(map["name" := Str(o.name), "description" := Str(o.description)])
  }

  /** `ErrorInfo.to_dict()`. */
  function ToDict(e: ErrorInfo): (d: map<string, Value>)
    ensures d.Keys == {"message", "category", "severity", "details", "recovery_options",
                       "operation_id", "timestamp", "stack_trace"}
    ensures d["category"] == Str(CategoryValue(e.category)) && d["severity"] == Str(SeverityValue(e.severity))
    ensures d["recovery_options"].List? && |d["recovery_options"].items| == |e.recoveryOptions|
    ensures forall i :: 0 <= i < |e.recoveryOptions| ==> d["recovery_options"].items[i] == OptionValue(e.recoveryOptions[i])
  {
    map[
      "message" := Str(e.message),
      "category" := Str(CategoryValue(e.category)),
      "severity" := Str(SeverityValue(e.severity)),
      "details" := Dict(e.details),
      "recovery_options" := List(seq(|e.recoveryOptions|, i requires 0 <= i < |e.recoveryOptions| =>
                                       OptionValue(e.recoveryOptions[i]))),
      "operation_id" := OptStr(e.operationId),
      "timestamp" := Int(e.timestamp),
      "stack_trace" := OptStr(e.stackTrace)]
  }

  /** `str(error_info)`: `"<SEVERITY>: <message> (<category>)"`. The
      severity can be read back from the text: it is the text before the
      first colon, lower-cased. */
  function Render(e: ErrorInfo): (r: string)
    ensures PyStrings.Find(r, ":") >= 0
    ensures SeverityFromValue(PyStrings.Lower(r[..PyStrings.Find(r, ":")])) == Some(e.severity)
    ensures var tail := " (" + CategoryValue(e.category) + ")";
      |r| >= |tail| && r[|r| - |tail|..] == tail
  {
    var tail := " (" + CategoryValue(e.category) + ")";
    var rest := ": " + e.message + tail;
    SeverityBeforeColon(e.severity, rest);
    EndsWith(PyStrings.Upper(SeverityValue(e.severity)) + ": " + e.message, tail);
    PyStrings.Upper(SeverityValue(e.severity)) + rest
  }

  /** `a + b` ends with `b`. */
  lemma EndsWith(a: string, b: string)
    ensures |a + b| >= |b| && (a + b)[|a + b| - |b|..] == b
  {
  }

  /** A severity's upper-cased value followed by text that starts with a
      colon: the first colon comes right after the value, and lower-casing
      what precedes it gives the value back. */
  lemma SeverityBeforeColon(sev: ErrorSeverity, rest: string)
    requires rest != [] && rest[0] == ':'
    ensures var u := PyStrings.Upper(SeverityValue(sev));
      PyStrings.Find(u + rest, ":") == |u| && (u + rest)[..|u|] == u &&
      SeverityFromValue(PyStrings.Lower(u)) == Some(sev)
  {
    var v := SeverityValue(sev);
    assert PyStrings.IsLowerWord(v) by {
      match sev
      case Info =>
      case Warning =>
      case Error =>
      case Critical =>
    }
    PyStrings.LowerUpper(v);
    var u := PyStrings.Upper(v);
    var s := u + rest;
    forall j | 0 <= j < |u| ensures s[j] != ':' {
      assert s[j] == u[j];
    }
    assert s[|u|] == ':';
    PyStrings.FindFirstChar(s, ':', |u|);
    assert s[..|u|] == u;
  }

  /** `_exception_category_map`, in its declaration order. */
  const CategoryTable: seq<(ExceptionClass, ErrorCategory)> := [
    (ConnectionError, Network), (TimeoutError, Network), (FileNotFoundError, FileSystem),
    (PermissionError, Permission), (ValueError, Validation), (TypeError, Validation)]

  /** `_exception_severity_map`, in its declaration order. */
  const SeverityTable: seq<(ExceptionClass, ErrorSeverity)> := [
    (ConnectionError, Error), (TimeoutError, Error), (FileNotFoundError, Error),
    (PermissionError, Error), (ValueError, Warning), (TypeError, Warning)]

  /** The value of the first entry from position `k` on whose class the
      exception is an instance of, or `fallback` when none is. */
  function FirstMatch<V>(c: ExceptionClass, table: seq<(ExceptionClass, V)>, k: nat, fallback: V): V
    decreases |table| - k
  {
    if k >= |table| then fallback
    else if IsInstance(c, table[k].0) then table[k].1
    else FirstMatch(c, table, k + 1, fallback)
  }

  /** `FirstMatch` returns the entry of the first matching class at or after
      `k`, and the fallback only when no class there matches. */
  lemma {:induction false} FirstMatchIsFirst<V>(c: ExceptionClass, table: seq<(ExceptionClass, V)>, k: nat, fallback: V)
    ensures (exists i :: k <= i < |table| && IsInstance(c, table[i].0) && FirstMatch(c, table, k, fallback) == table[i].1 &&
               forall j :: k <= j < i ==> !IsInstance(c, table[j].0))
         || (FirstMatch(c, table, k, fallback) == fallback && forall i :: k <= i < |table| ==> !IsInstance(c, table[i].0))
    decreases |table| - k
  {
    if k < |table| && !IsInstance(c, table[k].0) {
      FirstMatchIsFirst(c, table, k + 1, fallback);
    }
  }

  /** `_get_category_for_exception`: the category of the first table
      entry whose class the exception is an instance of, or UNKNOWN when
      there is none. */
  function CategoryOf(c: ExceptionClass): (r: ErrorCategory)
    ensures (forall i :: 0 <= i < |CategoryTable| ==> !IsInstance(c, CategoryTable[i].0)) ==> r == Unknown
    ensures (exists i :: 0 <= i < |CategoryTable| && IsInstance(c, CategoryTable[i].0)) ==>
      exists i :: 0 <= i < |CategoryTable| && IsInstance(c, CategoryTable[i].0) && r == CategoryTable[i].1 &&
                  forall j :: 0 <= j < i ==> !IsInstance(c, CategoryTable[j].0)
  {
    FirstMatchIsFirst(c, CategoryTable, 0, Unknown);
    FirstMatch(c, CategoryTable, 0, Unknown)
  }

  /** `_get_severity_for_exception`: the severity of the first table entry
      whose class the exception is an instance of, or ERROR when there is
      none. */
  function SeverityOf(c: ExceptionClass): (r: ErrorSeverity)
    ensures (forall i :: 0 <= i < |SeverityTable| ==> !IsInstance(c, SeverityTable[i].0)) ==> r == Error
    ensures (exists i :: 0 <= i < |SeverityTable| && IsInstance(c, SeverityTable[i].0)) ==>
      exists i :: 0 <= i < |SeverityTable| && IsInstance(c, SeverityTable[i].0) && r == SeverityTable[i].1 &&
                  forall j :: 0 <= j < i ==> !IsInstance(c, SeverityTable[j].0)
  {
    FirstMatchIsFirst(c, SeverityTable, 0, Error);
    FirstMatch(c, SeverityTable, 0, Error)
  }

  /** The classification written out class by class. */
  function ExpectedCategory(c: ExceptionClass): ErrorCategory {
    match c
    case ConnectionError | BrokenPipeError | ConnectionAbortedError | ConnectionRefusedError
      | ConnectionResetError | TimeoutError => Network
    case FileNotFoundError => FileSystem
    case PermissionError => Permission
    case ValueError | UnicodeError | UnicodeDecodeError | TypeError => Validation
    case _ => Unknown
  }

  /** Severity written out class by class: validation errors are warnings,
      everything else an error. */
  function ExpectedSeverity(c: ExceptionClass): ErrorSeverity {
    if ExpectedCategory(c) == Validation then Warning else Error
  }

  /** The table search gives the class-by-class category and severity. */
  predicate ClassifiedAsExpected(c: ExceptionClass) {
    CategoryOf(c) == ExpectedCategory(c) && SeverityOf(c) == ExpectedSeverity(c)
  }

  // The classification checked one class at a time, which keeps each proof
  // small.
  lemma ClassifyException() ensures ClassifiedAsExpected(Exception) {}
  lemma ClassifyOSError() ensures ClassifiedAsExpected(OSError) {}
  lemma ClassifyConnectionError() ensures ClassifiedAsExpected(ConnectionError) {}
  lemma ClassifyBrokenPipeError() ensures ClassifiedAsExpected(BrokenPipeError) {}
  lemma ClassifyConnectionAbortedError() ensures ClassifiedAsExpected(ConnectionAbortedError) {}
  lemma ClassifyConnectionRefusedError() ensures ClassifiedAsExpected(ConnectionRefusedError) {}
  lemma ClassifyConnectionResetError() ensures ClassifiedAsExpected(ConnectionResetError) {}
  lemma ClassifyTimeoutError() ensures ClassifiedAsExpected(TimeoutError) {}
  lemma ClassifyFileNotFoundError() ensures ClassifiedAsExpected(FileNotFoundError) {}
  lemma ClassifyFileExistsError() ensures ClassifiedAsExpected(FileExistsError) {}
  lemma ClassifyIsADirectoryError() ensures ClassifiedAsExpected(IsADirectoryError) {}
  lemma ClassifyPermissionError() ensures ClassifiedAsExpected(PermissionError) {}
  lemma ClassifyValueError() ensures ClassifiedAsExpected(ValueError) {}
  lemma ClassifyUnicodeError() ensures ClassifiedAsExpected(UnicodeError) {}
  lemma ClassifyUnicodeDecodeError() ensures ClassifiedAsExpected(UnicodeDecodeError) {}
  lemma ClassifyTypeError() ensures ClassifiedAsExpected(TypeError) {}
  lemma ClassifyAttributeError() ensures ClassifiedAsExpected(AttributeError) {}
  lemma ClassifyLookupError() ensures ClassifiedAsExpected(LookupError) {}
  lemma ClassifyKeyError() ensures ClassifiedAsExpected(KeyError) {}
  lemma ClassifyIndexError() ensures ClassifiedAsExpected(IndexError) {}
  lemma ClassifyRuntimeError() ensures ClassifiedAsExpected(RuntimeError) {}
  lemma ClassifyAgentException() ensures ClassifiedAsExpected(AgentException) {}
  lemma ClassifyNetworkException() ensures ClassifiedAsExpected(NetworkException) {}
  lemma ClassifyFileSystemException() ensures ClassifiedAsExpected(FileSystemException) {}
  lemma ClassifyPermissionException() ensures ClassifiedAsExpected(PermissionException) {}
  lemma ClassifyValidationException() ensures ClassifiedAsExpected(ValidationException) {}
  lemma ClassifyLLMException() ensures ClassifiedAsExpected(LLMException) {}
  lemma ClassifyToolException() ensures ClassifiedAsExpected(ToolException) {}
  lemma ClassifyWorkflowException() ensures ClassifiedAsExpected(WorkflowException) {}
  lemma ClassifyUserCancelledException() ensures ClassifiedAsExpected(UserCancelledException) {}

  /** The first-match search over the ordered table agrees with the
      class-by-class classification, subclasses included. */
  lemma CategoryOfEveryClass(c: ExceptionClass)
    ensures CategoryOf(c) == ExpectedCategory(c) && SeverityOf(c) == ExpectedSeverity(c)
  {
    ClassifyException();
    ClassifyOSError();
    ClassifyConnectionError();
    ClassifyBrokenPipeError();
    ClassifyConnectionAbortedError();
    ClassifyConnectionRefusedError();
    ClassifyConnectionResetError();
    ClassifyTimeoutError();
    ClassifyFileNotFoundError();
    ClassifyFileExistsError();
    ClassifyIsADirectoryError();
    ClassifyPermissionError();
    ClassifyValueError();
    ClassifyUnicodeError();
    ClassifyUnicodeDecodeError();
    ClassifyTypeError();
    ClassifyAttributeError();
    ClassifyLookupError();
    ClassifyKeyError();
    ClassifyIndexError();
    ClassifyRuntimeError();
    ClassifyAgentException();
    ClassifyNetworkException();
    ClassifyFileSystemException();
    ClassifyPermissionException();
    ClassifyValidationException();
    ClassifyLLMException();
    ClassifyToolException();
    ClassifyWorkflowException();
    ClassifyUserCancelledException();
    assert ClassifiedAsExpected(c);
  }

  /** Only `ValueError` and `TypeError` and their subclasses are validation
      errors, and exactly those are warnings. */
  lemma WarningIffValidation(c: ExceptionClass)
    ensures CategoryOf(c) == Validation <==> IsInstance(c, ValueError) || IsInstance(c, TypeError)
    ensures SeverityOf(c) == Warning <==> CategoryOf(c) == Validation
  {
    CategoryOfEveryClass(c);
    ExpectedValidation(c);
  }

  /** The validation classes of the written-out table are the instances of
      `ValueError` and `TypeError`. */
  lemma ExpectedValidation(c: ExceptionClass)
    ensures ExpectedCategory(c) == Validation <==> IsInstance(c, ValueError) || IsInstance(c, TypeError)
  {
    match c
    case Exception =>
    case OSError =>
    case ConnectionError =>
    case BrokenPipeError =>
    case ConnectionAbortedError =>
    case ConnectionRefusedError =>
    case ConnectionResetError =>
    case TimeoutError =>
    case FileNotFoundError =>
    case FileExistsError =>
    case IsADirectoryError =>
    case PermissionError =>
    case ValueError =>
    case UnicodeError =>
    case UnicodeDecodeError =>
    case TypeError =>
    case AttributeError =>
    case LookupError =>
    case KeyError =>
    case IndexError =>
    case RuntimeError =>
    case AgentException =>
    case NetworkException =>
    case FileSystemException =>
    case PermissionException =>
    case ValidationException =>
    case LLMException =>
    case ToolException =>
    case WorkflowException =>
    case UserCancelledException =>
  }

  /** Handling any agent exception without explicit arguments: the message
      is `str(e)`, the category UNKNOWN and the severity ERROR. */
  lemma AgentErrorUnclassified(x: AgentError)
    requires x.Valid()
    ensures CategoryOf(x.AsFault().cls) == Unknown && SeverityOf(x.AsFault().cls) == Error
    ensures TextOf(Some(x.AsFault())) == x.message
  {
    AgentExceptionsUnclassified(x.AsFault().cls);
  }

  /** The agent's own exceptions match no table entry: they are classified
      as unknown errors, whatever their name suggests. */
  lemma AgentExceptionsUnclassified(c: ExceptionClass)
    requires IsAgentClass(c)
    ensures CategoryOf(c) == Unknown && SeverityOf(c) == Error
  {
    CategoryOfEveryClass(c);
    match c
    case Exception =>
    case OSError =>
    case ConnectionError =>
    case BrokenPipeError =>
    case ConnectionAbortedError =>
    case ConnectionRefusedError =>
    case ConnectionResetError =>
    case TimeoutError =>
    case FileNotFoundError =>
    case FileExistsError =>
    case IsADirectoryError =>
    case PermissionError =>
    case ValueError =>
    case UnicodeError =>
    case UnicodeDecodeError =>
    case TypeError =>
    case AttributeError =>
    case LookupError =>
    case KeyError =>
    case IndexError =>
    case RuntimeError =>
    case AgentException =>
    case NetworkException =>
    case FileSystemException =>
    case PermissionException =>
    case ValidationException =>
    case LLMException =>
    case ToolException =>
    case WorkflowException =>
    case UserCancelledException =>
  }


  /** A callable, identified by its name. */
  type FnId = string

  /** The three strategies registered when the module is imported. */
  const RetryNetworkOperation: FnId := "_retry_network_operation"
  const SkipFile: FnId := "_skip_file"
  const CreateFile: FnId := "_create_file"

  /** Calling a recovery strategy: the built-in ones only log and return
      `None`; what any other callable does is given by `run`. */
  function Invoke(fn: FnId, e: ErrorInfo, run: (FnId, ErrorInfo) -> Result<Value, Fault>): Result<Value, Fault> {
    if fn == RetryNetworkOperation || fn == SkipFile || fn == CreateFile then Success(Null)
    else run(fn, e)
  }

  /** The called handlers that raise, in the order they were called; a
      handler registered twice is called, and logged, twice. */
  function Failing(fs: seq<FnId>, e: ErrorInfo, raises: (FnId, ErrorInfo) -> bool): (r: seq<FnId>)
    ensures |r| <= |fs|
    ensures forall f :: f in r ==> f in fs && raises(f, e)
    ensures forall f :: f in fs && raises(f, e) ==> f in r
    ensures forall f :: multiset(r)[f] == if raises(f, e) then multiset(fs)[f] else 0
  {
    if fs == [] then []
    else
      var last := fs[|fs| - 1];
      var r := Failing(fs[..|fs| - 1], e, raises);
      assert fs == fs[..|fs| - 1] + [last];
      if raises(last, e) then r + [last] else r
  }

  /** Calling one more handler logs it exactly when it raises. */
  lemma FailingSnoc(fs: seq<FnId>, f: FnId, e: ErrorInfo, raises: (FnId, ErrorInfo) -> bool)
    ensures Failing(fs + [f], e, raises) ==
            if raises(f, e) then Failing(fs, e, raises) + [f] else Failing(fs, e, raises)
  {
    assert (fs + [f])[..|fs|] == fs;
  }

  /** Failures are logged in call order: the handlers of a longer list
      fail after those of its beginning. */
  lemma {:induction false} FailingConcat(a: seq<FnId>, b: seq<FnId>, e: ErrorInfo,
                                         raises: (FnId, ErrorInfo) -> bool)
    ensures Failing(a + b, e, raises) == Failing(a, e, raises) + Failing(b, e, raises)
    decreases |b|
  {
    if b != [] {
      var b' := b[..|b| - 1];
      assert (a + b)[..|a + b| - 1] == a + b';
      FailingConcat(a, b', e, raises);
    } else {
      assert a + b == a;
    }
  }

  /** The strategy's description as `getattr(strategy, "__description__",
      "No description")` reads it. */
  function DescriptionIn(descriptions: map<FnId, string>, fn: FnId): string {
    if fn in descriptions then descriptions[fn] else "No description"
  }

  /** A registry with an empty entry for every category. */
  function EmptyRegistry<T>(): map<ErrorCategory, seq<T>> {
    map[Network := [], FileSystem := [], Permission := [], Validation := [],
        Llm := [], Tool := [], Workflow := [], Unknown := []]
  }

  /** The empty registry has an entry for every category. */
  lemma EmptyRegistryCovers<T>()
    ensures forall c :: c in EmptyRegistry<T>() && EmptyRegistry<T>()[c] == []
  {
    forall c ensures c in EmptyRegistry<T>() && EmptyRegistry<T>()[c] == [] {
      match c
      case Network =>
      case FileSystem =>
      case Permission =>
      case Validation =>
      case Llm =>
      case Tool =>
      case Workflow =>
      case Unknown =>
    }
  }

  class ErrorHandler {
    /** `_error_handlers`: the handlers of each category, in registration order. */
    var handlers: map<ErrorCategory, seq<FnId>>
    /** `_recovery_strategies`: each category's strategies by name, as an
        insertion-ordered dict. */
    var strategies: map<ErrorCategory, seq<(string, FnId)>>
    /** The `__description__` attribute set on each strategy callable. */
    var descriptions: map<FnId, string>

    /** Every category has a handler list and a strategy dict; every
        registered strategy carries a description. */
    ghost predicate Valid()
      reads this
    {
      (forall c :: c in handlers && c in strategies) &&
      (forall c :: Distinct(Keys(strategies[c]))) &&
      (forall c, i :: 0 <= i < |strategies[c]| ==> strategies[c][i].1 in descriptions)
    }

    /** The class as it stands after the module is imported: empty
        registries, then the three built-in recovery strategies. */
    constructor ()
      ensures Valid()
      ensures forall c :: handlers[c] == []
      ensures strategies[Network] == [("retry", RetryNetworkOperation)]
      ensures strategies[FileSystem] == [("skip_file", SkipFile), ("create_file", CreateFile)]
      ensures forall c :: c != Network && c != FileSystem ==> strategies[c] == []
      ensures descriptions == map[RetryNetworkOperation := "Retry the network operation",
                                  SkipFile := "Skip the file that caused the error",
                                  CreateFile := "Create the missing file"]
    {
      EmptyRegistryCovers<FnId>();
      EmptyRegistryCovers<(string, FnId)>();
      handlers := EmptyRegistry();
      strategies := EmptyRegistry();
      descriptions := map[];
      new;
      RegisterRecoveryStrategy(Network, "retry", RetryNetworkOperation, "Retry the network operation");
      RegisterRecoveryStrategy(FileSystem, "skip_file", SkipFile, "Skip the file that caused the error");
      ghost var skip := strategies[FileSystem];
      assert skip == [("skip_file", SkipFile)];
      assert "create_file" !in Keys(skip);
      RegisterRecoveryStrategy(FileSystem, "create_file", CreateFile, "Create the missing file");
    }

    /** `register_handler`: the handler is appended to its category's list. */
    method RegisterHandler(category: ErrorCategory, handler: FnId)
      requires Valid()
      modifies this
      ensures Valid()
      ensures handlers == old(handlers)[category := old(handlers)[category] + [handler]]
      ensures strategies == old(strategies) && descriptions == old(descriptions)
    {
      handlers := handlers[category := handlers[category] + [handler]];
    }

    /** `register_recovery_strategy`: the name is bound in its category's
        dict, and the description is attached to the callable itself, so it
        replaces any description the same callable had under another name. */
    method RegisterRecoveryStrategy(category: ErrorCategory, name: string, strategy: FnId, description: string)
      requires Valid()
      modifies this
      ensures Valid()
      ensures strategies == old(strategies)[category := Put(old(strategies)[category], name, strategy)]
      ensures descriptions == old(descriptions)[strategy := description]
      ensures handlers == old(handlers)
    {
      var t := strategies[category];
      PutDistinct(t, name, strategy);
      var t' := Put(t, name, strategy);
      forall i | 0 <= i < |t'| ensures t'[i].1 in descriptions[strategy := description] {
        if i < |t| && t'[i].1 != strategy {
          assert t'[i] == t[i];
        }
      }
      strategies := strategies[category := t'];
      descriptions := descriptions[strategy := description];
    }

    /** `recover`: the strategy registered under `name` for the error's own
        category is applied to it; an unknown name raises ValueError. */
    function Recover(e: ErrorInfo, name: string, run: (FnId, ErrorInfo) -> Result<Value, Fault>): (r: Result<Value, Fault>)
      reads this
      requires Valid()
      ensures name !in Keys(strategies[e.category]) ==>
        r == Failure(Fault(ValueError, "Recovery strategy '" + name + "' not found for category " + CategoryValue(e.category)))
      ensures name in Keys(strategies[e.category]) ==>
        exists fn :: (name, fn) in strategies[e.category] && r == Invoke(fn, e, run)
    {
      match Lookup(strategies[e.category], name)
      case None =>
        Failure(Fault(ValueError, "Recovery strategy '" + name + "' not found for category " + CategoryValue(e.category)))
      case Some(fn) => Invoke(fn, e, run)
    }


    /** The options offered for a category: every registered strategy, in
        registration order, with the description last attached to it. */
    function Options(category: ErrorCategory): (options: seq<RecoveryOption>)
      reads this
      requires Valid()
      ensures |options| == |strategies[category]|
      ensures forall i :: 0 <= i < |options| ==>
        options[i] == RecoveryOption(strategies[category][i].0, descriptions[strategies[category][i].1])
    {
      var t, d := strategies[category], descriptions;
      seq(|t|, i requires 0 <= i < |t| => RecoveryOption(t[i].0, DescriptionIn(d, t[i].1)))
    }

    /** `_get_recovery_options`: the loop over the category's strategy dict. */
    method RecoveryOptions(category: ErrorCategory) returns (options: seq<RecoveryOption>)
      requires Valid()
      ensures options == Options(category)
    {
      var t := strategies[category];
      options := [];
      var i := 0;
      while i < |t|
        invariant 0 <= i <= |t|
        invariant options == Options(category)[..i]
      {
        options := options + [RecoveryOption(t[i].0, DescriptionIn(descriptions, t[i].1))];
        i := i + 1;
      }
    }

    /** `_call_handlers`: every handler of the error's category is called in
        order; one that raises is logged and the next is still called.
        `raises` tells which handler calls raise. */
    method CallHandlers(e: ErrorInfo, raises: (FnId, ErrorInfo) -> bool) returns (called: seq<FnId>, failed: seq<FnId>)
      requires Valid()
      ensures called == handlers[e.category]
      ensures failed == Failing(called, e, raises)
    {
      var hs := handlers[e.category];
      called, failed := [], [];
      var i := 0;
      while i < |hs|
        invariant 0 <= i <= |hs|
        invariant called == hs[..i]
        invariant failed == Failing(called, e, raises)
      {
        var h := hs[i];
        FailingSnoc(called, h, e, raises);
        called := called + [h];
        if raises(h, e) {
          failed := failed + [h];
        }
        i := i + 1;
      }
      assert hs[..i] == hs;
    }

    /** `handle_exception`: a missing message is `str(exception)`, a missing
        category or severity is found from the exception's class; the
        category's recovery options are attached and its handlers called. */
    method HandleException(exception: Fault, message: Option<string>, category: Option<ErrorCategory>,
                           severity: Option<ErrorSeverity>, details: Option<map<string, Value>>,
                           operationId: Option<string>, now: int, trace: string,
                           raises: (FnId, ErrorInfo) -> bool)
      returns (e: ErrorInfo, called: seq<FnId>, failed: seq<FnId>)
      requires Valid()
      ensures e.message == (if message.Some? then message.value else exception.message)
      ensures e.category == (if category.Some? then category.value else CategoryOf(exception.cls))
      ensures e.severity == (if severity.Some? then severity.value else SeverityOf(exception.cls))
      ensures e.exception == Some(exception) && e.stackTrace == Some(trace)
      ensures e.details == OrEmpty(details) && e.operationId == operationId && e.timestamp == now
      ensures e.recoveryOptions == Options(e.category)
      ensures called == handlers[e.category] && failed == Failing(called, e, raises)
    {
      var msg := if message.Some? then message.value else exception.message;
      var cat := if category.Some? then category.value else CategoryOf(exception.cls);
      var sev := if severity.Some? then severity.value else SeverityOf(exception.cls);
      e := NewErrorInfo(msg, cat, sev, Some(exception), details, [], operationId, now, trace);
      var options := RecoveryOptions(e.category);
      e := e.(recoveryOptions := options);
      called, failed := CallHandlers(e, raises);
    }

    /** `create_error`: an error with no exception behind it, hence no stack
        trace; its recovery options are attached and its handlers called. */
    method CreateError(message: string, category: ErrorCategory, severity: ErrorSeverity,
                       details: Option<map<string, Value>>, operationId: Option<string>, now: int,
                       raises: (FnId, ErrorInfo) -> bool)
      returns (e: ErrorInfo, called: seq<FnId>, failed: seq<FnId>)
      requires Valid()
      ensures e.message == message && e.category == category && e.severity == severity
      ensures e.exception == None && e.stackTrace == None
      ensures e.details == OrEmpty(details) && e.operationId == operationId && e.timestamp == now
      ensures e.recoveryOptions == Options(category)
      ensures called == handlers[category] && failed == Failing(called, e, raises)
    {
      e := NewErrorInfo(message, category, severity, None, details, [], operationId, now, "");
      var options := RecoveryOptions(category);
      e := e.(recoveryOptions := options);
      called, failed := CallHandlers(e, raises);
    }
  }

  /** On a freshly loaded handler, a network error offers exactly the retry
      strategy, and applying it returns `None`. */
  method DefaultNetworkRecovery(now: int, trace: string, run: (FnId, ErrorInfo) -> Result<Value, Fault>)
    returns (e: ErrorInfo, r: Result<Value, Fault>)
    ensures e.category == Network && e.severity == Error
    ensures e.recoveryOptions == [RecoveryOption("retry", "Retry the network operation")]
    ensures r == Success(Null)
  {
    var h := new ErrorHandler();
    CategoryOfEveryClass(ConnectionRefusedError);
    var called, failed;
    e, called, failed := h.HandleException(Fault(ConnectionRefusedError, "refused"), None, None, None, None, None,
                                 now, trace, (f, i) => false);
    assert Lookup(h.strategies[Network], "retry") == Some(RetryNetworkOperation) by {
      PositionUnique(h.strategies[Network], "retry", 0);
    }
    r := h.Recover(e, "retry", run);
  }

  /** `handle_exception(e)` on any agent exception, with no explicit
      message, category or severity: the error reads `str(e)`, is UNKNOWN
      with severity ERROR, and offers the UNKNOWN category's options. */
  method HandleAgentError(h: ErrorHandler, x: AgentError, now: int, trace: string,
                          raises: (FnId, ErrorInfo) -> bool)
    returns (e: ErrorInfo)
    requires h.Valid() && x.Valid()
    ensures e.message == x.message && e.category == Unknown && e.severity == Error
    ensures e.exception == Some(x.AsFault()) && e.stackTrace == Some(trace)
    ensures e.recoveryOptions == h.Options(Unknown)
  {
    AgentErrorUnclassified(x);
    var called, failed;
    e, called, failed := h.HandleException(x.AsFault(), None, None, None, None, None, now, trace, raises);
  }
}
