/** The exception classes the error classifier can meet: the Python built-ins
    its tables name (with their relevant subclasses) and the agent's own
    `AgentException` hierarchy, whose constructors merge extra keys into a
    `details` dictionary (core_agent/error/exceptions.py). */
module Exceptions {

  import opened Wrappers
  import opened PyValues

  /** An exception class. The built-in part follows Python's class tree; the
      agent's classes all derive from `AgentException`, which derives from
      `Exception` directly. */
  datatype ExceptionClass =
    | Exception
    | OSError
    | ConnectionError
    | BrokenPipeError
    | ConnectionAbortedError
    | ConnectionRefusedError
    | ConnectionResetError
    | TimeoutError
    | FileNotFoundError
    | FileExistsError
    | IsADirectoryError
    | PermissionError
    | ValueError
    | UnicodeError
    | UnicodeDecodeError
    | TypeError
    | AttributeError
    | LookupError
    | KeyError
    | IndexError
    | RuntimeError
    | AgentException
    | NetworkException
    | FileSystemException
    | PermissionException
    | ValidationException
    | LLMException
    | ToolException
    | WorkflowException
    | UserCancelledException

  /** The class's method resolution order, `type(e).__mro__` without
      `BaseException` and `object`: the class itself, then its bases, nearest
      first. */
  function Mro(c: ExceptionClass): (r: seq<ExceptionClass>)
    ensures |r| >= 1 && r[0] == c && r[|r| - 1] == Exception
  {
    match c
    case Exception => [Exception]
    case OSError => [OSError, Exception]
    case ConnectionError => [ConnectionError, OSError, Exception]
    case BrokenPipeError => [BrokenPipeError, ConnectionError, OSError, Exception]
    case ConnectionAbortedError => [ConnectionAbortedError, ConnectionError, OSError, Exception]
    case ConnectionRefusedError => [ConnectionRefusedError, ConnectionError, OSError, Exception]
    case ConnectionResetError => [ConnectionResetError, ConnectionError, OSError, Exception]
    case TimeoutError => [TimeoutError, OSError, Exception]
    case FileNotFoundError => [FileNotFoundError, OSError, Exception]
    case FileExistsError => [FileExistsError, OSError, Exception]
    case IsADirectoryError => [IsADirectoryError, OSError, Exception]
    case PermissionError => [PermissionError, OSError, Exception]
    case ValueError => [ValueError, Exception]
    case UnicodeError => [UnicodeError, ValueError, Exception]
    case UnicodeDecodeError => [UnicodeDecodeError, UnicodeError, ValueError, Exception]
    case TypeError => [TypeError, Exception]
    case AttributeError => [AttributeError, Exception]
    case LookupError => [LookupError, Exception]
    case KeyError => [KeyError, LookupError, Exception]
    case IndexError => [IndexError, LookupError, Exception]
    case RuntimeError => [RuntimeError, Exception]
    case AgentException => [AgentException, Exception]
    case NetworkException => [NetworkException, AgentException, Exception]
    case FileSystemException => [FileSystemException, AgentException, Exception]
    case PermissionException => [PermissionException, AgentException, Exception]
    case ValidationException => [ValidationException, AgentException, Exception]
    case LLMException => [LLMException, AgentException, Exception]
    case ToolException => [ToolException, AgentException, Exception]
    case WorkflowException => [WorkflowException, AgentException, Exception]
    case UserCancelledException => [UserCancelledException, AgentException, Exception]
  }

  /** `isinstance(e, t)` for an exception `e` of class `c`. */
  predicate IsInstance(c: ExceptionClass, t: ExceptionClass) {
    t in Mro(c)
  }

  /** Every class is an `Exception`. */
  lemma AllAreExceptions(c: ExceptionClass)
    ensures IsInstance(c, Exception)
  {
    assert Mro(c)[|Mro(c)| - 1] == Exception;
  }

  /** The agent's own classes. */
  predicate IsAgentClass(c: ExceptionClass) {
    IsInstance(c, AgentException)
  }

  /** A raised exception as the rest of the system sees it: its class and
      `str(e)`. */
  datatype Fault = Fault(cls: ExceptionClass, message: string)

  /** `str(None)`, or `str(e)`. */
  function TextOf(e: Option<Fault>): string {
    match e
    case Some(f) => f.message
    case None => "None"
  }

  /** A mutable `Dict[str, Any]` object, shared by reference as in Python. */
  class Details {
    var entries: map<string, Value>

    constructor (entries: map<string, Value>)
      ensures this.entries == entries
    {
      this.entries := entries;
    }
  }

  /** The classes whose `__init__` is `AgentException.__init__` itself. */
  predicate UsesBaseInit(c: ExceptionClass) {
    c == AgentException || c == NetworkException || c == FileSystemException ||
    c == PermissionException || c == ValidationException || c == UserCancelledException
  }

  /** The keys a subclass constructor writes into `details`, each written only
      when its argument is truthy, the first before the second. */
  function WithExtras(base: map<string, Value>, k1: string, v1: Value, k2: string, v2: Value): (d: map<string, Value>)
    requires k1 != k2
    ensures k1 in d <==> k1 in base || Truthy(v1)
    ensures k2 in d <==> k2 in base || Truthy(v2)
    ensures Truthy(v1) ==> d[k1] == v1
    ensures Truthy(v2) ==> d[k2] == v2
    ensures !Truthy(v1) && k1 in base ==> d[k1] == base[k1]
    ensures !Truthy(v2) && k2 in base ==> d[k2] == base[k2]
    ensures forall k :: k in base && k != k1 && k != k2 ==> k in d && d[k] == base[k]
    ensures forall k :: k in d && k != k1 && k != k2 ==> k in base
  {
    PutIfTruthy(PutIfTruthy(base, k1, v1), k2, v2)
  }

  /** An instance of one of the agent's exception classes. */
  class AgentError {
    const kind: ExceptionClass
    const message: string
    /** The `details` attribute: the caller's dict when that one was non-empty. */
    const details: Details

    /** `AgentException(message, details)` and the subclasses that inherit
        its constructor: `details or {}`. */
    constructor (kind: ExceptionClass, message: string, details: Details?)
      requires UsesBaseInit(kind)
      ensures this.kind == kind && this.message == message
      ensures Valid()
      ensures details != null && details.entries != map[] ==> this.details == details
      ensures details == null || details.entries == map[] ==>
        fresh(this.details) && this.details.entries == map[]
    {
      this.kind := kind;
      this.message := message;
      if details != null && details.entries != map[] {
        this.details := details;
      } else {
        this.details := new Details(map[]);
      }
    }

    /** `LLMException(message, model, prompt, details)`: `model` and then
        `prompt` are written into `details or {}` when truthy. */
    constructor LLM(message: string, model: Option<string>, prompt: Option<string>, details: Details?)
      modifies details
      ensures this.kind == LLMException && this.message == message
      ensures Valid()
      ensures this.details.entries ==
        WithExtras(if details == null then map[] else old(details.entries), "model", OptStr(model), "prompt", OptStr(prompt))
      ensures details != null && old(details.entries) != map[] ==> this.details == details
      ensures details == null || old(details.entries) == map[] ==> fresh(this.details)
      ensures details != null && old(details.entries) == map[] ==> details.entries == map[]
    {
      var d: Details;
      if details != null && details.entries != map[] {
        d := details;
      } else {
        d := new Details(map[]);
      }
      d.entries := WithExtras(d.entries, "model", OptStr(model), "prompt", OptStr(prompt));
      this.kind := LLMException;
      this.message := message;
      if d.entries != map[] {
        this.details := d;
      } else {
        this.details := new Details(map[]);
      }
    }

    /** `ToolException(message, tool_name, tool_args, details)`: an empty
        `tool_args` dict is falsy and is not recorded. */
    constructor Tool(message: string, toolName: Option<string>, toolArgs: Option<map<string, Value>>, details: Details?)
      modifies details
      ensures this.kind == ToolException && this.message == message
      ensures Valid()
      ensures this.details.entries ==
        WithExtras(if details == null then map[] else old(details.entries), "tool_name", OptStr(toolName), "tool_args", OptDict(toolArgs))
      ensures details != null && old(details.entries) != map[] ==> this.details == details
      ensures details == null || old(details.entries) == map[] ==> fresh(this.details)
      ensures details != null && old(details.entries) == map[] ==> details.entries == map[]
    {
      var d: Details;
      if details != null && details.entries != map[] {
        d := details;
      } else {
        d := new Details(map[]);
      }
      d.entries := WithExtras(d.entries, "tool_name", OptStr(toolName), "tool_args", OptDict(toolArgs));
      this.kind := ToolException;
      this.message := message;
      if d.entries != map[] {
        this.details := d;
      } else {
        this.details := new Details(map[]);
      }
    }

    /** `WorkflowException(message, node_name, node_inputs, details)`. */
    constructor Workflow(message: string, nodeName: Option<string>, nodeInputs: Option<map<string, Value>>, details: Details?)
      modifies details
      ensures this.kind == WorkflowException && this.message == message
      ensures Valid()
      ensures this.details.entries ==
        WithExtras(if details == null then map[] else old(details.entries), "node_name", OptStr(nodeName), "node_inputs", OptDict(nodeInputs))
      ensures details != null && old(details.entries) != map[] ==> this.details == details
      ensures details == null || old(details.entries) == map[] ==> fresh(this.details)
      ensures details != null && old(details.entries) == map[] ==> details.entries == map[]
    {
      var d: Details;
      if details != null && details.entries != map[] {
        d := details;
      } else {
        d := new Details(map[]);
      }
      d.entries := WithExtras(d.entries, "node_name", OptStr(nodeName), "node_inputs", OptDict(nodeInputs));
      this.kind := WorkflowException;
      this.message := message;
      if d.entries != map[] {
        this.details := d;
      } else {
        this.details := new Details(map[]);
      }
    }

    /** Every instance is of one of the agent's own classes. */
    predicate Valid() {
      IsAgentClass(kind)
    }

    /** The exception as `handle_exception` receives it: its class is an
        agent class, and `str(e)` is the message. */
    function AsFault(): (f: Fault)
      requires Valid()
      ensures IsAgentClass(f.cls)
      ensures f.cls == kind && TextOf(Some(f)) == message
    {
      Fault(kind, message)
    }
  }
}
