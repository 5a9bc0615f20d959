# Prismata agent core in Dafny

This project models the core of the Prismata coding agent. It covers six
parts:

- The operation store that tracks every operation the agent starts. It also
  completes, fails, recovers and retries those operations, and lists them
  filtered, sorted and paginated.
- The error layer:
  - the classifier, which maps an exception to a category and a severity;
  - the registries of error observers and recovery strategies;
  - the agent's own exception hierarchy.
- The task pipeline:
  - the `AgentState` record;
  - the five workflow nodes that update that record in place;
  - the workflow graph's transitions;
  - the agent's registry of running tasks, with its cancel flag.
- The bounded operation history.
- The pure helpers behind the tools:
  - cursor context and prefix extraction for code completion;
  - import extraction and import resolution for context collection;
  - dependency-record parsing for cross-file analysis;
  - input validation for refactoring.
- The path helpers, and the text-or-binary classification of a file's first
  8192 bytes.

Where the source changes things in place, the model is imperative:

- `OperationRecord`, `RecoveryService`, `ErrorHandler`, `AgentState`,
  `HistoryManager`, the agent and the exception objects are classes. Their
  methods carry `modifies` clauses and state the whole new state.
- The loops of `_call_handlers`, `_get_recovery_options`,
  `_extract_imports`, `_parse_dependencies`, the refactoring file reads and
  the import resolution are methods with loop invariants. Each is proved
  equal to a specification function, and the properties are proved about
  that function.

Everything else is datatypes, functions and lemmas.

Some inputs come from outside the program, so the model takes them as
parameters:

- the clock (`now`);
- generated ids (`freshId`, `taskId`);
- the working directory (`cwd`);
- whether a path exists (`pathExists`);
- file reads (`read`);
- what a user-supplied callable returns or raises (`run`, `raises`);
- what the workflow engine returns (`outcome`).

Python values that the source passes around untyped are modelled by
`PyValues.Value`: null, bool, int, str, list and dict. Its `Truthy` is Python
truthiness. `PySeqs` and `PyStrings` give Python's slicing and string
methods, and `OsPath` gives POSIX `os.path`. These are helpers and have no
rows below.

## Model

| member | source | states |
|---|---|---|
| Recovery.RecordToDict | core_agent/error/recovery_service.py:83-96 | `to_dict` writes exactly the ten record keys; the error is a dict with its message, or `None` |
| Recovery.OptionsFromValues | core_agent/error/recovery_service.py:108 | a stored list of recovery options reads back as the same number of options |
| Recovery.OptionsRoundTrip | core_agent/error/recovery_service.py:108 | options written by `to_dict` read back unchanged |
| Recovery.ErrorRoundTrip | core_agent/error/recovery_service.py:101-110 | a stored error reads back with its message, category, severity, details, options and operation id; it loses its exception and stack trace and gets the load time |
| Recovery.ErrorFieldRoundTrip | core_agent/error/recovery_service.py:101-110 | the record's error survives saving and loading, up to what loading drops |
| Recovery.RecordRoundTrip | core_agent/error/recovery_service.py:83-121 | `from_dict(to_dict(r))` keeps id, type, inputs, status, result, parent id, metadata and the error; both timestamps become the load time |
| Recovery.ErrorFromDict | core_agent/error/recovery_service.py:103-110 | a stored error without `message` fails with KeyError(`message`); a loaded error carries the stored message, category and severity, no exception or stack trace, and the load time |
| Recovery.ErrorField | core_agent/error/recovery_service.py:101-110 | a falsy `error` field loads as no error; a loaded error came from a stored dict and carries the load time and no exception |
| Recovery.RecordFromDict | core_agent/error/recovery_service.py:98-121 | a loaded record carries the stored id, type, inputs and status, `data.get("result")`, and the load time in both timestamps; with a loadable error and no `operation_id`, loading fails with KeyError(`operation_id`) |
| Recovery.TimestampNotRestored | core_agent/error/recovery_service.py:63 | a record loaded at another time than it was created does not keep its creation timestamp |
| Recovery.OperationRecord.constructor | core_agent/error/recovery_service.py:31-64 | all fields as given, `metadata or {}`, `updated_at == timestamp == now` |
| Recovery.OperationRecord.UpdateStatus | core_agent/error/recovery_service.py:66-69 | only the status and `updated_at` change |
| Recovery.OperationRecord.SetResult | core_agent/error/recovery_service.py:71-75 | the result is stored and the status becomes `completed`; nothing else changes but `updated_at` |
| Recovery.OperationRecord.SetError | core_agent/error/recovery_service.py:77-81 | the error is stored and the status becomes `error`; nothing else changes but `updated_at` |
| Recovery.OfType | core_agent/error/recovery_service.py:367-368 | the type filter keeps exactly the records of that type and no others |
| Recovery.WithStatus | core_agent/error/recovery_service.py:370-371 | the status filter keeps exactly the records with that status and no others |
| Recovery.InsertNewestFirst | core_agent/error/recovery_service.py:374 | inserting into a newest-first list keeps it newest first and adds exactly the one record |
| Recovery.SortNewestFirst | core_agent/error/recovery_service.py:374 | the sort is newest first and a permutation of its input |
| Recovery.SliceSorted | core_agent/error/recovery_service.py:377 | a page of a newest-first list is newest first |
| Recovery.RecoveryService.constructor | core_agent/error/recovery_service.py:127-140 | a store without a history file starts with no operations and no handlers |
| Recovery.RecoveryService.Records | core_agent/error/recovery_service.py:364 | `operations.values()` lists every stored record and nothing else |
| Recovery.RecoveryService.Find | core_agent/error/recovery_service.py:386-391 | a stored id gives its record; an unknown id fails with "Operation … not found" |
| Recovery.RecoveryService.Create | core_agent/error/recovery_service.py:142-175 | a pending record with no result or error is filed under the fresh id; nothing else changes |
| Recovery.RecoveryService.Start | core_agent/error/recovery_service.py:177-194 | an unknown id fails; otherwise the record becomes `in_progress` whatever its status was, and nothing else changes |
| Recovery.RecoveryService.Complete | core_agent/error/recovery_service.py:196-214 | an unknown id fails; otherwise the result is stored and the status becomes `completed` whatever it was |
| Recovery.RecoveryService.Fail | core_agent/error/recovery_service.py:216-238 | an unknown id fails; otherwise the error is stored and the status becomes `error` whatever it was |
| Recovery.RecoveryService.Recover | core_agent/error/recovery_service.py:240-276 | only an `error` record with an error can be recovered; a failing strategy leaves it unchanged; on success it is `recovered` and stamped with the strategy name and time |
| Recovery.RecoveryService.Retry | core_agent/error/recovery_service.py:278-314 | only an `error` record whose type has a handler can be retried; a failing handler leaves it unchanged; on success it is `recovered` with a `retry_timestamp` |
| Recovery.RecoveryService.RegisterRecoveryHandler | core_agent/error/recovery_service.py:316-328 | a later handler for a type replaces the earlier one; the records do not change |
| Recovery.RecoveryService.Matching | core_agent/error/recovery_service.py:364-371 | a record is listed exactly when it is stored and passes both filters, and an empty filter is no filter |
| Recovery.RecoveryService.ClearHistory | core_agent/error/recovery_service.py:381-384 | no operations remain; the handlers stay |
| Recovery.RecoveryService.GetOperations | core_agent/error/recovery_service.py:345-379 | every listed record is stored and matches the filters; the list is newest first and holds at most `limit` records |
| Recovery.FullListing | core_agent/error/recovery_service.py:362-379 | with no offset and a limit covering the store, the listing is every matching record, newest first |
| Recovery.GetOperationsPage | core_agent/error/recovery_service.py:377-379 | any page is the `[offset:offset + limit]` slice of the full listing, so pages never disagree about order |
| Recovery.GetOperationsComplete | core_agent/error/recovery_service.py:345-379 | from offset 0 with a limit covering the store, every matching record is listed exactly once |
| ErrorHandling.SeverityFromValue | core_agent/error/error_handler.py:17-22 | `ErrorSeverity(v)` succeeds only on a severity's value |
| ErrorHandling.SeverityRoundTrip | core_agent/error/error_handler.py:17-22 | every severity's value reads back as that severity |
| ErrorHandling.CategoryFromValue | core_agent/error/error_handler.py:25-34 | `ErrorCategory(v)` succeeds only on a category's value |
| ErrorHandling.CategoryRoundTrip | core_agent/error/error_handler.py:25-34 | every category's value reads back as that category |
| ErrorHandling.NewErrorInfo | core_agent/error/error_handler.py:40-70 | details default to `{}` and options to `[]`; there is a stack trace exactly when an exception is given |
| ErrorHandling.ToDict | core_agent/error/error_handler.py:87-98 | exactly the eight keys; the category and severity as their string values; the options in order |
| ErrorHandling.Render | core_agent/error/error_handler.py:100-102 | `str(e)` starts with the upper-cased severity and a colon, so the severity reads back from it, and ends with the category's value in parentheses |
| ErrorHandling.FirstMatchIsFirst | core_agent/error/error_handler.py:297-310 | the lookup returns the entry of the first table class the exception is an instance of, or the fallback |
| ErrorHandling.CategoryOf | core_agent/error/error_handler.py:297-303 | the category is that of the first table entry the exception is an instance of, or UNKNOWN when there is none |
| ErrorHandling.SeverityOf | core_agent/error/error_handler.py:305-311 | the severity is that of the first table entry the exception is an instance of, or ERROR when there is none |
| ErrorHandling.CategoryOfEveryClass | core_agent/error/error_handler.py:109-126 | the first-match lookups classify every class, subclasses included, as the tables intend, with UNKNOWN/ERROR when nothing matches |
| ErrorHandling.WarningIffValidation | core_agent/error/error_handler.py:119-126 | the category is VALIDATION exactly for instances of ValueError or TypeError, and exactly those are warnings |
| ErrorHandling.AgentErrorUnclassified | core_agent/error/error_handler.py:162-172 | for every agent exception `e`, `str(e)` is its message and the lookups give UNKNOWN and ERROR |
| ErrorHandling.HandleAgentError | core_agent/error/error_handler.py:162-185 | `handle_exception(e)` with no explicit arguments, on any agent exception: message `str(e)`, category UNKNOWN, severity ERROR, the exception and trace kept, and the UNKNOWN category's options |
| ErrorHandling.AgentExceptionsUnclassified | core_agent/error/error_handler.py:297-310 | every agent exception is UNKNOWN with severity ERROR, whatever its name says |
| ErrorHandling.Failing | core_agent/error/error_handler.py:343-348 | the handlers logged as failing are exactly the called handlers that raise, each as many times as it was registered |
| ErrorHandling.FailingConcat | core_agent/error/error_handler.py:343-348 | the failures of two handler lists run one after the other are the failures of the first followed by those of the second |
| ErrorHandling.EmptyRegistryCovers | core_agent/error/error_handler.py:129-136 | both registries start with an empty entry for every category |
| ErrorHandling.ErrorHandler.constructor | core_agent/error/error_handler.py:351-390 | after import, NETWORK has `retry` and FILE_SYSTEM has `skip_file` then `create_file`, each with its description; there are no handlers |
| ErrorHandling.ErrorHandler.RegisterHandler | core_agent/error/error_handler.py:237-246 | the handler is appended to its category's list; nothing else changes |
| ErrorHandling.ErrorHandler.RegisterRecoveryStrategy | core_agent/error/error_handler.py:248-268 | the name is bound (or rebound in place) in its category; the description is attached to the callable |
| ErrorHandling.ErrorHandler.Recover | core_agent/error/error_handler.py:270-294 | an unregistered name in the error's own category raises ValueError "not found"; otherwise the registered strategy is applied to the error |
| ErrorHandling.ErrorHandler.Options | core_agent/error/error_handler.py:312-325 | one option per registered strategy, in registration order, with its description |
| ErrorHandling.ErrorHandler.RecoveryOptions | core_agent/error/error_handler.py:312-325 | the loop builds exactly `Options(category)` |
| ErrorHandling.ErrorHandler.CallHandlers | core_agent/error/error_handler.py:339-348 | every handler of the category is called once, in order; a raising handler does not stop the rest |
| ErrorHandling.ErrorHandler.HandleException | core_agent/error/error_handler.py:138-193 | explicit message, category and severity win over `str(e)` and the table lookups; a stack trace is taken; the options are those registered; the handlers run |
| ErrorHandling.ErrorHandler.CreateError | core_agent/error/error_handler.py:195-235 | the error has no exception and no stack trace; the options are those registered; the handlers run |
| ErrorHandling.DefaultNetworkRecovery | core_agent/error/error_handler.py:351-363 | on a fresh handler, a refused connection is a NETWORK error offering only `retry`, and retrying returns `None` |
| Exceptions.Mro | core_agent/error/exceptions.py:10-135 | each class's resolution order starts with the class and ends with `Exception` |
| Exceptions.AllAreExceptions | core_agent/error/exceptions.py:10 | every class modelled is an `Exception` |
| Exceptions.WithExtras | core_agent/error/exceptions.py:68-72 | a key is added exactly when its argument is truthy; other keys are kept |
| Exceptions.Details.constructor | core_agent/error/exceptions.py:16 | a details dict holds the given entries |
| Exceptions.AgentError.constructor | core_agent/error/exceptions.py:13-26 | the message is kept and the instance is of an agent class; `details` is the caller's non-empty dict itself, or a new `{}` |
| Exceptions.AgentError.LLM | core_agent/error/exceptions.py:49-74 | `model`, then `prompt`, are written into `details or {}` when truthy; a non-empty caller dict is that same object, changed in place |
| Exceptions.AgentError.Tool | core_agent/error/exceptions.py:77-102 | `tool_name` and `tool_args` are recorded only when truthy; an empty `tool_args` is not recorded |
| Exceptions.AgentError.Workflow | core_agent/error/exceptions.py:105-130 | `node_name` and `node_inputs` are recorded only when truthy |
| Exceptions.AgentError.AsFault | core_agent/error/exceptions.py:10-25 | the exception as `handle_exception` receives it: its class is one of the agent's classes, and `str(e)` is the message given to `super().__init__` |
| AgentStates.Initial | core_agent/agent/state_models.py:12-32 | the defaults: empty inputs and context, `in_progress`, no results, changes or error, no confirmation, no preview, verification passed |
| AgentStates.AgentState.constructor | core_agent/agent/state_models.py:12-32 | a new state is exactly `Initial` |
| WorkflowNodes.PlanFor | core_agent/agent/workflow_nodes.py:93-119 | a plan exists exactly for `generate_code`, `analyze_code` and `write_file`; it has a type, and a file write always requires confirmation |
| WorkflowNodes.ToolNameFor | core_agent/agent/workflow_nodes.py:153-196 | a tool is named exactly for the three known change types |
| WorkflowNodes.PlanRunsTaskTool | core_agent/agent/workflow_nodes.py:93-196 | a plan is carried out by the tool named like the task that planned it |
| WorkflowNodes.PlannedArgs | core_agent/agent/workflow_nodes.py:93-205 | the tool receives the task's inputs with the documented defaults (`""`, `python`, `utf-8`, confirmation `True`) |
| WorkflowNodes.FirstNamed | core_agent/agent/workflow_nodes.py:155 | the first tool with the name, or none when no tool has it |
| WorkflowNodes.UnderstandRequest | core_agent/agent/workflow_nodes.py:18-45 | only the status changes, to `understanding_request` |
| WorkflowNodes.AnalyzeContext | core_agent/agent/workflow_nodes.py:48-72 | only the status changes, to `analyzing_context` |
| WorkflowNodes.PlanChanges | core_agent/agent/workflow_nodes.py:75-121 | the status becomes `planning_changes`; the plan is replaced only for the three planned task types |
| WorkflowNodes.ExecuteChanges | core_agent/agent/workflow_nodes.py:124-220 | empty changes complete at once; an unknown type, a missing tool or a raising tool ends in `error` with the failure's text; otherwise the tool's result is stored |
| WorkflowNodes.Executed | core_agent/agent/workflow_nodes.py:124-220 | executing changes never touches the task id, type, inputs, context, plan or verification flag |
| WorkflowNodes.ExecutedEmptyPlan | core_agent/agent/workflow_nodes.py:140-144 | an empty plan completes with the message "No changes to execute" and changes nothing else |
| WorkflowNodes.ExecutedUnknownType | core_agent/agent/workflow_nodes.py:210-213 | a type other than the three known ones ends in `error` with "Unknown change type: " and the type, and leaves the results as they were |
| WorkflowNodes.ExecutedToolMissing | core_agent/agent/workflow_nodes.py:155-158 | a known type whose tool is not in the list ends in `error` with "<name> tool not found" |
| WorkflowNodes.ExecutedRunsFirstTool | core_agent/agent/workflow_nodes.py:155-218 | the first tool with the name is run; its failure ends in `error` with its text; its result is stored, and the status is `awaiting_confirmation` exactly for a file write whose result asks for confirmation |
| WorkflowNodes.ExecutedErrorIff | core_agent/agent/workflow_nodes.py:150-218 | a non-empty plan ends in `error` exactly when its type is unknown, its tool is missing, or the first tool with the name fails |
| WorkflowNodes.StoreResult | core_agent/agent/workflow_nodes.py:166-208 | a file write is `awaiting_confirmation` exactly when the result asks for it, and copies the flag and preview; other results complete |
| WorkflowNodes.VerifyResults | core_agent/agent/workflow_nodes.py:223-252 | empty or missing results fail verification and keep the status; otherwise verification passes with status `verifying_results` |
| LangGraphAgent.Next | core_agent/agent/langgraph_agent.py:56-70 | the graph ends exactly after a passing verification |
| LangGraphAgent.OnlyVerifyBranches | core_agent/agent/langgraph_agent.py:63-70 | only the verification node's edge depends on the verdict |
| LangGraphAgent.PassingRunEnds | core_agent/agent/langgraph_agent.py:56-70 | with passing verification, the run visits the five nodes in order and ends |
| LangGraphAgent.FailingLoopStays | core_agent/agent/langgraph_agent.py:59-70 | a failing verification never leaves the plan, execute, verify cycle |
| LangGraphAgent.FailingRunNeverEnds | core_agent/agent/langgraph_agent.py:63-70 | there is no iteration bound: while verification fails, no number of steps reaches the end |
| LangGraphAgent.InitialState | core_agent/agent/langgraph_agent.py:81-90 | the initial state holds exactly the eight documented keys |
| LangGraphAgent.Agent.constructor | core_agent/agent/langgraph_agent.py:24-31 | no task is registered |
| LangGraphAgent.Agent.Begin | core_agent/agent/langgraph_agent.py:79-98 | the task is registered, not cancelled, with its initial state |
| LangGraphAgent.Agent.Cancel | core_agent/agent/langgraph_agent.py:143-150 | answers `True` and sets the flag exactly for a registered task; otherwise nothing changes |
| LangGraphAgent.Agent.Finish | core_agent/agent/langgraph_agent.py:102-141 | a cancelled task answers `cancelled` and stays registered; otherwise the task is removed and the response comes from the final state or the exception |
| LangGraphAgent.Agent.Execute | core_agent/agent/langgraph_agent.py:74-141 | `execute` never raises; the task stays registered exactly when it was cancelled and the workflow returned |
| History.TrimKeepsNewest | shared/models/history.py:75-86 | with a capacity of at least one, the history never exceeds it, keeps the newest entries in order and ends with the new entry |
| History.TrimZeroKeepsAll | shared/models/history.py:85-86 | a capacity of zero trims nothing, since `s[-0:]` is the whole list |
| History.Trimmed | shared/models/history.py:83-84 | the trimmed history is a suffix of the history; with a capacity of at least one it is the whole history or its last `max_entries` entries |
| History.OfType | shared/models/history.py:108-112 | the type filter keeps exactly the entries of that type |
| History.WithStatus | shared/models/history.py:115-119 | the status filter keeps exactly the entries with that status |
| History.OfTypeConcat | shared/models/history.py:108-112 | filtering by type keeps relative order |
| History.WithStatusConcat | shared/models/history.py:115-119 | filtering by status keeps relative order |
| History.ListingFilters | shared/models/history.py:105-125 | with no limit, an entry is listed exactly when it is stored and passes both filters |
| History.ListingLimit | shared/models/history.py:121-123 | a positive limit keeps the last `limit` filtered entries in order; a limit of zero keeps them all |
| History.Listing | shared/models/history.py:103-125 | the listing holds only stored entries and is no longer than the history; with no limit and no filter it is the history itself |
| History.HistoryManager.GetEntries | shared/models/history.py:88-125 | with no limit, an entry is listed exactly when it is stored and passes the filters; with no limit and no filter the stored list itself is returned |
| History.HistoryManager.constructor | shared/models/history.py:72-73 | a new history is empty with the given capacity |
| History.HistoryManager.Default | shared/models/history.py:72-73 | a history built with no arguments is empty and holds at most 100 entries |
| History.HistoryManager.AddEntry | shared/models/history.py:75-86 | append, then trim to the last `max_entries` |
| History.HistoryManager.ClearHistory | shared/models/history.py:127-129 | no entries remain; the capacity stays |
| History.HistoryManager.GetEntry | shared/models/history.py:131-144 | the first entry with the id, or `None` exactly when no entry has it |
| CodeCompletion.WindowHoldsCursorLine | core_agent/tools/code_completion_tool.py:233-241 | the window is lines `[max(0, line-n), min(len, line+n+1))` and holds the cursor line |
| CodeCompletion.ExtractPrefix | core_agent/tools/code_completion_tool.py:253-275 | no marker gives `""`; otherwise the text between the line start and the first marker, with no newline and no marker in it |
| CodeCompletion.ContextAroundCursor | core_agent/tools/code_completion_tool.py:233-251 | with a valid cursor, the context is the lines before, then the cursor line with the marker at the cursor, then the rest |
| CodeCompletion.ExtractContext | core_agent/tools/code_completion_tool.py:221-251 | when the cursor's line exists and its column is within the line, the context holds the cursor marker |
| CodeCompletion.PrefixRoundTrip | core_agent/tools/code_completion_tool.py:221-275 | for marker-free content and a valid cursor, the extracted prefix is `line[:character]` |
| CodeCompletion.MarkerWhenCursorInFile | core_agent/tools/code_completion_tool.py:244-249 | a cursor inside the file puts a marker into the context |
| CodeCompletion.NoMarkerOutsideFile | core_agent/tools/code_completion_tool.py:244-249 | a cursor outside the file leaves the marker-free content without a marker |
| CodeCompletion.WindowMarkerFree | core_agent/tools/code_completion_tool.py:241 | the window of marker-free content is marker-free |
| CodeCompletion.MarkerIffCursorInFile | core_agent/tools/code_completion_tool.py:244-249 | for marker-free content, the context holds a marker exactly when the cursor is inside the file |
| CodeCompletion.LanguageIgnoresCase | core_agent/tools/code_completion_tool.py:287 | the extension lookup is case-insensitive |
| CodeCompletion.YamlExtensions | core_agent/tools/code_completion_tool.py:277-327 | `.yml` and `.YAML` are both `yaml` |
| CodeCompletion.PlaintextIffUnmapped | core_agent/tools/code_completion_tool.py:327 | `plaintext` exactly for unmapped extensions |
| CodeCompletion.LanguageFromExtension | core_agent/tools/code_completion_tool.py:277-327 | the language is one of the mapped languages or `plaintext` |
| ContextCollection.FamilyIgnoresCase | core_agent/tools/context_collection_tool.py:222-238 | the extension test is case-insensitive |
| ContextCollection.ImportPrefixes | core_agent/tools/context_collection_tool.py:219-247 | only an unknown extension has no import prefixes |
| ContextCollection.ImportLines | core_agent/tools/context_collection_tool.py:225-228 | there are never more import lines than lines |
| ContextCollection.ImportLinesSound | core_agent/tools/context_collection_tool.py:225-228 | every result is a stripped input line that starts with an import prefix |
| ContextCollection.ImportLinesComplete | core_agent/tools/context_collection_tool.py:225-228 | every stripped input line starting with an import prefix is in the result |
| ContextCollection.NoPrefixesNoLines | core_agent/tools/context_collection_tool.py:219 | with no prefixes, nothing is extracted |
| ContextCollection.ImportLinesConcat | core_agent/tools/context_collection_tool.py:225-228 | extraction keeps the lines' order |
| ContextCollection.ExtractImports | core_agent/tools/context_collection_tool.py:208-247 | the loop builds exactly `Imports(content, ext)` |
| ContextCollection.Imports | core_agent/tools/context_collection_tool.py:219-247 | another extension gives `[]`; there are never more imports than lines |
| ContextCollection.ImportsByFamily | core_agent/tools/context_collection_tool.py:222-245 | Python takes `import `/`from `, scripts `import `/`require(`, Java and Kotlin `import ` only |
| ContextCollection.DetermineRelationship | core_agent/tools/context_collection_tool.py:304-321 | `sibling` exactly when the directory names are equal, otherwise `related` |
| ContextCollection.SameDirectorySiblings | core_agent/tools/context_collection_tool.py:315-316 | two files joined to the same directory are siblings |
| ContextCollection.ImportNamesModule | core_agent/tools/context_collection_tool.py:288-289 | `import X` names module X with dots made separators |
| ContextCollection.FromImportNamesModule | core_agent/tools/context_collection_tool.py:275-278 | `from X import Y` names module X with dots made separators |
| ContextCollection.FromImportParts | core_agent/tools/context_collection_tool.py:276-277 | `from X import Y` splits into exactly two parts on `" import "` |
| ContextCollection.ModulePath | core_agent/tools/context_collection_tool.py:275-289 | a module path is found only for a `from ` or `import ` statement, and its dots have become separators |
| ContextCollection.Candidates | core_agent/tools/context_collection_tool.py:279-295 | there are four candidate paths |
| ContextCollection.FirstExisting | core_agent/tools/context_collection_tool.py:285-287 | the first candidate that exists, or none exactly when none exists |
| ContextCollection.FindExisting | core_agent/tools/context_collection_tool.py:285-298 | the loop finds exactly `FirstExisting` |
| ContextCollection.ResolveImportToFilePath | core_agent/tools/context_collection_tool.py:249-302 | the method computes exactly `Resolved` |
| ContextCollection.Resolved | core_agent/tools/context_collection_tool.py:273-302 | a non-Python extension resolves to nothing; a resolved import has a module path and one of its candidate files exists |
| ContextCollection.ResolvedIsFirstExisting | core_agent/tools/context_collection_tool.py:273-302 | non-Python files give `None`; otherwise the absolute form of the first existing candidate, if any |
| CrossFileAnalysis.KindOf | core_agent/tools/cross_file_analysis_tool.py:119-128 | each of the four names maps to its kind, case-insensitively; anything else is a reference |
| CrossFileAnalysis.KindIgnoresCase | core_agent/tools/cross_file_analysis_tool.py:118 | upper- or lower-casing the name does not change the kind |
| CrossFileAnalysis.DependencyTypeOf | core_agent/tools/cross_file_analysis_tool.py:118-128 | a missing type is a reference; a present non-string type raises AttributeError |
| CrossFileAnalysis.ParseOne | core_agent/tools/cross_file_analysis_tool.py:116-142 | a record fails only through its type; otherwise it yields a dependency exactly when it has both files |
| CrossFileAnalysis.ParseDependencies | core_agent/tools/cross_file_analysis_tool.py:112-143 | the loop computes exactly `Parsed` |
| CrossFileAnalysis.Complete | core_agent/tools/cross_file_analysis_tool.py:132-133 | keeps only input records that have both files |
| CrossFileAnalysis.ParsedFails | core_agent/tools/cross_file_analysis_tool.py:118-142 | parsing fails exactly when some record has a non-string type, and then with AttributeError, which escapes |
| CrossFileAnalysis.ParsedKeepsComplete | core_agent/tools/cross_file_analysis_tool.py:115-142 | the output is the complete records, in order, with their kinds and optional fields |
| CrossFileAnalysis.Parsed | core_agent/tools/cross_file_analysis_tool.py:115-142 | the output is never longer than the input |
| Refactoring.Validate | core_agent/tools/refactoring_tools.py:74-81 | valid exactly when there are files, a rename has a symbol and a new name, and an extract-method has a selection; each failure is its ValueError, the file check first |
| Refactoring.OtherTypesUnchecked | core_agent/tools/refactoring_tools.py:74-81 | other types are checked only for a non-empty file list |
| Refactoring.ReadContents | core_agent/tools/refactoring_tools.py:84-91 | the loop computes exactly `ReadAll` |
| Refactoring.ReadAllContents | core_agent/tools/refactoring_tools.py:84-88 | a successful read maps exactly the given paths, each to its text |
| Refactoring.ReadAll | core_agent/tools/refactoring_tools.py:84-91 | reading the files fails only with ValueError |
| Refactoring.ReadAllFailure | core_agent/tools/refactoring_tools.py:89-91 | a failure is the ValueError "Error reading file …" for the first unreadable path |
| Refactoring.Dependencies | core_agent/tools/refactoring_tools.py:93-106 | the analysis result is used exactly when the analysis runs and succeeds |
| Refactoring.AnalysisTrigger | core_agent/tools/refactoring_tools.py:94 | a single file of another type is not analysed; a rename always is |
| Refactoring.Prepare | core_agent/tools/refactoring_tools.py:74-106 | the method computes exactly `Prepared` |
| Refactoring.Prepared | core_agent/tools/refactoring_tools.py:74-106 | preparation fails only with ValueError; when it succeeds the inputs were valid and the contents are keyed by exactly the requested paths |
| Refactoring.ValidationFirst | core_agent/tools/refactoring_tools.py:74-81 | invalid input is reported before any file is read |
| Refactoring.AnalysisFailureSwallowed | core_agent/tools/refactoring_tools.py:103-106 | a failed analysis never surfaces: the run succeeds exactly when validation and reads do, with no dependencies |
| PathUtils.SubpathReflexive | shared/utils/path_utils.py:38-41 | every path is a subpath of itself |
| PathUtils.SubpathTransitive | shared/utils/path_utils.py:38-41 | being a subpath is transitive |
| PathUtils.SafeIffSubpath | shared/utils/path_utils.py:44-60 | with an absolute working directory, `is_safe_path` is `is_subpath` |
| PathUtils.NormalizePath | shared/utils/path_utils.py:14-24 | a normalised path is left alone by a second normalisation, stays absolute or relative, and holds no two separators in a row after its start |
| PathUtils.SiblingCountedAsSubpath | shared/utils/path_utils.py:41 | `/x/yz` counts as inside `/x/y` (`/a/bc` inside `/a/b`), though it is not within it |
| PathUtils.TraversalRejected | shared/utils/path_utils.py:44-60 | `..` is resolved before the test: `/d/../x/y` (`/base/../etc/passwd`) becomes `/x/y` and is not safe under `/d` |
| PathUtils.WithinIffComponentPrefix | shared/utils/path_utils.py:27-41 | the corrected test holds exactly when the parent's components start the path's |
| PathUtils.WithinIsSubpath | shared/utils/path_utils.py:41 | the corrected test accepts only what the prefix test accepts |
| PathUtils.WithinPreorder | shared/utils/path_utils.py:27-41 | the corrected test is reflexive and transitive |
| PathUtils.SplitPath | shared/utils/path_utils.py:80-91 | the tail holds no separator and ends the normalised path; the head starts it |
| PathUtils.SplitPathRoundTrip | shared/utils/path_utils.py:80-91 | joining the head and tail gives the normalised path, for every path |
| PathUtils.SplitPathNormalises | shared/utils/path_utils.py:90-91 | `x/./y/` splits as `x` and `y`: the path is normalised before it is split |
| PathUtils.GetFileExtension | shared/utils/path_utils.py:94-105 | `""` or a suffix of the path that starts with its only dot and has no separator |
| PathUtils.ExtensionOfName | shared/utils/path_utils.py:104-105 | a name ending in `.ext` has extension `.ext` |
| FileUtils.BinaryCount | shared/utils/file_utils.py:40-43 | zero exactly when every byte is a text byte, the length exactly when none is |
| FileUtils.BinaryCountConcat | shared/utils/file_utils.py:43 | the count adds up over concatenated chunks |
| FileUtils.EncodeDecode | shared/utils/file_utils.py:50-54 | every scalar value encodes to one well-formed UTF-8 character that decodes back to it |
| FileUtils.DecodeEncode | shared/utils/file_utils.py:50-54 | every well-formed UTF-8 character is the encoding of its scalar value |
| FileUtils.EncodedIsValid | shared/utils/file_utils.py:50-54 | any sequence of scalar values encodes to valid UTF-8 |
| FileUtils.ValidIsEncoded | shared/utils/file_utils.py:50-54 | valid UTF-8 is exactly the encoding of its decoded scalar values |
| FileUtils.CutCharInvalid | shared/utils/file_utils.py:36-54 | valid text with its last character cut short is not valid UTF-8 |
| FileUtils.ValidConcat | shared/utils/file_utils.py:50-54 | valid UTF-8 chunks concatenate to valid UTF-8 |
| FileUtils.TextChunkBounds | shared/utils/file_utils.py:44-54 | the empty chunk is text; a text chunk has at most 30% non-text bytes and is valid UTF-8 |
| FileUtils.AsciiTextIsText | shared/utils/file_utils.py:40-54 | a chunk of text bytes only is text |
| FileUtils.AllBinaryIsBinary | shared/utils/file_utils.py:43-47 | a non-empty chunk of non-text bytes only is not text |
| FileUtils.LowControlBytes | shared/utils/file_utils.py:40-47 | the chunk of bytes 0 to 5 is not text |
| FileUtils.WholeCharChunk | shared/utils/file_utils.py:40-54 | six ASCII letters and a two-byte character are text |
| FileUtils.CutCharChunk | shared/utils/file_utils.py:36-54 | the same bytes with the two-byte character cut short are not text, though only one in seven bytes is non-text |

## Left out

- Persistence: `_save_history` and `_load_history` of the operation store, and the history file they use, are file I/O and are not modelled. The store is in memory.
- Recovery.RecordFromDict: where Python would store a field of an unexpected type as it is, the model rejects it with a TypeError. For a stored error whose `category` or `severity` is not a string, Python does not store the value either: `ErrorCategory(...)` or `ErrorSeverity(...)` raises ValueError (recovery_service.py:105-106), while the model raises TypeError. Both fail, and the only caller, `_load_history`, catches any exception, so the kind of the exception is not observable there. Python raises on a missing key and on an unknown category or severity string, and the model does too.
- Recovery.RecoveryService.Recover: the metadata dictionary is a value, so aliasing of a caller's metadata dict is not modelled. The model also does not write to the history file.
- Recovery.RecoveryService.Recover: the strategy is given the live `ErrorInfo` of the record (recovery_service.py:267). The model passes it a value, so a strategy that mutates that object is not modelled.
- Recovery.RecoveryService.Retry: the handler is given the live record itself (recovery_service.py:306). The model passes it a snapshot of the record's data, so a handler that mutates the record is not modelled.
- ErrorHandling.ErrorHandler.CallHandlers: each handler is given the live `ErrorInfo` (error_handler.py:344-346). The model passes it a value, so a handler that mutates that object is not modelled.
- ErrorHandling.ErrorHandler.HandleException: Python returns the same `ErrorInfo` object its handlers were given (error_handler.py:188-193), so changes a handler makes show in the result. The model returns the value built before the handlers ran. No handler is registered by default, and none of the default strategies mutates it (error_handler.py:353-390).
- ErrorHandling.ErrorHandler.CreateError: as for HandleException, Python returns the object its handlers were given (error_handler.py:230-235), and the model returns the value built before the handlers ran.
- ErrorHandling.ErrorHandler.Recover: the strategy is given the caller's own `ErrorInfo` (error_handler.py:294). The model passes it a value, so a strategy that mutates the caller's object is not modelled.
- PyValues.Text: renders a list as `[...]` and a dict as `{...}` instead of Python's `repr`. A dict is modelled as a `map`, which keeps no insertion order, so its repr cannot be reproduced. This reaches WorkflowNodes.ExecuteChanges and WorkflowNodes.ExecutedUnknownType: a change type that is a list or dict, such as `["a"]`, gives `Unknown change type: [...]` where Python writes `Unknown change type: ['a']` (workflow_nodes.py:211-213). `plan_changes` only writes string types, but the state's `changes` is an open dictionary.
- WorkflowNodes.ExecuteChanges: a list or dict change type is rendered as a placeholder in the error message (see PyValues.Text above).
- WorkflowNodes.ExecutedUnknownType: states the placeholder message for a list or dict change type, not Python's repr (see PyValues.Text above).
- History.HistoryManager.GetEntries: with no limit and no filter, Python returns `self.entries` itself, so a caller that mutates it changes the history. The model returns a value equal to it and does not model that aliasing.
- Logging (`_log_error`, every `logger` call), tracebacks (a `trace` string parameter), uuids and the clock are left out or are parameters.
- The language-model backends, the async `_arun` wrappers and the `_run` bodies of the tools, other than the refactoring steps modelled here, are left out. They call external models.
- The workflow graph engine is a foreign library. The agent's graph nodes are identity functions, so `execute` takes the workflow's outcome as a parameter rather than running the workflow nodes.
- Concurrency: a cancel that races a running `execute` is modelled as one step between registering and finishing.
- AgentResponse: its pydantic field validation is not modelled. Fields copied from the final state keep whatever value it held.
- Dependency: its pydantic field validation is not modelled. A present but non-string `source_file` is kept as the value it is. The fields of `Dependency` and `DependencyType` are taken from their use at cross_file_analysis_tool.py:116-142. The tool imports them at line 12, but `shared/models/code.py` does not define them.
- PyStrings.Lower: lower-cases ASCII letters only, while Python's `str.lower` follows Unicode. A non-ASCII character that lower-cases to ASCII is therefore missed: U+212A KELVIN SIGN lower-cases to `k`. In Python, the extension `.\u212At` lower-cases to `.kt` (Kotlin), but the model leaves it unmapped.
- CodeCompletion.LanguageFromExtension: ignores case for ASCII letters only (see PyStrings.Lower above).
- ContextCollection.FamilyOf: ignores case for ASCII letters only (see PyStrings.Lower above).
- CrossFileAnalysis.KindOf: ignores case for ASCII letters only (see PyStrings.Lower above).
- Recovery.SortNewestFirst: a stable insertion sort. Python's sort is also stable, so equal timestamps keep the order of the dictionary. Stability is not stated as a contract: the contract says newest first and a permutation.
- CodeCompletion.ExtractContext: `context_lines` is a natural number. Both callers use the default of 10, so a negative value, for which Python would write the marker outside the window or raise IndexError, is not modelled.
- OsPath.Normpath: POSIX `normpath` on `str` paths only. Bytes paths and `os.fspath` of path objects are not modelled; `str(path)` is taken to be the string itself. `expanduser` is not modelled.
- is_text_file I/O: the existence check, the read of the first 8192 bytes and a read error are left out. The model classifies the chunk read.
- FileUtils.IsTextChunk: `binary_chars / len(chunk) > 0.3` becomes `10 * binary > 3 * len`. For chunks of at most 8192 bytes, the floating-point comparison gives the same answer.
- `get_relative_path`, `list_files`, `get_file_metadata` and `read_file` are file-system I/O or wrap `os.path.relpath`, and are not modelled.
- `protocol.py`, the transports, `main.py` and the LLM configuration are not part of this model.

## Findings

| source | as written | input that shows it | evidently intended | confidence | as-written member | corrected member |
|---|---|---|---|---|---|---|
| shared/utils/path_utils.py:41 | `is_subpath` tests whether the absolute path starts with the absolute parent, as strings | path `/a/bc`, parent `/a/b`: reported as a subpath, so `is_safe_path("/a/bc", "/a/b")` lets a sibling directory through | the path lies in the parent's tree: the parent's components start the path's components | not executed | PathUtils.SiblingCountedAsSubpath | PathUtils.WithinIffComponentPrefix |
