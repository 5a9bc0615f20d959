/** The five pipeline nodes, each of which updates the shared `AgentState`
    in place and hands it on (core_agent/agent/workflow_nodes.py). The
    language-model argument the nodes take is unused by them and is left
    out; tools are values with a name, and what a tool's `_run` returns or
    raises is the `run` parameter. */
module WorkflowNodes {

  import opened Wrappers
  import opened PyValues
  import opened Exceptions
  import opened AgentStates

  /** A tool object: its `name` and an identity that `run` is given. */
  datatype Tool = Tool(name: string, handle: string)

  /** The status each node leaves behind. */
  const UnderstandingRequest := "understanding_request"
  const AnalyzingContext := "analyzing_context"
  const PlanningChanges := "planning_changes"
  const ExecutingChanges := "executing_changes"
  const Completed := "completed"
  const AwaitingConfirmation := "awaiting_confirmation"
  const ErrorStatus := "error"
  const VerifyingResults := "verifying_results"

  /** The plan `plan_changes` builds for a task type, or `None` for a task
      type it has no plan for. */
  function PlanFor(taskType: string, inputs: map<string, Value>): (plan: Option<map<string, Value>>)
    ensures plan.Some? <==> taskType in {"generate_code", "analyze_code", "write_file"}
    ensures plan.Some? ==> "type" in plan.value && plan.value["type"].Str?
    ensures taskType == "write_file" ==>
      plan.Some? && "requires_confirmation" in plan.value && plan.value["requires_confirmation"] == Bool(true)
  {
    if taskType == "generate_code" then
      Some(map["type" := Str("code_generation"),
               "prompt" := Get(inputs, "prompt", Str("")),
               "language" := Get(inputs, "language", Str("python")),
               "context" := Get(inputs, "context", Null)])
    else if taskType == "analyze_code" then
      Some(map["type" := Str("code_analysis"),
               "file_path" := Get(inputs, "file_path", Str("")),
               "content" := Get(inputs, "content", Str("")),
               "language" := Get(inputs, "language", Str("python"))])
    else if taskType == "write_file" then
      Some(map["type" := Str("file_write"),
               "file_path" := Get(inputs, "file_path", Str("")),
               "content" := Get(inputs, "content", Str("")),
               "encoding" := Get(inputs, "encoding", Str("utf-8")),
               "requires_confirmation" := Bool(true)])
    else None
  }

  /** The tool `execute_changes` looks for, by the plan's `type`. */
  function ToolNameFor(changeType: Value): (name: Option<string>)
    ensures name.Some? <==> changeType in {Str("code_generation"), Str("code_analysis"), Str("file_write")}
  {
    if changeType == Str("code_generation") then Some("generate_code")
    else if changeType == Str("code_analysis") then Some("analyze_code")
    else if changeType == Str("file_write") then Some("write_file")
    else None
  }

  /** A plan is carried out by the tool named like the task that planned
      it. */
  lemma PlanRunsTaskTool(taskType: string, inputs: map<string, Value>)
    requires PlanFor(taskType, inputs).Some?
    ensures ToolNameFor(PlanFor(taskType, inputs).value["type"]) == Some(taskType)
  {
  }

  /** The keyword arguments `execute_changes` passes to the tool, with the
      plan's defaults filled in. */
  function ToolArgs(changeType: Value, changes: map<string, Value>): map<string, Value> {
    if changeType == Str("code_generation") then
      map["prompt" := Get(changes, "prompt", Str("")),
          "language" := Get(changes, "language", Str("python")),
          "context" := Get(changes, "context", Null)]
    else if changeType == Str("code_analysis") then
      map["code" := Get(changes, "content", Str("")),
          "language" := Get(changes, "language", Str("python")),
          "file_path" := Get(changes, "file_path", Null)]
    else
      map["file_path" := Get(changes, "file_path", Str("")),
          "content" := Get(changes, "content", Str("")),
          "encoding" := Get(changes, "encoding", Str("utf-8")),
          "requires_confirmation" := Get(changes, "requires_confirmation", Bool(true))]
  }

  /** The arguments a planned task hands its tool are the task's inputs,
      with the documented defaults for the missing ones. */
  lemma PlannedArgs(taskType: string, inputs: map<string, Value>)
    requires PlanFor(taskType, inputs).Some?
    ensures var plan := PlanFor(taskType, inputs).value;
      var args := ToolArgs(plan["type"], plan);
      (taskType == "generate_code" ==>
         args["prompt"] == Get(inputs, "prompt", Str("")) &&
         args["language"] == Get(inputs, "language", Str("python")) &&
         args["context"] == Get(inputs, "context", Null)) &&
      (taskType == "analyze_code" ==>
         args["code"] == Get(inputs, "content", Str("")) &&
         args["language"] == Get(inputs, "language", Str("python")) &&
         args["file_path"] == Get(inputs, "file_path", Str(""))) &&
      (taskType == "write_file" ==>
         args["file_path"] == Get(inputs, "file_path", Str("")) &&
         args["content"] == Get(inputs, "content", Str("")) &&
         args["encoding"] == Get(inputs, "encoding", Str("utf-8")) &&
         args["requires_confirmation"] == Bool(true))
  {
  }

  /** `next((t for t in tools if t.name == name), None)`: the position of
      the first tool with that name. */
  function FirstNamed(tools: seq<Tool>, name: string): (k: Option<nat>)
    ensures k.None? <==> forall i :: 0 <= i < |tools| ==> tools[i].name != name
    ensures k.Some? ==> k.value < |tools| && tools[k.value].name == name &&
                        forall i :: 0 <= i < k.value ==> tools[i].name != name
  {
    if tools == [] then None
    else if tools[0].name == name then Some(0)
    else
      match FirstNamed(tools[1..], name)
      case None => None
      case Some(k) => Some(k + 1)
  }

  /** `understand_request`: only the status changes. */
  method UnderstandRequest(state: AgentState)
    modifies state
    ensures state.View() == old(state.View()).(status := UnderstandingRequest)
  {
    state.status := UnderstandingRequest;
  }

  /** `analyze_context`: only the status changes. */
  method AnalyzeContext(state: AgentState)
    modifies state
    ensures state.View() == old(state.View()).(status := AnalyzingContext)
  {
    state.status := AnalyzingContext;
  }

  /** `plan_changes`: the status always becomes `planning_changes`; the
      plan is replaced only for the three task types that have one. */
  method PlanChanges(state: AgentState)
    modifies state
    ensures var plan := PlanFor(old(state.taskType), old(state.inputs));
      state.View() == old(state.View()).(status := PlanningChanges,
                                         changes := if plan.Some? then plan else old(state.changes))
  {
    state.status := PlanningChanges;
    var plan := PlanFor(state.taskType, state.inputs);
    if plan.Some? {
      state.changes := plan;
    }
  }

  /** The state `execute_changes` leaves behind: an empty plan completes at
      once; otherwise the tool for the plan's type is looked up and run, and
      every failure, whether an unknown type, a missing tool or a tool that
      raises, ends in the `error` status with the failure's text. It never
      touches the task's identity, its inputs, its context, its plan or the
      verification flag. */
  function Executed(before: StateView, tools: seq<Tool>,
                    run: (Tool, map<string, Value>) -> Result<map<string, Value>, Fault>): (after: StateView)
    ensures after.taskId == before.taskId && after.taskType == before.taskType
    ensures after.inputs == before.inputs && after.context == before.context
    ensures after.changes == before.changes && after.verificationPassed == before.verificationPassed
  {
    if before.changes.None? || before.changes.value == map[] then
      before.(status := Completed, results := Some(map["message" := Str("No changes to execute")]))
    else
      var changes := before.changes.value;
      var changeType := Get(changes, "type", Null);
      var name := ToolNameFor(changeType);
      if name.None? then
        before.(status := ErrorStatus, error := Some("Unknown change type: " + Text(changeType)))
      else
        match FirstNamed(tools, name.value)
        case None => before.(status := ErrorStatus, error := Some(name.value + " tool not found"))
        case Some(k) =>
          match run(tools[k], ToolArgs(changeType, changes))
          case Failure(f) => before.(status := ErrorStatus, error := Some(f.message))
          case Success(result) =>
            if changeType == Str("file_write") then
              before.(results := Some(result),
                      status := if Truthy(Get(result, "requires_confirmation", Null)) then AwaitingConfirmation else Completed,
                      requiresConfirmation := Get(result, "requires_confirmation", Bool(false)),
                      preview := Get(result, "preview", Null))
            else
              before.(results := Some(result), status := Completed)
  }

  /** `k` is the first position of a tool with that name, as `next(...)`
      finds it. */
  predicate FirstWithName(tools: seq<Tool>, name: string, k: int) {
    0 <= k < |tools| && tools[k].name == name &&
    forall i :: 0 <= i < k ==> tools[i].name != name
  }

  /** A missing or empty plan completes at once with the message and leaves
      the error, the confirmation flag and the preview alone. */
  lemma ExecutedEmptyPlan(before: StateView, tools: seq<Tool>,
                          run: (Tool, map<string, Value>) -> Result<map<string, Value>, Fault>)
    requires before.changes.None? || before.changes.value == map[]
    ensures var after := Executed(before, tools, run);
      after.status == Completed &&
      after.results == Some(map["message" := Str("No changes to execute")]) &&
      after.error == before.error && after.requiresConfirmation == before.requiresConfirmation &&
      after.preview == before.preview
  {
  }

  /** A plan whose type has no tool ends in `error` with the type's text,
      and no results are stored. */
  lemma ExecutedUnknownType(before: StateView, tools: seq<Tool>,
                            run: (Tool, map<string, Value>) -> Result<map<string, Value>, Fault>)
    requires before.changes.Some? && before.changes.value != map[]
    requires Get(before.changes.value, "type", Null) !in
               {Str("code_generation"), Str("code_analysis"), Str("file_write")}
    ensures var after := Executed(before, tools, run);
      after.status == ErrorStatus && after.results == before.results &&
      after.error == Some("Unknown change type: " + Text(Get(before.changes.value, "type", Null)))
  {
  }

  /** A known plan type with no tool of the matching name in the list ends
      in `error` with "<name> tool not found", and no tool is run. */
  lemma ExecutedToolMissing(before: StateView, tools: seq<Tool>,
                            run: (Tool, map<string, Value>) -> Result<map<string, Value>, Fault>)
    requires before.changes.Some? && before.changes.value != map[]
    requires ToolNameFor(Get(before.changes.value, "type", Null)).Some?
    requires var name := ToolNameFor(Get(before.changes.value, "type", Null)).value;
      forall i :: 0 <= i < |tools| ==> tools[i].name != name
    ensures var after := Executed(before, tools, run);
      after.status == ErrorStatus && after.results == before.results &&
      after.error == Some(ToolNameFor(Get(before.changes.value, "type", Null)).value + " tool not found")
  {
  }

  /** Otherwise the first tool with the name runs on the plan's arguments:
      if it raises, the state ends in `error` with the exception's text; if
      it returns, the result is stored and the state is `completed`, or
      `awaiting_confirmation` exactly for a file write whose result asks
      for confirmation. */
  lemma {:induction false} ExecutedRunsFirstTool(before: StateView, tools: seq<Tool>,
                              run: (Tool, map<string, Value>) -> Result<map<string, Value>, Fault>, k: int)
    requires before.changes.Some? && before.changes.value != map[]
    requires ToolNameFor(Get(before.changes.value, "type", Null)).Some?
    requires FirstWithName(tools, ToolNameFor(Get(before.changes.value, "type", Null)).value, k)
    ensures var changeType := Get(before.changes.value, "type", Null);
      var outcome := run(tools[k], ToolArgs(changeType, before.changes.value));
      var after := Executed(before, tools, run);
      (outcome.Failure? ==>
         after.status == ErrorStatus && after.error == Some(outcome.error.message) &&
         after.results == before.results) &&
      (outcome.Success? ==>
         after.results == Some(outcome.value) && after.error == before.error &&
         (after.status == Completed || after.status == AwaitingConfirmation) &&
         (after.status == AwaitingConfirmation <==>
            changeType == Str("file_write") && Truthy(Get(outcome.value, "requires_confirmation", Null))))
  {
    var name := ToolNameFor(Get(before.changes.value, "type", Null)).value;
    var j := FirstNamed(tools, name);
    assert j == Some(k) by {
      assert j.Some?;
      assert !(j.value < k) && !(k < j.value);
    }
  }

  /** Taken together: a non-empty plan ends in `error` exactly when its type
      has no tool, no tool of that name is given, or the first one raises. */
  lemma ExecutedErrorIff(before: StateView, tools: seq<Tool>,
                         run: (Tool, map<string, Value>) -> Result<map<string, Value>, Fault>)
    requires before.changes.Some? && before.changes.value != map[]
    ensures var changeType := Get(before.changes.value, "type", Null);
      var name := ToolNameFor(changeType);
      Executed(before, tools, run).status == ErrorStatus <==>
        name.None? ||
        (forall i :: 0 <= i < |tools| ==> tools[i].name != name.value) ||
        (exists k :: FirstWithName(tools, name.value, k) &&
                     run(tools[k], ToolArgs(changeType, before.changes.value)).Failure?)
  {
    var changeType := Get(before.changes.value, "type", Null);
    var name := ToolNameFor(changeType);
    if name.Some? {
      match FirstNamed(tools, name.value)
      case None =>
        ExecutedToolMissing(before, tools, run);
      case Some(k) =>
        ExecutedRunsFirstTool(before, tools, run, k);
        forall k' | FirstWithName(tools, name.value, k')
          ensures k' == k
        {
          assert !(k' < k) && !(k < k');
        }
    } else {
      ExecutedUnknownType(before, tools, run);
    }
  }

  /** `execute_changes`. */
  method ExecuteChanges(state: AgentState, tools: seq<Tool>,
                        run: (Tool, map<string, Value>) -> Result<map<string, Value>, Fault>)
    modifies state
    ensures state.View() == Executed(old(state.View()), tools, run)
  {
    var changes := state.changes;
    if changes.None? || changes.value == map[] {
      state.status := Completed;
      state.results := Some(map["message" := Str("No changes to execute")]);
      return;
    }
    state.status := ExecutingChanges;
    var changeType := Get(changes.value, "type", Null);
    var name := ToolNameFor(changeType);
    if name.None? {
      state.status := ErrorStatus;
      state.error := Some("Unknown change type: " + Text(changeType));
      return;
    }
    var k := FirstNamed(tools, name.value);
    if k.None? {
      state.status := ErrorStatus;
      state.error := Some(name.value + " tool not found");
      return;
    }
    var outcome := run(tools[k.value], ToolArgs(changeType, changes.value));
    if outcome.Failure? {
      state.status := ErrorStatus;
      state.error := Some(outcome.error.message);
      return;
    }
    StoreResult(state, changeType == Str("file_write"), outcome.value);
  }

  /** The tail of `execute_changes` once the tool has returned: the result
      is stored, and a file write also takes its confirmation flag and
      preview from it. */
  method StoreResult(state: AgentState, fileWrite: bool, result: map<string, Value>)
    modifies state
    ensures fileWrite ==> state.View() == old(state.View()).(
      results := Some(result),
      status := if Truthy(Get(result, "requires_confirmation", Null)) then AwaitingConfirmation else Completed,
      requiresConfirmation := Get(result, "requires_confirmation", Bool(false)),
      preview := Get(result, "preview", Null))
    ensures !fileWrite ==> state.View() == old(state.View()).(results := Some(result), status := Completed)
  {
    state.results := Some(result);
    if fileWrite {
      state.status := if !Truthy(Get(result, "requires_confirmation", Null)) then Completed else AwaitingConfirmation;
      state.requiresConfirmation := Get(result, "requires_confirmation", Bool(false));
      state.preview := Get(result, "preview", Null);
    } else {
      state.status := Completed;
    }
  }

  /** `verify_results`: with no results, or empty ones, verification fails
      and the status stays; otherwise it passes. */
  method VerifyResults(state: AgentState)
    modifies state
    ensures var before := old(state.View());
      if before.results.None? || before.results.value == map[] then
        state.View() == before.(verificationPassed := false)
      else
        state.View() == before.(status := VerifyingResults, verificationPassed := true)
  {
    if state.results.None? || state.results.value == map[] {
      state.verificationPassed := false;
      return;
    }
    state.status := VerifyingResults;
    state.verificationPassed := true;
  }
}
