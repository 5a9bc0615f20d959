/** The agent's workflow graph and its registry of running tasks
    (core_agent/agent/langgraph_agent.py). The graph engine that runs the
    workflow is a foreign library: its result, a final state or a raised
    exception, is a parameter, and cancellation while the workflow runs is
    a step taken between registering the task and finishing it. */
module LangGraphAgent {

  import opened Wrappers
  import opened PyValues
  import opened Exceptions

  /** The graph's nodes, with the engine's own entry and exit points. */
  datatype Node = Start | UnderstandRequest | AnalyzeContext | PlanChanges | ExecuteChanges | VerifyResults | End

  /** The node after `n`: a fixed chain, except that after `verify_results`
      the graph ends when verification passed and goes back to planning
      when it did not. `End` has no successor and is left where it is. */
  function Next(n: Node, verificationPassed: bool): (m: Node)
    ensures m == End <==> n == End || (n == VerifyResults && verificationPassed)
  {
    match n
    case Start => UnderstandRequest
    case UnderstandRequest => AnalyzeContext
    case AnalyzeContext => PlanChanges
    case PlanChanges => ExecuteChanges
    case ExecuteChanges => VerifyResults
    case VerifyResults => if verificationPassed then End else PlanChanges
    case End => End
  }

  /** Only the verification node's edge depends on the verdict. */
  lemma OnlyVerifyBranches(n: Node)
    ensures Next(n, true) != Next(n, false) <==> n == VerifyResults
  {
  }

  /** The node reached from `n` after `k` steps when every verification
      gives the same verdict. */
  function After(n: Node, verificationPassed: bool, k: nat): Node
    decreases k
  {
    if k == 0 then n else After(Next(n, verificationPassed), verificationPassed, k - 1)
  }

  /** When verification passes, the run visits the five nodes in order and
      ends on the sixth step. */
  lemma {:induction false} PassingRunEnds()
    ensures After(Start, true, 1) == UnderstandRequest
    ensures After(Start, true, 2) == AnalyzeContext
    ensures After(Start, true, 3) == PlanChanges
    ensures After(Start, true, 4) == ExecuteChanges
    ensures After(Start, true, 5) == VerifyResults
    ensures After(Start, true, 6) == End
  {
    assert After(End, true, 0) == End;
    assert After(VerifyResults, true, 1) == End;
    assert After(ExecuteChanges, true, 2) == End;
    assert After(PlanChanges, true, 3) == End;
    assert After(AnalyzeContext, true, 4) == End;
    assert After(UnderstandRequest, true, 5) == End;
  }

  /** The planning, execution and verification nodes form a cycle that a
      failing verification never leaves. */
  lemma {:induction false} FailingLoopStays(n: Node, k: nat)
    requires n in {PlanChanges, ExecuteChanges, VerifyResults}
    ensures After(n, false, k) in {PlanChanges, ExecuteChanges, VerifyResults}
    decreases k
  {
    if k > 0 {
      FailingLoopStays(Next(n, false), k - 1);
    }
  }

  /** There is no bound on the number of iterations: while verification
      keeps failing, no number of steps from the start reaches `End`. */
  lemma FailingRunNeverEnds(k: nat)
    ensures After(Start, false, k) != End
  {
    if k >= 3 {
      assert After(Start, false, k) == After(UnderstandRequest, false, k - 1);
      assert After(UnderstandRequest, false, k - 1) == After(AnalyzeContext, false, k - 2);
      assert After(AnalyzeContext, false, k - 2) == After(PlanChanges, false, k - 3);
      FailingLoopStays(PlanChanges, k - 3);
    } else if k == 2 {
      assert After(Start, false, 2) == AnalyzeContext;
    } else if k == 1 {
      assert After(Start, false, 1) == UnderstandRequest;
    }
  }

  /** `AgentRequest`. */
  datatype AgentRequest = AgentRequest(taskType: string, inputs: map<string, Value>,
                                       context: Option<map<string, Value>>)

  /** `AgentResponse`: the fields copied from the final state keep whatever
      value the state held. */
  datatype AgentResponse = AgentResponse(
    taskId: string,
    status: Value,
    results: Value,
    requiresUserConfirmation: Value,
    preview: Value,
    changes: Value,
    error: Value)

  /** An `active_tasks` entry. */
  datatype TaskEntry = TaskEntry(state: map<string, Value>, cancelled: bool)

  /** The state a task starts from. */
  function InitialState(taskId: string, request: AgentRequest): (s: map<string, Value>)
    ensures s.Keys == {"task_id", "task_type", "inputs", "context", "status", "results", "changes", "error"}
  {
    map["task_id" := Str(taskId),
        "task_type" := Str(request.taskType),
        "inputs" := Dict(request.inputs),
        "context" := Dict(OrEmpty(request.context)),
        "status" := Str("in_progress"),
        "results" := Null,
        "changes" := Null,
        "error" := Null]
  }

  /** The response for a task that raised `e`. */
  function ErrorResponse(taskId: string, e: Fault): AgentResponse {
    AgentResponse(taskId, Str("error"), Null, Bool(false), Null, Null, Str(e.message))
  }

  /** The response built from a final state, with the documented defaults. */
  function Respond(taskId: string, final: map<string, Value>): AgentResponse {
    AgentResponse(taskId, Get(final, "status", Str("completed")), Get(final, "results", Null),
                  Get(final, "requires_confirmation", Bool(false)), Get(final, "preview", Null),
                  Get(final, "changes", Null), Get(final, "error", Null))
  }

  /** `str(KeyError(task_id))`. */
  function MissingTask(taskId: string): Fault {
    Fault(KeyError, "'" + taskId + "'")
  }

  class Agent {
    /** `active_tasks`. */
    var activeTasks: map<string, TaskEntry>

    constructor ()
      ensures activeTasks == map[]
    {
      activeTasks := map[];
    }

    /** The first half of `execute`: the new task is registered, not
        cancelled, with its initial state. */
    method Begin(taskId: string, request: AgentRequest) returns (initial: map<string, Value>)
      modifies this
      ensures initial == InitialState(taskId, request)
      ensures activeTasks == old(activeTasks)[taskId := TaskEntry(initial, false)]
    {
      initial := InitialState(taskId, request);
      activeTasks := activeTasks[taskId := TaskEntry(initial, false)];
    }

    /** `cancel`: the flag of a registered task is set; an unknown id
        changes nothing. */
    method Cancel(taskId: string) returns (ok: bool)
      modifies this
      ensures ok <==> taskId in old(activeTasks)
      ensures ok ==> activeTasks == old(activeTasks)[taskId := old(activeTasks)[taskId].(cancelled := true)]
      ensures !ok ==> activeTasks == old(activeTasks)
    {
      if taskId in activeTasks {
        activeTasks := activeTasks[taskId := activeTasks[taskId].(cancelled := true)];
        return true;
      }
      return false;
    }

    /** The second half of `execute`, once the workflow has returned the
        final state or raised: a cancelled task answers `cancelled` and
        stays registered; otherwise the task is removed and the response
        is read from the final state, or reports the exception. */
    method Finish(taskId: string, outcome: Result<map<string, Value>, Fault>) returns (response: AgentResponse)
      modifies this
      ensures outcome.Failure? ==>
        response == ErrorResponse(taskId, outcome.error) && activeTasks == old(activeTasks) - {taskId}
      ensures outcome.Success? && taskId !in old(activeTasks) ==>
        response == ErrorResponse(taskId, MissingTask(taskId)) && activeTasks == old(activeTasks)
      ensures outcome.Success? && taskId in old(activeTasks) && old(activeTasks)[taskId].cancelled ==>
        response == AgentResponse(taskId, Str("cancelled"), Null, Bool(false), Null, Null, Str("Task was cancelled")) &&
        activeTasks == old(activeTasks)
      ensures outcome.Success? && taskId in old(activeTasks) && !old(activeTasks)[taskId].cancelled ==>
        response == Respond(taskId, outcome.value) && activeTasks == old(activeTasks) - {taskId}
    {
      if outcome.Failure? {
        if taskId in activeTasks {
          activeTasks := activeTasks - {taskId};
        }
        return ErrorResponse(taskId, outcome.error);
      }
      if taskId !in activeTasks {
        return ErrorResponse(taskId, MissingTask(taskId));
      }
      if activeTasks[taskId].cancelled {
        return AgentResponse(taskId, Str("cancelled"), Null, Bool(false), Null, Null, Str("Task was cancelled"));
      }
      response := Respond(taskId, outcome.value);
      activeTasks := activeTasks - {taskId};
    }

    /** `execute` with the generated id `taskId`, as three sequential steps:
        register, an optional cancel while the workflow runs, finish. The
        task stays registered exactly when it was cancelled and the
        workflow returned. */
    method Execute(taskId: string, request: AgentRequest, cancelWhileRunning: bool,
                   outcome: Result<map<string, Value>, Fault>)
      returns (response: AgentResponse)
      modifies this
      ensures response.taskId == taskId
      ensures outcome.Failure? ==> response == ErrorResponse(taskId, outcome.error)
      ensures outcome.Success? && cancelWhileRunning ==>
        response.status == Str("cancelled") && response.error == Str("Task was cancelled")
      ensures outcome.Success? && !cancelWhileRunning ==> response == Respond(taskId, outcome.value)
      ensures outcome.Success? && cancelWhileRunning ==>
        activeTasks == old(activeTasks)[taskId := TaskEntry(InitialState(taskId, request), true)]
      ensures !(outcome.Success? && cancelWhileRunning) ==> activeTasks == old(activeTasks) - {taskId}
    {
      var initial := Begin(taskId, request);
      if cancelWhileRunning {
        var ok := Cancel(taskId);
      }
      response := Finish(taskId, outcome);
    }
  }
}
