/** The state record the task pipeline's nodes read and update in place
    (core_agent/agent/state_models.py). */
module AgentStates {

  import opened Wrappers
  import opened PyValues

  /** Every field of an `AgentState` at one moment. `requires_confirmation`
      and `preview` hold whatever value a tool returned for them, as the
      record does not validate assignments. */
  datatype StateView = StateView(
    taskId: string,
    taskType: string,
    inputs: map<string, Value>,
    context: map<string, Value>,
    status: string,
    results: Option<map<string, Value>>,
    changes: Option<map<string, Value>>,
    error: Option<string>,
    requiresConfirmation: Value,
    preview: Value,
    verificationPassed: bool)

  /** The status a new state starts in. */
  const InProgress := "in_progress"

  /** The record built from a task id and type, with every other field at
      its default. */
  function Initial(taskId: string, taskType: string, inputs: Option<map<string, Value>>,
                   context: Option<map<string, Value>>): (v: StateView)
    ensures v.taskId == taskId && v.taskType == taskType
    ensures v.inputs == OrEmpty(inputs) && v.context == OrEmpty(context)
    ensures v.status == InProgress
    ensures v.results.None? && v.changes.None? && v.error.None?
    ensures v.requiresConfirmation == Bool(false) && !Truthy(v.requiresConfirmation)
    ensures v.preview == Null && v.verificationPassed
  {
    StateView(taskId, taskType, OrEmpty(inputs), OrEmpty(context), InProgress, None, None, None,
              Bool(false), Null, true)
  }

  /** An `AgentState`. The task id and type are never reassigned by the
      pipeline; the other fields are. */
  class AgentState {
    var taskId: string
    var taskType: string
    var inputs: map<string, Value>
    var context: map<string, Value>
    var status: string
    var results: Option<map<string, Value>>
    var changes: Option<map<string, Value>>
    var error: Option<string>
    var requiresConfirmation: Value
    var preview: Value
    var verificationPassed: bool

    function View(): StateView
      reads this
    {
      StateView(taskId, taskType, inputs, context, status, results, changes, error,
                requiresConfirmation, preview, verificationPassed)
    }

    /** `AgentState(task_id=..., task_type=..., inputs=..., context=...)`:
        `inputs` and `context` default to empty dicts. */
    constructor (taskId: string, taskType: string, inputs: Option<map<string, Value>>,
                 context: Option<map<string, Value>>)
      ensures View() == Initial(taskId, taskType, inputs, context)
    {
      this.taskId := taskId;
      this.taskType := taskType;
      this.inputs := OrEmpty(inputs);
      this.context := OrEmpty(context);
      status := InProgress;
      results := None;
      changes := None;
      error := None;
      requiresConfirmation := Bool(false);
      preview := Null;
      verificationPassed := true;
    }
  }
}
