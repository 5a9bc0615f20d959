/** The operation store: records of operations with their status, result,
    error and metadata, the transitions that start, complete, fail, recover
    and retry them, and the filtered, sorted and paginated listing
    (core_agent/error/recovery_service.py). Clock readings and fresh ids are
    parameters; saving to and loading from the history file is not modelled. */
module Recovery {

  import opened Wrappers
  import opened PyValues
  import opened Exceptions
  import opened PySeqs
  import EH = ErrorHandling

  /** `OperationStatus`. */
  const Pending := "pending"
  const InProgress := "in_progress"
  const Completed := "completed"
  const Error := "error"
  const Recovered := "recovered"

  /** Every field of an `OperationRecord` at one moment. */
  datatype RecordData = RecordData(
    operationId: string,
    operationType: string,
    inputs: map<string, Value>,
    status: string,
    result: Value,
    error: Option<EH.ErrorInfo>,
    parentOperationId: Option<string>,
    metadata: map<string, Value>,
    timestamp: int,
    updatedAt: int)

  /** `str(KeyError(key))`. */
  function MissingKey(key: string): Fault {
    Fault(KeyError, "'" + key + "'")
  }

  /** A field whose value has a type the record does not hold. */
  function BadField(key: string): Fault {
    Fault(TypeError, "'" + key + "'")
  }

  function RecordToDict(d: RecordData): (m: map<string, Value>)
    ensures m.Keys == {"operation_id", "operation_type", "inputs", "status", "result", "error",
                       "parent_operation_id", "metadata", "timestamp", "updated_at"}
    ensures d.error.Some? ==> m["error"].Dict? && "message" in m["error"].entries
    ensures d.error.None? ==> m["error"] == Null
  {
    map[
      "operation_id" := Str(d.operationId),
      "operation_type" := Str(d.operationType),
      "inputs" := Dict(d.inputs),
      "status" := Str(d.status),
      "result" := d.result,
      "error" := if d.error.Some? then Dict(EH.ToDict(d.error.value)) else Null,
      "parent_operation_id" := OptStr(d.parentOperationId),
      "metadata" := Dict(d.metadata),
      "timestamp" := Int(d.timestamp),
      "updated_at" := Int(d.updatedAt)]
  }

  /** `data[key]` where a string is expected. */
  function RequiredStr(m: map<string, Value>, key: string): Result<string, Fault> {
    if key !in m then Failure(MissingKey(key))
    else if m[key].Str? then Success(m[key].s)
    else Failure(BadField(key))
  }

  /** `data.get(key)` where an optional string is expected. */
  function OptionalStr(m: map<string, Value>, key: string): Result<Option<string>, Fault> {
    match Get(m, key, Null)
    case Null => Success(None)
    case Str(s) => Success(Some(s))
    case _ => Failure(BadField(key))
  }

  /** `data.get(key, default) or {}` where a dict is expected. */
  function DictOrEmpty(m: map<string, Value>, key: string): Result<map<string, Value>, Fault> {
    var v := Get(m, key, Null);
    if v.Dict? then Success(v.entries)
    else if !Truthy(v) then Success(map[])
    else Failure(BadField(key))
  }

  /** One `{"name": ..., "description": ...}` entry of `recovery_options`. */
  function OptionFromValue(v: Value): Result<EH.RecoveryOption, Fault> {
    if v.Dict? && "name" in v.entries && v.entries["name"].Str? &&
       "description" in v.entries && v.entries["description"].Str?
    then Success(EH.RecoveryOption(v.entries["name"].s, v.entries["description"].s))
    else Failure(BadField("recovery_options"))
  }

  function OptionsFromValues(vs: seq<Value>): (r: Result<seq<EH.RecoveryOption>, Fault>)
    ensures r.Success? ==> |r.value| == |vs|
  {
    if vs == [] then Success([])
    else
      var o :- OptionFromValue(vs[0]);
      var rest :- OptionsFromValues(vs[1..]);
      Success([o] + rest)
  }

  /** The `ErrorInfo(...)` rebuilt by `from_dict` from a stored error: no
      exception, hence no stack trace, and a fresh timestamp. */
  function ErrorFromDict(m: map<string, Value>, now: int): (r: Result<EH.ErrorInfo, Fault>)
    ensures "message" !in m ==> r == Failure(MissingKey("message"))
    ensures r.Success? ==>
      "message" in m && m["message"] == Str(r.value.message) &&
      "category" in m && m["category"] == Str(EH.CategoryValue(r.value.category)) &&
      "severity" in m && m["severity"] == Str(EH.SeverityValue(r.value.severity)) &&
      r.value.exception.None? && r.value.stackTrace.None? && r.value.timestamp == now
  {
    var message :- RequiredStr(m, "message");
    var categoryValue :- RequiredStr(m, "category");
    var category :- match EH.CategoryFromValue(categoryValue)
      case Some(c) => Success(c)
      case None => Failure(Fault(ValueError, "'" + categoryValue + "' is not a valid ErrorCategory"));
    var severityValue :- RequiredStr(m, "severity");
    var severity :- match EH.SeverityFromValue(severityValue)
      case Some(s) => Success(s)
      case None => Failure(Fault(ValueError, "'" + severityValue + "' is not a valid ErrorSeverity"));
    var details :- DictOrEmpty(m, "details");
    var optionValues := Get(m, "recovery_options", Null);
    var options :- if optionValues.List? then OptionsFromValues(optionValues.items)
                   else if !Truthy(optionValues) then Success([])
                   else Failure(BadField("recovery_options"));
    var operationId :- OptionalStr(m, "operation_id");
    Success(EH.NewErrorInfo(message, category, severity, None, Some(details), options, operationId, now, ""))
  }

  /** The `error` entry of a stored record: absent or falsy means none. */
  function ErrorField(data: map<string, Value>, now: int): (r: Result<Option<EH.ErrorInfo>, Fault>)
    ensures !Truthy(Get(data, "error", Null)) ==> r == Success(None)
    ensures r.Success? && r.value.Some? ==>
      Get(data, "error", Null).Dict? && r.value.value.timestamp == now && r.value.value.exception.None?
  {
    var errorValue := Get(data, "error", Null);
    if !Truthy(errorValue) then Success(None)
    else if errorValue.Dict? then
      var e :- ErrorFromDict(errorValue.entries, now);
      Success(Some(e))
    else Failure(BadField("error"))
  }

  /** `OperationRecord.from_dict(data)`, read at clock time `now`. */
  function RecordFromDict(data: map<string, Value>, now: int): (r: Result<RecordData, Fault>)
    ensures r.Success? ==>
      "operation_id" in data && data["operation_id"] == Str(r.value.operationId) &&
      "operation_type" in data && data["operation_type"] == Str(r.value.operationType) &&
      "inputs" in data && data["inputs"] == Dict(r.value.inputs) &&
      "status" in data && data["status"] == Str(r.value.status) &&
      r.value.result == Get(data, "result", Null) &&
      r.value.timestamp == now && r.value.updatedAt == now
    ensures ErrorField(data, now).Success? && "operation_id" !in data ==>
      r == Failure(MissingKey("operation_id"))
  {
    var error :- ErrorField(data, now);
    var operationId :- RequiredStr(data, "operation_id");
    var operationType :- RequiredStr(data, "operation_type");
    var inputs :- if "inputs" !in data then Failure(MissingKey("inputs"))
                  else if data["inputs"].Dict? then Success(data["inputs"].entries)
                  else Failure(BadField("inputs"));
    var status :- RequiredStr(data, "status");
    var parent :- OptionalStr(data, "parent_operation_id");
    var metadata :- DictOrEmpty(data, "metadata");
    Success(RecordData(operationId, operationType, inputs, status, Get(data, "result", Null), error,
                       parent, metadata, now, now))
  }

  /** What loading keeps of a stored error: everything `to_dict` wrote except
      the exception, the stack trace and the timestamp. */
  function Reloaded(e: EH.ErrorInfo, now: int): EH.ErrorInfo {
    e.(exception := None, stackTrace := None, timestamp := now)
  }

  lemma {:induction false} OptionsRoundTrip(os: seq<EH.RecoveryOption>, vs: seq<Value>)
    requires |vs| == |os| && forall i :: 0 <= i < |os| ==> vs[i] == EH.OptionValue(os[i])
    ensures OptionsFromValues(vs) == Success(os)
    decreases |os|
  {
    if os != [] {
      OptionsRoundTrip(os[1..], vs[1..]);
      assert [os[0]] + os[1..] == os;
    }
  }

  /** An error survives `to_dict` then `from_dict` up to what loading drops. */
  lemma ErrorRoundTrip(e: EH.ErrorInfo, now: int)
    ensures ErrorFromDict(EH.ToDict(e), now) == Success(Reloaded(e, now))
  {
    var m := EH.ToDict(e);
    EH.CategoryRoundTrip(e.category);
    EH.SeverityRoundTrip(e.severity);
    OptionsRoundTrip(e.recoveryOptions, m["recovery_options"].items);
    assert RequiredStr(m, "message") == Success(e.message);
    assert RequiredStr(m, "category") == Success(EH.CategoryValue(e.category));
    assert RequiredStr(m, "severity") == Success(EH.SeverityValue(e.severity));
    assert DictOrEmpty(m, "details") == Success(e.details);
    assert OptionalStr(m, "operation_id") == Success(e.operationId);
  }

  lemma ErrorFieldRoundTrip(d: RecordData, now: int)
    ensures ErrorField(RecordToDict(d), now) ==
      Success(if d.error.Some? then Some(Reloaded(d.error.value, now)) else None)
  {
    var m := RecordToDict(d);
    var v := Get(m, "error", Null);
    if d.error.Some? {
      assert v.Dict?;
      assert "message" in v.entries;
      assert Truthy(v);
      ErrorRoundTrip(d.error.value, now);
      assert ErrorFromDict(v.entries, now) == Success(Reloaded(d.error.value, now));
    }
  }

  /** `from_dict(to_dict(r))` keeps the id, type, inputs, status, result,
      parent id, metadata and the error's message, category, severity,
      details, options and operation id; both timestamps become the load
      time. */
  lemma RecordRoundTrip(d: RecordData, now: int)
    ensures RecordFromDict(RecordToDict(d), now) ==
      Success(d.(error := if d.error.Some? then Some(Reloaded(d.error.value, now)) else None,
                 timestamp := now, updatedAt := now))
  {
    ErrorFieldRoundTrip(d, now);
    IdFieldsRoundTrip(d);
    DataFieldsRoundTrip(d);
  }

  /** The identifying fields written by `to_dict` read back unchanged. */
  lemma IdFieldsRoundTrip(d: RecordData)
    ensures var m := RecordToDict(d);
      RequiredStr(m, "operation_id") == Success(d.operationId) &&
      RequiredStr(m, "operation_type") == Success(d.operationType) &&
      RequiredStr(m, "status") == Success(d.status)
  {
    var m := RecordToDict(d);
    assert m["operation_id"] == Str(d.operationId);
    assert m["operation_type"] == Str(d.operationType);
    assert m["status"] == Str(d.status);
  }

  /** The data fields written by `to_dict` read back unchanged. */
  lemma DataFieldsRoundTrip(d: RecordData)
    ensures var m := RecordToDict(d);
      "inputs" in m && m["inputs"] == Dict(d.inputs) && Get(m, "result", Null) == d.result &&
      OptionalStr(m, "parent_operation_id") == Success(d.parentOperationId) &&
      DictOrEmpty(m, "metadata") == Success(d.metadata)
  {
    var m := RecordToDict(d);
    assert m["inputs"] == Dict(d.inputs);
    assert m["result"] == d.result;
    assert m["parent_operation_id"] == OptStr(d.parentOperationId);
    assert m["metadata"] == Dict(d.metadata);
  }

  /** The stored timestamps are not read back: a record saved at one time and
      loaded at another comes back with the load time. */
  lemma TimestampNotRestored(d: RecordData, now: int)
    requires now != d.timestamp
    ensures RecordFromDict(RecordToDict(d), now).Success?
    ensures RecordFromDict(RecordToDict(d), now).value.timestamp != d.timestamp
  {
    RecordRoundTrip(d, now);
  }

  /** An `OperationRecord`. The id, type, inputs, parent id and creation time
      are never reassigned; the rest changes in place. */
  class OperationRecord {
    const operationId: string
    const operationType: string
    const inputs: map<string, Value>
    const parentOperationId: Option<string>
    const timestamp: int
    var status: string
    var result: Value
    var error: Option<EH.ErrorInfo>
    var metadata: map<string, Value>
    var updatedAt: int

    function Data(): RecordData
      reads this
    {
      RecordData(operationId, operationType, inputs, status, result, error, parentOperationId,
                 metadata, timestamp, updatedAt)
    }

    /** `OperationRecord(...)` at clock time `now`: `metadata or {}`, and
        `updated_at` starts equal to `timestamp`. */
    constructor (operationId: string, operationType: string, inputs: map<string, Value>, status: string,
                 result: Value, error: Option<EH.ErrorInfo>, parentOperationId: Option<string>,
                 metadata: Option<map<string, Value>>, now: int)
      ensures Data() == RecordData(operationId, operationType, inputs, status, result, error,
                                   parentOperationId, OrEmpty(metadata), now, now)
    {
      this.operationId := operationId;
      this.operationType := operationType;
      this.inputs := inputs;
      this.status := status;
      this.result := result;
      this.error := error;
      this.parentOperationId := parentOperationId;
      this.metadata := OrEmpty(metadata);
      this.timestamp := now;
      this.updatedAt := now;
    }

    /** `update_status`. */
    method UpdateStatus(status: string, now: int)
      modifies this
      ensures Data() == old(Data()).(status := status, updatedAt := now)
    {
      this.status := status;
      updatedAt := now;
    }

    /** `set_result`: the result is stored and the status is `completed`. */
    method SetResult(result: Value, now: int)
      modifies this
      ensures Data() == old(Data()).(result := result, status := Completed, updatedAt := now)
    {
      this.result := result;
      status := Completed;
      updatedAt := now;
    }

    /** `set_error`: the error is stored and the status is `error`. */
    method SetError(error: EH.ErrorInfo, now: int)
      modifies this
      ensures Data() == old(Data()).(error := Some(error), status := Error, updatedAt := now)
    {
      this.error := Some(error);
      status := Error;
      updatedAt := now;
    }
  }

  /** The records in `s` of type `t`, in order. */
  function OfType(s: seq<OperationRecord>, t: string): (r: seq<OperationRecord>)
    ensures |r| <= |s| && multiset(r) <= multiset(s)
    ensures forall x :: x in r ==> x.operationType == t
    ensures forall x :: x in s && x.operationType == t ==> x in r
  {
    if s == [] then []
    else
      var rest := OfType(s[1..], t);
      assert s == [s[0]] + s[1..];
      if s[0].operationType == t then [s[0]] + rest else rest
  }

  /** The records in `s` whose status is `st`, in order. */
  function WithStatus(s: seq<OperationRecord>, st: string): (r: seq<OperationRecord>)
    reads set x | x in s
    ensures |r| <= |s| && multiset(r) <= multiset(s)
    ensures forall x :: x in r ==> x.status == st
    ensures forall x :: x in s && x.status == st ==> x in r
  {
    if s == [] then []
    else
      var rest := WithStatus(s[1..], st);
      assert s == [s[0]] + s[1..];
      if s[0].status == st then [s[0]] + rest else rest
  }

  /** Newest first by creation time. */
  predicate NewestFirst(s: seq<OperationRecord>) {
    forall i, j :: 0 <= i < j < |s| ==> s[i].timestamp >= s[j].timestamp
  }

  /** `x` placed before the first record not newer than it, so that records
      with equal timestamps keep their relative order. */
  function InsertNewestFirst(x: OperationRecord, s: seq<OperationRecord>): (r: seq<OperationRecord>)
    requires NewestFirst(s)
    ensures NewestFirst(r)
    ensures multiset(r) == multiset(s) + multiset{x}
  {
    if s == [] || s[0].timestamp <= x.timestamp then
      NewestFirstCons(x, s);
      [x] + s
    else
      NewestFirstTail(s);
      var rest := InsertNewestFirst(x, s[1..]);
      InsertBelowHead(x, s, rest);
      [s[0]] + rest
  }

  lemma NewestFirstTail(s: seq<OperationRecord>)
    requires NewestFirst(s) && s != []
    ensures NewestFirst(s[1..])
    ensures forall y :: y in s[1..] ==> y.timestamp <= s[0].timestamp
  {
    forall y | y in s[1..] ensures y.timestamp <= s[0].timestamp {
      var j :| 0 <= j < |s[1..]| && s[1..][j] == y;
      assert s[j + 1] == y;
    }
  }

  /** Inserting below a newer head keeps the head first. */
  lemma InsertBelowHead(x: OperationRecord, s: seq<OperationRecord>, rest: seq<OperationRecord>)
    requires s != [] && x.timestamp < s[0].timestamp
    requires forall y :: y in s[1..] ==> y.timestamp <= s[0].timestamp
    requires NewestFirst(rest) && multiset(rest) == multiset(s[1..]) + multiset{x}
    ensures NewestFirst([s[0]] + rest)
    ensures multiset([s[0]] + rest) == multiset(s) + multiset{x}
  {
    assert s == [s[0]] + s[1..];
    forall y | y in rest ensures y.timestamp <= s[0].timestamp {
      assert y in multiset(rest);
    }
    NewestFirstCons(s[0], rest);
  }

  lemma NewestFirstCons(h: OperationRecord, t: seq<OperationRecord>)
    requires NewestFirst(t)
    requires forall y :: y in t ==> y.timestamp <= h.timestamp
    ensures NewestFirst([h] + t)
  {
    var r := [h] + t;
    forall i, j | 0 <= i < j < |r| ensures r[i].timestamp >= r[j].timestamp {
      assert r[j] == t[j - 1];
      if i > 0 {
        assert r[i] == t[i - 1];
      }
    }
  }

  /** `sort(key=timestamp, reverse=True)`, stable. */
  function SortNewestFirst(s: seq<OperationRecord>): (r: seq<OperationRecord>)
    ensures NewestFirst(r)
    ensures multiset(r) == multiset(s)
  {
    if s == [] then []
    else
      assert s == [s[0]] + s[1..];
      InsertNewestFirst(s[0], SortNewestFirst(s[1..]))
  }

  /** A record passes the `get_operations` filters: an empty or missing
      filter lets every record through. */
  predicate Passes(x: OperationRecord, operationType: Option<string>, status: Option<string>)
    reads x
  {
    (operationType.Some? && operationType.value != "" ==> x.operationType == operationType.value) &&
    (status.Some? && status.value != "" ==> x.status == status.value)
  }

  /** Returned by the store's operations on an unknown id. */
  function NotFound(id: string): Fault {
    Fault(ValueError, "Operation " + id + " not found")
  }

  function NotInErrorState(id: string): Fault {
    Fault(ValueError, "Operation " + id + " is not in error state")
  }

  class RecoveryService {
    /** The keys of `operations` in insertion order, as Python's dict keeps them. */
    var order: seq<string>
    var operations: map<string, OperationRecord>
    /** `recovery_handlers`: the retry handler of each operation type. */
    var recoveryHandlers: map<string, EH.FnId>

    /** Every record is filed under its own id, and `order` lists each id
        once. */
    ghost predicate Valid()
      reads this, operations.Values
    {
      (forall id :: id in operations ==> operations[id].operationId == id) &&
      (forall i, j :: 0 <= i < j < |order| ==> order[i] != order[j]) &&
      (forall id :: id in operations <==> id in order)
    }

    /** `RecoveryService()` without a history file. */
    constructor ()
      ensures Valid()
      ensures operations == map[] && order == [] && recoveryHandlers == map[]
    {
      order := [];
      operations := map[];
      recoveryHandlers := map[];
    }

    /** `list(self.operations.values())`. */
    function Records(): (r: seq<OperationRecord>)
      reads this, operations.Values
      requires Valid()
      ensures |r| == |order|
      ensures forall i :: 0 <= i < |r| ==> r[i] == operations[order[i]]
      ensures forall x :: x in r ==> x in operations.Values
      ensures forall x :: x in operations.Values ==> x in r
    {
      var ord, ops := order, operations;
      var r := seq(|ord|, i requires 0 <= i < |ord| => ops[ord[i]]);
      assert forall x :: x in operations.Values ==> x in r by {
        forall x | x in operations.Values ensures x in r {
          var id :| id in operations && operations[id] == x;
          var i :| 0 <= i < |order| && order[i] == id;
          assert r[i] == x;
        }
      }
      r
    }

    /** `_get_operation` and `get_operation`. */
    function Find(id: string): (r: Result<OperationRecord, Fault>)
      reads this
      ensures id in operations ==> r == Success(operations[id])
      ensures id !in operations ==> r == Failure(NotFound(id))
    {
      if id in operations then Success(operations[id]) else Failure(NotFound(id))
    }

    /** `create_operation` with the generated id `freshId` at clock time
        `now`: a pending record with no result or error is filed under the
        id. An id already in use is overwritten and keeps its place. */
    method Create(operationType: string, inputs: map<string, Value>, parentOperationId: Option<string>,
                  metadata: Option<map<string, Value>>, freshId: string, now: int)
      returns (op: OperationRecord)
      requires Valid()
      modifies this
      ensures Valid() && fresh(op)
      ensures op.Data() == RecordData(freshId, operationType, inputs, Pending, Null, None,
                                      parentOperationId, OrEmpty(metadata), now, now)
      ensures operations == old(operations)[freshId := op]
      ensures order == if freshId in old(operations) then old(order) else old(order) + [freshId]
      ensures recoveryHandlers == old(recoveryHandlers)
    {
      op := new OperationRecord(freshId, operationType, inputs, Pending, Null, None, parentOperationId,
                                metadata, now);
      if freshId !in operations {
        order := order + [freshId];
      }
      operations := operations[freshId := op];
    }

    /** `start_operation`: the record becomes `in_progress`, whatever its
        status was. */
    method Start(id: string, now: int) returns (r: Result<OperationRecord, Fault>)
      requires Valid()
      modifies if id in operations then {operations[id]} else {}
      ensures Valid()
      ensures id !in operations ==> r == Failure(NotFound(id))
      ensures id in operations ==>
        r == Success(operations[id]) &&
        operations[id].Data() == old(operations[id].Data()).(status := InProgress, updatedAt := now)
    {
      r := Find(id);
      if r.Success? {
        r.value.UpdateStatus(InProgress, now);
      }
    }

    /** `complete_operation`: the result is stored and the record becomes
        `completed`, whatever its status was. */
    method Complete(id: string, result: Value, now: int) returns (r: Result<OperationRecord, Fault>)
      requires Valid()
      modifies if id in operations then {operations[id]} else {}
      ensures Valid()
      ensures id !in operations ==> r == Failure(NotFound(id))
      ensures id in operations ==>
        r == Success(operations[id]) &&
        operations[id].Data() == old(operations[id].Data()).(result := result, status := Completed, updatedAt := now)
    {
      r := Find(id);
      if r.Success? {
        r.value.SetResult(result, now);
      }
    }

    /** `fail_operation`: the error is stored and the record becomes `error`,
        whatever its status was. */
    method Fail(id: string, error: EH.ErrorInfo, now: int) returns (r: Result<OperationRecord, Fault>)
      requires Valid()
      modifies if id in operations then {operations[id]} else {}
      ensures Valid()
      ensures id !in operations ==> r == Failure(NotFound(id))
      ensures id in operations ==>
        r == Success(operations[id]) &&
        operations[id].Data() == old(operations[id].Data()).(error := Some(error), status := Error, updatedAt := now)
    {
      r := Find(id);
      if r.Success? {
        r.value.SetError(error, now);
      }
    }

    /** `recover_operation`: only a record in the `error` state with an error
        stored can be recovered. The strategy is applied first; only when it
        returns is the record marked `recovered` and stamped with the
        strategy's name and the time. */
    method Recover(id: string, strategyName: string, handler: EH.ErrorHandler,
                   run: (EH.FnId, EH.ErrorInfo) -> Result<Value, Fault>, now: int)
      returns (r: Result<Value, Fault>)
      requires Valid() && handler.Valid()
      modifies if id in operations then {operations[id]} else {}
      ensures Valid()
      ensures id !in operations ==> r == Failure(NotFound(id))
      ensures id in operations ==>
        var old_ := old(operations[id].Data());
        if old_.status != Error then
          r == Failure(NotInErrorState(id)) && operations[id].Data() == old_
        else if old_.error.None? then
          r == Failure(Fault(ValueError, "Operation " + id + " has no error information")) &&
          operations[id].Data() == old_
        else
          r == handler.Recover(old_.error.value, strategyName, run) &&
          (r.Failure? ==> operations[id].Data() == old_) &&
          (r.Success? ==> operations[id].Data() == old_.(
             status := Recovered, updatedAt := now,
             metadata := old_.metadata["recovery_strategy" := Str(strategyName)]["recovery_timestamp" := Int(now)]))
    {
      var found := Find(id);
      if found.Failure? {
        return Failure(found.error);
      }
      var op := found.value;
      if op.status != Error {
        return Failure(NotInErrorState(id));
      }
      if op.error.None? {
        return Failure(Fault(ValueError, "Operation " + id + " has no error information"));
      }
      r := handler.Recover(op.error.value, strategyName, run);
      if r.Failure? {
        return;
      }
      op.UpdateStatus(Recovered, now);
      op.metadata := op.metadata["recovery_strategy" := Str(strategyName)]["recovery_timestamp" := Int(now)];
    }

    /** `retry_operation`: only a record in the `error` state whose type has a
        registered handler can be retried. `run` says what each handler
        returns for the record it is given. */
    method Retry(id: string, run: (EH.FnId, RecordData) -> Result<Value, Fault>, now: int)
      returns (r: Result<Value, Fault>)
      requires Valid()
      modifies if id in operations then {operations[id]} else {}
      ensures Valid()
      ensures id !in operations ==> r == Failure(NotFound(id))
      ensures id in operations ==>
        var old_ := old(operations[id].Data());
        if old_.status != Error then
          r == Failure(NotInErrorState(id)) && operations[id].Data() == old_
        else if old_.operationType !in recoveryHandlers then
          r == Failure(Fault(ValueError, "No recovery handler registered for operation type " + old_.operationType)) &&
          operations[id].Data() == old_
        else
          r == run(recoveryHandlers[old_.operationType], old_) &&
          (r.Failure? ==> operations[id].Data() == old_) &&
          (r.Success? ==> operations[id].Data() == old_.(
             status := Recovered, updatedAt := now,
             metadata := old_.metadata["retry_timestamp" := Int(now)]))
    {
      var found := Find(id);
      if found.Failure? {
        return Failure(found.error);
      }
      var op := found.value;
      if op.status != Error {
        return Failure(NotInErrorState(id));
      }
      if op.operationType !in recoveryHandlers {
        return Failure(Fault(ValueError, "No recovery handler registered for operation type " + op.operationType));
      }
      r := run(recoveryHandlers[op.operationType], op.Data());
      if r.Failure? {
        return;
      }
      op.UpdateStatus(Recovered, now);
      op.metadata := op.metadata["retry_timestamp" := Int(now)];
    }

    /** `register_recovery_handler`: a later registration for the same type
        replaces the earlier one. */
    method RegisterRecoveryHandler(operationType: string, handler: EH.FnId)
      requires Valid()
      modifies this
      ensures Valid()
      ensures recoveryHandlers == old(recoveryHandlers)[operationType := handler]
      ensures operations == old(operations) && order == old(order)
    {
      recoveryHandlers := recoveryHandlers[operationType := handler];
    }

    /** The records `get_operations` considers: an empty or missing filter
        is no filter. */
    function Matching(operationType: Option<string>, status: Option<string>): (r: seq<OperationRecord>)
      reads this, operations.Values
      requires Valid()
      ensures forall x :: x in r ==> x in operations.Values && Passes(x, operationType, status)
      ensures forall x :: x in operations.Values && Passes(x, operationType, status) ==> x in r
    {
      var all := Records();
      var byType := if operationType.Some? && operationType.value != "" then OfType(all, operationType.value) else all;
      assert forall x :: x in byType ==> x in all by {
        forall x | x in byType ensures x in all {
          assert x in multiset(byType);
        }
      }
      var r := if status.Some? && status.value != "" then WithStatus(byType, status.value) else byType;
      assert forall x :: x in r ==> x in byType by {
        forall x | x in r ensures x in byType {
          assert x in multiset(r);
        }
      }
      r
    }

    /** `get_operations(operation_type, status, limit, offset)`. */
    /** Every listed record is in the store and passes both filters; the
        list is newest first and holds at most `limit` records. */
    function GetOperations(operationType: Option<string>, status: Option<string>, limit: int, offset: int)
      : (r: seq<OperationRecord>)
      reads this, operations.Values
      requires Valid()
      ensures forall x :: x in r ==> x in operations.Values && Passes(x, operationType, status)
      ensures NewestFirst(r)
      ensures limit >= 0 ==> |r| <= limit
    {
      var m := Matching(operationType, status);
      var sorted := SortNewestFirst(m);
      var r := Slice(sorted, offset, offset + limit);
      assert NewestFirst(r) && (limit >= 0 ==> |r| <= limit) by {
        SliceSorted(sorted, offset, offset + limit);
        if limit >= 0 {
          SliceLength(sorted, offset, limit);
        }
      }
      assert forall x :: x in r ==> x in m by {
        forall x | x in r ensures x in m {
          SliceMember(sorted, offset, offset + limit, x);
          assert x in multiset(sorted);
        }
      }
      r
    }

    /** `clear_history`: no operations remain; registered handlers stay. */
    method ClearHistory()
      requires Valid()
      modifies this
      ensures Valid()
      ensures operations == map[] && order == []
      ensures recoveryHandlers == old(recoveryHandlers)
    {
      operations := map[];
      order := [];
    }
  }

  /** A slice of a newest-first list is newest first. */
  lemma SliceSorted(s: seq<OperationRecord>, start: int, stop: int)
    requires NewestFirst(s)
    ensures NewestFirst(Slice(s, start, stop))
  {
    var r := Slice(s, start, stop);
    var a := Bound(start, |s|);
    SliceWithin(s, start, stop);
    forall i, j | 0 <= i < j < |r| ensures r[i].timestamp >= r[j].timestamp {
      assert r[i] == s[a + i] && r[j] == s[a + j];
    }
  }

  /** Listing from offset 0 with a limit covering the store gives every
      matching record, newest first. */
  lemma FullListing(s: RecoveryService, operationType: Option<string>, status: Option<string>)
    requires s.Valid()
    ensures s.GetOperations(operationType, status, |s.order|, 0) == SortNewestFirst(s.Matching(operationType, status))
  {
    var m := s.Matching(operationType, status);
    var sorted := SortNewestFirst(m);
    assert |m| <= |s.order| by {
      var all := s.Records();
      var byType := if operationType.Some? && operationType.value != "" then OfType(all, operationType.value) else all;
      assert |byType| <= |all|;
    }
    assert |sorted| == |m| by {
      assert |multiset(sorted)| == |multiset(m)|;
    }
    assert sorted[0..|sorted|] == sorted;
  }

  /** From offset 0 with a limit covering the store, the listing holds every
      matching record exactly once. */
  lemma GetOperationsComplete(s: RecoveryService, operationType: Option<string>, status: Option<string>, limit: int)
    requires s.Valid()
    requires limit >= |s.order|
    ensures multiset(s.GetOperations(operationType, status, limit, 0)) == multiset(s.Matching(operationType, status))
  {
    var m := s.Matching(operationType, status);
    var sorted := SortNewestFirst(m);
    FullListing(s, operationType, status);
    var full := s.GetOperations(operationType, status, |s.order|, 0);
    assert |sorted| <= |s.order|;
    assert s.GetOperations(operationType, status, limit, 0) == sorted[0..|sorted|];
    assert sorted[0..|sorted|] == sorted;
  }

  /** Any page is the slice `[offset:offset + limit]` of the complete
      newest-first listing, so later pages continue where earlier ones
      stop. */
  lemma GetOperationsPage(s: RecoveryService, operationType: Option<string>, status: Option<string>,
                          limit: int, offset: int)
    requires s.Valid()
    ensures s.GetOperations(operationType, status, limit, offset) ==
            Slice(s.GetOperations(operationType, status, |s.order|, 0), offset, offset + limit)
  {
    FullListing(s, operationType, status);
  }
}
