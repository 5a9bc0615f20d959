/** The bounded history of operations: entries are appended and the oldest
    dropped beyond the capacity; listing filters by operation type and
    status and keeps the last `limit` entries (shared/models/history.py).
    Timestamps are plain integers. */
module History {

  import opened Wrappers
  import opened PyValues
  import opened PySeqs

  datatype OperationType = ReadFile | WriteFile | GenerateCode | AnalyzeCode | Custom
  datatype OperationStatus = Success | Failure | Pending | Cancelled

  /** The extra fields of `FileOperationRecord` and `CodeOperationRecord`. */
  datatype OperationDetail =
    | Plain
    | FileOperation(filePath: string, operation: string, contentPreview: Option<string>, diff: Option<string>)
    | CodeOperation(language: string, codePreview: Option<string>, codeFilePath: Option<string>)

  /** `OperationRecord` and its two subclasses. */
  datatype HistoryOperation = HistoryOperation(
    id: string,
    opType: OperationType,
    timestamp: int,
    status: OperationStatus,
    params: map<string, Value>,
    result: Option<map<string, Value>>,
    error: Option<string>,
    userId: Option<string>,
    sessionId: Option<string>,
    metadata: Option<map<string, Value>>,
    detail: OperationDetail)

  datatype HistoryEntry = HistoryEntry(
    id: string,
    timestamp: int,
    operation: HistoryOperation,
    description: string,
    canUndo: bool,
    undoOperation: Option<map<string, Value>>)

  /** The capacity of a history built without one. */
  const DefaultMaxEntries := 100

  /** The list after appending: cut to its last `max` entries when it has
      grown past `max`, by Python's slice `s[-max:]`. */
  function Trimmed(s: seq<HistoryEntry>, max: int): (r: seq<HistoryEntry>)
    ensures |r| <= |s| && r == s[|s| - |r|..]
    ensures max >= 1 ==> |r| == (if |s| <= max then |s| else max)
  {
    if |s| > max then SliceFrom(s, -max) else s
  }

  /** With a capacity of at least one, the history never holds more than
      the capacity, keeps the most recent entries in their order, and ends
      with the entry just added. */
  lemma TrimKeepsNewest(s: seq<HistoryEntry>, e: HistoryEntry, max: int)
    requires max >= 1
    ensures var r := Trimmed(s + [e], max);
      |r| <= max &&
      |r| == (if |s| + 1 <= max then |s| + 1 else max) &&
      r == (s + [e])[|s| + 1 - |r|..] &&
      r[|r| - 1] == e
  {
    SliceLast(s + [e], max);
  }

  /** A capacity of zero trims nothing: `s[-0:]` is the whole list. */
  lemma TrimZeroKeepsAll(s: seq<HistoryEntry>)
    ensures Trimmed(s, 0) == s
  {
    SliceMinusZero(s);
  }

  /** The entries of type `t`, in order. */
  function OfType(s: seq<HistoryEntry>, t: OperationType): (r: seq<HistoryEntry>)
    ensures |r| <= |s|
    ensures forall e :: e in r <==> e in s && e.operation.opType == t
  {
    if s == [] then []
    else
      var rest := OfType(s[1..], t);
      assert s == [s[0]] + s[1..];
      if s[0].operation.opType == t then [s[0]] + rest else rest
  }

  /** The entries whose status is `st`, in order. */
  function WithStatus(s: seq<HistoryEntry>, st: OperationStatus): (r: seq<HistoryEntry>)
    ensures |r| <= |s|
    ensures forall e :: e in r <==> e in s && e.operation.status == st
  {
    if s == [] then []
    else
      var rest := WithStatus(s[1..], st);
      assert s == [s[0]] + s[1..];
      if s[0].operation.status == st then [s[0]] + rest else rest
  }

  /** Filtering keeps relative order: it distributes over concatenation. */
  lemma {:induction false} OfTypeConcat(a: seq<HistoryEntry>, b: seq<HistoryEntry>, t: OperationType)
    ensures OfType(a + b, t) == OfType(a, t) + OfType(b, t)
    decreases |a|
  {
    if a != [] {
      assert (a + b)[1..] == a[1..] + b;
      assert (a + b)[0] == a[0];
      OfTypeConcat(a[1..], b, t);
    } else {
      assert a + b == b;
    }
  }

  lemma {:induction false} WithStatusConcat(a: seq<HistoryEntry>, b: seq<HistoryEntry>, st: OperationStatus)
    ensures WithStatus(a + b, st) == WithStatus(a, st) + WithStatus(b, st)
    decreases |a|
  {
    if a != [] {
      assert (a + b)[1..] == a[1..] + b;
      assert (a + b)[0] == a[0];
      WithStatusConcat(a[1..], b, st);
    } else {
      assert a + b == b;
    }
  }

  /** `get_entries` on a list of entries: the type filter, then the status
      filter, then the last `limit` entries. */
  function Listing(s: seq<HistoryEntry>, limit: Option<int>, opType: Option<OperationType>,
                   status: Option<OperationStatus>): (r: seq<HistoryEntry>)
    ensures |r| <= |s| && forall e :: e in r ==> e in s
    ensures limit.None? && opType.None? && status.None? ==> r == s
  {
    var byType := if opType.Some? then OfType(s, opType.value) else s;
    var byStatus := if status.Some? then WithStatus(byType, status.value) else byType;
    if limit.Some? then
      var r := SliceFrom(byStatus, -limit.value);
      assert forall e :: e in r ==> e in byStatus;
      r
    else byStatus
  }

  /** Every listed entry is in the history and passes both filters, and
      every entry that passes both is listed when there is no limit. */
  lemma ListingFilters(s: seq<HistoryEntry>, opType: Option<OperationType>, status: Option<OperationStatus>)
    ensures forall e :: e in Listing(s, None, opType, status) <==>
      e in s && (opType.Some? ==> e.operation.opType == opType.value) &&
      (status.Some? ==> e.operation.status == status.value)
  {
  }

  /** A positive limit keeps the last `limit` of the filtered entries, in
      order; a limit of zero keeps them all. */
  lemma ListingLimit(s: seq<HistoryEntry>, limit: int, opType: Option<OperationType>,
                     status: Option<OperationStatus>)
    requires limit >= 0
    ensures var all := Listing(s, None, opType, status);
      var r := Listing(s, Some(limit), opType, status);
      (limit >= 1 ==> |r| == (if limit < |all| then limit else |all|) && r == all[|all| - |r|..]) &&
      (limit == 0 ==> r == all)
  {
    var all := Listing(s, None, opType, status);
    if limit >= 1 {
      SliceLast(all, limit);
    } else {
      SliceMinusZero(all);
    }
  }

  class HistoryManager {
    var entries: seq<HistoryEntry>
    var maxEntries: int

    /** `HistoryManager(max_entries=...)`, empty. */
    constructor (maxEntries: int)
      ensures entries == [] && this.maxEntries == maxEntries
    {
      entries := [];
      this.maxEntries := maxEntries;
    }

    /** `HistoryManager()`: empty, with the default capacity of 100. */
    constructor Default()
      ensures entries == [] && maxEntries == DefaultMaxEntries
    {
      entries := [];
      maxEntries := DefaultMaxEntries;
    }

    /** `add_entry`. */
    method AddEntry(entry: HistoryEntry)
      modifies this
      ensures entries == Trimmed(old(entries) + [entry], maxEntries)
      ensures maxEntries == old(maxEntries)
    {
      entries := entries + [entry];
      if |entries| > maxEntries {
        entries := SliceFrom(entries, -maxEntries);
      }
    }

    /** `get_entries`: reads the history and changes nothing. Without a
        limit an entry is listed exactly when it is stored and passes both
        filters; without filters or limit the whole history is listed. */
    function GetEntries(limit: Option<int>, opType: Option<OperationType>, status: Option<OperationStatus>)
      : (r: seq<HistoryEntry>)
      reads this
      ensures |r| <= |entries|
      ensures limit.None? ==> forall e :: e in r <==>
        e in entries && (opType.Some? ==> e.operation.opType == opType.value) &&
        (status.Some? ==> e.operation.status == status.value)
      ensures limit.None? && opType.None? && status.None? ==> r == entries
    {
      ListingFilters(entries, opType, status);
      Listing(entries, limit, opType, status)
    }

    /** `clear_history`. */
    method ClearHistory()
      modifies this
      ensures entries == [] && maxEntries == old(maxEntries)
    {
      entries := [];
    }

    /** `get_entry`: the first entry with the id, or `None`. */
    method GetEntry(id: string) returns (r: Option<HistoryEntry>)
      ensures r.None? <==> forall i :: 0 <= i < |entries| ==> entries[i].id != id
      ensures r.Some? ==> exists k :: 0 <= k < |entries| && entries[k] == r.value && r.value.id == id &&
                                      forall j :: 0 <= j < k ==> entries[j].id != id
    {
      var i := 0;
      while i < |entries|
        invariant 0 <= i <= |entries|
        invariant forall j :: 0 <= j < i ==> entries[j].id != id
      {
        if entries[i].id == id {
          return Some(entries[i]);
        }
        i := i + 1;
      }
      return None;
    }
  }
}
