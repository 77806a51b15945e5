/** The paginated fetch loops of the Things logbook: each call of the page
    query is one element of `responses`, a batch of rows or a query error. */
module Logbook {
  import opened Wrappers
  import opened Things

  /** An error raised by the SQLite query; its cause is only logged. */
  datatype QueryError = QueryError(cause: string)

  /** `ThingsSQLiteSyncError`, with its message. */
  datatype SyncError = ThingsSQLiteSyncError(message: string)

  /** What one call of the page query gives. */
  type Response<R> = Result<seq<R>, QueryError>

  const FETCH_TASKS_FAILED: string := "fetch Tasks failed"
  const FETCH_SUBTASKS_FAILED: string := "fetch Subtasks failed"

  /** A response after which the loop queries no more: an error, or a batch
      shorter than the page size. */
  predicate EndsPass<R>(response: Response<R>): (b: bool)
    ensures response.Failure? ==> b
    ensures response.Success? && |response.value| < TASK_FETCH_LIMIT ==> b
    ensures response.Success? && |response.value| == TASK_FETCH_LIMIT ==> !b
  {
    response.Failure? || |response.value| < TASK_FETCH_LIMIT
  }

  /** The source eventually fails or returns a short batch. The query has no
      cursor, so nothing in the loop itself makes this true. */
  predicate Drains<R>(responses: seq<Response<R>>) {
    exists k :: 0 <= k < |responses| && EndsPass(responses[k])
  }

  /** The rows of the successful responses, concatenated in order. */
  function Rows<R>(responses: seq<Response<R>>): seq<R> {
    if responses == [] then []
    else
      var last := responses[|responses| - 1];
      Rows(responses[..|responses| - 1]) + (if last.Success? then last.value else [])
  }

  /** The outcome of one pass that issued `calls` queries: every response but
      the last was a full batch, the last ends the pass, and the pass returns
      either all rows fetched or only the table's error. */
  ghost predicate PassOutcome<R>(responses: seq<Response<R>>, failure: string,
                                 result: Result<seq<R>, SyncError>, calls: nat) {
    && 0 < calls <= |responses|
    && (forall j :: 0 <= j < calls - 1 ==> responses[j].Success? && |responses[j].value| >= TASK_FETCH_LIMIT)
    && EndsPass(responses[calls - 1])
    && (result.Success? <==> responses[calls - 1].Success?)
    && (result.Success? ==> result.value == Rows(responses[..calls]))
    && (result.Failure? ==> result.error == ThingsSQLiteSyncError(failure))
  }

  /** The loop shared by both drivers: query until a batch is shorter than the
      page size, appending each batch; on an error, report `failure` and
      return no rows. */
  method FetchAll<R>(responses: seq<Response<R>>, failure: string)
    returns (result: Result<seq<R>, SyncError>, calls: nat)
    requires Drains(responses)
    ensures 0 < calls <= |responses|
    ensures forall j :: 0 <= j < calls - 1 ==> responses[j].Success? && |responses[j].value| >= TASK_FETCH_LIMIT
    ensures EndsPass(responses[calls - 1])
    ensures result.Success? <==> responses[calls - 1].Success?
    ensures result.Success? ==> result.value == Rows(responses[..calls])
    ensures result.Failure? ==> result.error == ThingsSQLiteSyncError(failure)
  {
    var accumulated: seq<R> := [];
    var isSyncCompleted := false;
    calls := 0;
    while !isSyncCompleted
      invariant calls <= |responses|
      invariant forall j :: 0 <= j < calls ==> responses[j].Success?
      invariant forall j :: 0 <= j < calls ==> !EndsPass(responses[j]) || (isSyncCompleted && j == calls - 1)
      invariant isSyncCompleted ==> 0 < calls && EndsPass(responses[calls - 1])
      invariant accumulated == Rows(responses[..calls])
      decreases |responses| - calls
    {
      ghost var k :| 0 <= k < |responses| && EndsPass(responses[k]);
      assert calls <= k;
      var response := responses[calls];
      assert responses[..calls + 1][..calls] == responses[..calls];
      calls := calls + 1;
      if response.Failure? {
        return Failure(ThingsSQLiteSyncError(failure)), calls;
      }
      var batch := response.value;
      isSyncCompleted := |batch| < TASK_FETCH_LIMIT;
      accumulated := accumulated + batch;
    }
    result := Success(accumulated);
  }

  /** `getTasksFromThingsLogbook`: all task rows of the pass, or
      "fetch Tasks failed". */
  method GetTasksFromThingsLogbook(responses: seq<Response<TaskRecord>>)
    returns (result: Result<seq<TaskRecord>, SyncError>, calls: nat)
    requires Drains(responses)
    ensures PassOutcome(responses, FETCH_TASKS_FAILED, result, calls)
    ensures result.Failure? ==> result.error.message == "fetch Tasks failed"
  {
    result, calls := FetchAll(responses, FETCH_TASKS_FAILED);
  }

  /** `getChecklistItemsFromThingsLogbook`: all checklist rows of the pass, or
      "fetch Subtasks failed". */
  method GetChecklistItemsFromThingsLogbook(responses: seq<Response<ChecklistItemRecord>>)
    returns (result: Result<seq<ChecklistItemRecord>, SyncError>, calls: nat)
    requires Drains(responses)
    ensures PassOutcome(responses, FETCH_SUBTASKS_FAILED, result, calls)
    ensures result.Failure? ==> result.error.message == "fetch Subtasks failed"
  {
    result, calls := FetchAll(responses, FETCH_SUBTASKS_FAILED);
  }

  // ---------------------------------------------------------------------------
  // Re-issuing the same query

  /** The batch the page query returns from an unchanged database: the first
      `TASK_FETCH_LIMIT` of the matching rows, in query order. The query text
      is the same on every call (same watermark, no offset). */
  function FirstPage<R>(table: seq<R>): (page: seq<R>)
    ensures |page| == if |table| < TASK_FETCH_LIMIT then |table| else TASK_FETCH_LIMIT
    ensures page == table[..|page|]
  {
    if |table| < TASK_FETCH_LIMIT then table else table[..TASK_FETCH_LIMIT]
  }

  /** As written: with at least a page of matching rows and an unchanged
      database, every call returns the same full page, so no number of calls
      ends the pass and the loop never stops. */
  lemma IdenticalQueryNeverDrains<R>(table: seq<R>, responses: seq<Response<R>>)
    requires |table| >= TASK_FETCH_LIMIT
    requires forall j :: 0 <= j < |responses| ==> responses[j] == Success(FirstPage(table))
    ensures !Drains(responses)
  {
  }

  /** The batch a query with `LIMIT TASK_FETCH_LIMIT OFFSET offset` returns. */
  function Page<R>(table: seq<R>, offset: nat): (page: seq<R>)
    requires offset <= |table|
    ensures |page| == if |table| - offset < TASK_FETCH_LIMIT then |table| - offset else TASK_FETCH_LIMIT
    ensures page == table[offset..offset + |page|]
  {
    if |table| - offset < TASK_FETCH_LIMIT then table[offset..] else table[offset..offset + TASK_FETCH_LIMIT]
  }

  /** Corrected: the same loop with an offset that advances past each batch
      returns every matching row exactly once, in order, after
      |table| / TASK_FETCH_LIMIT + 1 queries (so a table of exactly one page
      takes a second, empty, query). */
  method FetchAllByOffset<R>(table: seq<R>) returns (rows: seq<R>, calls: nat)
    ensures rows == table
    ensures calls == |table| / TASK_FETCH_LIMIT + 1
  {
    rows := [];
    calls := 0;
    var offset := 0;
    var isSyncCompleted := false;
    while !isSyncCompleted
      invariant offset <= |table|
      invariant rows == table[..offset]
      invariant !isSyncCompleted ==> offset == calls * TASK_FETCH_LIMIT
      invariant isSyncCompleted ==> offset == |table| && calls == |table| / TASK_FETCH_LIMIT + 1
      decreases |table| - offset, !isSyncCompleted
    {
      var batch := Page(table, offset);
      calls := calls + 1;
      isSyncCompleted := |batch| < TASK_FETCH_LIMIT;
      assert table[..offset + |batch|] == table[..offset] + batch;
      rows := rows + batch;
      offset := offset + |batch|;
    }
  }
}
