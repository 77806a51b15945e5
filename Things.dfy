/** The Things logbook records, the merged task model, and the merge engine
    that folds flat task×tag rows and checklist rows into one task per uuid. */
module Things {
  import opened Wrappers
  import opened JsText

  /** Page size of every logbook query. */
  const TASK_FETCH_LIMIT: nat := 1000

  /** The `status` value Things uses for a cancelled task. */
  const STATUS_CANCELLED: int := 2

  datatype SubTask = SubTask(completed: bool, title: string)

  /** A merged task. A tag entry is `None` where the row carried no tag
      (a task without tags still contributes one such entry). */
  datatype Task = Task(
    uuid: string,
    title: string,
    notes: string,
    area: Option<string>,
    tags: seq<Option<string>>,
    startDate: real,
    stopDate: real,
    cancelled: bool,
    subtasks: seq<SubTask>)

  /** One row of the task query: one per task×tag pairing. */
  datatype TaskRecord = TaskRecord(
    uuid: string,
    title: Option<string>,
    notes: string,
    area: Option<string>,
    startDate: real,
    stopDate: real,
    status: string,
    tag: Option<string>)

  /** One row of the checklist query; `stopDate` is the parent task's. */
  datatype ChecklistItemRecord = ChecklistItemRecord(
    uuid: string,
    taskId: string,
    title: string,
    startDate: real,
    stopDate: Option<real>)

  /** A status marks the task cancelled when `parseInt` reads it as STATUS_CANCELLED;
      a status without a decimal digit never does. */
  predicate IsCancelledStatus(status: string): (b: bool)
    ensures b ==> exists i :: 0 <= i < |status| && IsDigit(status[i], 10)
    ensures forall n: nat :: status == Decimal(n) ==> (b <==> n == 2)
  {
    assert forall n: nat :: status == Decimal(n) ==> (ParseInt(status) == Some(STATUS_CANCELLED) <==> n == 2) by {
      forall n: nat | status == Decimal(n)
        ensures ParseInt(status) == Some(STATUS_CANCELLED) <==> n == 2
      {
        assert Decimal(n) + [] == Decimal(n);
        ParseIntOfDecimal(n, []);
      }
    }
    ParseInt(status) == Some(STATUS_CANCELLED)
  }

  /** The task the first row of a uuid creates: one tag entry, no subtasks. */
  function TaskFromRecord(r: TaskRecord): (t: Task)
    ensures t.uuid == r.uuid && t.notes == r.notes && t.area == r.area
    ensures t.startDate == r.startDate && t.stopDate == r.stopDate
    ensures t.title <= r.title.GetOr("")
    ensures t.title == [] || !IsWhitespace(t.title[|t.title| - 1])
    ensures forall i :: |t.title| <= i < |r.title.GetOr("")| ==> IsWhitespace(r.title.GetOr("")[i])
    ensures t.tags == [r.tag] && t.subtasks == []
    ensures t.cancelled <==> IsCancelledStatus(r.status)
  {
    Task(r.uuid, TrimEnd(r.title.GetOr("")), r.notes, r.area, [r.tag],
         r.startDate, r.stopDate, IsCancelledStatus(r.status), [])
  }

  /** The subtask a checklist row becomes: completed when its stopDate is
      truthy (present and non-zero). */
  function SubTaskFromItem(c: ChecklistItemRecord): (st: SubTask)
    ensures st.completed <==> c.stopDate.Some? && c.stopDate.value != 0.0
    ensures st.title <= c.title
    ensures st.title == [] || !IsWhitespace(st.title[|st.title| - 1])
    ensures forall i :: |st.title| <= i < |c.title| ==> IsWhitespace(c.title[i])
  {
    SubTask(c.stopDate.Some? && c.stopDate.value != 0.0, TrimEnd(c.title))
  }

  // ---------------------------------------------------------------------------
  // Declarative specification of the merge

  predicate HasUuid(rows: seq<TaskRecord>, u: string) {
    exists i :: 0 <= i < |rows| && rows[i].uuid == u
  }

  /** The distinct uuids of `rows`, each once, in order of first appearance. */
  function Uuids(rows: seq<TaskRecord>): (us: seq<string>)
    ensures forall u :: u in us <==> HasUuid(rows, u)
    ensures forall a, b :: 0 <= a < b < |us| ==> us[a] != us[b]
  {
    if rows == [] then []
    else
      var init := rows[..|rows| - 1];
      var u := rows[|rows| - 1].uuid;
      var p := Uuids(init);
      assert forall v :: HasUuid(rows, v) <==> HasUuid(init, v) || v == u by {
        forall v | HasUuid(rows, v) && v != u
          ensures HasUuid(init, v)
        {
          var i :| 0 <= i < |rows| && rows[i].uuid == v;
          assert init[i] == rows[i];
        }
        forall v | HasUuid(init, v)
          ensures HasUuid(rows, v)
        {
          var i :| 0 <= i < |init| && init[i].uuid == v;
          assert rows[i] == init[i];
        }
        assert rows[|rows| - 1].uuid == u;
      }
      if u in p then p else p + [u]
  }

  /** Index of the first row whose uuid is `u`. */
  function FirstIndex(rows: seq<TaskRecord>, u: string): (k: nat)
    requires HasUuid(rows, u)
    ensures k < |rows| && rows[k].uuid == u
    ensures forall j :: 0 <= j < k ==> rows[j].uuid != u
  {
    if rows[0].uuid == u then 0
    else
      assert HasUuid(rows[1..], u) by {
        var i :| 0 <= i < |rows| && rows[i].uuid == u;
        assert rows[1..][i - 1] == rows[i];
      }
      1 + FirstIndex(rows[1..], u)
  }

  /** The tags of the rows whose uuid is `u`, in row order. */
  function TagsOf(rows: seq<TaskRecord>, u: string): seq<Option<string>> {
    if rows == [] then []
    else
      var last := rows[|rows| - 1];
      TagsOf(rows[..|rows| - 1], u) + (if last.uuid == u then [last.tag] else [])
  }

  /** The subtasks of the checklist rows whose taskId is `u`, in row order. */
  function SubtasksOf(items: seq<ChecklistItemRecord>, u: string): seq<SubTask> {
    if items == [] then []
    else
      var last := items[|items| - 1];
      SubtasksOf(items[..|items| - 1], u) + (if last.taskId == u then [SubTaskFromItem(last)] else [])
  }

  /** The task of uuid `u` after the task rows only: fields of its first row,
      one tag entry per row. */
  function GroupedTask(rows: seq<TaskRecord>, u: string): Task
    requires HasUuid(rows, u)
  {
    TaskFromRecord(rows[FirstIndex(rows, u)]).(tags := TagsOf(rows, u))
  }

  /** The task of uuid `u` once the checklist rows are attached. */
  function MergedTask(rows: seq<TaskRecord>, items: seq<ChecklistItemRecord>, u: string): Task
    requires HasUuid(rows, u)
  {
    GroupedTask(rows, u).(subtasks := SubtasksOf(items, u))
  }

  /** What `buildTasksFromSQLRecords` returns: one merged task per distinct
      uuid, in order of first appearance. */
  function Merged(rows: seq<TaskRecord>, items: seq<ChecklistItemRecord>): seq<Task> {
    var us := Uuids(rows);
    seq(|us|, k requires 0 <= k < |us| => MergedTask(rows, items, us[k]))
  }

  // ---------------------------------------------------------------------------
  // The effect of one more row on the specification

  /** Appending a row keeps the first index of every uuid already present. */
  lemma FirstIndexOfExtension(rows: seq<TaskRecord>, r: TaskRecord, u: string)
    requires HasUuid(rows, u)
    ensures HasUuid(rows + [r], u)
    ensures FirstIndex(rows + [r], u) == FirstIndex(rows, u)
  {
    var k := FirstIndex(rows, u);
    assert (rows + [r])[k] == rows[k];
  }

  /** A row of a uuid not seen before is that uuid's first row. */
  lemma FirstIndexOfNewUuid(rows: seq<TaskRecord>, r: TaskRecord)
    requires !HasUuid(rows, r.uuid)
    ensures HasUuid(rows + [r], r.uuid)
    ensures FirstIndex(rows + [r], r.uuid) == |rows|
  {
    assert (rows + [r])[|rows|] == r;
  }

  lemma {:induction false} TagsOfAbsent(rows: seq<TaskRecord>, u: string)
    requires !HasUuid(rows, u)
    ensures TagsOf(rows, u) == []
  {
    if rows != [] {
      var init := rows[..|rows| - 1];
      TagsOfAbsent(init, u);
      assert rows[|rows| - 1].uuid != u;
    }
  }

  /** A later row of a uuid already present only appends its tag to that
      uuid's task; the other tasks do not change. */
  lemma GroupedTaskAfterRow(rows: seq<TaskRecord>, r: TaskRecord, u: string)
    requires HasUuid(rows, u)
    ensures HasUuid(rows + [r], u)
    ensures GroupedTask(rows + [r], u) ==
      (var t := GroupedTask(rows, u); if r.uuid == u then t.(tags := t.tags + [r.tag]) else t)
  {
    var rows' := rows + [r];
    assert rows'[..|rows'| - 1] == rows;
    FirstIndexOfExtension(rows, r, u);
    assert rows'[FirstIndex(rows', u)] == rows[FirstIndex(rows, u)];
  }

  /** The first row of a uuid creates its task. */
  lemma GroupedTaskOfFirstRow(rows: seq<TaskRecord>, r: TaskRecord)
    requires !HasUuid(rows, r.uuid)
    ensures HasUuid(rows + [r], r.uuid)
    ensures GroupedTask(rows + [r], r.uuid) == TaskFromRecord(r)
  {
    var rows' := rows + [r];
    assert rows'[..|rows'| - 1] == rows;
    FirstIndexOfNewUuid(rows, r);
    TagsOfAbsent(rows, r.uuid);
  }

  /** Attaching one more checklist row changes only its own task's subtasks. */
  lemma MergedTaskAfterItem(rows: seq<TaskRecord>, items: seq<ChecklistItemRecord>, c: ChecklistItemRecord, u: string)
    requires HasUuid(rows, u)
    ensures MergedTask(rows, items + [c], u) ==
      (var t := MergedTask(rows, items, u);
       if c.taskId == u then t.(subtasks := t.subtasks + [SubTaskFromItem(c)]) else t)
  {
    assert (items + [c])[..|items|] == items;
  }

  lemma PrefixStep<T>(s: seq<T>, i: nat)
    requires i < |s|
    ensures s[..i + 1] == s[..i] + [s[i]]
  {
  }

  // ---------------------------------------------------------------------------
  // The dictionary the two loops build, one row at a time

  /** The dictionary after the first `forEach` has seen `rows`. */
  function Grouping(rows: seq<TaskRecord>): (m: map<string, Task>)
    ensures forall u :: u in m <==> HasUuid(rows, u)
  {
    if rows == [] then map[]
    else
      var init := rows[..|rows| - 1];
      var r := rows[|rows| - 1];
      var m := Grouping(init);
      assert forall v :: HasUuid(rows, v) <==> HasUuid(init, v) || v == r.uuid by {
        assert rows == init + [r];
      }
      if r.uuid in m then m[r.uuid := m[r.uuid].(tags := m[r.uuid].tags + [r.tag])]
      else m[r.uuid := TaskFromRecord(r)]
  }

  /** The dictionary after the second `forEach` has seen `items`. */
  function Attaching(m: map<string, Task>, items: seq<ChecklistItemRecord>): (m': map<string, Task>)
    ensures m'.Keys == m.Keys
  {
    if items == [] then m
    else
      var c := items[|items| - 1];
      var p := Attaching(m, items[..|items| - 1]);
      if c.taskId in p then p[c.taskId := p[c.taskId].(subtasks := p[c.taskId].subtasks + [SubTaskFromItem(c)])]
      else p
  }

  /** Appending a row adds its uuid to Uuids exactly when the uuid is new. */
  lemma UuidsAfterRow(rows: seq<TaskRecord>, r: TaskRecord)
    ensures Uuids(rows + [r]) == if HasUuid(rows, r.uuid) then Uuids(rows) else Uuids(rows) + [r.uuid]
  {
    assert (rows + [r])[..|rows|] == rows;
  }

  /** One more row, one more step of the first loop. */
  lemma GroupingAfterRow(rows: seq<TaskRecord>, r: TaskRecord)
    ensures Grouping(rows + [r]) ==
      (var m := Grouping(rows);
       if r.uuid in m then m[r.uuid := m[r.uuid].(tags := m[r.uuid].tags + [r.tag])]
       else m[r.uuid := TaskFromRecord(r)])
  {
    assert (rows + [r])[..|rows|] == rows;
  }

  lemma HasUuidAfterRow(rows: seq<TaskRecord>, r: TaskRecord, u: string)
    ensures HasUuid(rows + [r], u) <==> HasUuid(rows, u) || u == r.uuid
  {
    var rows' := rows + [r];
    assert rows'[|rows|] == r;
    if HasUuid(rows, u) {
      var i :| 0 <= i < |rows| && rows[i].uuid == u;
      assert rows'[i] == rows[i];
    }
  }

  /** Each entry of the dictionary the first loop builds is the grouped task of its uuid. */
  lemma {:induction false} GroupingIsGrouped(rows: seq<TaskRecord>, u: string)
    requires HasUuid(rows, u)
    ensures u in Grouping(rows) && Grouping(rows)[u] == GroupedTask(rows, u)
  {
    var init := rows[..|rows| - 1];
    var r := rows[|rows| - 1];
    assert rows == init + [r];
    HasUuidAfterRow(init, r, u);
    if HasUuid(init, u) {
      GroupingIsGrouped(init, u);
      GroupedTaskAfterRow(init, r, u);
    } else {
      GroupedTaskOfFirstRow(init, r);
    }
  }

  /** Each entry of the dictionary the second loop leaves is the merged task of its uuid. */
  lemma {:induction false} AttachingIsMerged(rows: seq<TaskRecord>, items: seq<ChecklistItemRecord>, u: string)
    requires HasUuid(rows, u)
    ensures u in Attaching(Grouping(rows), items)
    ensures Attaching(Grouping(rows), items)[u] == MergedTask(rows, items, u)
  {
    if items == [] {
      GroupingIsGrouped(rows, u);
    } else {
      var init := items[..|items| - 1];
      var c := items[|items| - 1];
      assert items == init + [c];
      AttachingIsMerged(rows, init, u);
      MergedTaskAfterItem(rows, init, c, u);
    }
  }

  // ---------------------------------------------------------------------------
  // The merge engine

  /** The first `forEach` of `buildTasksFromSQLRecords`: the dictionary keyed
      by uuid, as its keys in insertion order and its entries. The first row of
      a uuid creates its task; each later row appends its tag. */
  method GroupTaskRecords(taskRecords: seq<TaskRecord>) returns (keys: seq<string>, byId: map<string, Task>)
    ensures keys == Uuids(taskRecords)
    ensures byId == Grouping(taskRecords)
  {
    keys := [];
    byId := map[];
    for i := 0 to |taskRecords|
      invariant keys == Uuids(taskRecords[..i])
      invariant byId == Grouping(taskRecords[..i])
    {
      var record := taskRecords[i];
      var id := record.uuid;
      PrefixStep(taskRecords, i);
      UuidsAfterRow(taskRecords[..i], record);
      GroupingAfterRow(taskRecords[..i], record);
      if id in byId {
        byId := byId[id := byId[id].(tags := byId[id].tags + [record.tag])];
      } else {
        keys := keys + [id];
        byId := byId[id := TaskFromRecord(record)];
      }
    }
    assert taskRecords[..|taskRecords|] == taskRecords;
  }

  /** The second `forEach` of `buildTasksFromSQLRecords`: each checklist row
      whose taskId is a key appends one subtask to that task; any other row is
      dropped. */
  method AttachChecklistItems(byId: map<string, Task>, checklistRecords: seq<ChecklistItemRecord>)
    returns (merged: map<string, Task>)
    ensures merged == Attaching(byId, checklistRecords)
  {
    merged := byId;
    for j := 0 to |checklistRecords|
      invariant merged == Attaching(byId, checklistRecords[..j])
    {
      var item := checklistRecords[j];
      var subtask := SubTaskFromItem(item);
      PrefixStep(checklistRecords, j);
      assert (checklistRecords[..j] + [item])[..j] == checklistRecords[..j];
      // `task.subtasks` is never falsy here (every task starts with []), so both
      // branches of the source append the subtask.
      if item.taskId in merged {
        var task := merged[item.taskId];
        merged := merged[item.taskId := task.(subtasks := task.subtasks + [subtask])];
      }
    }
    assert checklistRecords[..|checklistRecords|] == checklistRecords;
  }

  /** `buildTasksFromSQLRecords`: group the task rows by uuid, attach the
      checklist rows, and return the dictionary's values in insertion order. */
  method BuildTasksFromSQLRecords(taskRecords: seq<TaskRecord>, checklistRecords: seq<ChecklistItemRecord>)
    returns (tasks: seq<Task>)
    ensures tasks == Merged(taskRecords, checklistRecords)
  {
    var keys, byId := GroupTaskRecords(taskRecords);
    var merged := AttachChecklistItems(byId, checklistRecords);
    forall u | u in keys
      ensures u in merged && merged[u] == MergedTask(taskRecords, checklistRecords, u)
    {
      AttachingIsMerged(taskRecords, checklistRecords, u);
    }
    tasks := seq(|keys|, k requires 0 <= k < |keys| => merged[keys[k]]);
  }
}
