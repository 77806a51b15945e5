/** What `buildTasksFromSQLRecords` promises about its result, stated on the
    specification `Merged` that the merge method is proved to compute. */
module MergeProperties {
  import opened Wrappers
  import opened JsText
  import opened Things

  /** Task k of the result is the merged task of the k-th distinct uuid. */
  lemma MergedAt(rows: seq<TaskRecord>, items: seq<ChecklistItemRecord>, k: nat)
    requires k < |Merged(rows, items)|
    ensures |Merged(rows, items)| == |Uuids(rows)|
    ensures HasUuid(rows, Uuids(rows)[k])
    ensures Merged(rows, items)[k] == MergedTask(rows, items, Uuids(rows)[k])
    ensures Merged(rows, items)[k].uuid == Uuids(rows)[k]
  {
  }

  /** Exactly one task per distinct uuid of the task rows. */
  lemma OneTaskPerUuid(rows: seq<TaskRecord>, items: seq<ChecklistItemRecord>)
    ensures forall u :: HasUuid(rows, u) <==> exists k :: 0 <= k < |Merged(rows, items)| && Merged(rows, items)[k].uuid == u
    ensures forall a, b :: 0 <= a < b < |Merged(rows, items)| ==> Merged(rows, items)[a].uuid != Merged(rows, items)[b].uuid
  {
    var tasks := Merged(rows, items);
    var us := Uuids(rows);
    forall k | 0 <= k < |tasks|
      ensures tasks[k].uuid == us[k]
    {
      MergedAt(rows, items, k);
    }
    forall u | HasUuid(rows, u)
      ensures exists k :: 0 <= k < |tasks| && tasks[k].uuid == u
    {
      var k :| 0 <= k < |us| && us[k] == u;
      assert tasks[k].uuid == u;
    }
  }

  /** The distinct uuids come in the order of their first rows. */
  lemma {:induction false} UuidsInFirstAppearanceOrder(rows: seq<TaskRecord>, a: nat, b: nat)
    requires a < b < |Uuids(rows)|
    ensures HasUuid(rows, Uuids(rows)[a]) && HasUuid(rows, Uuids(rows)[b])
    ensures FirstIndex(rows, Uuids(rows)[a]) < FirstIndex(rows, Uuids(rows)[b])
  {
    var init := rows[..|rows| - 1];
    var r := rows[|rows| - 1];
    assert rows == init + [r];
    UuidsAfterRow(init, r);
    var us := Uuids(rows);
    FirstIndexOfExtension(init, r, us[a]);
    if b < |Uuids(init)| {
      UuidsInFirstAppearanceOrder(init, a, b);
      FirstIndexOfExtension(init, r, us[b]);
    } else {
      FirstIndexOfNewUuid(init, r);
    }
  }

  /** The tasks come in the order of their uuids' first rows. */
  lemma TasksInFirstAppearanceOrder(rows: seq<TaskRecord>, items: seq<ChecklistItemRecord>, a: nat, b: nat)
    requires a < b < |Merged(rows, items)|
    ensures HasUuid(rows, Merged(rows, items)[a].uuid) && HasUuid(rows, Merged(rows, items)[b].uuid)
    ensures FirstIndex(rows, Merged(rows, items)[a].uuid) < FirstIndex(rows, Merged(rows, items)[b].uuid)
  {
    MergedAt(rows, items, a);
    MergedAt(rows, items, b);
    UuidsInFirstAppearanceOrder(rows, a, b);
  }

  /** Indices of the task rows of uuid `u`. */
  function RowsOf(rows: seq<TaskRecord>, u: string): set<int> {
    set i | 0 <= i < |rows| && rows[i].uuid == u
  }

  /** One tag entry per task row of the uuid. */
  lemma {:induction false} TagCount(rows: seq<TaskRecord>, u: string)
    ensures |TagsOf(rows, u)| == |RowsOf(rows, u)|
  {
    if rows != [] {
      var n := |rows| - 1;
      var init := rows[..n];
      TagCount(init, u);
      var s := RowsOf(init, u);
      if rows[n].uuid == u {
        assert RowsOf(rows, u) == s + {n};
        assert n !in s;
      } else {
        assert RowsOf(rows, u) == s;
      }
    }
  }

  /** A merged task holds the tags of all rows of its uuid, in row order, as
      many as there are such rows (a row without a tag gives a `None` entry). */
  lemma MergedTags(rows: seq<TaskRecord>, items: seq<ChecklistItemRecord>, k: nat)
    requires k < |Merged(rows, items)|
    ensures Merged(rows, items)[k].tags == TagsOf(rows, Merged(rows, items)[k].uuid)
    ensures |Merged(rows, items)[k].tags| == |RowsOf(rows, Merged(rows, items)[k].uuid)|
  {
    MergedAt(rows, items, k);
    TagCount(rows, Merged(rows, items)[k].uuid);
  }

  /** A later row of a uuid already seen appends its tag to that uuid's task
      and changes nothing else: the first row fixes every other field. */
  lemma LaterRowOnlyAddsTag(rows: seq<TaskRecord>, r: TaskRecord, items: seq<ChecklistItemRecord>)
    requires HasUuid(rows, r.uuid)
    ensures |Merged(rows + [r], items)| == |Merged(rows, items)|
    ensures forall k :: 0 <= k < |Merged(rows, items)| ==>
      Merged(rows + [r], items)[k] ==
        (var t := Merged(rows, items)[k]; if t.uuid == r.uuid then t.(tags := t.tags + [r.tag]) else t)
  {
    UuidsAfterRow(rows, r);
    forall k | 0 <= k < |Merged(rows, items)|
      ensures Merged(rows + [r], items)[k] ==
        (var t := Merged(rows, items)[k]; if t.uuid == r.uuid then t.(tags := t.tags + [r.tag]) else t)
    {
      MergedAt(rows, items, k);
      GroupedTaskAfterRow(rows, r, Uuids(rows)[k]);
    }
  }

  /** The first row of a uuid adds one task at the end, built from that row:
      trimmed title, `cancelled` from the status, one tag entry. */
  lemma FirstRowAddsTask(rows: seq<TaskRecord>, r: TaskRecord, items: seq<ChecklistItemRecord>)
    requires !HasUuid(rows, r.uuid)
    ensures Merged(rows + [r], items) == Merged(rows, items) +
      [Task(r.uuid, TrimEnd(r.title.GetOr("")), r.notes, r.area, [r.tag], r.startDate, r.stopDate,
            IsCancelledStatus(r.status), SubtasksOf(items, r.uuid))]
  {
    UuidsAfterRow(rows, r);
    var before := Merged(rows, items);
    var after := Merged(rows + [r], items);
    forall k | 0 <= k < |before|
      ensures after[k] == before[k]
    {
      MergedAt(rows, items, k);
      GroupedTaskAfterRow(rows, r, Uuids(rows)[k]);
    }
    GroupedTaskOfFirstRow(rows, r);
  }

  /** A title is stored without trailing whitespace, as a prefix of the row's
      title (of "" when the row has none), and trimming it again changes nothing. */
  lemma TitleTrimmed(r: TaskRecord)
    ensures TaskFromRecord(r).title <= r.title.GetOr("")
    ensures TaskFromRecord(r).title == [] || !IsWhitespace(TaskFromRecord(r).title[|TaskFromRecord(r).title| - 1])
    ensures TrimEnd(TaskFromRecord(r).title) == TaskFromRecord(r).title
  {
    TrimEndIdempotent(r.title.GetOr(""));
  }

  /** A status holding the number n (as SQLite renders it, possibly followed by
      a fraction or other text) marks the task cancelled exactly when n is 2. */
  lemma CancelledExactlyForStatusTwo(r: TaskRecord, n: nat, rest: string)
    requires r.status == Decimal(n) + rest
    requires rest == [] || (!IsDigit(rest[0], 10) && (n != 0 || (rest[0] != 'x' && rest[0] != 'X')))
    ensures TaskFromRecord(r).cancelled <==> n == 2
  {
    ParseIntOfDecimal(n, rest);
  }

  /** A checklist row whose taskId matches no task row changes nothing. */
  lemma OrphanItemDropped(rows: seq<TaskRecord>, items: seq<ChecklistItemRecord>, c: ChecklistItemRecord)
    requires !HasUuid(rows, c.taskId)
    ensures Merged(rows, items + [c]) == Merged(rows, items)
  {
    var before := Merged(rows, items);
    var after := Merged(rows, items + [c]);
    forall k | 0 <= k < |before|
      ensures after[k] == before[k]
    {
      MergedAt(rows, items, k);
      MergedTaskAfterItem(rows, items, c, Uuids(rows)[k]);
    }
  }

  /** Removing a checklist row of another task does not change a task's subtasks. */
  lemma {:induction false} SubtasksSkipOther(pre: seq<ChecklistItemRecord>, c: ChecklistItemRecord,
                                             post: seq<ChecklistItemRecord>, u: string)
    requires c.taskId != u
    ensures SubtasksOf(pre + [c] + post, u) == SubtasksOf(pre + post, u)
  {
    if post == [] {
      assert pre + [c] + post == pre + [c];
      assert (pre + [c])[..|pre|] == pre;
      assert pre + post == pre;
    } else {
      var init, last := post[..|post| - 1], post[|post| - 1];
      SubtasksSkipOther(pre, c, init, u);
      assert pre + [c] + post == (pre + [c] + init) + [last];
      assert ((pre + [c] + init) + [last])[..|pre + [c] + init|] == pre + [c] + init;
      assert pre + post == (pre + init) + [last];
      assert ((pre + init) + [last])[..|pre + init|] == pre + init;
    }
  }

  /** An orphan checklist row anywhere among the checklist rows produces no
      subtask anywhere: the merge is the same without it. */
  lemma OrphanItemDroppedAnywhere(rows: seq<TaskRecord>, pre: seq<ChecklistItemRecord>,
                                  c: ChecklistItemRecord, post: seq<ChecklistItemRecord>)
    requires !HasUuid(rows, c.taskId)
    ensures Merged(rows, pre + [c] + post) == Merged(rows, pre + post)
  {
    var before := Merged(rows, pre + post);
    var after := Merged(rows, pre + [c] + post);
    forall k | 0 <= k < |before|
      ensures after[k] == before[k]
    {
      MergedAt(rows, pre + post, k);
      MergedAt(rows, pre + [c] + post, k);
      SubtasksSkipOther(pre, c, post, Uuids(rows)[k]);
    }
  }

  /** A checklist row of an existing task appends exactly one subtask to that
      task (completed when its stopDate is present and non-zero, title
      trimmed) and leaves every other task as it was. */
  lemma MatchedItemAppendsSubtask(rows: seq<TaskRecord>, items: seq<ChecklistItemRecord>, c: ChecklistItemRecord)
    requires HasUuid(rows, c.taskId)
    ensures |Merged(rows, items + [c])| == |Merged(rows, items)|
    ensures forall k :: 0 <= k < |Merged(rows, items)| ==>
      Merged(rows, items + [c])[k] ==
        (var t := Merged(rows, items)[k];
         if t.uuid == c.taskId
         then t.(subtasks := t.subtasks + [SubTask(c.stopDate.Some? && c.stopDate.value != 0.0, TrimEnd(c.title))])
         else t)
  {
    forall k | 0 <= k < |Merged(rows, items)|
      ensures Merged(rows, items + [c])[k] ==
        (var t := Merged(rows, items)[k];
         if t.uuid == c.taskId
         then t.(subtasks := t.subtasks + [SubTask(c.stopDate.Some? && c.stopDate.value != 0.0, TrimEnd(c.title))])
         else t)
    {
      MergedAt(rows, items, k);
      MergedTaskAfterItem(rows, items, c, Uuids(rows)[k]);
    }
  }

  /** Every subtask of a task comes from a checklist row naming that task. */
  lemma {:induction false} SubtaskOrigin(items: seq<ChecklistItemRecord>, u: string, s: SubTask)
    requires s in SubtasksOf(items, u)
    ensures exists j :: 0 <= j < |items| && items[j].taskId == u && s == SubTaskFromItem(items[j])
  {
    var n := |items| - 1;
    var init := items[..n];
    if s in SubtasksOf(init, u) {
      SubtaskOrigin(init, u, s);
      var j :| 0 <= j < |init| && init[j].taskId == u && s == SubTaskFromItem(init[j]);
      assert items[j] == init[j];
    } else {
      assert items[n].taskId == u && s == SubTaskFromItem(items[n]);
    }
  }

  /** Indices of the checklist rows naming task `u`. */
  function ItemsOf(items: seq<ChecklistItemRecord>, u: string): set<int> {
    set j | 0 <= j < |items| && items[j].taskId == u
  }

  /** One subtask per checklist row naming the task. */
  lemma {:induction false} SubtaskCount(items: seq<ChecklistItemRecord>, u: string)
    ensures |SubtasksOf(items, u)| == |ItemsOf(items, u)|
  {
    if items != [] {
      var n := |items| - 1;
      var init := items[..n];
      SubtaskCount(init, u);
      var s := ItemsOf(init, u);
      if items[n].taskId == u {
        assert ItemsOf(items, u) == s + {n};
        assert n !in s;
      } else {
        assert ItemsOf(items, u) == s;
      }
    }
  }

  /** Each merged task holds one subtask per checklist row naming it, each
      made from such a row. */
  lemma MergedSubtasks(rows: seq<TaskRecord>, items: seq<ChecklistItemRecord>, k: nat)
    requires k < |Merged(rows, items)|
    ensures |Merged(rows, items)[k].subtasks| == |ItemsOf(items, Merged(rows, items)[k].uuid)|
    ensures forall s :: s in Merged(rows, items)[k].subtasks ==>
      exists j :: 0 <= j < |items| && items[j].taskId == Merged(rows, items)[k].uuid && s == SubTaskFromItem(items[j])
  {
    MergedAt(rows, items, k);
    var u := Merged(rows, items)[k].uuid;
    SubtaskCount(items, u);
    forall s | s in Merged(rows, items)[k].subtasks
      ensures exists j :: 0 <= j < |items| && items[j].taskId == u && s == SubTaskFromItem(items[j])
    {
      SubtaskOrigin(items, u, s);
    }
  }

  /** The task row and checklist row of the scenario below, merged alone. */
  lemma OneRowScenario(x: TaskRecord, c: ChecklistItemRecord)
    requires x == TaskRecord("a", Some("Review "), "", None, 1400.0, 1500.0, "3", Some("x"))
    requires c == ChecklistItemRecord("c1", "a", "sub1", 0.0, Some(1500.0))
    ensures Merged([x], [c]) ==
      [Task("a", "Review", "", None, [Some("x")], 1400.0, 1500.0, false, [SubTask(true, "sub1")])]
  {
    assert SubtasksOf([c], "a") == [SubTask(true, "sub1")] by {
      assert [c][..0] == [];
      assert TrimEnd("sub1") == "sub1";
    }
    assert TrimEnd("Review ") == "Review" by {
      assert TrimEnd("Review") == "Review";
    }
    assert !IsCancelledStatus("3") by {
      ParseIntOfDecimal(3, "");
      assert Decimal(3) == "3";
    }
    assert !HasUuid([], "a");
    FirstRowAddsTask([], x, [c]);
    assert [] + [x] == [x];
  }

  /** Two rows of task "a" tagged "x" and "y" and one checklist row of "a"
      merge into one task with both tags and one completed subtask. */
  lemma TwoTagsOneSubtaskScenario()
    ensures
      var x := TaskRecord("a", Some("Review "), "", None, 1400.0, 1500.0, "3", Some("x"));
      var y := x.(tag := Some("y"));
      var c := ChecklistItemRecord("c1", "a", "sub1", 0.0, Some(1500.0));
      Merged([x, y], [c]) ==
        [Task("a", "Review", "", None, [Some("x"), Some("y")], 1400.0, 1500.0, false, [SubTask(true, "sub1")])]
  {
    var x := TaskRecord("a", Some("Review "), "", None, 1400.0, 1500.0, "3", Some("x"));
    var y := x.(tag := Some("y"));
    var c := ChecklistItemRecord("c1", "a", "sub1", 0.0, Some(1500.0));
    var first := Task("a", "Review", "", None, [Some("x")], 1400.0, 1500.0, false, [SubTask(true, "sub1")]);
    OneRowScenario(x, c);
    assert HasUuid([x], "a");
    LaterRowOnlyAddsTag([x], y, [c]);
    assert [x] + [y] == [x, y];
    var merged := Merged([x, y], [c]);
    assert |merged| == 1 && merged[0] == first.(tags := [Some("x"), Some("y")]);
  }
}
