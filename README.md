# Things logbook: fetch-and-merge engine

A Dafny model of the core of an Obsidian plugin that imports completed
Things 3 tasks into a daily note. The core has two parts, both in `src/things.ts`:

- **The merge engine** `buildTasksFromSQLRecords`. It folds flat SQL rows into
  one task per `uuid`. The task query yields one row per task×tag pairing,
  and the checklist query one row per checklist item. It uses a dictionary
  keyed by uuid. The first row of a uuid creates the task, and each later row
  appends its tag. Checklist rows then become subtasks of their task, and rows
  with no task are dropped.
- **The pagination drivers** `getTasksFromThingsLogbook` and
  `getChecklistItemsFromThingsLogbook`. Each queries repeatedly and appends
  every batch. It stops after a batch shorter than `TASK_FETCH_LIMIT` (1000).
  On any query error it throws `ThingsSQLiteSyncError` with a table-specific
  message.

Files:

- `Wrappers.dfy`: `Option` (JavaScript `undefined`/`null`) and `Result` (thrown errors).
- `JsText.dfy`: the JavaScript built-ins the merge relies on. These are
  `trimEnd`, `Number.parseInt` without a radix, and the ECMAScript whitespace
  set.
- `Things.dfy`: the record shapes and the constants. It also holds a
  declarative specification of the merge (`Merged`, with one task per distinct
  uuid in order of first appearance), the two loops as methods, and
  `BuildTasksFromSQLRecords`, which is proved to return `Merged`.
- `MergeProperties.dfy`: the properties of `Merged`. These cover uniqueness,
  order, tag cardinality, first-row-wins, the `cancelled` and title
  derivations, orphan dropping and subtask attachment.
- `Logbook.dfy`: the shared fetch loop and the two drivers. The query is an
  abstract sequence of responses, one per call. This file also holds the
  finding about re-issuing the same query.

Modelling choices:

- A row's `tag` is `Option<string>`. A task with no tag yields one row whose
  tag is absent, and that absence is pushed as a `None` entry.
- Timestamps are `real` (JavaScript numbers).
- A checklist row's `stopDate` is `Option<real>`. A subtask is completed when
  the value is truthy, that is present and non-zero.
- `cancelled` is `Number.parseInt(status) === 2`, with `parseInt` modelled as
  written in ECMA-262: leading whitespace, an optional sign, a `0x` prefix
  switching to radix 16, then the longest run of digits. So " 2", "2.5" and
  "0x2" all mark a task cancelled.
- The merge's dictionary is local to the function. So it is modelled as two
  local variables: `keys` (insertion order) and `byId` (a map the loops
  reassign).

Behaviour of the code that the model keeps, though a reader might expect otherwise:

- The thrown error carries only its message; the underlying cause is only logged.
- A failed pass returns no rows at all. Rows fetched before the failure are not kept.
- `cancelled` compares the *parsed* status with 2, not the raw value.
- `completed` is JavaScript truthiness of `stopDate`, so a `stopDate` of 0 is not completed.

## Model

| member | source | states |
|---|---|---|
| `JsText.IsWhitespace` | src/things.ts:66 | the ECMAScript WhiteSpace and LineTerminator code points that `trimEnd` strips and `parseInt` skips; none of them is a digit of any radix or a sign |
| `JsText.ParseInt` | src/things.ts:65 | `Number.parseInt` without a radix: skip leading whitespace, an optional sign, a `0x` prefix switching to radix 16, then the longest digit run (via `ParseSigned`, `ParseMagnitude`, `DigitRun`, `DigitsValue`). A number comes only from text with a decimal digit in it, and a negative one only from text with a `-` |
| `JsText.DigitRun` | src/things.ts:65 | the length of the longest prefix made of digits of the radix: every character before it is a digit and the one at it is not |
| `JsText.TrimEnd` | src/things.ts:66 | the result is a prefix of the input that does not end in whitespace, and everything it drops is whitespace |
| `JsText.TrimEndUnique` | src/things.ts:66 | those three properties determine `trimEnd`'s result uniquely |
| `JsText.TrimEndIdempotent` | src/things.ts:66 | trimming twice equals trimming once |
| `JsText.ParseIntDecimalPrefix` | src/things.ts:65 | on text starting with a decimal digit (and not `0x`), `parseInt` is the value of the leading digit run |
| `JsText.ParseIntOfDecimal` | src/things.ts:65 | `parseInt` reads back the decimal rendering of any natural number, whatever non-digit text follows it (after a lone `0`, text starting with `x` switches to hex and is excluded) |
| `Things.IsCancelledStatus` | src/things.ts:65 | a status is cancelled when `parseInt` reads it as 2; one without a decimal digit never is, and the decimal rendering of n is cancelled exactly when n is 2 |
| `Things.TaskFromRecord` | src/things.ts:63-69 | the task a uuid's first row creates: uuid, notes, area and dates copied, title `title \|\| ""` with trailing whitespace stripped, tags the row's one tag, no subtasks, cancelled as the status says |
| `Things.SubTaskFromItem` | src/things.ts:75-78 | the subtask a checklist row becomes: completed exactly when `stopDate` is present and non-zero (`!!stopDate`), title with trailing whitespace stripped |
| `Things.Uuids` | src/things.ts:55-71 | the dictionary's keys: each uuid of the rows exactly once, and nothing else |
| `Things.FirstIndex` | src/things.ts:60-63 | the index of the first row of a uuid, the row that creates its task |
| `Things.GroupedTaskAfterRow` | src/things.ts:60-61 | a later row of a known uuid only appends its tag to that uuid's task; other tasks are unchanged |
| `Things.GroupedTaskOfFirstRow` | src/things.ts:62-69 | the first row of a uuid creates the task from its own fields, with one tag entry |
| `Things.MergedTaskAfterItem` | src/things.ts:84-90 | one more checklist row appends one subtask to its own task only |
| `Things.Grouping` | src/things.ts:55-71 | the first loop's dictionary has a key exactly for each uuid of the rows |
| `Things.Attaching` | src/things.ts:73-91 | the second loop never adds or removes a key (no orphan task is created) |
| `Things.GroupingIsGrouped` | src/things.ts:56-71 | each entry built by the first loop has its first row's fields and one tag per row of its uuid |
| `Things.AttachingIsMerged` | src/things.ts:73-91 | each entry after the second loop also has one subtask per checklist row naming it |
| `Things.GroupTaskRecords` | src/things.ts:55-71 | the first `forEach` builds exactly the first-appearance key order and the grouped tasks |
| `Things.AttachChecklistItems` | src/things.ts:73-91 | the second `forEach` attaches each checklist row to its task and drops orphans |
| `Things.BuildTasksFromSQLRecords` | src/things.ts:51-94 | the merge returns exactly the declarative specification `Merged` |
| `MergeProperties.MergedAt` | src/things.ts:93 | result element k is the merged task of the k-th distinct uuid |
| `MergeProperties.OneTaskPerUuid` | src/things.ts:55-71 | a task for a uuid exists exactly when a task row has that uuid, and no uuid has two tasks |
| `MergeProperties.UuidsInFirstAppearanceOrder` | src/things.ts:63 | the dictionary's keys are ordered by the index of each uuid's first row |
| `MergeProperties.TasksInFirstAppearanceOrder` | src/things.ts:93 | the returned tasks are ordered by the index of their first row |
| `MergeProperties.TagCount` | src/things.ts:61 | a uuid's tag list has as many entries as that uuid has rows |
| `MergeProperties.MergedTags` | src/things.ts:61-68 | a task's tags are its rows' tags in row order, one per row, absent tags included |
| `MergeProperties.LaterRowOnlyAddsTag` | src/things.ts:60-61 | a later row of a known uuid changes only that task's tags, by appending its tag |
| `MergeProperties.FirstRowAddsTask` | src/things.ts:62-69 | a uuid's first row appends one task built from that row: trimmed title, parsed `cancelled`, one tag entry |
| `MergeProperties.TitleTrimmed` | src/things.ts:66 | a task title is a prefix of the row title (`""` if absent), has no trailing whitespace, and is unchanged by trimming again |
| `MergeProperties.CancelledExactlyForStatusTwo` | src/things.ts:49-65 | a status holding the number n marks the task cancelled exactly when n is 2 |
| `MergeProperties.OrphanItemDropped` | src/things.ts:74-84 | a checklist row whose taskId matches no task row changes the result in no way |
| `MergeProperties.OrphanItemDroppedAnywhere` | src/things.ts:73-91 | an orphan checklist row at any position among the checklist rows produces no subtask anywhere: the result equals the merge without it |
| `MergeProperties.MatchedItemAppendsSubtask` | src/things.ts:73-90 | a matched checklist row appends one subtask to its task, and no other task changes. The subtask is completed iff its stopDate is present and non-zero, and its title is trimmed |
| `MergeProperties.SubtaskOrigin` | src/things.ts:84-86 | every subtask comes from a checklist row naming its task |
| `MergeProperties.SubtaskCount` | src/things.ts:86 | a task gets one subtask per checklist row naming it |
| `MergeProperties.MergedSubtasks` | src/things.ts:73-91 | each returned task has exactly one subtask per checklist row naming it, each made from such a row |
| `MergeProperties.OneRowScenario` | src/things.ts:56-91 | one task row and one checklist row merge into one task with one tag entry and one subtask |
| `MergeProperties.TwoTagsOneSubtaskScenario` | src/things.ts:51-94 | two tag rows of one task and a checklist row merge into one task with tags x, y and one completed subtask |
| `Logbook.EndsPass` | src/things.ts:157-170 | the stop test `batch.length < TASK_FETCH_LIMIT`, together with a failing query that leaves the loop through the catch: an error or a batch shorter than 1000 rows ends the pass, a batch of exactly 1000 does not |
| `Logbook.FetchAll` | src/things.ts:150-173 | the pass stops at the first error or short batch. Every earlier batch had at least 1000 rows, so a batch of exactly 1000 does not stop it. On success it returns all batches concatenated; on error it returns only the table's error |
| `Logbook.GetTasksFromThingsLogbook` | src/things.ts:149-174 | the task pass as above, failing with "fetch Tasks failed" |
| `Logbook.GetChecklistItemsFromThingsLogbook` | src/things.ts:176-203 | the checklist pass as above, failing with "fetch Subtasks failed" |
| `Logbook.FirstPage` | src/things.ts:96-128 | the query as written returns the first rows of the matching rows in query order: all of them when fewer than 1000 match, otherwise exactly the first 1000 |
| `Logbook.IdenticalQueryNeverDrains` | src/things.ts:155-161 | with at least 1000 matching rows and an unchanged database, no sequence of responses ends the pass |
| `Logbook.Page` | src/things.ts:157-161 | a page at an offset is the next at most 1000 rows of the table from that offset |
| `Logbook.FetchAllByOffset` | src/things.ts:155-167 | with an advancing offset, the loop returns every row exactly once in order, after rows/1000 + 1 queries |

## Findings

| source | as written | input that shows it | evidently intended | confidence | as-written member | corrected member |
|---|---|---|---|---|---|---|
| src/things.ts:155-161 | every iteration re-issues the identical query: same watermark, no offset, cursor advance commented out | 1000 or more matching rows (e.g. a first sync of a logbook with 1000 completed task×tag rows) on an unchanged database: every call returns the same full page, so the loop never ends and keeps appending duplicates | each call fetches the next page, so the pass ends with every row once | high (not executed) | `Logbook.IdenticalQueryNeverDrains` | `Logbook.FetchAllByOffset` |

The drivers `GetTasksFromThingsLogbook` and `GetChecklistItemsFromThingsLogbook`
keep the loop as written, over an abstract sequence of responses. Their
precondition `Drains` says the source eventually fails or returns a short
batch. `FetchAllByOffset` is the same loop, without the error branch, once
the query pages by offset, and it needs no such precondition. Offset paging
is this model's chosen correction: the advance commented out at
src/things.ts:161 is a `stopDate` cursor, and the updated `stopTime` would
still have to be passed to the query.

## Left out

- The SQL text and `querySqliteDB` (src/things.ts:96-147) are foreign calls into SQLite. Each call is one element of the `responses` argument. Their filters are not modelled: not trashed, `stopDate > watermark` (strict), checklist `status = 3` and non-empty title. The ordering and the `LIMIT` appear only in `FirstPage` and `Page`, which serve the finding above. The watermark `latestSyncTime` is therefore not a parameter of the drivers.
- Termination of the fetch loops is not claimed in general: `Drains` is an explicit precondition (see Findings).
- Resolving the database path with `os.homedir()` (src/things.ts:44) is environment access.
- The `console.debug`/`console.error` logging is observability only.
- `async`/`await`: each pass is sequential, so it is an ordinary loop.
- `Object.values` lists integer-like keys first, and a key such as `constructor` finds an inherited property in `tasks[id]`. The model assumes uuids are neither, as Things' generated identifiers are not; it uses plain insertion order.
- NaN and other non-finite numbers are not modelled. Integers too large to be exact after `parseInt` are taken at their exact value; only equality with 2 is observed, and rounding cannot turn another integer into 2.
- A checklist row's `title` is assumed to be a string, as its declared type says. A null title would make `trimEnd` throw.
- The spread `...other` copies only the declared columns here. Task objects are values in the dictionary, not shared references; nothing else holds them during the merge.
- The `else` branch at src/things.ts:87-88 cannot run, because every task starts with an empty subtask list; both branches append.
- `src/settings.ts` (the settings tab and `DEFAULT_SETTINGS`) is UI and constant configuration, not part of this model.
